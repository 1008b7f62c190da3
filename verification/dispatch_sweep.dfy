/** The recovery sweep that re-dispatches stale import runs, fifty at a time. */
module DispatchSweep {
  import opened Options

  const WORK_RECOVERY_AGE_SECONDS := 300
  const WORK_RECOVERY_BATCH_SIZE := 50

  datatype Status = Queued | Processing | Other

  /** The columns of an import run that the sweep reads and writes. */
  datatype Work = Work(status: Status, leaseUntil: Option<int>, dispatchedAt: int)

  type Table = map<nat, Work>

  predicate Eligible(work: Work, now: int) {
    && work.status != Other
    && work.dispatchedAt <= now - WORK_RECOVERY_AGE_SECONDS
    && (work.status == Queued || work.leaseUntil.None? || work.leaseUntil.value <= now)
  }

  /** A queued run that nobody was told of for five minutes, or a processing one whose lease ran out as well; a run
      with a running lease is not among them. */
  predicate Stale(work: Work, now: int) {
    match work.status
    case Queued => now - work.dispatchedAt >= 300
    case Processing => now - work.dispatchedAt >= 300 && (work.leaseUntil == None || work.leaseUntil.value <= now)
    case Other => false
  }

  /** The order of the query: by time of dispatch, then by identity. */
  predicate Before(rows: Table, i: nat, j: nat)
    requires i in rows && j in rows
  {
    rows[i].dispatchedAt < rows[j].dispatchedAt || (rows[i].dispatchedAt == rows[j].dispatchedAt && i < j)
  }

  function Candidates(rows: Table, now: int, locked: set<nat>): set<nat> {
    set i | i in rows && i !in locked && Eligible(rows[i], now)
  }

  function Redispatched(work: Work, now: int): Work {
    if work.status == Processing then Work(Queued, None, now) else work.(dispatchedAt := now)
  }

  function Restamped(rows: Table, selected: set<nat>, now: int): Table {
    map i | i in rows :: if i in selected then Redispatched(rows[i], now) else rows[i]
  }

  function Elements(s: seq<nat>): set<nat> { set i | i in s }

  /** The rows of the query: the first eligible unlocked ones, at most a batch, in order and without repetition. */
  ghost predicate IsSelection(rows: Table, now: int, locked: set<nat>, selected: seq<nat>) {
    && |selected| <= WORK_RECOVERY_BATCH_SIZE
    && (forall i | i in selected :: i in Candidates(rows, now, locked))
    && (forall a, b | 0 <= a < b < |selected| :: selected[a] in rows && selected[b] in rows && Before(rows, selected[a], selected[b]))
    && (forall i | i in Candidates(rows, now, locked) && i !in selected ::
          |selected| == WORK_RECOVERY_BATCH_SIZE && forall j | j in selected :: j in rows && Before(rows, j, i))
  }

  class Reconciler {
    var rows: Table
    /** Identities of the recovery events, in order. */
    var outbox: seq<nat>

    constructor (rows: Table)
      ensures this.rows == rows && outbox == []
    {
      this.rows, outbox := rows, [];
    }

    /** One sweep, in one transaction: each selected row is stamped and gets one outbox row. */
    method Sweep(now: int, locked: set<nat>) returns (selected: seq<nat>)
      modifies this
      ensures IsSelection(old(rows), now, locked, selected)
      ensures rows == Restamped(old(rows), Elements(selected), now)
      ensures outbox == old(outbox) + selected
      ensures forall i | i in selected :: i in old(rows) && i !in locked && Stale(old(rows)[i], now)
      ensures |selected| < 50 ==> forall i | i in old(rows) && i !in locked && Stale(old(rows)[i], now) :: i in selected
      ensures rows.Keys == old(rows).Keys
      ensures forall i | i in rows ::
                rows[i] == if i !in selected then old(rows)[i]
                           else if old(rows)[i].status == Processing then Work(Queued, None, now)
                           else old(rows)[i].(dispatchedAt := now)
    {
      selected := Select(rows, now, locked);
      ghost var done: set<nat> := {};
      assert rows == Restamped(rows, done, now);
      for k := 0 to |selected|
        invariant done == Elements(selected[..k])
        invariant rows == Restamped(old(rows), done, now)
        invariant outbox == old(outbox) + selected[..k]
      {
        var id := selected[k];
        assert id in selected && id !in done;
        assert id in Candidates(old(rows), now, locked);
        rows := rows[id := Redispatched(rows[id], now)];
        outbox := outbox + [id];
        done := done + {id};
        assert selected[..k + 1] == selected[..k] + [id];
      }
      assert selected[..|selected|] == selected;
    }
  }

  /** The query: takes the first remaining candidate until the batch is full or none is left. */
  method Select(rows: Table, now: int, locked: set<nat>) returns (selected: seq<nat>)
    ensures IsSelection(rows, now, locked, selected)
  {
    selected := [];
    var todo := Candidates(rows, now, locked);
    while todo != {} && |selected| < WORK_RECOVERY_BATCH_SIZE
      invariant |selected| <= WORK_RECOVERY_BATCH_SIZE && todo <= Candidates(rows, now, locked)
      invariant forall i :: i in selected <==> i in Candidates(rows, now, locked) && i !in todo
      invariant forall a, b | 0 <= a < b < |selected| ::
                  selected[a] in rows && selected[b] in rows && Before(rows, selected[a], selected[b])
      invariant forall i, j | i in todo && j in selected :: i in rows && j in rows && Before(rows, j, i)
    {
      var first := First(rows, todo);
      selected := selected + [first];
      todo := todo - {first};
    }
  }

  method First(rows: Table, ids: set<nat>) returns (first: nat)
    requires ids != {} && ids <= rows.Keys
    ensures first in ids && forall i | i in ids && i != first :: Before(rows, first, i)
  {
    first :| first in ids;
    var todo := ids - {first};
    while todo != {}
      invariant todo <= ids && first in ids
      invariant forall i | i in ids && i !in todo && i != first :: Before(rows, first, i)
    {
      var i :| i in todo;
      todo := todo - {i};
      if Before(rows, i, first) {
        first := i;
      }
    }
  }

  // ---- No starvation ----

  /** Rows that the query puts before row r. */
  function Ahead(rows: Table, r: nat): set<nat>
    requires r in rows
  {
    set i | i in rows && Before(rows, i, r)
  }

  /** One sweep and what it found and left. */
  datatype Round = Round(before: Table, now: int, locked: set<nat>, selected: seq<nat>)
  {
    function After(): Table { Restamped(before, Elements(selected), now) }

    ghost predicate Skips(r: nat) {
      && IsSelection(before, now, locked, selected)
      && r in before && Eligible(before[r], now) && r !in locked && r !in selected
    }
  }

  /** What other writers may do between sweeps: they stamp rows with later times than that of r,
      which they leave alone. */
  ghost predicate Quiet(rows: Table, next: Table, r: nat) {
    && r in rows && r in next && next[r].dispatchedAt == rows[r].dispatchedAt
    && forall i | i in next :: (i in rows && next[i].dispatchedAt == rows[i].dispatchedAt)
                               || next[i].dispatchedAt > rows[r].dispatchedAt
  }

  lemma {:induction false} Distinct(s: seq<nat>)
    requires forall a, b | 0 <= a < b < |s| :: s[a] != s[b]
    ensures |Elements(s)| == |s|
  {
    if s != [] {
      var front := s[..|s| - 1];
      Distinct(front);
      assert Elements(s) == Elements(front) + {s[|s| - 1]};
    }
  }

  /** A sweep that skips an eligible row takes a whole batch out of the rows ahead of it. */
  lemma SkipShrinks(round: Round, r: nat)
    requires round.Skips(r)
    ensures r in round.After() && round.After()[r] == round.before[r]
    ensures |Ahead(round.After(), r)| + WORK_RECOVERY_BATCH_SIZE == |Ahead(round.before, r)|
  {
    var chosen := Elements(round.selected);
    assert r in Candidates(round.before, round.now, round.locked);
    Distinct(round.selected);
    assert chosen <= Ahead(round.before, r);
    assert Ahead(round.After(), r) == Ahead(round.before, r) - chosen;
  }

  lemma QuietShrinks(rows: Table, next: Table, r: nat)
    requires Quiet(rows, next, r)
    ensures |Ahead(next, r)| <= |Ahead(rows, r)|
  {
    assert Ahead(next, r) <= Ahead(rows, r);
    Monotone(Ahead(next, r), Ahead(rows, r));
  }

  lemma Monotone(a: set<nat>, b: set<nat>)
    requires a <= b
    ensures |a| <= |b|
  {
    assert b == a + (b - a);
  }

  /** Successive sweeps that all skip row r. */
  ghost predicate Starves(rounds: seq<Round>, r: nat) {
    && (forall k | 0 <= k < |rounds| :: rounds[k].Skips(r))
    && forall k | 0 < k < |rounds| :: Quiet(rounds[k - 1].After(), rounds[k].before, r)
  }

  lemma {:induction false} EachSkipCosts(rounds: seq<Round>, r: nat)
    requires Starves(rounds, r) && rounds != []
    ensures r in rounds[0].before && r in rounds[|rounds| - 1].After()
    ensures |Ahead(rounds[|rounds| - 1].After(), r)| + WORK_RECOVERY_BATCH_SIZE * |rounds| <= |Ahead(rounds[0].before, r)|
  {
    var last := |rounds| - 1;
    SkipShrinks(rounds[last], r);
    if last > 0 {
      var front := rounds[..last];
      assert Starves(front, r) by {
        assert forall k | 0 <= k < |front| :: front[k] == rounds[k];
      }
      EachSkipCosts(front, r);
      QuietShrinks(rounds[last - 1].After(), rounds[last].before, r);
    }
  }

  /** A row that stays eligible with K rows stamped before it is skipped by at most K / 50 sweeps in a
      row, so one of any K / 50 + 1 sweeps re-dispatches it. */
  lemma NoStarvation(rounds: seq<Round>, r: nat)
    requires Starves(rounds, r)
    ensures rounds != [] ==> r in rounds[0].before && |rounds| <= |Ahead(rounds[0].before, r)| / WORK_RECOVERY_BATCH_SIZE
  {
    if rounds != [] { EachSkipCosts(rounds, r); }
  }

  // ---- A run that attains the bound ----

  /** Queued rows 0 .. 50 n, of which the first k batches were dispatched, one a second. */
  function Backlog(n: nat, k: nat): Table {
    map i: nat | i <= 50 * n :: Work(Queued, None, if i < 50 * k then 300 + i / 50 else 0)
  }

  function Batch(k: nat): seq<nat> { seq(50, j requires 0 <= j < 50 => 50 * k + j) }

  function RoundAt(n: nat, k: nat): Round { Round(Backlog(n, k), 300 + k, {}, Batch(k)) }

  lemma BatchHolds(k: nat)
    ensures forall i: nat :: i in Batch(k) <==> 50 * k <= i < 50 * k + 50
  {
    forall i: nat | 50 * k <= i < 50 * k + 50
      ensures i in Batch(k)
    {
      assert Batch(k)[i - 50 * k] == i;
    }
  }

  lemma BatchIsSelected(n: nat, k: nat)
    requires k < n
    ensures RoundAt(n, k).Skips(50 * n)
  {
    var rows, selected := Backlog(n, k), Batch(k);
    BatchHolds(k);
    forall i | i in Candidates(rows, 300 + k, {}) && i !in selected
      ensures forall j | j in selected :: Before(rows, j, i)
    {
    }
  }

  lemma BatchIsStamped(n: nat, k: nat)
    requires k < n
    ensures RoundAt(n, k).After() == Backlog(n, k + 1)
  {
    var rows, selected, after := Backlog(n, k), Batch(k), Backlog(n, k + 1);
    BatchHolds(k);
    forall i: nat | i <= 50 * n
      ensures RoundAt(n, k).After()[i] == after[i]
    {
    }
  }

  lemma AllAhead(n: nat)
    ensures |Ahead(Backlog(n, 0), 50 * n)| == 50 * n
  {
    var ids := seq(50 * n, j requires 0 <= j < 50 * n => j);
    Distinct(ids);
    var ahead := Ahead(Backlog(n, 0), 50 * n);
    forall i: nat | i < 50 * n
      ensures i in Elements(ids)
    {
      assert ids[i] == i;
    }
    forall i: nat
      ensures i in ahead <==> i < 50 * n
    {
    }
    assert ahead == Elements(ids);
  }

  /** The bound is tight: for every n there is a run in which n sweeps skip a row that has 50 n rows ahead. */
  lemma BoundIsAttained(n: nat) returns (rounds: seq<Round>, r: nat)
    requires n > 0
    ensures Starves(rounds, r) && |rounds| == n
    ensures r in rounds[0].before && |Ahead(rounds[0].before, r)| / WORK_RECOVERY_BATCH_SIZE == n
  {
    r := 50 * n;
    rounds := seq(n, k requires 0 <= k < n => RoundAt(n, k));
    forall k | 0 <= k < n
      ensures rounds[k].Skips(r) && (k > 0 ==> Quiet(rounds[k - 1].After(), rounds[k].before, r))
    {
      BatchIsSelected(n, k);
      if k > 0 { BatchIsStamped(n, k - 1); }
    }
    AllAhead(n);
  }
}
