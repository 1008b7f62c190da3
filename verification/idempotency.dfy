/** Idempotent requests: concurrent calls under advisory locks, each in one transaction. */
module Idempotency {
  import opened Options

  /** `request_once` stores a fingerprint with its result, `once` stores the result alone. */
  datatype Family = Once | RequestOnce

  datatype Request = Request(family: Family, key: string, fingerprint: string)
  datatype Record = Record(fingerprint: Option<string>, result: int)

  /** What a caller gets: a result, or the whole stored envelope of a `request_once`. */
  datatype Reply = Result(result: int) | Envelope(record: Record)

  datatype Call =
    | Waiting(request: Request)
    | Working(request: Request)
    | Prepared(request: Request, result: int)
    | Answered(request: Request, reply: Reply)
    | Refused(request: Request)
    | Aborted(request: Request)
  {
    predicate Inside() { Working? || Prepared? }
    function Lock(): (Family, string) { (request.family, request.key) }
  }

  /** Committed state (records, and the callbacks whose effects committed) with the open calls and their locks. */
  datatype System = System(records: map<string, Record>, effects: seq<(string, int)>,
                           locks: map<(Family, string), nat>, calls: map<nat, Call>)

  datatype Act = Arrive(request: Request) | Enter | Callback(result: int) | Commit | Abort

  function Unlocked(w: System, call: Call): map<(Family, string), nat> { w.locks - {call.Lock()} }

  function NewRecord(request: Request, result: int): Record {
    Record(if request.family == RequestOnce then Some(request.fingerprint) else None, result)
  }

  /** Whether a call and a record come from the same kind of request. */
  predicate SameFamily(request: Request, record: Record) { request.family == RequestOnce <==> record.fingerprint.Some? }

  /** The reply read off an existing record: `once` returns whatever is stored. */
  function Replay(request: Request, record: Record): Call {
    if request.family == RequestOnce then
      if record.fingerprint != Some(request.fingerprint) then Refused(request) else Answered(request, Result(record.result))
    else Answered(request, if record.fingerprint.None? then Result(record.result) else Envelope(record))
  }

  predicate Enabled(w: System, n: nat, act: Act) {
    match act
    case Arrive(_) => n !in w.calls
    case Enter => n in w.calls && w.calls[n].Waiting? && w.calls[n].Lock() !in w.locks
    case Callback(_) => n in w.calls && w.calls[n].Working?
    case Commit => n in w.calls && w.calls[n].Prepared?
    case Abort => n in w.calls && (w.calls[n].Waiting? || w.calls[n].Inside())
  }

  /** The lock and the transaction end together. A commit that finds its key recorded
      violates the primary key of the records and aborts. */
  function Next(w: System, n: nat, act: Act): System
    requires Enabled(w, n, act)
  {
    match act
    case Arrive(request) => w.(calls := w.calls[n := Waiting(request)])
    case Enter =>
      var call := w.calls[n];
      var request := call.request;
      if request.key in w.records then w.(calls := w.calls[n := Replay(request, w.records[request.key])])
      else w.(locks := w.locks[call.Lock() := n], calls := w.calls[n := Working(request)])
    case Callback(result) => w.(calls := w.calls[n := Prepared(w.calls[n].request, result)])
    case Commit =>
      var call := w.calls[n];
      var request := call.request;
      if request.key in w.records then
        w.(locks := Unlocked(w, call), calls := w.calls[n := Aborted(request)])
      else
        System(w.records[request.key := NewRecord(request, call.result)], w.effects + [(request.key, call.result)],
               Unlocked(w, call), w.calls[n := Answered(request, Result(call.result))])
    case Abort =>
      var call := w.calls[n];
      w.(locks := if call.Inside() then Unlocked(w, call) else w.locks, calls := w.calls[n := Aborted(call.request)])
  }

  ghost predicate Execution(states: seq<System>, acts: seq<(nat, Act)>) {
    && |states| == |acts| + 1
    && states[0] == System(map[], [], map[], map[])
    && forall k | 0 <= k < |acts| ::
         Enabled(states[k], acts[k].0, acts[k].1) && states[k + 1] == Next(states[k], acts[k].0, acts[k].1)
  }

  /** How often effects for a key were committed. */
  function Times(effects: seq<(string, int)>, key: string): nat {
    if effects == [] then 0
    else Times(effects[..|effects| - 1], key) + if effects[|effects| - 1].0 == key then 1 else 0
  }

  ghost predicate Recorded(w: System) {
    && (forall key :: Times(w.effects, key) == if key in w.records then 1 else 0)
    && (forall e | e in w.effects :: e.0 in w.records && w.records[e.0].result == e.1)
  }

  /** Each lock has exactly one call inside, and a call's reply agrees with the record. */
  ghost predicate Consistent(w: System) {
    && (forall lock | lock in w.locks :: w.locks[lock] in w.calls && w.calls[w.locks[lock]].Inside()
                                         && w.calls[w.locks[lock]].Lock() == lock)
    && (forall n | n in w.calls && w.calls[n].Inside() :: w.calls[n].Lock() in w.locks && w.locks[w.calls[n].Lock()] == n)
    && (forall n | n in w.calls && w.calls[n].Answered? ::
          && w.calls[n].request.key in w.records
          && var request, record := w.calls[n].request, w.records[w.calls[n].request.key];
             && w.calls[n].reply == (if SameFamily(request, record) then Result(record.result) else Envelope(record))
             && (request.family == RequestOnce ==> record.fingerprint == Some(request.fingerprint)))
    && (forall n | n in w.calls && w.calls[n].Refused? ::
          && w.calls[n].request.key in w.records
          && w.records[w.calls[n].request.key].fingerprint != Some(w.calls[n].request.fingerprint))
  }

  lemma TimesAppend(effects: seq<(string, int)>, e: (string, int), key: string)
    ensures Times(effects + [e], key) == Times(effects, key) + if e.0 == key then 1 else 0
  {
    assert (effects + [e])[..|effects|] == effects;
  }

  lemma StepRecords(w: System, n: nat, act: Act)
    requires Enabled(w, n, act) && Recorded(w)
    ensures Recorded(Next(w, n, act))
  {
    var next := Next(w, n, act);
    if act.Commit? && w.calls[n].request.key !in w.records {
      var e := (w.calls[n].request.key, w.calls[n].result);
      CommitRecords(w, next, e, NewRecord(w.calls[n].request, e.1));
    } else {
      assert next.effects == w.effects && next.records == w.records;
    }
  }

  lemma CommitRecords(w: System, next: System, e: (string, int), record: Record)
    requires Recorded(w) && e.0 !in w.records && record.result == e.1
    requires next.effects == w.effects + [e] && next.records == w.records[e.0 := record]
    ensures Recorded(next)
  {
    forall key
      ensures Times(next.effects, key) == if key in next.records then 1 else 0
    {
      TimesAppend(w.effects, e, key);
    }
  }

  lemma EndingStaysConsistent(w: System, n: nat, act: Act)
    requires (act.Commit? || act.Abort?) && Enabled(w, n, act) && Consistent(w)
    ensures Consistent(Next(w, n, act))
  {
  }

  lemma StepStaysConsistent(w: System, n: nat, act: Act)
    requires Enabled(w, n, act) && Consistent(w)
    ensures Consistent(Next(w, n, act))
  {
    if act.Commit? || act.Abort? { EndingStaysConsistent(w, n, act); }
  }

  /** In every interleaving, the effects for one key commit at most once. */
  lemma {:induction false} EffectsAtMostOnce(states: seq<System>, acts: seq<(nat, Act)>, k: nat)
    requires Execution(states, acts) && k <= |acts|
    ensures Recorded(states[k]) && Consistent(states[k])
    ensures forall key :: Times(states[k].effects, key) <= 1
  {
    if k > 0 {
      EffectsAtMostOnce(states, acts, k - 1);
      assert states[k - 1 + 1] == Next(states[k - 1], acts[k - 1].0, acts[k - 1].1);
      StepRecords(states[k - 1], acts[k - 1].0, acts[k - 1].1);
      StepStaysConsistent(states[k - 1], acts[k - 1].0, acts[k - 1].1);
    }
  }

  /** An answered call got the result that was committed for its key, exactly when the record comes from a
      call of its own family; otherwise `once` got the envelope that holds it. */
  lemma AnswersAreCommitted(states: seq<System>, acts: seq<(nat, Act)>, k: nat, n: nat)
    requires Execution(states, acts) && k <= |acts| && n in states[k].calls && states[k].calls[n].Answered?
    ensures var call := states[k].calls[n];
            && call.request.key in states[k].records
            && var record := states[k].records[call.request.key];
               && (call.reply == Result(record.result) <==> SameFamily(call.request, record))
               && (call.request.key, record.result) in states[k].effects
               && (!SameFamily(call.request, record) ==> call.request.family == Once && call.reply == Envelope(record))
  {
    EffectsAtMostOnce(states, acts, k);
    TimesFinds(states[k].effects, states[k].calls[n].request.key);
  }

  lemma {:induction false} TimesFinds(effects: seq<(string, int)>, key: string)
    requires Times(effects, key) > 0
    ensures exists e :: e in effects && e.0 == key
  {
    var last := |effects| - 1;
    if effects[last].0 == key {
      assert effects[last] in effects;
    } else {
      TimesFinds(effects[..last], key);
      var e :| e in effects[..last] && e.0 == key;
      assert e in effects;
    }
  }

  /** A record never changes, so no later call can commit effects for its key again. */
  lemma {:induction false} RecordsStay(states: seq<System>, acts: seq<(nat, Act)>, j: nat, k: nat, key: string)
    requires Execution(states, acts) && j <= k <= |acts| && key in states[j].records
    ensures key in states[k].records && states[k].records[key] == states[j].records[key]
    ensures Times(states[k].effects, key) == Times(states[j].effects, key) == 1
  {
    EffectsAtMostOnce(states, acts, j);
    EffectsAtMostOnce(states, acts, k);
    if j != k {
      RecordsStay(states, acts, j, k - 1, key);
      assert states[k - 1 + 1] == Next(states[k - 1], acts[k - 1].0, acts[k - 1].1);
    }
  }

  /** Once a key is recorded, a request under it commits nothing: with the recorded fingerprint it is
      answered with the recorded result, with another one it is refused. */
  lemma LaterRequest(states: seq<System>, acts: seq<(nat, Act)>, j: nat, k: nat)
    requires Execution(states, acts) && j <= k < |acts| && acts[k].1.Enter?
    requires states[k].calls[acts[k].0].request.family == RequestOnce
    requires states[k].calls[acts[k].0].request.key in states[j].records
    ensures var request := states[k].calls[acts[k].0].request;
            var record := states[j].records[request.key];
            && states[k + 1].calls[acts[k].0]
               == (if record.fingerprint == Some(request.fingerprint) then Answered(request, Result(record.result)) else Refused(request))
            && states[k + 1].records == states[k].records && states[k + 1].effects == states[k].effects
  {
    RecordsStay(states, acts, j, k, states[k].calls[acts[k].0].request.key);
  }

  lemma OneInside(w: System, m: nat, n: nat)
    requires Consistent(w) && m in w.calls && n in w.calls && w.calls[m].Inside() && w.calls[n].Inside()
    requires w.calls[m].Lock() == w.calls[n].Lock()
    ensures m == n
  {
    assert w.locks[w.calls[m].Lock()] == m && w.locks[w.calls[n].Lock()] == n;
  }

  predicate InsideFor(w: System, n: nat, key: string, family: Family) {
    n in w.calls && w.calls[n].Inside() && w.calls[n].request.key == key && w.calls[n].request.family == family
  }

  ghost predicate FamilyOf(w: System, key: string, family: Family) {
    forall m | m in w.calls && w.calls[m].request.key == key :: w.calls[m].request.family == family
  }

  lemma StepLeavesUnrecorded(w: System, m: nat, act: Act, n: nat, key: string, family: Family)
    requires Consistent(w) && Enabled(w, m, act) && FamilyOf(w, key, family)
    requires InsideFor(Next(w, m, act), n, key, family)
    requires InsideFor(w, n, key, family) ==> key !in w.records
    ensures key !in Next(w, m, act).records
  {
    if act.Commit? && w.calls[m].request.key == key {
      OneInside(w, m, n);
    }
  }

  /** Between requests of one family the lock alone suffices: no commit meets the primary key. */
  lemma {:induction false} LockSuffices(states: seq<System>, acts: seq<(nat, Act)>, k: nat, n: nat,
                                        key: string, family: Family)
    requires Execution(states, acts) && k <= |acts|
    requires forall i | 0 <= i <= k :: FamilyOf(states[i], key, family)
    requires InsideFor(states[k], n, key, family)
    ensures key !in states[k].records
  {
    if k > 0 {
      EffectsAtMostOnce(states, acts, k - 1);
      var before, m, act := states[k - 1], acts[k - 1].0, acts[k - 1].1;
      assert states[k - 1 + 1] == Next(before, m, act);
      if InsideFor(before, n, key, family) {
        LockSuffices(states, acts, k - 1, n, key, family);
      }
      StepLeavesUnrecorded(before, m, act, n, key, family);
    }
  }

  /** What a call achieves, in every run: one under an unrecorded key works on it; when it then commits and the key is
      still unrecorded, its effects, its record and its answer commit together, and otherwise nothing of it does. */
  lemma CommitTakesEffect(states: seq<System>, acts: seq<(nat, Act)>, k: nat)
    requires Execution(states, acts) && k < |acts| && acts[k].1.Commit?
    ensures acts[k].0 in states[k].calls && states[k].calls[acts[k].0].Prepared?
    ensures var w, next, n := states[k], states[k + 1], acts[k].0;
            var request, result := w.calls[n].request, w.calls[n].result;
            if request.key !in w.records then
              && next.effects == w.effects + [(request.key, result)]
              && next.records.Keys == w.records.Keys + {request.key} && next.records[request.key].result == result
              && next.records[request.key].fingerprint == (if request.family == RequestOnce then Some(request.fingerprint) else None)
              && n in next.calls && next.calls[n] == Answered(request, Result(result))
            else next.effects == w.effects && next.records == w.records && n in next.calls && next.calls[n] == Aborted(request)
  {
    assert Enabled(states[k], acts[k].0, acts[k].1);
  }

  /** A call that enters under an unrecorded key is let in, and holds the lock of its key alone. */
  lemma UnrecordedWorks(states: seq<System>, acts: seq<(nat, Act)>, k: nat)
    requires Execution(states, acts) && k < |acts| && acts[k].1.Enter?
    requires states[k].calls[acts[k].0].request.key !in states[k].records
    ensures var next, n := states[k + 1], acts[k].0;
            && n in next.calls && next.calls[n] == Working(states[k].calls[n].request)
            && next.effects == states[k].effects && next.records == states[k].records
            && forall m | m in next.calls && next.calls[m].Inside() && next.calls[m].Lock() == next.calls[n].Lock() :: m == n
  {
    EffectsAtMostOnce(states, acts, k + 1);
    assert Enabled(states[k], acts[k].0, acts[k].1);
    var next, n := states[k + 1], acts[k].0;
    forall m | m in next.calls && next.calls[m].Inside() && next.calls[m].Lock() == next.calls[n].Lock()
      ensures m == n
    {
      OneInside(next, m, n);
    }
  }

  /** Among requests of one family, every commit takes effect: none is aborted by a record of its key. */
  lemma CommitsSucceed(states: seq<System>, acts: seq<(nat, Act)>, k: nat)
    requires Execution(states, acts) && k < |acts| && acts[k].1.Commit?
    requires var request := states[k].calls[acts[k].0].request;
             forall i | 0 <= i <= k :: FamilyOf(states[i], request.key, request.family)
    ensures var call := states[k].calls[acts[k].0];
            (call.request.key, call.result) in states[k + 1].effects
            && states[k + 1].calls[acts[k].0] == Answered(call.request, Result(call.result))
  {
    var call := states[k].calls[acts[k].0];
    assert Enabled(states[k], acts[k].0, acts[k].1);
    LockSuffices(states, acts, k, acts[k].0, call.request.key, call.request.family);
    CommitTakesEffect(states, acts, k);
  }
}
