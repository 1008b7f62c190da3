/** Any number of scopes over one database: no committed update is lost. */
module Interleavings {
  import opened Options
  import opened Rows
  import opened Scopes
  import opened Overlay
  import opened QuiescentFlush

  // ---- Who writes to a candidate's place ----

  function Place(row: Row): (Value, Value) { (Get(row, ImportRunId), Get(row, Ordinal)) }

  /** A field of the row that the flush will write for a changed candidate. */
  function AimedField(rows: map<Id, Row>, s: Scope, k: Id, f: Field): Value
    requires k in s.loaded
  {
    if k in rows && s.Baseline(k).Some? && !Edited(s.Baseline(k).value, s.loaded[k], f) then Get(rows[k], f)
    else Get(s.loaded[k], f)
  }

  /** The place its upsert goes for. */
  function Aim(rows: map<Id, Row>, s: Scope, k: Id): (Value, Value)
    requires k in s.loaded
  {
    (AimedField(rows, s, k, ImportRunId), AimedField(rows, s, k, Ordinal))
  }

  function Home(rows: map<Id, Row>, s: Scope, i: Id): (Value, Value)
    requires i in rows || i in s.loaded
  {
    if i in rows then Place(rows[i]) else Aim(rows, s, i)
  }

  /** Another changed candidate goes for the place of candidate i. */
  predicate Rival(rows: map<Id, Row>, s: Scope, i: Id, k: Id)
    requires i in rows || i in s.loaded
  {
    k in s.Changed() && k.kind == ImportCandidates && k != i && Aim(rows, s, k) == Home(rows, s, i)
  }

  /** What a caller can check about one candidate: no other changed one goes for its place, and it keeps
      to that place itself, or finds it free when it is new. */
  ghost predicate Unclaimed(rows: map<Id, Row>, s: Scope, i: Id) {
    i in rows || i in s.Changed() ==>
      && (forall k :: !Rival(rows, s, i, k))
      && (i in s.Changed() && i in rows ==> Aim(rows, s, i) == Place(rows[i]))
      && (i !in rows ==> forall j | j in rows && j.kind == ImportCandidates :: Place(rows[j]) != Aim(rows, s, i))
  }

  /** A listing of changed rows that a flush got through. */
  ghost predicate FlushedBy(rows: Table, s: Scope, order: seq<Id>) {
    && (forall i | i in order :: i in s.Changed())
    && (forall a, b | 0 <= a < b < |order| :: order[a] != order[b])
    && FlushRows(rows, s, order).Some?
  }

  lemma FrontOf(rows: Table, s: Scope, order: seq<Id>)
    requires FlushedBy(rows, s, order) && order != []
    ensures FlushedBy(rows, s, order[..|order| - 1])
  {
    assert forall i | i in order[..|order| - 1] :: i in order;
  }

  lemma LastOf(rows: Table, s: Scope, order: seq<Id>) returns (front: seq<Id>, p: Progress, id: Id)
    requires FlushedBy(rows, s, order) && order != []
    ensures order == front + [id] && id !in front && id in s.Changed()
    ensures FlushedBy(rows, s, front) && FlushRows(rows, s, front) == Some(p)
    ensures FlushRows(rows, s, order) == FlushOne(p, s, id)
  {
    FrontOf(rows, s, order);
    front, id := order[..|order| - 1], order[|order| - 1];
    p := FlushRows(rows, s, front).value;
    assert id in order;
  }

  lemma {:induction false} NotYet(rows: Table, s: Scope, order: seq<Id>, k: Id)
    requires FlushedBy(rows, s, order) && k !in rows && k !in order
    ensures k !in FlushRows(rows, s, order).value.rows
    decreases |order|
  {
    if order != [] {
      var front, p, id := LastOf(rows, s, order);
      NotYet(rows, s, front, k);
      FlushOneFrame(p, s, id, k);
    }
  }

  lemma ResolvedPlace(baseline: Option<Row>, mine: Row, latest: Option<Row>, f: Field)
    requires Resolve(ImportCandidates, baseline, mine, latest).Some?
    ensures Get(Resolve(ImportCandidates, baseline, mine, latest).value, f)
            == if latest.Some? && baseline.Some? && !Edited(baseline.value, mine, f) then Get(latest.value, f) else Get(mine, f)
  {
    if baseline.Some? { MergeMeaning(baseline.value, mine, latest.value); }
  }

  /** At its turn, the upsert of a changed candidate goes for the place it aimed at from the start. */
  lemma TurnAims(rows: Table, s: Scope, front: seq<Id>, k: Id)
    requires FlushedBy(rows, s, front) && k in s.Changed() && k !in front && k.kind == ImportCandidates
    requires Turn(rows, s, front, k).Some?
    ensures Place(Turn(rows, s, front, k).value) == Aim(rows, s, k)
  {
    var p := FlushRows(rows, s, front).value;
    if k in rows { FlushKeepsPlaces(rows, s, front, k); } else { NotYet(rows, s, front, k); }
    ResolvedPlace(s.Baseline(k), s.loaded[k], Lookup(p.rows, k), ImportRunId);
    ResolvedPlace(s.Baseline(k), s.loaded[k], Lookup(p.rows, k), Ordinal);
  }

  /** The row a flush writes for k once the rows in front of it are written. */
  function Turn(rows: Table, s: Scope, front: seq<Id>, k: Id): Option<Row>
    requires (forall i | i in front :: i in s.loaded) && k in s.loaded && FlushRows(rows, s, front).Some?
  {
    Resolve(k.kind, s.Baseline(k), s.loaded[k], Lookup(FlushRows(rows, s, front).value.rows, k))
  }

  /** A candidate that the flush inserted is at the place it aimed at. */
  lemma {:induction false} NewPlaces(rows: Table, s: Scope, order: seq<Id>, j: Id)
    requires FlushedBy(rows, s, order) && j.kind == ImportCandidates && j !in rows
    requires j in FlushRows(rows, s, order).value.rows
    ensures j in order && j in s.loaded && Place(FlushRows(rows, s, order).value.rows[j]) == Aim(rows, s, j)
    decreases |order|
  {
    if order != [] {
      var front, p, id := LastOf(rows, s, order);
      FlushOneFrame(p, s, id, j);
      if j in p.rows {
        NewPlaces(rows, s, front, j);
      } else {
        TurnAims(rows, s, front, j);
      }
    }
  }

  lemma WriteElsewhere(rows: Table, id: Id, row: Row, i: Id)
    requires id.kind == ImportCandidates && WriteCandidate(rows, id, row).Some? && i != id
    requires i in rows && i.kind == ImportCandidates ==> Place(rows[i]) != Place(row)
    ensures Lookup(WriteCandidate(rows, id, row).value, i) == Lookup(rows, i)
  {
  }

  lemma WriteHere(rows: Table, id: Id, row: Row)
    requires id.kind == ImportCandidates
    requires if id in rows then Place(rows[id]) == Place(row) else forall j :: !Holds(rows, j, row)
    ensures WriteCandidate(rows, id, row) == Some(rows[id := row])
  {
    if id in rows { assert Holds(rows, id, row); }
  }

  /** The turn of another row leaves an unclaimed candidate alone. */
  lemma TurnOfAnother(rows: Table, s: Scope, front: seq<Id>, id: Id, i: Id)
    requires FlushedBy(rows, s, front) && id in s.Changed() && id !in front && i.kind == ImportCandidates && i != id
    requires FlushOne(FlushRows(rows, s, front).value, s, id).Some?
    requires i in rows || i in s.Changed() ==> !Rival(rows, s, i, id)
    ensures var p := FlushRows(rows, s, front).value; Lookup(FlushOne(p, s, id).value.rows, i) == Lookup(p.rows, i)
  {
    var p := FlushRows(rows, s, front).value;
    if id.kind == ImportCandidates {
      TurnAims(rows, s, front, id);
      if i in p.rows {
        if i in rows { FlushKeepsPlaces(rows, s, front, i); } else { NewPlaces(rows, s, front, i); }
      }
      WriteElsewhere(p.rows, id, Turn(rows, s, front, id).value, i);
    } else {
      FlushOneStores(p, s, id);
    }
  }

  /** At its own turn an unclaimed candidate is resolved and stored under its identity. */
  lemma OwnTurn(rows: Table, s: Scope, front: seq<Id>, i: Id)
    requires FlushedBy(rows, s, front) && i in s.Changed() && i !in front && i.kind == ImportCandidates
    requires Unclaimed(rows, s, i) && Lookup(FlushRows(rows, s, front).value.rows, i) == Lookup(rows, i)
    requires FlushOne(FlushRows(rows, s, front).value, s, i).Some?
    ensures var next := FlushOne(FlushRows(rows, s, front).value, s, i).value;
            var row := Resolve(i.kind, s.Baseline(i), s.loaded[i], Lookup(rows, i));
            row.Some? && Lookup(next.rows, i) == Lookup(next.committed, i) == row
  {
    var p := FlushRows(rows, s, front).value;
    var row := Turn(rows, s, front, i).value;
    TurnAims(rows, s, front, i);
    if i !in rows { PlaceIsFree(rows, s, front, i, row); }
    WriteHere(p.rows, i, row);
  }

  lemma PlaceIsFree(rows: Table, s: Scope, front: seq<Id>, i: Id, row: Row)
    requires FlushedBy(rows, s, front) && i in s.Changed() && i !in front && i.kind == ImportCandidates && i !in rows
    requires Unclaimed(rows, s, i) && Place(row) == Aim(rows, s, i)
    ensures forall j :: !Holds(FlushRows(rows, s, front).value.rows, j, row)
  {
    var now := FlushRows(rows, s, front).value.rows;
    forall j
      ensures !Holds(now, j, row)
    {
      if j in now && j.kind == ImportCandidates {
        if j in rows {
          FlushKeepsPlaces(rows, s, front, j);
        } else {
          NewPlaces(rows, s, front, j);
          assert !Rival(rows, s, i, j);
        }
      }
    }
  }

  /** An unclaimed candidate gets exactly its own resolution, or nothing. */
  lemma {:induction false} UnclaimedRow(rows: Table, s: Scope, order: seq<Id>, i: Id)
    requires FlushedBy(rows, s, order) && i.kind == ImportCandidates && Unclaimed(rows, s, i)
    ensures var p := FlushRows(rows, s, order).value;
            if i in order then
              var row := Resolve(i.kind, s.Baseline(i), s.loaded[i], Lookup(rows, i));
              row.Some? && Lookup(p.rows, i) == Lookup(p.committed, i) == row
            else Lookup(p.rows, i) == Lookup(rows, i)
    decreases |order|
  {
    if order != [] {
      var front, p, id := LastOf(rows, s, order);
      UnclaimedRow(rows, s, front, i);
      if i == id {
        OwnTurn(rows, s, front, i);
      } else {
        TurnOfAnother(rows, s, front, id, i);
        FlushOneFrame(p, s, id, i);
      }
    }
  }

  // ---- When another identity overwrites a candidate ----

  /** The stored candidate that the write of k goes to, after those in front: the holder of its place, or k itself. */
  function Target(rows: Table, s: Scope, front: seq<Id>, k: Id): Option<Id> {
    if (forall i | i in front :: i in s.loaded) && k in s.loaded && FlushRows(rows, s, front).Some? && Turn(rows, s, front, k).Some? then
      var holder := Holder(FlushRows(rows, s, front).value.rows, Turn(rows, s, front, k).value);
      if holder.Some? then holder else Some(k)
    else None
  }

  lemma {:induction false} PrefixFlushed(rows: Table, s: Scope, order: seq<Id>, n: nat)
    requires FlushedBy(rows, s, order) && n < |order|
    ensures FlushedBy(rows, s, order[..n]) && order[n] in s.Changed() && order[n] !in order[..n]
    ensures FlushOne(FlushRows(rows, s, order[..n]).value, s, order[n]).Some?
    decreases |order|
  {
    var front, p, id := LastOf(rows, s, order);
    if n < |front| {
      PrefixFlushed(rows, s, front, n);
      assert front[..n] == order[..n] && front[n] == order[n];
    } else {
      assert front == order[..n] && id == order[n];
    }
  }

  /** A stored candidate is the target of every changed candidate that aims at its place, and of no other. */
  lemma TargetIsAimed(rows: Table, s: Scope, order: seq<Id>, i: Id, n: nat)
    requires FlushedBy(rows, s, order) && n < |order| && order[n].kind == ImportCandidates
    requires i in rows && i.kind == ImportCandidates
    ensures order[n] in s.Changed()
    ensures Target(rows, s, order[..n], order[n]) == Some(i) <==> Aim(rows, s, order[n]) == Place(rows[i])
  {
    PrefixFlushed(rows, s, order, n);
    var now := FlushRows(rows, s, order[..n]).value.rows;
    var row := Turn(rows, s, order[..n], order[n]).value;
    TurnAims(rows, s, order[..n], order[n]);
    FlushKeepsPlaces(rows, s, order[..n], i);
    assert Holds(now, i, row) <==> Aim(rows, s, order[n]) == Place(rows[i]);
  }

  /** Row i is written at its own turn, and at no other. */
  ghost predicate WrittenByItself(rows: Table, s: Scope, order: seq<Id>, i: Id) {
    forall n | 0 <= n < |order| && order[n].kind == ImportCandidates ::
      Target(rows, s, order[..n], order[n]) == Some(i) <==> order[n] == i
  }

  /** A flush that commits writes to a stored candidate for no other identity exactly when it is unclaimed. */
  lemma OverwrittenExactly(rows: Table, s: Scope, order: seq<Id>, i: Id)
    requires FlushedBy(rows, s, order) && Enumerates(order, s.Changed()) && i in rows && i.kind == ImportCandidates
    ensures WrittenByItself(rows, s, order, i) <==> Unclaimed(rows, s, i)
  {
    if Unclaimed(rows, s, i) {
      forall n | 0 <= n < |order| && order[n].kind == ImportCandidates
        ensures Target(rows, s, order[..n], order[n]) == Some(i) <==> order[n] == i
      {
        TargetIsAimed(rows, s, order, i, n);
        assert !Rival(rows, s, i, order[n]);
      }
    }
    if WrittenByItself(rows, s, order, i) {
      forall k | k in s.Changed() && k.kind == ImportCandidates
        ensures Aim(rows, s, k) == Place(rows[i]) <==> k == i
      {
        assert k in order;
        var n :| 0 <= n < |order| && order[n] == k;
        TargetIsAimed(rows, s, order, i, n);
      }
    }
  }

  /** One write leaves every other row as it was exactly when no other identity holds its place, or the
      holder has the same fields outside the links. */
  lemma OthersUntouched(rows: Table, id: Id, row: Row)
    requires id.kind == ImportCandidates && WriteCandidate(rows, id, row).Some?
    ensures var next, holder := WriteCandidate(rows, id, row).value, Holder(rows, row);
            (forall i | i in rows && i != id :: i in next && Same(next[i], rows[i]))
            <==> (holder == None || holder == Some(id)
                  || forall f | f != ExistingEntityId && f != ProcessingQueueId :: Get(row, f) == Get(rows[holder.value], f))
  {
    var next, holder := WriteCandidate(rows, id, row).value, Holder(rows, row);
    forall i | i in rows && i != id
      ensures i in next && next[i] == if holder == Some(i) then Overlaid(rows[i], row, CandidateLink) else rows[i]
    {
      WrittenOver(rows, id, row, i);
    }
    if holder.Some? && holder.value != id { OverlaidSame(rows[holder.value], row); }
  }

  /** The links of a stored candidate are written under its own identity, wherever the rest of the row goes. */
  lemma LinksGoById(rows: Table, id: Id, row: Row)
    requires id.kind == ImportCandidates && WriteCandidate(rows, id, row).Some?
    ensures var next := WriteCandidate(rows, id, row).value;
            id in next ==> Get(next[id], ExistingEntityId) == Get(row, ExistingEntityId)
                           && Get(next[id], ProcessingQueueId) == Get(row, ProcessingQueueId)
  {
  }

  lemma OverlaidSame(stored: Row, row: Row)
    ensures Same(Overlaid(stored, row, CandidateLink), stored) <==> forall f | !CandidateLink(f) :: Get(row, f) == Get(stored, f)
  {
    forall f
      ensures Get(Overlaid(stored, row, CandidateLink), f) == if CandidateLink(f) then Get(stored, f) else Get(row, f)
    {
    }
  }

  /** What the last rival wrote over candidate i, if any did. */
  function LastRival(rows: Table, s: Scope, order: seq<Id>, i: Id): Option<Row> {
    if order == [] then None
    else
      var front, id := order[..|order| - 1], order[|order| - 1];
      if id.kind == ImportCandidates && Target(rows, s, front, id) == Some(i) then Turn(rows, s, front, id)
      else LastRival(rows, s, front, i)
  }

  lemma {:induction false} UneditedRow(rows: Table, s: Scope, order: seq<Id>, i: Id)
    requires FlushedBy(rows, s, order) && i in rows && i.kind == ImportCandidates && i !in order
    ensures i in FlushRows(rows, s, order).value.rows
    ensures FlushRows(rows, s, order).value.rows[i]
            == match LastRival(rows, s, order, i)
               case None => rows[i]
               case Some(row) => Overlaid(rows[i], row, CandidateLink)
    decreases |order|
  {
    if order != [] {
      var front, p, id := LastOf(rows, s, order);
      assert order[..|order| - 1] == front;
      UneditedRow(rows, s, front, i);
      FlushKeepsPlaces(rows, s, front, i);
      if id.kind == ImportCandidates {
        WrittenOver(p.rows, id, Turn(rows, s, front, id).value, i);
        match LastRival(rows, s, front, i)
        case None =>
        case Some(before) => OverlaidTwice(rows[i], before, Turn(rows, s, front, id).value);
      } else {
        FlushOneStores(p, s, id);
      }
    }
  }

  lemma OverlaidTwice(row: Row, first: Row, second: Row)
    ensures Overlaid(Overlaid(row, first, CandidateLink), second, CandidateLink) == Overlaid(row, second, CandidateLink)
  {
  }

  lemma WrittenOver(rows: Table, id: Id, row: Row, i: Id)
    requires id.kind == ImportCandidates && WriteCandidate(rows, id, row).Some? && i in rows && i != id
    ensures var next := WriteCandidate(rows, id, row).value;
            i in next && next[i] == if Holder(rows, row) == Some(i) then Overlaid(rows[i], row, CandidateLink) else rows[i]
  {
  }

  /** A candidate that a scope has not edited survives its flush exactly when nobody rivals it, or the
      last rival holds the same fields outside the links. */
  lemma SurvivesExactly(rows: Table, s: Scope, order: seq<Id>, i: Id)
    requires FlushedBy(rows, s, order) && i in rows && i.kind == ImportCandidates && i !in order
    ensures i in FlushRows(rows, s, order).value.rows
    ensures Same(FlushRows(rows, s, order).value.rows[i], rows[i])
            <==> match LastRival(rows, s, order, i)
                 case None => true
                 case Some(row) => forall f | f != ExistingEntityId && f != ProcessingQueueId :: Get(row, f) == Get(rows[i], f)
  {
    UneditedRow(rows, s, order, i);
    match LastRival(rows, s, order, i)
    case None =>
    case Some(row) => OverlaidSame(rows[i], row);
  }

  // ---- One flush ----

  /** What the flush leaves at an identity, whatever its kind. */
  lemma FlushedRow(rows: Table, s: Scope, order: seq<Id>, i: Id)
    requires FlushedBy(rows, s, order)
    requires i.kind == ImportCandidates ==> Unclaimed(rows, s, i)
    ensures var now := Lookup(FlushRows(rows, s, order).value.rows, i);
            if i in order then
              var row := Resolve(i.kind, s.Baseline(i), s.loaded[i], Lookup(rows, i));
              row.Some? && now == Some(if i.kind == ImportCandidates then row.value
                                       else Stored(i.kind, Lookup(rows, i), row.value))
            else now == Lookup(rows, i)
  {
    if i.kind == ImportCandidates {
      UnclaimedRow(rows, s, order, i);
    } else if i in order {
      FlushStoresEach(rows, s, order, i);
    } else {
      FlushLeavesOthers(rows, s, order, i);
    }
  }

  lemma ResolvedField(kind: Kind, baseline: Option<Row>, mine: Row, latest: Row, f: Field)
    requires kind != Entities && Resolve(kind, baseline, mine, Some(latest)).Some?
    ensures var row := Resolve(kind, baseline, mine, Some(latest)).value;
            Get(row, f) != Get(latest, f) ==>
              && baseline.Some? && Edited(baseline.value, mine, f)
              && Get(latest, f) == Get(baseline.value, f) && Get(row, f) == Get(mine, f)
  {
    if baseline.Some? {
      MergeMeaning(baseline.value, mine, latest);
    }
  }

  /** A field that a flush changes was edited by that scope, held the scope's baseline
      value until then, and holds the scope's value afterwards. */
  lemma FlushLosesNothing(rows: Table, s: Scope, order: seq<Id>, i: Id, f: Field)
    requires FlushedBy(rows, s, order) && i.kind != Entities && i in rows
    requires i.kind == ImportCandidates ==> Unclaimed(rows, s, i)
    ensures var now := FlushRows(rows, s, order).value.rows;
            && i in now
            && (Get(now[i], f) != Get(rows[i], f) ==>
                  && i in s.loaded && s.Baseline(i).Some?
                  && Edited(s.Baseline(i).value, s.loaded[i], f)
                  && Get(rows[i], f) == Get(s.Baseline(i).value, f)
                  && Get(now[i], f) == Get(s.loaded[i], f))
  {
    FlushedRow(rows, s, order, i);
    if i in order {
      ResolvedField(i.kind, s.Baseline(i), s.loaded[i], rows[i], f);
      StoredField(i.kind, rows[i], Resolve(i.kind, s.Baseline(i), s.loaded[i], Some(rows[i])).value, f);
    }
  }

  /** A pending edit that clashes with what another writer committed makes the flush raise. */
  lemma ClashRaises(rows: Table, s: Scope, order: seq<Id>, i: Id, f: Field)
    requires Enumerates(order, s.Changed()) && i in s.Changed() && i.kind != Entities && i in rows
    requires i.kind == ImportCandidates ==> Unclaimed(rows, s, i)
    requires s.Baseline(i).Some? && Clashes(s.Baseline(i).value, s.loaded[i], rows[i], f)
    ensures FlushRows(rows, s, order).None?
  {
    if FlushRows(rows, s, order).Some? {
      FlushedRow(rows, s, order, i);
      MergeMeaning(s.Baseline(i).value, s.loaded[i], rows[i]);
    }
  }

  /** An entity edited by someone else, or a row deleted by someone else, makes the flush raise. */
  lemma StaleRowRaises(rows: Table, s: Scope, order: seq<Id>, i: Id)
    requires Enumerates(order, s.Changed()) && i in s.Changed() && s.Baseline(i).Some?
    requires i.kind == ImportCandidates ==> Unclaimed(rows, s, i)
    requires i !in rows || (i.kind == Entities && Get(rows[i], Version) != Get(s.Baseline(i).value, Version))
    ensures FlushRows(rows, s, order).None?
  {
    if FlushRows(rows, s, order).Some? {
      FlushedRow(rows, s, order, i);
    }
  }

  /** A row that the scope takes for new is not written over another one under its identity. */
  lemma TakenIdRaises(rows: Table, s: Scope, order: seq<Id>, i: Id)
    requires Enumerates(order, s.Changed()) && i in s.Changed() && s.Baseline(i) == None
    requires i.kind == ImportCandidates ==> Unclaimed(rows, s, i)
    requires i in rows && rows[i] != s.loaded[i]
    ensures FlushRows(rows, s, order).None?
  {
    if FlushRows(rows, s, order).Some? {
      FlushedRow(rows, s, order, i);
    }
  }

  // ---- Runs of many scopes ----

  datatype Act =
    | Use(op: Op)
    | DeleteUnread(id: Id)
    | Emit(event: Event)
    | Invalidate(kind: Kind, key: Option<string>)
    | Reload(id: Id)
    | Rollback
    | ReadWindow(run: Value, from: int, to: int)
    | Evict(run: Value)
    | Discard(run: Value)
    | Flush(order: seq<Id>, now: int)
    | FlushEvents(now: int)
    | Sql(rows: Table)
    | End

  datatype World = World(db: Store, scopes: map<nat, Scope>) {
    function ScopeOf(n: nat): Scope { if n in scopes then scopes[n] else Fresh() }
  }

  predicate InWindow(row: Row, run: Value, from: int, to: int) {
    Get(row, ImportRunId) == run && Get(row, Ordinal).Number? && from <= Get(row, Ordinal).n < to
  }

  /** The candidates staged in a window of ordinals, as far as the scope does not hold them. */
  function Window(rows: map<Id, Row>, s: Scope, run: Value, from: int, to: int): map<Id, Row> {
    map id | id in rows && id.kind == ImportCandidates && id !in s.loaded && InWindow(rows[id], run, from, to) :: rows[id]
  }

  /** A worker loads its replay window. */
  function WithWindow(rows: map<Id, Row>, s: Scope, run: Value, from: int, to: int): Scope {
    var found := Window(rows, s, run, from, to);
    s.(loaded := s.loaded + found, original := s.original.Adopting(found))
  }

  /** Scope and store after one act; a direct statement may change any rows, and a raising flush that owns its transaction changes neither. */
  function Effect(db: Store, s: Scope, act: Act): (Store, Scope)
    requires act.Flush? ==> forall id | id in act.order :: id in s.loaded
  {
    match act
    case Use(op) => (db, Perform(db.rows, s, op).0)
    case DeleteUnread(id) => (db, s.(deleted := s.deleted + {id}))
    case Emit(event) => (db, s.(events := s.events + [event]))
    case Invalidate(kind, key) => (db, Invalidated(s, kind, key))
    case Reload(id) => (db, Reloaded(db.rows, s, id))
    case Rollback => (db, RolledBack(s))
    case ReadWindow(run, from, to) => (db, WithWindow(db.rows, s, run, from, to))
    case Evict(run) => (db, Evicted(s, run))
    case Discard(run) => (db.(rows := WithoutCandidates(db.rows, run)), Discarded(s, run))
    case Flush(order, now) =>
      (match FlushRows(db.rows, s, order)
       case None => (db, s)
       case Some(p) => (FlushedStore(db, s, p, false, now), FlushedScope(s, p, false)))
    case FlushEvents(now) =>
      var p := Progress(db.rows, map[]);
      (FlushedStore(db, s, p, true, now), FlushedScope(s, p, true))
    case Sql(rows) => (db.(rows := rows), s)
    case End => (db, Fresh())
  }

  /** Flushes list their changed rows; an existing candidate is staged only after it was read. */
  ghost predicate Legal(s: Scope, act: Act) {
    && (act.Flush? ==> Enumerates(act.order, s.Changed()))
    && (act.Use? && act.op.StageItem? ==> act.op.isNew || act.op.id in s.original.Keys())
  }

  ghost predicate Step(w: World, n: nat, act: Act, next: World) {
    && Legal(w.ScopeOf(n), act)
    && var (db, s) := Effect(w.db, w.ScopeOf(n), act);
       next == World(db, w.scopes[n := s])
  }

  ghost predicate Execution(worlds: seq<World>, acts: seq<(nat, Act)>) {
    && |worlds| == |acts| + 1
    && worlds[0].scopes == map[]
    && forall k | 0 <= k < |acts| :: Step(worlds[k], acts[k].0, acts[k].1, worlds[k + 1])
  }

  lemma {:induction false} PublishKeepsRows(db: Store, events: seq<Event>, deleted: set<Id>, now: int, id: Id)
    requires id.kind != Entities
    ensures Lookup(PublishAll(db, events, deleted, now).rows, id) == Lookup(db.rows, id)
  {
    if events != [] {
      PublishKeepsRows(db, events[..|events| - 1], deleted, now, id);
    }
  }

  lemma OtherBaseline(db: Store, s: Scope, act: Act, id: Id)
    requires s.Valid() && Legal(s, act) && !act.Flush?
    ensures var (after, t) := Effect(db, s, act);
            t.Baseline(id) == s.Baseline(id) || t.Baseline(id) == None || t.Baseline(id) == Lookup(db.rows, id)
    ensures id.kind != Entities && !act.Discard? && !act.Sql? ==> Lookup(Effect(db, s, act).0.rows, id) == Lookup(db.rows, id)
  {
    match act
    case FlushEvents(now) => if id.kind != Entities { PublishKeepsRows(db, s.events, s.deleted, now, id); }
    case Use(op) => UseBaseline(db.rows, s, op, id);
    case _ =>
  }

  lemma UseBaseline(rows: map<Id, Row>, s: Scope, op: Op, id: Id)
    requires s.Valid() && (op.StageItem? ==> op.isNew || op.id in s.original.Keys())
    ensures var t := Perform(rows, s, op).0;
            t.Baseline(id) == s.Baseline(id) || t.Baseline(id) == None || t.Baseline(id) == Lookup(rows, id)
  {
  }

  /** A new baseline is what the database holds after the act. */
  lemma NewBaseline(db: Store, s: Scope, act: Act, id: Id)
    requires s.Valid() && Legal(s, act) && id.kind != Entities
    requires id.kind == ImportCandidates && act.Flush? ==> Unclaimed(db.rows, s, id)
    ensures var (after, t) := Effect(db, s, act);
            t.Baseline(id) == s.Baseline(id) || t.Baseline(id) == None || t.Baseline(id) == Lookup(after.rows, id)
  {
    if act.Flush? {
      var p := FlushRows(db.rows, s, act.order);
      if p.Some? { FlushedBaseline(db, s, p.value, act.order, act.now, id); }
    } else {
      OtherBaseline(db, s, act, id);
    }
  }

  lemma FlushedBaseline(db: Store, s: Scope, p: Progress, order: seq<Id>, now: int, id: Id)
    requires Enumerates(order, s.Changed()) && FlushRows(db.rows, s, order) == Some(p) && id.kind != Entities
    requires id.kind == ImportCandidates ==> Unclaimed(db.rows, s, id)
    ensures var t := FlushedScope(s, p, false);
            t.Baseline(id) == s.Baseline(id) || t.Baseline(id) == None
            || t.Baseline(id) == Lookup(FlushedStore(db, s, p, false, now).rows, id)
  {
    var left := p.rows - s.deleted;
    PublishKeepsRows(AfterDeletes(db, p.rows, s.deleted), s.events, s.deleted, now, id);
    if id in order {
      if id.kind == ImportCandidates { UnclaimedRow(db.rows, s, order, id); } else { FlushStoresEach(db.rows, s, order, id); }
      assert Lookup(left, id) == Lookup(p.committed, id);
    } else {
      CommittedListed(db.rows, s, order, id);
    }
    assert FlushedScope(s, p, false).original == s.original.Adopting(p.committed).Without(s.deleted);
  }

  lemma {:induction false} CommittedListed(rows: Table, s: Scope, order: seq<Id>, id: Id)
    requires forall i | i in order :: i in s.loaded
    requires FlushRows(rows, s, order).Some? && id !in order
    ensures id !in FlushRows(rows, s, order).value.committed
  {
    if order != [] {
      var last := |order| - 1;
      CommittedListed(rows, s, order[..last], id);
      FlushOneFrame(FlushRows(rows, s, order[..last]).value, s, order[last], id);
    }
  }

  lemma FlushedIsValid(s: Scope, p: Progress, eventsOnly: bool)
    requires s.Valid()
    ensures FlushedScope(s, p, eventsOnly).Valid()
  {
    var t := s.original.Adopting(p.committed);
    assert t.Keys() == s.loaded.Keys + p.committed.Keys;
    assert t.Without(s.deleted).Keys() == t.Keys() - s.deleted;
  }

  lemma DroppedIsValid(s: Scope, ids: set<Id>)
    requires s.Valid()
    ensures Dropped(s, ids).Valid()
  {
    assert s.original.Without(ids).Keys() == s.original.Keys() - ids;
  }

  lemma WindowIsValid(rows: map<Id, Row>, s: Scope, run: Value, from: int, to: int)
    requires s.Valid()
    ensures WithWindow(rows, s, run, from, to).Valid()
  {
    var found := Window(rows, s, run, from, to);
    assert s.original.Adopting(found).Keys() == s.original.Keys() + found.Keys;
  }

  lemma ReloadedIsValid(rows: map<Id, Row>, s: Scope, id: Id)
    requires s.Valid()
    ensures Reloaded(rows, s, id).Valid()
  {
    if id in rows { assert s.original.With(id, Some(rows[id])).Keys() == s.original.Keys() + {id}; }
  }

  lemma PerformIsValid(rows: map<Id, Row>, s: Scope, op: Op)
    requires s.Valid()
    ensures Perform(rows, s, op).0.Valid()
  {
    StepRefines(rows, s, op);
  }

  lemma FlushKeepsValid(db: Store, s: Scope, order: seq<Id>, now: int)
    requires s.Valid() && Enumerates(order, s.Changed())
    ensures Effect(db, s, Flush(order, now)).1.Valid()
  {
    var p := FlushRows(db.rows, s, order);
    if p.Some? { FlushedIsValid(s, p.value, false); }
  }

  lemma EffectKeepsValid(db: Store, s: Scope, act: Act)
    requires s.Valid() && Legal(s, act)
    ensures Effect(db, s, act).1.Valid()
  {
    match act
    case Use(op) => PerformIsValid(db.rows, s, op);
    case Flush(order, now) => FlushKeepsValid(db, s, order, now);
    case FlushEvents(now) => FlushedIsValid(s, Progress(db.rows, map[]), true);
    case Invalidate(kind, key) => DroppedIsValid(s, CleanRows(s, kind, key));
    case ReadWindow(run, from, to) => WindowIsValid(db.rows, s, run, from, to);
    case Evict(run) => DroppedIsValid(s, ReadForRun(s, run));
    case Discard(run) => DroppedIsValid(s, LoadedForRun(s, run));
    case Reload(id) => ReloadedIsValid(db.rows, s, id);
    case Rollback => RollbackLeavesNothing(s);
    case _ =>
  }

  lemma {:induction false} ScopesStayValid(worlds: seq<World>, acts: seq<(nat, Act)>, k: nat, n: nat)
    requires Execution(worlds, acts) && k <= |acts|
    ensures worlds[k].ScopeOf(n).Valid()
  {
    if k > 0 {
      ScopesStayValid(worlds, acts, k - 1, n);
      assert Step(worlds[k - 1], acts[k - 1].0, acts[k - 1].1, worlds[k - 1 + 1]);
      if acts[k - 1].0 == n {
        EffectKeepsValid(worlds[k - 1].db, worlds[k - 1].ScopeOf(n), acts[k - 1].1);
      }
    }
  }

  /** Until index k, no flush had another candidate go for the place of this one. */
  ghost predicate UnclaimedSoFar(worlds: seq<World>, acts: seq<(nat, Act)>, k: nat, id: Id) {
    id.kind == ImportCandidates ==>
      forall m | 0 <= m < k && m < |acts| && m < |worlds| && acts[m].1.Flush? ::
        Unclaimed(worlds[m].db.rows, worlds[m].ScopeOf(acts[m].0), id)
  }

  lemma StepBaseline(w: World, m: nat, act: Act, next: World, n: nat, id: Id)
    requires Step(w, m, act, next) && w.ScopeOf(m).Valid() && id.kind != Entities
    requires id.kind == ImportCandidates && act.Flush? ==> Unclaimed(w.db.rows, w.ScopeOf(m), id)
    ensures next.ScopeOf(n).Baseline(id) == w.ScopeOf(n).Baseline(id) || next.ScopeOf(n).Baseline(id) == None
            || next.ScopeOf(n).Baseline(id) == Lookup(next.db.rows, id)
  {
    if m == n { NewBaseline(w.db, w.ScopeOf(m), act, id); }
  }

  /** Every baseline is a row the database held at an earlier point of the run. */
  lemma {:induction false} BaselineWasRead(worlds: seq<World>, acts: seq<(nat, Act)>, k: nat, n: nat, id: Id)
    returns (read: nat)
    requires Execution(worlds, acts) && k <= |acts| && id.kind != Entities
    requires UnclaimedSoFar(worlds, acts, k, id)
    requires worlds[k].ScopeOf(n).Baseline(id).Some?
    ensures read <= k && Lookup(worlds[read].db.rows, id) == worlds[k].ScopeOf(n).Baseline(id)
  {
    read := k;
    if k > 0 {
      BaselineStep(worlds, acts, k, n, id);
      if Lookup(worlds[k].db.rows, id) != worlds[k].ScopeOf(n).Baseline(id) {
        read := BaselineWasRead(worlds, acts, k - 1, n, id);
      }
    }
  }

  lemma BaselineStep(worlds: seq<World>, acts: seq<(nat, Act)>, k: nat, n: nat, id: Id)
    requires Execution(worlds, acts) && 0 < k <= |acts| && id.kind != Entities && UnclaimedSoFar(worlds, acts, k, id)
    ensures var baseline := worlds[k].ScopeOf(n).Baseline(id);
            baseline == worlds[k - 1].ScopeOf(n).Baseline(id) || baseline == None || baseline == Lookup(worlds[k].db.rows, id)
  {
    ScopesStayValid(worlds, acts, k - 1, acts[k - 1].0);
    assert worlds[k] == worlds[k - 1 + 1];
    StepBaseline(worlds[k - 1], acts[k - 1].0, acts[k - 1].1, worlds[k - 1 + 1], n, id);
  }

  /** In every run of any number of scopes, when a committed row changes at a field other than by a direct
      statement, the act is a flush by a scope that edited this field, whose baseline for it was read from the
      database earlier, and the database still held that value: nothing is overwritten unseen. */
  lemma NoLostUpdate(worlds: seq<World>, acts: seq<(nat, Act)>, k: nat, id: Id, f: Field) returns (read: nat)
    requires Execution(worlds, acts) && k < |acts| && id.kind != Entities
    requires UnclaimedSoFar(worlds, acts, k + 1, id)
    requires id in worlds[k].db.rows && id in worlds[k + 1].db.rows
    requires Get(worlds[k].db.rows[id], f) != Get(worlds[k + 1].db.rows[id], f)
    ensures acts[k].1.Flush? || acts[k].1.Sql?
    ensures acts[k].1.Flush? ==>
            var s := worlds[k].ScopeOf(acts[k].0);
            && id in s.loaded && s.Baseline(id).Some? && Edited(s.Baseline(id).value, s.loaded[id], f)
            && Get(worlds[k + 1].db.rows[id], f) == Get(s.loaded[id], f)
            && Get(worlds[k].db.rows[id], f) == Get(s.Baseline(id).value, f)
            && read <= k && Lookup(worlds[read].db.rows, id) == s.Baseline(id)
  {
    var w, n, act := worlds[k], acts[k].0, acts[k].1;
    var s := w.ScopeOf(n);
    assert Step(w, n, act, worlds[k + 1]);
    if act.FlushEvents? {
      PublishKeepsRows(w.db, s.events, s.deleted, act.now, id);
    }
    read := 0;
    if act.Flush? {
      var p := FlushRows(w.db.rows, s, act.order).value;
      PublishKeepsRows(AfterDeletes(w.db, p.rows, s.deleted), s.events, s.deleted, act.now, id);
      FlushLosesNothing(w.db.rows, s, act.order, id, f);
      read := BaselineWasRead(worlds, acts, k, n, id);
    }
  }
}
