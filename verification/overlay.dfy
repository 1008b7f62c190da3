/** A scope behaves as the plain map "table overlaid with pending edits", and a flush
    without concurrent writers makes the table that map. */
module Overlay {
  import opened Options
  import opened Rows
  import opened Scopes

  // ---- Dictionary operations on the plain map ----

  datatype Op =
    | LoadItem(id: Id)
    | SetItem(id: Id, row: Row)
    | DelItem(id: Id)
    | EditItem(id: Id, row: Row)
    | StageItem(id: Id, row: Row, isNew: bool)
    | ListItems(kind: Kind)
    | CountItems(kind: Kind)

  datatype Reply = KeyError | Item(row: Row) | Done | Ids(ids: set<Id>) | Count(n: nat)

  function Perform(rows: map<Id, Row>, s: Scope, op: Op): (Scope, Reply) {
    match op
    case LoadItem(id) =>
      var t := AfterLoad(rows, s, id);
      (t, if Loadable(rows, s, id) then Item(t.loaded[id]) else KeyError)
    case SetItem(id, row) => (AfterSet(rows, s, id, row), Done)
    case DelItem(id) => (AfterDelete(rows, s, id), if Loadable(rows, s, id) then Done else KeyError)
    case EditItem(id, row) =>
      if Loadable(rows, s, id) then (AfterEdit(AfterLoad(rows, s, id), id, row), Done) else (s, KeyError)
    case StageItem(id, row, isNew) => (Staged(s, id, row, isNew), Done)
    case ListItems(kind) => (s, Ids(Listed(rows, s, kind)))
    case CountItems(kind) => (s, Count(|Listed(rows, s, kind)|))
  }

  /** The same operation on a dictionary. */
  function PerformPlain(items: map<Id, Row>, op: Op): (map<Id, Row>, Reply) {
    match op
    case LoadItem(id) => (items, if id in items then Item(items[id]) else KeyError)
    case SetItem(id, row) => (items[id := row], Done)
    case DelItem(id) => if id in items then (items - {id}, Done) else (items, KeyError)
    case EditItem(id, row) => if id in items then (items[id := row], Done) else (items, KeyError)
    case StageItem(id, row, _) => (items[id := row], Done)
    case ListItems(kind) => (items, Ids(set id | id in items && id.kind == kind))
    case CountItems(kind) => (items, Count(|set id | id in items && id.kind == kind|))
  }

  function Run(rows: map<Id, Row>, s: Scope, ops: seq<Op>): (Scope, seq<Reply>) {
    if ops == [] then (s, [])
    else
      var (t, replies) := Run(rows, s, ops[..|ops| - 1]);
      var (u, reply) := Perform(rows, t, ops[|ops| - 1]);
      (u, replies + [reply])
  }

  function RunPlain(items: map<Id, Row>, ops: seq<Op>): (map<Id, Row>, seq<Reply>) {
    if ops == [] then (items, [])
    else
      var (m, replies) := RunPlain(items, ops[..|ops| - 1]);
      var (n, reply) := PerformPlain(m, ops[|ops| - 1]);
      (n, replies + [reply])
  }

  lemma LoadRefines(rows: map<Id, Row>, s: Scope, id: Id)
    requires s.Valid()
    ensures var t := AfterLoad(rows, s, id);
            t.Valid() && View(rows, t) == View(rows, s) && t.deleted == s.deleted
    ensures Loadable(rows, s, id) <==> id in View(rows, s)
    ensures Loadable(rows, s, id) ==>
              var t := AfterLoad(rows, s, id); id in t.loaded && t.loaded[id] == View(rows, s)[id]
  {
    var t := AfterLoad(rows, s, id);
    assert rows + t.loaded == rows + s.loaded;
  }

  lemma SetRefines(rows: map<Id, Row>, s: Scope, id: Id, row: Row)
    requires s.Valid()
    ensures var t := AfterSet(rows, s, id, row); t.Valid() && View(rows, t) == View(rows, s)[id := row]
  {
    SetFacts(rows, s, id, row);
    PutRefines(rows, s, AfterSet(rows, s, id, row), id, row);
  }

  lemma SetFacts(rows: map<Id, Row>, s: Scope, id: Id, row: Row)
    requires s.Valid()
    ensures var t := AfterSet(rows, s, id, row);
            t.Valid() && t.loaded == s.loaded[id := row] && t.deleted == s.deleted - {id}
  {
    if id !in s.original.Keys() { assert id !in s.loaded; }
  }

  lemma PutRefines(rows: map<Id, Row>, s: Scope, t: Scope, id: Id, row: Row)
    requires t.loaded == s.loaded[id := row] && t.deleted == s.deleted - {id}
    ensures View(rows, t) == View(rows, s)[id := row]
  {
    assert rows + t.loaded == (rows + s.loaded)[id := row];
  }

  lemma DeleteRefines(rows: map<Id, Row>, s: Scope, id: Id)
    requires s.Valid()
    ensures var t := AfterDelete(rows, s, id); t.Valid() && View(rows, t) == View(rows, s) - {id}
  {
    LoadRefines(rows, s, id);
    var t := AfterLoad(rows, s, id);
    assert (rows + t.loaded) - (t.deleted + {id}) == View(rows, t) - {id};
  }

  lemma EditRefines(rows: map<Id, Row>, s: Scope, id: Id, row: Row)
    requires s.Valid() && id in s.loaded && id !in s.deleted
    ensures var t := AfterEdit(s, id, row); t.Valid() && View(rows, t) == View(rows, s)[id := row]
  {
    assert rows + s.loaded[id := row] == (rows + s.loaded)[id := row];
  }

  lemma StageRefines(rows: map<Id, Row>, s: Scope, id: Id, row: Row, isNew: bool)
    requires s.Valid()
    ensures var t := Staged(s, id, row, isNew); t.Valid() && View(rows, t) == View(rows, s)[id := row]
  {
    var t := Staged(s, id, row, isNew);
    assert t.loaded.Keys == s.loaded.Keys + {id} && t.original.Keys() == s.original.Keys() + {id};
    PutRefines(rows, s, t, id, row);
  }

  lemma ListRefines(rows: map<Id, Row>, s: Scope, kind: Kind)
    ensures Listed(rows, s, kind) == set id | id in View(rows, s) && id.kind == kind
  {
  }

  lemma StepRefines(rows: map<Id, Row>, s: Scope, op: Op)
    requires s.Valid()
    ensures Perform(rows, s, op).0.Valid()
    ensures (View(rows, Perform(rows, s, op).0), Perform(rows, s, op).1) == PerformPlain(View(rows, s), op)
  {
    match op
    case LoadItem(id) => LoadRefines(rows, s, id);
    case SetItem(id, row) => SetRefines(rows, s, id, row);
    case DelItem(id) =>
      LoadRefines(rows, s, id);
      DeleteRefines(rows, s, id);
    case EditItem(id, row) =>
      LoadRefines(rows, s, id);
      if Loadable(rows, s, id) { EditRefines(rows, AfterLoad(rows, s, id), id, row); }
    case StageItem(id, row, isNew) => StageRefines(rows, s, id, row, isNew);
    case ListItems(kind) => ListRefines(rows, s, kind);
    case CountItems(kind) => ListRefines(rows, s, kind);
  }

  /** Every sequence of operations gives the replies and contents of the plain map. */
  lemma {:induction false} RunRefines(rows: map<Id, Row>, s: Scope, ops: seq<Op>)
    requires s.Valid()
    ensures Run(rows, s, ops).0.Valid()
    ensures (View(rows, Run(rows, s, ops).0), Run(rows, s, ops).1) == RunPlain(View(rows, s), ops)
  {
    if ops != [] {
      RunRefines(rows, s, ops[..|ops| - 1]);
      StepRefines(rows, Run(rows, s, ops[..|ops| - 1]).0, ops[|ops| - 1]);
    }
  }

  // ---- Letting go of rows ----

  /** Invalidating keeps every pending edit, delete and event; the plain map shows the
      current table instead of a dropped clean copy and is otherwise the same. */
  lemma InvalidateKeepsPending(rows: map<Id, Row>, s: Scope, kind: Kind, key: Option<string>)
    requires s.Valid()
    ensures var t := Invalidated(s, kind, key);
            && t.Valid() && t.Changed() == s.Changed() && t.deleted == s.deleted && t.events == s.events
            && (forall id | id in s.Changed() :: t.loaded[id] == s.loaded[id] && t.Baseline(id) == s.Baseline(id))
    ensures forall id :: Lookup(View(rows, Invalidated(s, kind, key)), id)
                         == if id in s.loaded && id.kind == kind && (key == None || key == Some(id.key))
                               && s.Baseline(id) == Some(s.loaded[id]) && id !in s.deleted
                            then Lookup(rows, id) else Lookup(View(rows, s), id)
  {
    var t := Invalidated(s, kind, key);
    forall id
      ensures id in t.Changed() <==> id in s.Changed()
    {
    }
  }

  /** After a reload nothing is pending for the row, the plain map shows the table there
      unless the row is marked deleted, and no other identity is affected. */
  lemma ReloadAdopts(rows: map<Id, Row>, s: Scope, id: Id)
    requires s.Valid() && id in rows
    ensures var t := Reloaded(rows, s, id);
            && t.Valid() && id !in t.Changed() && t.deleted == s.deleted && t.events == s.events
            && (id !in s.deleted ==> Lookup(View(rows, t), id) == Some(rows[id]))
    ensures forall i | i != id :: Lookup(View(rows, Reloaded(rows, s, id)), i) == Lookup(View(rows, s), i)
                                  && (i in Reloaded(rows, s, id).Changed() <==> i in s.Changed())
  {
  }

  /** Evicting a run's candidates is invisible exactly when each evicted row that is not marked
      deleted is what the table holds, as it is right after a flush. */
  lemma EvictIsInvisible(rows: map<Id, Row>, s: Scope, run: Value)
    requires s.Valid()
    ensures View(rows, Evicted(s, run)) == View(rows, s)
            <==> forall id | id in ReadForRun(s, run) && id !in s.deleted :: Lookup(rows, id) == Some(s.loaded[id])
    ensures forall id | id in Evicted(s, run).Changed() :: id in s.Changed()
    ensures forall id :: id in Evicted(s, run).loaded
                         <==> id in s.loaded
                              && !(id.kind == ImportCandidates
                                   && Get(if s.Baseline(id).Some? then s.Baseline(id).value else s.loaded[id], ImportRunId) == run)
  {
    var t := Evicted(s, run);
    forall id
      ensures Lookup(View(rows, t), id)
              == if id in ReadForRun(s, run) && id !in s.deleted then Lookup(rows, id) else Lookup(View(rows, s), id)
    {
    }
    if forall id | id in ReadForRun(s, run) && id !in s.deleted :: Lookup(rows, id) == Some(s.loaded[id]) {
      SameLookups(View(rows, t), View(rows, s));
    }
    if View(rows, t) == View(rows, s) {
      forall id | id in ReadForRun(s, run) && id !in s.deleted
        ensures Lookup(rows, id) == Some(s.loaded[id])
      {
        assert Lookup(View(rows, t), id) == Lookup(View(rows, s), id);
      }
    }
  }

  lemma SameLookups(a: map<Id, Row>, b: map<Id, Row>)
    requires forall id :: Lookup(a, id) == Lookup(b, id)
    ensures a == b
  {
    forall id
      ensures id in a <==> id in b
      ensures id in a ==> a[id] == b[id]
    {
      assert Lookup(a, id) == Lookup(b, id);
    }
  }

  lemma RollbackLeavesNothing(s: Scope)
    requires s.Valid()
    ensures var t := RolledBack(s);
            && t.Valid() && t.Idle()
            && t.loaded == (map id | id in s.loaded && s.Baseline(id).Some? :: s.Baseline(id).value)
            && forall id :: t.Baseline(id) == s.Baseline(id)
  {
    var t := RolledBack(s);
    forall id | id in t.loaded
      ensures t.Baseline(id) == Some(t.loaded[id])
    {
    }
  }

  /** Flushing an idle scope, such as a rolled-back one, changes neither the database nor the scope. */
  lemma IdleFlush(db: Store, s: Scope, order: seq<Id>, now: int)
    requires s.Valid() && s.Idle() && Enumerates(order, s.Changed())
    ensures FlushRows(db.rows, s, order) == Some(Progress(db.rows, map[]))
    ensures FlushedStore(db, s, Progress(db.rows, map[]), false, now) == db
    ensures FlushedScope(s, Progress(db.rows, map[]), false) == s
  {
    if order != [] { SomeElement(order); }
    NothingToPublish(db, s.deleted);
    NothingAdopted(s);
  }

  lemma NothingToPublish(db: Store, deleted: set<Id>)
    requires deleted == {}
    ensures AfterDeletes(db, db.rows, deleted) == db
  {
    assert db.rows - deleted == db.rows && WithoutTrail(db.audit, deleted) == db.audit;
  }

  lemma NothingAdopted(s: Scope)
    ensures s.loaded + map[] == s.loaded && s.original.Adopting(map[]) == s.original
    ensures s.loaded - {} == s.loaded && s.original.Without({}) == s.original
  {
  }

  lemma SomeElement(order: seq<Id>)
    requires order != []
    ensures exists id :: id in order
  {
    assert order[0] in order;
  }

  /** After a discard, neither the table nor the scope holds a candidate of that run, and everything else is as it was. */
  lemma DiscardLeavesNone(rows: Table, s: Scope, run: Value)
    requires s.Valid()
    ensures forall id :: Lookup(WithoutCandidates(rows, run), id)
                         == if id in rows && id.kind == ImportCandidates && Get(rows[id], ImportRunId) == run then None else Lookup(rows, id)
    ensures forall id :: var gone := id in s.loaded && id.kind == ImportCandidates && Get(s.loaded[id], ImportRunId) == run;
                         var t := Discarded(s, run);
                         && Lookup(t.loaded, id) == (if gone then None else Lookup(s.loaded, id))
                         && t.Baseline(id) == (if gone then None else s.Baseline(id))
                         && (id in t.deleted <==> id in s.deleted && !gone)
    ensures var items := View(WithoutCandidates(rows, run), Discarded(s, run));
            forall id | id in items && id.kind == ImportCandidates :: Get(items[id], ImportRunId) != run
  {
  }

  // ---- Flushing without concurrent writers ----

  /** Every baseline is what the table holds. */
  ghost predicate InSync(rows: map<Id, Row>, s: Scope) {
    s.Valid() && s.deleted <= s.loaded.Keys && forall id | id in s.loaded :: s.Baseline(id) == Lookup(rows, id)
  }

  /** A candidate is staged either after it was read, or as a new one that is new. */
  predicate Honest(rows: map<Id, Row>, s: Scope, op: Op) {
    op.StageItem? ==> op.id in s.original.Keys() || (op.isNew && op.id !in rows)
  }

  /** Every staging of the sequence is honest at its turn. */
  predicate HonestRun(rows: map<Id, Row>, s: Scope, ops: seq<Op>) {
    ops == [] ||
      (HonestRun(rows, s, ops[..|ops| - 1]) && Honest(rows, Run(rows, s, ops[..|ops| - 1]).0, ops[|ops| - 1]))
  }

  lemma LoadKeepsSync(rows: map<Id, Row>, s: Scope, id: Id)
    requires InSync(rows, s)
    ensures InSync(rows, AfterLoad(rows, s, id))
  {
  }

  lemma SetKeepsSync(rows: map<Id, Row>, s: Scope, id: Id, row: Row)
    requires InSync(rows, s)
    ensures InSync(rows, AfterSet(rows, s, id, row))
  {
    LoadKeepsSync(rows, s, id);
    var t := AfterSet(rows, s, id, row);
    assert t.loaded.Keys == s.loaded.Keys + {id} && t.original.Keys() == s.original.Keys() + {id};
    forall i | i in t.loaded
      ensures t.Baseline(i) == Lookup(rows, i)
    {
      if i != id { assert i in s.loaded && t.Baseline(i) == s.Baseline(i); }
    }
  }

  lemma StageKeepsSync(rows: map<Id, Row>, s: Scope, id: Id, row: Row, isNew: bool)
    requires InSync(rows, s) && (id in s.original.Keys() || (isNew && id !in rows))
    ensures InSync(rows, Staged(s, id, row, isNew))
  {
    var t := Staged(s, id, row, isNew);
    assert t.loaded.Keys == s.loaded.Keys + {id} && t.original.Keys() == s.original.Keys() + {id};
    forall i | i in t.loaded
      ensures t.Baseline(i) == Lookup(rows, i)
    {
      if i != id { assert i in s.loaded && t.Baseline(i) == s.Baseline(i); }
    }
  }

  lemma StepKeepsSync(rows: map<Id, Row>, s: Scope, op: Op)
    requires InSync(rows, s) && Honest(rows, s, op)
    ensures InSync(rows, Perform(rows, s, op).0)
  {
    match op
    case LoadItem(id) => LoadKeepsSync(rows, s, id);
    case SetItem(id, row) => SetKeepsSync(rows, s, id, row);
    case DelItem(id) => LoadKeepsSync(rows, s, id);
    case EditItem(id, row) => LoadKeepsSync(rows, s, id);
    case StageItem(id, row, isNew) => StageKeepsSync(rows, s, id, row, isNew);
    case ListItems(_) =>
    case CountItems(_) =>
  }

  lemma {:induction false} RunKeepsSync(rows: map<Id, Row>, s: Scope, ops: seq<Op>)
    requires InSync(rows, s) && HonestRun(rows, s, ops)
    ensures InSync(rows, Run(rows, s, ops).0)
  {
    if ops != [] {
      RunKeepsSync(rows, s, ops[..|ops| - 1]);
      StepKeepsSync(rows, Run(rows, s, ops[..|ops| - 1]).0, ops[|ops| - 1]);
    }
  }

  function Pending(s: Scope): map<Id, Row> {
    map id | id in s.Changed() :: s.loaded[id]
  }

  /** What a caller can check before the flush: no write is held back by a guard or a
      write-once column, no candidate moves, and no two candidates claim one place. */
  ghost predicate Admissible(rows: Table, s: Scope) {
    && UniqueOrdinals(rows + Pending(s))
    && forall id | id in s.Changed() ::
         if id.kind == ImportCandidates then id in rows ==> SamePlace(rows[id], s.loaded[id])
         else Storable(id.kind, Lookup(rows, id), s.loaded[id])
  }

  /** Equal tables up to null fields and the revisions of entities. */
  ghost predicate Agree(a: map<Id, Row>, b: map<Id, Row>) {
    a.Keys == b.Keys && forall id | id in a :: SameFor(id.kind, a[id], b[id])
  }
}
