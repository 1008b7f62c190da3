/** When a flush without concurrent writers stores exactly the plain map of its scope. */
module QuiescentFlush {
  import opened Options
  import opened Rows
  import opened Scopes
  import opened Overlay

  /** Without a concurrent writer a row resolves to the scope's own value. */
  lemma OwnValue(kind: Kind, baseline: Option<Row>, mine: Row)
    ensures var row := Resolve(kind, baseline, mine, baseline);
            row.Some? && Same(row.value, mine)
  {
    if baseline.Some? && kind != Entities {
      MergeMeaning(baseline.value, mine, baseline.value);
    }
  }

  lemma StorableSame(kind: Kind, stored: Option<Row>, a: Row, b: Row)
    requires Same(a, b)
    ensures Storable(kind, stored, a) <==> Storable(kind, stored, b)
  {
    if stored.Some? {
      forall f ensures Kept(kind, stored.value, a, f) == Kept(kind, stored.value, b, f) {
        assert Get(a, Status) == Get(b, Status);
      }
    }
    forall f ensures Get(a, f) == Get(b, f) {}
  }

  // ---- What every flush does to each row ----

  lemma CandidateWriteFrame(rows: Table, id: Id, row: Row, i: Id)
    requires id.kind == ImportCandidates && WriteCandidate(rows, id, row).Some?
    ensures var next := WriteCandidate(rows, id, row).value;
            && (i in next ==> i in rows || i == id)
            && (i in rows ==> i in next)
            && (i in rows && i.kind == ImportCandidates ==> SamePlace(rows[i], next[i]))
            && (i in rows && i.kind != ImportCandidates ==> next[i] == rows[i])
  {
  }

  /** What one row of a flush does to any row: candidates keep their place, and outside
      the candidates only the row itself is touched. */
  lemma FlushOneFrame(p: Progress, s: Scope, id: Id, i: Id)
    requires id in s.loaded && FlushOne(p, s, id).Some?
    ensures var now := FlushOne(p, s, id).value.rows;
            && (i in p.rows ==> i in now)
            && (i in now ==> i in p.rows || i == id)
            && (i in p.rows && i.kind == ImportCandidates ==> SamePlace(p.rows[i], now[i]))
            && (i != id && i.kind != ImportCandidates ==> Lookup(now, i) == Lookup(p.rows, i))
            && (i != id ==> Lookup(FlushOne(p, s, id).value.committed, i) == Lookup(p.committed, i))
  {
    if id.kind == ImportCandidates {
      CandidateWriteFrame(p.rows, id, Resolve(id.kind, s.Baseline(id), s.loaded[id], Lookup(p.rows, id)).value, i);
    }
  }

  lemma FlushOneStores(p: Progress, s: Scope, id: Id)
    requires id in s.loaded && FlushOne(p, s, id).Some? && id.kind != ImportCandidates
    ensures var row := Resolve(id.kind, s.Baseline(id), s.loaded[id], Lookup(p.rows, id));
            var next := FlushOne(p, s, id).value;
            row.Some? && Lookup(next.rows, id) == Lookup(next.committed, id)
                         == Some(Stored(id.kind, Lookup(p.rows, id), row.value))
  {
  }

  lemma {:induction false} FlushKeepsPlaces(rows: Table, s: Scope, order: seq<Id>, i: Id)
    requires forall id | id in order :: id in s.loaded
    requires FlushRows(rows, s, order).Some? && i in rows
    ensures var p := FlushRows(rows, s, order).value;
            i in p.rows && (i.kind == ImportCandidates ==> SamePlace(rows[i], p.rows[i]))
  {
    if order != [] {
      var last := |order| - 1;
      FlushKeepsPlaces(rows, s, order[..last], i);
      FlushOneFrame(FlushRows(rows, s, order[..last]).value, s, order[last], i);
    }
  }

  lemma {:induction false} FlushLeavesOthers(rows: Table, s: Scope, order: seq<Id>, i: Id)
    requires forall id | id in order :: id in s.loaded
    requires FlushRows(rows, s, order).Some? && i.kind != ImportCandidates && i !in order
    ensures Lookup(FlushRows(rows, s, order).value.rows, i) == Lookup(rows, i)
  {
    if order != [] {
      var last := |order| - 1;
      FlushLeavesOthers(rows, s, order[..last], i);
      FlushOneFrame(FlushRows(rows, s, order[..last]).value, s, order[last], i);
    }
  }

  /** Each changed row outside the candidates is resolved against the row the transaction
      found, and stored by the upsert of its kind. */
  lemma {:induction false} FlushStoresEach(rows: Table, s: Scope, order: seq<Id>, i: Id)
    requires forall id | id in order :: id in s.loaded
    requires forall a, b | 0 <= a < b < |order| :: order[a] != order[b]
    requires FlushRows(rows, s, order).Some? && i.kind != ImportCandidates && i in order
    ensures var row := Resolve(i.kind, s.Baseline(i), s.loaded[i], Lookup(rows, i));
            var p := FlushRows(rows, s, order).value;
            row.Some? && Lookup(p.rows, i) == Lookup(p.committed, i) == Some(Stored(i.kind, Lookup(rows, i), row.value))
  {
    var last := |order| - 1;
    var p := FlushRows(rows, s, order[..last]).value;
    if i == order[last] {
      FlushLeavesOthers(rows, s, order[..last], i);
      FlushOneStores(p, s, i);
    } else {
      FlushStoresEach(rows, s, order[..last], i);
      FlushOneFrame(p, s, order[last], i);
    }
  }

  // ---- What commits with the rows ----

  predicate Dispatches(events: seq<Event>, id: Id) {
    exists e | e in events :: e.Dispatches(id)
  }

  /** The log holds what it held, and exactly those of the events that belong in it. */
  ghost predicate Logged(log: map<string, Event>, after: map<string, Event>, events: set<Event>) {
    && (forall key | key in log :: key in after && after[key] == log[key])
    && (forall e | e in events :: e.eventId in after)
    && (forall key | key in after && key !in log :: after[key] in events && after[key].eventId == key)
  }

  function Trailed(events: seq<Event>, deleted: set<Id>): set<Event> {
    set e | e in events && Id(Entities, e.aggregate.key) !in deleted
  }

  function Elements(events: seq<Event>): set<Event> { set e | e in events }

  /** Publishing logs every event in the outbox and, unless the flush deletes its entity, in
      the audit trail, once and over nothing. */
  lemma {:induction false} PublishLogs(db: Store, events: seq<Event>, deleted: set<Id>, now: int)
    ensures var after := PublishAll(db, events, deleted, now);
            && Logged(db.outbox, after.outbox, Elements(events))
            && Logged(db.audit, after.audit, Trailed(events, deleted))
  {
    if events != [] {
      var front, last := events[..|events| - 1], events[|events| - 1];
      var before := PublishAll(db, front, deleted, now);
      PublishLogs(db, front, deleted, now);
      assert events == front + [last];
      LogOne(db.outbox, before.outbox, Elements(front), last);
      assert Elements(events) == Elements(front) + {last};
      LogOne(db.audit, before.audit, Trailed(front, deleted), last);
      assert Trailed(events, deleted) == Trailed(front, deleted) + if Orphaned(last, deleted) then {} else {last};
    }
  }

  /** Publishing stamps exactly the existing rows whose work an event dispatches, and touches
      no row but those entities' revisions. */
  lemma {:induction false} PublishStamps(db: Store, events: seq<Event>, deleted: set<Id>, now: int)
    ensures PublishAll(db, events, deleted, now).rows.Keys == db.rows.Keys
    ensures forall id :: StampOf(PublishAll(db, events, deleted, now).dispatched, id)
                         == if Dispatches(events, id) && id in db.rows then Some(now) else StampOf(db.dispatched, id)
    ensures forall id | id in db.rows :: SameFor(id.kind, db.rows[id], PublishAll(db, events, deleted, now).rows[id])
  {
    if events != [] {
      var front, last := events[..|events| - 1], events[|events| - 1];
      var before, after := PublishAll(db, front, deleted, now), PublishAll(db, events, deleted, now);
      PublishStamps(db, front, deleted, now);
      assert events == front + [last];
      StampOne(before, last, deleted, now);
      forall id
        ensures Dispatches(events, id) <==> Dispatches(front, id) || last.Dispatches(id)
      {
      }
      forall id | id in db.rows
        ensures SameFor(id.kind, db.rows[id], after.rows[id])
      {
        SameForTwice(id.kind, db.rows[id], before.rows[id], after.rows[id]);
      }
    }
  }

  /** How many of the events dispatch the work of this row. */
  function Dispatchings(events: seq<Event>, id: Id): nat {
    if events == [] then 0
    else Dispatchings(events[..|events| - 1], id)
         + if events[|events| - 1].dispatching && events[|events| - 1].aggregate == id then 1 else 0
  }

  /** Each dispatch raises the revision of its entity by one. */
  lemma {:induction false} RevisionsRise(db: Store, events: seq<Event>, deleted: set<Id>, now: int, id: Id)
    requires id in db.rows && id.kind == Entities
    ensures id in PublishAll(db, events, deleted, now).rows
    ensures Revision(PublishAll(db, events, deleted, now).rows[id]) == Revision(db.rows[id]) + Dispatchings(events, id)
  {
    if events != [] { RevisionsRise(db, events[..|events| - 1], deleted, now, id); }
  }

  function StampOf(stamps: map<Id, int>, id: Id): Option<int> {
    if id in stamps then Some(stamps[id]) else None
  }

  lemma LogOne(log: map<string, Event>, before: map<string, Event>, events: set<Event>, event: Event)
    requires Logged(log, before, events)
    ensures Logged(log, Recorded(before, event), events + {event})
  {
  }

  lemma StampOne(db: Store, event: Event, deleted: set<Id>, now: int)
    ensures var after := Publish(db, event, deleted, now);
            && after.rows.Keys == db.rows.Keys
            && (forall id | id in db.rows :: SameFor(id.kind, db.rows[id], after.rows[id]))
            && forall id :: StampOf(after.dispatched, id)
                            == if event.Dispatches(id) && id in db.rows then Some(now) else StampOf(db.dispatched, id)
  {
  }

  lemma SameForTwice(kind: Kind, a: Row, b: Row, c: Row)
    requires SameFor(kind, a, b) && SameFor(kind, b, c)
    ensures SameFor(kind, a, c)
  {
    forall f | !(kind == Entities && f == Version)
      ensures Get(a, f) == Get(c, f)
    {
      assert Get(a, f) == Get(b, f);
    }
  }

  /** A flush never writes the lease of a promotion job, nor what was fixed when it was queued. */
  lemma FlushLeavesQueueLease(rows: Table, s: Scope, order: seq<Id>, i: Id, f: Field)
    requires Enumerates(order, s.Changed()) && FlushRows(rows, s, order).Some?
    requires i.kind == ImportProcessingQueues && i in rows && (QueueLease(f) || QueueInsertOnly(f))
    ensures i in FlushRows(rows, s, order).value.rows
    ensures Get(FlushRows(rows, s, order).value.rows[i], f) == Get(rows[i], f)
  {
    if i in order {
      FlushStoresEach(rows, s, order, i);
      StoredField(i.kind, rows[i], Resolve(i.kind, s.Baseline(i), s.loaded[i], Some(rows[i])).value, f);
    } else {
      FlushLeavesOthers(rows, s, order, i);
    }
  }

  // ---- The flush stores the plain map: sufficient ----

  /** A prefix of the flush has replaced exactly the rows it listed. */
  ghost predicate Replaced(rows: map<Id, Row>, s: Scope, order: seq<Id>, now: map<Id, Row>) {
    && (forall id :: id in now <==> id in rows || id in order)
    && (forall id | id in now :: if id in order then id in s.loaded && SameFor(id.kind, now[id], s.loaded[id])
                                 else now[id] == rows[id])
  }

  lemma CandidateInPlace(rows: Table, s: Scope, order: seq<Id>, now: Table, id: Id, row: Row)
    requires Admissible(rows, s) && Replaced(rows, s, order, now)
    requires forall i | i in order :: i in s.Changed()
    requires id in s.Changed() && id !in order && id.kind == ImportCandidates && Same(row, s.loaded[id])
    ensures Write(now, id, row) == Some(now[id := row])
  {
    var all := rows + Pending(s);
    assert SamePlace(all[id], row) by { assert Get(row, ImportRunId) == Get(s.loaded[id], ImportRunId)
                                               && Get(row, Ordinal) == Get(s.loaded[id], Ordinal); }
    forall j | Holds(now, j, row)
      ensures j == id
    {
      if j in order { SameForPlace(now[j], s.loaded[j]); }
      assert j in all && SamePlace(all[j], now[j]);
    }
    if id in rows {
      assert Holds(now, id, row);
    }
  }

  lemma SameForPlace(a: Row, b: Row)
    requires SameFor(ImportCandidates, a, b)
    ensures SamePlace(a, b)
  {
    assert Get(a, ImportRunId) == Get(b, ImportRunId) && Get(a, Ordinal) == Get(b, Ordinal);
  }

  lemma SameThenSame(kind: Kind, a: Row, b: Row, c: Row)
    requires SameFor(kind, a, b) && Same(b, c)
    ensures SameFor(kind, a, c)
  {
    forall f | !(kind == Entities && f == Version)
      ensures Get(a, f) == Get(c, f)
    {
      assert Get(a, f) == Get(b, f) == Get(c, f);
    }
  }

  lemma ReplaceOne(rows: Table, s: Scope, order: seq<Id>, p: Progress, id: Id)
    requires InSync(rows, s) && Admissible(rows, s) && Replaced(rows, s, order, p.rows)
    requires forall i | i in order :: i in s.Changed()
    requires id in s.Changed() && id !in order
    ensures FlushOne(p, s, id).Some? && Replaced(rows, s, order + [id], FlushOne(p, s, id).value.rows)
  {
    assert Lookup(p.rows, id) == Lookup(rows, id) == s.Baseline(id);
    OwnValue(id.kind, s.Baseline(id), s.loaded[id]);
    var row := Resolve(id.kind, s.Baseline(id), s.loaded[id], Lookup(p.rows, id)).value;
    if id.kind == ImportCandidates {
      CandidateInPlace(rows, s, order, p.rows, id, row);
    } else {
      StorableSame(id.kind, Lookup(rows, id), row, s.loaded[id]);
      StoredWhole(id.kind, Lookup(rows, id), row);
    }
    var next := FlushOne(p, s, id).value.rows;
    var written := if id.kind == ImportCandidates then row else Stored(id.kind, Lookup(rows, id), row);
    assert next == p.rows[id := written] && SameFor(id.kind, written, row);
    SameThenSame(id.kind, written, row, s.loaded[id]);
    forall i | i in next
      ensures if i in order + [id] then i in s.loaded && SameFor(i.kind, next[i], s.loaded[i]) else next[i] == rows[i]
    {
    }
  }

  lemma {:induction false} AllReplaced(rows: Table, s: Scope, order: seq<Id>)
    requires InSync(rows, s) && Admissible(rows, s)
    requires forall i | i in order :: i in s.Changed()
    requires forall a, b | 0 <= a < b < |order| :: order[a] != order[b]
    ensures FlushRows(rows, s, order).Some? && Replaced(rows, s, order, FlushRows(rows, s, order).value.rows)
  {
    if order != [] {
      var last := |order| - 1;
      AllReplaced(rows, s, order[..last]);
      ReplaceOne(rows, s, order[..last], FlushRows(rows, s, order[..last]).value, order[last]);
      assert order[..last] + [order[last]] == order;
    }
  }

  lemma Sufficient(rows: Table, s: Scope, order: seq<Id>)
    requires InSync(rows, s) && Enumerates(order, s.Changed()) && Admissible(rows, s)
    ensures FlushRows(rows, s, order).Some?
            && Agree(FlushRows(rows, s, order).value.rows - s.deleted, View(rows, s))
  {
    AllReplaced(rows, s, order);
    var left, view := FlushRows(rows, s, order).value.rows - s.deleted, View(rows, s);
    forall id
      ensures id in left <==> id in view
      ensures id in left ==> SameFor(id.kind, left[id], view[id])
    {
    }
  }

  // ---- The flush stores the plain map: necessary ----

  lemma Necessary(rows: Table, s: Scope, order: seq<Id>)
    requires InSync(rows, s) && Enumerates(order, s.Changed()) && FlushRows(rows, s, order).Some?
    requires Agree(FlushRows(rows, s, order).value.rows - s.deleted, View(rows, s))
    ensures Admissible(rows, s)
  {
    var now := FlushRows(rows, s, order).value.rows;
    forall id | id in s.Changed()
      ensures id in now && SameFor(id.kind, now[id], s.loaded[id])
      ensures if id.kind == ImportCandidates then id in rows ==> SamePlace(rows[id], s.loaded[id])
              else Storable(id.kind, Lookup(rows, id), s.loaded[id])
    {
      assert id in View(rows, s) && View(rows, s)[id] == s.loaded[id];
      if id.kind == ImportCandidates {
        SameForPlace(now[id], s.loaded[id]);
        if id in rows { FlushKeepsPlaces(rows, s, order, id); }
      } else {
        FlushStoresEach(rows, s, order, id);
        HeldBack(id.kind, Lookup(rows, id), s.loaded[id], now[id]);
      }
    }
    var all := rows + Pending(s);
    forall i | i in all && i.kind == ImportCandidates
      ensures i in now && SamePlace(all[i], now[i])
    {
      if i in s.Changed() { SameForPlace(now[i], s.loaded[i]); } else { FlushKeepsPlaces(rows, s, order, i); }
    }
  }

  lemma HeldBack(kind: Kind, baseline: Option<Row>, mine: Row, written: Row)
    requires Resolve(kind, baseline, mine, baseline).Some?
    requires written == Stored(kind, baseline, Resolve(kind, baseline, mine, baseline).value)
    requires SameFor(kind, written, mine)
    ensures Storable(kind, baseline, mine)
  {
    var row := Resolve(kind, baseline, mine, baseline).value;
    OwnValue(kind, baseline, mine);
    forall f | !(kind == Entities && f == Version)
      ensures Get(written, f) == Get(row, f)
    {
      assert Get(written, f) == Get(mine, f) == Get(row, f);
    }
    StoredWhole(kind, baseline, row);
    StorableSame(kind, baseline, row, mine);
  }

  /** What commits are the written rows less the deleted ones, up to the revisions that dispatch stamps bump. */
  lemma CommittedRows(db: Store, s: Scope, p: Progress, now: int)
    ensures var after := FlushedStore(db, s, p, false, now).rows;
            && (forall id :: id in after <==> id in p.rows && id !in s.deleted)
            && forall id | id in after :: SameFor(id.kind, p.rows[id], after[id])
  {
    PublishStamps(AfterDeletes(db, p.rows, s.deleted), s.events, s.deleted, now);
  }

  lemma AgreeOver(a: map<Id, Row>, b: map<Id, Row>, c: map<Id, Row>)
    requires Agree(a, b)
    ensures Agree(a, c) <==> Agree(b, c)
  {
    if Agree(a, c) { AgreeTwice(b, a, c); }
    if Agree(b, c) { AgreeTwice(a, b, c); }
  }

  lemma AgreeTwice(a: map<Id, Row>, b: map<Id, Row>, c: map<Id, Row>)
    requires (Agree(a, b) || Agree(b, a)) && Agree(b, c)
    ensures Agree(a, c)
  {
    forall id | id in a
      ensures SameFor(id.kind, a[id], c[id])
    {
      assert SameFor(id.kind, a[id], b[id]);
      SameForTwice(id.kind, a[id], b[id], c[id]);
    }
  }

  /** In every order of writing, what a flush without concurrent writers commits is the plain map
      exactly when no write is held back, moved or collides. */
  lemma FlushStoresTheView(db: Store, s: Scope, order: seq<Id>, now: int)
    requires InSync(db.rows, s) && Enumerates(order, s.Changed())
    ensures Admissible(db.rows, s) <==>
              FlushRows(db.rows, s, order).Some?
              && Agree(FlushedStore(db, s, FlushRows(db.rows, s, order).value, false, now).rows, View(db.rows, s))
  {
    if Admissible(db.rows, s) { Sufficient(db.rows, s, order); }
    var done := FlushRows(db.rows, s, order);
    if done.Some? {
      CommittedRows(db, s, done.value, now);
      var left := done.value.rows - s.deleted;
      var after := FlushedStore(db, s, done.value, false, now).rows;
      assert Agree(left, after);
      AgreeOver(left, after, View(db.rows, s));
      if Agree(after, View(db.rows, s)) { Necessary(db.rows, s, order); }
    }
  }

  /** End to end: a fresh scope runs any operations and flushes; the database then holds what
      a plain dictionary would. */
  lemma RunThenFlush(db: Store, ops: seq<Op>, order: seq<Id>, now: int)
    requires HonestRun(db.rows, Fresh(), ops)
    requires Enumerates(order, Run(db.rows, Fresh(), ops).0.Changed())
    ensures var s := Run(db.rows, Fresh(), ops).0;
            Admissible(db.rows, s) <==>
              FlushRows(db.rows, s, order).Some?
              && Agree(FlushedStore(db, s, FlushRows(db.rows, s, order).value, false, now).rows, RunPlain(db.rows, ops).0)
  {
    RunRefines(db.rows, Fresh(), ops);
    assert View(db.rows, Fresh()) == db.rows;
    RunKeepsSync(db.rows, Fresh(), ops);
    FlushStoresTheView(db, Run(db.rows, Fresh(), ops).0, order, now);
  }

  function Fresh(): Scope { Scope(map[], Baselines(map[], {}), {}, []) }

  /** The guard at work: a scope that has read a cancelling run, and is in sync with it,
      cannot complete it. */
  lemma GuardedRunIsHeldBack(key: string)
    ensures var id := Id(ImportRuns, key);
            var rows: Table := map[id := map[Status := State(CANCELLING)]];
            var s := Run(rows, Fresh(), [EditItem(id, map[Status := State(COMPLETED)])]).0;
            !Admissible(rows, s)
  {
    var id := Id(ImportRuns, key);
    var rows: Table := map[id := map[Status := State(CANCELLING)]];
    var mine: Row := map[Status := State(COMPLETED)];
    var op := EditItem(id, mine);
    assert [op][..0] == [] && [op][0] == op;
    var s := Run(rows, Fresh(), [op]).0;
    assert Run(rows, Fresh(), []) == (Fresh(), []);
    assert s == Perform(rows, Fresh(), op).0;
    assert rows[id][Status] != mine[Status];
    assert s.loaded == map[id := mine] && s.Baseline(id) == Some(rows[id]);
    assert id in s.Changed();
    assert Kept(ImportRuns, rows[id], mine, Status);
  }
}
