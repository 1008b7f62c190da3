/** What a flush leaves in the database and in its scope, whatever other scopes committed before it. */
module CommittedFlush {
  import opened Options
  import opened Rows
  import opened Scopes
  import opened Overlay
  import opened QuiescentFlush
  import opened Interleavings

  // ---- The database ----

  /** Exactly the rows marked deleted are gone, and no other row with them. */
  lemma DeletedAreGone(db: Store, s: Scope, order: seq<Id>, now: int)
    requires FlushedBy(db.rows, s, order)
    ensures var after := FlushedStore(db, s, FlushRows(db.rows, s, order).value, false, now).rows;
            && (forall id | id in s.deleted :: id !in after)
            && (forall id | id in db.rows && id !in s.deleted :: id in after)
            && forall id | id in s.Changed() && id in order && id.kind != ImportCandidates :: id in after
  {
    var p := FlushRows(db.rows, s, order).value;
    CommittedRows(db, s, p, now);
    forall id | id in db.rows
      ensures id in p.rows
    {
      FlushKeepsPlaces(db.rows, s, order, id);
    }
    forall id | id in order && id.kind != ImportCandidates
      ensures id in p.rows
    {
      FlushStoresEach(db.rows, s, order, id);
    }
  }

  /** The trail of a deleted entity goes with it, and every other audit row stays. */
  lemma TrailGoesWithEntity(db: Store, s: Scope, p: Progress, now: int)
    ensures var audit := FlushedStore(db, s, p, false, now).audit;
            && (forall key | key in audit && audit[key].aggregate.kind == Entities :: audit[key].aggregate !in s.deleted)
            && forall key | key in db.audit && !(db.audit[key].aggregate.kind == Entities && db.audit[key].aggregate in s.deleted) ::
                 key in audit && audit[key] == db.audit[key]
  {
    var written := AfterDeletes(db, p.rows, s.deleted);
    PublishLogs(written, s.events, s.deleted, now);
    var audit := FlushedStore(db, s, p, false, now).audit;
    forall key | key in audit && audit[key].aggregate.kind == Entities
      ensures audit[key].aggregate !in s.deleted
    {
      var event := audit[key];
      if key !in written.audit { assert event in Trailed(s.events, s.deleted) && event.aggregate == Id(Entities, event.aggregate.key); }
    }
  }

  /** Publishing alone, as an events-only flush does, leaves every row and every pending edit. */
  lemma EventsOnly(db: Store, s: Scope, now: int)
    ensures var p := Progress(db.rows, map[]);
            var after := FlushedStore(db, s, p, true, now);
            && after.rows.Keys == db.rows.Keys && (forall id | id in db.rows :: SameFor(id.kind, db.rows[id], after.rows[id]))
            && (forall event | event in s.events :: event.eventId in after.outbox)
            && FlushedScope(s, p, true) == s.(events := [])
  {
    PublishStamps(db, s.events, s.deleted, now);
    PublishLogs(db, s.events, s.deleted, now);
    NothingAdopted(s);
  }

  // ---- The scope ----

  lemma {:induction false} CommittedAll(rows: Table, s: Scope, order: seq<Id>)
    requires FlushedBy(rows, s, order)
    ensures FlushRows(rows, s, order).value.committed.Keys == set id | id in order
    decreases |order|
  {
    if order != [] {
      var front, p, id := LastOf(rows, s, order);
      CommittedAll(rows, s, front);
    }
  }

  /** A flush leaves nothing pending: the scope keeps what it held, with the written rows as they were
      read back, and forgets the deleted ones. */
  lemma FlushIsIdle(s: Scope, p: Progress)
    requires p.committed.Keys == s.Changed()
    ensures var t := FlushedScope(s, p, false);
            && t.Idle() && t.loaded == (s.loaded + p.committed) - s.deleted && (s.Valid() ==> t.Valid())
  {
    if s.Valid() { FlushedIsValid(s, p, false); }
    var t := FlushedScope(s, p, false);
    forall id | id in t.loaded
      ensures t.Baseline(id) == Some(t.loaded[id])
    {
      if id !in p.committed { assert id !in s.Changed(); }
    }
  }

  /** The scope then holds each row it wrote as the database does, up to the revision that a dispatch bumps. */
  lemma ScopeHoldsWhatIsStored(db: Store, s: Scope, order: seq<Id>, now: int, id: Id)
    requires FlushedBy(db.rows, s, order) && id in order && id.kind != ImportCandidates
    ensures var p := FlushRows(db.rows, s, order).value;
            var after, t := FlushedStore(db, s, p, false, now).rows, FlushedScope(s, p, false);
            && id in after && id in t.loaded && SameFor(id.kind, t.loaded[id], after[id])
            && t.Baseline(id) == Some(t.loaded[id])
  {
    var p := FlushRows(db.rows, s, order).value;
    FlushStoresEach(db.rows, s, order, id);
    CommittedRows(db, s, p, now);
    assert id in s.Changed();
  }

  /** What a flush that does not raise leaves, for its caller. */
  lemma FlushLeaves(db: Store, s: Scope, order: seq<Id>, now: int)
    requires Enumerates(order, s.Changed()) && FlushRows(db.rows, s, order).Some?
    ensures var p := FlushRows(db.rows, s, order).value;
            && (forall id | id in s.deleted :: id !in FlushedStore(db, s, p, false, now).rows)
            && (forall id | id in db.rows && id !in s.deleted :: id in FlushedStore(db, s, p, false, now).rows)
            && FlushedScope(s, p, false).Idle()
  {
    DeletedAreGone(db, s, order, now);
    CommittedAll(db.rows, s, order);
    FlushIsIdle(s, FlushRows(db.rows, s, order).value);
  }
}
