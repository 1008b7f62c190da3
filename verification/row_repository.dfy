/** The repository: a thread's scope over a shared database, updated in place. */
module RowRepository {
  import opened Options
  import opened Rows
  import opened Scopes
  import Overlay
  import CommittedFlush

  class Database {
    var store: Store

    constructor (store: Store)
      ensures this.store == store
    {
      this.store := store;
    }
  }

  /** One flush: the store and the scope it started from, and the order and time of its writes. */
  datatype Try = Try(store: Store, scope: Scope, order: seq<Id>, now: int)

  class Repository {
    const database: Database
    var loaded: map<Id, Row>
    var original: Baselines
    var deleted: set<Id>
    var events: seq<Event>

    /** Every flush of this repository. */
    ghost var log: seq<Try>

    constructor (database: Database)
      ensures this.database == database && Pending() == Scope(map[], Baselines(map[], {}), {}, []) && log == []
    {
      this.database := database;
      loaded, original, deleted, events := map[], Baselines(map[], {}), {}, [];
      log := [];
    }

    ghost function Pending(): Scope
      reads this
    {
      Scope(loaded, original, deleted, events)
    }

    method Load(id: Id) returns (row: Option<Row>)
      modifies this
      ensures log == old(log)
      ensures Pending() == AfterLoad(database.store.rows, old(Pending()), id)
      ensures row == if Loadable(database.store.rows, old(Pending()), id) then Lookup(loaded, id) else None
    {
      if id in deleted {
        return None;
      }
      if id in loaded {
        return Some(loaded[id]);
      }
      if id !in database.store.rows {
        return None;
      }
      var value := database.store.rows[id];
      loaded := loaded[id := value];
      original := original.With(id, Some(value));
      return Some(value);
    }

    method SetItem(id: Id, row: Row)
      modifies this
      ensures log == old(log)
      ensures Pending() == AfterSet(database.store.rows, old(Pending()), id, row)
    {
      if id !in original.Keys() {
        var found := Load(id);
        if found == None {
          original := original.With(id, None);
        }
      }
      deleted := deleted - {id};
      loaded := loaded[id := row];
    }

    /** The domain code edits a loaded row in place. */
    method EditItem(id: Id, row: Row)
      requires id in loaded
      modifies this
      ensures log == old(log)
      ensures Pending() == AfterEdit(old(Pending()), id, row)
    {
      loaded := loaded[id := row];
    }

    method Emit(emitted: seq<Event>)
      modifies this
      ensures log == old(log)
      ensures Pending() == old(Pending()).(events := old(Pending()).events + emitted)
    {
      events := events + emitted;
    }

    method DelItem(id: Id) returns (found: bool)
      modifies this
      ensures log == old(log)
      ensures Pending() == AfterDelete(database.store.rows, old(Pending()), id)
      ensures found == Loadable(database.store.rows, old(Pending()), id)
    {
      var row := Load(id);
      if row == None {
        return false;
      }
      deleted := deleted + {id};
      return true;
    }

    /** The identities a dictionary of one kind iterates over. */
    method Keys(kind: Kind) returns (ids: set<Id>)
      ensures ids == Listed(database.store.rows, Pending(), kind)
    {
      ids := OfKind(database.store.rows.Keys, kind);
      var todo := loaded.Keys;
      while todo != {}
        invariant todo <= loaded.Keys
        invariant ids == OfKind(database.store.rows.Keys, kind) + OfKind(loaded.Keys - todo, kind)
      {
        var id :| id in todo;
        todo := todo - {id};
        if id.kind == kind {
          ids := ids + {id};
        }
      }
      assert loaded.Keys - {} == loaded.Keys;
      ids := ids - deleted;
    }

    method Invalidate(kind: Kind, key: Option<string>)
      modifies this
      ensures log == old(log)
      ensures Pending() == Invalidated(old(Pending()), kind, key)
    {
      ghost var clean := CleanRows(Pending(), kind, key);
      var todo := loaded.Keys;
      while todo != {}
        invariant log == old(log) && todo <= loaded.Keys && deleted == old(deleted) && events == old(events)
        invariant loaded == old(loaded) - (clean - todo) && original == old(original).Without(clean - todo)
      {
        var id :| id in todo;
        assert clean - (todo - {id}) == if id in clean then (clean - todo) + {id} else clean - todo;
        todo := todo - {id};
        if Selected(id, kind, key) && original.Of(id) == Some(loaded[id]) {
          loaded := loaded - {id};
          original := original.Without({id});
        }
      }
      assert clean - {} == clean;
    }

    method Reload(id: Id) returns (found: bool)
      modifies this
      ensures log == old(log)
      ensures Pending() == Reloaded(database.store.rows, old(Pending()), id)
      ensures found == (id in database.store.rows)
    {
      found := id in database.store.rows;
      if found {
        loaded := loaded[id := database.store.rows[id]];
        original := original.With(id, Some(database.store.rows[id]));
      }
    }

    method RollbackPending()
      modifies this
      ensures log == old(log)
      ensures Pending() == RolledBack(old(Pending()))
    {
      var todo := loaded.Keys;
      ghost var was := old(Pending());
      assert HalfRolledBack(was, todo) == was;
      while todo != {}
        invariant log == old(log) && todo <= loaded.Keys && todo <= was.loaded.Keys && Pending() == HalfRolledBack(was, todo)
      {
        var id :| id in todo;
        HalfStep(was, todo, id);
        if original.Of(id) == None {
          loaded := loaded - {id};
          original := original.Without({id});
        } else {
          loaded := loaded[id := original.Of(id).value];
        }
        todo := todo - {id};
      }
      assert HalfRolledBack(was, {}).(deleted := {}, events := []) == RolledBack(was);
      deleted, events := {}, [];
    }

    method StageImportCandidate(id: Id, row: Row, isNew: bool)
      modifies this
      ensures log == old(log)
      ensures Pending() == Staged(old(Pending()), id, row, isNew)
    {
      if id !in original.Keys() {
        original := original.With(id, if isNew then None else Some(row));
      }
      deleted := deleted - {id};
      loaded := loaded[id := row];
    }

    method EvictImportCandidates(run: Value)
      modifies this
      ensures log == old(log)
      ensures Pending() == Evicted(old(Pending()), run)
    {
      ghost var gone := ReadForRun(Pending(), run);
      var todo := loaded.Keys;
      while todo != {}
        invariant log == old(log) && todo <= loaded.Keys && deleted == old(deleted) && events == old(events)
        invariant loaded == old(loaded) - (gone - todo) && original == old(original).Without(gone - todo)
      {
        var id :| id in todo;
        assert gone - (todo - {id}) == if id in gone then (gone - todo) + {id} else gone - todo;
        todo := todo - {id};
        if StagedFor(id, if original.Of(id).Some? then original.Of(id).value else loaded[id], run) {
          loaded, original := loaded - {id}, original.Without({id});
        }
      }
      assert gone - {} == gone;
    }

    method DiscardImportCandidates(run: Value)
      modifies this, database
      ensures log == old(log)
      ensures database.store == old(database.store).(rows := WithoutCandidates(old(database.store).rows, run))
      ensures Pending() == Discarded(old(Pending()), run)
    {
      database.store := database.store.(rows := WithoutCandidates(database.store.rows, run));
      ghost var gone := LoadedForRun(Pending(), run);
      var todo := loaded.Keys;
      while todo != {}
        invariant log == old(log) && todo <= loaded.Keys && events == old(events) && deleted == old(deleted) - (gone - todo)
        invariant database.store == old(database.store).(rows := WithoutCandidates(old(database.store).rows, run))
        invariant loaded == old(loaded) - (gone - todo) && original == old(original).Without(gone - todo)
      {
        var id :| id in todo;
        assert gone - (todo - {id}) == if id in gone then (gone - todo) + {id} else gone - todo;
        todo := todo - {id};
        if StagedFor(id, loaded[id], run) {
          loaded, original, deleted := loaded - {id}, original.Without({id}), deleted - {id};
        }
      }
      assert gone - {} == gone;
    }

    /** Commits everything pending in one transaction, or raises and changes nothing. */
    method Flush(eventsOnly: bool, now: int) returns (raised: bool, ghost order: seq<Id>)
      modifies this, database
      ensures Enumerates(order, if eventsOnly then {} else old(Pending()).Changed())
      ensures log == old(log) + [Try(old(database.store), old(Pending()), order, now)]
      ensures match FlushRows(old(database.store.rows), old(Pending()), order)
              case None => raised && database.store == old(database.store) && Pending() == old(Pending())
              case Some(p) => && !raised
                              && database.store == FlushedStore(old(database.store), old(Pending()), p, eventsOnly, now)
                              && Pending() == FlushedScope(old(Pending()), p, eventsOnly)
      ensures raised ==> database.store == old(database.store) && Pending() == old(Pending())
      ensures !raised && !eventsOnly ==> (forall id | id in old(deleted) :: id !in database.store.rows) && Pending().Idle()
      ensures !raised && !eventsOnly ==> forall id | id in old(database.store).rows && id !in old(deleted) :: id in database.store.rows
      ensures eventsOnly ==> !raised && database.store.rows.Keys == old(database.store).rows.Keys && Pending() == old(Pending()).(events := [])
    {
      ghost var before, scope := database.store, Pending();
      var changed := if eventsOnly then {} else set id | id in loaded && id !in deleted
                                                          && original.Of(id) != Some(loaded[id]);
      var listed := List(changed);
      order := listed;
      log := log + [Try(database.store, Pending(), order, now)];
      assert forall id | id in listed :: id in changed && id in loaded;
      if listed != [] { Overlay.SomeElement(listed); }
      var progress := WriteRows(database.store.rows, Scope(loaded, original, deleted, events), listed);
      if progress == None {
        return true, order;
      }
      var Progress(rows, committed) := progress.value;
      var store := if eventsOnly then database.store.(rows := rows) else AfterDeletes(database.store, rows, deleted);
      database.store := PublishAll(store, events, deleted, now);
      loaded, original := loaded + committed, original.Adopting(committed);
      if !eventsOnly {
        loaded, original, deleted := loaded - deleted, original.Without(deleted), {};
      }
      events := [];
      if eventsOnly { CommittedFlush.EventsOnly(before, scope, now); } else { CommittedFlush.FlushLeaves(before, scope, order, now); }
      return false, order;
    }
  }

  /** Locks, re-reads and writes the changed rows one after another inside the transaction. */
  method WriteRows(found: Table, s: Scope, order: seq<Id>) returns (progress: Option<Progress>)
    requires forall id | id in order :: id in s.loaded
    ensures progress == FlushRows(found, s, order)
  {
    var rows := found;
    var committed: map<Id, Row> := map[];
    for i := 0 to |order|
      invariant FlushRows(found, s, order[..i]) == Some(Progress(rows, committed))
    {
      var id := order[i];
      assert order[..i + 1][..i] == order[..i];
      var resolved := ResolveRow(id.kind, s.Baseline(id), s.loaded[id], Lookup(rows, id));
      var written := if resolved.Some? then Write(rows, id, resolved.value) else None;
      if written == None {
        StillRaised(found, s, order, i + 1);
        return None;
      }
      rows := written.value;
      committed := committed[id := if id in rows then rows[id] else resolved.value];
    }
    assert order[..|order|] == order;
    return Some(Progress(rows, committed));
  }

  /** A rollback that has still to look at some rows. */
  ghost function HalfRolledBack(s: Scope, todo: set<Id>): Scope {
    s.(loaded := map id | id in s.loaded && (id in todo || s.Baseline(id).Some?)
                       :: if id in todo then s.loaded[id] else s.Baseline(id).value,
       original := s.original.Without(set id | id in s.loaded && id !in todo && s.Baseline(id).None?))
  }

  lemma HalfStep(s: Scope, todo: set<Id>, id: Id)
    requires todo <= s.loaded.Keys && id in todo
    ensures var t, u := HalfRolledBack(s, todo), HalfRolledBack(s, todo - {id});
            && id in t.loaded && t.original.Of(id) == s.Baseline(id) && t.deleted == u.deleted && t.events == u.events
            && (s.Baseline(id).None? ==> u.loaded == t.loaded - {id} && u.original == t.original.Without({id}))
            && (s.Baseline(id).Some? ==> u.loaded == t.loaded[id := s.Baseline(id).value] && u.original == t.original)
  {
  }

  /** Any listing of a set; the order in which rows are written does not matter to the callers. */
  method List(ids: set<Id>) returns (order: seq<Id>)
    ensures Enumerates(order, ids)
  {
    order := [];
    var todo := ids;
    while todo != {}
      invariant todo <= ids && Enumerates(order, ids - todo)
    {
      var id :| id in todo;
      order := order + [id];
      todo := todo - {id};
    }
  }

  method ResolveRow(kind: Kind, baseline: Option<Row>, mine: Row, latest: Option<Row>) returns (row: Option<Row>)
    ensures row == Resolve(kind, baseline, mine, latest)
  {
    if baseline == None {
      return if latest == None || latest == Some(mine) then Some(mine) else None;
    }
    if latest == None {
      return None;
    }
    if kind == Entities {
      return if Get(latest.value, Version) == Get(baseline.value, Version) then Some(mine) else None;
    }
    row := MergeRow(baseline.value, mine, latest.value);
  }

  lemma {:induction false} StillRaised(rows: Table, s: Scope, order: seq<Id>, n: nat)
    requires forall id | id in order :: id in s.loaded
    requires n <= |order| && FlushRows(rows, s, order[..n]) == None
    ensures FlushRows(rows, s, order) == None
    decreases |order|
  {
    if n < |order| {
      var shorter := order[..|order| - 1];
      assert shorter[..n] == order[..n];
      StillRaised(rows, s, shorter, n);
    } else {
      assert order[..n] == order;
    }
  }
}
