/** A scope of pending edits laid over the table, and the flush that commits it, on values. */
module Scopes {
  import opened Options
  import opened Rows

  // ---- The table ----

  predicate SamePlace(a: Row, b: Row) {
    Get(a, ImportRunId) == Get(b, ImportRunId) && Get(a, Ordinal) == Get(b, Ordinal)
  }

  /** The unique key of staged candidates: one row per run and ordinal. */
  ghost predicate UniqueOrdinals(rows: map<Id, Row>) {
    forall i, j | i in rows && j in rows && i.kind == j.kind == ImportCandidates && SamePlace(rows[i], rows[j]) :: i == j
  }

  type Table = rows: map<Id, Row> | UniqueOrdinals(rows) witness map[]

  function Lookup(rows: map<Id, Row>, id: Id): Option<Row> {
    if id in rows then Some(rows[id]) else None
  }

  predicate Holds(rows: map<Id, Row>, j: Id, row: Row) {
    j in rows && j.kind == ImportCandidates && SamePlace(rows[j], row)
  }

  /** The staged candidate that already occupies a row's place. */
  function Holder(rows: Table, row: Row): (holder: Option<Id>)
    ensures holder.Some? ==> Holds(rows, holder.value, row)
    ensures holder.None? ==> forall j :: !Holds(rows, j, row)
  {
    if exists j | j in rows :: Holds(rows, j, row) then
      var j :| j in rows && Holds(rows, j, row);
      Some(j)
    else None
  }

  predicate CandidateLink(f: Field) { f == ExistingEntityId || f == ProcessingQueueId }

  function Linked(row: Row, from: Row): Row {
    row[ExistingEntityId := Get(from, ExistingEntityId)][ProcessingQueueId := Get(from, ProcessingQueueId)]
  }

  function Moved(rows: Table, id: Id, row: Row): (next: Table)
    requires id.kind == ImportCandidates && (Holder(rows, row).None? || Holder(rows, row) == Some(id))
  {
    assert forall j | j in rows && j.kind == ImportCandidates && SamePlace(rows[j], row) :: Holds(rows, j, row);
    rows[id := row]
  }

  /** A candidate whose place stays as it was. */
  function InPlace(rows: Table, id: Id, row: Row): (next: Table)
    requires id in rows && SamePlace(rows[id], row)
  {
    rows[id := row]
  }

  /** The candidate upsert resolves conflicts by place, not by id: a row under another id
      is overwritten except for its links, and an id that moves to a free place is refused. */
  function WriteCandidate(rows: Table, id: Id, row: Row): Option<Table>
    requires id.kind == ImportCandidates
  {
    match Holder(rows, row)
    case None => if id in rows then None else Some(Moved(rows, id, row))
    case Some(j) =>
      if j == id then Some(Moved(rows, id, row))
      else
        var over := InPlace(rows, j, Overlaid(rows[j], row, CandidateLink));
        Some(if id in rows then InPlace(over, id, Linked(rows[id], row)) else over)
  }

  function Write(rows: Table, id: Id, row: Row): Option<Table> {
    if id.kind == ImportCandidates then WriteCandidate(rows, id, row)
    else Some(rows[id := Stored(id.kind, Lookup(rows, id), row)])
  }

  // ---- The scope ----

  /** An event about a row; some events also stamp that row, whose work they dispatch. */
  datatype Event = Event(eventId: string, aggregate: Id, dispatching: bool)
  {
    predicate Dispatches(id: Id) { dispatching && aggregate == id }
  }

  /** What each loaded identity was when it was read: a row, or absent. */
  datatype Baselines = Baselines(rows: map<Id, Row>, absent: set<Id>)
  {
    function Keys(): set<Id> { rows.Keys + absent }

    function Of(id: Id): Option<Row> { Lookup(rows, id) }

    function With(id: Id, baseline: Option<Row>): Baselines {
      match baseline
      case None => Baselines(rows - {id}, absent + {id})
      case Some(row) => Baselines(rows[id := row], absent - {id})
    }

    function Without(ids: set<Id>): Baselines { Baselines(rows - ids, absent - ids) }

    function Adopting(committed: map<Id, Row>): Baselines { Baselines(rows + committed, absent - committed.Keys) }
  }

  datatype Scope = Scope(loaded: map<Id, Row>, original: Baselines, deleted: set<Id>, events: seq<Event>)
  {
    predicate Valid() { loaded.Keys == original.Keys() && original.rows.Keys !! original.absent }

    function Baseline(id: Id): Option<Row> { original.Of(id) }

    function Changed(): set<Id> {
      set id | id in loaded && id !in deleted && Baseline(id) != Some(loaded[id])
    }

    predicate Idle() { Changed() == {} && deleted == {} && events == [] }
  }

  /** The plain map a scope stands for: the table overlaid with the pending edits. */
  function View(rows: map<Id, Row>, s: Scope): map<Id, Row> {
    (rows + s.loaded) - s.deleted
  }

  function OfKind(ids: set<Id>, kind: Kind): set<Id> {
    set id | id in ids && id.kind == kind
  }

  /** What iterating over a dictionary yields: stored and loaded identities that are not marked deleted. */
  function Listed(rows: map<Id, Row>, s: Scope, kind: Kind): set<Id> {
    OfKind(rows.Keys, kind) + OfKind(s.loaded.Keys, kind) - s.deleted
  }

  predicate Loadable(rows: map<Id, Row>, s: Scope, id: Id) {
    id !in s.deleted && (id in s.loaded || id in rows)
  }

  function AfterLoad(rows: map<Id, Row>, s: Scope, id: Id): Scope {
    if id in s.deleted || id in s.loaded || id !in rows then s
    else s.(loaded := s.loaded[id := rows[id]], original := s.original.With(id, Some(rows[id])))
  }

  function AfterSet(rows: map<Id, Row>, s: Scope, id: Id, row: Row): Scope {
    var t :=
      if id in s.original.Keys() then s
      else if Loadable(rows, s, id) then AfterLoad(rows, s, id)
      else s.(original := s.original.With(id, None));
    t.(deleted := t.deleted - {id}, loaded := t.loaded[id := row])
  }

  function AfterDelete(rows: map<Id, Row>, s: Scope, id: Id): Scope {
    if Loadable(rows, s, id) then
      var t := AfterLoad(rows, s, id);
      t.(deleted := t.deleted + {id})
    else s
  }

  /** The domain code edits a loaded row in place. */
  function AfterEdit(s: Scope, id: Id, row: Row): Scope
    requires id in s.loaded
  {
    s.(loaded := s.loaded[id := row])
  }

  function Dropped(s: Scope, ids: set<Id>): Scope {
    s.(loaded := s.loaded - ids, original := s.original.Without(ids))
  }

  predicate Selected(id: Id, kind: Kind, key: Option<string>) {
    id.kind == kind && (key.None? || id.key == key.value)
  }

  function CleanRows(s: Scope, kind: Kind, key: Option<string>): set<Id> {
    set id | id in s.loaded && Selected(id, kind, key) && s.Baseline(id) == Some(s.loaded[id])
  }

  function Invalidated(s: Scope, kind: Kind, key: Option<string>): Scope {
    Dropped(s, CleanRows(s, kind, key))
  }

  function Reloaded(rows: map<Id, Row>, s: Scope, id: Id): Scope {
    if id !in rows then s
    else s.(loaded := s.loaded[id := rows[id]], original := s.original.With(id, Some(rows[id])))
  }

  function RolledBack(s: Scope): Scope {
    Scope(map id | id in s.loaded && s.Baseline(id).Some? :: s.Baseline(id).value,
          s.original.Without(set id | id in s.loaded && s.Baseline(id).None?), {}, [])
  }

  function Staged(s: Scope, id: Id, row: Row, isNew: bool): Scope {
    s.(original := if id in s.original.Keys() then s.original else s.original.With(id, if isNew then None else Some(row)),
       deleted := s.deleted - {id},
       loaded := s.loaded[id := row])
  }

  predicate StagedFor(id: Id, row: Row, run: Value) {
    id.kind == ImportCandidates && Get(row, ImportRunId) == run
  }

  function ReadForRun(s: Scope, run: Value): set<Id> {
    set id | id in s.loaded && StagedFor(id, if s.Baseline(id).Some? then s.Baseline(id).value else s.loaded[id], run)
  }

  function Evicted(s: Scope, run: Value): Scope {
    Dropped(s, ReadForRun(s, run))
  }

  function WithoutCandidates(rows: Table, run: Value): Table {
    map id | id in rows && !StagedFor(id, rows[id], run) :: rows[id]
  }

  function LoadedForRun(s: Scope, run: Value): set<Id> {
    set id | id in s.loaded && StagedFor(id, s.loaded[id], run)
  }

  function Discarded(s: Scope, run: Value): Scope {
    Dropped(s, LoadedForRun(s, run)).(deleted := s.deleted - LoadedForRun(s, run))
  }

  // ---- The flush ----

  /** The database: rows, the outbox, the audit trail and the times of the last dispatches. */
  datatype Store = Store(rows: Table, outbox: map<string, Event>, audit: map<string, Event>, dispatched: map<Id, int>)

  datatype Progress = Progress(rows: Table, committed: map<Id, Row>)

  function FlushOne(p: Progress, s: Scope, id: Id): Option<Progress>
    requires id in s.loaded
  {
    match Resolve(id.kind, s.Baseline(id), s.loaded[id], Lookup(p.rows, id))
    case None => None
    case Some(row) =>
      match Write(p.rows, id, row)
      case None => None
      case Some(rows) => Some(Progress(rows, p.committed[id := if id in rows then rows[id] else row]))
  }

  /** Writing the changed rows one after another inside the transaction. */
  function FlushRows(rows: Table, s: Scope, order: seq<Id>): Option<Progress>
    requires forall id | id in order :: id in s.loaded
  {
    if order == [] then Some(Progress(rows, map[]))
    else
      var last := |order| - 1;
      match FlushRows(rows, s, order[..last])
      case None => None
      case Some(p) => FlushOne(p, s, order[last])
  }

  /** A dispatch stamps the row's work time; the revision trigger sees that as an update of an entity. */
  function Stamped(rows: Table, id: Id): Table {
    if id in rows && id.kind == Entities then rows[id := Bumped(rows[id], Some(rows[id]))] else rows
  }

  function Recorded(log: map<string, Event>, event: Event): map<string, Event> {
    if event.eventId in log then log else log[event.eventId := event]
  }

  /** Whether the flush deletes an entity under the event's identity. */
  predicate Orphaned(event: Event, deleted: set<Id>) { Id(Entities, event.aggregate.key) in deleted }

  function Publish(db: Store, event: Event, deleted: set<Id>, now: int): Store {
    var id := event.aggregate;
    Store(if event.dispatching then Stamped(db.rows, id) else db.rows,
          Recorded(db.outbox, event),
          if Orphaned(event, deleted) then db.audit else Recorded(db.audit, event),
          if event.dispatching && id in db.rows then db.dispatched[id := now] else db.dispatched)
  }

  function PublishAll(db: Store, events: seq<Event>, deleted: set<Id>, now: int): Store {
    if events == [] then db
    else Publish(PublishAll(db, events[..|events| - 1], deleted, now), events[|events| - 1], deleted, now)
  }

  /** Deleting an entity deletes its audit trail. */
  function WithoutTrail(audit: map<string, Event>, deleted: set<Id>): map<string, Event> {
    map key | key in audit && !(audit[key].aggregate.kind == Entities && audit[key].aggregate in deleted) :: audit[key]
  }

  function AfterDeletes(db: Store, rows: Table, deleted: set<Id>): Store {
    db.(rows := rows - deleted, audit := WithoutTrail(db.audit, deleted))
  }

  /** The store and scope a successful flush leaves behind. */
  function FlushedStore(db: Store, s: Scope, p: Progress, eventsOnly: bool, now: int): Store {
    PublishAll(if eventsOnly then db.(rows := p.rows) else AfterDeletes(db, p.rows, s.deleted), s.events, s.deleted, now)
  }

  function FlushedScope(s: Scope, p: Progress, eventsOnly: bool): Scope {
    var t := s.(loaded := s.loaded + p.committed, original := s.original.Adopting(p.committed), events := []);
    if eventsOnly then t else Dropped(t, s.deleted).(deleted := {})
  }

  ghost predicate Enumerates(order: seq<Id>, ids: set<Id>) {
    (forall id :: id in order <==> id in ids) && (forall i, j | 0 <= i < j < |order| :: order[i] != order[j])
  }
}
