/** Database rows as maps from field to value, and what a flush does to one row. */
module Rows {
  import opened Options

  datatype Kind = ImportRuns | Entities | ImportCandidates | ImportProcessingQueues | Control(name: string)
  datatype Id = Id(kind: Kind, key: string)

  datatype Field =
    | Status | Version | LeaseUntil | HeartbeatAt | AttemptCount | CompletedAt | Stats | LastError | StartedAt
    | Adapter | ProcessedAt | ProcessedBy | CancellationRequestedAt | CancellationRequestedBy
    | ImportRunId | Ordinal | ExistingEntityId | ProcessingQueueId | EntityPayload | CandidateSource
    | ValidationStatus | ValidationNote | ValidatedBy | ValidatedAt | TargetStatus | ProcessedEntityId
    | CandidateIds | RequestedBy | RequestedAt | QueueResult | QueueError
    | Other(name: string)

  /** Statuses of runs, queues, candidates and entities. */
  datatype Code =
    | UPLOAD_PENDING | QUEUED | PROCESSING | PREPROCESSED | PREPROCESSED_WITH_ERRORS | COMPLETED | FAILED | CANCELLING | CANCELLED
    | PENDING | CONFIRMED | PROCESSED | CANDIDATE | APPROVED | REJECTED | RETIRED

  datatype Value = Null | Number(n: int) | Text(s: string) | State(code: Code)

  type Row = map<Field, Value>

  /** An absent field reads as null. */
  function Get(row: Row, f: Field): Value {
    if f in row then row[f] else Null
  }

  /** Rows that no read of a single field tells apart. */
  ghost predicate Same(a: Row, b: Row) {
    forall f :: Get(a, f) == Get(b, f)
  }

  // ---- The three-way merge ----

  predicate Edited(baseline: Row, mine: Row, f: Field) {
    Get(baseline, f) != Get(mine, f)
  }

  predicate Clashes(baseline: Row, mine: Row, latest: Row, f: Field) {
    Edited(baseline, mine, f) && Get(latest, f) != Get(baseline, f) && Get(latest, f) != Get(mine, f)
  }

  /** `latest` with the edits of the given fields carried over. */
  function Carried(baseline: Row, mine: Row, latest: Row, fields: set<Field>): Row {
    map f | f in latest.Keys + mine.Keys
            && (if f in fields && Edited(baseline, mine, f) then f in mine else f in latest)
         :: if f in fields && Edited(baseline, mine, f) then mine[f] else latest[f]
  }

  function Merge(baseline: Row, mine: Row, latest: Row): Option<Row> {
    if exists f | f in baseline.Keys + mine.Keys :: Clashes(baseline, mine, latest, f) then None
    else Some(Carried(baseline, mine, latest, baseline.Keys + mine.Keys))
  }

  method MergeRow(baseline: Row, mine: Row, latest: Row) returns (merged: Option<Row>)
    ensures merged == Merge(baseline, mine, latest)
  {
    var todo := baseline.Keys + mine.Keys;
    ghost var done: set<Field> := {};
    var row := latest;
    assert row == Carried(baseline, mine, latest, done);
    while todo != {}
      invariant done + todo == baseline.Keys + mine.Keys && done !! todo
      invariant row == Carried(baseline, mine, latest, done)
      invariant forall f | f in done :: !Clashes(baseline, mine, latest, f)
    {
      var f :| f in todo;
      CarryOne(baseline, mine, latest, done, f);
      if Get(baseline, f) != Get(mine, f) {
        if Get(row, f) != Get(baseline, f) && Get(row, f) != Get(mine, f) {
          assert Clashes(baseline, mine, latest, f);
          return None;
        }
        row := if f in mine then row[f := mine[f]] else row - {f};
      }
      done, todo := done + {f}, todo - {f};
    }
    return Some(row);
  }

  lemma CarryOne(baseline: Row, mine: Row, latest: Row, done: set<Field>, f: Field)
    requires f !in done
    ensures var row := Carried(baseline, mine, latest, done);
            && Get(row, f) == Get(latest, f)
            && Carried(baseline, mine, latest, done + {f})
               == if !Edited(baseline, mine, f) then row else if f in mine then row[f := mine[f]] else row - {f}
  {
  }

  /** A merge fails exactly on a clash; otherwise edited fields take the new value, all others
      keep the latest one, and a field only changes if the latest row still held its baseline. */
  lemma MergeMeaning(baseline: Row, mine: Row, latest: Row)
    ensures Merge(baseline, mine, latest).None? <==> exists f :: Clashes(baseline, mine, latest, f)
    ensures var merged := Merge(baseline, mine, latest);
            merged.Some? ==> forall f ::
              && Get(merged.value, f) == (if Edited(baseline, mine, f) then Get(mine, f) else Get(latest, f))
              && (Get(merged.value, f) != Get(latest, f) ==> Get(latest, f) == Get(baseline, f))
  {
    forall f | Clashes(baseline, mine, latest, f)
      ensures f in baseline.Keys + mine.Keys
    {
    }
    var merged := Merge(baseline, mine, latest);
    if merged.Some? {
      forall f
        ensures Get(merged.value, f) == (if Edited(baseline, mine, f) then Get(mine, f) else Get(latest, f))
        ensures !Clashes(baseline, mine, latest, f)
      {
      }
    }
  }

  ghost predicate Compatible(baseline: Row, first: Row, second: Row) {
    forall f | Edited(baseline, first, f) && Edited(baseline, second, f) :: Get(first, f) == Get(second, f)
  }

  /** Two writers from one baseline: the second commit succeeds exactly when their edits
      agree, and then the order of the commits does not matter. */
  lemma MergesCommute(baseline: Row, first: Row, second: Row)
    ensures Merge(baseline, first, baseline).Some?
    ensures var alone := Merge(baseline, first, baseline).value;
            Same(alone, first) && (Merge(baseline, second, alone).Some? <==> Compatible(baseline, first, second))
    ensures Compatible(baseline, first, second) ==>
              var one := Merge(baseline, second, Merge(baseline, first, baseline).value);
              var other := Merge(baseline, first, Merge(baseline, second, baseline).value);
              one.Some? && other.Some? && Same(one.value, other.value)
  {
    MergeMeaning(baseline, first, baseline);
    MergeMeaning(baseline, second, baseline);
    var alone, alone2 := Merge(baseline, first, baseline).value, Merge(baseline, second, baseline).value;
    MergeMeaning(baseline, second, alone);
    MergeMeaning(baseline, first, alone2);
    forall f
      ensures Clashes(baseline, second, alone, f)
              <==> Edited(baseline, first, f) && Edited(baseline, second, f) && Get(first, f) != Get(second, f)
    {
      assert Get(alone, f) == Get(first, f);
    }
    forall f
      ensures Clashes(baseline, first, alone2, f)
              <==> Edited(baseline, first, f) && Edited(baseline, second, f) && Get(first, f) != Get(second, f)
    {
      assert Get(alone2, f) == Get(second, f);
    }
  }

  // ---- One row of a flush ----

  /** The row a flush writes for one identity, or None for a conflict. */
  function Resolve(kind: Kind, baseline: Option<Row>, mine: Row, latest: Option<Row>): Option<Row> {
    match baseline
    case None => if latest == None || latest == Some(mine) then Some(mine) else None
    case Some(before) =>
      match latest
      case None => None
      case Some(now) =>
        if kind == Entities then if Get(now, Version) == Get(before, Version) then Some(mine) else None
        else Merge(before, mine, now)
  }

  // ---- What an upsert leaves in the table ----

  predicate RunColumn(f: Field) {
    f in {Adapter, Status, StartedAt, CompletedAt, Stats, AttemptCount, HeartbeatAt, LeaseUntil, LastError,
          ProcessedAt, ProcessedBy, CancellationRequestedAt, CancellationRequestedBy}
  }

  /** Queue columns that are written once, and lease columns that a flush never writes. */
  predicate QueueInsertOnly(f: Field) { f in {ImportRunId, CandidateIds, TargetStatus, RequestedBy, RequestedAt} }
  predicate QueueLease(f: Field) { f in {AttemptCount, HeartbeatAt, LeaseUntil} }

  predicate Closing(code: Value) { code == State(CANCELLING) || code == State(CANCELLED) }

  /** The guard on the run upsert: nothing but a cancellation overwrites a cancelling run. */
  predicate Guarded(stored: Row, row: Row) {
    Closing(Get(stored, Status)) && Get(row, Status) != State(CANCELLED)
  }

  /** Whether the upsert leaves this column of an existing row as it was. */
  predicate Kept(kind: Kind, stored: Row, row: Row, f: Field) {
    match kind
    case ImportRuns => f == Adapter || (Guarded(stored, row) && RunColumn(f))
    case ImportProcessingQueues => QueueInsertOnly(f) || QueueLease(f)
    case _ => false
  }

  /** Every value of `row`, except that kept fields stay as they are in `stored`. */
  function Overlaid(stored: Row, row: Row, kept: Field -> bool): Row {
    map f | f in stored.Keys + row.Keys && (if kept(f) then f in stored else f in row)
         :: if kept(f) then stored[f] else row[f]
  }

  function Revision(row: Row): int {
    if Get(row, Version).Number? then Get(row, Version).n else 0
  }

  function Bumped(row: Row, stored: Option<Row>): Row {
    row[Version := Number(if stored.Some? then Revision(stored.value) + 1 else 1)]
  }

  function Stored(kind: Kind, stored: Option<Row>, row: Row): Row {
    if kind == Entities then Bumped(row, stored)
    else
      match stored
      case None => if kind == ImportProcessingQueues then Overlaid(map[], row, QueueLease) else row
      case Some(before) => Overlaid(before, row, f => Kept(kind, before, row, f))
  }

  /** A row that is still written whole, whatever the guards: what a caller can check beforehand. */
  ghost predicate Storable(kind: Kind, stored: Option<Row>, row: Row) {
    match stored
    case None => kind == ImportProcessingQueues ==> forall f | QueueLease(f) :: Get(row, f) == Null
    case Some(before) => forall f | Kept(kind, before, row, f) :: Get(row, f) == Get(before, f)
  }

  /** Rows equal up to the revision of an entity, which only the database sets. */
  ghost predicate SameFor(kind: Kind, a: Row, b: Row) {
    forall f | !(kind == Entities && f == Version) :: Get(a, f) == Get(b, f)
  }

  lemma StoredWhole(kind: Kind, stored: Option<Row>, row: Row)
    ensures SameFor(kind, Stored(kind, stored, row), row) <==> Storable(kind, stored, row)
  {
    var written := Stored(kind, stored, row);
    if kind != Entities {
      match stored
      case None =>
        if kind == ImportProcessingQueues {
          forall f ensures Get(written, f) == if QueueLease(f) then Null else Get(row, f) {}
        }
      case Some(before) =>
        forall f ensures Get(written, f) == if Kept(kind, before, row, f) then Get(before, f) else Get(row, f) {}
    }
  }

  lemma StoredField(kind: Kind, latest: Row, row: Row, f: Field)
    requires kind != Entities
    ensures Get(Stored(kind, Some(latest), row), f) == if Kept(kind, latest, row, f) then Get(latest, f) else Get(row, f)
  {
  }

  /** Column by column, what the upsert of an existing row stores: it keeps a run's adapter, a cancelling run's
      columns unless the write cancels it, and what of a queue was fixed when it was queued or belongs to its lease;
      everything else is written, and the revision of an entity goes up by one. */
  lemma UpsertWrites(kind: Kind, stored: Row, row: Row, f: Field)
    ensures var written := Get(Stored(kind, Some(stored), row), f);
            match kind
            case ImportRuns =>
              var closing := Get(stored, Status) in {State(CANCELLING), State(CANCELLED)} && Get(row, Status) != State(CANCELLED);
              written == if f == Adapter || (closing && f in {Status, StartedAt, CompletedAt, Stats, AttemptCount, HeartbeatAt,
                                                              LeaseUntil, LastError, ProcessedAt, ProcessedBy,
                                                              CancellationRequestedAt, CancellationRequestedBy})
                         then Get(stored, f) else Get(row, f)
            case ImportProcessingQueues =>
              written == if f in {ImportRunId, CandidateIds, TargetStatus, RequestedBy, RequestedAt, AttemptCount, HeartbeatAt, LeaseUntil}
                         then Get(stored, f) else Get(row, f)
            case Entities => written == if f == Version then Number(Revision(stored) + 1) else Get(row, f)
            case _ => written == Get(row, f)
  {
    if kind != Entities { StoredField(kind, stored, row, f); }
  }

  /** A new row is stored as it is, an entity at revision one and a queue without a lease. */
  lemma InsertWrites(kind: Kind, row: Row, f: Field)
    ensures Get(Stored(kind, None, row), f)
            == if kind == Entities && f == Version then Number(1)
               else if kind == ImportProcessingQueues && f in {AttemptCount, HeartbeatAt, LeaseUntil} then Null
               else Get(row, f)
  {
  }

  /** A cancelling run keeps its status through every write but a cancellation. */
  lemma CancellationSticks(stored: Row, row: Row)
    requires Closing(Get(stored, Status))
    ensures var status := Get(Stored(ImportRuns, Some(stored), row), Status);
            status == if Get(row, Status) == State(CANCELLED) then State(CANCELLED) else Get(stored, Status)
  {
  }
}
