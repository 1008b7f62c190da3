/** The promotion job: it works through its candidates over a repository, while others change the database. */
module PromotionJob {
  import opened Options
  import opened Rows
  import opened Scopes
  import opened Overlay
  import opened QuiescentFlush
  import opened Interleavings
  import opened CommittedFlush
  import opened Promotion
  import opened RowRepository

  // ---- What the job relies on ----

  /** The candidates in the list of a job. */
  type Candidates = ids: set<Id> | forall c | c in ids :: c.kind == ImportCandidates

  /** A promoted candidate keeps its mark until its row is deleted. */
  ghost predicate Keeps(rows: map<Id, Row>, c: Id, mark: Mark) {
    c in rows ==> PromotedAs(rows, c, mark)
  }

  ghost predicate Trusted(rows: map<Id, Row>, ours: Candidates) {
    forall c | c in ours && c in rows :: Dated(rows[c])
  }

  /** What happens to the job's own candidates while others are at work: none is created, and promoted ones
      keep their mark until they are deleted. Nothing is assumed about any other row. */
  ghost predicate Meanwhile(before: map<Id, Row>, after: map<Id, Row>, ours: Candidates) {
    && Trusted(after, ours)
    && (forall c | c in ours && c in after :: c in before)
    && forall c | c in ours && c in before && Processed(before[c]) :: Keeps(after, c, MarkOf(before[c]))
  }

  /** Any run in which the job's candidates are flushed properly, and none created again, is such a while. */
  lemma RunsAreMeanwhile(worlds: seq<World>, acts: seq<(nat, Act)>, j: nat, k: nat, ours: Candidates)
    requires |worlds| == |acts| + 1 && j <= k <= |acts|
    requires forall c | c in ours :: Setting(worlds, acts, c) && NotCreated(worlds, c, j, k)
    ensures Meanwhile(worlds[j].db.rows, worlds[k].db.rows, ours)
  {
    forall c | c in ours
      ensures c in worlds[k].db.rows ==> Dated(worlds[k].db.rows[c]) && c in worlds[j].db.rows
      ensures c in worlds[j].db.rows && Processed(worlds[j].db.rows[c]) ==> Keeps(worlds[k].db.rows, c, MarkOf(worlds[j].db.rows[c]))
    {
      AlwaysDated(worlds, acts, c, k);
      StaysAbsent(worlds, c, j, k);
      if c in worlds[j].db.rows && Processed(worlds[j].db.rows[c]) {
        PromotedPersists(worlds, acts, c, j, k, MarkOf(worlds[j].db.rows[c]));
      }
    }
  }

  lemma {:induction false} StaysAbsent(worlds: seq<World>, c: Id, j: nat, k: nat)
    requires j <= k < |worlds| && NotCreated(worlds, c, j, k)
    ensures c in worlds[k].db.rows ==> c in worlds[j].db.rows
  {
    if j != k { StaysAbsent(worlds, c, j, k - 1); }
  }

  lemma MeanwhileTwice(a: map<Id, Row>, b: map<Id, Row>, c: map<Id, Row>, ours: Candidates)
    requires Meanwhile(a, b, ours) && Meanwhile(b, c, ours)
    ensures Meanwhile(a, c, ours)
  {
  }

  ghost predicate Believed(row: Row, rows: map<Id, Row>, c: Id) {
    Dated(row) && (Processed(row) ==> Keeps(rows, c, MarkOf(row)))
  }

  /** Between two candidates the scope has nothing pending, and a candidate it holds as processed is so in the
      database, or deleted. */
  ghost predicate Ready(s: Scope, rows: map<Id, Row>, ours: Candidates) {
    s.Valid() && s.Idle() && Trusted(rows, ours) && forall c | c in s.loaded && c in ours :: Believed(s.loaded[c], rows, c)
  }

  lemma StaysReady(s: Scope, before: map<Id, Row>, after: map<Id, Row>, ours: Candidates)
    requires Ready(s, before, ours) && Meanwhile(before, after, ours)
    ensures Ready(s, after, ours)
  {
  }

  lemma LoadStaysReady(s: Scope, rows: map<Id, Row>, id: Id, ours: Candidates)
    requires Ready(s, rows, ours)
    ensures Ready(AfterLoad(rows, s, id), rows, ours)
    ensures Lookup(AfterLoad(rows, s, id).loaded, id) == Lookup(View(rows, s), id)
    ensures forall k | k in s.loaded :: Lookup(AfterLoad(rows, s, id).loaded, k) == Lookup(s.loaded, k)
  {
    var t := AfterLoad(rows, s, id);
    LoadRefines(rows, s, id);
    assert t.Changed() == {};
  }

  // ---- One flush of the job ----

  /** The scope of the job when it flushes: one marked candidate, and nothing else pending among the candidates. */
  ghost predicate Marking(s: Scope, rows: map<Id, Row>, c: Id, ours: Candidates) {
    && s.Valid() && s.deleted == {} && c in ours && c in s.Changed() && s.Baseline(c).Some?
    && Promoting(s.Baseline(c).value, s.loaded[c]) && Dated(s.Baseline(c).value)
    && SamePlace(s.Baseline(c).value, s.loaded[c])
    && (forall k | k in s.Changed() && k.kind == ImportCandidates :: k == c)
    && Trusted(rows, ours)
    && forall k | k in s.loaded && k in ours && k != c :: Believed(s.loaded[k], rows, k)
  }

  lemma NoRivals(rows: Table, s: Scope, c: Id, i: Id, ours: Candidates)
    requires Marking(s, rows, c, ours) && c in rows && i.kind == ImportCandidates
    ensures Unclaimed(rows, s, i)
  {
    assert Aim(rows, s, c) == Place(rows[c]);
  }

  /** One candidate got its mark, and the others are as they were. */
  ghost predicate OneMarked(rows: map<Id, Row>, after: map<Id, Row>, c: Id, mark: Mark) {
    && c in rows && PromotedAs(after, c, mark) && Dated(after[c])
    && (Processed(rows[c]) ==> MarkOf(rows[c]) == mark)
    && forall i: Id | i.kind == ImportCandidates && i != c :: Lookup(after, i) == Lookup(rows, i)
  }

  lemma MarkingFlush(rows: Table, s: Scope, c: Id, order: seq<Id>, ours: Candidates)
    requires Marking(s, rows, c, ours) && Enumerates(order, s.Changed()) && FlushRows(rows, s, order).Some?
    ensures var p := FlushRows(rows, s, order).value;
            OneMarked(rows, p.rows, c, MarkOf(s.loaded[c])) && Lookup(p.committed, c) == Some(p.rows[c])
  {
    if c !in rows { GoneRaises(rows, s, c, order); }
    NoRivals(rows, s, c, c, ours);
    UnclaimedRow(rows, s, order, c);
    ResolvedDated(s.Baseline(c), s.loaded[c], Lookup(rows, c));
    forall i: Id | i.kind == ImportCandidates && i != c
      ensures Lookup(FlushRows(rows, s, order).value.rows, i) == Lookup(rows, i)
    {
      NoRivals(rows, s, c, i, ours);
      UnclaimedRow(rows, s, order, i);
    }
  }

  lemma {:induction false} GoneRaises(rows: Table, s: Scope, c: Id, order: seq<Id>)
    requires c !in rows && c in order && s.Baseline(c).Some? && FlushedBy(rows, s, order)
    ensures false
    decreases |order|
  {
    var front, p, id := LastOf(rows, s, order);
    if id == c { NotYet(rows, s, front, c); } else { GoneRaises(rows, s, c, front); }
  }

  lemma PublishKeepsMark(db: Store, s: Scope, p: Progress, now: int, rows: map<Id, Row>, c: Id, mark: Mark)
    requires OneMarked(rows, p.rows, c, mark) && s.deleted == {} && c.kind == ImportCandidates
    ensures OneMarked(rows, FlushedStore(db, s, p, false, now).rows, c, mark)
    ensures Lookup(FlushedStore(db, s, p, false, now).rows, c) == Some(p.rows[c])
  {
    assert p.rows - s.deleted == p.rows;
    forall i: Id | i.kind == ImportCandidates
      ensures Lookup(FlushedStore(db, s, p, false, now).rows, i) == Lookup(p.rows, i)
    {
      PublishKeepsRows(AfterDeletes(db, p.rows, s.deleted), s.events, s.deleted, now, i);
    }
  }

  lemma MarkIsMeanwhile(rows: map<Id, Row>, after: map<Id, Row>, c: Id, mark: Mark, ours: Candidates)
    requires Trusted(rows, ours) && OneMarked(rows, after, c, mark)
    ensures Meanwhile(rows, after, ours)
  {
    forall i | i in ours && i != c
      ensures Lookup(after, i) == Lookup(rows, i)
    {
    }
  }

  lemma MarkedIsBelieved(rows: map<Id, Row>, s: Scope, p: Progress, after: map<Id, Row>, c: Id, ours: Candidates)
    requires Marking(s, rows, c, ours) && OneMarked(rows, after, c, MarkOf(s.loaded[c]))
    requires p.committed.Keys == s.Changed() && Lookup(p.committed, c) == Lookup(after, c)
    ensures forall k | k in s.loaded + p.committed && k in ours :: Believed((s.loaded + p.committed)[k], after, k)
  {
    forall k | k in s.loaded + p.committed && k in ours
      ensures Believed((s.loaded + p.committed)[k], after, k)
    {
      if k != c { assert Lookup(after, k) == Lookup(rows, k); }
    }
  }

  lemma StaysMarking(s: Scope, before: map<Id, Row>, after: map<Id, Row>, c: Id, ours: Candidates)
    requires Marking(s, before, c, ours) && Meanwhile(before, after, ours)
    ensures Marking(s, after, c, ours)
  {
  }

  /** A committed promotion leaves the scope ready for the next candidate. */
  lemma MarkingLeavesReady(db: Store, s: Scope, c: Id, order: seq<Id>, now: int, ours: Candidates)
    requires Marking(s, db.rows, c, ours) && Enumerates(order, s.Changed()) && FlushRows(db.rows, s, order).Some?
    ensures var p := FlushRows(db.rows, s, order).value;
            var after := FlushedStore(db, s, p, false, now).rows;
            && Meanwhile(db.rows, after, ours)
            && Ready(FlushedScope(s, p, false), after, ours)
            && PromotedAs(after, c, MarkOf(s.loaded[c]))
  {
    var p, mark := FlushRows(db.rows, s, order).value, MarkOf(s.loaded[c]);
    var after := FlushedStore(db, s, p, false, now).rows;
    MarkingFlush(db.rows, s, c, order, ours);
    PublishKeepsMark(db, s, p, now, db.rows, c, mark);
    MarkIsMeanwhile(db.rows, after, c, mark, ours);
    CommittedAll(db.rows, s, order);
    FlushIsIdle(s, p);
    MarkedIsBelieved(db.rows, s, p, after, c, ours);
  }

  /** An entity that the flush changes is in the database as the scope pended it. */
  lemma EntityIsStored(db: Store, s: Scope, e: Id, order: seq<Id>, now: int)
    requires FlushedBy(db.rows, s, order) && e in order && e.kind == Entities && s.deleted == {}
    ensures var after := FlushedStore(db, s, FlushRows(db.rows, s, order).value, false, now).rows;
            e in after && SameFor(Entities, after[e], s.loaded[e])
  {
    var p := FlushRows(db.rows, s, order).value;
    var written := AfterDeletes(db, p.rows, s.deleted);
    FlushStoresEach(db.rows, s, order, e);
    StoredWhole(Entities, Lookup(db.rows, e), s.loaded[e]);
    assert written.rows == p.rows;
    PublishStamps(written, s.events, s.deleted, now);
    SameForBoth(p.rows[e], PublishAll(written, s.events, s.deleted, now).rows[e], s.loaded[e]);
  }

  lemma SameForBoth(row: Row, first: Row, second: Row)
    requires SameFor(Entities, row, first) && SameFor(Entities, row, second)
    ensures SameFor(Entities, first, second)
  {
    forall f | f != Version
      ensures Get(first, f) == Get(second, f)
    {
      assert Get(row, f) == Get(first, f);
    }
  }

  /** What setting an entity does to a scope without deletes, row by row. */
  lemma SetEntityFacts(rows: map<Id, Row>, s: Scope, e: Id, entity: Row)
    requires s.Valid() && s.deleted == {}
    ensures var t := AfterSet(rows, s, e, entity);
            && t.Valid() && t.loaded == s.loaded[e := entity] && t.deleted == {}
            && t.Baseline(e) == (if e in s.loaded then s.Baseline(e) else Lookup(rows, e))
            && forall k | k != e :: t.Baseline(k) == s.Baseline(k)
  {
    SetRefines(rows, s, e, entity);
  }

  lemma BecomesMarking(rows: map<Id, Row>, s: Scope, c: Id, mine: Row, e: Id, entity: Row, t: Scope, ours: Candidates)
    requires Ready(s, rows, ours) && c in s.loaded && c in ours && e.kind == Entities
    requires Promoting(s.loaded[c], mine) && SamePlace(s.loaded[c], mine)
    requires t.Valid() && t.deleted == {} && t.loaded == s.loaded[e := entity][c := mine]
    requires forall k | k != e :: t.Baseline(k) == s.Baseline(k)
    ensures Marking(t, rows, c, ours) && OnlyThese(t, c, e)
  {
    assert c !in s.Changed();
    assert s.Baseline(c) == Some(s.loaded[c]);
    assert s.loaded[c] != mine by { assert Get(s.loaded[c], ValidationStatus) != Get(mine, ValidationStatus); }
    forall k | k in t.loaded && k != c && k != e
      ensures k in s.loaded && t.loaded[k] == s.loaded[k] && k !in t.Changed()
    {
      assert k !in s.Changed();
    }
  }

  lemma ReadyRollsBack(s: Scope, rows: map<Id, Row>, ours: Candidates)
    requires Ready(s, rows, ours)
    ensures Ready(RolledBack(s), rows, ours)
  {
    RollbackLeavesNothing(s);
    forall id | id in s.loaded
      ensures s.Baseline(id) == Some(s.loaded[id])
    {
      assert id !in s.Changed();
    }
  }

  lemma MarkingRollsBack(s: Scope, rows: map<Id, Row>, c: Id, ours: Candidates)
    requires Marking(s, rows, c, ours)
    ensures Ready(RolledBack(s), rows, ours)
  {
    RollbackLeavesNothing(s);
    var t := RolledBack(s);
    forall k | k in t.loaded && k in ours
      ensures Believed(t.loaded[k], rows, k)
    {
      if k != c { assert k !in s.Changed() && t.loaded[k] == s.loaded[k]; }
    }
  }

  // ---- The job ----

  /** Where an entry of the list lands. A failure other than a value or constraint error aborts the job. */
  datatype Landing = Created(entity: Value) | Updated(entity: Value) | Failed(message: string) | Abort
  {
    predicate Promoted() { Created? || Updated? }
  }

  function Reported(existed: bool, entity: Value): Landing { if existed then Updated(entity) else Created(entity) }

  /** The queue that the job serves, the status it promotes to, and what the checks of a planned entity find. */
  datatype Job = Job(queue: Value, target: Value, flaw: Row -> Option<string>)

  const Website := Other("website")
  const Description := Other("description")

  /** The planned entity, with the fields that administrators curate taken from the existing one. */
  function Curated(planned: Row, existing: Option<Row>, job: Job): Row {
    var entity := planned[Status := job.target];
    match existing
    case None => entity
    case Some(before) => entity[Website := Get(before, Website)][Description := Get(before, Description)]
  }

  function Marked(candidate: Row, job: Job, entity: Value, payload: Value, now: int): Row {
    candidate[EntityPayload := payload][ValidationStatus := State(PROCESSED)][TargetStatus := job.target]
             [ProcessedEntityId := entity][ProcessedAt := Number(now)]
  }

  /** The planned entity, named in the payload. */
  function PlannedKey(candidate: Row): string {
    if Get(candidate, EntityPayload).Text? then Get(candidate, EntityPayload).s else ""
  }

  function Planned(candidate: Row): Id { Id(Entities, PlannedKey(candidate)) }

  predicate Protected(existing: Option<Row>, job: Job) {
    existing.Some? && Get(existing.value, Status) == State(APPROVED) && job.target != State(RETIRED)
  }

  // ---- What an entry saw and tried ----

  /** A row as the scope found it, and what the database held then. */
  datatype Glimpse = Glimpse(rows: map<Id, Row>, row: Option<Row>)

  /** The candidate found, the planned entity at the first and at the second look, what the database held when
      the entity was assigned, and the flushes. */
  datatype Entry = Entry(found: Glimpse, was: Glimpse, existing: Glimpse, put: map<Id, Row>, tries: seq<Try>)

  const Blank := Glimpse(map[], None)

  predicate Commits(t: Try) {
    (forall id | id in t.order :: id in t.scope.loaded) && FlushRows(t.store.rows, t.scope, t.order).Some?
  }

  function Result(t: Try): map<Id, Row> {
    if Commits(t) then FlushedStore(t.store, t.scope, FlushRows(t.store.rows, t.scope, t.order).value, false, t.now).rows
    else t.store.rows
  }

  predicate OnlyThese(s: Scope, c: Id, e: Id) {
    forall k | k in s.Changed() && (k.kind == ImportCandidates || k.kind == Entities) :: k == c || k == e
  }

  /** The pending promotion: the candidate found, marked, and its entity over what was looked up or, when
      that found nothing, over what the assignment read. */
  ghost predicate Pends(s: Scope, c: Id, candidate: Row, existing: Option<Row>, put: map<Id, Row>, job: Job) {
    var e := Planned(candidate);
    && c in s.loaded && s.Baseline(c) == Some(candidate) && Promoting(candidate, s.loaded[c])
    && MarkOf(s.loaded[c]).entity == Text(e.key) && Get(s.loaded[c], TargetStatus) == job.target
    && e in s.loaded && (exists planned :: s.loaded[e] == Curated(planned, existing, job))
    && s.Baseline(e) == (if existing.Some? then existing else Lookup(put, e))
    && OnlyThese(s, c, e)
  }

  /** A flush of the pending promotion, and what it leaves when it commits. */
  ghost predicate Attempts(t: Try, c: Id, candidate: Row, existing: Option<Row>, put: map<Id, Row>, job: Job) {
    var e := Planned(candidate);
    && Pends(t.scope, c, candidate, existing, put, job) && Enumerates(t.order, t.scope.Changed()) && t.scope.deleted == {}
    && (Commits(t) ==>
          && PromotedAs(Result(t), c, MarkOf(t.scope.loaded[c]))
          && (e in t.scope.Changed() ==> e in Result(t) && SameFor(Entities, Result(t)[e], t.scope.loaded[e])))
  }

  /** A confirmed candidate that no other job has taken. */
  predicate Open(candidate: Row, job: Job) {
    Get(candidate, ValidationStatus) == State(CONFIRMED)
    && (Get(candidate, ProcessingQueueId) == Null || Get(candidate, ProcessingQueueId) == job.queue)
  }

  /** One after another, what the entry saw was in its scope or in the database. */
  ghost predicate Saw(entry: Entry, s: Scope, before: map<Id, Row>, c: Id, job: Job, ours: Candidates) {
    && Meanwhile(before, entry.found.rows, ours)
    && entry.found.row == Lookup(View(entry.found.rows, s), c)
    && (entry.found.row.Some? && Open(entry.found.row.value, job) ==> SawEntity(entry, s, Planned(entry.found.row.value), ours))
  }

  ghost predicate SawEntity(entry: Entry, s: Scope, e: Id, ours: Candidates) {
    && Meanwhile(entry.found.rows, entry.was.rows, ours)
    && entry.was.row == Lookup(View(entry.was.rows, s), e)
    && Meanwhile(entry.was.rows, entry.existing.rows, ours)
    && entry.existing.row == (if entry.was.row.Some? then entry.was.row else Lookup(entry.existing.rows, e))
    && (entry.tries != [] ==> Meanwhile(entry.existing.rows, entry.put, ours)
                              && Meanwhile(entry.put, entry.tries[0].store.rows, ours))
  }

  ghost predicate DecidesConfirmed(entry: Entry, landing: Landing, c: Id, candidate: Row, job: Job) {
    && |entry.tries| <= 1
    && (entry.tries != [] ==> Attempts(entry.tries[0], c, candidate, entry.existing.row, entry.put, job))
    && if Protected(entry.existing.row, job) then
         entry.tries == [] && landing == Failed("an approved entity cannot be changed by import processing")
       else if job.flaw(candidate).Some? then
         entry.tries == [] && landing == Failed(job.flaw(candidate).value)
       else if entry.tries == [] then landing == Abort
       else if Commits(entry.tries[0]) then
         landing == Abort || landing == Reported(entry.was.row.Some?, Text(PlannedKey(candidate)))
       else landing == Failed("the record conflicts with a newer change")
  }

  /** A candidate that is missing, processed, unconfirmed or taken by another job decides by itself. */
  function Outright(found: Option<Row>, job: Job): Option<Landing> {
    match found
    case None => Some(Failed("pre-processed candidate no longer exists"))
    case Some(candidate) =>
      if Processed(candidate) then
        Some(Reported(Get(candidate, ExistingEntityId) != Null, Get(candidate, ProcessedEntityId)))
      else if Get(candidate, ValidationStatus) != State(CONFIRMED) then Some(Failed("only confirmed records can be promoted"))
      else if !Open(candidate, job) then Some(Failed("record belongs to another promotion job"))
      else None
  }

  /** The candidate found, the entity looked up and the outcome of the flush decide where an entry lands. */
  ghost predicate Decides(entry: Entry, landing: Landing, c: Id, job: Job) {
    match Outright(entry.found.row, job)
    case Some(outright) => entry.tries == [] && landing == outright
    case None => DecidesConfirmed(entry, landing, c, entry.found.row.value, job)
  }

  /** The candidate is processed into this entity. */
  predicate PromotedInto(rows: map<Id, Row>, c: Id, entity: Value) {
    c in rows && Processed(rows[c]) && MarkOf(rows[c]).entity == entity
  }

  /** Processed into the entity, or deleted since. */
  predicate StillInto(rows: map<Id, Row>, c: Id, entity: Value) {
    c in rows ==> PromotedInto(rows, c, entity)
  }

  /** A failed entry committed nothing. */
  lemma FailureCommitsNothing(entry: Entry, landing: Landing, c: Id, job: Job)
    requires Decides(entry, landing, c, job) && landing.Failed?
    ensures forall t | t in entry.tries :: !Commits(t)
  {
  }

  /** A promoted entry committed its mark, unless it was found with one. */
  lemma PromotionCommits(entry: Entry, landing: Landing, c: Id, job: Job)
    requires Decides(entry, landing, c, job) && landing.Promoted()
    ensures entry.found.row.Some?
    ensures Processed(entry.found.row.value)
            || (|entry.tries| == 1 && Commits(entry.tries[0]) && PromotedInto(Result(entry.tries[0]), c, landing.entity))
  {
  }

  // ---- Steps of an entry ----

  /** The database and the job's scope at one moment. */
  datatype Moment = Moment(rows: map<Id, Row>, scope: Scope, log: seq<Try>)

  ghost function Now(repo: Repository): Moment
    reads repo, repo.database
  {
    Moment(repo.database.store.rows, repo.Pending(), repo.log)
  }

  ghost predicate Settled(m: Moment, ours: Candidates) { Ready(m.scope, m.rows, ours) }

  /** Other processes between two statements of the job: whatever they do, this is all that is relied on. */
  method Others(database: Database, ghost ours: Candidates)
    requires Trusted(database.store.rows, ours)
    modifies database
    ensures Meanwhile(old(database.store.rows), database.store.rows, ours)
  {
  }

  /** A look at a row while nothing is pending, after others were at work. */
  method Find(repo: Repository, id: Id, ghost ours: Candidates) returns (row: Option<Row>, ghost seen: map<Id, Row>)
    requires Ready(repo.Pending(), repo.database.store.rows, ours)
    modifies repo, repo.database
    ensures repo.log == old(repo.log) && seen == repo.database.store.rows
    ensures Meanwhile(old(repo.database.store.rows), seen, ours) && Ready(repo.Pending(), seen, ours)
    ensures row == Lookup(repo.loaded, id) == Lookup(View(seen, old(repo.Pending())), id)
    ensures repo.Pending() == AfterLoad(seen, old(repo.Pending()), id)
  {
    Others(repo.database, ours);
    seen := repo.database.store.rows;
    StaysReady(repo.Pending(), old(repo.database.store.rows), seen, ours);
    LoadStaysReady(repo.Pending(), seen, id, ours);
    row := repo.Load(id);
  }

  lemma MarkedIsPromoting(candidate: Row, job: Job, entity: Value, payload: Value, now: int)
    requires Get(candidate, ValidationStatus) == State(CONFIRMED) && entity != Null
    ensures var mine := Marked(candidate, job, entity, payload, now);
            Promoting(candidate, mine) && SamePlace(candidate, mine) && MarkOf(mine) == Mark(Number(now), entity)
            && Get(mine, TargetStatus) == job.target
  {
  }

  /** Edits entity and candidate in the scope. */
  method Assign(repo: Repository, c: Id, candidate: Row, existing: Option<Row>, job: Job, now: int, ghost ours: Candidates)
    requires Ready(repo.Pending(), repo.database.store.rows, ours) && c in ours
    requires Lookup(repo.loaded, c) == Some(candidate) && Get(candidate, ValidationStatus) == State(CONFIRMED)
    requires Lookup(repo.loaded, Planned(candidate)) == existing
    modifies repo
    ensures repo.log == old(repo.log) && Marking(repo.Pending(), repo.database.store.rows, c, ours)
    ensures Pends(repo.Pending(), c, candidate, existing, repo.database.store.rows, job)
  {
    var planned: Row, payload: Value, emitted: seq<Event> := *, *, *;
    var e := Planned(candidate);
    var entity, mine := Curated(planned, existing, job), Marked(candidate, job, Text(e.key), payload, now);
    ghost var rows, clean := repo.database.store.rows, repo.Pending();
    MarkedIsPromoting(candidate, job, Text(e.key), payload, now);
    EditBoth(repo, c, mine, e, entity, emitted);
    BecomesMarking(rows, clean, c, mine, e, entity, repo.Pending(), ours);
    BecomesPending(rows, clean, repo.Pending(), c, candidate, mine, existing, planned, job);
  }

  method EditBoth(repo: Repository, c: Id, mine: Row, e: Id, entity: Row, emitted: seq<Event>)
    requires repo.Pending().Valid() && repo.deleted == {} && c in repo.loaded && c != e
    modifies repo
    ensures repo.log == old(repo.log) && repo.Pending().Valid() && repo.deleted == {}
    ensures repo.loaded == old(repo.loaded)[e := entity][c := mine]
    ensures repo.Pending().Baseline(e)
            == if e in old(repo.loaded) then old(repo.Pending()).Baseline(e) else Lookup(repo.database.store.rows, e)
    ensures forall k | k != e :: repo.Pending().Baseline(k) == old(repo.Pending()).Baseline(k)
  {
    SetEntityFacts(repo.database.store.rows, repo.Pending(), e, entity);
    repo.SetItem(e, entity);
    repo.EditItem(c, mine);
    repo.Emit(emitted);
  }

  lemma BecomesPending(rows: map<Id, Row>, s: Scope, t: Scope, c: Id, candidate: Row, mine: Row, existing: Option<Row>, planned: Row, job: Job)
    requires s.Valid() && s.Idle() && c.kind == ImportCandidates && Lookup(s.loaded, c) == Some(candidate)
    requires Promoting(candidate, mine) && MarkOf(mine).entity == Text(PlannedKey(candidate)) && Get(mine, TargetStatus) == job.target
    requires var e := Planned(candidate);
             && Lookup(s.loaded, e) == existing && t.loaded == s.loaded[e := Curated(planned, existing, job)][c := mine]
             && t.Baseline(e) == (if e in s.loaded then s.Baseline(e) else Lookup(rows, e))
             && (forall k | k != e :: t.Baseline(k) == s.Baseline(k)) && OnlyThese(t, c, e)
    ensures Pends(t, c, candidate, existing, rows, job)
  {
    IdleBaselines(s);
  }

  lemma IdleBaselines(s: Scope)
    requires s.Valid() && s.Idle()
    ensures forall k | k in s.loaded :: s.Baseline(k) == Some(s.loaded[k])
  {
    forall k | k in s.loaded
      ensures s.Baseline(k) == Some(s.loaded[k])
    {
      assert k !in s.Changed();
    }
  }

  /** Reading an entity adds at most that entity, unchanged. */
  lemma LoadAdds(rows: map<Id, Row>, s: Scope, id: Id)
    requires s.Valid()
    ensures var t := AfterLoad(rows, s, id);
            && t.Valid() && t.Changed() == s.Changed() && t.deleted == s.deleted
            && (forall k | k in s.loaded :: k in t.loaded && t.loaded[k] == s.loaded[k] && t.Baseline(k) == s.Baseline(k))
            && forall k | k in t.loaded && k !in s.loaded :: k == id
  {
    LoadRefines(rows, s, id);
  }

  lemma BrowsingKeepsMarking(rows: map<Id, Row>, s: Scope, id: Id, c: Id, ours: Candidates)
    requires Marking(s, rows, c, ours) && id.kind == Entities
    ensures Marking(AfterLoad(rows, s, id), rows, c, ours)
  {
    LoadAdds(rows, s, id);
    var t := AfterLoad(rows, s, id);
    assert c in t.loaded && t.loaded[c] == s.loaded[c] && t.Baseline(c) == s.Baseline(c);
    forall k | k in t.loaded && k in ours && k != c
      ensures Believed(t.loaded[k], rows, k)
    {
      assert k in s.loaded;
    }
  }

  lemma BrowsingKeepsPending(rows: map<Id, Row>, s: Scope, id: Id, c: Id, candidate: Row, existing: Option<Row>, put: map<Id, Row>, job: Job)
    requires s.Valid() && Pends(s, c, candidate, existing, put, job)
    ensures Pends(AfterLoad(rows, s, id), c, candidate, existing, put, job)
  {
    LoadAdds(rows, s, id);
    var t, e := AfterLoad(rows, s, id), Planned(candidate);
    assert c in t.loaded && t.loaded[c] == s.loaded[c] && t.Baseline(c) == s.Baseline(c);
    assert e in t.loaded && t.loaded[e] == s.loaded[e] && t.Baseline(e) == s.Baseline(e);
  }

  /** Others at work while the mark is pending. */
  method OthersBeforeCommit(repo: Repository, c: Id, ghost ours: Candidates)
    requires Marking(repo.Pending(), repo.database.store.rows, c, ours)
    modifies repo.database
    ensures Marking(repo.Pending(), repo.database.store.rows, c, ours)
    ensures Meanwhile(old(repo.database.store.rows), repo.database.store.rows, ours)
  {
    Others(repo.database, ours);
    StaysMarking(repo.Pending(), old(repo.database.store.rows), repo.database.store.rows, c, ours);
  }

  method LoadOther(repo: Repository, id: Id, c: Id, ghost candidate: Row, ghost existing: Option<Row>, ghost put: map<Id, Row>,
                   ghost job: Job, ghost ours: Candidates)
    requires Marking(repo.Pending(), repo.database.store.rows, c, ours) && id.kind == Entities
    requires Pends(repo.Pending(), c, candidate, existing, put, job)
    modifies repo, repo.database
    ensures repo.log == old(repo.log) && Meanwhile(old(repo.database.store.rows), repo.database.store.rows, ours)
    ensures Marking(repo.Pending(), repo.database.store.rows, c, ours)
    ensures Pends(repo.Pending(), c, candidate, existing, put, job)
  {
    OthersBeforeCommit(repo, c, ours);
    BrowsingKeepsMarking(repo.database.store.rows, repo.Pending(), id, c, ours);
    BrowsingKeepsPending(repo.database.store.rows, repo.Pending(), id, c, candidate, existing, put, job);
    var entity := repo.Load(id);
  }

  /** The comparison with every other entity loads them all into the scope, while others are at work. */
  method Browse(repo: Repository, c: Id, ghost candidate: Row, ghost existing: Option<Row>, ghost put: map<Id, Row>,
                ghost job: Job, ghost ours: Candidates)
    requires Marking(repo.Pending(), repo.database.store.rows, c, ours)
    requires Pends(repo.Pending(), c, candidate, existing, put, job)
    modifies repo, repo.database
    ensures repo.log == old(repo.log) && Meanwhile(old(repo.database.store.rows), repo.database.store.rows, ours)
    ensures Marking(repo.Pending(), repo.database.store.rows, c, ours)
    ensures Pends(repo.Pending(), c, candidate, existing, put, job)
  {
    MarkingIsMeanwhile(repo.Pending(), repo.database.store.rows, c, ours);
    var ids := repo.Keys(Entities);
    while ids != {}
      invariant forall id | id in ids :: id.kind == Entities
      invariant repo.log == old(repo.log) && Meanwhile(old(repo.database.store.rows), repo.database.store.rows, ours)
      invariant Marking(repo.Pending(), repo.database.store.rows, c, ours)
      invariant Pends(repo.Pending(), c, candidate, existing, put, job)
    {
      var id :| id in ids;
      ids := ids - {id};
      ghost var last := repo.database.store.rows;
      LoadOther(repo, id, c, candidate, existing, put, job, ours);
      MeanwhileTwice(old(repo.database.store.rows), last, repo.database.store.rows, ours);
    }
    ghost var last := repo.database.store.rows;
    OthersBeforeCommit(repo, c, ours);
    MeanwhileTwice(old(repo.database.store.rows), last, repo.database.store.rows, ours);
  }

  lemma MarkingIsMeanwhile(s: Scope, rows: map<Id, Row>, c: Id, ours: Candidates)
    requires Marking(s, rows, c, ours)
    ensures Meanwhile(rows, rows, ours)
  {
  }

  /** Flushes entity and mark together. */
  method Commit(repo: Repository, c: Id, ghost candidate: Row, ghost existing: Option<Row>, ghost put: map<Id, Row>,
                ghost job: Job, now: int, ghost ours: Candidates) returns (committed: bool, ghost attempt: Try)
    requires Marking(repo.Pending(), repo.database.store.rows, c, ours)
    requires Pends(repo.Pending(), c, candidate, existing, put, job)
    modifies repo, repo.database
    ensures repo.log == old(repo.log) + [attempt] && attempt.store == old(repo.database.store)
    ensures committed == Commits(attempt) && repo.database.store.rows == Result(attempt)
    ensures Attempts(attempt, c, candidate, existing, put, job)
    ensures Meanwhile(old(repo.database.store.rows), repo.database.store.rows, ours)
    ensures if committed then Settled(Now(repo), ours) else Ready(RolledBack(Now(repo).scope), Now(repo).rows, ours)
  {
    ghost var store, pending := repo.database.store, repo.Pending();
    var raised, order := repo.Flush(false, now);
    attempt := Try(store, pending, order, now);
    committed := !raised;
    if raised {
      MarkingIsMeanwhile(pending, store.rows, c, ours);
      MarkingRollsBack(pending, store.rows, c, ours);
    } else {
      MarkingLeavesReady(store, pending, c, order, now, ours);
      if Planned(candidate) in order { EntityIsStored(store, pending, Planned(candidate), order, now); }
    }
  }

  /** Others at work while nothing is pending. */
  method OthersBetween(repo: Repository, ghost ours: Candidates)
    requires Ready(repo.Pending(), repo.database.store.rows, ours)
    modifies repo.database
    ensures Meanwhile(old(repo.database.store.rows), repo.database.store.rows, ours)
    ensures Ready(repo.Pending(), repo.database.store.rows, ours)
  {
    Others(repo.database, ours);
    StaysReady(repo.Pending(), old(repo.database.store.rows), repo.database.store.rows, ours);
  }

  ghost predicate Settles(landing: Landing, m: Moment, ours: Candidates) {
    (landing.Promoted() ==> Settled(m, ours)) && (landing.Failed? ==> Ready(RolledBack(m.scope), m.rows, ours))
  }

  ghost predicate Advances(before: Moment, after: Moment, tries: seq<Try>, ours: Candidates) {
    && after.log == before.log + tries && Meanwhile(before.rows, after.rows, ours)
    && (tries != [] ==> after.rows == Result(tries[0]))
  }

  /** The flush of an entry, if the process lives that long, and where the entry lands. */
  ghost predicate Flushed(before: Moment, put: map<Id, Row>, tries: seq<Try>, landing: Landing, c: Id, candidate: Row,
                          existing: Option<Row>, existed: bool, job: Job, ours: Candidates) {
    && |tries| <= 1
    && (tries != [] ==> && Meanwhile(before.rows, put, ours) && Meanwhile(put, tries[0].store.rows, ours)
                        && Attempts(tries[0], c, candidate, existing, put, job))
    && if tries == [] then landing == Abort
       else if Commits(tries[0]) then landing == Abort || landing == Reported(existed, Text(PlannedKey(candidate)))
       else landing == Failed("the record conflicts with a newer change")
  }

  /** Edits entity and candidate and compares the entity with all others, before the flush. */
  method Prepare(repo: Repository, c: Id, candidate: Row, existing: Option<Row>, job: Job, now: int, ghost ours: Candidates)
    returns (ghost put: map<Id, Row>)
    requires Settled(Now(repo), ours) && c in ours
    requires Lookup(repo.loaded, c) == Some(candidate) && Get(candidate, ValidationStatus) == State(CONFIRMED)
    requires Lookup(repo.loaded, Planned(candidate)) == existing
    modifies repo, repo.database
    ensures repo.log == old(repo.log)
    ensures Meanwhile(old(repo.database.store.rows), put, ours) && Meanwhile(put, repo.database.store.rows, ours)
    ensures Marking(repo.Pending(), repo.database.store.rows, c, ours) && Pends(repo.Pending(), c, candidate, existing, put, job)
  {
    OthersBetween(repo, ours);
    put := repo.database.store.rows;
    Assign(repo, c, candidate, existing, job, now, ours);
    Browse(repo, c, candidate, existing, put, job, ours);
  }

  lemma FlushedOnce(before: Moment, put: map<Id, Row>, attempt: Try, landing: Landing, c: Id, candidate: Row, existing: Option<Row>,
                    existed: bool, job: Job, ours: Candidates)
    requires Meanwhile(before.rows, put, ours) && Meanwhile(put, attempt.store.rows, ours)
    requires Attempts(attempt, c, candidate, existing, put, job)
    requires if Commits(attempt) then landing == Abort || landing == Reported(existed, Text(PlannedKey(candidate)))
             else landing == Failed("the record conflicts with a newer change")
    ensures Flushed(before, put, [attempt], landing, c, candidate, existing, existed, job, ours)
  {
  }

  lemma CommitSettles(m: Moment, committed: bool, landing: Landing, ours: Candidates)
    requires if committed then Settled(m, ours) else Ready(RolledBack(m.scope), m.rows, ours)
    requires if committed then !landing.Failed? else !landing.Promoted()
    ensures Settles(landing, m, ours)
  {
  }

  /** The flush, unless the process fails before or after it. */
  method TryCommit(repo: Repository, c: Id, ghost candidate: Row, ghost existing: Option<Row>, ghost put: map<Id, Row>, existed: bool,
                   entity: Value, ghost job: Job, now: int, ghost ours: Candidates, ghost before: Moment)
    returns (landing: Landing, ghost tries: seq<Try>)
    requires Marking(repo.Pending(), repo.database.store.rows, c, ours) && Pends(repo.Pending(), c, candidate, existing, put, job)
    requires repo.log == before.log && entity == Text(PlannedKey(candidate))
    requires Meanwhile(before.rows, put, ours) && Meanwhile(put, repo.database.store.rows, ours)
    modifies repo, repo.database
    ensures Flushed(before, put, tries, landing, c, candidate, existing, existed, job, ours)
    ensures Advances(before, Now(repo), tries, ours) && Settles(landing, Now(repo), ours)
  {
    ghost var mid := repo.database.store.rows;
    MeanwhileTwice(before.rows, put, mid, ours);
    var crash: bool, late: bool := *, *;
    if crash {
      landing, tries := Abort, [];
      assert before.log + [] == before.log;
    } else {
      var committed;
      ghost var attempt;
      committed, attempt := Commit(repo, c, candidate, existing, put, job, now, ours);
      MeanwhileTwice(before.rows, mid, Now(repo).rows, ours);
      landing := if !committed then Failed("the record conflicts with a newer change") else if late then Abort else Reported(existed, entity);
      tries := [attempt];
      FlushedOnce(before, put, attempt, landing, c, candidate, existing, existed, job, ours);
      CommitSettles(Now(repo), committed, landing, ours);
    }
  }

  /** Edits and flushes. */
  method Promote(repo: Repository, c: Id, candidate: Row, existing: Option<Row>, existed: bool, job: Job, now: int, ghost ours: Candidates)
    returns (landing: Landing, ghost put: map<Id, Row>, ghost tries: seq<Try>)
    requires Settled(Now(repo), ours) && c in ours
    requires Lookup(repo.loaded, c) == Some(candidate) && Get(candidate, ValidationStatus) == State(CONFIRMED)
    requires Lookup(repo.loaded, Planned(candidate)) == existing
    modifies repo, repo.database
    ensures Flushed(old(Now(repo)), put, tries, landing, c, candidate, existing, existed, job, ours)
    ensures Advances(old(Now(repo)), Now(repo), tries, ours) && Settles(landing, Now(repo), ours)
  {
    ghost var before := Now(repo);
    put := Prepare(repo, c, candidate, existing, job, now, ours);
    landing, tries := TryCommit(repo, c, candidate, existing, put, existed, Text(PlannedKey(candidate)), job, now, ours, before);
  }

  /** The two looks at the planned entity. */
  ghost predicate Looked(before: Moment, after: Moment, e: Id, was: Glimpse, seen: Glimpse, ours: Candidates) {
    && after.log == before.log && after.rows == seen.rows && Settled(after, ours)
    && Meanwhile(before.rows, was.rows, ours) && Meanwhile(was.rows, seen.rows, ours)
    && was.row == Lookup(View(was.rows, before.scope), e)
    && seen.row == if was.row.Some? then was.row else Lookup(seen.rows, e)
  }

  method LookTwice(repo: Repository, c: Id, e: Id, ghost candidate: Row, ghost ours: Candidates)
    returns (existed: bool, existing: Option<Row>, ghost was: Glimpse, ghost seen: Glimpse)
    requires Settled(Now(repo), ours) && Lookup(repo.loaded, c) == Some(candidate)
    modifies repo, repo.database
    ensures Lookup(repo.loaded, c) == Some(candidate) && Lookup(repo.loaded, e) == existing
    ensures Looked(old(Now(repo)), Now(repo), e, was, seen, ours) && existed == was.row.Some? && existing == seen.row
  {
    var first, found;
    ghost var rows;
    LoadsKeep(repo.Pending());
    first, rows := Find(repo, e, ours);
    was, existed := Glimpse(rows, first), first.Some?;
    found, rows := Find(repo, e, ours);
    existing, seen := found, Glimpse(rows, found);
  }

  lemma LoadsKeep(s: Scope)
    ensures forall rows: map<Id, Row>, id, k | k in s.loaded :: Lookup(AfterLoad(rows, s, id).loaded, k) == Lookup(s.loaded, k)
  {
  }

  /** What became of an open candidate. */
  ghost predicate Handled(before: Moment, after: Moment, entry: Entry, landing: Landing, c: Id, candidate: Row, job: Job, ours: Candidates) {
    && SawEntity(entry, before.scope, Planned(candidate), ours) && DecidesConfirmed(entry, landing, c, candidate, job)
    && Advances(before, after, entry.tries, ours) && Settles(landing, after, ours)
  }

  lemma Refusal(before: Moment, after: Moment, found: Glimpse, was: Glimpse, seen: Glimpse, landing: Landing, c: Id, candidate: Row,
                job: Job, ours: Candidates)
    requires found == Glimpse(before.rows, Some(candidate)) && Looked(before, after, Planned(candidate), was, seen, ours)
    requires Protected(seen.row, job) || job.flaw(candidate).Some?
    requires landing == if Protected(seen.row, job) then Failed("an approved entity cannot be changed by import processing")
                        else Failed(job.flaw(candidate).value)
    ensures Handled(before, after, Entry(found, was, seen, seen.rows, []), landing, c, candidate, job, ours)
  {
    MeanwhileTwice(before.rows, was.rows, seen.rows, ours);
    ReadyRollsBack(after.scope, after.rows, ours);
    assert before.log + [] == before.log;
  }

  lemma Attempted(before: Moment, mid: Moment, after: Moment, found: Glimpse, was: Glimpse, seen: Glimpse, put: map<Id, Row>, tries: seq<Try>,
                landing: Landing, c: Id, candidate: Row, job: Job, ours: Candidates)
    requires found == Glimpse(before.rows, Some(candidate)) && Looked(before, mid, Planned(candidate), was, seen, ours)
    requires !Protected(seen.row, job) && job.flaw(candidate).None?
    requires Flushed(mid, put, tries, landing, c, candidate, seen.row, was.row.Some?, job, ours)
    requires Advances(mid, after, tries, ours) && Settles(landing, after, ours)
    ensures Handled(before, after, Entry(found, was, seen, put, tries), landing, c, candidate, job, ours)
  {
    MeanwhileTwice(before.rows, was.rows, seen.rows, ours);
    MeanwhileTwice(before.rows, seen.rows, after.rows, ours);
  }

  /** Materializes an open candidate: an approved entity protects itself, a flawed one is refused, and otherwise
      entity and mark are flushed together. */
  method Materialize(repo: Repository, c: Id, candidate: Row, job: Job, now: int, ghost found: Glimpse, ghost ours: Candidates)
    returns (landing: Landing, ghost entry: Entry)
    requires Settled(Now(repo), ours) && c in ours
    requires Lookup(repo.loaded, c) == Some(candidate) && Open(candidate, job)
    requires found == Glimpse(repo.database.store.rows, Some(candidate))
    modifies repo, repo.database
    ensures entry.found == found && Handled(old(Now(repo)), Now(repo), entry, landing, c, candidate, job, ours)
  {
    ghost var before := Now(repo);
    var existed, existing, was, seen := LookTwice(repo, c, Planned(candidate), candidate, ours);
    ghost var mid := Now(repo);
    if Protected(existing, job) || job.flaw(candidate).Some? {
      landing := if Protected(existing, job) then Failed("an approved entity cannot be changed by import processing")
                 else Failed(job.flaw(candidate).value);
      entry := Entry(found, was, seen, seen.rows, []);
      Refusal(before, mid, found, was, seen, landing, c, candidate, job, ours);
    } else {
      ghost var put, tries;
      landing, put, tries := Promote(repo, c, candidate, existing, existed, job, now, ours);
      entry := Entry(found, was, seen, put, tries);
      Attempted(before, mid, Now(repo), found, was, seen, put, tries, landing, c, candidate, job, ours);
    }
  }

  /** What became of an entry. */
  ghost predicate Worked(before: Moment, after: Moment, entry: Entry, landing: Landing, c: Id, job: Job, ours: Candidates) {
    && Saw(entry, before.scope, before.rows, c, job, ours) && Decides(entry, landing, c, job)
    && Advances(before, after, entry.tries, ours)
    && (landing.Promoted() ==> StillInto(after.rows, c, landing.entity))
  }

  lemma DecidedOutright(before: Moment, after: Moment, found: Option<Row>, landing: Landing, c: Id, job: Job, ours: Candidates)
    requires Outright(found, job) == Some(landing) && found == Lookup(View(after.rows, before.scope), c) && c in ours
    requires after.log == before.log && Meanwhile(before.rows, after.rows, ours)
    requires found.Some? ==> Believed(found.value, after.rows, c)
    ensures Worked(before, after, Entry(Glimpse(after.rows, found), Blank, Blank, after.rows, []), landing, c, job, ours)
  {
    assert before.log + [] == before.log;
  }

  lemma CleanSettles(m: Moment, landing: Landing, ours: Candidates)
    requires Settled(m, ours)
    ensures Settles(landing, m, ours)
  {
    ReadyRollsBack(m.scope, m.rows, ours);
  }

  lemma DecidedByHandling(before: Moment, mid: Moment, after: Moment, entry: Entry, landing: Landing, c: Id, candidate: Row, job: Job,
                          ours: Candidates)
    requires c in ours && Open(candidate, job) && entry.found == Glimpse(mid.rows, Some(candidate))
    requires Some(candidate) == Lookup(View(mid.rows, before.scope), c)
    requires mid.log == before.log && mid.scope == AfterLoad(mid.rows, before.scope, c) && Meanwhile(before.rows, mid.rows, ours)
    requires Handled(mid, after, entry, landing, c, candidate, job, ours)
    ensures Worked(before, after, entry, landing, c, job, ours)
  {
    assert c != Planned(candidate);
    SameGlimpse(before.scope, mid.scope, mid.rows, c, entry, Planned(candidate), ours);
    MeanwhileTwice(before.rows, mid.rows, after.rows, ours);
    assert Decides(entry, landing, c, job);
    if landing.Promoted() { PromotionCommits(entry, landing, c, job); }
  }

  /** Looking at the candidate first does not change what is seen of its entity. */
  lemma SameGlimpse(s: Scope, t: Scope, rows: map<Id, Row>, c: Id, entry: Entry, e: Id, ours: Candidates)
    requires t == AfterLoad(rows, s, c) && c != e && SawEntity(entry, t, e, ours)
    ensures SawEntity(entry, s, e, ours)
  {
    assert Lookup(View(entry.was.rows, t), e) == Lookup(View(entry.was.rows, s), e);
  }

  /** One entry of the list, up to the handling of its failure. */
  method Work(repo: Repository, c: Id, job: Job, now: int, ghost ours: Candidates) returns (landing: Landing, ghost entry: Entry)
    requires c in ours && Settled(Now(repo), ours)
    modifies repo, repo.database
    ensures Worked(old(Now(repo)), Now(repo), entry, landing, c, job, ours) && Settles(landing, Now(repo), ours)
  {
    ghost var before := Now(repo);
    var found, seen := Find(repo, c, ours);
    ghost var mid := Now(repo);
    if found == None {
      landing := Failed("pre-processed candidate no longer exists");
    } else if Get(found.value, ValidationStatus) == State(PROCESSED) {
      // It names its entity, so the test of the name in the code always succeeds.
      landing := Reported(Get(found.value, ExistingEntityId) != Null, Get(found.value, ProcessedEntityId));
    } else if Get(found.value, ValidationStatus) != State(CONFIRMED) {
      landing := Failed("only confirmed records can be promoted");
    } else if Get(found.value, ProcessingQueueId) != Null && Get(found.value, ProcessingQueueId) != job.queue {
      landing := Failed("record belongs to another promotion job");
    } else {
      landing, entry := Materialize(repo, c, found.value, job, now, Glimpse(seen, found), ours);
      DecidedByHandling(before, mid, Now(repo), entry, landing, c, found.value, job, ours);
      return;
    }
    entry := Entry(Glimpse(seen, found), Blank, Blank, seen, []);
    DecidedOutright(before, mid, found, landing, c, job, ours);
    CleanSettles(mid, landing, ours);
  }

  /** One entry of the list: a failure rolls back what is pending. */
  method PromoteEntry(repo: Repository, c: Id, job: Job, now: int, ghost ours: Candidates) returns (landing: Landing, ghost entry: Entry)
    requires c in ours && Settled(Now(repo), ours)
    modifies repo, repo.database
    ensures Worked(old(Now(repo)), Now(repo), entry, landing, c, job, ours)
    ensures !landing.Abort? ==> Settled(Now(repo), ours)
  {
    landing, entry := Work(repo, c, job, now, ours);
    if landing.Failed? {
      repo.RollbackPending();
    }
  }

  // ---- The whole list ----

  /** Each entry was worked on from the moment the one before it was done. */
  ghost predicate History(moments: seq<Moment>, entries: seq<Entry>, landings: seq<Landing>, ids: seq<Id>, job: Job) {
    && |moments| == |entries| + 1 && |entries| == |landings| <= |ids| && AllCandidates(ids)
    && forall i | 0 <= i < |landings| ::
         Worked(moments[i], moments[i + 1], entries[i], landings[i], ids[i], job, ListOf(ids))
  }

  predicate AllCandidates(ids: seq<Id>) { forall c | c in ids :: c.kind == ImportCandidates }

  function ListOf(ids: seq<Id>): Candidates
    requires AllCandidates(ids)
  {
    set c | c in ids
  }

  lemma HistoryGrows(moments: seq<Moment>, entries: seq<Entry>, landings: seq<Landing>, ids: seq<Id>, job: Job, after: Moment,
                     entry: Entry, landing: Landing)
    requires History(moments, entries, landings, ids, job) && |landings| < |ids|
    requires Worked(moments[|landings|], after, entry, landing, ids[|landings|], job, ListOf(ids))
    ensures History(moments + [after], entries + [entry], landings + [landing], ids, job)
  {
  }

  function CreatedIn(landings: seq<Landing>): seq<Value> {
    if landings == [] then []
    else
      var last := landings[|landings| - 1];
      CreatedIn(landings[..|landings| - 1]) + if last.Created? then [last.entity] else []
  }

  function UpdatedIn(landings: seq<Landing>): seq<Value> {
    if landings == [] then []
    else
      var last := landings[|landings| - 1];
      UpdatedIn(landings[..|landings| - 1]) + if last.Updated? then [last.entity] else []
  }

  function FailedIn(landings: seq<Landing>, ids: seq<Id>): seq<(Id, string)>
    requires |ids| == |landings|
  {
    if landings == [] then []
    else
      var last := |landings| - 1;
      FailedIn(landings[..last], ids[..last]) + if landings[last].Failed? then [(ids[last], landings[last].message)] else []
  }

  datatype Report = Report(created: seq<Value>, updated: seq<Value>, errors: seq<(Id, string)>)

  function ReportOf(landings: seq<Landing>, ids: seq<Id>): Report
    requires |ids| == |landings|
  {
    Report(CreatedIn(landings), UpdatedIn(landings), FailedIn(landings, ids))
  }

  function Including(report: Report, id: Id, landing: Landing): Report {
    match landing
    case Created(entity) => report.(created := report.created + [entity])
    case Updated(entity) => report.(updated := report.updated + [entity])
    case Failed(message) => report.(errors := report.errors + [(id, message)])
    case Abort => report
  }

  lemma LandsNext(landings: seq<Landing>, ids: seq<Id>, landing: Landing)
    requires |landings| < |ids|
    ensures ReportOf(landings + [landing], ids[..|landings| + 1]) == Including(ReportOf(landings, ids[..|landings|]), ids[|landings|], landing)
  {
    var i := |landings|;
    assert (landings + [landing])[..i] == landings && ids[..i + 1][..i] == ids[..i];
  }

  /** What landed as promoted is in the database as well. */
  ghost predicate Landed(landings: seq<Landing>, ids: seq<Id>, rows: map<Id, Row>) {
    |landings| <= |ids| && forall i | 0 <= i < |landings| && landings[i].Promoted() :: StillInto(rows, ids[i], landings[i].entity)
  }

  lemma StaysLanded(landings: seq<Landing>, ids: seq<Id>, before: map<Id, Row>, after: map<Id, Row>)
    requires AllCandidates(ids) && Landed(landings, ids, before) && Meanwhile(before, after, ListOf(ids))
    ensures Landed(landings, ids, after)
  {
    forall i | 0 <= i < |landings| && landings[i].Promoted()
      ensures StillInto(after, ids[i], landings[i].entity)
    {
      assert ids[i] in ListOf(ids);
    }
  }

  lemma LandedGrows(landings: seq<Landing>, ids: seq<Id>, rows: map<Id, Row>, landing: Landing)
    requires Landed(landings, ids, rows) && |landings| < |ids|
    requires landing.Promoted() ==> StillInto(rows, ids[|landings|], landing.entity)
    ensures Landed(landings + [landing], ids, rows)
  {
  }

  lemma OneMore(moments: seq<Moment>, entries: seq<Entry>, landings: seq<Landing>, ids: seq<Id>, job: Job, after: Moment,
                entry: Entry, landing: Landing)
    requires History(moments, entries, landings, ids, job) && |landings| < |ids| && Landed(landings, ids, moments[|landings|].rows)
    requires Worked(moments[|landings|], after, entry, landing, ids[|landings|], job, ListOf(ids))
    ensures History(moments + [after], entries + [entry], landings + [landing], ids, job)
    ensures Landed(landings + [landing], ids, after.rows)
    ensures ReportOf(landings + [landing], ids[..|landings| + 1]) == Including(ReportOf(landings, ids[..|landings|]), ids[|landings|], landing)
  {
    StaysLanded(landings, ids, moments[|landings|].rows, after.rows);
    LandedGrows(landings, ids, after.rows, landing);
    HistoryGrows(moments, entries, landings, ids, job, after, entry, landing);
    LandsNext(landings, ids, landing);
  }

  /** The job: every entry of the list lands in exactly one of created, updated and errors, as what was found and
      the outcome of its flush decide, and whatever is reported created or updated is processed in the
      database into the reported entity, or deleted since. A crash returns no report; the message is then delivered again. */
  method ProcessQueue(repo: Repository, candidateIds: seq<Id>, job: Job, start: int)
    returns (report: Option<Report>, ghost landings: seq<Landing>, ghost entries: seq<Entry>, ghost moments: seq<Moment>)
    requires AllCandidates(candidateIds) && Settled(Now(repo), ListOf(candidateIds))
    modifies repo, repo.database
    ensures History(moments, entries, landings, candidateIds, job)
    ensures moments[0] == old(Now(repo)) && moments[|landings|].rows == repo.database.store.rows && moments[|landings|].log == repo.log
    ensures Landed(landings, candidateIds, repo.database.store.rows)
    ensures report.None? <==> exists i :: 0 <= i < |landings| && landings[i].Abort?
    ensures report.Some? ==>
              && |landings| == |candidateIds| && report.value == ReportOf(landings, candidateIds)
              && |report.value.created| + |report.value.updated| + |report.value.errors| == |candidateIds|
  {
    var created: seq<Value>, updated: seq<Value>, errors: seq<(Id, string)> := [], [], [];
    landings, entries, moments := [], [], [Now(repo)];
    for i := 0 to |candidateIds|
      invariant |landings| == i && History(moments, entries, landings, candidateIds, job)
      invariant moments[0] == old(Now(repo)) && moments[i] == Now(repo) && Settled(Now(repo), ListOf(candidateIds))
      invariant Landed(landings, candidateIds, repo.database.store.rows)
      invariant forall k | 0 <= k < i :: !landings[k].Abort?
      invariant Report(created, updated, errors) == ReportOf(landings, candidateIds[..i])
    {
      var landing, entry := PromoteEntry(repo, candidateIds[i], job, start + i, ListOf(candidateIds));
      OneMore(moments, entries, landings, candidateIds, job, Now(repo), entry, landing);
      landings, entries, moments := landings + [landing], entries + [entry], moments + [Now(repo)];
      match landing {
        case Created(entity) => created := created + [entity];
        case Updated(entity) => updated := updated + [entity];
        case Failed(message) => errors := errors + [(candidateIds[i], message)];
        case Abort =>
          assert landings[i].Abort?;
          return None, landings, entries, moments;
      }
    }
    assert candidateIds[..|candidateIds|] == candidateIds;
    LandsOnce(landings, candidateIds);
    return Some(Report(created, updated, errors)), landings, entries, moments;
  }

  lemma {:induction false} LandsOnce(landings: seq<Landing>, ids: seq<Id>)
    requires |ids| == |landings| && forall i | 0 <= i < |landings| :: !landings[i].Abort?
    ensures |CreatedIn(landings)| + |UpdatedIn(landings)| + |FailedIn(landings, ids)| == |ids|
  {
    if landings != [] {
      var last := |landings| - 1;
      LandsOnce(landings[..last], ids[..last]);
    }
  }

  /** Whatever a finished job reports as created or updated comes from an entry of its list that is processed into it. */
  lemma {:induction false} ReportedIsProcessed(landings: seq<Landing>, ids: seq<Id>, rows: map<Id, Row>, entity: Value) returns (i: nat)
    requires |ids| == |landings| && Landed(landings, ids, rows)
    requires entity in CreatedIn(landings) + UpdatedIn(landings)
    ensures i < |ids| && landings[i].Promoted() && landings[i].entity == entity && StillInto(rows, ids[i], entity)
  {
    i := |landings| - 1;
    if !(landings[i].Promoted() && landings[i].entity == entity) {
      i := ReportedIsProcessed(landings[..i], ids[..i], rows, entity);
    }
  }

  lemma {:induction false} FailedAt(landings: seq<Landing>, ids: seq<Id>, error: (Id, string)) returns (i: nat)
    requires |ids| == |landings| && error in FailedIn(landings, ids)
    ensures i < |ids| && ids[i] == error.0 && landings[i] == Failed(error.1)
  {
    i := |landings| - 1;
    if !(landings[i] == Failed(error.1) && ids[i] == error.0) {
      i := FailedAt(landings[..i], ids[..i], error);
    }
  }

  /** Nothing was committed for what is reported under errors. */
  lemma ErrorsCommitNothing(moments: seq<Moment>, entries: seq<Entry>, landings: seq<Landing>, ids: seq<Id>, job: Job, error: (Id, string))
    returns (i: nat)
    requires History(moments, entries, landings, ids, job) && |ids| == |landings| && error in FailedIn(landings, ids)
    ensures i < |ids| && ids[i] == error.0 && forall t | t in entries[i].tries :: !Commits(t)
    ensures Meanwhile(moments[i].rows, moments[i + 1].rows, ListOf(ids))
  {
    i := FailedAt(landings, ids, error);
    assert Worked(moments[i], moments[i + 1], entries[i], landings[i], ids[i], job, ListOf(ids));
    FailureCommitsNothing(entries[i], landings[i], ids[i], job);
  }

  // ---- What a history says of entities ----

  /** The candidate is confirmed, names its entity, and no other job has it. */
  ghost predicate Promotable(entry: Entry, job: Job, key: string) {
    && entry.found.row.Some?
    && var candidate := entry.found.row.value;
       && Get(candidate, ValidationStatus) == State(CONFIRMED) && Get(candidate, EntityPayload) == Text(key)
       && Get(candidate, ProcessingQueueId) in {Null, job.queue}
  }

  /** A promotable candidate without a flaw is refused exactly when its entity, as the job last saw it, is approved and
      the job does not retire it; a flush is tried for it only otherwise. */
  lemma RefusedExactly(moments: seq<Moment>, entries: seq<Entry>, landings: seq<Landing>, ids: seq<Id>, job: Job, i: nat, key: string)
    requires History(moments, entries, landings, ids, job) && i < |landings| && Promotable(entries[i], job, key)
    requires job.flaw(entries[i].found.row.value) == None
    ensures var existing := entries[i].existing.row;
            var approved := existing.Some? && Get(existing.value, Status) == State(APPROVED) && job.target != State(RETIRED);
            && (landings[i].Failed? && entries[i].tries == [] <==> approved)
            && (entries[i].tries != [] ==> !approved)
  {
    assert Worked(moments[i], moments[i + 1], entries[i], landings[i], ids[i], job, ListOf(ids));
  }

  /** The pending entity, field by field. */
  lemma PendedEntity(s: Scope, c: Id, candidate: Row, existing: Option<Row>, put: map<Id, Row>, job: Job, e: Id)
    requires Pends(s, c, candidate, existing, put, job) && e == Planned(candidate) && e != c
    ensures e in s.loaded && Get(s.loaded[e], Status) == job.target
    ensures existing.Some? ==> Get(s.loaded[e], Other("website")) == Get(existing.value, Other("website"))
                               && Get(s.loaded[e], Other("description")) == Get(existing.value, Other("description"))
    ensures existing.Some? && Get(existing.value, Status) != job.target && e !in s.deleted ==> e in s.Changed()
  {
    var planned :| s.loaded[e] == Curated(planned, existing, job);
  }

  lemma StoredEntity(t: Try, c: Id, candidate: Row, existing: Option<Row>, put: map<Id, Row>, job: Job, e: Id)
    requires Attempts(t, c, candidate, existing, put, job) && Commits(t) && e == Planned(candidate) && e != c && e in t.scope.Changed()
    ensures e in Result(t) && Get(Result(t)[e], Status) == job.target
    ensures existing.Some? ==> Get(Result(t)[e], Other("website")) == Get(existing.value, Other("website"))
                               && Get(Result(t)[e], Other("description")) == Get(existing.value, Other("description"))
  {
    PendedEntity(t.scope, c, candidate, existing, put, job, e);
    assert SameFor(Entities, Result(t)[e], t.scope.loaded[e]);
  }

  /** What a committed flush of an entry leaves, field by field: the candidate is processed into the entity it names; an
      approved entity is retired; and an entity that the scope changed has the target status of the job and
      keeps the website and the description it had. */
  lemma CommittedEntity(moments: seq<Moment>, entries: seq<Entry>, landings: seq<Landing>, ids: seq<Id>, job: Job, i: nat, key: string)
    requires History(moments, entries, landings, ids, job) && i < |landings|
    requires Promotable(entries[i], job, key) && entries[i].tries != [] && Commits(entries[i].tries[0])
    ensures var t, rows, e, existing := entries[i].tries[0], moments[i + 1].rows, Id(Entities, key), entries[i].existing.row;
            && ids[i] in rows && Get(rows[ids[i]], ValidationStatus) == State(PROCESSED)
            && Get(rows[ids[i]], ProcessedEntityId) == Text(key)
            && (existing.Some? && Get(existing.value, Status) == State(APPROVED) ==> e in rows && Get(rows[e], Status) == State(RETIRED))
            && (e in t.scope.Changed() ==>
                  && e in rows && Get(rows[e], Status) == job.target
                  && (existing.Some? ==> Get(rows[e], Other("website")) == Get(existing.value, Other("website"))
                                         && Get(rows[e], Other("description")) == Get(existing.value, Other("description"))))
  {
    var t, candidate, existing, put := entries[i].tries[0], entries[i].found.row.value, entries[i].existing.row, entries[i].put;
    WorkedTries(moments[i], moments[i + 1], entries[i], landings[i], ids[i], job, ListOf(ids), key);
    assert ids[i] in ListOf(ids);
    PendedEntity(t.scope, ids[i], candidate, existing, put, job, Id(Entities, key));
    if Id(Entities, key) in t.scope.Changed() { StoredEntity(t, ids[i], candidate, existing, put, job, Id(Entities, key)); }
  }

  lemma WorkedTries(before: Moment, after: Moment, entry: Entry, landing: Landing, c: Id, job: Job, ours: Candidates, key: string)
    requires Worked(before, after, entry, landing, c, job, ours)
    requires Promotable(entry, job, key) && entry.tries != [] && Commits(entry.tries[0])
    ensures Planned(entry.found.row.value) == Id(Entities, key) && after.rows == Result(entry.tries[0])
    ensures Attempts(entry.tries[0], c, entry.found.row.value, entry.existing.row, entry.put, job)
    ensures !(entry.existing.row.Some? && Get(entry.existing.row.value, Status) == State(APPROVED) && job.target != State(RETIRED))
    ensures c in after.rows && Get(after.rows[c], ValidationStatus) == State(PROCESSED) && Get(after.rows[c], ProcessedEntityId) == Text(key)
    ensures entry.tries[0].scope.deleted == {}
  {
  }

  /** Where an entry lands, field by field. */
  lemma LandsAsFound(moments: seq<Moment>, entries: seq<Entry>, landings: seq<Landing>, ids: seq<Id>, job: Job, i: nat, candidate: Row)
    requires History(moments, entries, landings, ids, job) && i < |landings| && entries[i].found.row == Some(candidate)
    ensures var status, queue, tries := Get(candidate, ValidationStatus), Get(candidate, ProcessingQueueId), entries[i].tries;
            && (status == State(PROCESSED) ==>
                  tries == [] && landings[i] == if Get(candidate, ExistingEntityId) == Null then Created(Get(candidate, ProcessedEntityId))
                                                else Updated(Get(candidate, ProcessedEntityId)))
            && (status != State(PROCESSED) && (status != State(CONFIRMED) || queue !in {Null, job.queue}) ==>
                  tries == [] && landings[i].Failed?)
            && (tries != [] ==> |tries| == 1 && (!Commits(tries[0]) ==> landings[i].Failed?))
            && (tries != [] && Commits(tries[0]) && Get(candidate, EntityPayload).Text? ==>
                  var entity := Get(candidate, EntityPayload);
                  landings[i] == Abort || landings[i] == if entries[i].was.row == None then Created(entity) else Updated(entity))
  {
    assert Worked(moments[i], moments[i + 1], entries[i], landings[i], ids[i], job, ListOf(ids));
  }

  lemma MissingFails(moments: seq<Moment>, entries: seq<Entry>, landings: seq<Landing>, ids: seq<Id>, job: Job, i: nat)
    requires History(moments, entries, landings, ids, job) && i < |landings| && entries[i].found.row == None
    ensures entries[i].tries == [] && landings[i].Failed? && moments[i + 1].log == moments[i].log
  {
    assert Worked(moments[i], moments[i + 1], entries[i], landings[i], ids[i], job, ListOf(ids));
  }
}
