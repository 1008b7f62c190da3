/** Preprocessing by ordinal: batches, worker deaths, replays and concurrent reviews. */
module Replay {
  import opened Options
  import opened Rows

  /** Which source features can be staged, and the run they belong to. */
  datatype Source = Source(accepted: seq<bool>, run: Value)

  datatype Staged = Staged(id: nat, row: Row)

  /** The window a worker works on, and the rows it read for it. */
  datatype Batch = Batch(start: nat, size: nat, previous: map<nat, Staged>) {
    predicate Covers(i: int) { start <= i < start + size }
  }

  datatype Phase = Queued | Running(done: nat, batch: Option<Batch>) | Failed | Preprocessed

  /** The committed rows of the run by ordinal, the identities used so far, and the worker. */
  datatype World = World(staged: map<nat, Staged>, nextId: nat, phase: Phase)

  datatype Act =
    | Claim
    | ReadWindow(size: nat)
    | Checkpoint(incoming: map<nat, Row>)
    | Complete
    | Die
    | Review(ordinal: nat, row: Row)

  predicate ReviewField(f: Field) {
    f in {ValidationStatus, ValidationNote, ValidatedBy, ValidatedAt, TargetStatus, ProcessedEntityId, ProcessedAt}
  }

  /** The values of the seven review fields. */
  datatype Reviewed = Reviewed(status: Value, note: Value, reviewer: Value, reviewedAt: Value, target: Value, entity: Value, processedAt: Value)

  function ReviewOf(row: Row): Reviewed {
    Reviewed(Get(row, ValidationStatus), Get(row, ValidationNote), Get(row, ValidatedBy), Get(row, ValidatedAt),
             Get(row, TargetStatus), Get(row, ProcessedEntityId), Get(row, ProcessedAt))
  }

  predicate Placed(src: Source, i: nat, row: Row) {
    Get(row, Ordinal) == Number(i) && Get(row, ImportRunId) == src.run && Get(row, ValidationStatus) != Null
  }

  /** A newly normalised candidate: pending, unreviewed, and without the promotion link. */
  ghost predicate Unreviewed(src: Source, i: nat, row: Row) {
    && Placed(src, i, row) && Get(row, ValidationStatus) == State(PENDING) && ProcessingQueueId !in row
    && forall f | ReviewField(f) && f != ValidationStatus :: Get(row, f) == Null
  }

  /** A replayed candidate takes the seven review fields over from the row read before. */
  function Replayed(previous: Row, incoming: Row): Row {
    map f | f in incoming.Keys + previous.Keys && (f in incoming || ReviewField(f))
         :: if ReviewField(f) && f in previous then previous[f] else incoming[f]
  }

  predicate InWindow(src: Source, b: Batch, i: nat) {
    b.Covers(i) && i < |src.accepted| && src.accepted[i]
  }

  /** What the loop over the batch stages under each ordinal. */
  function Pending(b: Batch, nextId: nat, i: nat, incoming: Row): Staged
    requires b.Covers(i)
  {
    if i in b.previous then Staged(b.previous[i].id, Replayed(b.previous[i].row, incoming))
    else Staged(nextId + (i - b.start), incoming)
  }

  /** Field by field: the content is that of the feature just read, its payload included; the seven fields of a review
      are those of the row read before, if there was one that had them. */
  ghost predicate Composed(b: Batch, i: nat, incoming: Row, row: Row) {
    forall f ::
      Get(row, f) == if i in b.previous && f in b.previous[i].row
                        && f in {ValidationStatus, ValidationNote, ValidatedBy, ValidatedAt, TargetStatus, ProcessedEntityId, ProcessedAt}
                     then Get(b.previous[i].row, f) else Get(incoming, f)
  }

  /** The row that the flush commits for one staged candidate. */
  function Merged(b: Batch, pending: Staged, i: nat, staged: map<nat, Staged>): Option<Row> {
    Resolve(ImportCandidates, if i in b.previous then Some(b.previous[i].row) else None, pending.row,
            if i in staged then Some(staged[i].row) else None)
  }

  ghost predicate Fits(src: Source, b: Batch, incoming: map<nat, Row>) {
    forall i | InWindow(src, b, i) :: i in incoming && Unreviewed(src, i, incoming[i])
  }

  /** The loop over one batch. */
  method StageBatch(src: Source, b: Batch, nextId: nat, incoming: map<nat, Row>) returns (pending: map<nat, Staged>)
    requires b.start + b.size <= |src.accepted|
    requires forall i | InWindow(src, b, i) :: i in incoming
    ensures forall i: nat :: i in pending <==> InWindow(src, b, i)
    ensures forall i | i in pending && b.Covers(i) && i in incoming :: pending[i] == Pending(b, nextId, i, incoming[i])
    ensures forall i | i in pending && b.Covers(i) && i in incoming ::
              pending[i].id == (if i in b.previous then b.previous[i].id else nextId + (i - b.start))
              && Composed(b, i, incoming[i], pending[i].row)
  {
    pending := map[];
    for local := 0 to b.size
      invariant forall i: nat :: i in pending <==> InWindow(src, b, i) && i < b.start + local
      invariant forall i | i in pending && b.Covers(i) && i in incoming :: pending[i] == Pending(b, nextId, i, incoming[i])
    {
      var index := b.start + local;
      if src.accepted[index] {
        assert InWindow(src, b, index);
        var candidate := incoming[index];
        var id := nextId + local;
        if index in b.previous {
          id := b.previous[index].id;
          candidate := Replayed(b.previous[index].row, candidate);
        }
        pending := pending[index := Staged(id, candidate)];
      }
    }
  }

  ghost predicate Mergeable(src: Source, w: World, b: Batch, incoming: map<nat, Row>)
    requires Fits(src, b, incoming)
  {
    forall i | InWindow(src, b, i) :: Merged(b, Pending(b, w.nextId, i, incoming[i]), i, w.staged).Some?
  }

  ghost function Committed(src: Source, w: World, b: Batch, incoming: map<nat, Row>): map<nat, Staged>
    requires Fits(src, b, incoming) && Mergeable(src, w, b, incoming)
  {
    w.staged + map i: nat | b.start <= i < b.start + b.size && InWindow(src, b, i) ::
      Staged(Pending(b, w.nextId, i, incoming[i]).id, Merged(b, Pending(b, w.nextId, i, incoming[i]), i, w.staged).value)
  }

  ghost predicate Enabled(src: Source, w: World, act: Act) {
    match act
    case Claim => w.phase.Queued?
    case ReadWindow(size) => w.phase.Running? && w.phase.batch == None && size >= 1 && w.phase.done + size <= |src.accepted|
    case Checkpoint(incoming) => w.phase.Running? && w.phase.batch.Some? && Fits(src, w.phase.batch.value, incoming)
    case Complete => w.phase == Running(|src.accepted|, None)
    case Die => w.phase.Running?
    case Review(i, row) => i in w.staged && Placed(src, i, row)
  }

  /** A death leaves the run to be claimed again; a checkpoint that clashes fails it. */
  ghost function Next(src: Source, w: World, act: Act): World
    requires Enabled(src, w, act)
  {
    match act
    case Claim => w.(phase := Running(0, None))
    case ReadWindow(size) =>
      var start := w.phase.done;
      var previous := map i | i in w.staged && start <= i < start + size :: w.staged[i];
      w.(phase := Running(start, Some(Batch(start, size, previous))))
    case Checkpoint(incoming) =>
      var b := w.phase.batch.value;
      if Mergeable(src, w, b, incoming) then
        World(Committed(src, w, b, incoming), w.nextId + b.size, Running(b.start + b.size, None))
      else w.(phase := Failed)
    case Complete => w.(phase := Preprocessed)
    case Die => w.(phase := Queued)
    case Review(i, row) => w.(staged := w.staged[i := Staged(w.staged[i].id, row)])
  }

  ghost predicate Execution(src: Source, worlds: seq<World>, acts: seq<Act>) {
    && |worlds| == |acts| + 1
    && worlds[0] == World(map[], 0, Queued)
    && forall k | 0 <= k < |acts| :: Enabled(src, worlds[k], acts[k]) && worlds[k + 1] == Next(src, worlds[k], acts[k])
  }

  // ---- The invariant ----

  ghost predicate StagedInv(src: Source, staged: map<nat, Staged>, nextId: nat) {
    && (forall i | i in staged :: i < |src.accepted| && src.accepted[i] && Placed(src, i, staged[i].row)
                                  && staged[i].id < nextId)
    && (forall i, j | i in staged && j in staged && staged[i].id == staged[j].id :: i == j)
  }

  ghost predicate StagedTo(src: Source, staged: map<nat, Staged>, n: nat) {
    forall i | 0 <= i < n && i < |src.accepted| && src.accepted[i] :: i in staged
  }

  ghost predicate BatchInv(src: Source, w: World, done: nat, b: Batch) {
    && b.start == done && b.start + b.size <= |src.accepted|
    && (forall i | i in b.previous :: b.Covers(i) && i in w.staged && b.previous[i].id == w.staged[i].id
                                      && Placed(src, i, b.previous[i].row))
    && (forall i | i in w.staged && b.Covers(i) :: i in b.previous)
  }

  ghost predicate Inv(src: Source, w: World) {
    && StagedInv(src, w.staged, w.nextId)
    && (w.phase.Running? ==> StagedTo(src, w.staged, w.phase.done) && w.phase.done <= |src.accepted|)
    && (w.phase.Running? && w.phase.batch.Some? ==> BatchInv(src, w, w.phase.done, w.phase.batch.value))
    && (w.phase.Preprocessed? ==> StagedTo(src, w.staged, |src.accepted|))
  }

  /** A replay edits no review field and stays in its place. */
  lemma ReplayedFields(src: Source, i: nat, previous: Row, incoming: Row, f: Field)
    requires Placed(src, i, previous) && Unreviewed(src, i, incoming)
    ensures ReviewField(f) || f == Ordinal || f == ImportRunId ==> !Edited(previous, Replayed(previous, incoming), f)
  {
  }

  /** What a checkpoint commits under one ordinal. */
  lemma CommittedRow(src: Source, w: World, b: Batch, incoming: map<nat, Row>, i: nat)
    requires StagedInv(src, w.staged, w.nextId) && BatchInv(src, w, b.start, b) && Fits(src, b, incoming) && InWindow(src, b, i)
    requires Merged(b, Pending(b, w.nextId, i, incoming[i]), i, w.staged).Some?
    ensures var row := Merged(b, Pending(b, w.nextId, i, incoming[i]), i, w.staged).value;
            && Placed(src, i, row)
            && (i in w.staged ==> ReviewOf(row) == ReviewOf(w.staged[i].row))
  {
    var pending := Pending(b, w.nextId, i, incoming[i]);
    if i in b.previous {
      var previous, latest := b.previous[i].row, w.staged[i].row;
      MergeMeaning(previous, pending.row, latest);
      forall f | ReviewField(f) || f == Ordinal || f == ImportRunId
        ensures Get(Merge(previous, pending.row, latest).value, f) == Get(latest, f)
      {
        ReplayedFields(src, i, previous, incoming[i], f);
      }
    }
  }

  /** What a checkpoint commits outside the review fields: the content just read, except where it equals what the worker had
      read before; there a field that somebody changed since stays changed. */
  lemma ContentIsFresh(src: Source, w: World, b: Batch, incoming: map<nat, Row>, i: nat, f: Field)
    requires Fits(src, b, incoming) && Mergeable(src, w, b, incoming) && InWindow(src, b, i) && (i in b.previous ==> i in w.staged)
    requires f !in {ValidationStatus, ValidationNote, ValidatedBy, ValidatedAt, TargetStatus, ProcessedEntityId, ProcessedAt}
    ensures i in Committed(src, w, b, incoming)
    ensures Get(Committed(src, w, b, incoming)[i].row, f)
            == if i in b.previous && Get(b.previous[i].row, f) == Get(incoming[i], f) then Get(w.staged[i].row, f) else Get(incoming[i], f)
  {
    CommittedAt(src, w, b, incoming, i);
    var pending := Pending(b, w.nextId, i, incoming[i]);
    if i in b.previous {
      MergeMeaning(b.previous[i].row, pending.row, w.staged[i].row);
      assert Get(pending.row, f) == Get(incoming[i], f);
    }
  }

  predicate SameReview(a: Staged, b: Staged) {
    a.id == b.id && ReviewOf(a.row) == ReviewOf(b.row)
  }

  /** Rows staged before are still there, with their identity and review. */
  ghost predicate KeepsReviews(before: map<nat, Staged>, after: map<nat, Staged>) {
    forall i | i in before :: i in after && SameReview(before[i], after[i])
  }

  /** What a checkpoint does at one ordinal: rows of the window are replaced in place or added. */
  ghost predicate CheckpointedAt(src: Source, b: Batch, nextId: nat, before: map<nat, Staged>, after: map<nat, Staged>, i: nat) {
    && (i in after <==> i in before || InWindow(src, b, i))
    && (i in after && !InWindow(src, b, i) ==> after[i] == before[i])
    && (i in after && InWindow(src, b, i) ==> Placed(src, i, after[i].row))
    && (i in after && InWindow(src, b, i) && i in before ==> SameReview(before[i], after[i]))
    && (i in after && i !in before ==> after[i].id == nextId + (i - b.start))
  }

  ghost predicate Checkpointed(src: Source, b: Batch, nextId: nat, before: map<nat, Staged>, after: map<nat, Staged>) {
    forall i: nat :: CheckpointedAt(src, b, nextId, before, after, i)
  }

  lemma CommittedAt(src: Source, w: World, b: Batch, incoming: map<nat, Row>, i: nat)
    requires Fits(src, b, incoming) && Mergeable(src, w, b, incoming)
    ensures i in Committed(src, w, b, incoming) <==> i in w.staged || InWindow(src, b, i)
    ensures InWindow(src, b, i) ==>
              var pending := Pending(b, w.nextId, i, incoming[i]);
              Committed(src, w, b, incoming)[i] == Staged(pending.id, Merged(b, pending, i, w.staged).value)
    ensures !InWindow(src, b, i) && i in w.staged ==> Committed(src, w, b, incoming)[i] == w.staged[i]
  {
  }

  lemma CheckpointIs(src: Source, w: World, b: Batch, incoming: map<nat, Row>)
    requires StagedInv(src, w.staged, w.nextId) && BatchInv(src, w, b.start, b)
    requires Fits(src, b, incoming) && Mergeable(src, w, b, incoming)
    ensures Checkpointed(src, b, w.nextId, w.staged, Committed(src, w, b, incoming))
  {
    forall i: nat
      ensures CheckpointedAt(src, b, w.nextId, w.staged, Committed(src, w, b, incoming), i)
    {
      CommittedAt(src, w, b, incoming, i);
      if InWindow(src, b, i) { CommittedRow(src, w, b, incoming, i); }
    }
  }

  lemma CheckpointedKeeps(src: Source, b: Batch, nextId: nat, before: map<nat, Staged>, after: map<nat, Staged>)
    requires StagedInv(src, before, nextId) && Checkpointed(src, b, nextId, before, after)
    requires StagedTo(src, before, b.start)
    ensures StagedInv(src, after, nextId + b.size) && StagedTo(src, after, b.start + b.size)
    ensures KeepsReviews(before, after)
  {
    forall i: nat
      ensures CheckpointedAt(src, b, nextId, before, after, i)
      ensures i in after && i in before ==> after[i].id == before[i].id
    {
    }
  }

  lemma CheckpointKeepsInv(src: Source, w: World, b: Batch, incoming: map<nat, Row>)
    requires Inv(src, w) && w.phase == Running(b.start, Some(b)) && Fits(src, b, incoming)
    requires Mergeable(src, w, b, incoming)
    ensures Inv(src, Next(src, w, Checkpoint(incoming)))
    ensures KeepsReviews(w.staged, Next(src, w, Checkpoint(incoming)).staged)
  {
    CheckpointIs(src, w, b, incoming);
    CheckpointedKeeps(src, b, w.nextId, w.staged, Committed(src, w, b, incoming));
  }

  lemma WindowKeepsInv(src: Source, w: World, size: nat)
    requires Inv(src, w) && Enabled(src, w, ReadWindow(size))
    ensures Inv(src, Next(src, w, ReadWindow(size)))
  {
    var next := Next(src, w, ReadWindow(size));
    assert BatchInv(src, next, w.phase.done, next.phase.batch.value);
  }

  lemma ReviewKeepsInv(src: Source, w: World, i: nat, row: Row)
    requires Inv(src, w) && Enabled(src, w, Review(i, row))
    ensures Inv(src, Next(src, w, Review(i, row)))
  {
    var next := Next(src, w, Review(i, row));
    assert StagedInv(src, next.staged, next.nextId);
  }

  lemma StepKeepsInv(src: Source, w: World, act: Act)
    requires Inv(src, w) && Enabled(src, w, act)
    ensures Inv(src, Next(src, w, act))
    ensures !act.Review? ==> KeepsReviews(w.staged, Next(src, w, act).staged)
  {
    match act
    case Checkpoint(incoming) =>
      if Mergeable(src, w, w.phase.batch.value, incoming) { CheckpointKeepsInv(src, w, w.phase.batch.value, incoming); }
    case ReadWindow(size) => WindowKeepsInv(src, w, size);
    case Review(i, row) => ReviewKeepsInv(src, w, i, row);
    case _ =>
  }

  /** One step keeps every row, its identity, and its review unless the step is a review of it. */
  lemma StepKeepsRow(src: Source, w: World, act: Act, i: nat)
    requires Inv(src, w) && Enabled(src, w, act) && i in w.staged
    ensures i in Next(src, w, act).staged && Next(src, w, act).staged[i].id == w.staged[i].id
    ensures !(act.Review? && act.ordinal == i) ==> SameReview(w.staged[i], Next(src, w, act).staged[i])
  {
    if !act.Review? { StepKeepsInv(src, w, act); }
  }

  lemma {:induction false} Invariant(src: Source, worlds: seq<World>, acts: seq<Act>, k: nat)
    requires Execution(src, worlds, acts) && k <= |acts|
    ensures Inv(src, worlds[k])
  {
    if k > 0 {
      Invariant(src, worlds, acts, k - 1);
      assert worlds[k - 1 + 1] == Next(src, worlds[k - 1], acts[k - 1]);
      StepKeepsInv(src, worlds[k - 1], acts[k - 1]);
    }
  }

  // ---- Replay equals one clean run ----

  /** Whatever the batches, deaths, replays and reviews: a preprocessed run has exactly one row per
      accepted feature, filed under the index of the feature in the source, and no identity twice. */
  lemma PreprocessedIsComplete(src: Source, worlds: seq<World>, acts: seq<Act>, k: nat)
    requires Execution(src, worlds, acts) && k <= |acts| && worlds[k].phase.Preprocessed?
    ensures var staged := worlds[k].staged;
            && (forall i: nat :: i in staged <==> i < |src.accepted| && src.accepted[i])
            && (forall i | i in staged :: Get(staged[i].row, Ordinal) == Number(i) && Get(staged[i].row, ImportRunId) == src.run)
            && (forall i, j | i in staged && j in staged && i != j :: staged[i].id != staged[j].id)
  {
    Invariant(src, worlds, acts, k);
  }

  function IdAt(w: World, i: nat): Option<nat> {
    if i in w.staged then Some(w.staged[i].id) else None
  }

  function ReviewAt(w: World, i: nat): Option<Reviewed> {
    if i in w.staged then Some(ReviewOf(w.staged[i].row)) else None
  }

  lemma RunKeepsRow(src: Source, worlds: seq<World>, acts: seq<Act>, k: nat, i: nat)
    requires Execution(src, worlds, acts) && 0 < k <= |acts| && IdAt(worlds[k - 1], i).Some?
    ensures IdAt(worlds[k], i) == IdAt(worlds[k - 1], i)
    ensures !(acts[k - 1].Review? && acts[k - 1].ordinal == i) ==> ReviewAt(worlds[k], i) == ReviewAt(worlds[k - 1], i)
  {
    Invariant(src, worlds, acts, k - 1);
    assert worlds[k - 1 + 1] == Next(src, worlds[k - 1], acts[k - 1]);
    StepKeepsRow(src, worlds[k - 1], acts[k - 1], i);
  }

  /** A row staged by any earlier attempt keeps its identity to the end of the run. */
  lemma {:induction false} IdentityStays(src: Source, worlds: seq<World>, acts: seq<Act>, j: nat, k: nat, i: nat)
    requires Execution(src, worlds, acts) && j <= k <= |acts| && IdAt(worlds[j], i).Some?
    ensures IdAt(worlds[k], i) == IdAt(worlds[j], i)
  {
    if j != k {
      IdentityStays(src, worlds, acts, j, k - 1, i);
      RunKeepsRow(src, worlds, acts, k, i);
    }
  }

  /** The last review of the row before step k: no review of it comes after. */
  ghost predicate NoReview(acts: seq<Act>, j: nat, k: nat, i: nat) {
    forall m | j <= m < k && m < |acts| :: !(acts[m].Review? && acts[m].ordinal == i)
  }

  lemma UnreviewedStep(src: Source, worlds: seq<World>, acts: seq<Act>, j: nat, k: nat, i: nat)
    requires Execution(src, worlds, acts) && j < k <= |acts| && NoReview(acts, j, k, i) && ReviewAt(worlds[k - 1], i).Some?
    ensures ReviewAt(worlds[k], i) == ReviewAt(worlds[k - 1], i) && NoReview(acts, j, k - 1, i)
  {
    RunKeepsRow(src, worlds, acts, k, i);
  }

  /** Replays never undo a review: the review fields are those of the last reviewer. */
  lemma {:induction false} ReviewStays(src: Source, worlds: seq<World>, acts: seq<Act>, j: nat, k: nat, i: nat)
    requires Execution(src, worlds, acts) && j <= k <= |acts| && ReviewAt(worlds[j], i).Some? && NoReview(acts, j, k, i)
    ensures ReviewAt(worlds[k], i) == ReviewAt(worlds[j], i)
  {
    if j != k {
      var middle := k - 1;
      assert NoReview(acts, j, middle, i);
      ReviewStays(src, worlds, acts, j, middle, i);
      UnreviewedStep(src, worlds, acts, j, k, i);
    }
  }

  /** The promotion link is not among the fields taken over: a checkpoint that replays a row clears a link
      that the worker read, and keeps the latest one only when it had read none. */
  lemma ReplayClearsLink(b: Batch, nextId: nat, i: nat, incoming: Row, staged: map<nat, Staged>)
    requires b.Covers(i) && i in b.previous && i in staged && ProcessingQueueId !in incoming
    requires Merged(b, Pending(b, nextId, i, incoming), i, staged).Some?
    ensures Get(Merged(b, Pending(b, nextId, i, incoming), i, staged).value, ProcessingQueueId)
            == if Get(b.previous[i].row, ProcessingQueueId) == Null then Get(staged[i].row, ProcessingQueueId) else Null
  {
    MergedLink(b.previous[i].row, incoming, staged[i].row);
  }

  lemma MergedLink(previous: Row, incoming: Row, latest: Row)
    requires ProcessingQueueId !in incoming && Merge(previous, Replayed(previous, incoming), latest).Some?
    ensures Get(Merge(previous, Replayed(previous, incoming), latest).value, ProcessingQueueId)
            == if Get(previous, ProcessingQueueId) == Null then Get(latest, ProcessingQueueId) else Null
  {
    var mine := Replayed(previous, incoming);
    MergeMeaning(previous, mine, latest);
    assert Get(mine, ProcessingQueueId) == Null;
    var merged := Merge(previous, mine, latest).value;
    assert Get(merged, ProcessingQueueId)
           == if Edited(previous, mine, ProcessingQueueId) then Null else Get(latest, ProcessingQueueId);
  }
}
