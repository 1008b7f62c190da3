/** One import run: leases, checkpoints, cancellation and recovery, by any number of workers. */
module RunProtocol {
  import opened Options
  import opened Rows

  /** A worker's scope for the run row: the baseline it read and its pending value. */
  datatype Worker = Worker(baseline: Row, mine: Row)

  /** The committed run row, the ordinals staged for it, whether its source manifest is stored, the
      scopes of living workers and the clock. */
  datatype World = World(row: Row, staged: set<nat>, manifest: bool, workers: map<nat, Worker>, clock: int)

  datatype Act =
    | Claim(lease: nat)
    | Heartbeat(lease: nat)
    | Load(worker: nat)
    | Edit(worker: nat, mine: Row)
    | Rollback(worker: nat)
    | Flush(worker: nat, batch: set<nat>, manifest: bool)
    | Die(worker: nat)
    | RequestCancel
    | FinishCancellation
    | DeadLetter(message: string)
    | Redispatch

  predicate Running(row: Row) { Get(row, Status) == State(PROCESSING) }
  predicate Queued(row: Row) { Get(row, Status) == State(QUEUED) }
  predicate Uploading(row: Row) { Get(row, Status) == State(UPLOAD_PENDING) }

  /** The lease has run out, or there is none. */
  predicate Lapsed(row: Row, now: int) {
    var lease := Get(row, LeaseUntil);
    lease.Number? ==> lease.n <= now
  }

  predicate Claimable(row: Row, now: int) {
    Queued(row) || (Running(row) && Lapsed(row, now))
  }

  function Claimed(row: Row, now: int, lease: nat): Row {
    var attempts := Get(row, AttemptCount);
    row[Status := State(PROCESSING)][AttemptCount := Number(if attempts.Number? then attempts.n + 1 else 1)]
       [HeartbeatAt := Number(now)][LeaseUntil := Number(now + lease)][LastError := Null]
  }

  /** Statistics that count nothing. */
  const ZeroStats := Text("zero")

  function Finished(row: Row, now: int): Row {
    row[Status := State(CANCELLED)][CompletedAt := Number(now)][HeartbeatAt := Null][LeaseUntil := Null][LastError := Null]
       [Stats := ZeroStats]
  }

  /** The cancellation finalizer under the row lock: it also deletes what was staged, and the manifest. */
  function FinishedWorld(w: World, now: int): World {
    if !Closing(Get(w.row, Status)) || (Get(w.row, Status) == State(CANCELLED) && Get(w.row, CompletedAt) != Null)
    then w
    else w.(row := Finished(w.row, now), staged := {}, manifest := false)
  }

  /** The row a flush of one worker commits, or None when it raises. */
  function Flushed(row: Row, worker: Worker): Option<Row> {
    if worker.mine == worker.baseline then Some(row)
    else
      match Resolve(ImportRuns, Some(worker.baseline), worker.mine, Some(row))
      case None => None
      case Some(merged) => Some(Stored(ImportRuns, Some(row), merged))
  }

  /** One atomic step at clock reading `now`; a step whose guard fails changes nothing but the clock. */
  function Next(before: World, now: int, act: Act): World {
    var w := before.(clock := now);
    match act
    case Claim(lease) => if Claimable(w.row, now) then w.(row := Claimed(w.row, now, lease)) else w
    case Heartbeat(lease) =>
      if Running(w.row) then w.(row := w.row[HeartbeatAt := Number(now)][LeaseUntil := Number(now + lease)]) else w
    case Load(n) => w.(workers := w.workers[n := Worker(w.row, w.row)])
    case Edit(n, mine) => if n in w.workers then w.(workers := w.workers[n := w.workers[n].(mine := mine)]) else w
    case Rollback(n) =>
      if n in w.workers then w.(workers := w.workers[n := w.workers[n].(mine := w.workers[n].baseline)]) else w
    case Flush(n, batch, manifest) =>
      if n !in w.workers then w
      else
        (match Flushed(w.row, w.workers[n])
         case None => w
         case Some(row) =>
           w.(row := row, staged := w.staged + batch, manifest := w.manifest || manifest,
              workers := if w.workers[n].mine == w.workers[n].baseline then w.workers else w.workers[n := Worker(row, row)]))
    case Die(n) => w.(workers := w.workers - {n})
    case RequestCancel =>
      if Running(w.row) then w.(row := w.row[Status := State(CANCELLING)][CancellationRequestedAt := Number(now)])
      else if Queued(w.row) || Uploading(w.row) then
        FinishedWorld(w.(row := w.row[Status := State(CANCELLED)][CancellationRequestedAt := Number(now)]), now)
      else w
    case FinishCancellation => FinishedWorld(w, now)
    case DeadLetter(message) =>
      if Running(w.row) || Queued(w.row) then
        w.(row := w.row[Status := State(FAILED)][LastError := Text(message)][CompletedAt := Number(now)]
                       [HeartbeatAt := Null][LeaseUntil := Null])
      else w
    case Redispatch =>
      if Running(w.row) && Lapsed(w.row, now) then
        w.(row := w.row[Status := State(QUEUED)][HeartbeatAt := Null][LeaseUntil := Null])
      else w
  }

  ghost predicate Execution(worlds: seq<World>, acts: seq<(int, Act)>) {
    && |worlds| == |acts| + 1
    && forall k | 0 <= k < |acts| ::
         acts[k].0 > worlds[k].clock && worlds[k + 1] == Next(worlds[k], acts[k].0, acts[k].1)
  }

  lemma StepOf(worlds: seq<World>, acts: seq<(int, Act)>, k: nat)
    requires Execution(worlds, acts) && 0 < k <= |acts|
    ensures worlds[k] == Next(worlds[k - 1], acts[k - 1].0, acts[k - 1].1) && acts[k - 1].0 > worlds[k - 1].clock
  {
    assert worlds[k - 1 + 1] == Next(worlds[k - 1], acts[k - 1].0, acts[k - 1].1);
  }

  // ---- Cancellation is sticky, whatever the workers write ----

  predicate Later(before: Value, after: Value) {
    after == before || (before == State(CANCELLING) && after == State(CANCELLED))
  }

  lemma FlushKeepsClosing(row: Row, worker: Worker)
    requires Closing(Get(row, Status)) && Flushed(row, worker).Some?
    ensures Later(Get(row, Status), Get(Flushed(row, worker).value, Status))
  {
    if worker.mine != worker.baseline {
      CancellationSticks(row, Resolve(ImportRuns, Some(worker.baseline), worker.mine, Some(row)).value);
    }
  }

  lemma StepKeepsClosing(w: World, now: int, act: Act)
    requires Closing(Get(w.row, Status))
    ensures Later(Get(w.row, Status), Get(Next(w, now, act).row, Status))
  {
    if act.Flush? && act.worker in w.workers && Flushed(w.row, w.workers[act.worker]).Some? {
      FlushKeepsClosing(w.row, w.workers[act.worker]);
    }
  }

  /** No run of claims, heartbeats, flushes of anything, deaths, dead letters and
      re-dispatches takes a run out of CANCELLING or CANCELLED. */
  lemma {:induction false} CancellationIsSticky(worlds: seq<World>, acts: seq<(int, Act)>, j: nat, k: nat)
    requires Execution(worlds, acts) && j <= k <= |acts|
    requires Closing(Get(worlds[j].row, Status))
    ensures Later(Get(worlds[j].row, Status), Get(worlds[k].row, Status))
  {
    if j != k {
      CancellationIsSticky(worlds, acts, j, k - 1);
      StepOf(worlds, acts, k);
      StepKeepsClosing(worlds[k - 1], acts[k - 1].0, acts[k - 1].1);
    }
  }

  // ---- What workers write ----

  predicate Active(code: Value) {
    code == State(UPLOAD_PENDING) || code == State(QUEUED) || code == State(PROCESSING) || code == State(CANCELLING)
  }
  predicate Leased(code: Value) { code == State(PROCESSING) || code == State(CANCELLING) }
  predicate Ended(code: Value) { !Active(code) && code != State(CANCELLED) }

  /** A checkpoint: progress fields only. */
  predicate Checkpoint(baseline: Row, mine: Row) {
    !Edited(baseline, mine, Status) && !Edited(baseline, mine, LeaseUntil) && !Edited(baseline, mine, CompletedAt)
  }

  /** Completion, failure or the end of a promotion: a final status. */
  predicate Ending(mine: Row) { Ended(Get(mine, Status)) }

  predicate StatusOnly(baseline: Row, mine: Row) {
    !Edited(baseline, mine, LeaseUntil) && !Edited(baseline, mine, CompletedAt)
  }

  /** A worker that saw the cancellation only repeats the status it saw, which may be out of date by now. */
  predicate Echo(row: Row, baseline: Row, mine: Row) {
    Closing(Get(mine, Status)) && Later(Get(mine, Status), Get(row, Status)) && StatusOnly(baseline, mine)
  }

  /** The hand-over of a finished upload to the queue. */
  predicate HandOver(baseline: Row, mine: Row) {
    Uploading(baseline) && Queued(mine) && StatusOnly(baseline, mine)
  }

  /** A pending value that the code may produce over a committed row. */
  predicate Expected(row: Row, baseline: Row, mine: Row) {
    Checkpoint(baseline, mine) || Ending(mine) || HandOver(baseline, mine) || Echo(row, baseline, mine)
  }

  predicate Disciplined(w: World, act: Act) {
    act.Edit? && act.worker in w.workers ==> Expected(w.row, w.workers[act.worker].baseline, act.mine)
  }

  ghost predicate Protocol(worlds: seq<World>, acts: seq<(int, Act)>) {
    && Execution(worlds, acts)
    && (forall k | 0 <= k < |acts| :: Disciplined(worlds[k], acts[k].1))
    && (Queued(worlds[0].row) || Uploading(worlds[0].row)) && Get(worlds[0].row, LeaseUntil) == Null && Get(worlds[0].row, CompletedAt) == Null
    && worlds[0].workers == map[]
  }

  /** A checkpoint flush, whenever it commits, leaves status and lease to the others. */
  lemma CheckpointKeepsLease(row: Row, worker: Worker)
    requires Checkpoint(worker.baseline, worker.mine) && Flushed(row, worker).Some?
    ensures var after := Flushed(row, worker).value;
            forall f | f == Status || f == LeaseUntil || f == CompletedAt :: Get(after, f) == Get(row, f)
  {
    if worker.mine != worker.baseline {
      MergeMeaning(worker.baseline, worker.mine, row);
      var merged := Merge(worker.baseline, worker.mine, row).value;
      forall f ensures Get(Stored(ImportRuns, Some(row), merged), f)
                       == if Kept(ImportRuns, row, merged, f) then Get(row, f) else Get(merged, f) {
        StoredField(ImportRuns, row, merged, f);
      }
    }
  }

  // ---- The invariant ----

  /** Leased statuses have a lease, and active runs are not completed. */
  predicate WellLeased(row: Row) {
    && (Leased(Get(row, Status)) ==> Get(row, LeaseUntil) != Null)
    && (Active(Get(row, Status)) ==> Get(row, CompletedAt) == Null)
  }

  /** What a pending value may hold, given the committed row. */
  predicate Plausible(row: Row, worker: Worker) {
    && WellLeased(worker.baseline)
    && (Ended(Get(worker.baseline, Status)) ==> !Active(Get(row, Status)))
    && Expected(row, worker.baseline, worker.mine)
  }

  /** What holds of the committed row; `lease` is the one last written by a claim or a heartbeat. */
  ghost predicate RowInv(w: World, lease: Option<int>) {
    && WellLeased(w.row)
    && (Leased(Get(w.row, Status)) ==> lease.Some? && Get(w.row, LeaseUntil) == Number(lease.value))
    && (Queued(w.row) && lease.Some? ==> lease.value <= w.clock)
    && (Uploading(w.row) ==> lease.None?)
  }

  ghost predicate Inv(w: World, lease: Option<int>) {
    && RowInv(w, lease)
    && forall n | n in w.workers :: Plausible(w.row, w.workers[n])
  }

  /** How a committed row may relate to the one before it, for the scopes that wait. */
  predicate Advances(row: Row, next: Row) {
    && (Closing(Get(row, Status)) ==> Later(Get(row, Status), Get(next, Status)))
    && (!Active(Get(row, Status)) ==> !Active(Get(next, Status)))
  }

  lemma StaysPlausible(row: Row, next: Row, worker: Worker)
    requires Plausible(row, worker) && Advances(row, next)
    ensures Plausible(next, worker)
  {
  }

  /** A flush of a plausible value ends the run, queues an uploaded one, or leaves the status alone;
      an active run keeps lease and completion time unless it ends. */
  lemma FlushOutcome(row: Row, worker: Worker)
    requires WellLeased(row) && Plausible(row, worker) && Flushed(row, worker).Some?
    ensures var after := Flushed(row, worker).value;
            || ((Get(after, Status) == Get(row, Status) || (Uploading(row) && Queued(after)))
                && (Active(Get(row, Status)) ==> Get(after, LeaseUntil) == Get(row, LeaseUntil)
                                                 && Get(after, CompletedAt) == Get(row, CompletedAt)))
            || (Ended(Get(after, Status)) && !Closing(Get(row, Status)))
  {
    if Checkpoint(worker.baseline, worker.mine) {
      CheckpointKeepsLease(row, worker);
    } else {
      ThreeFields(worker.baseline, worker.mine, row, Merge(worker.baseline, worker.mine, row).value);
    }
  }

  lemma ThreeFields(baseline: Row, mine: Row, row: Row, merged: Row)
    requires Merge(baseline, mine, row) == Some(merged)
    ensures forall f | f == Status || f == LeaseUntil || f == CompletedAt ::
              && !Clashes(baseline, mine, row, f)
              && Get(merged, f) == (if Edited(baseline, mine, f) then Get(mine, f) else Get(row, f))
              && Get(Stored(ImportRuns, Some(row), merged), f)
                 == (if Guarded(row, merged) then Get(row, f) else Get(merged, f))
  {
    MergeMeaning(baseline, mine, row);
    StoredField(ImportRuns, row, merged, Status);
    StoredField(ImportRuns, row, merged, LeaseUntil);
    StoredField(ImportRuns, row, merged, CompletedAt);
  }

  /** The lease written by this step, if it is a successful claim or heartbeat. */
  function Written(w: World, now: int, act: Act): Option<int> {
    match act
    case Claim(lease) => if Claimable(w.row, now) then Some(now + lease) else None
    case Heartbeat(lease) => if Running(w.row) then Some(now + lease) else None
    case _ => None
  }

  lemma FlushKeepsRow(w: World, now: int, n: nat, batch: set<nat>, manifest: bool, lease: Option<int>)
    requires Inv(w, lease) && now > w.clock && n in w.workers && Flushed(w.row, w.workers[n]).Some?
    ensures RowInv(Next(w, now, Flush(n, batch, manifest)), lease)
    ensures Advances(w.row, Next(w, now, Flush(n, batch, manifest)).row)
  {
    FlushOutcome(w.row, w.workers[n]);
    if Closing(Get(w.row, Status)) { FlushKeepsClosing(w.row, w.workers[n]); }
  }

  lemma StepKeepsRow(w: World, now: int, act: Act, lease: Option<int>)
    requires Inv(w, lease) && now > w.clock
    ensures var written := Written(w, now, act);
            RowInv(Next(w, now, act), if written.Some? then written else lease)
    ensures Advances(w.row, Next(w, now, act).row)
  {
    if act.Flush? && act.worker in w.workers && Flushed(w.row, w.workers[act.worker]).Some? {
      FlushKeepsRow(w, now, act.worker, act.batch, act.manifest, lease);
    }
  }

  lemma StepKeepsWorkers(w: World, now: int, act: Act, lease: Option<int>, n: nat)
    requires Inv(w, lease) && Disciplined(w, act) && n in Next(w, now, act).workers
    requires Advances(w.row, Next(w, now, act).row) && WellLeased(Next(w, now, act).row)
    ensures Plausible(Next(w, now, act).row, Next(w, now, act).workers[n])
  {
    var next := Next(w, now, act);
    if n in w.workers { StaysPlausible(w.row, next.row, w.workers[n]); }
  }

  lemma StepKeepsInv(w: World, now: int, act: Act, lease: Option<int>)
    requires Inv(w, lease) && now > w.clock && Disciplined(w, act)
    ensures var written := Written(w, now, act);
            Inv(Next(w, now, act), if written.Some? then written else lease)
  {
    StepKeepsRow(w, now, act, lease);
    forall n | n in Next(w, now, act).workers
      ensures Plausible(Next(w, now, act).row, Next(w, now, act).workers[n])
    {
      StepKeepsWorkers(w, now, act, lease, n);
    }
  }

  /** The lease last written before step k. */
  ghost function LastLease(worlds: seq<World>, acts: seq<(int, Act)>, k: nat): Option<int>
    requires k <= |acts| && |acts| < |worlds|
  {
    if k == 0 then None
    else
      var written := Written(worlds[k - 1], acts[k - 1].0, acts[k - 1].1);
      if written.Some? then written else LastLease(worlds, acts, k - 1)
  }

  lemma {:induction false} Invariant(worlds: seq<World>, acts: seq<(int, Act)>, k: nat)
    requires Protocol(worlds, acts) && k <= |acts|
    ensures Inv(worlds[k], LastLease(worlds, acts, k))
  {
    if k > 0 {
      Invariant(worlds, acts, k - 1);
      StepOf(worlds, acts, k);
      StepKeepsInv(worlds[k - 1], acts[k - 1].0, acts[k - 1].1, LastLease(worlds, acts, k - 1));
    }
  }

  /** A claim succeeds only at or after the end of the lease last written by any claim or heartbeat before it. */
  lemma LeaseExclusive(worlds: seq<World>, acts: seq<(int, Act)>, k: nat)
    requires Protocol(worlds, acts) && k < |acts|
    requires acts[k].1.Claim? && Claimable(worlds[k].row, acts[k].0)
    ensures var last := LastLease(worlds, acts, k); last.Some? ==> acts[k].0 >= last.value
  {
    Invariant(worlds, acts, k);
    assert acts[k].0 > worlds[k].clock;
  }

  // ---- What the other steps do ----

  /** Only a queued run, or a processing one whose lease has run out, is claimed; then it is processed under the new lease. */
  lemma ClaimTakesLease(w: World, now: int, lease: nat)
    ensures var next, until := Next(w, now, Claim(lease)), Get(w.row, LeaseUntil);
            if Get(w.row, Status) == State(QUEUED) || (Get(w.row, Status) == State(PROCESSING) && (until.Number? ==> until.n <= now)) then
              Get(next.row, Status) == State(PROCESSING) && Get(next.row, LeaseUntil) == Number(now + lease)
            else next == w.(clock := now)
  {
  }

  /** A dead letter ends a queued or processing run as failed, and no other. */
  lemma DeadLetterFails(w: World, now: int, message: string)
    ensures var next := Next(w, now, DeadLetter(message));
            if Get(w.row, Status) in {State(QUEUED), State(PROCESSING)} then
              Get(next.row, Status) == State(FAILED) && Get(next.row, LastError) == Text(message)
              && Get(next.row, CompletedAt) == Number(now) && Get(next.row, LeaseUntil) == Null
            else next == w.(clock := now)
  {
  }

  /** Only a processing run whose lease has run out is queued again. */
  lemma RedispatchQueues(w: World, now: int)
    ensures var next, until := Next(w, now, Redispatch), Get(w.row, LeaseUntil);
            if Get(w.row, Status) == State(PROCESSING) && (until.Number? ==> until.n <= now) then
              Get(next.row, Status) == State(QUEUED) && Get(next.row, LeaseUntil) == Null
            else next == w.(clock := now)
  {
  }

  /** After a rollback a worker has nothing to write: its flush leaves the row, whatever was committed meanwhile. */
  lemma RollbackWritesNothing(w: World, now: int, n: nat, row: Row, later: int)
    requires n in w.workers
    ensures var rolled := Next(w, now, Rollback(n)).(row := row);
            n in rolled.workers && Next(rolled, later, Flush(n, {}, false)).row == row
  {
  }

  // ---- What a cancel request achieves ----

  /** In every run: a request ends a queued or uploading run at once, with no lease, nothing staged and no manifest; it
      marks a processing one, which keeps its lease; and it leaves every other one as it is. */
  lemma CancelRequestEnds(worlds: seq<World>, acts: seq<(int, Act)>, k: nat)
    requires Protocol(worlds, acts) && k < |acts| && acts[k].1.RequestCancel?
    ensures var w, now, next := worlds[k], acts[k].0, worlds[k + 1];
            if Get(w.row, Status) in {State(UPLOAD_PENDING), State(QUEUED)} then
              && Get(next.row, Status) == State(CANCELLED) && Get(next.row, CompletedAt) == Number(now)
              && Get(next.row, LeaseUntil) == Null && Get(next.row, CancellationRequestedAt) == Number(now)
              && next.staged == {} && !next.manifest
            else if Get(w.row, Status) == State(PROCESSING) then
              && Get(next.row, Status) == State(CANCELLING) && Get(next.row, LeaseUntil) == Get(w.row, LeaseUntil)
              && next.staged == w.staged && next.manifest == w.manifest
            else next == w.(clock := now)
  {
    Invariant(worlds, acts, k);
    StepOf(worlds, acts, k + 1);
  }

  /** After an accepted request no claim ever succeeds again, and no dead letter or re-dispatch changes the run's status but its end. */
  lemma CancelledIsNeverClaimed(worlds: seq<World>, acts: seq<(int, Act)>, j: nat, k: nat)
    requires Protocol(worlds, acts) && j < k < |acts| && acts[j].1.RequestCancel?
    requires Get(worlds[j].row, Status) in {State(UPLOAD_PENDING), State(QUEUED), State(PROCESSING)}
    ensures Get(worlds[k].row, Status) in {State(CANCELLING), State(CANCELLED)}
    ensures acts[k].1.Claim? || acts[k].1.Heartbeat? || acts[k].1.DeadLetter? || acts[k].1.Redispatch? ==>
              worlds[k + 1] == worlds[k].(clock := acts[k].0)
  {
    CancelRequestEnds(worlds, acts, j);
    CancellationIsSticky(worlds, acts, j + 1, k);
    StepOf(worlds, acts, k + 1);
  }

  // ---- Cancellation leaves nothing staged ----

  /** The commit that makes the run CANCELLED leaves no staged candidate and no manifest. */
  lemma CancelledCommitIsClean(worlds: seq<World>, acts: seq<(int, Act)>, k: nat)
    requires Protocol(worlds, acts) && k < |acts|
    requires Get(worlds[k].row, Status) != State(CANCELLED) && Get(worlds[k + 1].row, Status) == State(CANCELLED)
    ensures worlds[k + 1].staged == {} && !worlds[k + 1].manifest
  {
    Invariant(worlds, acts, k);
    StepIsClean(worlds[k], acts[k].0, acts[k].1, LastLease(worlds, acts, k));
  }

  lemma StepIsClean(w: World, now: int, act: Act, lease: Option<int>)
    requires Inv(w, lease)
    requires Get(w.row, Status) != State(CANCELLED) && Get(Next(w, now, act).row, Status) == State(CANCELLED)
    ensures Next(w, now, act).staged == {} && !Next(w, now, act).manifest
  {
    if act.Flush? && act.worker in w.workers && Flushed(w.row, w.workers[act.worker]).Some? {
      FlushOutcome(w.row, w.workers[act.worker]);
    }
  }

  /** Only that commit: what a worker stages is not guarded by the status of the run. A checkpoint that comes
      later stages nothing new exactly when its batch is staged already or its progress clashes. */
  lemma LateCheckpointStages(w: World, now: int, n: nat, batch: set<nat>, manifest: bool)
    requires n in w.workers && Checkpoint(w.workers[n].baseline, w.workers[n].mine)
    requires Get(w.row, Status) == State(CANCELLED)
    ensures var next := Next(w, now, Flush(n, batch, manifest));
            && Get(next.row, Status) == State(CANCELLED)
            && (next.staged == w.staged
                <==> batch <= w.staged || exists f :: Clashes(w.workers[n].baseline, w.workers[n].mine, w.row, f))
  {
    var worker := w.workers[n];
    FlushRaisesExactly(w.row, worker);
    if Flushed(w.row, worker).Some? { CheckpointKeepsLease(w.row, worker); }
    assert w.staged + batch == w.staged <==> batch <= w.staged;
  }

  lemma FlushRaisesExactly(row: Row, worker: Worker)
    ensures Flushed(row, worker).None? <==> exists f :: Clashes(worker.baseline, worker.mine, row, f)
  {
    MergeMeaning(worker.baseline, worker.mine, row);
  }

  function Counted(row: Row): Row { row[Other("featureCount") := Number(1)] }

  /** A worker claims and loads the run, and others cancel and finalize it. */
  lemma CancelledMeanwhile(w: World) returns (w1: World, w2: World, w3: World, w4: World)
    requires Queued(w.row) && Get(w.row, CompletedAt) == Null && w.workers == map[] && w.clock == 0
    ensures w1 == Next(w, 1, Claim(60)) && w2 == Next(w1, 2, Load(0))
    ensures w3 == Next(w2, 3, RequestCancel) && w4 == Next(w3, 4, FinishCancellation)
    ensures w1.clock == 1 && w2.clock == 2 && w3.clock == 3 && w4.clock == 4
    ensures w4.workers == map[0 := Worker(w2.row, w2.row)] && w4.staged == {}
    ensures Get(w4.row, Status) == State(CANCELLED)
    ensures Get(w4.row, Other("featureCount")) == Get(w2.row, Other("featureCount")) == Get(w.row, Other("featureCount"))
  {
    w1 := Next(w, 1, Claim(60));
    w2 := Next(w1, 2, Load(0));
    w3 := Next(w2, 3, RequestCancel);
    w4 := Next(w3, 4, FinishCancellation);
  }

  /** The worker then commits the checkpoint it was at. */
  lemma StagedAgain(w: World, base: Row) returns (w5: World, w6: World)
    requires w.workers == map[0 := Worker(base, base)] && w.staged == {} && w.clock == 4
    requires Get(w.row, Status) == State(CANCELLED)
    requires Get(w.row, Other("featureCount")) == Get(base, Other("featureCount"))
    ensures w5 == Next(w, 5, Edit(0, Counted(base))) && w6 == Next(w5, 6, Flush(0, {0}, false))
    ensures w5.clock == 5 && w5.row == w.row && w5.staged == {}
    ensures Get(w6.row, Status) == State(CANCELLED) && w6.staged == {0}
    ensures Checkpoint(base, Counted(base))
  {
    w5 := Next(w, 5, Edit(0, Counted(base)));
    w6 := Next(w5, 6, Flush(0, {0}, false));
    assert w5.workers[0] == Worker(base, Counted(base));
    LateCheckpointStages(w5, 6, 0, {0}, false);
  }

  /** A run that ends cancelled with a staged candidate. */
  lemma CancelledRunIsStagedAgain(row: Row) returns (worlds: seq<World>, acts: seq<(int, Act)>)
    requires Queued(row) && Get(row, LeaseUntil) == Null && Get(row, CompletedAt) == Null
    ensures Protocol(worlds, acts) && worlds[0].row == row && |acts| == 6
    ensures Get(worlds[4].row, Status) == State(CANCELLED) && worlds[4].staged == {}
    ensures Get(worlds[6].row, Status) == State(CANCELLED) && worlds[6].staged == {0}
  {
    var w0 := World(row, {}, false, map[], 0);
    var w1, w2, w3, w4 := CancelledMeanwhile(w0);
    var w5, w6 := StagedAgain(w4, w2.row);
    worlds := [w0, w1, w2, w3, w4, w5, w6];
    acts := [(1, Claim(60)), (2, Load(0)), (3, RequestCancel), (4, FinishCancellation),
             (5, Edit(0, Counted(w2.row))), (6, Flush(0, {0}, false))];
  }
}
