/** The statements that move an import run, in place; each is a step of the run protocol. */
module ImportRunRecords {
  import opened Rows
  import opened RunProtocol

  /** The committed run row and what is staged for it. Methods here hold the row lock. */
  class RunRecord {
    var row: Row
    var staged: set<nat>
    var manifest: bool
    var clock: int

    constructor (row: Row)
      ensures this.row == row && staged == {} && !manifest && clock == 0
    {
      this.row, staged, manifest, clock := row, {}, false, 0;
    }

    predicate Unfinished(row: Row) {
      Get(row, Status) == State(CANCELLING) || (Get(row, Status) == State(CANCELLED) && Get(row, CompletedAt) == Null)
    }

    /** Cancelled for good: no lease, nothing staged and no manifest. */
    ghost predicate Ended(now: int)
      reads this
    {
      && Get(row, Status) == State(CANCELLED) && Get(row, CompletedAt) == Number(now)
      && Get(row, LeaseUntil) == Null && Get(row, HeartbeatAt) == Null && Get(row, Stats) == ZeroStats
      && staged == {} && !manifest
    }

    ghost function Seen(workers: map<nat, Worker>): World
      reads this
    {
      World(row, staged, manifest, workers, clock)
    }

    method ClaimImportRun(now: int, lease: nat) returns (claimed: bool)
      modifies this
      ensures claimed <==> Get(old(row), Status) == State(QUEUED)
                           || (Get(old(row), Status) == State(PROCESSING)
                               && (Get(old(row), LeaseUntil).Number? ==> Get(old(row), LeaseUntil).n <= now))
      ensures claimed ==> Get(row, Status) == State(PROCESSING) && Get(row, LeaseUntil) == Number(now + lease)
                          && Get(row, HeartbeatAt) == Number(now) && Get(row, LastError) == Null
                          && Get(row, AttemptCount) == Number(if Get(old(row), AttemptCount).Number? then Get(old(row), AttemptCount).n + 1 else 1)
      ensures forall f | !claimed || f !in {Status, LeaseUntil, HeartbeatAt, LastError, AttemptCount} :: Get(row, f) == Get(old(row), f)
      ensures staged == old(staged) && manifest == old(manifest)
      ensures forall workers :: Seen(workers) == Next(old(Seen(workers)), now, Claim(lease))
    {
      clock := now;
      var status, until := Get(row, Status), Get(row, LeaseUntil);
      claimed := status == State(QUEUED)
                 || (status == State(PROCESSING) && (!until.Number? || until.n <= now));
      if claimed {
        var attempts := Get(row, AttemptCount);
        row := row[Status := State(PROCESSING)][AttemptCount := Number(if attempts.Number? then attempts.n + 1 else 1)];
        row := row[HeartbeatAt := Number(now)][LeaseUntil := Number(now + lease)][LastError := Null];
      }
    }

    /** One beat of the heartbeat thread: it stops once the run is not processing. */
    method HeartbeatImportRun(now: int, lease: nat) returns (stop: bool, cancelled: bool)
      modifies this
      ensures stop == (Get(old(row), Status) != State(PROCESSING)) && cancelled == (Get(old(row), Status) == State(CANCELLING))
      ensures row == if stop then old(row) else old(row)[HeartbeatAt := Number(now)][LeaseUntil := Number(now + lease)]
      ensures staged == old(staged) && manifest == old(manifest)
      ensures forall workers :: Seen(workers) == Next(old(Seen(workers)), now, Heartbeat(lease))
    {
      clock := now;
      var status := Get(row, Status);
      stop, cancelled := status != State(PROCESSING), status == State(CANCELLING);
      if !stop {
        row := row[HeartbeatAt := Number(now)][LeaseUntil := Number(now + lease)];
      }
    }

    /** Ends a run that is cancelling, or was cancelled and not yet finished; any other it leaves alone. */
    method FinishImportCancellation(now: int)
      modifies this
      ensures if Unfinished(old(row)) then Ended(now) else row == old(row) && staged == old(staged) && manifest == old(manifest)
      ensures forall f | f !in {Status, CompletedAt, HeartbeatAt, LeaseUntil, LastError, Stats} :: Get(row, f) == Get(old(row), f)
      ensures forall workers :: Seen(workers) == Next(old(Seen(workers)), now, FinishCancellation)
    {
      clock := now;
      var status := Get(row, Status);
      if status != State(CANCELLING) && status != State(CANCELLED) {
        return;
      }
      if status == State(CANCELLED) && Get(row, CompletedAt) != Null {
        return;
      }
      row := row[Status := State(CANCELLED)][CompletedAt := Number(now)];
      row := row[HeartbeatAt := Null][LeaseUntil := Null][LastError := Null][Stats := ZeroStats];
      staged, manifest := {}, false;
    }

    /** Accepted for a run that is uploading, queued, processing or already cancelling; refused once it has ended. */
    method CancelImport(now: int) returns (accepted: bool)
      modifies this
      ensures accepted <==> Get(old(row), Status) in {State(UPLOAD_PENDING), State(QUEUED), State(PROCESSING), State(CANCELLING), State(CANCELLED)}
      ensures Get(old(row), Status) in {State(UPLOAD_PENDING), State(QUEUED)} && Get(old(row), CompletedAt) == Null ==>
                Ended(now) && Get(row, CancellationRequestedAt) == Number(now)
      ensures Get(old(row), Status) == State(PROCESSING) ==>
                row == old(row)[Status := State(CANCELLING)][CancellationRequestedAt := Number(now)]
                && staged == old(staged) && manifest == old(manifest)
      ensures !accepted || Get(old(row), Status) in {State(CANCELLING), State(CANCELLED)} ==>
                row == old(row) && staged == old(staged) && manifest == old(manifest)
      ensures forall workers :: Seen(workers) == Next(old(Seen(workers)), now, RequestCancel)
    {
      clock := now;
      var status := Get(row, Status);
      if status == State(CANCELLING) || status == State(CANCELLED) {
        return true;
      }
      if status != State(UPLOAD_PENDING) && status != State(QUEUED) && status != State(PROCESSING) {
        return false;
      }
      var nextStatus := if status == State(PROCESSING) then State(CANCELLING) else State(CANCELLED);
      row := row[Status := nextStatus][CancellationRequestedAt := Number(now)];
      if status != State(PROCESSING) {
        FinishImportCancellation(now);
      }
      return true;
    }
  }

  /** A worker's scope, as the code that ends a run edits it. */
  class WorkerScope {
    var baseline: Row
    var mine: Row

    constructor (row: Row)
      ensures baseline == mine == row
    {
      baseline, mine := row, row;
    }

    ghost predicate Allowed(row: Row)
      reads this
    {
      Expected(row, baseline, mine)
    }

    /** The hand-over of a finished upload; one that was cancelled meanwhile only takes the status over. */
    method QueueUploaded(committed: Row, now: int) returns (cancelled: bool)
      requires Uploading(baseline) && Checkpoint(baseline, mine)
      modifies this
      ensures cancelled == Closing(Get(committed, Status)) && baseline == old(baseline) && Allowed(committed)
      ensures Get(mine, Status) == if cancelled then Get(committed, Status) else State(QUEUED)
      ensures cancelled ==> mine == old(mine)[Status := Get(committed, Status)]
      ensures !cancelled ==> mine == old(mine)[Status := State(QUEUED)][Other("uploadCompletedAt") := Number(now)][LastError := Null]
    {
      if Get(committed, Status) == State(CANCELLING) || Get(committed, Status) == State(CANCELLED) {
        mine := mine[Status := Get(committed, Status)];
        return true;
      }
      mine := mine[Status := State(QUEUED)][Other("uploadCompletedAt") := Number(now)][LastError := Null];
      return false;
    }

    /** Completion, unless the committed row asks for cancellation; then only the status is taken over. */
    method CompleteImportRun(committed: Row, now: int, errors: nat, stats: Value) returns (cancelled: bool)
      requires Checkpoint(baseline, mine)
      modifies this
      ensures cancelled == (Get(committed, Status) == State(CANCELLING)) && baseline == old(baseline)
      ensures Allowed(committed) && (cancelled ==> mine == old(mine)[Status := State(CANCELLING)])
      ensures !cancelled ==> Ending(mine) && Get(mine, LeaseUntil) == Null && Get(mine, CompletedAt) == Number(now)
                             && Get(mine, Stats) == stats
                             && Get(mine, Status) == State(if errors == 0 then PREPROCESSED else PREPROCESSED_WITH_ERRORS)
    {
      if Get(committed, Status) == State(CANCELLING) {
        mine := mine[Status := State(CANCELLING)];
        return true;
      }
      mine := mine[CompletedAt := Number(now)][Stats := stats][HeartbeatAt := Null][LeaseUntil := Null];
      mine := mine[LastError := Null][Status := State(if errors == 0 then PREPROCESSED else PREPROCESSED_WITH_ERRORS)];
      return false;
    }

    /** Failure never touches a run that is known to be cancelling, here or in the database. */
    method FailImportRun(committed: Row, now: int, error: string, stats: Value)
      requires Checkpoint(baseline, mine)
      modifies this
      ensures Allowed(committed) && baseline == old(baseline)
      ensures Closing(Get(committed, Status)) ==> mine == old(mine)[Status := Get(committed, Status)]
      ensures !Closing(Get(committed, Status)) && Closing(Get(old(mine), Status)) ==> mine == old(mine)
      ensures !Closing(Get(committed, Status)) && !Closing(Get(old(mine), Status)) ==>
                Get(mine, Status) == State(FAILED) && Get(mine, LeaseUntil) == Null && Get(mine, LastError) == Text(error)
                && Get(mine, CompletedAt) == Number(now) && Get(mine, Stats) == stats
    {
      if Get(committed, Status) == State(CANCELLING) || Get(committed, Status) == State(CANCELLED) {
        mine := mine[Status := Get(committed, Status)];
        return;
      }
      if Get(mine, Status) == State(CANCELLING) || Get(mine, Status) == State(CANCELLED) {
        return;
      }
      mine := mine[Status := State(FAILED)][CompletedAt := Number(now)][Stats := stats];
      mine := mine[HeartbeatAt := Null][LeaseUntil := Null][LastError := Text(error)];
    }
  }
}
