/** At-least-once delivery: what one delivery has seen of its owning row when it is acknowledged. */
module Delivery {
  import opened Options

  datatype Status =
    | QUEUED | PROCESSING | CANCELLING | CANCELLED | PREPROCESSED | COMPLETED | FAILED | AWAITING_CONFIRMATION

  datatype Kind = Preprocessing | Promotion | Deletion

  datatype Outcome = Processed | Deferred | Raised
  datatype Verdict = Ack | Nak | Term

  predicate Pending(status: Status) { status == QUEUED || status == PROCESSING }

  /** The owning row is missing or outside QUEUED and PROCESSING. */
  predicate Settled(row: Option<Status>) { row != Some(QUEUED) && row != Some(PROCESSING) }

  predicate Closing(row: Option<Status>) { row == Some(CANCELLING) || row == Some(CANCELLED) }

  /** A shared row, and whether this delivery ever saw or wrote it settled. Other
      processes may change the row before every access. */
  class OwningRow {
    const kind: Kind
    var row: Option<Status>
    ghost var settled: bool
    /** Whether a claim of this delivery was refused. */
    ghost var refused: bool

    constructor (kind: Kind, row: Option<Status>)
      ensures this.kind == kind && this.row == row && !settled && !refused
    {
      this.kind, this.row, settled, refused := kind, row, false, false;
    }

    method Others()
      modifies this`row
    {
      var any: Option<Status> := *;
      row := any;
    }

    /** Reads the committed status. */
    method Observe() returns (seen: Option<Status>)
      modifies this
      ensures seen == row && settled == (old(settled) || Settled(seen)) && refused == old(refused)
    {
      Others();
      seen := row;
      settled := settled || Settled(seen);
    }

    /** The claiming update: only a queued row or a lapsed lease. */
    method Claim() returns (claimed: bool)
      modifies this
      ensures settled == old(settled) && refused == (old(refused) || !claimed)
      ensures claimed ==> row == Some(PROCESSING)
    {
      Others();
      var lapsed: bool := *;
      claimed := row == Some(QUEUED) || (row == Some(PROCESSING) && lapsed);
      if claimed {
        row := Some(PROCESSING);
      }
      refused := refused || !claimed;
    }

    /** Flushes a status edited from `baseline`: refused on a clash or a deleted row, and kept out by
        the guard of a cancelling run. The row is read back in the same transaction. */
    method Flush(baseline: Status, mine: Status) returns (committed: bool, now: Status)
      modifies this
      ensures refused == old(refused) && settled == (old(settled) || (committed && Settled(Some(now))))
      ensures committed ==> row == Some(now)
      ensures committed && baseline != mine ==> now == mine || (kind == Preprocessing && Closing(Some(now)))
    {
      Others();
      if row == None || (baseline != mine && row.value != baseline && row.value != mine) {
        return false, mine;
      }
      if baseline != mine && !(kind == Preprocessing && Closing(row) && mine != CANCELLED) {
        row := Some(mine);
      }
      now := row.value;
      settled := settled || !Pending(now);
      return true, now;
    }

    /** The update of a dead letter, in the transaction that records it. */
    method FailPending()
      modifies this
      ensures Settled(row) && settled && refused == old(refused)
    {
      Others();
      if row == Some(QUEUED) || row == Some(PROCESSING) {
        row := Some(FAILED);
      }
      settled := true;
    }
  }

  // ---- Preprocessing ----

  datatype Ending = Finished | Cancelled | Broken

  /** The batches, with the heartbeat thread watching for a cancellation; each checkpoint
      edits progress fields only. */
  method RunBatches(run: OwningRow, batches: nat) returns (ending: Ending)
    modifies run
    ensures run.refused == old(run.refused)
    ensures old(run.settled) || ending == Cancelled ==> run.settled
  {
    for i := 0 to batches
      invariant run.refused == old(run.refused) && (old(run.settled) ==> run.settled)
    {
      var beat: bool := *;
      if beat {
        var seen := run.Observe();
        if seen == Some(CANCELLING) {
          return Cancelled;
        }
      }
      var broken: bool := *;
      if broken {
        return Broken;
      }
      var committed, _ := run.Flush(PROCESSING, PROCESSING);
      if !committed {
        return Broken;
      }
    }
    return Finished;
  }

  method FinishCancellation(run: OwningRow) returns (outcome: Outcome)
    requires run.settled
    modifies run
    ensures run.settled && outcome != Deferred && run.refused == old(run.refused)
  {
    var seen := run.Observe();
    if seen == None {
      return Raised;
    }
    if !Closing(seen) {
      return Processed;
    }
    var committed, _ := run.Flush(seen.value, CANCELLED);
    return if committed then Processed else Raised;
  }

  /** `baseline` and `mine` are the status the scope read and its pending one. */
  method FailImportRun(run: OwningRow, baseline: Status, mine: Status) returns (outcome: Outcome)
    requires !Pending(baseline) || Closing(Some(mine)) ==> run.settled
    modifies run
    ensures outcome == Processed || old(run.settled) ==> run.settled
    ensures outcome != Deferred && run.refused == old(run.refused)
  {
    var current := run.Observe();
    var status := if Closing(current) then current.value else if Closing(Some(mine)) then mine else FAILED;
    var committed, _ := run.Flush(baseline, status);
    return if committed then Processed else Raised;
  }

  /** After a raise, `baseline` and `mine` are what the scope is left with. */
  method ProcessImportRun(run: OwningRow, batches: nat) returns (outcome: Outcome, baseline: Status, mine: Status)
    modifies run
    ensures outcome == Processed ==> run.settled
    ensures outcome != Deferred && run.refused == old(run.refused)
    ensures !Pending(baseline) || Closing(Some(mine)) ==> run.settled
  {
    baseline, mine := PROCESSING, PROCESSING;
    var ending := RunBatches(run, batches);
    if ending == Finished {
      var refreshed := run.Observe();
      ending := if refreshed == Some(CANCELLING) then Cancelled else if refreshed == None then Broken else Finished;
      if ending == Finished {
        baseline, mine := refreshed.value, refreshed.value;
        var current := run.Observe();
        if current == Some(CANCELLING) {
          ending := Cancelled;
        } else {
          var committed, _ := run.Flush(baseline, PREPROCESSED);
          if committed {
            return Processed, baseline, mine;
          }
          ending := Broken;
        }
      }
    }
    if ending == Cancelled {
      mine := CANCELLING;
      outcome := FinishCancellation(run);
      return;
    }
    var latest := run.Observe();
    if latest == None {
      return Raised, baseline, mine;
    }
    baseline, mine := latest.value, latest.value;
    outcome := FailImportRun(run, baseline, mine);
  }

  method RecoverImportRun(run: OwningRow, hasSource: bool, sourceFound: bool, batches: nat) returns (outcome: Outcome)
    requires !run.refused
    modifies run
    ensures outcome == Processed ==> run.settled
    ensures outcome == Deferred ==> run.refused
  {
    var loaded := run.Observe();
    if loaded == None {
      return Processed;
    }
    if loaded == Some(CANCELLING) {
      outcome := FinishCancellation(run);
      return;
    }
    if !Pending(loaded.value) {
      return Processed;
    }
    if !hasSource {
      outcome := FailImportRun(run, loaded.value, loaded.value);
      return;
    }
    var claimed := run.Claim();
    if !claimed {
      return Deferred;
    }
    if !sourceFound {
      // A row with pending edits keeps the baseline from before the claim.
      var refreshed := run.Observe();
      var kept: bool := *;
      if !kept && refreshed == None {
        return Raised;
      }
      var baseline := if kept then loaded.value else refreshed.value;
      outcome := FailImportRun(run, baseline, baseline);
      return;
    }
    var baseline, mine;
    outcome, baseline, mine := ProcessImportRun(run, batches);
    if outcome == Raised {
      outcome := FailImportRun(run, baseline, mine);
    }
  }

  // ---- Promotion and deletion ----

  method ProcessImportQueue(queue: OwningRow, entries: nat) returns (outcome: Outcome)
    requires !queue.refused
    modifies queue
    ensures outcome == Processed ==> queue.settled
    ensures outcome == Deferred ==> queue.refused
  {
    var claimed := queue.Claim();
    if !claimed {
      var current := queue.Observe();
      return if current == None || current == Some(COMPLETED) || current == Some(FAILED) then Processed else Deferred;
    }
    var loaded := queue.Observe();
    if loaded == None || loaded == Some(COMPLETED) {
      return Processed;
    }
    var committed, baseline := queue.Flush(loaded.value, PROCESSING);
    if !committed {
      return Raised;
    }
    var errors := 0;
    for i := 0 to entries
    {
      var rejected: bool, aborted: bool := *, *;
      if aborted {
        return Raised;
      }
      if rejected {
        errors := errors + 1;
      }
    }
    committed, baseline := queue.Flush(baseline, if errors == 0 then COMPLETED else FAILED);
    return if committed then Processed else Raised;
  }

  method ExecuteDeletionJob(job: OwningRow, authorized: bool) returns (outcome: Outcome)
    requires !job.refused
    modifies job
    ensures outcome == Processed ==> job.settled
    ensures outcome == Deferred ==> job.refused
  {
    var loaded := job.Observe();
    if loaded == None {
      return Raised;
    }
    if loaded == Some(COMPLETED) || loaded == Some(FAILED) {
      return Processed;
    }
    var claimed := job.Claim();
    if !claimed {
      return Deferred;
    }
    loaded := job.Observe();
    if loaded == None || !authorized {
      return Raised;
    }
    var committed, baseline := job.Flush(loaded.value, PROCESSING);
    if !committed {
      return Raised;
    }
    var cascaded: bool := *;
    committed, baseline := job.Flush(baseline, if cascaded then COMPLETED else PROCESSING);
    return if committed && cascaded then Processed else Raised;
  }

  // ---- The message loop ----

  /** What the envelope of a message says about its work: whether it parses, names the row in its payload
      or aggregate, and names it in its aggregate. */
  datatype Message = Message(wellFormed: bool, hasKey: bool, named: bool, delivered: nat)

  /** What the handler meets besides the row. */
  datatype Work = Work(hasSource: bool, sourceFound: bool, authorized: bool, steps: nat)

  method Handle(row: OwningRow, work: Work) returns (outcome: Outcome)
    requires !row.refused
    modifies row
    ensures outcome == Processed ==> row.settled
    ensures outcome == Deferred ==> row.refused
  {
    match row.kind {
      case Preprocessing => outcome := RecoverImportRun(row, work.hasSource, work.sourceFound, work.steps);
      case Promotion => outcome := ProcessImportQueue(row, work.steps);
      case Deletion => outcome := ExecuteDeletionJob(row, work.authorized);
    }
  }

  method WorkStillPending(row: OwningRow) returns (pending: bool)
    modifies row
    ensures !pending ==> row.settled
    ensures pending ==> row.row.Some? && (row.row.value in {QUEUED, PROCESSING} || (row.kind == Preprocessing && row.row.value == CANCELLING))
    ensures row.refused == old(row.refused)
  {
    var seen := row.Observe();
    pending := seen.Some? && (Pending(seen.value) || (row.kind == Preprocessing && seen.value == CANCELLING));
  }

  /** One delivery. It is acknowledged only after it saw its row missing or saw or wrote it settled, and
      given up only in a transaction that leaves an import or promotion row settled. `recorded` says whether its inbox
      record commits, `handled` what the handler answered, if it ran. */
  method Consume(row: OwningRow, message: Message, work: Work, alreadyProcessed: bool, recorded: bool, maxDeliveries: nat)
    returns (verdict: Verdict, ghost handled: Option<Outcome>)
    requires !row.settled && !row.refused
    modifies row
    ensures verdict == Ack && message.hasKey ==> row.settled
    ensures verdict == Ack ==> message.wellFormed
    ensures verdict == Term && message.named && row.kind != Deletion ==> Settled(row.row)
    ensures verdict == Term ==> message.delivered >= maxDeliveries
    ensures verdict == Nak ==> message.delivered < maxDeliveries
    ensures handled == Some(Processed) && recorded ==> verdict == Ack
    ensures verdict == Ack <==> message.wellFormed && if handled.Some? then handled == Some(Processed) && recorded else alreadyProcessed
    ensures message.wellFormed && !alreadyProcessed ==> handled.Some?
    ensures message.wellFormed && !message.hasKey ==> if alreadyProcessed then handled == None else handled == Some(Processed)
    ensures handled == Some(Deferred) ==> row.refused
    ensures verdict != Ack ==> verdict == if message.delivered >= maxDeliveries then Term else Nak
  {
    handled := None;
    if message.wellFormed {
      if alreadyProcessed {
        var pending := false;
        if message.hasKey {
          pending := WorkStillPending(row);
        }
        if !pending {
          return Ack, handled;
        }
      }
      var outcome := Processed;
      if message.hasKey {
        outcome := Handle(row, work);
      }
      handled := Some(outcome);
      if outcome == Processed && recorded {
        return Ack, handled;
      }
    }
    if message.delivered >= maxDeliveries {
      if message.named && row.kind != Deletion {
        row.FailPending();
      }
      return Term, handled;
    }
    return Nak, handled;
  }
}
