/** The edits that reviews, promotion jobs and replays make to a staged candidate. */
module CandidateEdits {
  import opened Options
  import opened Rows
  import P = Promotion
  import R = Replay

  /** A candidate as one scope read it, and its pending value. */
  class CandidateRecord {
    const baseline: Row
    var mine: Row

    constructor (row: Row)
      ensures baseline == mine == row
    {
      baseline, mine := row, row;
    }

    /** Reviewing a candidate leaves a promoted one alone. */
    method Confirm(reviewer: Value, note: Value, now: int)
      requires P.Reviewing(baseline, mine)
      modifies this
      ensures P.Reviewing(baseline, mine)
      ensures Get(old(mine), ValidationStatus) == State(PROCESSED) ==> mine == old(mine)
      ensures Get(old(mine), ValidationStatus) != State(PROCESSED) ==> mine == old(mine)[ValidationStatus := State(CONFIRMED)][ValidationNote := note]
                                                          [ValidatedBy := reviewer][ValidatedAt := Number(now)]
    {
      if Get(mine, ValidationStatus) == State(PROCESSED) {
        return;
      }
      mine := mine[ValidationStatus := State(CONFIRMED)][ValidationNote := note];
      mine := mine[ValidatedBy := reviewer][ValidatedAt := Number(now)];
    }

    /** Queueing for promotion; a linked candidate only after its job failed on it. */
    method Enqueue(processor: Value, target: Value, queue: Value, failedBefore: bool, now: int) returns (accepted: bool)
      requires P.Reviewing(baseline, mine)
      modifies this
      ensures P.Reviewing(baseline, mine) && (!accepted ==> mine == old(mine))
      ensures accepted <==> Get(old(mine), ValidationStatus) != State(PROCESSED)
                            && (Get(old(mine), ProcessingQueueId) == Null
                                || (Get(old(mine), ValidationStatus) == State(CONFIRMED) && failedBefore))
      ensures accepted ==> mine == old(mine)[ValidationStatus := State(CONFIRMED)][ValidatedBy := processor][ValidatedAt := Number(now)]
                                            [TargetStatus := target][ProcessingQueueId := queue]
    {
      if Get(mine, ValidationStatus) == State(PROCESSED) {
        return false;
      }
      if Get(mine, ProcessingQueueId) != Null
         && (Get(mine, ValidationStatus) != State(CONFIRMED) || !failedBefore) {
        return false;
      }
      mine := mine[ValidationStatus := State(CONFIRMED)][ValidatedBy := processor][ValidatedAt := Number(now)];
      mine := mine[TargetStatus := target][ProcessingQueueId := queue];
      return true;
    }

    /** The mark of a promotion, on a candidate just read. */
    method Promote(target: Value, entity: Value, payload: Value, queue: Value, now: int) returns (marked: bool)
      requires mine == baseline && entity != Null
      modifies this
      ensures marked <==> Get(baseline, ValidationStatus) == State(CONFIRMED)
                          && (Get(baseline, ProcessingQueueId) == Null || Get(baseline, ProcessingQueueId) == queue)
      ensures marked ==> P.Promoting(baseline, mine)
                         && mine == baseline[EntityPayload := payload][ValidationStatus := State(PROCESSED)][TargetStatus := target]
                                            [ProcessedEntityId := entity][ProcessedAt := Number(now)]
      ensures !marked ==> mine == baseline
    {
      if Get(mine, ValidationStatus) != State(CONFIRMED) {
        return false;
      }
      if Get(mine, ProcessingQueueId) != Null && Get(mine, ProcessingQueueId) != queue {
        return false;
      }
      mine := mine[EntityPayload := payload][ValidationStatus := State(PROCESSED)][TargetStatus := target];
      mine := mine[ProcessedEntityId := entity][ProcessedAt := Number(now)];
      return true;
    }
  }

  /** A replay counts as a review: it never marks, unmarks or dates a candidate. */
  lemma ReplayIsAReview(src: R.Source, i: nat, previous: Row, incoming: Row)
    requires R.Placed(src, i, previous) && R.Unreviewed(src, i, incoming)
    ensures P.Reviewing(previous, R.Replayed(previous, incoming))
    ensures P.Proper(None, incoming)
  {
    R.ReplayedFields(src, i, previous, incoming, ProcessedAt);
    R.ReplayedFields(src, i, previous, incoming, ProcessedEntityId);
    R.ReplayedFields(src, i, previous, incoming, ValidationStatus);
    assert R.ReviewField(ProcessedAt) && R.ReviewField(ProcessedEntityId);
  }
}
