/** Promotion of staged candidates into entities, over the interleavings of any scopes. */
module Promotion {
  import opened Options
  import opened Rows
  import opened Scopes
  import opened Overlay
  import opened QuiescentFlush
  import opened Interleavings

  predicate Processed(row: Row) { Get(row, ValidationStatus) == State(PROCESSED) }

  /** The time of a candidate's promotion and the entity it became. */
  datatype Mark = Mark(date: Value, entity: Value)

  function MarkOf(row: Row): Mark { Mark(Get(row, ProcessedAt), Get(row, ProcessedEntityId)) }

  /** A candidate is processed exactly when it carries the time of its promotion, and exactly when it names its entity. */
  predicate Dated(row: Row) {
    (Processed(row) <==> MarkOf(row).date != Null) && (Processed(row) <==> MarkOf(row).entity != Null)
  }

  /** The pending value of a promotion: a confirmed candidate, marked. */
  predicate Promoting(baseline: Row, mine: Row) {
    Get(baseline, ValidationStatus) == State(CONFIRMED) && Processed(mine) && Dated(mine)
  }

  /** Reviews, queueing and replays never mark or unmark a candidate. */
  predicate Reviewing(baseline: Row, mine: Row) {
    !Edited(baseline, mine, ProcessedAt) && !Edited(baseline, mine, ProcessedEntityId)
    && (Edited(baseline, mine, ValidationStatus) ==> !Processed(baseline) && !Processed(mine))
  }

  predicate Proper(baseline: Option<Row>, mine: Row) {
    match baseline
    case None => !Processed(mine) && Dated(mine)
    case Some(before) => Promoting(before, mine) || Reviewing(before, mine)
  }

  /** The candidate's pending value whenever some scope flushes it. */
  ghost predicate ProperFlushes(worlds: seq<World>, acts: seq<(nat, Act)>, c: Id)
    requires |worlds| == |acts| + 1
  {
    forall k | 0 <= k < |acts| && acts[k].1.Flush? ::
      var s := worlds[k].ScopeOf(acts[k].0);
      c in s.Changed() ==> Proper(s.Baseline(c), s.loaded[c])
  }

  /** Step k commits a promotion of the candidate. */
  ghost predicate Promotes(worlds: seq<World>, acts: seq<(nat, Act)>, c: Id, k: nat)
    requires |worlds| == |acts| + 1 && k < |acts|
  {
    CommitsPromotion(worlds[k].db, worlds[k].ScopeOf(acts[k].0), acts[k].1, c)
  }

  predicate CommitsPromotion(db: Store, s: Scope, act: Act, c: Id) {
    && act.Flush?
    && c in s.Changed() && s.Baseline(c).Some? && Promoting(s.Baseline(c).value, s.loaded[c])
    && (forall id | id in act.order :: id in s.loaded)
    && FlushRows(db.rows, s, act.order).Some?
  }

  /** The mark of a pending promotion. */
  function Pended(w: World, n: nat, c: Id): Mark {
    var s := w.ScopeOf(n);
    if c in s.loaded then MarkOf(s.loaded[c]) else Mark(Null, Null)
  }

  /** Direct statements delete candidates but do not edit them. */
  predicate Spares(rows: map<Id, Row>, after: map<Id, Row>, c: Id) {
    c in after ==> Lookup(after, c) == Lookup(rows, c)
  }

  /** What a run must keep about one candidate: nobody goes for its place, and every scope flushes a
      proper value of it. */
  ghost predicate Setting(worlds: seq<World>, acts: seq<(nat, Act)>, c: Id) {
    && Execution(worlds, acts) && c.kind == ImportCandidates
    && UnclaimedSoFar(worlds, acts, |acts|, c)
    && ProperFlushes(worlds, acts, c)
    && (forall k | 0 <= k < |acts| && acts[k].1.Sql? :: Spares(worlds[k].db.rows, acts[k].1.rows, c))
    && (c in worlds[0].db.rows ==> Dated(worlds[0].db.rows[c]))
  }

  /** One flush keeps a candidate marked exactly when processed, and once marked keeps the mark. */
  lemma ResolvedDated(baseline: Option<Row>, mine: Row, latest: Option<Row>)
    requires Proper(baseline, mine)
    requires baseline.Some? ==> Dated(baseline.value)
    requires latest.Some? ==> Dated(latest.value)
    requires Resolve(ImportCandidates, baseline, mine, latest).Some?
    ensures var row := Resolve(ImportCandidates, baseline, mine, latest).value;
            && Dated(row)
            && (latest.Some? && Processed(latest.value) ==> Processed(row) && MarkOf(row) == MarkOf(latest.value))
            && (baseline.Some? && Promoting(baseline.value, mine) ==> Processed(row) && MarkOf(row) == MarkOf(mine))
  {
    if baseline.Some? { MarkFields(baseline.value, mine, latest.value); }
  }

  lemma MarkFields(baseline: Row, mine: Row, latest: Row)
    requires Merge(baseline, mine, latest).Some?
    ensures var row := Merge(baseline, mine, latest).value;
            forall f | f == ValidationStatus || f == ProcessedAt || f == ProcessedEntityId ::
              && !Clashes(baseline, mine, latest, f)
              && Get(row, f) == if Edited(baseline, mine, f) then Get(mine, f) else Get(latest, f)
  {
    MergeMeaning(baseline, mine, latest);
  }

  ghost predicate DatedUpTo(worlds: seq<World>, c: Id, k: nat) {
    forall i | 0 <= i <= k && i < |worlds| && c in worlds[i].db.rows :: Dated(worlds[i].db.rows[c])
  }

  predicate PromotedAs(rows: map<Id, Row>, c: Id, mark: Mark) {
    c in rows && Processed(rows[c]) && MarkOf(rows[c]) == mark
  }

  lemma BaselineDated(worlds: seq<World>, acts: seq<(nat, Act)>, c: Id, k: nat, n: nat)
    requires Setting(worlds, acts, c) && k <= |acts|
    requires DatedUpTo(worlds, c, k)
    requires worlds[k].ScopeOf(n).Baseline(c).Some?
    ensures Dated(worlds[k].ScopeOf(n).Baseline(c).value)
  {
    var read := BaselineWasRead(worlds, acts, k, n, c);
  }

  lemma FlushDated(db: Store, s: Scope, order: seq<Id>, now: int, c: Id)
    requires c.kind == ImportCandidates && Enumerates(order, s.Changed()) && Unclaimed(db.rows, s, c)
    requires c in s.Changed() ==> Proper(s.Baseline(c), s.loaded[c])
    requires c in db.rows ==> Dated(db.rows[c])
    requires s.Baseline(c).Some? ==> Dated(s.Baseline(c).value)
    requires FlushRows(db.rows, s, order).Some?
    requires c in FlushedStore(db, s, FlushRows(db.rows, s, order).value, false, now).rows
    ensures var after := FlushedStore(db, s, FlushRows(db.rows, s, order).value, false, now).rows;
            && Dated(after[c])
            && (c in db.rows && Processed(db.rows[c]) ==> PromotedAs(after, c, MarkOf(db.rows[c])))
            && (CommitsPromotion(db, s, Flush(order, now), c) ==> PromotedAs(after, c, MarkOf(s.loaded[c])))
  {
    var p := FlushRows(db.rows, s, order).value;
    PublishKeepsRows(AfterDeletes(db, p.rows, s.deleted), s.events, s.deleted, now, c);
    FlushedRow(db.rows, s, order, c);
    if c in order {
      ResolvedDated(s.Baseline(c), s.loaded[c], Lookup(db.rows, c));
    }
  }

  lemma OtherActKeeps(db: Store, s: Scope, act: Act, c: Id)
    requires c.kind == ImportCandidates && s.Valid() && Legal(s, act) && !act.Flush?
    requires c in Effect(db, s, act).0.rows && (act.Sql? ==> Spares(db.rows, act.rows, c))
    ensures c in db.rows && Effect(db, s, act).0.rows[c] == db.rows[c]
  {
    if !act.Discard? && !act.Sql? { OtherBaseline(db, s, act, c); }
  }

  /** What one act does to a dated candidate that it does not delete. */
  lemma ActDated(db: Store, s: Scope, act: Act, c: Id)
    requires c.kind == ImportCandidates && s.Valid() && Legal(s, act)
    requires act.Flush? ==> Unclaimed(db.rows, s, c) && (c in s.Changed() ==> Proper(s.Baseline(c), s.loaded[c]))
    requires c in db.rows ==> Dated(db.rows[c])
    requires s.Baseline(c).Some? ==> Dated(s.Baseline(c).value)
    requires c in Effect(db, s, act).0.rows && (act.Sql? ==> Spares(db.rows, act.rows, c))
    ensures var after := Effect(db, s, act).0.rows;
            && Dated(after[c])
            && (c in db.rows && Processed(db.rows[c]) ==> PromotedAs(after, c, MarkOf(db.rows[c])))
            && (CommitsPromotion(db, s, act, c) ==> PromotedAs(after, c, MarkOf(s.loaded[c])))
  {
    if act.Flush? {
      if FlushRows(db.rows, s, act.order).Some? { FlushDated(db, s, act.order, act.now, c); }
    } else {
      OtherActKeeps(db, s, act, c);
    }
  }

  lemma StepDated(worlds: seq<World>, acts: seq<(nat, Act)>, c: Id, k: nat)
    requires Setting(worlds, acts, c) && k < |acts| && DatedUpTo(worlds, c, k)
    requires c in worlds[k + 1].db.rows
    ensures Dated(worlds[k + 1].db.rows[c])
    ensures c in worlds[k].db.rows && Processed(worlds[k].db.rows[c]) ==>
              PromotedAs(worlds[k + 1].db.rows, c, MarkOf(worlds[k].db.rows[c]))
    ensures Promotes(worlds, acts, c, k) ==> PromotedAs(worlds[k + 1].db.rows, c, Pended(worlds[k], acts[k].0, c))
  {
    var w, n, act := worlds[k], acts[k].0, acts[k].1;
    assert Step(w, n, act, worlds[k + 1]);
    if w.ScopeOf(n).Baseline(c).Some? { BaselineDated(worlds, acts, c, k, n); }
    ScopesStayValid(worlds, acts, k, n);
    ActDated(w.db, w.ScopeOf(n), act, c);
  }

  lemma {:induction false} AlwaysDated(worlds: seq<World>, acts: seq<(nat, Act)>, c: Id, k: nat)
    requires Setting(worlds, acts, c) && k <= |acts|
    ensures DatedUpTo(worlds, c, k)
  {
    if k > 0 {
      AlwaysDated(worlds, acts, c, k - 1);
      if c in worlds[k].db.rows { StepDated(worlds, acts, c, k - 1); }
    }
  }

  /** Between two indices no row is created under the identity. */
  ghost predicate NotCreated(worlds: seq<World>, c: Id, j: nat, k: nat) {
    forall m | j < m <= k && m < |worlds| && c in worlds[m].db.rows :: c in worlds[m - 1].db.rows
  }

  lemma PromotedStep(worlds: seq<World>, acts: seq<(nat, Act)>, c: Id, k: nat, mark: Mark)
    requires Setting(worlds, acts, c) && 0 < k <= |acts| && PromotedAs(worlds[k - 1].db.rows, c, mark)
    requires c in worlds[k].db.rows
    ensures PromotedAs(worlds[k].db.rows, c, mark)
  {
    AlwaysDated(worlds, acts, c, k - 1);
    assert worlds[k] == worlds[k - 1 + 1];
    StepDated(worlds, acts, c, k - 1);
  }

  lemma {:induction false} PromotedPersists(worlds: seq<World>, acts: seq<(nat, Act)>, c: Id, j: nat, k: nat, mark: Mark)
    requires Setting(worlds, acts, c) && j <= k <= |acts| && NotCreated(worlds, c, j, k)
    requires c in worlds[j].db.rows ==> PromotedAs(worlds[j].db.rows, c, mark)
    ensures c in worlds[k].db.rows ==> PromotedAs(worlds[k].db.rows, c, mark)
  {
    if j != k {
      PromotedPersists(worlds, acts, c, j, k - 1, mark);
      if c in worlds[k].db.rows { PromotedStep(worlds, acts, c, k, mark); }
    }
  }

  /** Once promoted, a candidate keeps its mark until its row is deleted. */
  lemma StaysPromoted(worlds: seq<World>, acts: seq<(nat, Act)>, c: Id, j: nat, k: nat)
    requires Setting(worlds, acts, c) && j < k <= |acts| && Promotes(worlds, acts, c, j) && NotCreated(worlds, c, j + 1, k)
    ensures c in worlds[k].db.rows ==> PromotedAs(worlds[k].db.rows, c, Pended(worlds[j], acts[j].0, c))
  {
    AlwaysDated(worlds, acts, c, j);
    if c in worlds[j + 1].db.rows { StepDated(worlds, acts, c, j); }
    PromotedPersists(worlds, acts, c, j + 1, k, Pended(worlds[j], acts[j].0, c));
  }

  /** However promotions crash, are redelivered or overlap: with distinct clock readings, no
      candidate is promoted by two commits unless its row is deleted and created again. */
  lemma PromotedAtMostOnce(worlds: seq<World>, acts: seq<(nat, Act)>, c: Id, j: nat, k: nat)
    requires Setting(worlds, acts, c) && j < k < |acts| && Promotes(worlds, acts, c, j) && NotCreated(worlds, c, j + 1, k)
    requires Pended(worlds[k], acts[k].0, c).date != Pended(worlds[j], acts[j].0, c).date
    ensures !Promotes(worlds, acts, c, k)
  {
    if Promotes(worlds, acts, c, k) {
      var s := worlds[k].ScopeOf(acts[k].0);
      assert Step(worlds[k], acts[k].0, acts[k].1, worlds[k + 1]);
      if c !in worlds[k].db.rows {
        StaleRowRaises(worlds[k].db.rows, s, acts[k].1.order, c);
      } else {
        StaysPromoted(worlds, acts, c, j, k);
        AlwaysDated(worlds, acts, c, k);
        BaselineDated(worlds, acts, c, k, acts[k].0);
        assert Clashes(s.Baseline(c).value, s.loaded[c], worlds[k].db.rows[c], ProcessedAt);
        ClashRaises(worlds[k].db.rows, s, acts[k].1.order, c, ProcessedAt);
      }
    }
  }

  /** The entity and the mark commit together: a promoting flush stores both rows, the entity
      at the revision after the one the worker read (or as a new row), and a raising one neither. */
  lemma PromotionCommitsBoth(worlds: seq<World>, acts: seq<(nat, Act)>, c: Id, e: Id, k: nat)
    requires Setting(worlds, acts, c) && k < |acts| && Promotes(worlds, acts, c, k)
    requires var s := worlds[k].ScopeOf(acts[k].0); e.kind == Entities && e in s.Changed()
    ensures var s := worlds[k].ScopeOf(acts[k].0);
            var p := FlushRows(worlds[k].db.rows, s, acts[k].1.order).value;
            && PromotedAs(p.rows, c, MarkOf(s.loaded[c]))
            && e in p.rows && SameFor(Entities, p.rows[e], s.loaded[e])
            && (match s.Baseline(e)
                case None => Get(p.rows[e], Version) == Number(1) || Lookup(worlds[k].db.rows, e) == Some(s.loaded[e])
                case Some(before) => e in worlds[k].db.rows
                                     && Get(worlds[k].db.rows[e], Version) == Get(before, Version)
                                     && Get(p.rows[e], Version) == Number(Revision(before) + 1))
  {
    var w, n, act := worlds[k], acts[k].0, acts[k].1;
    var s := w.ScopeOf(n);
    assert Step(w, n, act, worlds[k + 1]);
    FlushedRow(w.db.rows, s, act.order, c);
    FlushedRow(w.db.rows, s, act.order, e);
    AlwaysDated(worlds, acts, c, k);
    BaselineDated(worlds, acts, c, k, n);
    ResolvedDated(s.Baseline(c), s.loaded[c], Lookup(w.db.rows, c));
  }
}
