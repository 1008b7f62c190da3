/** Concrete runs: a promotion, and what becomes of a candidate when a late worker stages its place again. */
module RivalRuns {
  import opened Options
  import opened Rows
  import opened Scopes
  import opened Overlay
  import opened QuiescentFlush
  import opened Interleavings
  import opened Promotion

  // ---- Legs of a run ----

  function Stepped(w: World, n: nat, act: Act): World
    requires act.Flush? ==> forall id | id in act.order :: id in w.ScopeOf(n).loaded
  {
    var (db, s) := Effect(w.db, w.ScopeOf(n), act);
    World(db, w.scopes[n := s])
  }

  predicate ProperAct(w: World, n: nat, act: Act, c: Id) {
    var s := w.ScopeOf(n);
    !act.Sql? && (act.Flush? && c in s.Changed() ==> Proper(s.Baseline(c), s.loaded[c]))
  }

  ghost predicate Fair(w: World, n: nat, act: Act, next: World, c: Id) {
    Step(w, n, act, next) && ProperAct(w, n, act, c)
  }

  ghost predicate FairStep(worlds: seq<World>, acts: seq<(nat, Act)>, c: Id, k: nat)
    requires k < |acts| && k + 1 < |worlds|
  {
    Fair(worlds[k], acts[k].0, acts[k].1, worlds[k + 1], c)
  }

  /** A stretch of a run without direct statements, in which every scope flushes a proper value of the candidate. */
  ghost predicate FairLeg(worlds: seq<World>, acts: seq<(nat, Act)>, c: Id) {
    |worlds| == |acts| + 1 && forall k | 0 <= k < |acts| :: FairStep(worlds, acts, c, k)
  }

  lemma FairRunMeans(worlds: seq<World>, acts: seq<(nat, Act)>, c: Id)
    requires FairLeg(worlds, acts, c) && worlds[0].scopes == map[]
    ensures Execution(worlds, acts) && ProperFlushes(worlds, acts, c) && forall k | 0 <= k < |acts| :: !acts[k].1.Sql?
  {
    forall k | 0 <= k < |acts|
      ensures Step(worlds[k], acts[k].0, acts[k].1, worlds[k + 1]) && ProperAct(worlds[k], acts[k].0, acts[k].1, c)
    {
      assert FairStep(worlds, acts, c, k);
    }
  }

  lemma Joined(front: seq<World>, acts: seq<(nat, Act)>, back: seq<World>, more: seq<(nat, Act)>, c: Id)
    requires FairLeg(front, acts, c) && FairLeg(back, more, c) && front[|acts|] == back[0]
    ensures FairLeg(front + back[1..], acts + more, c)
  {
    var worlds, all := front + back[1..], acts + more;
    forall k | 0 <= k < |all|
      ensures FairStep(worlds, all, c, k)
    {
      if k < |acts| {
        assert worlds[k] == front[k] && worlds[k + 1] == front[k + 1] && all[k] == acts[k];
        assert FairStep(front, acts, c, k);
      } else {
        var i := k - |acts|;
        assert worlds[k] == back[i] && worlds[k + 1] == back[i + 1] && all[k] == more[i];
        assert FairStep(back, more, c, i);
      }
    }
  }

  lemma FrontAt(front: seq<World>, back: seq<World>, k: nat)
    requires k < |front| && back != []
    ensures (front + back[1..])[k] == front[k]
  {
  }

  lemma BackAt(front: seq<World>, back: seq<World>, k: nat)
    requires front != [] && back != [] && front[|front| - 1] == back[0] && k < |back|
    ensures (front + back[1..])[|front| - 1 + k] == back[k]
  {
  }

  /** An edit and the flush of it. */
  lemma Double(w: World, n: nat, op: Op, flush: Act, c: Id)
    requires Legal(w.ScopeOf(n), Use(op))
    requires var v := Stepped(w, n, Use(op)); Legal(v.ScopeOf(n), flush) && ProperAct(v, n, flush, c)
    ensures var v := Stepped(w, n, Use(op)); FairLeg([w, v, Stepped(v, n, flush)], [(n, Use(op)), (n, flush)], c)
  {
  }

  /** Two edits and a flush. */
  lemma Triple(w: World, n: nat, op: Op, other: Op, flush: Act, c: Id)
    requires Legal(w.ScopeOf(n), Use(op)) && Legal(Stepped(w, n, Use(op)).ScopeOf(n), Use(other))
    requires var x := Stepped(Stepped(w, n, Use(op)), n, Use(other)); Legal(x.ScopeOf(n), flush) && ProperAct(x, n, flush, c)
    ensures var v := Stepped(w, n, Use(op));
            var x := Stepped(v, n, Use(other));
            FairLeg([w, v, x, Stepped(x, n, flush)], [(n, Use(op)), (n, Use(other)), (n, flush)], c)
  {
    var v := Stepped(w, n, Use(op));
    Double(v, n, other, flush, c);
    var back, more := [v, Stepped(v, n, Use(other)), Stepped(Stepped(v, n, Use(other)), n, flush)], [(n, Use(other)), (n, flush)];
    assert Fair(w, n, Use(op), v, c);
    Preceded(w, n, Use(op), back, more, c);
    assert [w] + back == [w, v, back[1], back[2]] && [(n, Use(op))] + more == [(n, Use(op)), (n, Use(other)), (n, flush)];
  }

  lemma Preceded(w: World, n: nat, act: Act, back: seq<World>, more: seq<(nat, Act)>, c: Id)
    requires FairLeg(back, more, c) && Fair(w, n, act, back[0], c)
    ensures FairLeg([w] + back, [(n, act)] + more, c)
  {
    var worlds, all := [w] + back, [(n, act)] + more;
    forall k | 0 <= k < |all|
      ensures FairStep(worlds, all, c, k)
    {
      if k > 0 {
        assert worlds[k] == back[k - 1] && worlds[k + 1] == back[k] && all[k] == more[k - 1];
        assert FairStep(back, more, c, k - 1);
      }
    }
  }

  // ---- Flushes of one and of two rows ----

  lemma FlushedRows(db: Store, s: Scope, order: seq<Id>, now: int)
    requires (forall id | id in order :: id in s.loaded) && s.deleted == {} && s.events == [] && FlushRows(db.rows, s, order).Some?
    ensures Effect(db, s, Flush(order, now)).0.rows == FlushRows(db.rows, s, order).value.rows
  {
    var p := FlushRows(db.rows, s, order).value;
    assert p.rows - {} == p.rows;
  }

  /** A scope that holds only one candidate. */
  function Holding(c: Id, base: Option<Row>, mine: Row): Scope {
    Scope(map[c := mine], match base case None => Baselines(map[], {c}) case Some(row) => Baselines(map[c := row], {}), {}, [])
  }

  lemma OneFlush(db: Store, s: Scope, c: Id, now: int)
    requires c in s.loaded && s.deleted == {} && s.events == []
    ensures FlushRows(db.rows, s, [c]) == FlushOne(Progress(db.rows, map[]), s, c)
    ensures FlushRows(db.rows, s, [c]).Some? ==> Effect(db, s, Flush([c], now)).0.rows == FlushRows(db.rows, s, [c]).value.rows
  {
    assert [c][..0] == [];
    if FlushRows(db.rows, s, [c]).Some? { FlushedRows(db, s, [c], now); }
  }

  /** Rows of this example: a place, no links, and no explicit nulls. */
  ghost predicate Plain(row: Row, run: string) {
    && Place(row) == (Text(run), Number(0)) && ExistingEntityId !in row && ProcessingQueueId !in row
    && forall f | f in row :: row[f] != Null
  }

  /** Over an unchanged row the merge gives the own value. */
  lemma MergeOver(base: Row, mine: Row)
    requires (forall f | f in base :: base[f] != Null) && forall f | f in mine :: mine[f] != Null
    ensures Merge(base, mine, base) == Some(mine)
  {
    MergeMeaning(base, mine, base);
    assert Carried(base, mine, base, base.Keys + mine.Keys) == mine;
  }

  lemma OverlaidWhole(stored: Row, row: Row, run: string)
    requires Plain(stored, run) && Plain(row, run)
    ensures Overlaid(stored, row, CandidateLink) == row
  {
  }

  /** Nobody else is staged at the place of this example. */
  ghost predicate Free(rows: Table, run: string, c: Id) {
    forall j | j in rows && j.kind == ImportCandidates && j != c :: Place(rows[j]) != (Text(run), Number(0))
  }

  lemma StagedFlush(db: Store, c: Id, row: Row, run: string, now: int)
    requires c.kind == ImportCandidates && c !in db.rows && Plain(row, run) && Free(db.rows, run, c)
    ensures var s := Holding(c, None, row);
            Legal(s, Flush([c], now)) && Effect(db, s, Flush([c], now)).0.rows == db.rows[c := row] && s.Changed() == {c}
  {
    var s := Holding(c, None, row);
    OneFlush(db, s, c, now);
    assert forall j :: !Holds(db.rows, j, row);
  }

  lemma CandidateTurn(p: Progress, s: Scope, c: Id, base: Row, mine: Row, run: string)
    requires c.kind == ImportCandidates && Lookup(p.rows, c) == Some(base) && Plain(base, run) && Plain(mine, run)
    requires s.Baseline(c) == Some(base) && Lookup(s.loaded, c) == Some(mine)
    ensures FlushOne(p, s, c).Some? && FlushOne(p, s, c).value.rows == p.rows[c := mine]
  {
    MergeOver(base, mine);
    WriteHere(p.rows, c, mine);
  }

  lemma EditedFlush(db: Store, c: Id, base: Row, mine: Row, run: string, now: int)
    requires c.kind == ImportCandidates && Lookup(db.rows, c) == Some(base) && base != mine && Plain(base, run) && Plain(mine, run)
    ensures var s := Holding(c, Some(base), mine);
            Legal(s, Flush([c], now)) && Effect(db, s, Flush([c], now)).0.rows == db.rows[c := mine] && s.Changed() == {c}
  {
    var s := Holding(c, Some(base), mine);
    OneFlush(db, s, c, now);
    CandidateTurn(Progress(db.rows, map[]), s, c, base, mine, run);
  }

  lemma RivalTurn(rows: Table, s: Scope, c: Id, d: Id, row: Row, run: string)
    requires c.kind == d.kind == ImportCandidates && c in rows && d !in rows && Plain(rows[c], run) && Plain(row, run)
    requires s.Baseline(d) == None && Lookup(s.loaded, d) == Some(row)
    ensures var p := FlushOne(Progress(rows, map[]), s, d); p.Some? && p.value.rows == rows[c := row]
  {
    assert Holds(rows, c, row);
    OverlaidWhole(rows[c], row, run);
  }

  lemma RivalFlush(db: Store, c: Id, d: Id, row: Row, run: string, now: int)
    requires c.kind == d.kind == ImportCandidates && c in db.rows && d !in db.rows && Plain(db.rows[c], run) && Plain(row, run)
    ensures var s := Holding(d, None, row);
            && Legal(s, Flush([d], now)) && Effect(db, s, Flush([d], now)).0.rows == db.rows[c := row]
            && !Unclaimed(db.rows, s, c) && s.Changed() == {d}
  {
    var s := Holding(d, None, row);
    OneFlush(db, s, d, now);
    RivalTurn(db.rows, s, c, d, row, run);
    assert Rival(db.rows, s, c, d);
  }

  // ---- Phases of the runs ----

  /** Only this row was written, and only this scope moved. */
  ghost predicate Rewritten(w: World, after: World, n: nat, c: Id, row: Row) {
    && Lookup(after.db.rows, c) == Some(row) && (forall k | k != c :: Lookup(after.db.rows, k) == Lookup(w.db.rows, k))
    && forall m: nat | m != n :: after.ScopeOf(m) == w.ScopeOf(m)
  }

  lemma StagingGives(rows: Table, c: Id, row: Row)
    ensures Perform(rows, Fresh(), StageItem(c, row, true)).0 == Holding(c, None, row)
  {
    var s := Staged(Fresh(), c, row, true);
    assert s.loaded == map[c := row] && s.original.rows == map[] && s.original.absent == {c} && s.deleted == {};
  }

  lemma EditingGives(rows: Table, c: Id, base: Row, mine: Row)
    requires Lookup(rows, c) == Some(base)
    ensures Perform(rows, Fresh(), EditItem(c, mine)).0 == Holding(c, Some(base), mine)
  {
    var t := AfterLoad(rows, Fresh(), c);
    assert t.loaded == map[c := base] && t.original.rows == map[c := base] && t.original.absent == {};
    assert AfterEdit(t, c, mine).loaded == map[c := mine];
  }

  /** A worker stages the candidate and commits it. */
  lemma StageFirst(w: World, n: nat, c: Id, row: Row, run: string, now: int) returns (worlds: seq<World>)
    requires c.kind == ImportCandidates && Proper(None, row) && Plain(row, run)
    requires w.ScopeOf(n) == Fresh() && c !in w.db.rows && Free(w.db.rows, run, c)
    ensures FairLeg(worlds, [(n, Use(StageItem(c, row, true))), (n, Flush([c], now))], c) && worlds[0] == w
    ensures Rewritten(w, worlds[2], n, c, row)
  {
    StagingGives(w.db.rows, c, row);
    StagedFlush(w.db, c, row, run, now);
    Double(w, n, StageItem(c, row, true), Flush([c], now), c);
    var v := Stepped(w, n, Use(StageItem(c, row, true)));
    worlds := [w, v, Stepped(v, n, Flush([c], now))];
  }

  /** Somebody reads the candidate, edits it and commits. */
  lemma EditOnce(w: World, n: nat, c: Id, base: Row, mine: Row, run: string, now: int) returns (worlds: seq<World>)
    requires c.kind == ImportCandidates && Proper(Some(base), mine) && base != mine && Plain(base, run) && Plain(mine, run)
    requires w.ScopeOf(n) == Fresh() && Lookup(w.db.rows, c) == Some(base)
    ensures FairLeg(worlds, [(n, Use(EditItem(c, mine))), (n, Flush([c], now))], c) && worlds[0] == w
    ensures worlds[1].db == w.db && Rewritten(w, worlds[2], n, c, mine)
  {
    EditingGives(w.db.rows, c, base, mine);
    EditedFlush(w.db, c, base, mine, run, now);
    Double(w, n, EditItem(c, mine), Flush([c], now), c);
    var v := Stepped(w, n, Use(EditItem(c, mine)));
    worlds := [w, v, Stepped(v, n, Flush([c], now))];
  }

  /** A worker stages the same place under another identity and commits. */
  lemma StageAgain(w: World, n: nat, c: Id, d: Id, row: Row, run: string, now: int) returns (worlds: seq<World>)
    requires c.kind == d.kind == ImportCandidates && Plain(row, run)
    requires w.ScopeOf(n) == Fresh() && c in w.db.rows && d !in w.db.rows && Plain(w.db.rows[c], run)
    ensures FairLeg(worlds, [(n, Use(StageItem(d, row, true))), (n, Flush([d], now))], c) && worlds[0] == w
    ensures worlds[1].db == w.db && Rewritten(w, worlds[2], n, c, row)
    ensures c !in worlds[1].ScopeOf(n).loaded && !Unclaimed(worlds[1].db.rows, worlds[1].ScopeOf(n), c)
  {
    StagingGives(w.db.rows, d, row);
    RivalFlush(w.db, c, d, row, run, now);
    Double(w, n, StageItem(d, row, true), Flush([d], now), c);
    var v := Stepped(w, n, Use(StageItem(d, row, true)));
    worlds := [w, v, Stepped(v, n, Flush([d], now))];
  }

  /** The scope of a promotion: the entity it assigned and the candidate it marked. */
  function Pair(c: Id, base: Row, mine: Row, e: Id, stored: Option<Row>, entity: Row): Scope {
    Scope(map[e := entity][c := mine],
          match stored case None => Baselines(map[c := base], {e}) case Some(row) => Baselines(map[e := row][c := base], {}), {}, [])
  }

  lemma AssigningGives(rows: Table, e: Id, entity: Row)
    ensures var s := Perform(rows, Fresh(), SetItem(e, entity)).0;
            && s.loaded == map[e := entity] && s.deleted == {} && s.events == []
            && s.original == match Lookup(rows, e) case None => Baselines(map[], {e}) case Some(row) => Baselines(map[e := row], {})
  {
  }

  lemma PairGiven(rows: Table, c: Id, base: Row, mine: Row, e: Id, entity: Row)
    requires c.kind == ImportCandidates && e.kind == Entities && Lookup(rows, c) == Some(base)
    ensures Perform(rows, Perform(rows, Fresh(), SetItem(e, entity)).0, EditItem(c, mine)).0 == Pair(c, base, mine, e, Lookup(rows, e), entity)
  {
    AssigningGives(rows, e, entity);
    var s := Perform(rows, Fresh(), SetItem(e, entity)).0;
    var want := Pair(c, base, mine, e, Lookup(rows, e), entity);
    var t := AfterLoad(rows, s, c);
    assert c !in s.loaded && t.original == want.original;
    assert AfterEdit(t, c, mine).loaded == want.loaded;
  }

  lemma PairChanged(c: Id, base: Row, mine: Row, e: Id, stored: Option<Row>, entity: Row)
    requires c.kind == ImportCandidates && e.kind == Entities && base != mine && stored != Some(entity)
    ensures var s := Pair(c, base, mine, e, stored, entity); s.Changed() == {e, c} && Enumerates([e, c], s.Changed())
  {
  }

  lemma EntityTurn(rows: Table, s: Scope, e: Id)
    requires e.kind == Entities && e in s.loaded && s.Baseline(e) == Lookup(rows, e)
    ensures var row := Bumped(s.loaded[e], Lookup(rows, e));
            FlushOne(Progress(rows, map[]), s, e) == Some(Progress(rows[e := row], map[e := row]))
  {
  }

  lemma PairFlush(db: Store, c: Id, base: Row, mine: Row, e: Id, entity: Row, run: string, now: int)
    requires c.kind == ImportCandidates && e.kind == Entities && Lookup(db.rows, c) == Some(base) && Plain(base, run) && Plain(mine, run)
    ensures var s := Pair(c, base, mine, e, Lookup(db.rows, e), entity);
            && FlushRows(db.rows, s, [e, c]).Some?
            && Effect(db, s, Flush([e, c], now)).0.rows == db.rows[e := Bumped(entity, Lookup(db.rows, e))][c := mine]
  {
    var s := Pair(c, base, mine, e, Lookup(db.rows, e), entity);
    OneFlush(db, s, e, now);
    EntityTurn(db.rows, s, e);
    CandidateTurn(FlushRows(db.rows, s, [e]).value, s, c, base, mine, run);
    TwoFlush(db, s, e, c, now);
  }

  lemma TwoFlush(db: Store, s: Scope, e: Id, c: Id, now: int)
    requires e in s.loaded && c in s.loaded && s.deleted == {} && s.events == [] && FlushRows(db.rows, s, [e]).Some?
    ensures FlushRows(db.rows, s, [e, c]) == FlushOne(FlushRows(db.rows, s, [e]).value, s, c)
    ensures FlushRows(db.rows, s, [e, c]).Some? ==> Effect(db, s, Flush([e, c], now)).0.rows == FlushRows(db.rows, s, [e, c]).value.rows
  {
    assert [e, c][..1] == [e];
    if FlushRows(db.rows, s, [e, c]).Some? { FlushedRows(db, s, [e, c], now); }
  }

  lemma PairIsUnclaimed(rows: Table, c: Id, base: Row, mine: Row, e: Id, entity: Row)
    requires c.kind == ImportCandidates && e.kind == Entities && Lookup(rows, c) == Some(base) && SamePlace(base, mine)
    ensures Unclaimed(rows, Pair(c, base, mine, e, Lookup(rows, e), entity), c)
  {
  }

  function Marking(w: World, n: nat, c: Id, mine: Row, e: Id, entity: Row): World {
    Stepped(Stepped(w, n, Use(SetItem(e, entity))), n, Use(EditItem(c, mine)))
  }

  lemma PromotionScope(w: World, n: nat, c: Id, base: Row, mine: Row, e: Id, entity: Row)
    requires c.kind == ImportCandidates && e.kind == Entities && Promoting(base, mine) && w.ScopeOf(n) == Fresh()
    requires Lookup(w.db.rows, c) == Some(base) && Lookup(w.db.rows, e) != Some(entity) && SamePlace(base, mine)
    ensures var after := Marking(w, n, c, mine, e, entity);
            && after.db == w.db && after.ScopeOf(n) == Pair(c, base, mine, e, Lookup(w.db.rows, e), entity)
            && after.ScopeOf(n).Changed() == {e, c} && Pended(after, n, c) == MarkOf(mine)
            && Unclaimed(w.db.rows, after.ScopeOf(n), c)
  {
    assert base != mine by { assert Get(base, ValidationStatus) != Get(mine, ValidationStatus); }
    PairGiven(w.db.rows, c, base, mine, e, entity);
    PairChanged(c, base, mine, e, Lookup(w.db.rows, e), entity);
    PairIsUnclaimed(w.db.rows, c, base, mine, e, entity);
  }

  lemma PromotionFlush(db: Store, s: Scope, c: Id, base: Row, mine: Row, e: Id, entity: Row, run: string, now: int)
    requires c.kind == ImportCandidates && e.kind == Entities && Promoting(base, mine) && Lookup(db.rows, c) == Some(base)
    requires Plain(base, run) && Plain(mine, run) && Lookup(db.rows, e) != Some(entity)
    requires s == Pair(c, base, mine, e, Lookup(db.rows, e), entity) && s.Changed() == {e, c}
    ensures Legal(s, Flush([e, c], now)) && CommitsPromotion(db, s, Flush([e, c], now), c)
    ensures Effect(db, s, Flush([e, c], now)).0.rows == db.rows[e := Bumped(entity, Lookup(db.rows, e))][c := mine]
  {
    PairFlush(db, c, base, mine, e, entity, run, now);
  }

  /** A promotion assigns its entity, marks the candidate and commits both. */
  lemma PromoteOnce(w: World, n: nat, c: Id, base: Row, mine: Row, e: Id, entity: Row, run: string, now: int) returns (worlds: seq<World>)
    requires c.kind == ImportCandidates && e.kind == Entities && Promoting(base, mine) && Plain(base, run) && Plain(mine, run)
    requires w.ScopeOf(n) == Fresh() && Lookup(w.db.rows, c) == Some(base) && Lookup(w.db.rows, e) != Some(entity)
    ensures FairLeg(worlds, PromotionActs(n, c, mine, e, entity, now), c) && worlds[0] == w
    ensures worlds[1].db == worlds[2].db == w.db && Unclaimed(worlds[2].db.rows, worlds[2].ScopeOf(n), c)
    ensures CommitsPromotion(worlds[2].db, worlds[2].ScopeOf(n), Flush([e, c], now), c) && Pended(worlds[2], n, c) == MarkOf(mine)
    ensures Lookup(worlds[3].db.rows, c) == Some(mine) && Lookup(worlds[3].db.rows, e) == Some(Bumped(entity, Lookup(w.db.rows, e)))
    ensures forall k | k != c && k != e :: Lookup(worlds[3].db.rows, k) == Lookup(w.db.rows, k)
    ensures forall m: nat | m != n :: worlds[3].ScopeOf(m) == w.ScopeOf(m)
  {
    PromotionScope(w, n, c, base, mine, e, entity);
    var v := Stepped(w, n, Use(SetItem(e, entity)));
    var x := Stepped(v, n, Use(EditItem(c, mine)));
    PromotionFlush(w.db, x.ScopeOf(n), c, base, mine, e, entity, run, now);
    Triple(w, n, SetItem(e, entity), EditItem(c, mine), Flush([e, c], now), c);
    worlds := [w, v, x, Stepped(x, n, Flush([e, c], now))];
  }

  function PromotionActs(n: nat, c: Id, mine: Row, e: Id, entity: Row, now: int): seq<(nat, Act)> {
    [(n, Use(SetItem(e, entity))), (n, Use(EditItem(c, mine))), (n, Flush([e, c], now))]
  }

  // ---- A review that is lost ----

  function CandidateRow(run: string, status: Code): Row {
    map[ImportRunId := Text(run), Ordinal := Number(0), ValidationStatus := State(status)]
  }

  lemma RowsArePlain(run: string, status: Code)
    ensures var row := CandidateRow(run, status);
            Plain(row, run) && Get(row, ValidationStatus) == State(status) && (status != PROCESSED ==> Dated(row) && !Processed(row))
  {
  }

  lemma ConfirmedIsAReview(run: string)
    ensures Proper(Some(CandidateRow(run, PENDING)), CandidateRow(run, CONFIRMED))
    ensures CandidateRow(run, PENDING) != CandidateRow(run, CONFIRMED)
  {
    RowsArePlain(run, PENDING);
    RowsArePlain(run, CONFIRMED);
  }

  function Empty(): World { World(Store(map[], map[], map[], map[]), map[]) }

  lemma ReadNothing(w: World, n: nat, c: Id, run: string) returns (next: World)
    requires w.db.rows == map[] && w.ScopeOf(n) == Fresh()
    ensures FairLeg([w, next], [(n, ReadWindow(Text(run), 0, 1))], c) && next.db == w.db
    ensures forall m: nat :: next.ScopeOf(m) == w.ScopeOf(m)
  {
    assert WithWindow(map[], Fresh(), Text(run), 0, 1) == Fresh();
    next := Stepped(w, n, ReadWindow(Text(run), 0, 1));
  }

  function Windows(run: string): seq<(nat, Act)> { [(1, ReadWindow(Text(run), 0, 1))] + [(0, ReadWindow(Text(run), 0, 1))] }

  /** Two workers read the empty window of a run. */
  lemma EmptyWindows(c: Id, run: string) returns (worlds: seq<World>)
    ensures FairLeg(worlds, Windows(run), c) && worlds[0] == Empty()
    ensures worlds[2].db == Empty().db && forall n: nat :: worlds[2].ScopeOf(n) == Fresh()
  {
    var one := ReadNothing(Empty(), 1, c, run);
    var two := ReadNothing(one, 0, c, run);
    Joined([Empty(), one], [(1, ReadWindow(Text(run), 0, 1))], [one, two], [(0, ReadWindow(Text(run), 0, 1))], c);
    worlds := [Empty(), one] + [one, two][1..];
    assert worlds == [Empty(), one, two];
  }

  /** The first worker stages the candidate, and a reviewer confirms it. */
  function Review(c: Id, run: string): seq<(nat, Act)> {
    [(0, Use(StageItem(c, CandidateRow(run, PENDING), true))), (0, Flush([c], 0))]
    + [(2, Use(EditItem(c, CandidateRow(run, CONFIRMED)))), (2, Flush([c], 0))]
  }

  lemma StagedAndReviewed(w: World, c: Id, run: string) returns (worlds: seq<World>)
    requires c.kind == ImportCandidates && w.db.rows == map[] && w.ScopeOf(0) == Fresh() && w.ScopeOf(2) == Fresh()
    ensures FairLeg(worlds, Review(c, run), c) && worlds[0] == w
    ensures Lookup(worlds[4].db.rows, c) == Some(CandidateRow(run, CONFIRMED)) && forall k | k != c :: Lookup(worlds[4].db.rows, k) == None
    ensures forall m: nat | m != 0 && m != 2 :: worlds[4].ScopeOf(m) == w.ScopeOf(m)
  {
    RowsArePlain(run, PENDING);
    RowsArePlain(run, CONFIRMED);
    ConfirmedIsAReview(run);
    var staged := StageFirst(w, 0, c, CandidateRow(run, PENDING), run, 0);
    var reviewed := EditOnce(staged[2], 2, c, CandidateRow(run, PENDING), CandidateRow(run, CONFIRMED), run, 0);
    Joined(staged, Review(c, run)[..2], reviewed, Review(c, run)[2..], c);
    assert Review(c, run)[..2] + Review(c, run)[2..] == Review(c, run);
    worlds := staged + reviewed[1..];
    FrontAt(staged, reviewed, 0);
    BackAt(staged, reviewed, 2);
  }

  /** Two workers read the empty window of a run, the first stages it, and a reviewer confirms the candidate. */
  lemma Reviewed(c: Id, run: string) returns (worlds: seq<World>)
    requires c.kind == ImportCandidates
    ensures FairLeg(worlds, Windows(run) + Review(c, run), c) && worlds[0] == Empty()
    ensures Lookup(worlds[6].db.rows, c) == Some(CandidateRow(run, CONFIRMED)) && forall k | k != c :: Lookup(worlds[6].db.rows, k) == None
    ensures forall n: nat | n != 0 && n != 2 :: worlds[6].ScopeOf(n) == Fresh()
  {
    var front := EmptyWindows(c, run);
    var back := StagedAndReviewed(front[2], c, run);
    Joined(front, Windows(run), back, Review(c, run), c);
    worlds := front + back[1..];
    FrontAt(front, back, 0);
    BackAt(front, back, 4);
  }

  /** The second worker stages the window it found empty, under another identity. */
  function Again(d: Id, run: string): seq<(nat, Act)> {
    [(1, Use(StageItem(d, CandidateRow(run, PENDING), true))), (1, Flush([d], 0))]
  }

  /** Where a rival does overwrite: two workers have read the same empty window of a run, one stages it, and a
      reviewer confirms the candidate. When the other worker then stages the window, under a new identity, its
      flush commits and the confirmation, which its scope never read, is lost. */
  lemma StagingTwiceLosesAReview(c: Id, d: Id, run: string) returns (worlds: seq<World>, acts: seq<(nat, Act)>)
    requires c.kind == d.kind == ImportCandidates && c != d
    ensures Execution(worlds, acts) && worlds[0] == Empty() && acts == Windows(run) + Review(c, run) + Again(d, run)
    ensures c !in worlds[7].ScopeOf(1).loaded && !Unclaimed(worlds[7].db.rows, worlds[7].ScopeOf(1), c)
    ensures Lookup(worlds[7].db.rows, c) == Some(CandidateRow(run, CONFIRMED))
    ensures Lookup(worlds[8].db.rows, c) == Some(CandidateRow(run, PENDING))
  {
    RowsArePlain(run, PENDING);
    RowsArePlain(run, CONFIRMED);
    var front := Reviewed(c, run);
    assert Lookup(front[6].db.rows, d) == None;
    var back := StageAgain(front[6], 1, c, d, CandidateRow(run, PENDING), run, 0);
    acts := Windows(run) + Review(c, run) + Again(d, run);
    Joined(front, Windows(run) + Review(c, run), back, Again(d, run), c);
    worlds := front + back[1..];
    FrontAt(front, back, 0);
    BackAt(front, back, 1);
    BackAt(front, back, 2);
    FairRunMeans(worlds, acts, c);
  }

  // ---- Promotions that happen, once and twice ----

  function MarkedRow(run: string, key: string, now: int): Row {
    CandidateRow(run, PROCESSED)[ProcessedAt := Number(now)][ProcessedEntityId := Text(key)]
  }

  function EntityRow(now: int): Row { map[Status := State(APPROVED), Other("updatedAt") := Number(now)] }

  lemma MarksAPromotion(run: string, key: string, now: int)
    ensures Promoting(CandidateRow(run, CONFIRMED), MarkedRow(run, key, now)) && Plain(MarkedRow(run, key, now), run)
    ensures MarkOf(MarkedRow(run, key, now)).date == Number(now)
    ensures Plain(CandidateRow(run, CONFIRMED), run) && Dated(CandidateRow(run, CONFIRMED))
  {
  }

  lemma SettingOf(worlds: seq<World>, acts: seq<(nat, Act)>, c: Id)
    requires c.kind == ImportCandidates && FairLeg(worlds, acts, c) && |acts| == 3 && acts[0].1.Use? && acts[1].1.Use?
    requires Unclaimed(worlds[2].db.rows, worlds[2].ScopeOf(acts[2].0), c) && worlds[0].scopes == map[]
    requires c in worlds[0].db.rows && Dated(worlds[0].db.rows[c])
    ensures Setting(worlds, acts, c)
  {
    FairRunMeans(worlds, acts, c);
  }

  /** A run in which a worker reads a confirmed candidate, assigns its entity, marks it and commits both: what
      the theorems about promotions assume can be met. */
  lemma PromotionHappens(c: Id, e: Id, run: string, now: int) returns (worlds: seq<World>)
    requires c.kind == ImportCandidates && e.kind == Entities
    ensures var acts := PromotionActs(0, c, MarkedRow(run, e.key, now), e, EntityRow(now), now);
            Setting(worlds, acts, c) && Promotes(worlds, acts, c, 2)
    ensures worlds[0].db.rows == map[c := CandidateRow(run, CONFIRMED)]
    ensures Lookup(worlds[3].db.rows, c) == Some(MarkedRow(run, e.key, now))
    ensures Lookup(worlds[3].db.rows, e) == Some(Bumped(EntityRow(now), None))
  {
    var base, mine := CandidateRow(run, CONFIRMED), MarkedRow(run, e.key, now);
    MarksAPromotion(run, e.key, now);
    var start := World(Store(map[c := base], map[], map[], map[]), map[]);
    worlds := PromoteOnce(start, 0, c, base, mine, e, EntityRow(now), run, now);
    SettingOf(worlds, PromotionActs(0, c, mine, e, EntityRow(now), now), c);
  }

  function FirstPromotion(c: Id, e: Id, run: string): seq<(nat, Act)> { PromotionActs(3, c, MarkedRow(run, e.key, 1), e, EntityRow(1), 1) }

  function Confirmation(c: Id, run: string): seq<(nat, Act)> {
    [(4, Use(EditItem(c, CandidateRow(run, CONFIRMED)))), (4, Flush([c], 0))]
  }

  function SecondPromotion(c: Id, e: Id, run: string): seq<(nat, Act)> { PromotionActs(5, c, MarkedRow(run, e.key, 2), e, EntityRow(2), 2) }

  lemma PromotedFirst(w: World, c: Id, e: Id, run: string) returns (worlds: seq<World>)
    requires c.kind == ImportCandidates && e.kind == Entities && w.ScopeOf(3) == Fresh()
    requires Lookup(w.db.rows, c) == Some(CandidateRow(run, CONFIRMED)) && forall k | k != c :: Lookup(w.db.rows, k) == None
    ensures FairLeg(worlds, FirstPromotion(c, e, run), c) && worlds[0] == w
    ensures CommitsPromotion(worlds[2].db, worlds[2].ScopeOf(3), Flush([e, c], 1), c) && Pended(worlds[2], 3, c).date == Number(1)
    ensures Lookup(worlds[3].db.rows, c) == Some(MarkedRow(run, e.key, 1)) && Lookup(worlds[3].db.rows, e) == Some(Bumped(EntityRow(1), None))
    ensures forall k | k != c && k != e :: Lookup(worlds[3].db.rows, k) == None
    ensures forall m: nat | m != 3 :: worlds[3].ScopeOf(m) == w.ScopeOf(m)
  {
    MarksAPromotion(run, e.key, 1);
    worlds := PromoteOnce(w, 3, c, CandidateRow(run, CONFIRMED), MarkedRow(run, e.key, 1), e, EntityRow(1), run, 1);
  }

  lemma Unpromoted(w: World, c: Id, d: Id, e: Id, run: string) returns (worlds: seq<World>)
    requires c.kind == d.kind == ImportCandidates && c != d && e.kind == Entities && w.ScopeOf(1) == Fresh()
    requires Lookup(w.db.rows, c) == Some(MarkedRow(run, e.key, 1)) && forall k | k != c && k != e :: Lookup(w.db.rows, k) == None
    ensures FairLeg(worlds, Again(d, run), c) && worlds[0] == w && c in worlds[1].db.rows
    ensures !Unclaimed(worlds[1].db.rows, worlds[1].ScopeOf(1), c) && Rewritten(w, worlds[2], 1, c, CandidateRow(run, PENDING))
  {
    RowsArePlain(run, PENDING);
    MarksAPromotion(run, e.key, 1);
    assert Lookup(w.db.rows, d) == None;
    worlds := StageAgain(w, 1, c, d, CandidateRow(run, PENDING), run, 0);
  }

  lemma ConfirmedAgain(w: World, c: Id, run: string) returns (worlds: seq<World>)
    requires c.kind == ImportCandidates && w.ScopeOf(4) == Fresh() && Lookup(w.db.rows, c) == Some(CandidateRow(run, PENDING))
    ensures FairLeg(worlds, Confirmation(c, run), c) && worlds[0] == w && c in worlds[1].db.rows
    ensures Rewritten(w, worlds[2], 4, c, CandidateRow(run, CONFIRMED))
  {
    RowsArePlain(run, PENDING);
    RowsArePlain(run, CONFIRMED);
    ConfirmedIsAReview(run);
    worlds := EditOnce(w, 4, c, CandidateRow(run, PENDING), CandidateRow(run, CONFIRMED), run, 0);
  }

  lemma PromotedSecond(w: World, c: Id, e: Id, run: string) returns (worlds: seq<World>)
    requires c.kind == ImportCandidates && e.kind == Entities && w.ScopeOf(5) == Fresh()
    requires Lookup(w.db.rows, c) == Some(CandidateRow(run, CONFIRMED)) && Lookup(w.db.rows, e) == Some(Bumped(EntityRow(1), None))
    ensures FairLeg(worlds, SecondPromotion(c, e, run), c) && worlds[0] == w && c in worlds[1].db.rows && c in worlds[2].db.rows
    ensures CommitsPromotion(worlds[2].db, worlds[2].ScopeOf(5), Flush([e, c], 2), c) && Pended(worlds[2], 5, c).date == Number(2)
  {
    MarksAPromotion(run, e.key, 2);
    EntityMoves();
    worlds := PromoteOnce(w, 5, c, CandidateRow(run, CONFIRMED), MarkedRow(run, e.key, 2), e, EntityRow(2), run, 2);
  }

  lemma EntityMoves()
    ensures Bumped(EntityRow(1), None) != EntityRow(2)
  {
    assert EntityRow(2)[Other("updatedAt")] != EntityRow(1)[Other("updatedAt")];
  }

  /** The five legs: review, promotion, staging again, confirmation, promotion. */
  ghost predicate FiveLegs(l1: seq<World>, l2: seq<World>, l3: seq<World>, l4: seq<World>, l5: seq<World>, c: Id, d: Id, e: Id, run: string) {
    && FairLeg(l1, Windows(run) + Review(c, run), c) && FairLeg(l2, FirstPromotion(c, e, run), c) && FairLeg(l3, Again(d, run), c)
    && FairLeg(l4, Confirmation(c, run), c) && FairLeg(l5, SecondPromotion(c, e, run), c)
    && l1[6] == l2[0] && l2[3] == l3[0] && l3[2] == l4[0] && l4[2] == l5[0]
  }

  function Whole(l1: seq<World>, l2: seq<World>, l3: seq<World>, l4: seq<World>, l5: seq<World>): seq<World>
    requires l2 != [] && l3 != [] && l4 != [] && l5 != []
  {
    l1 + l2[1..] + l3[1..] + l4[1..] + l5[1..]
  }

  function TwiceActs(c: Id, d: Id, e: Id, run: string): seq<(nat, Act)> {
    Windows(run) + Review(c, run) + FirstPromotion(c, e, run) + Again(d, run) + Confirmation(c, run) + SecondPromotion(c, e, run)
  }

  lemma WholeIsFair(l1: seq<World>, l2: seq<World>, l3: seq<World>, l4: seq<World>, l5: seq<World>, c: Id, d: Id, e: Id, run: string)
    requires FiveLegs(l1, l2, l3, l4, l5, c, d, e, run)
    ensures FairLeg(Whole(l1, l2, l3, l4, l5), TwiceActs(c, d, e, run), c)
  {
    Joined(l1, Windows(run) + Review(c, run), l2, FirstPromotion(c, e, run), c);
    BackAt(l1, l2, 3);
    var w2, a2 := l1 + l2[1..], Windows(run) + Review(c, run) + FirstPromotion(c, e, run);
    Joined(w2, a2, l3, Again(d, run), c);
    BackAt(w2, l3, 2);
    var w3, a3 := w2 + l3[1..], a2 + Again(d, run);
    Joined(w3, a3, l4, Confirmation(c, run), c);
    BackAt(w3, l4, 2);
    Joined(w3 + l4[1..], a3 + Confirmation(c, run), l5, SecondPromotion(c, e, run), c);
  }

  lemma Placed(l1: seq<World>, l2: seq<World>, l3: seq<World>, l4: seq<World>, l5: seq<World>)
    requires |l1| == 7 && |l2| == 4 && |l3| == 3 && |l4| == 3 && |l5| == 4
    requires l1[6] == l2[0] && l2[3] == l3[0] && l3[2] == l4[0] && l4[2] == l5[0]
    ensures var worlds := Whole(l1, l2, l3, l4, l5);
            && |worlds| == 17 && worlds[0] == l1[0] && worlds[8] == l2[2] && worlds[9] == l2[3] && worlds[10] == l3[1]
            && worlds[11] == l3[2] && worlds[12] == l4[1] && worlds[13] == l4[2] && worlds[14] == l5[1] && worlds[15] == l5[2]
  {
  }

  lemma ActsPlaced(c: Id, d: Id, e: Id, run: string)
    ensures var acts := TwiceActs(c, d, e, run);
            |acts| == 16 && acts[8] == (3, Flush([e, c], 1)) && acts[10] == (1, Flush([d], 0)) && acts[15] == (5, Flush([e, c], 2))
  {
  }

  lemma RunsTwice(c: Id, d: Id, e: Id, run: string)
    returns (l1: seq<World>, l2: seq<World>, l3: seq<World>, l4: seq<World>, l5: seq<World>)
    requires c.kind == d.kind == ImportCandidates && c != d && e.kind == Entities
    ensures FiveLegs(l1, l2, l3, l4, l5, c, d, e, run) && l1[0] == Empty()
    ensures CommitsPromotion(l2[2].db, l2[2].ScopeOf(3), Flush([e, c], 1), c) && Pended(l2[2], 3, c).date == Number(1)
    ensures !Unclaimed(l3[1].db.rows, l3[1].ScopeOf(1), c)
    ensures CommitsPromotion(l5[2].db, l5[2].ScopeOf(5), Flush([e, c], 2), c) && Pended(l5[2], 5, c).date == Number(2)
    ensures c in l2[3].db.rows && c in l3[1].db.rows && c in l3[2].db.rows && c in l4[1].db.rows && c in l4[2].db.rows
    ensures c in l5[1].db.rows && c in l5[2].db.rows
  {
    l1 := Reviewed(c, run);
    l2 := PromotedFirst(l1[6], c, e, run);
    l3 := Unpromoted(l2[3], c, d, e, run);
    l4 := ConfirmedAgain(l3[2], c, run);
    assert Lookup(l4[2].db.rows, e) == Lookup(l3[2].db.rows, e) == Lookup(l2[3].db.rows, e);
    l5 := PromotedSecond(l4[2], c, e, run);
  }

  /** Two commits promote the candidate, its row is there in between, and a flush to which its place is not
      unclaimed comes between them. */
  ghost predicate TwicePromoted(worlds: seq<World>, acts: seq<(nat, Act)>, c: Id)
    requires |acts| == 16 && |worlds| == 17
  {
    && Promotes(worlds, acts, c, 8) && Promotes(worlds, acts, c, 15) && NotCreated(worlds, c, 9, 15)
    && Pended(worlds[8], acts[8].0, c).date != Pended(worlds[15], acts[15].0, c).date
    && acts[10].1.Flush? && !Unclaimed(worlds[10].db.rows, worlds[10].ScopeOf(acts[10].0), c)
  }

  lemma StaysPresent(worlds: seq<World>, c: Id)
    requires |worlds| == 17 && c in worlds[9].db.rows && c in worlds[10].db.rows && c in worlds[11].db.rows
    requires c in worlds[12].db.rows && c in worlds[13].db.rows && c in worlds[14].db.rows && c in worlds[15].db.rows
    ensures NotCreated(worlds, c, 9, 15)
  {
  }

  lemma ReadOff(worlds: seq<World>, acts: seq<(nat, Act)>, c: Id, d: Id, e: Id)
    requires |acts| == 16 && |worlds| == 17 && NotCreated(worlds, c, 9, 15)
    requires acts[8] == (3, Flush([e, c], 1)) && acts[10] == (1, Flush([d], 0)) && acts[15] == (5, Flush([e, c], 2))
    requires CommitsPromotion(worlds[8].db, worlds[8].ScopeOf(3), Flush([e, c], 1), c) && Pended(worlds[8], 3, c).date == Number(1)
    requires !Unclaimed(worlds[10].db.rows, worlds[10].ScopeOf(1), c)
    requires CommitsPromotion(worlds[15].db, worlds[15].ScopeOf(5), Flush([e, c], 2), c) && Pended(worlds[15], 5, c).date == Number(2)
    ensures TwicePromoted(worlds, acts, c)
  {
  }

  /** Why the place must be unclaimed: the late worker's flush takes the mark of a promoted candidate away. A
      reviewer confirms it once more, and a second promotion of the same row commits. */
  lemma PromotedTwice(c: Id, d: Id, e: Id, run: string) returns (worlds: seq<World>, acts: seq<(nat, Act)>)
    requires c.kind == d.kind == ImportCandidates && c != d && e.kind == Entities
    ensures acts == TwiceActs(c, d, e, run) && |acts| == 16 && |worlds| == 17 && worlds[0] == Empty()
    ensures Execution(worlds, acts) && ProperFlushes(worlds, acts, c) && forall k | 0 <= k < |acts| :: !acts[k].1.Sql?
    ensures TwicePromoted(worlds, acts, c)
  {
    acts := TwiceActs(c, d, e, run);
    ActsPlaced(c, d, e, run);
    worlds := WholeRun(c, d, e, run);
    StaysPresent(worlds, c);
    ReadOff(worlds, acts, c, d, e);
    FairRunMeans(worlds, acts, c);
  }

  lemma WholeRun(c: Id, d: Id, e: Id, run: string) returns (worlds: seq<World>)
    requires c.kind == d.kind == ImportCandidates && c != d && e.kind == Entities
    ensures FairLeg(worlds, TwiceActs(c, d, e, run), c) && |worlds| == 17 && worlds[0] == Empty()
    ensures CommitsPromotion(worlds[8].db, worlds[8].ScopeOf(3), Flush([e, c], 1), c) && Pended(worlds[8], 3, c).date == Number(1)
    ensures !Unclaimed(worlds[10].db.rows, worlds[10].ScopeOf(1), c)
    ensures CommitsPromotion(worlds[15].db, worlds[15].ScopeOf(5), Flush([e, c], 2), c) && Pended(worlds[15], 5, c).date == Number(2)
    ensures c in worlds[9].db.rows && c in worlds[10].db.rows && c in worlds[11].db.rows
    ensures c in worlds[12].db.rows && c in worlds[13].db.rows && c in worlds[14].db.rows && c in worlds[15].db.rows
  {
    var l1, l2, l3, l4, l5 := RunsTwice(c, d, e, run);
    WholeIsFair(l1, l2, l3, l4, l5, c, d, e, run);
    Placed(l1, l2, l3, l4, l5);
    worlds := Whole(l1, l2, l3, l4, l5);
  }
}
