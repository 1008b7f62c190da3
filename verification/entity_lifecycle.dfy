/** The life of an entity: reviews, status changes, imports, geometry edits and location enrichment. */
module EntityLifecycle {
  import opened Options

  datatype Status = CANDIDATE | APPROVED | REJECTED | RETIRED
  datatype Enrichment = QUEUED | COMPLETED | FAILED

  /** An entity's status, its geometry, and its latest location-enrichment request. */
  datatype Entity = Entity(status: Status, geometry: Option<int>, enrichment: Option<Enrichment>,
                           hash: Option<int>, requestId: Option<nat>)

  type Digest = int -> int

  datatype Op =
    | Review(decision: Status, missing: bool)
    | SetStatus(target: Status, missing: bool)
    | UpdateGeometry(geometry: int)
    | ChangeGeometryType(geometry: int)
    | ReleaseFields
    | Disappear(retire: bool)
    | ApplyResult(request: nat, geometryHash: int, enriched: bool)

  /** Ties a new request to the current geometry, unless one for it is already queued. */
  function Queued(e: Entity, digest: Digest, request: nat): Entity {
    if e.geometry.None? then e.(enrichment := Some(FAILED))
    else
      var hash := digest(e.geometry.value);
      if e.enrichment == Some(QUEUED) && e.hash == Some(hash) then e
      else e.(enrichment := Some(QUEUED), hash := Some(hash), requestId := Some(request))
  }

  function QueuedIfMissing(e: Entity, missing: bool, digest: Digest, request: nat): Entity {
    if (e.status == APPROVED || e.status == CANDIDATE) && missing && e.geometry.Some? then Queued(e, digest, request) else e
  }

  function Hashed(geometry: Option<int>, digest: Digest): Option<int> {
    if geometry.Some? then Some(digest(geometry.value)) else None
  }

  predicate MayBecome(status: Status, target: Status) {
    match status
    case APPROVED => target == RETIRED
    case RETIRED => target == RETIRED
    case REJECTED => target == REJECTED
    case CANDIDATE => target != RETIRED
  }

  /** The entity after an operation on the scope's value, or None when the operation is refused. */
  function Applied(existing: Option<Entity>, op: Op, digest: Digest, request: nat): Option<Entity> {
    if existing.None? then None
    else
      var e := existing.value;
      match op
      case Review(decision, missing) =>
        if e.status != CANDIDATE || (decision != APPROVED && decision != REJECTED) then None
        else Some(QueuedIfMissing(e.(status := decision), missing && decision == APPROVED, digest, request))
      case SetStatus(target, missing) =>
        if !MayBecome(e.status, target) then None
        else if e.status == target then existing
        else Some(QueuedIfMissing(e.(status := target), missing, digest, request))
      case UpdateGeometry(geometry) =>
        var moved := e.(geometry := Some(geometry));
        Some(if Hashed(e.geometry, digest) != Some(digest(geometry)) then Queued(moved, digest, request) else moved)
      case ChangeGeometryType(geometry) => Some(Queued(e.(geometry := Some(geometry)), digest, request))
      case ReleaseFields => Some(Queued(e, digest, request))
      case Disappear(retire) => Some(if retire then e.(status := RETIRED) else e)
      case ApplyResult(id, geometryHash, enriched) =>
        if e.requestId != Some(id) || Hashed(e.geometry, digest) != Some(geometryHash) then None
        else Some(e.(enrichment := Some(if enriched then COMPLETED else FAILED), hash := Some(geometryHash)))
  }

  /** What an import is about to write over the entity it looked up, if there was one. */
  datatype Plan = Plan(existing: Option<Entity>, target: Status, geometry: int, missing: bool)
  {
    predicate Refused() { existing.Some? && existing.value.status == APPROVED && target != RETIRED }
  }

  /** The entity an import puts in the place of the one it looked up. */
  function Materialized(plan: Plan, digest: Digest, request: nat): Entity {
    var e := Entity(plan.target, Some(plan.geometry), None, None, None);
    var changed := plan.existing.Some? && Hashed(plan.existing.value.geometry, digest) != Some(digest(plan.geometry));
    if changed || plan.missing then Queued(e, digest, request) else e
  }

  // ---- The operations in place ----

  class EntityRecord {
    var status: Status
    var geometry: Option<int>
    var enrichment: Option<Enrichment>
    var hash: Option<int>
    var requestId: Option<nat>

    constructor (e: Entity)
      ensures Snapshot() == e
    {
      status, geometry, enrichment, hash, requestId := e.status, e.geometry, e.enrichment, e.hash, e.requestId;
    }

    function Snapshot(): Entity
      reads this
    {
      Entity(status, geometry, enrichment, hash, requestId)
    }

    /** A queued request for the current geometry. */
    ghost predicate Requested(digest: Digest)
      reads this
    {
      geometry.Some? && enrichment == Some(QUEUED) && hash == Some(digest(geometry.value))
    }

    ghost predicate Became(was: Entity, op: Op, digest: Digest, request: nat, accepted: bool)
      reads this
    {
      var result := Applied(Some(was), op, digest, request);
      accepted == result.Some? && Snapshot() == if accepted then result.value else was
    }

    method QueueLocationEnrichment(digest: Digest, request: nat)
      modifies this
      ensures Snapshot() == Queued(old(Snapshot()), digest, request)
      ensures status == old(status) && geometry == old(geometry)
      ensures geometry == None ==> enrichment == Some(FAILED) && hash == old(hash) && requestId == old(requestId)
      ensures geometry.Some? ==> enrichment == Some(QUEUED) && hash == Some(digest(geometry.value))
      ensures geometry.Some? ==>
                requestId == if old(enrichment) == Some(QUEUED) && old(hash) == hash then old(requestId) else Some(request)
    {
      if geometry.None? {
        enrichment := Some(FAILED);
        return;
      }
      var current := digest(geometry.value);
      if enrichment == Some(QUEUED) && hash == Some(current) {
        return;
      }
      requestId := Some(request);
      hash := Some(current);
      enrichment := Some(QUEUED);
    }

    method QueueMissingLocation(missing: bool, digest: Digest, request: nat)
      modifies this
      ensures Snapshot() == QueuedIfMissing(old(Snapshot()), missing, digest, request)
      ensures status == old(status) && geometry == old(geometry)
      ensures missing && geometry.Some? && (status == APPROVED || status == CANDIDATE) ==> Requested(digest)
      ensures !(missing && geometry.Some? && (status == APPROVED || status == CANDIDATE)) ==> Snapshot() == old(Snapshot())
    {
      if (status != APPROVED && status != CANDIDATE) || !missing || geometry.None? {
        return;
      }
      QueueLocationEnrichment(digest, request);
    }

    method ReviewCandidate(decision: Status, missing: bool, digest: Digest, request: nat) returns (accepted: bool)
      modifies this
      ensures Became(old(Snapshot()), Review(decision, missing), digest, request, accepted)
      ensures accepted <==> old(status) == CANDIDATE && (decision == APPROVED || decision == REJECTED)
      ensures geometry == old(geometry) && status == if accepted then decision else old(status)
      ensures accepted && decision == APPROVED && missing && geometry.Some? ==> Requested(digest)
      ensures !(accepted && decision == APPROVED && missing && geometry.Some?) ==> Snapshot() == old(Snapshot()).(status := status)
    {
      if status != CANDIDATE {
        return false;
      }
      if decision != APPROVED && decision != REJECTED {
        return false;
      }
      status := decision;
      if decision == APPROVED {
        QueueMissingLocation(missing, digest, request);
      }
      return true;
    }

    method ChangeStatus(target: Status, missing: bool, digest: Digest, request: nat) returns (accepted: bool)
      modifies this
      ensures Became(old(Snapshot()), SetStatus(target, missing), digest, request, accepted)
      ensures accepted <==> match old(status)
                            case APPROVED => target == RETIRED
                            case RETIRED => target == RETIRED
                            case REJECTED => target == REJECTED
                            case CANDIDATE => target == CANDIDATE || target == APPROVED || target == REJECTED
      ensures geometry == old(geometry) && status == if accepted then target else old(status)
      ensures accepted && target == APPROVED && missing && geometry.Some? ==> Requested(digest)
      ensures !(accepted && target == APPROVED && missing && geometry.Some?) ==> Snapshot() == old(Snapshot()).(status := status)
    {
      if status == APPROVED && target != RETIRED {
        return false;
      }
      if status == RETIRED && target != RETIRED {
        return false;
      }
      if status == CANDIDATE && target != CANDIDATE && target != APPROVED && target != REJECTED {
        return false;
      }
      if status == REJECTED && target != REJECTED {
        return false;
      }
      if status == target {
        return true;
      }
      status := target;
      if target == APPROVED || target == CANDIDATE {
        QueueMissingLocation(missing, digest, request);
      }
      return true;
    }

    method MoveGeometry(to: int, digest: Digest, request: nat)
      modifies this
      ensures Became(old(Snapshot()), UpdateGeometry(to), digest, request, true)
      ensures geometry == Some(to) && status == old(status)
      ensures old(geometry).None? || digest(old(geometry).value) != digest(to) ==> Requested(digest)
      ensures old(geometry).Some? && digest(old(geometry).value) == digest(to) ==> Snapshot() == old(Snapshot()).(geometry := Some(to))
    {
      var previous := Hashed(geometry, digest);
      geometry := Some(to);
      if Some(digest(to)) != previous {
        QueueLocationEnrichment(digest, request);
      }
    }

    method ConvertGeometry(to: int, digest: Digest, request: nat)
      modifies this
      ensures Became(old(Snapshot()), ChangeGeometryType(to), digest, request, true)
      ensures geometry == Some(to) && status == old(status) && Requested(digest)
    {
      geometry := Some(to);
      QueueLocationEnrichment(digest, request);
    }

    /** The source no longer lists the entity. */
    method LoseSource(retire: bool)
      modifies this
      ensures Became(old(Snapshot()), Disappear(retire), _ => 0, 0, true)
      ensures Snapshot() == old(Snapshot()).(status := if retire then RETIRED else old(status))
    {
      if retire && status != RETIRED {
        status := RETIRED;
      }
    }

    /** Fields that an administrator had set are given back to the provider. */
    method ReleaseManualFields(digest: Digest, request: nat)
      modifies this
      ensures Became(old(Snapshot()), ReleaseFields, digest, request, true)
      ensures status == old(status) && geometry == old(geometry)
      ensures if geometry.Some? then Requested(digest) else enrichment == Some(FAILED)
    {
      QueueLocationEnrichment(digest, request);
    }

    /** The provider's answer, taken only for the current request and geometry. */
    method TakeResult(id: nat, geometryHash: int, enriched: bool, digest: Digest, request: nat) returns (taken: bool)
      modifies this
      ensures Became(old(Snapshot()), ApplyResult(id, geometryHash, enriched), digest, request, taken)
      ensures taken <==> old(requestId) == Some(id) && geometry.Some? && digest(geometry.value) == geometryHash
      ensures status == old(status) && geometry == old(geometry) && requestId == old(requestId)
      ensures taken ==> enrichment == Some(if enriched then COMPLETED else FAILED) && hash == Some(geometryHash)
      ensures !taken ==> Snapshot() == old(Snapshot())
    {
      if requestId != Some(id) || Hashed(geometry, digest) != Some(geometryHash) {
        return false;
      }
      enrichment := Some(if enriched then COMPLETED else FAILED);
      hash := Some(geometryHash);
      return true;
    }
  }

  // ---- What every operation keeps ----

  predicate ApprovedOnlyRetires(before: Entity, after: Entity) {
    before.status == APPROVED ==> after.status == APPROVED || after.status == RETIRED
  }

  /** A queued or completed enrichment describes the current geometry. */
  predicate Current(e: Entity, digest: Digest) {
    e.enrichment == Some(QUEUED) || e.enrichment == Some(COMPLETED) ==>
      e.geometry.Some? && e.hash == Some(digest(e.geometry.value))
  }

  lemma OperationsKeepCurrent(existing: Option<Entity>, op: Op, digest: Digest, request: nat)
    requires existing.Some? ==> Current(existing.value, digest)
    requires Applied(existing, op, digest, request).Some?
    ensures Current(Applied(existing, op, digest, request).value, digest)
  {
  }

  lemma OperationsKeepApproval(base: Entity, e: Entity, op: Op, digest: Digest, request: nat)
    requires ApprovedOnlyRetires(base, e)
    requires Applied(Some(e), op, digest, request).Some?
    ensures ApprovedOnlyRetires(base, Applied(Some(e), op, digest, request).value)
  {
  }

  /** An import respects the entity it looked up, and only that one. */
  lemma MaterializedKeeps(plan: Plan, digest: Digest, request: nat)
    ensures Current(Materialized(plan, digest, request), digest)
    ensures plan.existing.Some? && plan.existing.value.status == APPROVED ==>
              (ApprovedOnlyRetires(plan.existing.value, Materialized(plan, digest, request)) <==> !plan.Refused() || plan.target == APPROVED)
    ensures plan.Refused() <==> plan.existing.Some? && plan.existing.value.status == APPROVED && plan.target != RETIRED
    ensures var e := Materialized(plan, digest, request);
            && e.status == plan.target && e.geometry == Some(plan.geometry)
            && var moved := plan.existing.Some? && (plan.existing.value.geometry.None?
                                                    || digest(plan.existing.value.geometry.value) != digest(plan.geometry));
               e.requestId == if moved || plan.missing then Some(request) else None
  {
  }

  // ---- Scopes over one entity row ----

  /** A committed row with its revision, and how often a row under this id was created. */
  datatype Committed = Committed(entity: Entity, revision: nat)

  /** A scope's view of the row; `born` is the creation its baseline stems from. An import in progress has a
      plan, and `blind` records that its look-up found nothing but its assignment then read an approved row. */
  datatype Scope = Scope(baseline: Option<Committed>, mine: Option<Entity>, born: nat, plan: Option<Plan>, blind: bool)
  {
    predicate Clean() { mine == Contents(baseline) }
  }

  datatype World = World(row: Option<Committed>, born: nat, scopes: map<nat, Scope>, requests: nat)
  {
    function ScopeOf(n: nat): Scope { if n in scopes then scopes[n] else Scope(None, None, born, None, false) }

    function With(n: nat, s: Scope): World { this.(scopes := scopes[n := s]) }

    function Read(): Scope { Scope(row, Contents(row), born, None, false) }
  }

  datatype Act =
    | Load(scope: nat)
    | Edit(scope: nat, op: Op)
    | LookUp(scope: nat, target: Status, geometry: int, missing: bool)
    | Put(scope: nat)
    | Rollback(scope: nat)
    | Flush(scope: nat, dispatch: bool)
    | Redispatch
    | Delete

  function Contents(row: Option<Committed>): Option<Entity> {
    if row.Some? then Some(row.value.entity) else None
  }

  /** A scope without a value reads the row, each time anew; a row that is not there leaves no trace. */
  function AfterRead(w: World, s: Scope): Scope {
    if s.mine.None? && w.row.Some? then w.Read() else s
  }

  function Planned(w: World, act: Act): Plan
    requires act.LookUp?
  {
    Plan(AfterRead(w, w.ScopeOf(act.scope)).mine, act.target, act.geometry, act.missing)
  }

  predicate Enabled(w: World, act: Act, digest: Digest) {
    match act
    case Edit(n, op) => w.ScopeOf(n).plan.None? && Applied(w.ScopeOf(n).mine, op, digest, w.requests).Some?
    case LookUp(n, _, _, _) => w.ScopeOf(n).plan.None? && w.ScopeOf(n).Clean() && !Planned(w, act).Refused()
    case Put(n) => w.ScopeOf(n).plan.Some?
    case Flush(n, _) => w.ScopeOf(n).plan.None? && w.ScopeOf(n).mine.Some? && !w.ScopeOf(n).Clean()
    case _ => true
  }

  /** Whether the flush of a scope finds the revision it read (or no row, for a new entity). */
  predicate UpToDate(w: World, s: Scope) {
    match s.baseline
    case None => w.row.None?
    case Some(base) => w.row.Some? && w.row.value.revision == base.revision
  }

  /** The assignment reads the row once more when the scope has none; the plan rests on the look-up. */
  function AfterPut(w: World, s: Scope, digest: Digest): Scope
    requires s.plan.Some?
  {
    var t := AfterRead(w, s);
    t.(mine := Some(Materialized(s.plan.value, digest, w.requests)), plan := None,
       blind := s.plan.value.existing.None? && t.baseline.Some? && t.baseline.value.entity.status == APPROVED)
  }

  /** A dispatch stamp in the flush is one more update, after the scope re-read the row. */
  function Next(w: World, act: Act, digest: Digest): World
    requires Enabled(w, act, digest)
  {
    match act
    case Load(n) => w.With(n, w.Read())
    case Edit(n, op) =>
      var s := w.ScopeOf(n);
      w.With(n, s.(mine := Applied(s.mine, op, digest, w.requests))).(requests := w.requests + 1)
    case LookUp(n, _, _, _) => w.With(n, AfterRead(w, w.ScopeOf(n)).(plan := Some(Planned(w, act))))
    case Put(n) => w.With(n, AfterPut(w, w.ScopeOf(n), digest)).(requests := w.requests + 1)
    case Rollback(n) =>
      var s := w.ScopeOf(n);
      w.With(n, s.(mine := Contents(s.baseline), plan := None, blind := false))
    case Flush(n, dispatch) =>
      var s := w.ScopeOf(n);
      if !UpToDate(w, s) then w
      else
        var revision := if w.row.Some? then w.row.value.revision + 1 else 1;
        var born := if w.row.Some? then w.born else w.born + 1;
        World(Some(Committed(s.mine.value, if dispatch then revision + 1 else revision)), born,
              w.scopes[n := Scope(Some(Committed(s.mine.value, revision)), s.mine, born, None, false)], w.requests)
    case Redispatch => if w.row.Some? then w.(row := Some(w.row.value.(revision := w.row.value.revision + 1))) else w
    case Delete => w.(row := None)
  }

  /** A stretch of a run. */
  ghost predicate Steps(worlds: seq<World>, acts: seq<Act>, digest: Digest) {
    && |worlds| == |acts| + 1
    && forall k | 0 <= k < |acts| :: Enabled(worlds[k], acts[k], digest) && worlds[k + 1] == Next(worlds[k], acts[k], digest)
  }

  ghost predicate Execution(worlds: seq<World>, acts: seq<Act>, digest: Digest) {
    Steps(worlds, acts, digest) && worlds[0] == World(None, 0, map[], 0)
  }

  /** A baseline from the row's present life is never ahead of it, and at the same revision it is the row. */
  ghost predicate Follows(w: World, s: Scope) {
    && s.born <= w.born
    && (s.baseline.Some? && s.born == w.born && w.row.Some? ==>
          s.baseline.value.revision <= w.row.value.revision
          && (s.baseline.value.revision == w.row.value.revision ==> s.baseline.value.entity == w.row.value.entity))
  }

  /** What a scope pends keeps an approved baseline approved or retires it, unless an import was blind. */
  ghost predicate Guarded(s: Scope) {
    && (s.baseline.Some? ==> s.mine.Some?)
    && (s.plan.Some? ==> s.Clean() && s.plan.value.existing == s.mine && !s.plan.value.Refused())
    && (s.blind ==> s.baseline.Some? && s.baseline.value.entity.status == APPROVED)
    && (!s.blind && s.baseline.Some? ==> ApprovedOnlyRetires(s.baseline.value.entity, s.mine.value))
  }

  ghost predicate ScopeInv(w: World, s: Scope, digest: Digest) {
    && (s.mine.Some? ==> Current(s.mine.value, digest))
    && (s.baseline.Some? ==> Current(s.baseline.value.entity, digest))
    && Guarded(s) && Follows(w, s)
  }

  ghost predicate Inv(w: World, digest: Digest) {
    && (w.row.Some? ==> Current(w.row.value.entity, digest))
    && forall n :: ScopeInv(w, w.ScopeOf(n), digest)
  }

  lemma EditKeepsScope(w: World, s: Scope, op: Op, digest: Digest)
    requires ScopeInv(w, s, digest) && s.plan.None? && Applied(s.mine, op, digest, w.requests).Some?
    ensures ScopeInv(w, s.(mine := Applied(s.mine, op, digest, w.requests)), digest)
  {
    OperationsKeepCurrent(s.mine, op, digest, w.requests);
    if s.baseline.Some? && !s.blind {
      OperationsKeepApproval(s.baseline.value.entity, s.mine.value, op, digest, w.requests);
    }
  }

  lemma PutKeepsScope(w: World, s: Scope, digest: Digest)
    requires ScopeInv(w, s, digest) && s.plan.Some? && (w.row.Some? ==> Current(w.row.value.entity, digest))
    ensures ScopeInv(w, AfterPut(w, s, digest), digest)
  {
    MaterializedKeeps(s.plan.value, digest, w.requests);
  }

  lemma StepKeepsInv(w: World, act: Act, digest: Digest)
    requires Inv(w, digest) && Enabled(w, act, digest)
    ensures Inv(Next(w, act, digest), digest)
  {
    var next := Next(w, act, digest);
    forall n
      ensures ScopeInv(next, next.ScopeOf(n), digest)
    {
      assert ScopeInv(w, w.ScopeOf(n), digest);
      if act.Edit? && act.scope == n { EditKeepsScope(w, w.ScopeOf(n), act.op, digest); }
      if act.Put? && act.scope == n { PutKeepsScope(w, w.ScopeOf(n), digest); }
    }
  }

  lemma {:induction false} Invariant(worlds: seq<World>, acts: seq<Act>, digest: Digest, k: nat)
    requires Execution(worlds, acts, digest) && k <= |acts|
    ensures Inv(worlds[k], digest)
  {
    if k > 0 {
      Invariant(worlds, acts, digest, k - 1);
      assert worlds[k - 1 + 1] == Next(worlds[k - 1], acts[k - 1], digest);
      StepKeepsInv(worlds[k - 1], acts[k - 1], digest);
    }
  }

  // ---- Main results ----

  /** In every reachable state a queued or completed enrichment carries the digest of the current geometry. */
  lemma EnrichmentIsCurrent(worlds: seq<World>, acts: seq<Act>, digest: Digest, k: nat)
    requires Execution(worlds, acts, digest) && k <= |acts| && worlds[k].row.Some?
    ensures Current(worlds[k].row.value.entity, digest)
  {
    Invariant(worlds, acts, digest, k);
  }

  /** The scope's baseline stems from a row that was deleted and created again since. */
  predicate Outlived(w: World, s: Scope) { s.baseline.Some? && s.born != w.born }

  /** Exactly when an approved row becomes anything but retired: a scope flushes another status at the row's
      revision, and either it outlived the row it read, or its import looked before the row was there. */
  lemma ApprovedOnlyRetire(worlds: seq<World>, acts: seq<Act>, digest: Digest, k: nat)
    requires Execution(worlds, acts, digest) && k < |acts|
    requires worlds[k].row.Some? && worlds[k + 1].row.Some?
    ensures !ApprovedOnlyRetires(worlds[k].row.value.entity, worlds[k + 1].row.value.entity)
            <==> && worlds[k].row.value.entity.status == APPROVED && acts[k].Flush?
                 && var s := worlds[k].ScopeOf(acts[k].scope);
                    && UpToDate(worlds[k], s) && s.mine.value.status != APPROVED && s.mine.value.status != RETIRED
                    && (Outlived(worlds[k], s) || s.blind)
  {
    Invariant(worlds, acts, digest, k);
    if acts[k].Flush? { assert ScopeInv(worlds[k], worlds[k].ScopeOf(acts[k].scope), digest); }
  }

  // ---- What a review achieves ----

  predicate By(act: Act, n: nat) {
    match act
    case Redispatch => false
    case Delete => false
    case _ => act.scope == n
  }

  lemma {:induction false} ScopeRests(worlds: seq<World>, acts: seq<Act>, digest: Digest, n: nat, j: nat, k: nat)
    requires Execution(worlds, acts, digest) && j <= k <= |acts| && n in worlds[j].scopes
    requires forall m | j <= m < k :: !By(acts[m], n)
    ensures n in worlds[k].scopes && worlds[k].scopes[n] == worlds[j].scopes[n]
  {
    if j != k {
      ScopeRests(worlds, acts, digest, n, j, k - 1);
      assert worlds[k - 1 + 1] == Next(worlds[k - 1], acts[k - 1], digest);
    }
  }

  /** In every run: when a scope loads the row, reviews it and flushes, whatever others do in between, then it had read a
      candidate, and if its flush changes the row, it leaves the decision, the geometry as it was, and after an approval
      of an entity that misses its location a request for it. */
  lemma ReviewCommits(worlds: seq<World>, acts: seq<Act>, digest: Digest, a: nat, b: nat, c: nat, n: nat, decision: Status, missing: bool)
    requires Execution(worlds, acts, digest) && a < b < c < |acts|
    requires acts[a] == Load(n) && acts[b] == Edit(n, Review(decision, missing)) && acts[c].Flush? && acts[c].scope == n
    requires forall m | a < m < c && m != b :: !By(acts[m], n)
    ensures worlds[a].row.Some? && worlds[a].row.value.entity.status == CANDIDATE && (decision == APPROVED || decision == REJECTED)
    ensures worlds[c + 1].row != worlds[c].row ==>
              && worlds[c + 1].row.Some?
              && var before, after := worlds[a].row.value.entity, worlds[c + 1].row.value.entity;
                 && after.status == decision && after.geometry == before.geometry
                 && (decision == APPROVED && missing && before.geometry.Some? ==>
                       after.enrichment == Some(QUEUED) && after.hash == Some(digest(before.geometry.value)))
  {
    assert worlds[a + 1] == Next(worlds[a], acts[a], digest);
    ScopeRests(worlds, acts, digest, n, a + 1, b);
    assert Enabled(worlds[b], acts[b], digest) && worlds[b + 1] == Next(worlds[b], acts[b], digest);
    ScopeRests(worlds, acts, digest, n, b + 1, c);
    assert worlds[c + 1] == Next(worlds[c], acts[c], digest);
  }

  /** A flush that commits does so on the very row its scope read. */
  lemma CommitsOnWhatItRead(worlds: seq<World>, acts: seq<Act>, digest: Digest, k: nat)
    requires Execution(worlds, acts, digest) && k < |acts| && acts[k].Flush? && !Outlived(worlds[k], worlds[k].ScopeOf(acts[k].scope))
    requires worlds[k].row.Some? && worlds[k + 1].row != worlds[k].row
    ensures worlds[k].ScopeOf(acts[k].scope).baseline.Some?
    ensures worlds[k].ScopeOf(acts[k].scope).baseline.value.entity == worlds[k].row.value.entity
  {
    Invariant(worlds, acts, digest, k);
    assert ScopeInv(worlds[k], worlds[k].ScopeOf(acts[k].scope), digest);
  }

  /** A provider's answer commits only while its request is the row's current one and its geometry unchanged. */
  lemma ResultIsForCurrentRequest(worlds: seq<World>, acts: seq<Act>, digest: Digest, k: nat, op: Op)
    requires Execution(worlds, acts, digest) && k < |acts| && acts[k].Flush? && !Outlived(worlds[k], worlds[k].ScopeOf(acts[k].scope))
    requires worlds[k].row.Some? && worlds[k + 1].row != worlds[k].row && op.ApplyResult?
    requires var s := worlds[k].ScopeOf(acts[k].scope);
             s.baseline.Some? && s.mine == Applied(Contents(s.baseline), op, digest, worlds[k].requests)
    ensures worlds[k].row.value.entity.requestId == Some(op.request)
    ensures Hashed(worlds[k].row.value.entity.geometry, digest) == Some(op.geometryHash)
  {
    CommitsOnWhatItRead(worlds, acts, digest, k);
  }

  // ---- Where the guards end ----

  lemma Joined(front: seq<World>, acts: seq<Act>, back: seq<World>, more: seq<Act>, digest: Digest)
    requires Steps(front, acts, digest) && Steps(back, more, digest) && front[|front| - 1] == back[0]
    ensures Steps(front + back[1..], acts + more, digest)
  {
    var worlds, all := front + back[1..], acts + more;
    forall k | 0 <= k < |all|
      ensures Enabled(worlds[k], all[k], digest) && worlds[k + 1] == Next(worlds[k], all[k], digest)
    {
      if k >= |acts| { assert worlds[k] == back[k - |acts|] && worlds[k + 1] == back[k - |acts| + 1]; }
    }
  }

  function Imports(n: nat, target: Status, missing: bool): seq<Act> { [LookUp(n, target, 0, missing), Put(n)] }

  function Creates(n: nat, target: Status): seq<Act> { Imports(n, target, true) + [Flush(n, true)] }

  /** A promotion creates the row, with a request for its location. */
  lemma CreatedBy(w: World, n: nat, target: Status, digest: Digest) returns (worlds: seq<World>)
    requires w.row == None && n !in w.scopes
    ensures Steps(worlds, Creates(n, target), digest) && worlds[0] == w
    ensures worlds[3].born == w.born + 1 && worlds[3].requests == w.requests + 1
    ensures forall m | m != n :: m in worlds[3].scopes <==> m in w.scopes
    ensures forall m | m in w.scopes :: worlds[3].scopes[m] == w.scopes[m]
    ensures worlds[3].row == Some(Committed(Entity(target, Some(0), Some(QUEUED), Some(digest(0)), Some(w.requests)), 2))
  {
    var w1 := Next(w, LookUp(n, target, 0, true), digest);
    var w2 := Next(w1, Put(n), digest);
    worlds := [w, w1, w2, Next(w2, Flush(n, true), digest)];
  }

  /** Another promotion reads and edits the row, and then the row is deleted. */
  lemma OutlivedBy(w: World, n: nat, digest: Digest) returns (worlds: seq<World>)
    requires w.row.Some? && w.row.value.entity.status == CANDIDATE && w.row.value.entity.geometry == Some(0) && n !in w.scopes
    ensures Steps(worlds, Imports(n, CANDIDATE, false) + [Delete], digest) && worlds[0] == w
    ensures worlds[3].row == None && worlds[3].born == w.born && worlds[3].scopes.Keys == w.scopes.Keys + {n}
    ensures worlds[3].scopes[n] == Scope(w.row, Some(Entity(CANDIDATE, Some(0), None, None, None)), w.born, None, false)
  {
    var w1 := Next(w, LookUp(n, CANDIDATE, 0, false), digest);
    var w2 := Next(w1, Put(n), digest);
    worlds := [w, w1, w2, Next(w2, Delete, digest)];
  }

  /** Why the revision is not enough: while a promotion that holds no row lock is at work on a candidate
      entity, the entity is deleted, and another promotion creates it anew as approved, at the same
      revision. The first promotion then commits and takes the approval away. */
  lemma RecreationDefeatsTheRevision(digest: Digest) returns (worlds: seq<World>, acts: seq<Act>)
    ensures Execution(worlds, acts, digest) && |acts| == 10
    ensures acts[3] == LookUp(1, CANDIDATE, 0, false) && acts[9] == Flush(1, false)
    ensures Outlived(worlds[9], worlds[9].ScopeOf(1)) && !worlds[9].ScopeOf(1).blind
    ensures worlds[9].row.Some? && worlds[9].row.value.entity.status == APPROVED
    ensures worlds[10].row.Some? && worlds[10].row.value.entity.status == CANDIDATE
  {
    var first := CreatedBy(World(None, 0, map[], 0), 0, CANDIDATE, digest);
    var outlived := OutlivedBy(first[3], 1, digest);
    var second := CreatedBy(outlived[3], 2, APPROVED, digest);
    var last := Next(second[3], Flush(1, false), digest);
    var edits := Imports(1, CANDIDATE, false) + [Delete];
    Joined(first, Creates(0, CANDIDATE), outlived, edits, digest);
    var front := first + outlived[1..];
    Joined(front, Creates(0, CANDIDATE) + edits, second, Creates(2, APPROVED), digest);
    var all := Creates(0, CANDIDATE) + edits + Creates(2, APPROVED);
    worlds, acts := front + second[1..] + [last], all + [Flush(1, false)];
    Joined(front + second[1..], all, [second[3], last], [Flush(1, false)], digest);
    assert [second[3], last][1..] == [last];
  }

  /** Why the guard is not enough either: a promotion looks the entity up before it exists, another one
      creates it as approved, and the assignment of the first takes the approved row as its baseline.
      Its flush meets the revision it read and takes the approval away, in the row's first life. */
  lemma LookUpMissesAnApproval(digest: Digest) returns (worlds: seq<World>, acts: seq<Act>)
    ensures Execution(worlds, acts, digest) && acts == [LookUp(1, CANDIDATE, 0, false)] + Creates(2, APPROVED) + [Put(1), Flush(1, false)]
    ensures worlds[5].ScopeOf(1).blind && !Outlived(worlds[5], worlds[5].ScopeOf(1))
    ensures worlds[5].row.Some? && worlds[5].row.value.entity.status == APPROVED
    ensures worlds[6].row.Some? && worlds[6].row.value.entity.status == CANDIDATE
  {
    var looked := Next(World(None, 0, map[], 0), LookUp(1, CANDIDATE, 0, false), digest);
    var created := CreatedBy(looked, 2, APPROVED, digest);
    var put := Next(created[3], Put(1), digest);
    var last := Next(put, Flush(1, false), digest);
    Joined([World(None, 0, map[], 0), looked], [LookUp(1, CANDIDATE, 0, false)], created, Creates(2, APPROVED), digest);
    var front := [World(None, 0, map[], 0), looked] + created[1..];
    Joined(front, [LookUp(1, CANDIDATE, 0, false)] + Creates(2, APPROVED), [created[3], put, last], [Put(1), Flush(1, false)], digest);
    worlds, acts := front + [put, last], [LookUp(1, CANDIDATE, 0, false)] + Creates(2, APPROVED) + [Put(1), Flush(1, false)];
    assert [created[3], put, last][1..] == [put, last];
  }

  /** A flush that dispatches a request leaves its own scope behind the row: its next flush is refused. */
  lemma DispatchOutdatesItsScope(w: World, n: nat, digest: Digest)
    requires Enabled(w, Flush(n, true), digest) && UpToDate(w, w.ScopeOf(n))
    ensures !UpToDate(Next(w, Flush(n, true), digest), Next(w, Flush(n, true), digest).ScopeOf(n))
    ensures UpToDate(Next(w, Flush(n, false), digest), Next(w, Flush(n, false), digest).ScopeOf(n))
  {
  }

  /** A re-dispatch by the recovery sweep makes every scope that had read the row out of date. */
  lemma RedispatchOutdatesScopes(w: World, s: Scope, digest: Digest)
    requires s.baseline.Some? && UpToDate(w, s)
    ensures !UpToDate(Next(w, Redispatch, digest), s)
    ensures Contents(Next(w, Redispatch, digest).row) == Contents(w.row)
  {
  }
}
