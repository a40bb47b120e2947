/** Values the replication interest graph works on (engine/net/src/interest/model.rs). */
module InterestModel {
  import opened NetTypes

  type ConnectionId = nat
  type SemanticId = nat
  type SceneRevision = nat

  datatype Vec3 = Vec3(x: real, y: real, z: real)

  datatype Bounds = Bounds(center: Vec3, radius: real)

  datatype SpatialRoute = Static | Dynamic | DormancyDriven

  datatype Routes = Routes(
    spatial: Option<SpatialRoute>,
    global: bool,
    owner: Option<ConnectionId>,
    semantic: set<SemanticId>)

  datatype Visibility = Public | OwnedBy(connection: ConnectionId) | Entitled(semantic: SemanticId) | Never

  datatype Registration = Registration(
    id: EntityId,
    bounds: Bounds,
    cullRadius: real,
    routes: Routes,
    visibility: Visibility,
    dependencies: set<EntityId>,
    stateVersion: nat,
    scene: SceneRevision,
    dormant: bool)

  datatype Observer = Observer(position: Vec3, scene: SceneRevision)

  datatype ConnectionView = ConnectionView(
    observers: seq<Observer>,
    semanticGrants: set<SemanticId>,
    readyScenes: set<SceneRevision>)

  datatype Grant = Grant(schemaId: nat, revision: nat, fields: nat, predictionAllowed: bool)

  /** Immutable committed disclosure policy: pure functions under one revision. */
  datatype Policy = Policy(
    revision: nat,
    representation: (ConnectionId, Registration) -> Option<Grant>,
    permitsDependency: (ConnectionId, EntityId, EntityId) -> bool)

  /** The eligibility flags; several routes may name the same entity. */
  datatype Reasons = Reasons(spatial: bool, global: bool, owner: bool, semantic: bool, required: bool) {
    function Insert(other: Reasons): Reasons {
      Reasons(spatial || other.spatial, global || other.global, owner || other.owner,
              semantic || other.semantic, required || other.required)
    }

    predicate IsEmpty() {
      !spatial && !global && !owner && !semantic && !required
    }
  }

  const NO_REASON := Reasons(false, false, false, false, false)
  const SPATIAL := NO_REASON.(spatial := true)
  const GLOBAL := NO_REASON.(global := true)
  const OWNER := NO_REASON.(owner := true)
  const SEMANTIC := NO_REASON.(semantic := true)
  const REQUIRED := NO_REASON.(required := true)

  datatype Limits = Limits(
    cellSize: real,
    leaveMargin: real,
    prefetch: real,
    maxCoordinate: real,
    maxEntities: nat,
    maxCellsPerEntity: nat,
    maxCells: nat,
    maxMemberships: nat,
    maxRouteMemberships: nat,
    maxSemanticRoutesPerEntity: nat,
    maxConnections: nat,
    maxObservers: nat,
    maxSemanticGrants: nat,
    maxReadyScenes: nat,
    maxCandidates: nat,
    maxCandidateVisits: nat,
    maxRequired: nat,
    maxDependencyEdges: nat)

  datatype GraphError =
    | InvalidConfiguration
    | InvalidBounds
    | InvalidIdentity
    | GenerationConflict
    | RegressedStateVersion
    | NonMonotonicTick
    | NonMonotonicFrame
    | NonMonotonicPolicy
    | RevisionExhausted
    | UnauthorizedView
    | InvalidObserver
    | Limit(what: string)

  predicate ValidLimits(limits: Limits) {
    && limits.cellSize > 0.0
    && limits.maxCoordinate > 0.0
    && limits.leaveMargin >= 0.0
    && limits.prefetch >= 0.0
    && limits.leaveMargin + limits.prefetch <= limits.maxCoordinate
    && 2.0 * limits.maxCoordinate / limits.cellSize < 2305843009213693951.0
    && 0 !in [limits.maxEntities, limits.maxCellsPerEntity, limits.maxCells, limits.maxMemberships,
              limits.maxRouteMemberships, limits.maxSemanticRoutesPerEntity, limits.maxConnections,
              limits.maxObservers, limits.maxSemanticGrants, limits.maxReadyScenes, limits.maxCandidates,
              limits.maxCandidateVisits, limits.maxRequired, limits.maxDependencyEdges]
    && limits.maxCellsPerEntity <= limits.maxMemberships
    && limits.maxRequired <= limits.maxCandidates
    && limits.maxCandidates <= limits.maxCandidateVisits
  }

  function NeedsRefresh(e: Registration): bool {
    || e.routes.spatial == Some(Dynamic)
    || (e.routes.spatial == Some(DormancyDriven) && !e.dormant)
  }

  function OwnerKeys(e: Registration): set<ConnectionId> {
    if e.routes.owner.Some? then {e.routes.owner.value} else {}
  }

  function RouteCount(e: Registration): nat {
    (if e.routes.global then 1 else 0) + (if e.routes.owner.Some? then 1 else 0) + |e.routes.semantic|
  }

  /** Hard access checks and the field policy; the only source of a grant. */
  function Permitted(connection: ConnectionId, view: ConnectionView, e: Registration, policy: Policy): Option<Grant> {
    var visible := match e.visibility
      case Public => true
      case OwnedBy(owner) => owner == connection
      case Entitled(semantic) => semantic in view.semanticGrants
      case Never => false;
    if !visible || e.scene !in view.readyScenes then None
    else
      var grant := policy.representation(connection, e);
      if grant.Some? && grant.value.schemaId != 0 && grant.value.fields != 0 then grant else None
  }
}
