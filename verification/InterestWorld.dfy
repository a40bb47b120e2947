/**
 The registrations of the replication graph and the reverse lists kept beside them.

 The registrations are the primary state. Every reverse list and every counter is
 derived: `Consistent` and `Placed` say that each of them is what recomputing it from
 the registrations would give, and each update keeps that by touching only the lists
 of the one entity that changed.
 */
module InterestWorld {
  import opened NetTypes
  import opened Sums
  import opened ReverseIndex
  import opened InterestModel
  import opened InterestGrid

  type Entities = map<EntityId, Registration>

  datatype Change = Upsert(entity: Registration) | Remove(id: EntityId)

  // ---- what a full recomputation gives -----------------------------------------

  ghost function CellsOf(limits: Limits, entities: Entities): map<EntityId, set<Cell>>
    requires limits.cellSize > 0.0
  {
    map id | id in entities :: Footprint(limits, entities[id])
  }

  ghost function OwnersOf(entities: Entities): map<EntityId, set<ConnectionId>> {
    map id | id in entities :: OwnerKeys(entities[id])
  }

  ghost function SemanticsOf(entities: Entities): map<EntityId, set<SemanticId>> {
    map id | id in entities :: entities[id].routes.semantic
  }

  ghost function GlobalsOf(entities: Entities): set<EntityId> {
    set id | id in entities && entities[id].routes.global
  }

  ghost function DynamicOf(entities: Entities): set<EntityId> {
    set id | id in entities && NeedsRefresh(entities[id])
  }

  ghost function Sizes<K>(members: map<EntityId, set<K>>): map<EntityId, nat> {
    map id | id in members :: |members[id]|
  }

  ghost function RouteCounts(entities: Entities): map<EntityId, nat> {
    map id | id in entities :: RouteCount(entities[id])
  }

  ghost function ObserverCounts(connections: map<ConnectionId, ConnectionView>): map<ConnectionId, nat> {
    map c | c in connections :: |connections[c].observers|
  }

  ghost function Memberships(limits: Limits, entities: Entities): nat
    requires limits.cellSize > 0.0
  {
    Total(Sizes(CellsOf(limits, entities)))
  }

  ghost function CellTotal(limits: Limits, entities: Entities): nat
    requires limits.cellSize > 0.0
  {
    |Occupied(CellsOf(limits, entities))|
  }

  ghost function RouteMemberships(entities: Entities): nat {
    Total(RouteCounts(entities))
  }

  /** Identity and geometry every stored registration has passed. */
  predicate Acceptable(limits: Limits, id: EntityId, e: Registration)
    requires limits.cellSize > 0.0
  {
    && e.id == id
    && id.generation != 0
    && e.stateVersion != 0
    && (forall d :: d in e.dependencies ==> d.generation != 0)
    && |e.dependencies| <= limits.maxRequired
    && |e.routes.semantic| <= limits.maxSemanticRoutesPerEntity
    && FootprintSpan(limits, e).Ok?
  }

  ghost predicate Registered(limits: Limits, entities: Entities)
    requires limits.cellSize > 0.0
  {
    && (forall id :: id in entities ==> Acceptable(limits, id, entities[id]))
    && (forall a, b :: a in entities && b in entities && a.index == b.index ==> a == b)
  }

  ghost predicate WithinLimits(limits: Limits, entities: Entities)
    requires limits.cellSize > 0.0
  {
    && |entities| <= limits.maxEntities
    && Memberships(limits, entities) <= limits.maxMemberships
    && CellTotal(limits, entities) <= limits.maxCells
    && RouteMemberships(entities) <= limits.maxRouteMemberships
  }

  predicate ValidView(limits: Limits, view: ConnectionView) {
    && |view.observers| <= limits.maxObservers
    && |view.semanticGrants| <= limits.maxSemanticGrants
    && |view.readyScenes| <= limits.maxReadyScenes
    && forall i :: 0 <= i < |view.observers| ==>
         ValidPosition(limits, view.observers[i].position) && view.observers[i].scene in view.readyScenes
  }

  /**
   The verdict on an upsert, judged only on the registrations before and after it: the
   resource limits are compared with totals recomputed over the whole resulting world.
   */
  ghost function UpsertOutcome(limits: Limits, entities: Entities, e: Registration): Outcome<GraphError>
    requires limits.cellSize > 0.0
  {
    var after := entities[e.id := e];
    if e.id.generation == 0 || e.stateVersion == 0 || exists d :: d in e.dependencies && d.generation == 0 then
      Failed(InvalidIdentity)
    else if exists id :: id in entities && id.index == e.id.index && id != e.id then
      Failed(GenerationConflict)
    else if e.id in entities && e.stateVersion < entities[e.id].stateVersion then
      Failed(RegressedStateVersion)
    else if |after| > limits.maxEntities then
      Failed(Limit("entities"))
    else if |e.dependencies| > limits.maxRequired then
      Failed(Limit("declared dependencies"))
    else if |e.routes.semantic| > limits.maxSemanticRoutesPerEntity then
      Failed(Limit("semantic routes"))
    else if FootprintSpan(limits, e).Err? then
      Failed(FootprintSpan(limits, e).error)
    else if Memberships(limits, after) > limits.maxMemberships then
      Failed(Limit("grid memberships"))
    else if CellTotal(limits, after) > limits.maxCells then
      Failed(Limit("grid cells"))
    else if RouteMemberships(after) > limits.maxRouteMemberships then
      Failed(Limit("route memberships"))
    else
      Done
  }

  ghost function BarrierOutcome(lastTick: Option<nat>, revision: nat, tick: nat): Outcome<GraphError> {
    if lastTick.Some? && tick < lastTick.value then Failed(NonMonotonicTick)
    else if revision >= U64_MAX then Failed(RevisionExhausted)
    else Done
  }

  ghost function ApplyOutcome(
    limits: Limits, entities: Entities, lastTick: Option<nat>, revision: nat, tick: nat,
    change: Change): Outcome<GraphError>
    requires limits.cellSize > 0.0
  {
    var barrier := BarrierOutcome(lastTick, revision, tick);
    if barrier.Failed? || change.Remove? then barrier else UpsertOutcome(limits, entities, change.entity)
  }

  ghost function Applied(entities: Entities, change: Change): Entities {
    match change
    case Upsert(e) => entities[e.id := e]
    case Remove(id) => entities - {id}
  }

  // ---- how the derived values move with one entity ------------------------------

  lemma CellsOfUpdate(limits: Limits, entities: Entities, e: Registration)
    requires limits.cellSize > 0.0
    ensures CellsOf(limits, entities[e.id := e]) == CellsOf(limits, entities)[e.id := Footprint(limits, e)]
  {
  }

  lemma CellsOfRemove(limits: Limits, entities: Entities, id: EntityId)
    requires limits.cellSize > 0.0
    ensures CellsOf(limits, entities - {id}) == CellsOf(limits, entities) - {id}
  {
  }

  lemma RoutesUpdate(entities: Entities, e: Registration)
    ensures OwnersOf(entities[e.id := e]) == OwnersOf(entities)[e.id := OwnerKeys(e)]
    ensures SemanticsOf(entities[e.id := e]) == SemanticsOf(entities)[e.id := e.routes.semantic]
    ensures RouteCounts(entities[e.id := e]) == RouteCounts(entities)[e.id := RouteCount(e)]
  {
  }

  lemma RoutesRemove(entities: Entities, id: EntityId)
    ensures OwnersOf(entities - {id}) == OwnersOf(entities) - {id}
    ensures SemanticsOf(entities - {id}) == SemanticsOf(entities) - {id}
    ensures RouteCounts(entities - {id}) == RouteCounts(entities) - {id}
  {
  }

  lemma FlagsUpdate(entities: Entities, e: Registration)
    requires e.id !in entities
    ensures GlobalsOf(entities[e.id := e]) == GlobalsOf(entities) + (if e.routes.global then {e.id} else {})
    ensures DynamicOf(entities[e.id := e]) == DynamicOf(entities) + (if NeedsRefresh(e) then {e.id} else {})
  {
  }

  lemma FlagsRemove(entities: Entities, id: EntityId)
    ensures GlobalsOf(entities - {id}) == GlobalsOf(entities) - {id}
    ensures DynamicOf(entities - {id}) == DynamicOf(entities) - {id}
  {
  }

  lemma RegisteredRemove(limits: Limits, entities: Entities, id: EntityId)
    requires limits.cellSize > 0.0 && Registered(limits, entities)
    ensures Registered(limits, entities - {id})
  {
    forall a | a in entities - {id} ensures Acceptable(limits, a, (entities - {id})[a]) {
      assert Acceptable(limits, a, entities[a]);
    }
  }

  lemma RegisteredUpdate(limits: Limits, entities: Entities, e: Registration)
    requires limits.cellSize > 0.0 && Registered(limits, entities)
    requires Acceptable(limits, e.id, e)
    requires forall id :: id in entities && id.index == e.id.index ==> id == e.id
    ensures Registered(limits, entities[e.id := e])
  {
    var after := entities[e.id := e];
    forall a | a in after ensures Acceptable(limits, a, after[a]) {
      if a != e.id {
        assert Acceptable(limits, a, entities[a]);
      }
    }
  }

  /** `indices` names the one generation alive at each index; `dynamic` lists the refreshed. */
  ghost predicate IdentitiesIndexed(entities: Entities, indices: map<nat, EntityId>, dynamic: set<EntityId>) {
    && (forall id :: id in entities ==> id.index in indices && indices[id.index] == id)
    && (forall i :: i in indices ==> indices[i] in entities && indices[i].index == i)
    && dynamic == DynamicOf(entities)
  }

  ghost predicate CellsIndexed(
    cells: map<Cell, set<EntityId>>, footprints: map<EntityId, set<Cell>>, memberships: nat)
  {
    && Mirrors(cells, footprints)
    && memberships == Total(Sizes(footprints))
  }

  datatype RouteLists = RouteLists(
    globals: set<EntityId>,
    owners: map<ConnectionId, set<EntityId>>,
    semantics: map<SemanticId, set<EntityId>>,
    memberships: nat)

  ghost predicate RoutesIndexed(entities: Entities, lists: RouteLists) {
    && lists.globals == GlobalsOf(entities)
    && Mirrors(lists.owners, OwnersOf(entities))
    && Mirrors(lists.semantics, SemanticsOf(entities))
    && lists.memberships == Total(RouteCounts(entities))
  }

  lemma IdentitiesRemove(entities: Entities, indices: map<nat, EntityId>, dynamic: set<EntityId>, id: EntityId)
    requires IdentitiesIndexed(entities, indices, dynamic) && id in entities
    ensures IdentitiesIndexed(entities - {id}, indices - {id.index}, dynamic - {id})
  {
    FlagsRemove(entities, id);
  }

  lemma IdentitiesUpdate(entities: Entities, indices: map<nat, EntityId>, dynamic: set<EntityId>, e: Registration)
    requires IdentitiesIndexed(entities, indices, dynamic) && e.id !in entities && e.id.index !in indices
    ensures IdentitiesIndexed(
      entities[e.id := e], indices[e.id.index := e.id], dynamic + (if NeedsRefresh(e) then {e.id} else {}))
  {
    FlagsUpdate(entities, e);
  }

  lemma MembershipsUpdate(members: map<EntityId, set<Cell>>, id: EntityId, wanted: set<Cell>)
    ensures Total(Sizes(members[id := wanted])) ==
            Total(Sizes(members)) - (if id in members then |members[id]| else 0) + |wanted|
  {
    assert Sizes(members[id := wanted]) == Sizes(members)[id := |wanted|];
    TotalUpdate(Sizes(members), id, |wanted|);
  }

  lemma MembershipsRemove(members: map<EntityId, set<Cell>>, id: EntityId)
    requires id in members
    ensures Total(Sizes(members - {id})) + |members[id]| == Total(Sizes(members))
  {
    assert Sizes(members - {id}) == Sizes(members) - {id};
    TotalRemove(Sizes(members), id);
  }

  /** Removing an entity never breaks a limit. */
  lemma RemoveWithinLimits(limits: Limits, entities: Entities, id: EntityId)
    requires limits.cellSize > 0.0 && WithinLimits(limits, entities)
    ensures WithinLimits(limits, entities - {id})
  {
    if id !in entities {
      assert entities - {id} == entities;
      return;
    }
    CellsOfRemove(limits, entities, id);
    RoutesRemove(entities, id);
    MembershipsRemove(CellsOf(limits, entities), id);
    TotalRemove(RouteCounts(entities), id);
    assert (entities - {id}).Keys == entities.Keys - {id};
    FewerOccupied(CellsOf(limits, entities), id);
  }

  lemma FewerOccupied(footprints: map<EntityId, set<Cell>>, id: EntityId)
    ensures |Occupied(footprints - {id})| <= |Occupied(footprints)|
  {
    SubsetSize(Occupied(footprints - {id}), Occupied(footprints));
  }

  lemma SpanDecidesFootprint(limits: Limits, a: Registration, b: Registration)
    requires limits.cellSize > 0.0 && a.routes == b.routes
    requires FootprintSpan(limits, a) == FootprintSpan(limits, b) && FootprintSpan(limits, a).Ok?
    ensures Footprint(limits, a) == Footprint(limits, b)
  {
  }

  lemma SameRoutes(entities: Entities, e: Registration)
    requires e.id in entities && entities[e.id].routes == e.routes
    ensures OwnersOf(entities[e.id := e]) == OwnersOf(entities)
    ensures SemanticsOf(entities[e.id := e]) == SemanticsOf(entities)
    ensures GlobalsOf(entities[e.id := e]) == GlobalsOf(entities)
    ensures RouteCounts(entities[e.id := e]) == RouteCounts(entities)
  {
    RoutesUpdate(entities, e);
    UpdateToSame(OwnersOf(entities), e.id);
    UpdateToSame(SemanticsOf(entities), e.id);
    UpdateToSame(RouteCounts(entities), e.id);
  }

  /**
   The fast path: an update that keeps the routes and the influence rectangle changes
   neither a reverse list nor a counter, so it can never fail a resource limit.
   */
  lemma SameFootprintAccepted(limits: Limits, entities: Entities, e: Registration)
    requires limits.cellSize > 0.0 && WithinLimits(limits, entities)
    requires e.id in entities && entities[e.id].routes == e.routes
    requires Footprint(limits, entities[e.id]) == Footprint(limits, e)
    ensures CellsOf(limits, entities[e.id := e]) == CellsOf(limits, entities)
    ensures WithinLimits(limits, entities[e.id := e])
  {
    CellsOfUpdate(limits, entities, e);
    UpdateToSame(CellsOf(limits, entities), e.id);
    SameRoutes(entities, e);
    assert entities[e.id := e].Keys == entities.Keys;
  }

  lemma UpdateToSame<K, V>(m: map<K, V>, k: K)
    requires k in m
    ensures m[k := m[k]] == m
  {
  }

  lemma SameGeometrySameSpan(limits: Limits, a: Registration, b: Registration)
    requires limits.cellSize > 0.0
    requires a.routes == b.routes && a.bounds == b.bounds && a.cullRadius == b.cullRadius
    ensures FootprintSpan(limits, a) == FootprintSpan(limits, b)
  {
  }

  method WithdrawCells(
    cells: map<Cell, set<EntityId>>, footprints: map<EntityId, set<Cell>>, memberships: nat, id: EntityId)
    returns (cells': map<Cell, set<EntityId>>, footprints': map<EntityId, set<Cell>>, memberships': nat)
    requires CellsIndexed(cells, footprints, memberships) && id in footprints
    ensures CellsIndexed(cells', footprints', memberships') && footprints' == footprints - {id}
  {
    MembershipsRemove(footprints, id);
    var held := footprints[id];
    footprints' := footprints - {id};
    memberships' := memberships - |held|;
    cells' := DropAll(cells, held, id, footprints);
  }

  method EnterCells(
    cells: map<Cell, set<EntityId>>, footprints: map<EntityId, set<Cell>>, memberships: nat, id: EntityId,
    footprint: set<Cell>)
    returns (cells': map<Cell, set<EntityId>>, footprints': map<EntityId, set<Cell>>, memberships': nat)
    requires CellsIndexed(cells, footprints, memberships) && id !in footprints
    ensures CellsIndexed(cells', footprints', memberships') && footprints' == footprints[id := footprint]
  {
    MembershipsUpdate(footprints, id, footprint);
    footprints' := footprints[id := footprint];
    memberships' := memberships + |footprint|;
    cells' := InsertAll(cells, footprint, id, footprints);
  }

  method WithdrawRoutes(lists: RouteLists, entity: Registration, ghost entities: Entities) returns (after: RouteLists)
    requires RoutesIndexed(entities, lists) && entity.id in entities && entities[entity.id] == entity
    ensures RoutesIndexed(entities - {entity.id}, after)
  {
    var id := entity.id;
    RoutesRemove(entities, id);
    TotalRemove(RouteCounts(entities), id);
    FlagsRemove(entities, id);
    var owners := DropAll(lists.owners, OwnerKeys(entity), id, OwnersOf(entities));
    var semantics := DropAll(lists.semantics, entity.routes.semantic, id, SemanticsOf(entities));
    after := RouteLists(lists.globals - {id}, owners, semantics, lists.memberships - RouteCount(entity));
  }

  method EnterRoutes(lists: RouteLists, entity: Registration, ghost entities: Entities) returns (after: RouteLists)
    requires RoutesIndexed(entities, lists) && entity.id !in entities
    ensures RoutesIndexed(entities[entity.id := entity], after)
  {
    var id := entity.id;
    RoutesUpdate(entities, entity);
    TotalUpdate(RouteCounts(entities), id, RouteCount(entity));
    FlagsUpdate(entities, entity);
    var globals := lists.globals + (if entity.routes.global then {id} else {});
    var owners := InsertAll(lists.owners, OwnerKeys(entity), id, OwnersOf(entities));
    var semantics := InsertAll(lists.semantics, entity.routes.semantic, id, SemanticsOf(entities));
    after := RouteLists(globals, owners, semantics, lists.memberships + RouteCount(entity));
  }

  /** The registrations together with every list and counter derived from them. */
  datatype World = World(
    entities: Entities,
    indices: map<nat, EntityId>,
    dynamic: set<EntityId>,
    cells: map<Cell, set<EntityId>>,
    footprints: map<EntityId, set<Cell>>,
    memberships: nat,
    routes: RouteLists)

  const EmptyWorld := World(map[], map[], {}, map[], map[], 0, RouteLists({}, map[], map[], 0))

  /**
   Every reverse list and counter is the recomputed one, given the cells each entity
   is registered under; no geometry is involved.
   */
  ghost predicate Consistent(w: World) {
    && w.footprints.Keys == w.entities.Keys
    && IdentitiesIndexed(w.entities, w.indices, w.dynamic)
    && CellsIndexed(w.cells, w.footprints, w.memberships)
    && RoutesIndexed(w.entities, w.routes)
  }

  /** The cells are those of the geometry and no limit is exceeded. */
  ghost predicate Placed(limits: Limits, w: World)
    requires limits.cellSize > 0.0
  {
    && w.footprints == CellsOf(limits, w.entities)
    && Registered(limits, w.entities)
    && WithinLimits(limits, w.entities)
  }

  /** `Graph::remove_indices`: withdraws one entity from every list it is on. */
  method RemoveIndices(w: World, id: EntityId) returns (after: World)
    requires Consistent(w) && (id in w.entities ==> w.entities[id].id == id)
    ensures Consistent(after)
    ensures after.entities == w.entities - {id} && after.footprints == w.footprints - {id}
  {
    if id !in w.entities {
      return w;
    }
    var routes := WithdrawRoutes(w.routes, w.entities[id], w.entities);
    var cells, footprints, memberships := WithdrawCells(w.cells, w.footprints, w.memberships, id);
    IdentitiesRemove(w.entities, w.indices, w.dynamic, id);
    after := World(
      w.entities - {id}, w.indices - {id.index}, w.dynamic - {id}, cells, footprints, memberships, routes);
  }

  /** Registers an entity that is on no list and whose index no generation holds. */
  method InsertIndices(w: World, entity: Registration, footprint: set<Cell>) returns (after: World)
    requires Consistent(w) && entity.id !in w.entities && entity.id.index !in w.indices
    ensures Consistent(after)
    ensures after.entities == w.entities[entity.id := entity]
    ensures after.footprints == w.footprints[entity.id := footprint]
  {
    var id := entity.id;
    var routes := EnterRoutes(w.routes, entity, w.entities);
    var cells, footprints, memberships := EnterCells(w.cells, w.footprints, w.memberships, id, footprint);
    IdentitiesUpdate(w.entities, w.indices, w.dynamic, entity);
    var dynamic := w.dynamic + (if NeedsRefresh(entity) then {id} else {});
    after := World(
      w.entities[id := entity], w.indices[id.index := id], dynamic, cells, footprints, memberships, routes);
  }

  // ---- one upsert ----------------------------------------------------------------

  lemma IdentitiesReplace(entities: Entities, indices: map<nat, EntityId>, dynamic: set<EntityId>, e: Registration)
    requires IdentitiesIndexed(entities, indices, dynamic) && e.id in entities
    ensures IdentitiesIndexed(
      entities[e.id := e], indices, if NeedsRefresh(e) then dynamic + {e.id} else dynamic - {e.id})
  {
  }

  lemma ConflictIsNamed(entities: Entities, indices: map<nat, EntityId>, dynamic: set<EntityId>, id: EntityId)
    requires IdentitiesIndexed(entities, indices, dynamic)
    ensures (exists other :: other in entities && other.index == id.index && other != id) <==>
            (id.index in indices && indices[id.index] != id)
  {
    if id.index in indices {
      assert indices[id.index] in entities;
    }
  }

  /** The totals `apply` predicts from the touched lists are the totals of the resulting world. */
  lemma PredictedTotals(limits: Limits, w: World, e: Registration)
    requires limits.cellSize > 0.0 && Consistent(w) && w.footprints == CellsOf(limits, w.entities)
    ensures Memberships(limits, w.entities[e.id := e]) ==
            w.memberships - |Listed(w.footprints, e.id)| + |Footprint(limits, e)|
    ensures CellTotal(limits, w.entities[e.id := e]) ==
            |w.cells| - |Freed(w.cells, w.footprints, e.id, Footprint(limits, e))|
              + |Footprint(limits, e) - w.cells.Keys|
    ensures RouteMemberships(w.entities[e.id := e]) ==
            w.routes.memberships - (if e.id in w.entities then RouteCount(w.entities[e.id]) else 0) + RouteCount(e)
  {
    CellsOfUpdate(limits, w.entities, e);
    MembershipsUpdate(w.footprints, e.id, Footprint(limits, e));
    PredictedKeys(w.cells, w.footprints, e.id, Footprint(limits, e));
    RoutesUpdate(w.entities, e);
    TotalUpdate(RouteCounts(w.entities), e.id, RouteCount(e));
  }

  lemma EntitiesSize(entities: Entities, e: Registration)
    ensures |entities[e.id := e]| == |entities| + if e.id in entities then 0 else 1
  {
    var after := entities[e.id := e];
    assert after.Keys == entities.Keys + {e.id};
    assert |after| == |after.Keys| && |entities| == |entities.Keys|;
  }

  /** The identity checks that precede any geometry. */
  method CheckIdentity(
    limits: Limits, entities: Entities, indices: map<nat, EntityId>, ghost dynamic: set<EntityId>, e: Registration)
    returns (r: Outcome<GraphError>)
    requires limits.cellSize > 0.0 && IdentitiesIndexed(entities, indices, dynamic) && |entities| <= limits.maxEntities
    ensures r.Failed? ==> r == UpsertOutcome(limits, entities, e)
    ensures r.Done? ==>
      && (FootprintSpan(limits, e).Ok? ==> Acceptable(limits, e.id, e))
      && (FootprintSpan(limits, e).Err? ==>
        UpsertOutcome(limits, entities, e) == Failed(FootprintSpan(limits, e).error))
      && |entities[e.id := e]| <= limits.maxEntities
      && (forall id :: id in entities && id.index == e.id.index ==> id == e.id)
      && (e.id.index in indices ==> indices[e.id.index] == e.id)
      && (e.id in entities ==> entities[e.id].stateVersion <= e.stateVersion)
  {
    ConflictIsNamed(entities, indices, dynamic, e.id);
    EntitiesSize(entities, e);
    if e.id.generation == 0 || e.stateVersion == 0 || exists d :: d in e.dependencies && d.generation == 0 {
      return Failed(InvalidIdentity);
    }
    if e.id.index in indices && indices[e.id.index] != e.id {
      return Failed(GenerationConflict);
    }
    if e.id in entities && e.stateVersion < entities[e.id].stateVersion {
      return Failed(RegressedStateVersion);
    }
    if e.id !in entities && |entities| >= limits.maxEntities {
      return Failed(Limit("entities"));
    }
    if |e.dependencies| > limits.maxRequired {
      return Failed(Limit("declared dependencies"));
    }
    if |e.routes.semantic| > limits.maxSemanticRoutesPerEntity {
      return Failed(Limit("semantic routes"));
    }
    r := Done;
  }

  /** What `CheckIdentity` leaves established about an upsert. */
  ghost predicate Identified(limits: Limits, w: World, e: Registration)
    requires limits.cellSize > 0.0
  {
    && Acceptable(limits, e.id, e)
    && |w.entities[e.id := e]| <= limits.maxEntities
    && (forall id :: id in w.entities && id.index == e.id.index ==> id == e.id)
    && (e.id in w.entities ==> w.entities[e.id].stateVersion <= e.stateVersion)
  }

  lemma IdentifiedOutcome(limits: Limits, w: World, e: Registration)
    requires limits.cellSize > 0.0 && Identified(limits, w, e)
    ensures var after := w.entities[e.id := e];
      UpsertOutcome(limits, w.entities, e) ==
        if Memberships(limits, after) > limits.maxMemberships then Failed(Limit("grid memberships"))
        else if CellTotal(limits, after) > limits.maxCells then Failed(Limit("grid cells"))
        else if RouteMemberships(after) > limits.maxRouteMemberships then Failed(Limit("route memberships"))
        else Done
  {
  }

  /** The unchanged-footprint path: only the registration and the refresh list move. */
  function ReplaceInPlace(w: World, e: Registration): World {
    w.(entities := w.entities[e.id := e],
       dynamic := if NeedsRefresh(e) then w.dynamic + {e.id} else w.dynamic - {e.id})
  }

  lemma ReplaceConsistent(w: World, e: Registration)
    requires Consistent(w) && e.id in w.entities && w.entities[e.id].routes == e.routes
    ensures Consistent(ReplaceInPlace(w, e))
  {
    SameRoutes(w.entities, e);
    IdentitiesReplace(w.entities, w.indices, w.dynamic, e);
    assert w.entities[e.id := e].Keys == w.entities.Keys;
  }

  lemma ReplacePlaced(limits: Limits, w: World, e: Registration)
    requires limits.cellSize > 0.0 && Placed(limits, w) && Identified(limits, w, e)
    requires e.id in w.entities && w.entities[e.id].routes == e.routes
    requires FootprintSpan(limits, w.entities[e.id]) == FootprintSpan(limits, e)
    ensures UpsertOutcome(limits, w.entities, e) == Done
    ensures Placed(limits, ReplaceInPlace(w, e))
  {
    SpanDecidesFootprint(limits, w.entities[e.id], e);
    SameFootprintAccepted(limits, w.entities, e);
    RegisteredUpdate(limits, w.entities, e);
    IdentifiedOutcome(limits, w, e);
  }

  /** Predicted totals against their limits, in the order they are checked. */
  function TotalsOutcome(limits: Limits, memberships: int, cells: int, routes: int): Outcome<GraphError> {
    if memberships > limits.maxMemberships then Failed(Limit("grid memberships"))
    else if cells > limits.maxCells then Failed(Limit("grid cells"))
    else if routes > limits.maxRouteMemberships then Failed(Limit("route memberships"))
    else Done
  }

  /** Keys only `id` holds and does not want again, found by looking at its own lists. */
  function FreedCells(w: World, id: EntityId, footprint: set<Cell>): set<Cell> {
    set c | c in Listed(w.footprints, id) && c !in footprint && c in w.cells && |w.cells[c]| == 1
  }

  lemma PredictedOutcome(limits: Limits, w: World, e: Registration, footprint: set<Cell>)
    requires limits.cellSize > 0.0 && Consistent(w) && Placed(limits, w) && Identified(limits, w, e)
    requires footprint == Footprint(limits, e)
    ensures UpsertOutcome(limits, w.entities, e) == TotalsOutcome(
      limits,
      w.memberships - |Listed(w.footprints, e.id)| + |footprint|,
      |w.cells| - |FreedCells(w, e.id, footprint)| + |footprint - w.cells.Keys|,
      w.routes.memberships - (if e.id in w.entities then RouteCount(w.entities[e.id]) else 0) + RouteCount(e))
  {
    PredictedTotals(limits, w, e);
    IdentifiedOutcome(limits, w, e);
    assert FreedCells(w, e.id, footprint) == Freed(w.cells, w.footprints, e.id, footprint);
  }

  lemma AcceptedWithin(limits: Limits, w: World, e: Registration)
    requires limits.cellSize > 0.0 && Identified(limits, w, e) && UpsertOutcome(limits, w.entities, e) == Done
    ensures WithinLimits(limits, w.entities[e.id := e])
  {
  }

  /** The general path: predict, refuse on a limit, otherwise withdraw and register anew. */
  method Reregister(limits: Limits, w: World, e: Registration) returns (r: Outcome<GraphError>, after: World)
    requires ValidLimits(limits) && Consistent(w) && Placed(limits, w) && Identified(limits, w, e)
    ensures r == UpsertOutcome(limits, w.entities, e)
    ensures r.Failed? ==> after == w
    ensures r.Done? ==> Consistent(after) && Placed(limits, after) && after.entities == w.entities[e.id := e]
  {
    var footprint := Footprint(limits, e);
    var oldRoutes := if e.id in w.entities then RouteCount(w.entities[e.id]) else 0;
    PredictedOutcome(limits, w, e, footprint);
    r := TotalsOutcome(
      limits,
      w.memberships - |Listed(w.footprints, e.id)| + |footprint|,
      |w.cells| - |FreedCells(w, e.id, footprint)| + |footprint - w.cells.Keys|,
      w.routes.memberships - oldRoutes + RouteCount(e));
    if r.Failed? {
      return r, w;
    }
    AcceptedWithin(limits, w, e);
    assert e.id in w.entities ==> Acceptable(limits, e.id, w.entities[e.id]);
    after := Renew(w, e, footprint);
    RenewedPlaced(limits, w, e, after);
  }

  method Renew(w: World, e: Registration, footprint: set<Cell>) returns (after: World)
    requires Consistent(w) && (e.id in w.entities ==> w.entities[e.id].id == e.id)
    requires forall id :: id in w.entities && id.index == e.id.index ==> id == e.id
    ensures Consistent(after) && after.entities == w.entities[e.id := e]
    ensures after.footprints == w.footprints[e.id := footprint]
  {
    var cleared := RemoveIndices(w, e.id);
    IndexFree(cleared.entities, cleared.indices, cleared.dynamic, e.id);
    after := InsertIndices(cleared, e, footprint);
    RemoveThenUpdate(w.entities, e.id, e);
    RemoveThenUpdate(w.footprints, e.id, footprint);
  }

  lemma IndexFree(entities: Entities, indices: map<nat, EntityId>, dynamic: set<EntityId>, id: EntityId)
    requires IdentitiesIndexed(entities, indices, dynamic)
    requires forall other :: other in entities ==> other.index != id.index
    ensures id.index !in indices
  {
  }

  lemma RemoveThenUpdate<K, V>(m: map<K, V>, k: K, v: V)
    ensures (m - {k})[k := v] == m[k := v]
  {
  }

  lemma RenewedPlaced(limits: Limits, w: World, e: Registration, after: World)
    requires limits.cellSize > 0.0 && Placed(limits, w) && Identified(limits, w, e)
    requires WithinLimits(limits, w.entities[e.id := e])
    requires after.entities == w.entities[e.id := e]
    requires after.footprints == w.footprints[e.id := Footprint(limits, e)]
    ensures Placed(limits, after)
  {
    CellsOfUpdate(limits, w.entities, e);
    RegisteredUpdate(limits, w.entities, e);
  }

  /** An unchanged footprint: the upsert is accepted, and replacing in place is all it takes. */
  lemma ReplaceIdentified(limits: Limits, w: World, e: Registration)
    requires ValidLimits(limits) && Consistent(w) && Placed(limits, w)
    requires e.id in w.entities && w.entities[e.id].routes == e.routes
    requires FootprintSpan(limits, w.entities[e.id]) == FootprintSpan(limits, e)
    requires FootprintSpan(limits, e).Ok? ==> Acceptable(limits, e.id, e)
    requires |w.entities[e.id := e]| <= limits.maxEntities
    requires forall id :: id in w.entities && id.index == e.id.index ==> id == e.id
    requires w.entities[e.id].stateVersion <= e.stateVersion
    ensures UpsertOutcome(limits, w.entities, e) == Done
    ensures Consistent(ReplaceInPlace(w, e)) && Placed(limits, ReplaceInPlace(w, e))
  {
    assert Acceptable(limits, e.id, w.entities[e.id]);
    ReplacePlaced(limits, w, e);
    ReplaceConsistent(w, e);
  }

  /** The upsert arm of `Graph::apply`. */
  method UpsertWorld(limits: Limits, w: World, e: Registration) returns (r: Outcome<GraphError>, after: World)
    requires ValidLimits(limits) && Consistent(w) && Placed(limits, w)
    ensures r == UpsertOutcome(limits, w.entities, e)
    ensures r.Failed? ==> after == w
    ensures r.Done? ==> Consistent(after) && Placed(limits, after) && after.entities == w.entities[e.id := e]
  {
    r := CheckIdentity(limits, w.entities, w.indices, w.dynamic, e);
    if r.Failed? {
      return r, w;
    }
    var known := e.id in w.entities;
    var sameRoutes := known && w.entities[e.id].routes == e.routes;
    var sameGeometry := known && w.entities[e.id].bounds == e.bounds && w.entities[e.id].cullRadius == e.cullRadius;
    if sameRoutes && sameGeometry {
      SameGeometrySameSpan(limits, w.entities[e.id], e);
      ReplaceIdentified(limits, w, e);
      return Done, ReplaceInPlace(w, e);
    }
    var span := FootprintSpan(limits, e);
    if span.Err? {
      return Failed(span.error), w;
    }
    if sameRoutes && FootprintSpan(limits, w.entities[e.id]) == span {
      ReplaceIdentified(limits, w, e);
      return Done, ReplaceInPlace(w, e);
    }
    r, after := Reregister(limits, w, e);
  }

  lemma RemovedPlaced(limits: Limits, w: World, id: EntityId, after: World)
    requires limits.cellSize > 0.0 && Placed(limits, w)
    requires after.entities == w.entities - {id} && after.footprints == w.footprints - {id}
    ensures Placed(limits, after)
  {
    CellsOfRemove(limits, w.entities, id);
    RegisteredRemove(limits, w.entities, id);
    RemoveWithinLimits(limits, w.entities, id);
  }

  /** One change, applied to the whole world or not at all. */
  method ChangeWorld(limits: Limits, w: World, change: Change) returns (r: Outcome<GraphError>, after: World)
    requires ValidLimits(limits) && Consistent(w) && Placed(limits, w)
    ensures r == if change.Remove? then Done else UpsertOutcome(limits, w.entities, change.entity)
    ensures Consistent(after) && Placed(limits, after)
    ensures after.entities == if r.Done? then Applied(w.entities, change) else w.entities
    ensures r.Failed? ==> after == w
  {
    match change {
      case Remove(id) =>
        assert id in w.entities ==> Acceptable(limits, id, w.entities[id]);
        after := RemoveIndices(w, id);
        RemovedPlaced(limits, w, id, after);
        r := Done;
      case Upsert(entity) =>
        r, after := UpsertWorld(limits, w, entity);
    }
  }
}
