/** `PreparedGraph::gather`: the eligible set of one connection, equal to a scan of the world. */
module InterestEligible {
  import opened NetTypes
  import opened InterestModel
  import opened InterestGrid
  import opened InterestWorld
  import opened InterestGather
  import opened InterestClosure
  import opened InterestRequired
  import opened InterestGraph

  // ---- the exact test after the reverse lists -------------------------------------

  function KeptReasons(
    limits: Limits, e: Registration, view: ConnectionView, previous: bool, reasons: Reasons): Reasons
  {
    if reasons.spatial && !SpatiallyEligible(limits, e, view, previous) then reasons.(spatial := false) else reasons
  }

  /** The permitted candidates whose reasons survive the exact distance test. */
  function Filtered(
    limits: Limits, entities: Entities, candidates: map<EntityId, Reasons>, connection: ConnectionId,
    view: ConnectionView, previous: set<EntityId>, policy: Policy): map<EntityId, Entry>
    requires candidates.Keys <= entities.Keys
  {
    map id |
      && id in candidates
      && Permitted(connection, view, entities[id], policy).Some?
      && !KeptReasons(limits, entities[id], view, id in previous, candidates[id]).IsEmpty()
      :: EntryFor(
           entities[id],
           Permitted(connection, view, entities[id], policy).value,
           KeptReasons(limits, entities[id], view, id in previous, candidates[id]))
  }

  /** An observer that passes the exact test stands in a cell the entity is listed under. */
  lemma SeenIsListed(limits: Limits, e: Registration, view: ConnectionView, previous: bool)
    requires ValidLimits(limits) && FootprintSpan(limits, e).Ok? && e.routes.spatial.Some?
    requires SpatiallyEligible(limits, e, view, previous)
    ensures exists i :: 0 <= i < |view.observers| && ObserverCells(limits, view)[i] in Footprint(limits, e)
  {
    var i :| 0 <= i < |view.observers| && Sees(limits, e, view.observers[i], previous);
    FootprintCovers(limits, e, view.observers[i].position, previous);
    assert ObserverCells(limits, view)[i] in Footprint(limits, e);
  }

  /** For one entity: reverse lists plus exact test give the reasons of the plain scan. */
  lemma KeptIsScanned(
    limits: Limits, connection: ConnectionId, view: ConnectionView, e: Registration, footprint: set<Cell>,
    previous: bool)
    requires ValidLimits(limits) && FootprintSpan(limits, e).Ok? && footprint == Footprint(limits, e)
    ensures KeptReasons(limits, e, view, previous,
      ListedReasons(e.routes, footprint, FullStage(limits, connection, view))) ==
            ScanReasons(limits, connection, view, e, previous)
  {
    var stage := FullStage(limits, connection, view);
    var listed := ListedReasons(e.routes, footprint, stage);
    if e.routes.spatial.Some? && SpatiallyEligible(limits, e, view, previous) {
      SeenIsListed(limits, e, view, previous);
      var i :| 0 <= i < |view.observers| && ObserverCells(limits, view)[i] in footprint;
      assert stage.cells[i] in footprint;
      assert listed.spatial;
    }
    assert e.routes.spatial.None? ==> footprint == {};
  }

  ghost predicate Agree<K, V>(a: map<K, V>, b: map<K, V>, k: K) {
    (k in a <==> k in b) && (k in a ==> a[k] == b[k])
  }

  lemma AgreeEverywhere<K, V>(a: map<K, V>, b: map<K, V>, all: set<K>)
    requires a.Keys <= all && b.Keys <= all
    requires forall k :: k in all ==> Agree(a, b, k)
    ensures a == b
  {
    forall k ensures k in a <==> k in b {
      assert k in all ==> Agree(a, b, k);
    }
    forall k | k in a ensures a[k] == b[k] {
      assert Agree(a, b, k);
    }
  }

  lemma OneFiltered(
    limits: Limits, w: World, candidates: map<EntityId, Reasons>, connection: ConnectionId, view: ConnectionView,
    previous: set<EntityId>, policy: Policy, id: EntityId)
    requires ValidLimits(limits) && w.footprints == CellsOf(limits, w.entities) && Registered(limits, w.entities)
    requires Names(candidates, w, FullStage(limits, connection, view)) && id in w.entities
    requires candidates.Keys <= w.entities.Keys
    ensures Agree(
      Filtered(limits, w.entities, candidates, connection, view, previous, policy),
      FullScan(limits, w.entities, connection, view, previous, policy),
      id)
  {
    assert Acceptable(limits, id, w.entities[id]);
    KeptIsScanned(limits, connection, view, w.entities[id], w.footprints[id], id in previous);
    if id in candidates {
      assert candidates[id] == StageReasons(w, FullStage(limits, connection, view), id);
    } else {
      assert StageReasons(w, FullStage(limits, connection, view), id).IsEmpty();
    }
  }

  /** Index equals full scan: the filtered candidates are exactly the scan of all registrations. */
  lemma FilteredIsFullScan(
    limits: Limits, w: World, candidates: map<EntityId, Reasons>, connection: ConnectionId, view: ConnectionView,
    previous: set<EntityId>, policy: Policy)
    requires ValidLimits(limits) && w.footprints == CellsOf(limits, w.entities) && Registered(limits, w.entities)
    requires Names(candidates, w, FullStage(limits, connection, view)) && candidates.Keys <= w.entities.Keys
    ensures Filtered(limits, w.entities, candidates, connection, view, previous, policy) ==
            FullScan(limits, w.entities, connection, view, previous, policy)
  {
    forall id | id in w.entities.Keys
      ensures Agree(
        Filtered(limits, w.entities, candidates, connection, view, previous, policy),
        FullScan(limits, w.entities, connection, view, previous, policy),
        id)
    {
      OneFiltered(limits, w, candidates, connection, view, previous, policy, id);
    }
    AgreeEverywhere(
      Filtered(limits, w.entities, candidates, connection, view, previous, policy),
      FullScan(limits, w.entities, connection, view, previous, policy),
      w.entities.Keys);
  }

  // ---- the prediction group --------------------------------------------------------

  datatype Prediction = NotRequested | Admitted(members: set<EntityId>) | Refused(error: DependencyError)

  /** The scan with a whole admitted group added; members already eligible gain the flag. */
  function WithRequired(scan: map<EntityId, Entry>, required: map<EntityId, Entry>): map<EntityId, Entry> {
    map id | id in scan.Keys + required.Keys ::
      if id !in scan then required[id]
      else if id in required then scan[id].(reasons := scan[id].reasons.Insert(REQUIRED))
      else scan[id]
  }

  ghost function RequiredEntries(
    entities: Entities, connection: ConnectionId, view: ConnectionView, policy: Policy, members: set<EntityId>)
    : map<EntityId, Entry>
  {
    map id | id in members && Predictable(connection, view, policy, entities, id) ::
      EntryFor(entities[id], Permitted(connection, view, entities[id], policy).value, REQUIRED)
  }

  /** The least closed group around the roots may be admitted and still fits beside the scan. */
  ghost predicate Admits(
    limits: Limits, entities: Entities, connection: ConnectionId, view: ConnectionView, roots: set<EntityId>,
    policy: Policy, scan: map<EntityId, Entry>, members: set<EntityId>)
  {
    && Admissible(limits, entities, connection, view, roots, policy, members)
    && Least(entities, roots, members)
    && |scan.Keys + members| <= limits.maxCandidates
  }

  /** An admissible group exists, and does not fit beside the scan. */
  ghost predicate Crowded(
    limits: Limits, entities: Entities, connection: ConnectionId, view: ConnectionView, roots: set<EntityId>,
    policy: Policy, scan: map<EntityId, Entry>)
  {
    exists members ::
      && Admissible(limits, entities, connection, view, roots, policy, members)
      && Least(entities, roots, members)
      && |scan.Keys + members| > limits.maxCandidates
  }

  /**
   All or nothing, and refused for a cause: the group is admitted exactly when some group can be, and otherwise
   leaves no trace.
   */
  ghost predicate PredictionCorrect(
    limits: Limits, entities: Entities, connection: ConnectionId, view: ConnectionView, roots: set<EntityId>,
    policy: Policy, scan: map<EntityId, Entry>, prediction: Prediction, entries: map<EntityId, Entry>)
  {
    match prediction
    case NotRequested => roots == {} && entries == scan
    case Admitted(members) =>
      && roots != {}
      && Admits(limits, entities, connection, view, roots, policy, scan, members)
      && entries == WithRequired(scan, RequiredEntries(entities, connection, view, policy, members))
    case Refused(error) =>
      && roots != {}
      && entries == scan
      && (|| Cause(limits, entities, connection, view, roots, policy, error)
          || (error == EntityLimit && Crowded(limits, entities, connection, view, roots, policy, scan)))
      && forall members :: !Admits(limits, entities, connection, view, roots, policy, scan, members)
  }

  lemma LeastIsUnique(entities: Entities, roots: set<EntityId>, a: set<EntityId>, b: set<EntityId>)
    requires roots <= a && Closed(entities, a) && Least(entities, roots, a)
    requires roots <= b && Closed(entities, b) && Least(entities, roots, b)
    ensures a == b
  {
  }

  lemma RequiredAreEntries(
    entities: Entities, connection: ConnectionId, view: ConnectionView, policy: Policy, required: map<EntityId, Entry>)
    requires Visited(entities, connection, view, policy, required, required.Keys)
    ensures required == RequiredEntries(entities, connection, view, policy, required.Keys)
  {
    var expected := RequiredEntries(entities, connection, view, policy, required.Keys);
    forall id | id in required ensures id in expected && required[id] == expected[id] {
      assert Predictable(connection, view, policy, entities, id);
    }
    assert required.Keys == expected.Keys;
  }

  lemma CrowdedOut(
    limits: Limits, entities: Entities, connection: ConnectionId, view: ConnectionView, roots: set<EntityId>,
    policy: Policy, scan: map<EntityId, Entry>, members: set<EntityId>)
    requires Admissible(limits, entities, connection, view, roots, policy, members) && Least(entities, roots, members)
    requires |scan.Keys + members| > limits.maxCandidates
    ensures forall other :: !Admits(limits, entities, connection, view, roots, policy, scan, other)
  {
    forall other ensures !Admits(limits, entities, connection, view, roots, policy, scan, other) {
      if Admissible(limits, entities, connection, view, roots, policy, other) && Least(entities, roots, other) {
        LeastIsUnique(entities, roots, members, other);
      }
    }
  }

  lemma AdditionalCount(scan: set<EntityId>, members: set<EntityId>)
    ensures |scan| + |members - scan| == |scan + members|
  {
    assert scan + members == scan + (members - scan);
  }

  method Predict(
    limits: Limits, entities: Entities, connection: ConnectionId, view: ConnectionView, roots: set<EntityId>,
    policy: Policy, scan: map<EntityId, Entry>)
    returns (prediction: Prediction, entries: map<EntityId, Entry>)
    ensures PredictionCorrect(limits, entities, connection, view, roots, policy, scan, prediction, entries)
  {
    if roots == {} {
      return NotRequested, scan;
    }
    var required := Required(limits, entities, connection, view, roots, policy);
    if required.Err? {
      forall members ensures !Admits(limits, entities, connection, view, roots, policy, scan, members) {
        CauseExcludes(limits, entities, connection, view, roots, policy, required.error, members);
      }
      return Refused(required.error), scan;
    }
    var members := required.value.Keys;
    AdditionalCount(scan.Keys, members);
    if |scan.Keys| + |members - scan.Keys| > limits.maxCandidates {
      CrowdedOut(limits, entities, connection, view, roots, policy, scan, members);
      return Refused(EntityLimit), scan;
    }
    RequiredAreEntries(entities, connection, view, policy, required.value);
    return Admitted(members), WithRequired(scan, required.value);
  }

  // ---- gathering -------------------------------------------------------------------

  datatype EligibleSet = EligibleSet(
    connection: ConnectionId,
    worldRevision: nat,
    policyRevision: nat,
    frame: nat,
    tick: nat,
    entries: map<EntityId, Entry>,
    prediction: Prediction,
    candidateVisits: nat,
    candidates: nat)

  /** The lists that concern the connection stay within both work ceilings. */
  ghost predicate WithinWork(limits: Limits, w: World, stage: Stage)
    requires w.footprints.Keys == w.entities.Keys
  {
    Visits(w, stage) <= limits.maxCandidateVisits && |CandidateIds(w, stage)| <= limits.maxCandidates
  }

  lemma NamedCount(candidates: map<EntityId, Reasons>, w: World, stage: Stage)
    requires w.footprints.Keys == w.entities.Keys && Names(candidates, w, stage)
    ensures candidates.Keys == CandidateIds(w, stage) && candidates.Keys <= w.entities.Keys
    ensures |candidates| == |CandidateIds(w, stage)|
  {
    assert candidates.Keys == CandidateIds(w, stage);
  }

  /** Lists, exact test and prediction group against a consistent world. */
  method GatherWorld(
    limits: Limits, w: World, connection: ConnectionId, view: ConnectionView, previous: set<EntityId>,
    roots: set<EntityId>, policy: Policy)
    returns (error: Option<GatherError>, entries: map<EntityId, Entry>, prediction: Prediction, visits: nat, count: nat)
    requires ValidLimits(limits) && Consistent(w) && Placed(limits, w)
    ensures error.None? <==> WithinWork(limits, w, FullStage(limits, connection, view))
    ensures error.Some? ==> Overflows(limits, w, FullStage(limits, connection, view), error.value)
    ensures error.None? ==> PredictionCorrect(
      limits, w.entities, connection, view, roots, policy,
      FullScan(limits, w.entities, connection, view, previous, policy), prediction, entries)
    ensures error.None? ==> visits == Visits(w, FullStage(limits, connection, view))
    ensures error.None? ==> count == |CandidateIds(w, FullStage(limits, connection, view))|
  {
    entries, prediction, count := map[], NotRequested, 0;
    var candidates;
    error, candidates, visits := CollectCandidates(limits, w, connection, view);
    if error.Some? {
      return;
    }
    NamedCount(candidates, w, FullStage(limits, connection, view));
    count := |candidates|;
    FilteredIsFullScan(limits, w, candidates, connection, view, previous, policy);
    var scan := Filtered(limits, w.entities, candidates, connection, view, previous, policy);
    prediction, entries := Predict(limits, w.entities, connection, view, roots, policy, scan);
  }

  /** `PreparedGraph::gather` under the barrier opened by `Graph.Prepare`. */
  method Gather(
    graph: Graph, prepared: Prepared, connection: ConnectionId, previous: set<EntityId>, roots: set<EntityId>,
    policy: Policy)
    returns (r: Result<EligibleSet, GatherError>)
    requires graph.Valid()
    ensures policy.revision != prepared.policyRevision ==> r == Err(StalePolicy)
    ensures policy.revision == prepared.policyRevision && connection !in graph.connections ==>
      r == Err(UnknownConnection)
    ensures policy.revision == prepared.policyRevision && connection in graph.connections ==>
      if |previous| > graph.limits.maxCandidates then r == Err(PreviousEligibilityLimit)
      else
        var stage := FullStage(graph.limits, connection, graph.connections[connection]);
        && (r.Ok? <==> WithinWork(graph.limits, graph.world, stage))
        && (r.Err? ==> Overflows(graph.limits, graph.world, stage, r.error))
    ensures r.Ok? ==>
      && policy.revision == prepared.policyRevision
      && connection in graph.connections
      && |previous| <= graph.limits.maxCandidates
      && r.value.connection == connection
      && r.value.worldRevision == graph.worldRevision
      && r.value.policyRevision == prepared.policyRevision
      && r.value.frame == prepared.frame
      && r.value.tick == prepared.tick
    ensures r.Ok? ==>
      var view := graph.connections[connection];
      var stage := FullStage(graph.limits, connection, view);
      && PredictionCorrect(
           graph.limits, graph.world.entities, connection, view, roots, policy,
           FullScan(graph.limits, graph.world.entities, connection, view, previous, policy),
           r.value.prediction, r.value.entries)
      && r.value.candidateVisits == Visits(graph.world, stage)
      && r.value.candidates == |CandidateIds(graph.world, stage)|
  {
    if policy.revision != prepared.policyRevision {
      return Err(StalePolicy);
    }
    if connection !in graph.connections {
      return Err(UnknownConnection);
    }
    if |previous| > graph.limits.maxCandidates {
      return Err(PreviousEligibilityLimit);
    }
    var error, entries, prediction, visits, count := GatherWorld(
      graph.limits, graph.world, connection, graph.connections[connection], previous, roots, policy);
    if error.Some? {
      return Err(error.value);
    }
    r := Ok(EligibleSet(
      connection, graph.worldRevision, prepared.policyRevision, prepared.frame, prepared.tick, entries, prediction,
      visits, count));
  }
}
