/** The dependency worklist of engine/net/src/interest/gather.rs. */
module InterestRequired {
  import opened NetTypes
  import opened InterestModel
  import opened InterestWorld
  import opened InterestGather
  import opened InterestClosure

  /** Follows the dependencies of one visited member, one counted edge at a time. */
  method Follow(
    limits: Limits, connection: ConnectionId, policy: Policy, id: EntityId, targets: set<EntityId>,
    visited: set<EntityId>, pending: set<EntityId>, edges: nat)
    returns (error: Option<DependencyError>, pending': set<EntityId>, edges': nat)
    requires visited !! pending && |visited| + |pending| <= limits.maxRequired && edges <= limits.maxDependencyEdges
    ensures error.None? ==> pending' == pending + (targets - visited) && |visited| + |pending'| <= limits.maxRequired
    ensures error.None? ==> edges' == edges + |targets| <= limits.maxDependencyEdges
    ensures error.None? ==> forall d :: d in targets ==> policy.permitsDependency(connection, id, d)
    ensures error == Some(EdgeLimit) ==> edges + |targets| > limits.maxDependencyEdges
    ensures error == Some(Denied) ==> exists d :: d in targets && !policy.permitsDependency(connection, id, d)
    ensures error == Some(EntityLimit) ==> |visited + pending + targets| > limits.maxRequired
    ensures error.Some? ==> error.value in {EdgeLimit, Denied, EntityLimit}
  {
    error, pending', edges' := None, pending, edges;
    var rest := targets;
    while rest != {}
      invariant error.None? && rest <= targets
      invariant forall t :: t in pending' <==> t in pending || (t in targets && t !in rest && t !in visited)
      invariant |visited| + |pending'| <= limits.maxRequired
      invariant edges' + |rest| == edges + |targets| && edges' <= limits.maxDependencyEdges
      invariant forall d :: d in targets && d !in rest ==> policy.permitsDependency(connection, id, d)
      decreases |rest|
    {
      var target :| target in rest;
      if edges' >= limits.maxDependencyEdges {
        return Some(EdgeLimit), pending', edges';
      }
      edges' := edges' + 1;
      if !policy.permitsDependency(connection, id, target) {
        return Some(Denied), pending', edges';
      }
      if target !in visited && target !in pending' {
        if |visited| + |pending'| >= limits.maxRequired {
          OneMore(visited, pending', target, visited + pending + targets);
          return Some(EntityLimit), pending', edges';
        }
        pending' := pending' + {target};
      }
      rest := rest - {target};
    }
  }

  /** One turn of the worklist: moves a permitted member to the visited ones and queues its dependencies. */
  method Visit(
    limits: Limits, entities: Entities, connection: ConnectionId, view: ConnectionView, ghost roots: set<EntityId>,
    policy: Policy, id: EntityId, visited: map<EntityId, Entry>, pending: set<EntityId>, edges: nat)
    returns (error: Option<DependencyError>, visited': map<EntityId, Entry>, pending': set<EntityId>, edges': nat)
    requires Progress(limits, entities, connection, view, roots, policy, visited, pending, edges) && id in pending
    requires Predictable(connection, view, policy, entities, id)
    ensures error.Some? ==> Cause(limits, entities, connection, view, roots, policy, error.value)
    ensures error.None? ==> Progress(limits, entities, connection, view, roots, policy, visited', pending', edges')
    ensures error.None? ==> visited'.Keys == visited.Keys + {id}
  {
    var now := visited.Keys + {id};
    var entry := EntryFor(entities[id], Permitted(connection, view, entities[id], policy).value, REQUIRED);
    MoveOver(entities, roots, visited.Keys, pending, id);
    EdgesAdd(entities, visited.Keys, id);
    error, pending', edges' := Follow(
      limits, connection, policy, id, entities[id].dependencies, now, pending - {id}, edges);
    visited' := visited[id := entry];
    if error.Some? {
      FollowFailed(limits, entities, connection, view, roots, policy, id, now, pending - {id}, error.value);
    } else {
      SetStep(entities, visited, pending, id, entry);
      ProgressNext(
        limits, entities, connection, view, roots, policy, visited, pending, edges, id, visited', pending', edges');
    }
  }

  /** `PreparedGraph::required`: Ok exactly when the least closed group around the roots is admissible. */
  method Required(
    limits: Limits, entities: Entities, connection: ConnectionId, view: ConnectionView, roots: set<EntityId>,
    policy: Policy)
    returns (r: Result<map<EntityId, Entry>, DependencyError>)
    ensures r.Ok? ==> Admissible(limits, entities, connection, view, roots, policy, r.value.Keys)
    ensures r.Ok? ==> Least(entities, roots, r.value.Keys)
    ensures r.Ok? ==> Visited(entities, connection, view, policy, r.value, r.value.Keys)
    ensures r.Err? ==> Cause(limits, entities, connection, view, roots, policy, r.error)
  {
    assert AllForced(entities, roots, roots);
    if |roots| > limits.maxRequired {
      return Err(EntityLimit);
    }
    var pending := roots;
    var visited: map<EntityId, Entry> := map[];
    var edges := 0;
    ProgressStart(limits, entities, connection, view, roots, policy);
    while pending != {}
      invariant Progress(limits, entities, connection, view, roots, policy, visited, pending, edges)
      decreases limits.maxRequired - |visited|
    {
      var id :| id in pending;
      assert Forced(entities, roots, id);
      if id !in entities {
        return Err(Missing);
      }
      var grant := Permitted(connection, view, entities[id], policy);
      if grant.None? {
        return Err(Denied);
      }
      if !grant.value.predictionAllowed {
        assert !Predictable(connection, view, policy, entities, id);
        return Err(IncompleteRepresentation);
      }
      ghost var before := visited.Keys;
      var error;
      error, visited, pending, edges := Visit(
        limits, entities, connection, view, roots, policy, id, visited, pending, edges);
      if error.Some? {
        return Err(error.value);
      }
      assert |visited.Keys| == |before| + 1;
    }
    ProgressDone(limits, entities, connection, view, roots, policy, visited, edges);
    r := Ok(visited);
  }

  lemma ProgressStart(
    limits: Limits, entities: Entities, connection: ConnectionId, view: ConnectionView, roots: set<EntityId>,
    policy: Policy)
    requires |roots| <= limits.maxRequired
    ensures Progress(limits, entities, connection, view, roots, policy, map[], roots, 0)
  {
    var none: map<EntityId, Entry> := map[];
    assert EdgeCounts(entities, none.Keys) == map[];
    assert none.Keys + roots == roots;
    assert AllForced(entities, roots, roots);
  }

  lemma ProgressDone(
    limits: Limits, entities: Entities, connection: ConnectionId, view: ConnectionView, roots: set<EntityId>,
    policy: Policy, visited: map<EntityId, Entry>, edges: nat)
    requires Progress(limits, entities, connection, view, roots, policy, visited, {}, edges)
    ensures Admissible(limits, entities, connection, view, roots, policy, visited.Keys)
    ensures Least(entities, roots, visited.Keys)
    ensures Visited(entities, connection, view, policy, visited, visited.Keys)
  {
    var group := visited.Keys;
    assert group + {} == group;
    assert |group| == |visited|;
    forall other | roots <= other && Closed(entities, other) ensures group <= other {
      AllForcedFits(entities, roots, group, other);
    }
  }
}
