/** The all-or-nothing prediction group: a worklist over declared dependencies. */
module InterestClosure {
  import opened NetTypes
  import opened Sums
  import opened InterestModel
  import opened InterestWorld
  import opened InterestGather

  datatype DependencyError = Missing | Denied | IncompleteRepresentation | EntityLimit | EdgeLimit

  /** Everything a registered member depends on is a member. */
  ghost predicate Closed(entities: Entities, group: set<EntityId>) {
    forall id :: id in group && id in entities ==> entities[id].dependencies <= group
  }

  ghost predicate Predictable(
    connection: ConnectionId, view: ConnectionView, policy: Policy, entities: Entities, id: EntityId)
  {
    && id in entities
    && var grant := Permitted(connection, view, entities[id], policy);
       grant.Some? && grant.value.predictionAllowed
  }

  ghost predicate EdgesPermitted(connection: ConnectionId, policy: Policy, entities: Entities, id: EntityId) {
    id in entities ==> forall d :: d in entities[id].dependencies ==> policy.permitsDependency(connection, id, d)
  }

  ghost function EdgeCounts(entities: Entities, group: set<EntityId>): map<EntityId, nat> {
    map id | id in group && id in entities :: |entities[id].dependencies|
  }

  /** A group that may be admitted: it holds the roots and satisfies every rule and limit. */
  ghost predicate Admissible(
    limits: Limits, entities: Entities, connection: ConnectionId, view: ConnectionView, roots: set<EntityId>,
    policy: Policy, group: set<EntityId>)
  {
    && roots <= group
    && Closed(entities, group)
    && (forall id :: id in group ==> Predictable(connection, view, policy, entities, id))
    && (forall id :: id in group ==> EdgesPermitted(connection, policy, entities, id))
    && |group| <= limits.maxRequired
    && Total(EdgeCounts(entities, group)) <= limits.maxDependencyEdges
  }

  /** No admissible or merely closed group around the roots is smaller. */
  ghost predicate Least(entities: Entities, roots: set<EntityId>, group: set<EntityId>) {
    forall other {:trigger Closed(entities, other)} :: roots <= other && Closed(entities, other) ==> group <= other
  }

  /** Every member is in each closed group around the roots. */
  ghost predicate Forced(entities: Entities, roots: set<EntityId>, id: EntityId) {
    forall other: set<EntityId> {:trigger Closed(entities, other)} ::
      roots <= other && Closed(entities, other) ==> id in other
  }

  ghost predicate AllForced(entities: Entities, roots: set<EntityId>, group: set<EntityId>) {
    forall id :: id in group ==> Forced(entities, roots, id)
  }

  lemma DependencyForced(entities: Entities, roots: set<EntityId>, id: EntityId, d: EntityId)
    requires Forced(entities, roots, id) && id in entities && d in entities[id].dependencies
    ensures Forced(entities, roots, d)
  {
    forall other: set<EntityId> | roots <= other && Closed(entities, other) ensures d in other {
      assert id in other;
    }
  }

  lemma AllForcedFits(entities: Entities, roots: set<EntityId>, group: set<EntityId>, other: set<EntityId>)
    requires AllForced(entities, roots, group)
    requires roots <= other && Closed(entities, other)
    ensures group <= other && |group| <= |other|
  {
    forall id | id in group ensures id in other {
      assert Forced(entities, roots, id);
    }
    SubsetSize(group, other);
  }

  lemma EdgesFit(entities: Entities, group: set<EntityId>, other: set<EntityId>)
    requires group <= other
    ensures Total(EdgeCounts(entities, group)) <= Total(EdgeCounts(entities, other))
  {
    TotalSubmap(EdgeCounts(entities, group), EdgeCounts(entities, other));
  }

  lemma EdgesAdd(entities: Entities, group: set<EntityId>, id: EntityId)
    requires id !in group && id in entities
    ensures Total(EdgeCounts(entities, group + {id}))
      == Total(EdgeCounts(entities, group)) + |entities[id].dependencies|
  {
    assert EdgeCounts(entities, group + {id}) == EdgeCounts(entities, group)[id := |entities[id].dependencies|];
    TotalUpdate(EdgeCounts(entities, group), id, |entities[id].dependencies|);
  }

  /** Why a refused group could not have been admitted. */
  ghost predicate Cause(
    limits: Limits, entities: Entities, connection: ConnectionId, view: ConnectionView, roots: set<EntityId>,
    policy: Policy, error: DependencyError)
  {
    match error
    case Missing =>
      exists id :: Forced(entities, roots, id) && id !in entities
    case Denied =>
      exists id :: (
        && Forced(entities, roots, id)
        && id in entities
        && (Permitted(connection, view, entities[id], policy).None?
          || !EdgesPermitted(connection, policy, entities, id)))
    case IncompleteRepresentation =>
      exists id :: (
        && Forced(entities, roots, id)
        && id in entities
        && !Predictable(connection, view, policy, entities, id))
    case EntityLimit =>
      exists group :: AllForced(entities, roots, group) && |group| > limits.maxRequired
    case EdgeLimit =>
      exists group :: (
        && AllForced(entities, roots, group)
        && Total(EdgeCounts(entities, group)) > limits.maxDependencyEdges)
  }

  /** A cause excludes every admissible group, so a refusal is never premature. */
  lemma CauseExcludes(
    limits: Limits, entities: Entities, connection: ConnectionId, view: ConnectionView, roots: set<EntityId>,
    policy: Policy, error: DependencyError, group: set<EntityId>)
    requires Cause(limits, entities, connection, view, roots, policy, error)
    ensures !Admissible(limits, entities, connection, view, roots, policy, group)
  {
    if roots <= group && Closed(entities, group) {
      match error {
        case Missing =>
          var id :| Forced(entities, roots, id) && id !in entities;
          assert id in group && !Predictable(connection, view, policy, entities, id);
        case Denied =>
          var id :| Forced(entities, roots, id) && id in entities &&
            (Permitted(connection, view, entities[id], policy).None?
              || !EdgesPermitted(connection, policy, entities, id));
          assert id in group;
          assert !Predictable(connection, view, policy, entities, id)
            || !EdgesPermitted(connection, policy, entities, id);
        case IncompleteRepresentation =>
          var id :| Forced(entities, roots, id) && id in entities
            && !Predictable(connection, view, policy, entities, id);
          assert id in group;
        case EntityLimit =>
          var large :| AllForced(entities, roots, large) && |large| > limits.maxRequired;
          AllForcedFits(entities, roots, large, group);
        case EdgeLimit =>
          var large :| AllForced(entities, roots, large)
            && Total(EdgeCounts(entities, large)) > limits.maxDependencyEdges;
          AllForcedFits(entities, roots, large, group);
          EdgesFit(entities, large, group);
      }
    }
  }

  /** What holds of the members already visited. */
  ghost predicate Visited(
    entities: Entities, connection: ConnectionId, view: ConnectionView, policy: Policy,
    visited: map<EntityId, Entry>, reached: set<EntityId>)
  {
    forall id :: id in visited ==>
      && Predictable(connection, view, policy, entities, id)
      && EdgesPermitted(connection, policy, entities, id)
      && entities[id].dependencies <= reached
      && visited[id] == EntryFor(entities[id], Permitted(connection, view, entities[id], policy).value, REQUIRED)
  }

  lemma ForcedTogether(entities: Entities, roots: set<EntityId>, group: set<EntityId>, id: EntityId)
    requires AllForced(entities, roots, group) && id in group && id in entities
    ensures AllForced(entities, roots, group + entities[id].dependencies)
  {
    forall d | d in entities[id].dependencies ensures Forced(entities, roots, d) {
      DependencyForced(entities, roots, id, d);
    }
  }

  lemma OneMore(visited: set<EntityId>, pending: set<EntityId>, target: EntityId, all: set<EntityId>)
    requires visited !! pending && target !in visited && target !in pending
    requires visited <= all && pending <= all && target in all
    ensures |all| > |visited| + |pending|
  {
    assert |visited + pending + {target}| == |visited| + |pending| + 1;
    SubsetSize(visited + pending + {target}, all);
  }

  /** The worklist between two turns. */
  ghost predicate Progress(
    limits: Limits, entities: Entities, connection: ConnectionId, view: ConnectionView, roots: set<EntityId>,
    policy: Policy, visited: map<EntityId, Entry>, pending: set<EntityId>, edges: nat)
  {
    && visited.Keys !! pending
    && roots <= visited.Keys + pending
    && |visited| + |pending| <= limits.maxRequired
    && AllForced(entities, roots, visited.Keys + pending)
    && Visited(entities, connection, view, policy, visited, visited.Keys + pending)
    && edges == Total(EdgeCounts(entities, visited.Keys)) <= limits.maxDependencyEdges
  }

  lemma MoveOver(entities: Entities, roots: set<EntityId>, visited: set<EntityId>, pending: set<EntityId>, id: EntityId)
    requires id in pending && id in entities && AllForced(entities, roots, visited + pending) && visited !! pending
    ensures var now := visited + {id};
      && AllForced(entities, roots, now + (pending - {id}) + entities[id].dependencies)
      && now !! (pending - {id})
      && |now| + |pending - {id}| == |visited| + |pending|
      && visited + pending <= now + (pending - {id}) + entities[id].dependencies
  {
    ForcedTogether(entities, roots, visited + pending, id);
    assert visited + {id} + (pending - {id}) == visited + pending;
  }

  /** The members and the queue after one turn. */
  ghost predicate Turned(
    entities: Entities, visited: map<EntityId, Entry>, pending: set<EntityId>, id: EntityId,
    visited': map<EntityId, Entry>, pending': set<EntityId>)
    requires id in entities
  {
    && visited'.Keys == visited.Keys + {id}
    && visited'.Keys !! pending'
    && visited'.Keys + pending' == visited.Keys + pending + entities[id].dependencies
  }

  lemma SetStep(
    entities: Entities, visited: map<EntityId, Entry>, pending: set<EntityId>, id: EntityId, entry: Entry)
    requires id in pending && id in entities && visited.Keys !! pending
    ensures Turned(
      entities, visited, pending, id, visited[id := entry],
      (pending - {id}) + (entities[id].dependencies - (visited.Keys + {id})))
  {
    assert visited[id := entry].Keys == visited.Keys + {id};
  }

  lemma ProgressNext(
    limits: Limits, entities: Entities, connection: ConnectionId, view: ConnectionView, roots: set<EntityId>,
    policy: Policy, visited: map<EntityId, Entry>, pending: set<EntityId>, edges: nat, id: EntityId,
    visited': map<EntityId, Entry>, pending': set<EntityId>, edges': nat)
    requires Progress(limits, entities, connection, view, roots, policy, visited, pending, edges) && id in pending
    requires Predictable(connection, view, policy, entities, id) && EdgesPermitted(connection, policy, entities, id)
    requires visited' == visited[id := EntryFor(
      entities[id], Permitted(connection, view, entities[id], policy).value, REQUIRED)]
    requires Turned(entities, visited, pending, id, visited', pending')
    requires |visited'| + |pending'| <= limits.maxRequired
    requires edges' == edges + |entities[id].dependencies| <= limits.maxDependencyEdges
    ensures Progress(limits, entities, connection, view, roots, policy, visited', pending', edges')
  {
    ForcedTogether(entities, roots, visited.Keys + pending, id);
    EdgesAdd(entities, visited.Keys, id);
    VisitedNext(
      entities, connection, view, policy, visited, visited.Keys + pending, id, visited'[id], visited'.Keys + pending');
  }

  lemma VisitedNext(
    entities: Entities, connection: ConnectionId, view: ConnectionView, policy: Policy,
    visited: map<EntityId, Entry>, reached: set<EntityId>, id: EntityId, entry: Entry, reached': set<EntityId>)
    requires Visited(entities, connection, view, policy, visited, reached) && reached <= reached'
    requires Predictable(connection, view, policy, entities, id) && EdgesPermitted(connection, policy, entities, id)
    requires entities[id].dependencies <= reached'
    requires entry == EntryFor(entities[id], Permitted(connection, view, entities[id], policy).value, REQUIRED)
    ensures Visited(entities, connection, view, policy, visited[id := entry], reached')
  {
  }

  lemma FollowFailed(
    limits: Limits, entities: Entities, connection: ConnectionId, view: ConnectionView, roots: set<EntityId>,
    policy: Policy, id: EntityId, visited: set<EntityId>, pending: set<EntityId>, error: DependencyError)
    requires id in visited && id in entities
    requires AllForced(entities, roots, visited + pending + entities[id].dependencies)
    requires error in {EdgeLimit, Denied, EntityLimit}
    requires error == EdgeLimit ==> Total(EdgeCounts(entities, visited)) > limits.maxDependencyEdges
    requires error == Denied ==> !EdgesPermitted(connection, policy, entities, id)
    requires error == EntityLimit ==> |visited + pending + entities[id].dependencies| > limits.maxRequired
    ensures Cause(limits, entities, connection, view, roots, policy, error)
  {
    assert Forced(entities, roots, id);
    assert AllForced(entities, roots, visited);
  }
}
