/** The persistent replication index (engine/net/src/interest/graph.rs). */
module InterestGraph {
  import opened NetTypes
  import opened Sums
  import opened InterestModel
  import opened InterestGrid
  import opened InterestWorld

  // ---- connections ---------------------------------------------------------------

  ghost predicate Connected(limits: Limits, connections: map<ConnectionId, ConnectionView>, observers: nat) {
    && observers == Total(ObserverCounts(connections))
    && |connections| <= limits.maxConnections
    && forall c :: c in connections ==> ValidView(limits, connections[c])
  }

  ghost function ConnectionOutcome(
    limits: Limits, connections: map<ConnectionId, ConnectionView>, connection: ConnectionId, view: ConnectionView,
    authorize: (ConnectionId, ConnectionView) -> bool): Outcome<GraphError>
  {
    if |connections[connection := view]| > limits.maxConnections then Failed(Limit("connections"))
    else if |view.observers| > limits.maxObservers || |view.semanticGrants| > limits.maxSemanticGrants
         || |view.readyScenes| > limits.maxReadyScenes then Failed(Limit("connection grants"))
    else if !ValidView(limits, view) then Failed(InvalidObserver)
    else if !authorize(connection, view) then Failed(UnauthorizedView)
    else Done
  }

  lemma ObserversUpdate(connections: map<ConnectionId, ConnectionView>, c: ConnectionId, view: ConnectionView)
    ensures Total(ObserverCounts(connections[c := view])) ==
            Total(ObserverCounts(connections)) - ObserversOf(connections, c) + |view.observers|
  {
    assert ObserverCounts(connections[c := view]) == ObserverCounts(connections)[c := |view.observers|];
    TotalUpdate(ObserverCounts(connections), c, |view.observers|);
  }

  lemma ConnectionsSize(connections: map<ConnectionId, ConnectionView>, c: ConnectionId, view: ConnectionView)
    ensures |connections[c := view]| == |connections| + (if c in connections then 0 else 1)
  {
    var after := connections[c := view];
    assert after.Keys == connections.Keys + {c};
    assert |after| == |after.Keys| && |connections| == |connections.Keys|;
  }

  /** The observer total covers the view that is replaced, and stays exact. */
  lemma ConnectionInstalled(
    limits: Limits, connections: map<ConnectionId, ConnectionView>, observers: nat, c: ConnectionId,
    view: ConnectionView)
    requires Connected(limits, connections, observers) && ValidView(limits, view)
    requires |connections[c := view]| <= limits.maxConnections
    ensures ObserversOf(connections, c) <= observers
    ensures Connected(limits, connections[c := view], observers - ObserversOf(connections, c) + |view.observers|)
  {
    ConnectionRemoved(limits, connections, observers, c);
    ObserversUpdate(connections, c, view);
  }

  /** Every check an installed view passes, in order. */
  method CheckView(
    limits: Limits, connections: map<ConnectionId, ConnectionView>, connection: ConnectionId, view: ConnectionView,
    authorize: (ConnectionId, ConnectionView) -> bool) returns (r: Outcome<GraphError>)
    requires |connections| <= limits.maxConnections
    ensures r == ConnectionOutcome(limits, connections, connection, view, authorize)
  {
    ConnectionsSize(connections, connection, view);
    if connection !in connections && |connections| >= limits.maxConnections {
      return Failed(Limit("connections"));
    }
    if |view.observers| > limits.maxObservers || |view.semanticGrants| > limits.maxSemanticGrants
       || |view.readyScenes| > limits.maxReadyScenes
    {
      return Failed(Limit("connection grants"));
    }
    if exists i :: 0 <= i < |view.observers| &&
         (!ValidPosition(limits, view.observers[i].position) || view.observers[i].scene !in view.readyScenes)
    {
      return Failed(InvalidObserver);
    }
    if !authorize(connection, view) {
      return Failed(UnauthorizedView);
    }
    r := Done;
  }

  function ObserversOf(connections: map<ConnectionId, ConnectionView>, c: ConnectionId): nat {
    if c in connections then |connections[c].observers| else 0
  }

  lemma ConnectionRemoved(
    limits: Limits, connections: map<ConnectionId, ConnectionView>, observers: nat, c: ConnectionId)
    requires Connected(limits, connections, observers)
    ensures ObserversOf(connections, c) <= observers
    ensures Connected(limits, connections - {c}, observers - ObserversOf(connections, c))
  {
    if c in connections {
      assert ObserverCounts(connections - {c}) == ObserverCounts(connections) - {c};
      TotalRemove(ObserverCounts(connections), c);
      assert (connections - {c}).Keys == connections.Keys - {c};
    } else {
      assert connections - {c} == connections;
    }
  }

  datatype Prepared = Prepared(frame: nat, tick: nat, policyRevision: nat)

  ghost function PrepareOutcome(
    lastFrame: Option<nat>, lastTick: Option<nat>, lastPolicy: Option<nat>, calls: nat,
    frame: nat, tick: nat, policyRevision: nat): Outcome<GraphError>
  {
    if lastFrame.Some? && frame <= lastFrame.value then Failed(NonMonotonicFrame)
    else if lastTick.Some? && tick < lastTick.value then Failed(NonMonotonicTick)
    else if lastPolicy.Some? && policyRevision < lastPolicy.value then Failed(NonMonotonicPolicy)
    else if calls >= U64_MAX then Failed(RevisionExhausted)
    else Done
  }

  /** Every index, total and limit of the graph is right. */
  ghost predicate Sound(limits: Limits, world: World, connections: map<ConnectionId, ConnectionView>, observers: nat) {
    && ValidLimits(limits)
    && Consistent(world)
    && Placed(limits, world)
    && Connected(limits, connections, observers)
  }

  class Graph {
    const limits: Limits
    var world: World
    var connections: map<ConnectionId, ConnectionView>
    var observers: nat
    var worldRevision: nat
    var lastTick: Option<nat>
    var lastFrame: Option<nat>
    var lastPolicy: Option<nat>
    var prepareCalls: nat

    ghost predicate Valid()
      reads this
    {
      Sound(limits, world, connections, observers)
    }

    /** `Graph::new` on an accepted configuration. */
    constructor (limits: Limits)
      requires ValidLimits(limits)
      ensures Valid() && this.limits == limits
      ensures world.entities == map[] && connections == map[] && worldRevision == 0 && prepareCalls == 0
      ensures lastTick.None? && lastFrame.None? && lastPolicy.None?
    {
      this.limits := limits;
      world := EmptyWorld;
      connections, observers := map[], 0;
      worldRevision, prepareCalls := 0, 0;
      lastTick, lastFrame, lastPolicy := None, None, None;
    }

    method ValidateTick(tick: nat) returns (r: Outcome<GraphError>)
      ensures r == BarrierOutcome(lastTick, worldRevision, tick)
    {
      if lastTick.Some? && tick < lastTick.value {
        return Failed(NonMonotonicTick);
      }
      if worldRevision >= U64_MAX {
        return Failed(RevisionExhausted);
      }
      r := Done;
    }

    /** Applies one change to the registrations, or nothing at all. */
    method Apply(tick: nat, change: Change) returns (r: Outcome<GraphError>)
      requires Valid()
      modifies this`world, this`lastTick, this`worldRevision
      ensures Valid()
      ensures r == ApplyOutcome(limits, old(world.entities), old(lastTick), old(worldRevision), tick, change)
      ensures r.Failed? ==> world == old(world) && lastTick == old(lastTick) && worldRevision == old(worldRevision)
      ensures r.Done? ==> world.entities == Applied(old(world.entities), change)
      ensures r.Done? ==> lastTick == Some(tick) && worldRevision == old(worldRevision) + 1
    {
      r := ValidateTick(tick);
      if r.Failed? {
        return;
      }
      var after;
      r, after := ChangeWorld(limits, world, change);
      if r.Done? {
        Install(after, tick);
      }
    }

    method Install(after: World, tick: nat)
      requires Sound(limits, after, connections, observers)
      modifies this`world, this`lastTick, this`worldRevision
      ensures Valid() && world == after && lastTick == Some(tick) && worldRevision == old(worldRevision) + 1
    {
      world := after;
      lastTick := Some(tick);
      worldRevision := worldRevision + 1;
    }

    /** Installs an authorized view; a refused replacement retains the prior one. */
    method SetConnection(
      tick: nat, connection: ConnectionId, view: ConnectionView, authorize: (ConnectionId, ConnectionView) -> bool)
      returns (r: Outcome<GraphError>)
      requires Valid()
      modifies this`connections, this`observers, this`lastTick, this`worldRevision
      ensures Valid()
      ensures r == if BarrierOutcome(old(lastTick), old(worldRevision), tick).Failed?
                   then BarrierOutcome(old(lastTick), old(worldRevision), tick)
                   else ConnectionOutcome(limits, old(connections), connection, view, authorize)
      ensures r.Failed? ==> connections == old(connections) && observers == old(observers)
      ensures r.Failed? ==> lastTick == old(lastTick) && worldRevision == old(worldRevision)
      ensures r.Done? ==> connections == old(connections)[connection := view]
      ensures r.Done? ==> lastTick == Some(tick) && worldRevision == old(worldRevision) + 1
    {
      r := ValidateTick(tick);
      if r.Failed? {
        return;
      }
      r := CheckView(limits, connections, connection, view, authorize);
      if r.Failed? {
        return;
      }
      ConnectionInstalled(limits, connections, observers, connection, view);
      observers := observers - ObserversOf(connections, connection) + |view.observers|;
      connections := connections[connection := view];
      lastTick := Some(tick);
      worldRevision := worldRevision + 1;
    }

    method RemoveConnection(tick: nat, connection: ConnectionId) returns (r: Outcome<GraphError>)
      requires Valid()
      modifies this`connections, this`observers, this`lastTick, this`worldRevision
      ensures Valid()
      ensures r == BarrierOutcome(old(lastTick), old(worldRevision), tick)
      ensures r.Failed? ==> connections == old(connections) && observers == old(observers)
      ensures r.Failed? ==> lastTick == old(lastTick) && worldRevision == old(worldRevision)
      ensures r.Done? ==> connections == old(connections) - {connection}
      ensures r.Done? ==> lastTick == Some(tick) && worldRevision == old(worldRevision) + 1
    {
      r := ValidateTick(tick);
      if r.Failed? {
        return;
      }
      ConnectionRemoved(limits, connections, observers, connection);
      observers := observers - ObserversOf(connections, connection);
      connections := connections - {connection};
      lastTick := Some(tick);
      worldRevision := worldRevision + 1;
    }

    /** Opens a gathering barrier; frames strictly advance, ticks and policies never regress. */
    method Prepare(frame: nat, tick: nat, policyRevision: nat) returns (r: Result<Prepared, GraphError>)
      requires Valid()
      modifies this`lastFrame, this`lastTick, this`lastPolicy, this`prepareCalls
      ensures Valid()
      ensures var outcome := PrepareOutcome(
          old(lastFrame), old(lastTick), old(lastPolicy), old(prepareCalls), frame, tick, policyRevision);
        r == if outcome.Failed? then Err(outcome.error) else Ok(Prepared(frame, tick, policyRevision))
      ensures r.Err? ==> lastFrame == old(lastFrame) && lastTick == old(lastTick) && lastPolicy == old(lastPolicy)
      ensures r.Err? ==> prepareCalls == old(prepareCalls)
      ensures r.Ok? ==> lastFrame == Some(frame) && lastTick == Some(tick) && lastPolicy == Some(policyRevision)
      ensures r.Ok? ==> prepareCalls == old(prepareCalls) + 1
    {
      if lastFrame.Some? && frame <= lastFrame.value {
        return Err(NonMonotonicFrame);
      }
      if lastTick.Some? && tick < lastTick.value {
        return Err(NonMonotonicTick);
      }
      if lastPolicy.Some? && policyRevision < lastPolicy.value {
        return Err(NonMonotonicPolicy);
      }
      if prepareCalls >= U64_MAX {
        return Err(RevisionExhausted);
      }
      lastFrame, lastTick, lastPolicy := Some(frame), Some(tick), Some(policyRevision);
      prepareCalls := prepareCalls + 1;
      r := Ok(Prepared(frame, tick, policyRevision));
    }
  }

  /** An empty graph, or nothing for an invalid configuration. */
  method Create(limits: Limits) returns (r: Result<Graph, GraphError>)
    ensures r.Err? <==> !ValidLimits(limits)
    ensures r.Err? ==> r == Err(InvalidConfiguration)
    ensures r.Ok? ==> fresh(r.value) && r.value.Valid() && r.value.limits == limits && r.value.world.entities == map[]
  {
    if !ValidLimits(limits) {
      return Err(InvalidConfiguration);
    }
    var graph := new Graph(limits);
    r := Ok(graph);
  }
}
