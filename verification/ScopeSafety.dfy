/**
 Server and client joined by a network that drops, duplicates and reorders, and what
 every run of the two keeps.
 */
module ScopeSafety {
  import opened NetTypes
  import opened ScopeProtocol

  /** `sent` and `acked` only grow: anything in them may be delivered any number of times, or never. */
  datatype System = System(server: Server, client: Client, sent: set<Message>, acked: set<Message>)

  datatype Step =
    | Enters(key: EntityId, version: int, representation: int, dormant: bool)
    | Sends(key: EntityId)
    | Changes(key: EntityId, version: int, dormant: bool)
    | Exits(key: EntityId)
    | DeliverStateAck(msg: Message)
    | DeliverExitAck(msg: Message)
    | ServerResets(epoch: int)
    | Deliver(msg: Message)
    | ClientResets(epoch: int)

  /** The server emitted a message, or refused and did nothing. */
  function Emit(sys: System, r: Result<(Server, Message), ScopeError>): System {
    if r.Ok? then sys.(server := r.value.0, sent := sys.sent + {r.value.1}) else sys
  }

  /** Receipt of a message; what the client applies it also acknowledges. */
  function Receive(sys: System, msg: Message): System {
    var r := ApplyMessage(sys.client, msg);
    if r.Err? then sys
    else sys.(client := r.value.0, acked := if r.value.1 then sys.acked + {msg} else sys.acked)
  }

  /** One step; a delivery of something the network never carried does not happen. */
  function Next(sys: System, step: Step): System {
    match step
    case Enters(key, version, representation, dormant) =>
      Emit(sys, EnterScope(sys.server, key, version, representation, dormant))
    case Sends(key) => Emit(sys, PendingState(sys.server, key))
    case Changes(key, version, dormant) =>
      var r := ChangeVersion(sys.server, key, version, dormant);
      if r.Ok? then sys.(server := r.value) else sys
    case Exits(key) => Emit(sys, ExitScope(sys.server, key))
    case DeliverStateAck(msg) => if msg in sys.acked then sys.(server := AcknowledgeState(sys.server, msg).0) else sys
    case DeliverExitAck(msg) => if msg in sys.acked then sys.(server := AcknowledgeExit(sys.server, msg).0) else sys
    case ServerResets(epoch) =>
      var r := ResetServer(sys.server, epoch);
      if r.Ok? then sys.(server := r.value) else sys
    // Destroy notices do not come from `ServerScopes`; any of them may arrive at any time.
    case Deliver(msg) => if msg in sys.sent || msg.kind == Destroy then Receive(sys, msg) else sys
    case ClientResets(epoch) =>
      var r := ResetClient(sys.client, epoch);
      if r.Ok? then sys.(client := r.value) else sys
  }

  function Run(sys: System, steps: seq<Step>): System
    decreases |steps|
  {
    if steps == [] then sys else Run(Next(sys, steps[0]), steps[1..])
  }

  predicate Initial(sys: System) {
    && ValidServer(sys.server) && sys.server.counters == map[] && sys.server.current == map[]
    && sys.client.current == map[] && sys.client.closed == map[] && sys.client.destroyed == {}
    && sys.sent == {} && sys.acked == {}
  }

  predicate IsState(msg: Message) {
    msg.kind == Enter || msg.kind == Delta
  }

  // ---- the invariant ----------------------------------------------------------------

  predicate DeliveryOk(s: Server, key: EntityId, d: Delivery) {
    && d.token.entity == key
    && d.token.connectionEpoch == s.connectionEpoch
    && key in s.counters && d.token.scopeEpoch == s.counters[key] >= 1
    && d.token.representation > 0
    && d.desiredVersion > 0
    && (forall v :: v in d.sentVersions ==> 0 < v <= d.desiredVersion)
    && 0 <= d.decodedVersion <= d.desiredVersion
    && (d.ready ==> d.decodedVersion > 0)
    && (d.phase == DormantKnown ==> d.ready && d.decodedVersion == d.desiredVersion)
  }

  ghost predicate ServerOk(s: Server) {
    && ValidServer(s)
    && (forall key :: key in s.counters ==> s.counters[key] >= 1)
    && (forall key :: key in s.current ==> DeliveryOk(s, key, s.current[key]))
  }

  /** A message of the server's epoch belongs to a past scope or to exactly the current one. */
  predicate MessageOk(s: Server, m: Message) {
    && m.token.connectionEpoch <= s.connectionEpoch
    && m.token.representation > 0 && m.token.scopeEpoch >= 1
    && (IsState(m) ==> m.stateVersion > 0)
    && m.kind != Destroy
    && (m.token.connectionEpoch == s.connectionEpoch ==>
          && m.token.entity in s.counters
          && m.token.scopeEpoch <= s.counters[m.token.entity]
          && (m.token.entity in s.current && m.token.scopeEpoch == s.counters[m.token.entity] ==>
                var d := s.current[m.token.entity];
                && m.token == d.token
                && (m.kind == Exit ==> d.phase == Leaving)
                && (IsState(m) ==> m.stateVersion <= d.desiredVersion)))
  }

  /** What the client holds was sent, and lies above its closed fence. */
  ghost predicate HeldOk(c: Client, sent: set<Message>, key: EntityId, h: Held) {
    && h.token.entity == key
    && h.token.connectionEpoch == c.connectionEpoch
    && h.token.scopeEpoch > ClosedThrough(c, key)
    && key !in c.destroyed
    && (exists m :: m in sent && IsState(m) && m.token == h.token && m.stateVersion == h.version)
  }

  ghost predicate FenceOk(c: Client, sent: set<Message>, key: EntityId) {
    exists m :: m in sent && m.kind == Exit && m.token.entity == key
      && m.token.connectionEpoch == c.connectionEpoch && m.token.scopeEpoch == ClosedThrough(c, key)
  }

  ghost predicate ClientOk(c: Client, sent: set<Message>) {
    && (forall key :: key in c.current ==> HeldOk(c, sent, key, c.current[key]))
    && (forall key :: key in c.closed ==> FenceOk(c, sent, key))
  }

  /** An acknowledged state is still held, or was overtaken by a newer scope, an exit or destruction. */
  predicate Witnessed(c: Client, t: Token, version: int) {
    var key := t.entity;
    || key in c.destroyed
    || ClosedThrough(c, key) >= t.scopeEpoch
    || (key in c.current &&
        (c.current[key].token.scopeEpoch > t.scopeEpoch
          || (c.current[key].token == t && c.current[key].version >= version)))
  }

  predicate AckOk(c: Client, sent: set<Message>, a: Message) {
    && a.token.connectionEpoch <= c.connectionEpoch
    && (a.kind != Destroy ==> a in sent)
    && (IsState(a) && a.token.connectionEpoch == c.connectionEpoch ==> Witnessed(c, a.token, a.stateVersion))
  }

  /** The decoded version is backed by an acknowledgement of exactly this scope. */
  ghost predicate Backed(acked: set<Message>, d: Delivery) {
    d.decodedVersion > 0 ==>
      exists a :: a in acked && IsState(a) && a.token == d.token && a.stateVersion == d.decodedVersion
  }

  ghost predicate Inv(sys: System) {
    && ServerOk(sys.server)
    && (forall m :: m in sys.sent ==> MessageOk(sys.server, m))
    && ClientOk(sys.client, sys.sent)
    && (forall a :: a in sys.acked ==> AckOk(sys.client, sys.sent, a))
    && (forall key :: key in sys.server.current ==> Backed(sys.acked, sys.server.current[key]))
  }

  /** The client holds the scope under its exact token, at a version between the decoded and the desired one. */
  predicate HoldsScope(c: Client, key: EntityId, d: Delivery) {
    && key in c.current
    && c.current[key].token == d.token
    && d.decodedVersion <= c.current[key].version <= d.desiredVersion
    && (d.phase == DormantKnown ==> c.current[key].version == d.desiredVersion)
  }

  /** The server counts the scope as ready and is not retiring it. */
  predicate Settled(d: Delivery) {
    d.ready && d.phase != Leaving
  }

  /**
   Safety of one state with both ends in one connection epoch: only a destroy notice takes a ready scope from the
   client.
   */
  ghost predicate Safe(sys: System) {
    sys.server.connectionEpoch == sys.client.connectionEpoch ==>
      forall key :: key in sys.server.current && Settled(sys.server.current[key]) ==>
        (HoldsScope(sys.client, key, sys.server.current[key]) <==> key !in sys.client.destroyed)
  }

  /** The current scope of the client is always above its closed fence. */
  ghost predicate Fenced(c: Client) {
    forall key :: key in c.current ==> c.current[key].token.scopeEpoch > ClosedThrough(c, key)
  }

  lemma InvIsSafe(sys: System)
    requires Inv(sys)
    ensures Safe(sys) && Fenced(sys.client)
  {
    var s, c := sys.server, sys.client;
    if s.connectionEpoch == c.connectionEpoch {
      forall key | key in s.current && s.current[key].ready && s.current[key].phase != Leaving
        ensures HoldsScope(c, key, s.current[key]) <==> key !in c.destroyed
      {
        if key !in c.destroyed {
          ReadyIsHeld(sys, key);
          assert DeliveryOk(s, key, s.current[key]);
        } else {
          assert key in c.current ==> HeldOk(c, sys.sent, key, c.current[key]);
        }
      }
    }
    forall key | key in c.current ensures c.current[key].token.scopeEpoch > ClosedThrough(c, key) {
      assert HeldOk(c, sys.sent, key, c.current[key]);
    }
  }

  lemma NotClosed(sys: System, key: EntityId)
    requires Inv(sys) && sys.server.connectionEpoch == sys.client.connectionEpoch
    requires key in sys.server.current && sys.server.current[key].phase != Leaving
    ensures ClosedThrough(sys.client, key) < sys.server.current[key].token.scopeEpoch
  {
    var s, c := sys.server, sys.client;
    assert DeliveryOk(s, key, s.current[key]);
    if key in c.closed {
      assert FenceOk(c, sys.sent, key);
      var m :| m in sys.sent && m.kind == Exit && m.token.entity == key
        && m.token.connectionEpoch == c.connectionEpoch && m.token.scopeEpoch == ClosedThrough(c, key);
      assert MessageOk(s, m);
    }
  }

  /** Whatever the client holds in the server's epoch is the current scope or an older one. */
  lemma HeldNotNewer(sys: System, key: EntityId)
    requires Inv(sys) && sys.server.connectionEpoch == sys.client.connectionEpoch
    requires key in sys.server.current && key in sys.client.current
    ensures sys.client.current[key].token.scopeEpoch <= sys.server.current[key].token.scopeEpoch
    ensures sys.client.current[key].token.scopeEpoch == sys.server.current[key].token.scopeEpoch ==>
      && sys.client.current[key].token == sys.server.current[key].token
      && sys.client.current[key].version <= sys.server.current[key].desiredVersion
  {
    var s, c := sys.server, sys.client;
    var h := c.current[key];
    assert HeldOk(c, sys.sent, key, h) && DeliveryOk(s, key, s.current[key]);
    var m :| m in sys.sent && IsState(m) && m.token == h.token && m.stateVersion == h.version;
    assert MessageOk(s, m);
  }

  lemma ReadyIsHeld(sys: System, key: EntityId)
    requires Inv(sys) && sys.server.connectionEpoch == sys.client.connectionEpoch
    requires key in sys.server.current && key !in sys.client.destroyed
    requires sys.server.current[key].ready && sys.server.current[key].phase != Leaving
    ensures key in sys.client.current && sys.client.current[key].token == sys.server.current[key].token
    ensures var d := sys.server.current[key];
      d.decodedVersion <= sys.client.current[key].version <= d.desiredVersion
  {
    var s, c := sys.server, sys.client;
    var d := s.current[key];
    assert DeliveryOk(s, key, d) && Backed(sys.acked, d);
    var a :| a in sys.acked && IsState(a) && a.token == d.token && a.stateVersion == d.decodedVersion;
    assert AckOk(c, sys.sent, a);
    NotClosed(sys, key);
    if key in c.current {
      HeldNotNewer(sys, key);
    }
  }

  // ---- every step keeps it ------------------------------------------------------------

  lemma MoreSent(c: Client, sent: set<Message>, more: set<Message>)
    requires ClientOk(c, sent) && sent <= more
    ensures ClientOk(c, more)
  {
    forall key | key in c.current ensures HeldOk(c, more, key, c.current[key]) {
      assert HeldOk(c, sent, key, c.current[key]);
      var m :| m in sent && IsState(m) && m.token == c.current[key].token && m.stateVersion == c.current[key].version;
      assert m in more;
    }
    forall key | key in c.closed ensures FenceOk(c, more, key) {
      assert FenceOk(c, sent, key);
      var m :| m in sent && m.kind == Exit && m.token.entity == key
        && m.token.connectionEpoch == c.connectionEpoch && m.token.scopeEpoch == ClosedThrough(c, key);
      assert m in more;
    }
  }

  /** A server that answers for all messages, old and new, keeps the whole invariant. */
  lemma ServerMoves(sys: System, server: Server, sent: set<Message>)
    requires Inv(sys) && ServerOk(server) && sys.sent <= sent
    requires forall m :: m in sent ==> MessageOk(server, m)
    requires forall key :: key in server.current ==> Backed(sys.acked, server.current[key])
    ensures Inv(sys.(server := server, sent := sent))
  {
    MoreSent(sys.client, sys.sent, sent);
    forall a | a in sys.acked ensures AckOk(sys.client, sent, a) {
      assert AckOk(sys.client, sys.sent, a);
    }
  }

  lemma SendPreserves(sys: System, key: EntityId)
    requires Inv(sys)
    ensures Inv(Next(sys, Sends(key)))
  {
    var r := PendingState(sys.server, key);
    if r.Ok? {
      var s, s', msg := sys.server, r.value.0, r.value.1;
      assert DeliveryOk(s, key, s.current[key]);
      forall k | k in s'.current ensures DeliveryOk(s', k, s'.current[k]) && Backed(sys.acked, s'.current[k]) {
        assert DeliveryOk(s, k, s.current[k]) && Backed(sys.acked, s.current[k]);
      }
      forall m | m in sys.sent + {msg} ensures MessageOk(s', m) {
        assert m in sys.sent ==> MessageOk(s, m);
      }
      ServerMoves(sys, s', sys.sent + {msg});
    }
  }

  /** Granting a fresh scope epoch, before its first message leaves. */
  lemma EnterPreserves(sys: System, key: EntityId, version: int, representation: int, dormant: bool)
    requires Inv(sys)
    ensures Inv(Next(sys, Enters(key, version, representation, dormant)))
  {
    var s := sys.server;
    if version > 0 && representation > 0 && (key in s.counters || |s.counters| < s.maxIdentities) {
      var epoch := CounterOf(s, key) + 1;
      var d := Delivery(
        Token(s.connectionEpoch, key, epoch, representation), version, dormant, false, 0, Entering, {});
      var s' := s.(counters := s.counters[key := epoch], current := s.current[key := d]);
      forall k | k in s'.current ensures DeliveryOk(s', k, s'.current[k]) && Backed(sys.acked, s'.current[k]) {
        if k != key {
          assert DeliveryOk(s, k, s.current[k]) && Backed(sys.acked, s.current[k]);
        }
      }
      forall m | m in sys.sent ensures MessageOk(s', m) {
        assert MessageOk(s, m);
      }
      ServerMoves(sys, s', sys.sent);
      SendPreserves(sys.(server := s', sent := sys.sent), key);
    }
  }

  lemma ChangePreserves(sys: System, key: EntityId, version: int, dormant: bool)
    requires Inv(sys)
    ensures Inv(Next(sys, Changes(key, version, dormant)))
  {
    var r := ChangeVersion(sys.server, key, version, dormant);
    if r.Ok? {
      var s, s' := sys.server, r.value;
      forall k | k in s'.current ensures DeliveryOk(s', k, s'.current[k]) && Backed(sys.acked, s'.current[k]) {
        assert DeliveryOk(s, k, s.current[k]) && Backed(sys.acked, s.current[k]);
      }
      forall m | m in sys.sent ensures MessageOk(s', m) {
        assert MessageOk(s, m);
      }
      ServerMoves(sys, s', sys.sent);
    }
  }

  lemma ExitPreserves(sys: System, key: EntityId)
    requires Inv(sys)
    ensures Inv(Next(sys, Exits(key)))
  {
    var r := ExitScope(sys.server, key);
    if r.Ok? {
      var s, s', msg := sys.server, r.value.0, r.value.1;
      assert DeliveryOk(s, key, s.current[key]);
      forall k | k in s'.current ensures DeliveryOk(s', k, s'.current[k]) && Backed(sys.acked, s'.current[k]) {
        assert DeliveryOk(s, k, s.current[k]) && Backed(sys.acked, s.current[k]);
      }
      forall m | m in sys.sent + {msg} ensures MessageOk(s', m) {
        assert m in sys.sent ==> MessageOk(s, m);
      }
      ServerMoves(sys, s', sys.sent + {msg});
    }
  }

  lemma StateAckPreserves(sys: System, msg: Message)
    requires Inv(sys)
    ensures Inv(Next(sys, DeliverStateAck(msg)))
  {
    var s := sys.server;
    var s' := AcknowledgeState(s, msg).0;
    var key := msg.token.entity;
    if msg in sys.acked && AcknowledgeState(s, msg).1 {
      var d, d' := s.current[key], s'.current[key];
      assert DeliveryOk(s, key, d) && Backed(sys.acked, d);
      assert DeliveryOk(s', key, d') && Backed(sys.acked, d');
      forall k | k in s'.current ensures DeliveryOk(s', k, s'.current[k]) && Backed(sys.acked, s'.current[k]) {
        if k != key {
          assert DeliveryOk(s, k, s.current[k]) && Backed(sys.acked, s.current[k]);
        }
      }
      forall m | m in sys.sent ensures MessageOk(s', m) {
        assert MessageOk(s, m);
      }
      ServerMoves(sys, s', sys.sent);
    }
  }

  lemma ExitAckPreserves(sys: System, msg: Message)
    requires Inv(sys)
    ensures Inv(Next(sys, DeliverExitAck(msg)))
  {
    var s, s' := sys.server, AcknowledgeExit(sys.server, msg).0;
    if msg in sys.acked && AcknowledgeExit(s, msg).1 {
      forall k | k in s'.current ensures DeliveryOk(s', k, s'.current[k]) && Backed(sys.acked, s'.current[k]) {
        assert DeliveryOk(s, k, s.current[k]) && Backed(sys.acked, s.current[k]);
      }
      forall m | m in sys.sent ensures MessageOk(s', m) {
        assert MessageOk(s, m);
      }
      ServerMoves(sys, s', sys.sent);
    }
  }

  lemma ServerResetPreserves(sys: System, epoch: int)
    requires Inv(sys)
    ensures Inv(Next(sys, ServerResets(epoch)))
  {
    var r := ResetServer(sys.server, epoch);
    if r.Ok? {
      forall m | m in sys.sent ensures MessageOk(r.value, m) {
        assert MessageOk(sys.server, m);
      }
      ServerMoves(sys, r.value, sys.sent);
    }
  }

  lemma ClientResetPreserves(sys: System, epoch: int)
    requires Inv(sys)
    ensures Inv(Next(sys, ClientResets(epoch)))
  {
    var r := ResetClient(sys.client, epoch);
    if r.Ok? {
      forall a | a in sys.acked ensures AckOk(r.value, sys.sent, a) {
        assert AckOk(sys.client, sys.sent, a);
      }
    }
  }

  /** The client side of the invariant is what a delivery has to re-establish. */
  lemma ClientMoves(sys: System, client: Client, acked: set<Message>)
    requires Inv(sys) && ClientOk(client, sys.sent) && sys.acked <= acked
    requires forall a :: a in acked ==> AckOk(client, sys.sent, a)
    ensures Inv(sys.(client := client, acked := acked))
  {
    forall key | key in sys.server.current ensures Backed(acked, sys.server.current[key]) {
      assert Backed(sys.acked, sys.server.current[key]);
      if sys.server.current[key].decodedVersion > 0 {
        var a :| a in sys.acked && IsState(a) && a.token == sys.server.current[key].token
          && a.stateVersion == sys.server.current[key].decodedVersion;
        assert a in acked;
      }
    }
  }

  lemma DestroyPreserves(sys: System, msg: Message)
    requires Inv(sys) && msg.kind == Destroy
    ensures Inv(Next(sys, Deliver(msg)))
  {
    var r := ApplyMessage(sys.client, msg);
    if r.Ok? && r.value.1 {
      var c, c' := sys.client, r.value.0;
      forall key | key in c'.current ensures HeldOk(c', sys.sent, key, c'.current[key]) {
        assert HeldOk(c, sys.sent, key, c.current[key]);
      }
      forall key | key in c'.closed ensures FenceOk(c', sys.sent, key) {
        assert FenceOk(c, sys.sent, key);
      }
      forall a | a in sys.acked + {msg} ensures AckOk(c', sys.sent, a) {
        assert a in sys.acked ==> AckOk(c, sys.sent, a);
      }
      ClientMoves(sys, c', sys.acked + {msg});
    }
  }

  lemma ExitDeliveryPreserves(sys: System, msg: Message)
    requires Inv(sys) && msg in sys.sent && msg.kind == Exit
    ensures Inv(Next(sys, Deliver(msg)))
  {
    var r := ApplyMessage(sys.client, msg);
    if r.Ok? && r.value.1 {
      var c, c', key := sys.client, r.value.0, msg.token.entity;
      forall k | k in c'.current ensures HeldOk(c', sys.sent, k, c'.current[k]) {
        assert HeldOk(c, sys.sent, k, c.current[k]);
      }
      forall k | k in c'.closed ensures FenceOk(c', sys.sent, k) {
        if k != key || ClosedThrough(c, key) > msg.token.scopeEpoch {
          assert FenceOk(c, sys.sent, k);
        } else {
          assert msg.token.scopeEpoch == ClosedThrough(c', key);
        }
      }
      forall a | a in sys.acked + {msg} ensures AckOk(c', sys.sent, a) {
        assert a in sys.acked ==> AckOk(c, sys.sent, a);
      }
      ClientMoves(sys, c', sys.acked + {msg});
    }
  }

  lemma StateDeliveryPreserves(sys: System, msg: Message)
    requires Inv(sys) && msg in sys.sent && IsState(msg)
    ensures Inv(Next(sys, Deliver(msg)))
  {
    var r := ApplyMessage(sys.client, msg);
    if r.Ok? && r.value.1 {
      var c, c', key := sys.client, r.value.0, msg.token.entity;
      HeldAfterState(c, c', sys.sent, msg);
      forall k | k in c'.closed ensures FenceOk(c', sys.sent, k) {
        assert FenceOk(c, sys.sent, k);
      }
      forall a | a in sys.acked + {msg} ensures AckOk(c', sys.sent, a) {
        assert a in sys.acked ==> AckOk(c, sys.sent, a);
      }
      ClientMoves(sys, c', sys.acked + {msg});
    }
  }

  lemma HeldAfterState(c: Client, c': Client, sent: set<Message>, msg: Message)
    requires ClientOk(c, sent) && msg in sent && IsState(msg)
    requires ApplyMessage(c, msg) == Ok((c', true))
    ensures forall k :: k in c'.current ==> HeldOk(c', sent, k, c'.current[k])
  {
    var key := msg.token.entity;
    forall k | k in c'.current ensures HeldOk(c', sent, k, c'.current[k]) {
      if k in c.current {
        assert HeldOk(c, sent, k, c.current[k]);
      }
      if k == key {
        assert c'.current[key].version == msg.stateVersion
          || (key in c.current && c'.current[key] == c.current[key]);
      }
    }
  }

  lemma NextPreserves(sys: System, step: Step)
    requires Inv(sys)
    ensures Inv(Next(sys, step))
  {
    match step {
      case Enters(key, version, representation, dormant) => EnterPreserves(sys, key, version, representation, dormant);
      case Sends(key) => SendPreserves(sys, key);
      case Changes(key, version, dormant) => ChangePreserves(sys, key, version, dormant);
      case Exits(key) => ExitPreserves(sys, key);
      case DeliverStateAck(msg) => StateAckPreserves(sys, msg);
      case DeliverExitAck(msg) => ExitAckPreserves(sys, msg);
      case ServerResets(epoch) => ServerResetPreserves(sys, epoch);
      case ClientResets(epoch) => ClientResetPreserves(sys, epoch);
      case Deliver(msg) =>
        if msg.kind == Destroy {
          DestroyPreserves(sys, msg);
        } else if msg in sys.sent && msg.kind == Exit {
          ExitDeliveryPreserves(sys, msg);
        } else if msg in sys.sent && IsState(msg) {
          StateDeliveryPreserves(sys, msg);
        }
    }
  }

  /** Scope safety over every run of every length. */
  lemma {:induction false} RunIsSafe(sys: System, steps: seq<Step>)
    requires Initial(sys)
    ensures Inv(Run(sys, steps)) && Safe(Run(sys, steps)) && Fenced(Run(sys, steps).client)
  {
    RunKeepsInv(sys, steps);
    InvIsSafe(Run(sys, steps));
  }

  lemma {:induction false} RunKeepsInv(sys: System, steps: seq<Step>)
    requires Inv(sys)
    ensures Inv(Run(sys, steps))
    decreases |steps|
  {
    if steps != [] {
      NextPreserves(sys, steps[0]);
      RunKeepsInv(Next(sys, steps[0]), steps[1..]);
    }
  }

  // ---- fences over a run, and repair --------------------------------------------------

  lemma FenceStep(sys: System, step: Step, key: EntityId)
    ensures Next(sys, step).client.connectionEpoch >= sys.client.connectionEpoch
    ensures Next(sys, step).server.connectionEpoch >= sys.server.connectionEpoch
    ensures Next(sys, step).client.connectionEpoch == sys.client.connectionEpoch ==>
      ClosedThrough(Next(sys, step).client, key) >= ClosedThrough(sys.client, key)
  {
  }

  lemma {:induction false} EpochsAdvance(sys: System, steps: seq<Step>)
    ensures Run(sys, steps).client.connectionEpoch >= sys.client.connectionEpoch
    ensures Run(sys, steps).server.connectionEpoch >= sys.server.connectionEpoch
    decreases |steps|
  {
    if steps != [] {
      FenceStep(sys, steps[0], EntityId(0, 0));
      EpochsAdvance(Next(sys, steps[0]), steps[1..]);
    }
  }

  /** A scope the client has closed stays closed until the client's connection epoch changes. */
  lemma {:induction false} ClosedForGood(sys: System, steps: seq<Step>, key: EntityId)
    requires Inv(sys) && Run(sys, steps).client.connectionEpoch == sys.client.connectionEpoch
    ensures ClosedThrough(Run(sys, steps).client, key) >= ClosedThrough(sys.client, key)
    ensures key in Run(sys, steps).client.current ==>
      Run(sys, steps).client.current[key].token.scopeEpoch > ClosedThrough(sys.client, key)
    decreases |steps|
  {
    if steps == [] {
      InvIsSafe(sys);
    } else {
      var next := Next(sys, steps[0]);
      FenceStep(sys, steps[0], key);
      NextPreserves(sys, steps[0]);
      EpochsAdvance(next, steps[1..]);
      ClosedForGood(next, steps[1..], key);
    }
  }

  /** The message a retransmission carries is one the client takes. */
  lemma RetransmissionAccepted(sys: System, key: EntityId)
    requires Inv(sys) && sys.server.connectionEpoch == sys.client.connectionEpoch
    requires key !in sys.client.destroyed && (key in sys.client.known || |sys.client.known| < sys.client.maxIdentities)
    requires PendingState(sys.server, key).Ok?
    ensures var msg := PendingState(sys.server, key).value.1;
      var r := ApplyMessage(sys.client, msg);
      r.Ok? && r.value.1 && key in r.value.0.current
      && r.value.0.current[key] == Held(msg.token, sys.server.current[key].desiredVersion)
  {
    var s, c := sys.server, sys.client;
    var d := s.current[key];
    assert DeliveryOk(s, key, d);
    NotClosed(sys, key);
    if d.ready {
      ReadyIsHeld(sys, key);
    }
    if key in c.current {
      HeldNotNewer(sys, key);
    }
  }

  /**
   Repair: however much was lost before, one send, one delivery and one acknowledgement
   bring a live scope to the desired version on both ends.
   */
  lemma RepairConverges(sys: System, key: EntityId, msg: Message)
    requires Inv(sys) && sys.server.connectionEpoch == sys.client.connectionEpoch
    requires key !in sys.client.destroyed && (key in sys.client.known || |sys.client.known| < sys.client.maxIdentities)
    requires PendingState(sys.server, key).Ok? && msg == PendingState(sys.server, key).value.1
    ensures var after := Next(Next(Next(sys, Sends(key)), Deliver(msg)), DeliverStateAck(msg));
      && key in after.server.current && key in after.client.current
      && !NeedsState(after.server, key)
      && after.client.current[key] == Held(after.server.current[key].token, sys.server.current[key].desiredVersion)
      && (sys.server.current[key].wantsDormancy ==> after.server.current[key].phase == DormantKnown)
  {
    var s := sys.server;
    assert DeliveryOk(s, key, s.current[key]);
    RetransmissionAccepted(sys, key);
    var sent := Next(sys, Sends(key));
    var delivered := Next(sent, Deliver(msg));
    assert msg in delivered.acked;
  }

  // ---- destroy notices ----------------------------------------------------------------

  /** Without destroy notices nothing is ever destroyed, so every ready scope is held. */
  lemma {:induction false} WithoutDestroyAllHeld(sys: System, steps: seq<Step>, key: EntityId)
    requires Inv(sys) && sys.client.destroyed == {}
    requires forall i :: 0 <= i < |steps| ==> !(steps[i].Deliver? && steps[i].msg.kind == Destroy)
    ensures var after := Run(sys, steps);
      && after.client.destroyed == {}
      && (after.server.connectionEpoch == after.client.connectionEpoch
          && key in after.server.current && Settled(after.server.current[key]) ==>
            HoldsScope(after.client, key, after.server.current[key]))
    decreases |steps|
  {
    if steps == [] {
      InvIsSafe(sys);
    } else {
      NextPreserves(sys, steps[0]);
      NothingDestroyed(sys, steps[0]);
      WithoutDestroyAllHeld(Next(sys, steps[0]), steps[1..], key);
    }
  }

  lemma NothingDestroyed(sys: System, step: Step)
    requires sys.client.destroyed == {} && !(step.Deliver? && step.msg.kind == Destroy)
    ensures Next(sys, step).client.destroyed == {}
  {
  }

  /** A destroy notice takes a held scope away while the server still counts it as ready. */
  lemma DestroyIsOneSided(sys: System, key: EntityId)
    requires Inv(sys) && sys.server.connectionEpoch == sys.client.connectionEpoch
    requires key in sys.server.current && key in sys.client.known
    ensures var after := Next(sys, Deliver(Message(Destroy, sys.server.current[key].token, 0)));
      after.server == sys.server && key in after.client.destroyed
        && !HoldsScope(after.client, key, sys.server.current[key])
  {
    assert DeliveryOk(sys.server, key, sys.server.current[key]);
  }
}
