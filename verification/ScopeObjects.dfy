/** The two scope tables as objects that change in place, each method tied to its transition. */
module ScopeObjects {
  import opened NetTypes
  import opened ScopeProtocol

  class ServerScopes {
    var connectionEpoch: int
    const maxIdentities: nat
    const maxInflightVersions: nat
    var counters: map<EntityId, int>
    var current: map<EntityId, Delivery>

    function View(): Server
      reads this
    {
      Server(connectionEpoch, maxIdentities, maxInflightVersions, counters, current)
    }

    constructor (connectionEpoch: int, maxIdentities: nat, maxInflightVersions: nat)
      requires connectionEpoch > 0 && maxIdentities > 0 && maxInflightVersions > 0
      ensures View() == Server(connectionEpoch, maxIdentities, maxInflightVersions, map[], map[])
      ensures ValidServer(View())
    {
      this.connectionEpoch := connectionEpoch;
      this.maxIdentities, this.maxInflightVersions := maxIdentities, maxInflightVersions;
      counters, current := map[], map[];
    }

    method Enter(
      key: EntityId, version: int, representation: int, dormant: bool) returns (r: Result<Message, ScopeError>)
      requires ValidServer(View())
      modifies this`counters, this`current
      ensures var expected := EnterScope(old(View()), key, version, representation, dormant);
        if expected.Ok? then View() == expected.value.0 && r == Ok(expected.value.1)
        else View() == old(View()) && r == Err(expected.error)
    {
      if version <= 0 || representation <= 0 {
        return Err(ScopeVersion);
      }
      if key !in counters && |counters| >= maxIdentities {
        return Err(IdentityCap);
      }
      var epoch := (if key in counters then counters[key] else 0) + 1;
      counters := counters[key := epoch];
      current := current[key := Delivery(
        Token(connectionEpoch, key, epoch, representation), version, dormant, false, 0, Entering, {})];
      r := SendPending(key);
    }

    method SendPending(key: EntityId) returns (r: Result<Message, ScopeError>)
      modifies this`current
      ensures var expected := PendingState(old(View()), key);
        if expected.Ok? then View() == expected.value.0 && r == Ok(expected.value.1)
        else View() == old(View()) && r == Err(expected.error)
    {
      if key !in current {
        return Err(NoScope);
      }
      var d := current[key];
      if d.phase == Leaving {
        return Err(ScopeRetiring);
      }
      if d.desiredVersion !in d.sentVersions && |d.sentVersions| >= maxInflightVersions {
        return Err(PendingVersionCap);
      }
      current := current[key := d.(sentVersions := d.sentVersions + {d.desiredVersion})];
      r := Ok(Message(if d.ready then Delta else Kind.Enter, d.token, d.desiredVersion));
    }

    method StateAcknowledged(msg: Message) returns (taken: bool)
      modifies this`current
      ensures (View(), taken) == AcknowledgeState(old(View()), msg)
    {
      var key := msg.token.entity;
      if key !in current {
        return false;
      }
      var d := current[key];
      if d.token != msg.token || d.phase == Leaving || msg.kind !in {Kind.Enter, Delta}
        || msg.stateVersion !in d.sentVersions
      {
        return false;
      }
      if msg.kind == Kind.Enter {
        d := d.(ready := true);
      }
      d := d.(decodedVersion := Max(d.decodedVersion, msg.stateVersion));
      d := d.(sentVersions := set v | v in d.sentVersions && v >= d.decodedVersion);
      if d.ready && d.wantsDormancy && d.decodedVersion >= d.desiredVersion {
        d := d.(phase := DormantKnown);
      } else if d.ready {
        d := d.(phase := Active);
      } else {
        d := d.(phase := Entering);
      }
      current := current[key := d];
      taken := true;
    }

    method Changed(key: EntityId, version: int, dormant: bool) returns (r: Outcome<ScopeError>)
      modifies this`current
      ensures var expected := ChangeVersion(old(View()), key, version, dormant);
        if expected.Ok? then View() == expected.value && r == Done
        else View() == old(View()) && r == Failed(expected.error)
    {
      if key !in current {
        return Failed(NoScope);
      }
      var d := current[key];
      if version <= d.desiredVersion || d.phase == Leaving {
        return Failed(NonMonotonicVersion);
      }
      current := current[key := d.(
        desiredVersion := version, wantsDormancy := dormant, phase := if d.ready then Active else Entering)];
      r := Done;
    }

    method Exit(key: EntityId) returns (r: Result<Message, ScopeError>)
      modifies this`current
      ensures var expected := ExitScope(old(View()), key);
        if expected.Ok? then View() == expected.value.0 && r == Ok(expected.value.1)
        else View() == old(View()) && r == Err(expected.error)
    {
      if key !in current {
        return Err(NoScope);
      }
      var d := current[key];
      current := current[key := d.(phase := Leaving)];
      r := Ok(Message(Kind.Exit, d.token, 0));
    }

    method ExitAcknowledged(msg: Message) returns (taken: bool)
      modifies this`current
      ensures (View(), taken) == AcknowledgeExit(old(View()), msg)
    {
      var key := msg.token.entity;
      if msg.kind != Kind.Exit || key !in current || current[key].token != msg.token || current[key].phase != Leaving {
        return false;
      }
      current := current - {key};
      taken := true;
    }

    method Reset(epoch: int) returns (r: Outcome<ScopeError>)
      modifies this`connectionEpoch, this`counters, this`current
      ensures var expected := ResetServer(old(View()), epoch);
        if expected.Ok? then View() == expected.value && r == Done
        else View() == old(View()) && r == Failed(expected.error)
    {
      if epoch <= connectionEpoch {
        return Failed(EpochMustAdvance);
      }
      connectionEpoch, counters, current := epoch, map[], map[];
      r := Done;
    }
  }

  class ClientScopes {
    var connectionEpoch: int
    const maxIdentities: nat
    var current: map<EntityId, Held>
    var closed: map<EntityId, int>
    var destroyed: set<EntityId>
    var known: set<EntityId>

    function View(): Client
      reads this
    {
      Client(connectionEpoch, maxIdentities, current, closed, destroyed, known)
    }

    constructor (connectionEpoch: int, maxIdentities: nat)
      ensures View() == Client(connectionEpoch, maxIdentities, map[], map[], {}, {})
    {
      this.connectionEpoch, this.maxIdentities := connectionEpoch, maxIdentities;
      current, closed, destroyed, known := map[], map[], {}, {};
    }

    method Apply(msg: Message) returns (r: Result<bool, ScopeError>)
      modifies this`current, this`closed, this`destroyed, this`known
      ensures var expected := ApplyMessage(old(View()), msg);
        if expected.Ok? then View() == expected.value.0 && r == Ok(expected.value.1)
        else View() == old(View()) && r == Err(expected.error)
    {
      var t, key := msg.token, msg.token.entity;
      if t.connectionEpoch != connectionEpoch {
        return Ok(false);
      }
      if t.scopeEpoch <= 0 || t.representation <= 0 {
        return Ok(false);
      }
      if msg.kind == Unknown {
        return Ok(false);
      }
      if key !in known && |known| >= maxIdentities {
        return Err(IdentityCap);
      }
      if msg.kind == Destroy {
        known, destroyed, current := known + {key}, destroyed + {key}, current - {key};
        return Ok(true);
      }
      if key in destroyed {
        return Ok(false);
      }
      if msg.kind == Exit {
        if key in current && current[key].token.scopeEpoch == t.scopeEpoch && current[key].token != t {
          return Ok(false);
        }
        known := known + {key};
        closed := closed[key := Max(if key in closed then closed[key] else 0, t.scopeEpoch)];
        if key in current && current[key].token.scopeEpoch <= t.scopeEpoch {
          current := current - {key};
        }
        return Ok(true);
      }
      var taken := ApplyStateMessage(msg);
      r := Ok(taken);
    }

    method ApplyStateMessage(msg: Message) returns (taken: bool)
      modifies this`current, this`known
      ensures ApplyState(old(View()), msg) == Ok((View(), taken))
    {
      var t, key := msg.token, msg.token.entity;
      if t.scopeEpoch <= (if key in closed then closed[key] else 0) || msg.stateVersion <= 0 {
        return false;
      }
      if msg.kind == Delta {
        if key !in current || current[key].token != t {
          return false;
        }
      } else if key in current {
        if t.scopeEpoch < current[key].token.scopeEpoch {
          return false;
        }
        if t.scopeEpoch == current[key].token.scopeEpoch && current[key].token != t {
          return false;
        }
      }
      known := known + {key};
      var version := msg.stateVersion;
      if key in current && current[key].token == t {
        version := Max(current[key].version, version);
      }
      current := current[key := Held(t, version)];
      taken := true;
    }

    method Reset(epoch: int) returns (r: Outcome<ScopeError>)
      modifies this`connectionEpoch, this`current, this`closed, this`destroyed, this`known
      ensures var expected := ResetClient(old(View()), epoch);
        if expected.Ok? then View() == expected.value && r == Done
        else View() == old(View()) && r == Failed(expected.error)
    {
      if epoch <= connectionEpoch {
        return Failed(EpochMustAdvance);
      }
      connectionEpoch := epoch;
      current, closed, destroyed, known := map[], map[], {}, {};
      r := Done;
    }
  }

  /** A server table for every positive configuration, the configuration error for every other. */
  method CreateServer(connectionEpoch: int, maxIdentities: int, maxInflightVersions: int)
    returns (r: Result<ServerScopes, ScopeError>)
    ensures r.Ok? <==> connectionEpoch > 0 && maxIdentities > 0 && maxInflightVersions > 0
    ensures r.Err? ==> r.error == Configuration
    ensures r.Ok? ==> fresh(r.value) && ValidServer(r.value.View())
    ensures r.Ok? ==> r.value.View() == Server(connectionEpoch, maxIdentities, maxInflightVersions, map[], map[])
  {
    if connectionEpoch <= 0 || maxIdentities <= 0 || maxInflightVersions <= 0 {
      return Err(Configuration);
    }
    var scopes := new ServerScopes(connectionEpoch, maxIdentities, maxInflightVersions);
    r := Ok(scopes);
  }
}
