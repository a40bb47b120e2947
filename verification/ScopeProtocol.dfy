/**
 Scope delivery between one server connection and its client
 (todo/reference_model/spatial_model.py, `ServerScopes` and `ClientScopes`), as two
 state machines whose operations are pure functions of their state.
 */
module ScopeProtocol {
  import opened NetTypes

  datatype Token = Token(connectionEpoch: int, entity: EntityId, scopeEpoch: int, representation: int)

  datatype Kind = Enter | Delta | Exit | Destroy | Unknown

  datatype Message = Message(kind: Kind, token: Token, stateVersion: int)

  datatype Phase = Entering | Active | DormantKnown | Leaving

  datatype Delivery = Delivery(
    token: Token,
    desiredVersion: int,
    wantsDormancy: bool,
    ready: bool,
    decodedVersion: int,
    phase: Phase,
    sentVersions: set<int>)

  datatype ScopeError =
    | Configuration
    | ScopeVersion
    | IdentityCap
    | NoScope
    | ScopeRetiring
    | PendingVersionCap
    | NonMonotonicVersion
    | EpochMustAdvance

  // ---- server -----------------------------------------------------------------------

  datatype Server = Server(
    connectionEpoch: int,
    maxIdentities: nat,
    maxInflightVersions: nat,
    counters: map<EntityId, int>,
    current: map<EntityId, Delivery>)

  predicate ValidServer(s: Server) {
    s.connectionEpoch > 0 && s.maxIdentities > 0 && s.maxInflightVersions > 0
  }

  function PendingState(s: Server, key: EntityId): Result<(Server, Message), ScopeError> {
    if key !in s.current then Err(NoScope)
    else
      var d := s.current[key];
      if d.phase == Leaving then Err(ScopeRetiring)
      else if d.desiredVersion !in d.sentVersions
        && |d.sentVersions| >= s.maxInflightVersions then Err(PendingVersionCap)
      else
        var sent := d.(sentVersions := d.sentVersions + {d.desiredVersion});
        Ok((s.(current := s.current[key := sent]),
            Message(if d.ready then Delta else Enter, d.token, d.desiredVersion)))
  }

  function CounterOf(s: Server, key: EntityId): int {
    if key in s.counters then s.counters[key] else 0
  }

  function EnterScope(s: Server, key: EntityId, version: int, representation: int, dormant: bool)
    : Result<(Server, Message), ScopeError>
  {
    if version <= 0 || representation <= 0 then Err(ScopeVersion)
    else if key !in s.counters && |s.counters| >= s.maxIdentities then Err(IdentityCap)
    else
      var epoch := CounterOf(s, key) + 1;
      var d := Delivery(
        Token(s.connectionEpoch, key, epoch, representation), version, dormant, false, 0, Entering, {});
      PendingState(s.(counters := s.counters[key := epoch], current := s.current[key := d]), key)
  }

  function AcknowledgeState(s: Server, msg: Message): (Server, bool) {
    var key := msg.token.entity;
    if key !in s.current || s.current[key].token != msg.token || s.current[key].phase == Leaving
       || msg.kind !in {Enter, Delta} || msg.stateVersion !in s.current[key].sentVersions then (s, false)
    else
      var d := s.current[key];
      var ready := d.ready || msg.kind == Enter;
      var decoded := Max(d.decodedVersion, msg.stateVersion);
      var phase := if ready && d.wantsDormancy && decoded >= d.desiredVersion then DormantKnown
                   else if ready then Active else Entering;
      var acked := d.(ready := ready, decodedVersion := decoded, phase := phase,
                      sentVersions := set v | v in d.sentVersions && v >= decoded);
      (s.(current := s.current[key := acked]), true)
  }

  function ChangeVersion(s: Server, key: EntityId, version: int, dormant: bool): Result<Server, ScopeError> {
    if key !in s.current then Err(NoScope)
    else
      var d := s.current[key];
      if version <= d.desiredVersion || d.phase == Leaving then Err(NonMonotonicVersion)
      else
        var changed := d.(desiredVersion := version, wantsDormancy := dormant,
                          phase := if d.ready then Active else Entering);
        Ok(s.(current := s.current[key := changed]))
  }

  function ExitScope(s: Server, key: EntityId): Result<(Server, Message), ScopeError> {
    if key !in s.current then Err(NoScope)
    else Ok((s.(current := s.current[key := s.current[key].(phase := Leaving)]),
             Message(Exit, s.current[key].token, 0)))
  }

  function AcknowledgeExit(s: Server, msg: Message): (Server, bool) {
    var key := msg.token.entity;
    if msg.kind != Exit || key !in s.current || s.current[key].token != msg.token || s.current[key].phase != Leaving
    then (s, false)
    else (s.(current := s.current - {key}), true)
  }

  function ResetServer(s: Server, epoch: int): Result<Server, ScopeError> {
    if epoch <= s.connectionEpoch then Err(EpochMustAdvance)
    else Ok(s.(connectionEpoch := epoch, counters := map[], current := map[]))
  }

  /** `needs_state`: the scope still owes the client a state message. */
  predicate NeedsState(s: Server, key: EntityId) {
    key in s.current && s.current[key].phase != Leaving
    && (!s.current[key].ready || s.current[key].decodedVersion < s.current[key].desiredVersion)
  }

  // ---- client -----------------------------------------------------------------------

  datatype Held = Held(token: Token, version: int)

  datatype Client = Client(
    connectionEpoch: int,
    maxIdentities: nat,
    current: map<EntityId, Held>,
    closed: map<EntityId, int>,
    destroyed: set<EntityId>,
    known: set<EntityId>)

  function ClosedThrough(c: Client, key: EntityId): int {
    if key in c.closed then c.closed[key] else 0
  }

  function ApplyMessage(c: Client, msg: Message): Result<(Client, bool), ScopeError> {
    var t := msg.token;
    var key := t.entity;
    if t.connectionEpoch != c.connectionEpoch || t.scopeEpoch <= 0 || t.representation <= 0 || msg.kind == Unknown then
      Ok((c, false))
    else if key !in c.known && |c.known| >= c.maxIdentities then Err(IdentityCap)
    else if msg.kind == Destroy then
      Ok((c.(known := c.known + {key}, destroyed := c.destroyed + {key}, current := c.current - {key}), true))
    else if key in c.destroyed then Ok((c, false))
    else if msg.kind == Exit then ApplyExit(c, t)
    else ApplyState(c, msg)
  }

  function ApplyExit(c: Client, t: Token): Result<(Client, bool), ScopeError> {
    var key := t.entity;
    if key in c.current && c.current[key].token.scopeEpoch == t.scopeEpoch
      && c.current[key].token != t then Ok((c, false))
    else
      var kept :=
        if key in c.current && c.current[key].token.scopeEpoch <= t.scopeEpoch then c.current - {key} else c.current;
      Ok((c.(known := c.known + {key}, closed := c.closed[key := Max(ClosedThrough(c, key), t.scopeEpoch)],
        current := kept),
          true))
  }

  function ApplyState(c: Client, msg: Message): Result<(Client, bool), ScopeError> {
    var t := msg.token;
    var key := t.entity;
    if t.scopeEpoch <= ClosedThrough(c, key) || msg.stateVersion <= 0 then Ok((c, false))
    else if msg.kind == Delta && (key !in c.current || c.current[key].token != t) then Ok((c, false))
    else if msg.kind != Delta && key in c.current && t.scopeEpoch < c.current[key].token.scopeEpoch then Ok((c, false))
    else if msg.kind != Delta && key in c.current && t.scopeEpoch == c.current[key].token.scopeEpoch
            && c.current[key].token != t then Ok((c, false))
    else
      var version := if key in c.current && c.current[key].token == t
                     then Max(c.current[key].version, msg.stateVersion) else msg.stateVersion;
      Ok((c.(known := c.known + {key}, current := c.current[key := Held(t, version)]), true))
  }

  function ResetClient(c: Client, epoch: int): Result<Client, ScopeError> {
    if epoch <= c.connectionEpoch then Err(EpochMustAdvance)
    else Ok(c.(connectionEpoch := epoch, current := map[], closed := map[], destroyed := {}, known := {}))
  }
}
