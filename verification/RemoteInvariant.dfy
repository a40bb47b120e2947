/** The buffer's accounting, fences and cursor over every run. */
module RemoteInvariant {
  import opened NetTypes
  import opened Sums
  import opened RemoteModel
  import opened RemoteSamples

  // ---- what the accounting counts ------------------------------------------------------------

  ghost function SampleCounts(tracks: map<nat, Track>): map<nat, nat> {
    map index | index in tracks :: |tracks[index].samples|
  }

  ghost function ByteCharges(tracks: map<nat, Track>, limits: Limits): map<nat, nat> {
    map index | index in tracks :: Charge(tracks[index].samples, limits) + limits.trackCharge
  }

  ghost function ActiveOf(tracks: map<nat, Track>): set<nat> {
    set index | index in tracks && !tracks[index].retired
  }

  ghost function Audit(tracks: map<nat, Track>, limits: Limits): Accounting {
    Accounting(|tracks|, |ActiveOf(tracks)|, Total(SampleCounts(tracks)), Total(ByteCharges(tracks, limits)))
  }

  ghost predicate TrackOk(index: nat, track: Track, connection: nat, config: Config) {
    && track.identity.scope.entity.index == index
    && CheckIdentity(track.identity, connection).Done?
    && (if track.retired then track.samples == [] else SamplesOk(track.samples, track.identity, config))
  }

  ghost predicate Inv(b: Buffer) {
    && ValidConfig(b.config)
    && (forall index :: index in b.tracks ==> TrackOk(index, b.tracks[index], b.connection, b.config))
    && b.accounting == Audit(b.tracks, b.config.limits)
    && b.accounting.knownEntities <= b.config.limits.knownEntities
    && b.accounting.samples <= b.config.limits.totalSamples
    && b.accounting.retainedBytes <= b.config.limits.retainedBytes
    && (if b.last.Some? then b.last.value == b.at else b.at == 0)
  }

  lemma TracksCovered(b: Buffer, index: nat)
    requires Inv(b)
    ensures Covered(b, index) && CountsActive(b, index)
  {
    if index in b.tracks {
      TotalRemove(SampleCounts(b.tracks), index);
      TotalRemove(ByteCharges(b.tracks, b.config.limits), index);
      if !b.tracks[index].retired {
        assert index in ActiveOf(b.tracks);
      }
    }
  }

  /** Putting one track in place changes the totals by its own part. */
  lemma SamplesUpdate(tracks: map<nat, Track>, index: nat, track: Track)
    ensures Total(SampleCounts(tracks[index := track])) ==
      Total(SampleCounts(tracks)) - (if index in tracks then |tracks[index].samples| else 0) + |track.samples|
  {
    assert SampleCounts(tracks[index := track]) == SampleCounts(tracks)[index := |track.samples|];
    TotalUpdate(SampleCounts(tracks), index, |track.samples|);
  }

  lemma BytesUpdate(tracks: map<nat, Track>, index: nat, track: Track, limits: Limits)
    ensures Total(ByteCharges(tracks[index := track], limits)) ==
      Total(ByteCharges(tracks, limits))
      - (if index in tracks then Charge(tracks[index].samples, limits) + limits.trackCharge else 0)
      + Charge(track.samples, limits) + limits.trackCharge
  {
    var charge := Charge(track.samples, limits) + limits.trackCharge;
    assert ByteCharges(tracks[index := track], limits) == ByteCharges(tracks, limits)[index := charge];
    TotalUpdate(ByteCharges(tracks, limits), index, charge);
  }

  lemma KnownUpdate(tracks: map<nat, Track>, index: nat, track: Track)
    ensures |tracks[index := track]| == |tracks| + if index in tracks then 0 else 1
  {
    var after := tracks[index := track];
    assert after.Keys == tracks.Keys + {index};
    assert |after| == |after.Keys| && |tracks| == |tracks.Keys|;
  }

  lemma ActivateUpdate(tracks: map<nat, Track>, index: nat, track: Track)
    requires !track.retired
    ensures |ActiveOf(tracks[index := track])| == |ActiveOf(tracks)| + if index in ActiveOf(tracks) then 0 else 1
  {
    var active := ActiveOf(tracks);
    assert ActiveOf(tracks[index := track]) == active + {index};
    if index in active {
      assert active + {index} == active;
    } else {
      assert |active + {index}| == |active| + 1;
    }
  }

  lemma RetireUpdate(tracks: map<nat, Track>, index: nat, track: Track)
    requires track.retired && index in ActiveOf(tracks)
    ensures |ActiveOf(tracks[index := track])| == |ActiveOf(tracks)| - 1
  {
    var active := ActiveOf(tracks);
    assert ActiveOf(tracks[index := track]) == active - {index};
    assert |active - {index}| == |active| - 1;
  }

  lemma RecountAudits(b: Buffer, index: nat, track: Track)
    requires b.accounting == Audit(b.tracks, b.config.limits) && Covered(b, index) && !track.retired
    ensures Recount(b, index, track.samples) == Audit(b.tracks[index := track], b.config.limits)
  {
    SamplesUpdate(b.tracks, index, track);
    BytesUpdate(b.tracks, index, track, b.config.limits);
    KnownUpdate(b.tracks, index, track);
    ActivateUpdate(b.tracks, index, track);
  }

  // ---- fences --------------------------------------------------------------------------------------

  /** A later incarnation or a later scope of the same incarnation. */
  predicate Beyond(a: ScopeIdentity, b: ScopeIdentity) {
    a.entity.generation > b.entity.generation || (a.entity.generation == b.entity.generation && a.scope > b.scope)
  }

  /** The identity stays or advances; a retired scope stays retired until a later one takes the track. */
  predicate Surpasses(t: Track, t': Track) {
    if t'.identity == t.identity then t.retired ==> t'.retired
    else Newer(t'.identity, t.identity) && (t.retired ==> Beyond(t'.identity.scope, t.identity.scope))
  }

  lemma NewerTrans(a: RemoteIdentity, b: RemoteIdentity, c: RemoteIdentity)
    requires Newer(a, b) && Newer(b, c)
    ensures Newer(a, c)
  {
  }

  lemma NewerIrreflexive(a: RemoteIdentity)
    ensures !Newer(a, a)
  {
  }

  lemma SurpassesTrans(a: Track, b: Track, c: Track)
    requires Surpasses(a, b) && Surpasses(b, c)
    ensures Surpasses(a, c)
  {
    if a.identity != b.identity && b.identity != c.identity {
      NewerTrans(c.identity, b.identity, a.identity);
      NewerIrreflexive(a.identity);
    }
  }

  /** What later states keep: known tracks, their fences and the cursor only move forward. */
  ghost predicate Later(b: Buffer, b': Buffer) {
    && b'.connection == b.connection
    && b'.config == b.config.(delay := b'.config.delay)
    && b.at <= b'.at
    && (forall index :: index in b.tracks ==> index in b'.tracks && Surpasses(b.tracks[index], b'.tracks[index]))
  }

  lemma LaterTrans(a: Buffer, b: Buffer, c: Buffer)
    requires Later(a, b) && Later(b, c)
    ensures Later(a, c)
  {
    forall index | index in a.tracks ensures index in c.tracks && Surpasses(a.tracks[index], c.tracks[index]) {
      SurpassesTrans(a.tracks[index], b.tracks[index], c.tracks[index]);
    }
  }

  // ---- receiving ---------------------------------------------------------------------------------------

  lemma StoreKeeps(b: Buffer, identity: RemoteIdentity, samples: seq<Sample>, changed: bool)
    requires Inv(b) && Covered(b, identity.scope.entity.index)
    requires CheckIdentity(identity, b.connection).Done? && SamplesOk(samples, identity, b.config)
    requires identity.scope.entity.index in b.tracks || b.accounting.knownEntities < b.config.limits.knownEntities
    ensures Inv(Store(b, identity, samples, changed).0)
  {
    var index := identity.scope.entity.index;
    var track := Track(identity, false, samples);
    RecountAudits(b, index, track);
    var after := Store(b, identity, samples, changed).0;
    forall i | i in after.tracks ensures TrackOk(i, after.tracks[i], after.connection, after.config) {
      assert i in b.tracks ==> TrackOk(i, b.tracks[i], b.connection, b.config);
    }
  }

  lemma StoreLater(b: Buffer, identity: RemoteIdentity, samples: seq<Sample>, changed: bool)
    requires Covered(b, identity.scope.entity.index)
    requires var index := identity.scope.entity.index;
      index in b.tracks ==> Surpasses(b.tracks[index], Track(identity, false, samples))
    ensures Later(b, Store(b, identity, samples, changed).0)
  {
    forall i | i in b.tracks ensures Surpasses(b.tracks[i], b.tracks[i]) {
    }
  }

  lemma ExtendKeeps(b: Buffer, sample: Sample, changed: bool)
    requires Inv(b) && Covered(b, sample.identity.scope.entity.index)
    requires CheckIdentity(sample.identity, b.connection).Done? && SampleOk(sample, sample.identity, b.config)
    requires var index := sample.identity.scope.entity.index;
      if index in b.tracks then Continues(b.tracks[index], sample.identity) == Ok(changed)
      else changed && b.accounting.knownEntities < b.config.limits.knownEntities
    ensures Inv(Extend(b, sample, changed).0) && Later(b, Extend(b, sample, changed).0)
  {
    var index := sample.identity.scope.entity.index;
    var prior := if changed || index !in b.tracks then [] else b.tracks[index].samples;
    assert index in b.tracks ==> TrackOk(index, b.tracks[index], b.connection, b.config);
    FindTickSpec(prior, sample.tick);
    if FindTick(prior, sample.tick).None? && !IsTooOld(prior, sample.tick, b.config.limits) {
      MergedOk(prior, sample, b.config);
      StoreKeeps(b, sample.identity, Merged(prior, sample, b.config.limits), changed);
      StoreLater(b, sample.identity, Merged(prior, sample, b.config.limits), changed);
    }
  }

  lemma ReceiveKeeps(b: Buffer, sample: Sample, policy: Policy)
    requires Inv(b) && Covered(b, sample.identity.scope.entity.index)
    ensures Inv(Receive(b, sample, policy).0) && Later(b, Receive(b, sample, policy).0)
  {
    var index := sample.identity.scope.entity.index;
    if CheckSample(b, sample, policy).Done? {
      if index !in b.tracks {
        if b.accounting.knownEntities != b.config.limits.knownEntities {
          ExtendKeeps(b, sample, true);
        }
      } else {
        var changed := Continues(b.tracks[index], sample.identity);
        if changed.Ok? {
          ExtendKeeps(b, sample, changed.value);
        }
      }
    }
  }

  lemma ExitAudits(b: Buffer, scope: ScopeIdentity)
    requires b.accounting == Audit(b.tracks, b.config.limits)
    requires Covered(b, scope.entity.index) && CountsActive(b, scope.entity.index)
    ensures var after := Exit(b, scope).0; after.accounting == Audit(after.tracks, b.config.limits)
  {
    var index := scope.entity.index;
    if index in b.tracks && b.tracks[index].identity.scope == scope && !b.tracks[index].retired {
      var track := b.tracks[index].(samples := [], retired := true);
      SamplesUpdate(b.tracks, index, track);
      BytesUpdate(b.tracks, index, track, b.config.limits);
      KnownUpdate(b.tracks, index, track);
      RetireUpdate(b.tracks, index, track);
    }
  }

  lemma ExitKeeps(b: Buffer, scope: ScopeIdentity)
    requires Inv(b) && Covered(b, scope.entity.index) && CountsActive(b, scope.entity.index)
    ensures Inv(Exit(b, scope).0) && Later(b, Exit(b, scope).0)
  {
    var after := Exit(b, scope).0;
    ExitAudits(b, scope);
    forall i | i in after.tracks ensures TrackOk(i, after.tracks[i], after.connection, after.config) {
      assert TrackOk(i, b.tracks[i], b.connection, b.config);
    }
  }

  // ---- runs ----------------------------------------------------------------------------------------------

  datatype Event =
    | Receiving(sample: Sample, policy: Policy)
    | Exiting(scope: ScopeIdentity)
    | Advancing(now: nat)
    | SettingDelay(delay: nat)

  ghost function Next(b: Buffer, event: Event): Buffer
    requires Inv(b)
  {
    match event
    case Receiving(sample, policy) =>
      TracksCovered(b, sample.identity.scope.entity.index);
      Receive(b, sample, policy).0
    case Exiting(scope) =>
      TracksCovered(b, scope.entity.index);
      Exit(b, scope).0
    case Advancing(now) => Advance(b, now)
    case SettingDelay(delay) => b.(config := b.config.(delay := delay))
  }

  lemma SettledKeeps(b: Buffer, after: Buffer)
    requires Inv(b) && after.connection == b.connection && after.config == b.config.(delay := after.config.delay)
    requires after.tracks == b.tracks && after.accounting == b.accounting && b.at <= after.at
    requires if after.last.Some? then after.last.value == after.at else after.at == 0
    ensures Inv(after) && Later(b, after)
  {
    forall index | index in after.tracks ensures TrackOk(index, after.tracks[index], after.connection, after.config) {
      assert TrackOk(index, b.tracks[index], b.connection, b.config);
      if !b.tracks[index].retired {
        var samples := b.tracks[index].samples;
        forall i | 0 <= i < |samples| ensures SampleOk(samples[i], b.tracks[index].identity, after.config) {
          assert SampleOk(samples[i], b.tracks[index].identity, b.config);
        }
      }
    }
  }

  lemma NextKeeps(b: Buffer, event: Event)
    requires Inv(b)
    ensures Inv(Next(b, event)) && Later(b, Next(b, event))
  {
    match event
    case Receiving(sample, policy) =>
      TracksCovered(b, sample.identity.scope.entity.index);
      ReceiveKeeps(b, sample, policy);
    case Exiting(scope) =>
      TracksCovered(b, scope.entity.index);
      ExitKeeps(b, scope);
    case Advancing(now) => SettledKeeps(b, Next(b, event));
    case SettingDelay(delay) => SettledKeeps(b, Next(b, event));
  }

  lemma LaterSame(b: Buffer)
    ensures Later(b, b)
  {
    forall index | index in b.tracks ensures Surpasses(b.tracks[index], b.tracks[index]) {
    }
  }

  /** The buffer after any sequence of calls: every identity and the cursor only move forward. */
  ghost function Run(b: Buffer, events: seq<Event>): (later: Buffer)
    requires Inv(b)
    ensures Inv(later) && Later(b, later)
  {
    if events == [] then
      LaterSame(b);
      b
    else
      var before := Run(b, events[..|events| - 1]);
      NextKeeps(before, events[|events| - 1]);
      LaterTrans(b, before, Next(before, events[|events| - 1]));
      Next(before, events[|events| - 1])
  }
}
