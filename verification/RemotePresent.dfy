/** Sampling a track at the presentation cursor. */
module RemotePresent {
  import opened NetTypes
  import opened TickRates
  import opened RemoteModel
  import opened RemoteSamples
  import opened RemoteInvariant

  lemma {:induction false} UpperSpec(samples: seq<Sample>, hz: nat, at: nat)
    requires ValidRate(hz)
    ensures var upper := Upper(samples, hz, at);
      && (forall i :: 0 <= i < upper ==> Instant(hz, samples[i].tick) <= at)
      && (upper < |samples| ==> at < Instant(hz, samples[upper].tick))
  {
    if samples != [] && Instant(hz, samples[0].tick) <= at {
      UpperSpec(samples[1..], hz, at);
      assert samples == [samples[0]] + samples[1..];
      forall i | 0 <= i < Upper(samples, hz, at) ensures Instant(hz, samples[i].tick) <= at {
        assert i > 0 ==> samples[i] == samples[1..][i - 1];
      }
    }
  }

  /** What an ordered history shows at the cursor. */
  function Shoot(samples: seq<Sample>, config: Config, at: nat, policy: Policy): Result<Shot, Error>
    requires ValidRate(config.hz) && samples != [] && Ascending(samples)
  {
    var first, latest := samples[0], samples[|samples| - 1];
    if at < Instant(config.hz, first.tick) then Ok(Shot(first.value, Buffering, Instant(config.hz, first.tick)))
    else
      var upper := Upper(samples, config.hz, at);
      UpperSpec(samples, config.hz, at);
      if upper < |samples| then Ok(Between(samples[upper - 1], samples[upper], config.hz, at, policy))
      else
        var ahead := SaturatingSub(at, Instant(config.hz, latest.tick));
        if ahead == 0 then Ok(Shot(latest.value, Sampled, at)) else RemoteModel.Beyond(samples, config, ahead, policy)
  }

  /** Every unretired track holds an ordered history. */
  predicate Playable(b: Buffer) {
    && ValidRate(b.config.hz)
    && forall index :: index in b.tracks && !b.tracks[index].retired ==>
         b.tracks[index].samples != [] && Ascending(b.tracks[index].samples)
  }

  function SampleAt(b: Buffer, scope: ScopeIdentity, policy: Policy): Result<Option<Presented>, Error>
    requires Playable(b)
  {
    var index := scope.entity.index;
    if index !in b.tracks || b.tracks[index].retired || b.tracks[index].identity.scope != scope then Ok(None)
    else
      var track := b.tracks[index];
      match Shoot(track.samples, b.config, b.at, policy)
      case Err(error) => Err(error)
      case Ok(shot) =>
        if !policy.valid(shot.value) then Err(InvalidPayload)
        else Ok(Some(Presented(
          track.identity, shot.value, shot.status, b.at, track.samples[|track.samples| - 1].tick, shot.poseTime,
          SaturatingSub(b.estimatedNow, shot.poseTime))))
  }

  /** The cursor lies strictly between two adjacent samples, and the pose is their blend at its exact place. */
  ghost predicate Brackets(samples: seq<Sample>, hz: nat, at: nat, policy: Policy, value: Pose)
    requires ValidRate(hz)
  {
    exists i :: 0 <= i < |samples| - 1 && IsBlend(samples[i], samples[i + 1], hz, at, policy, value)
  }

  predicate IsBlend(earlier: Sample, later: Sample, hz: nat, at: nat, policy: Policy, value: Pose)
    requires ValidRate(hz)
  {
    var start, end := Instant(hz, earlier.tick), Instant(hz, later.tick);
    && start < at < end
    && policy.interpolate(earlier.value, later.value, (at - start) as real / (end - start) as real) == Some(value)
  }

  /** Some sample of that instant has the value. */
  ghost predicate Shows(samples: seq<Sample>, hz: nat, instant: nat, value: Pose)
    requires ValidRate(hz)
  {
    exists i :: 0 <= i < |samples| && Instant(hz, samples[i].tick) == instant && samples[i].value == value
  }

  /** What each status promises about the cursor, the pose time and the value. */
  ghost predicate Faithful(samples: seq<Sample>, config: Config, at: nat, policy: Policy, shot: Shot)
    requires ValidRate(config.hz) && samples != []
  {
    var first, latest := samples[0], samples[|samples| - 1];
    var start, end := Instant(config.hz, first.tick), Instant(config.hz, latest.tick);
    && start <= shot.poseTime <= end + config.extrapolationCap
    && match shot.status
       case Buffering => at < start && shot.value == first.value && shot.poseTime == start
       case Sampled =>
         && shot.poseTime == at
         && Shows(samples, config.hz, at, shot.value)
       case Interpolated => shot.poseTime == at && Brackets(samples, config.hz, at, policy, shot.value)
       case Extrapolated =>
         && end < at <= end + config.extrapolationCap && shot.poseTime == at
         && Projects(samples, config, at - end, policy, shot.value)
       case Frozen(ExtrapolationLimit) =>
         && end + config.extrapolationCap < at && shot.poseTime == end + config.extrapolationCap
         && (if config.extrapolationCap == 0 && |samples| >= 2 then shot.value == latest.value
             else Projects(samples, config, config.extrapolationCap, policy, shot.value))
       case Frozen(InsufficientHistory) =>
         |samples| == 1 && end < at && shot.poseTime == end && shot.value == latest.value
       case Frozen(ByPolicy) =>
         && shot.poseTime < at
         && Shows(samples, config.hz, shot.poseTime, shot.value)
  }

  /** The pose is the policy's projection of the latest samples, over a nonzero interval when there are two. */
  predicate Projects(samples: seq<Sample>, config: Config, ahead: nat, policy: Policy, value: Pose)
    requires ValidRate(config.hz) && samples != []
  {
    var latest := samples[|samples| - 1];
    if |samples| == 1 then policy.projectLatest(latest.value, ahead) == Some(value)
    else
      var previous := samples[|samples| - 2];
      var start, end := Instant(config.hz, previous.tick), Instant(config.hz, latest.tick);
      start < end && policy.extrapolate(previous.value, latest.value, end - start, ahead) == Some(value)
  }

  lemma FirstAndLast(samples: seq<Sample>, hz: nat, i: nat)
    requires ValidRate(hz) && Ascending(samples) && i < |samples|
    ensures Instant(hz, samples[0].tick) <= Instant(hz, samples[i].tick) <= Instant(hz, samples[|samples| - 1].tick)
  {
    if i > 0 {
      InstantsIncrease(hz, samples[0].tick, samples[i].tick);
    }
    if i < |samples| - 1 {
      InstantsIncrease(hz, samples[i].tick, samples[|samples| - 1].tick);
    }
  }

  lemma AlphaIsProper(start: nat, end: nat, at: nat)
    requires start <= at < end
    ensures var alpha := (at - start) as real / (end - start) as real;
      0.0 <= alpha < 1.0 && (alpha == 0.0 <==> at == start)
  {
  }

  lemma BetweenFaithful(samples: seq<Sample>, config: Config, at: nat, policy: Policy, i: nat)
    requires ValidRate(config.hz) && Ascending(samples) && i + 1 < |samples|
    requires Instant(config.hz, samples[i].tick) <= at < Instant(config.hz, samples[i + 1].tick)
    ensures Faithful(samples, config, at, policy, Between(samples[i], samples[i + 1], config.hz, at, policy))
  {
    FirstAndLast(samples, config.hz, i);
    FirstAndLast(samples, config.hz, i + 1);
    AlphaIsProper(Instant(config.hz, samples[i].tick), Instant(config.hz, samples[i + 1].tick), at);
    var shot := Between(samples[i], samples[i + 1], config.hz, at, policy);
    if shot.status == Interpolated {
      assert IsBlend(samples[i], samples[i + 1], config.hz, at, policy, shot.value);
    }
  }

  lemma BeyondFaithful(samples: seq<Sample>, config: Config, at: nat, policy: Policy)
    requires ValidRate(config.hz) && samples != [] && Ascending(samples)
    requires Instant(config.hz, samples[|samples| - 1].tick) < at
    ensures var r := RemoteModel.Beyond(samples, config, at - Instant(config.hz, samples[|samples| - 1].tick), policy);
      r.Ok? ==> Faithful(samples, config, at, policy, r.value)
  {
    var last := |samples| - 1;
    FirstAndLast(samples, config.hz, last);
    if last > 0 {
      InstantsIncrease(config.hz, samples[last - 1].tick, samples[last].tick);
    }
  }

  /** Whatever is shown never leaves the history by more than the extrapolation cap. */
  lemma ShotsAreFaithful(samples: seq<Sample>, config: Config, at: nat, policy: Policy)
    requires ValidRate(config.hz) && samples != [] && Ascending(samples)
    ensures Shoot(samples, config, at, policy).Ok? ==>
      Faithful(samples, config, at, policy, Shoot(samples, config, at, policy).value)
  {
    FirstAndLast(samples, config.hz, 0);
    UpperSpec(samples, config.hz, at);
    var upper := Upper(samples, config.hz, at);
    if at >= Instant(config.hz, samples[0].tick) && upper < |samples| {
      BetweenFaithful(samples, config, at, policy, upper - 1);
    } else if at > Instant(config.hz, samples[|samples| - 1].tick) {
      BeyondFaithful(samples, config, at, policy);
    }
  }

  lemma InvPlayable(b: Buffer)
    requires Inv(b)
    ensures Playable(b)
  {
    forall index | index in b.tracks && !b.tracks[index].retired
      ensures b.tracks[index].samples != [] && Ascending(b.tracks[index].samples)
    {
      assert TrackOk(index, b.tracks[index], b.connection, b.config);
    }
  }

  /** A presented pose belongs to the scope asked for and is faithful to its track. */
  ghost predicate Honest(b: Buffer, scope: ScopeIdentity, policy: Policy)
    requires Playable(b)
  {
    var r := SampleAt(b, scope, policy);
    r.Ok? && r.value.Some? ==>
      var p := r.value.value;
      && scope.entity.index in b.tracks
      && var track := b.tracks[scope.entity.index];
      && !track.retired && p.identity == track.identity && p.identity.scope == scope
      && p.cursor == b.at && policy.valid(p.value) && p.totalAge == SaturatingSub(b.estimatedNow, p.poseTime)
      && Faithful(track.samples, b.config, b.at, policy, Shot(p.value, p.status, p.poseTime))
  }

  lemma HonestSample(b: Buffer, scope: ScopeIdentity, policy: Policy)
    requires Playable(b)
    ensures Honest(b, scope, policy)
  {
    var index := scope.entity.index;
    if index in b.tracks && !b.tracks[index].retired {
      ShotsAreFaithful(b.tracks[index].samples, b.config, b.at, policy);
    }
  }

  /** In every reachable buffer whatever is presented is honest. */
  lemma PresentedIsHonest(connection: nat, config: Config, events: seq<Event>, scope: ScopeIdentity, policy: Policy)
    requires connection != 0 && ValidConfig(config)
    ensures Inv(NewBuffer(connection, config).value)
    ensures Playable(Run(NewBuffer(connection, config).value, events))
    ensures Honest(Run(NewBuffer(connection, config).value, events), scope, policy)
  {
    StartInv(connection, config);
    var b := Run(NewBuffer(connection, config).value, events);
    InvPlayable(b);
    HonestSample(b, scope, policy);
  }

  lemma StartInv(connection: nat, config: Config)
    requires connection != 0 && ValidConfig(config)
    ensures Inv(NewBuffer(connection, config).value)
  {
    var b := NewBuffer(connection, config).value;
    assert SampleCounts(b.tracks) == map[] && ByteCharges(b.tracks, config.limits) == map[] && ActiveOf(b.tracks) == {};
  }

  /** Once a scope has been left, nothing is presented for it again, whatever arrives. */
  lemma ExitedScopeStaysDark(b: Buffer, scope: ScopeIdentity, events: seq<Event>, policy: Policy)
    requires Inv(b) && Covered(b, scope.entity.index) && CountsActive(b, scope.entity.index)
    requires Exit(b, scope).1.Done?
    ensures Inv(Exit(b, scope).0)
    ensures Playable(Run(Exit(b, scope).0, events))
    ensures SampleAt(Run(Exit(b, scope).0, events), scope, policy) == Ok(None)
  {
    ExitKeeps(b, scope);
    var exited := Exit(b, scope).0;
    var after := Run(exited, events);
    InvPlayable(after);
    assert Surpasses(exited.tracks[scope.entity.index], after.tracks[scope.entity.index]);
  }
}
