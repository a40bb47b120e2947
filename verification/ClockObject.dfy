/** The estimator and the lead controller as the program runs them. */
module ClockObject {
  import opened NetTypes
  import opened ClockModel
  import opened ClockTheorems
  import ClockLead

  /** `min_by_key` over the prospective window. */
  method FindBest(samples: seq<Sample>) returns (best: Sample)
    requires samples != []
    ensures best == Best(samples)
  {
    best := samples[0];
    assert samples[..1] == [samples[0]];
    for i := 1 to |samples|
      invariant best == Best(samples[..i])
    {
      assert samples[..i + 1][..i] == samples[..i];
      if Better(samples[i], best) {
        best := samples[i];
      }
    }
    assert samples[..|samples|] == samples;
  }

  class ClockEstimator {
    const config: Config
    const hz: nat
    var epoch: nat
    var samples: seq<Sample>
    var offset: Option<int>
    var last: Option<(nat, nat)>
    var resync: Option<ResyncReason>

    function View(): Estimator
      reads this
    {
      Estimator(config, hz, epoch, samples, offset, last, resync)
    }

    ghost predicate Valid()
      reads this
    {
      ValidConfig(config) && OffsetOk(View())
    }

    constructor (hz: nat, epoch: nat, config: Config)
      requires ValidConfig(config)
      ensures Valid() && Ok(View()) == NewEstimator(hz, epoch, config)
    {
      this.config, this.hz, this.epoch := config, hz, epoch;
      samples, offset, last, resync := [], None, None, None;
    }

    method Observe(x: Exchange) returns (r: Result<Sample, SyncError>)
      requires Valid()
      modifies this`samples, this`offset, this`resync
      ensures Valid() && (View(), r) == ClockModel.Observe(old(View()), x)
    {
      ObserveKeepsOffset(View(), x);
      if resync.Some? {
        return Err(ResyncRequired(resync.value));
      }
      r := FromExchange(x);
      if r.Err? {
        return;
      }
      var sample := r.value;
      if sample.roundTrip > config.maximumRoundTrip {
        return Err(InvalidSample);
      }
      if samples != [] {
        var newest := samples[|samples| - 1];
        if sample.clientReceive < newest.clientReceive || sample.clientSend <= newest.clientSend {
          return Err(NonMonotonicTime);
        }
      }
      var window := Window(View(), sample);
      var best := FindBest(window);
      if offset.Some? && Abs(best.offset - offset.value) > config.offsetJump {
        resync := Some(OffsetJump);
        return Err(ResyncRequired(OffsetJump));
      }
      offset := Some(best.offset);
      samples := window;
    }

    /** A new estimate: never earlier than the last one, and within the slew of local time. */
    method EstimateServerTime(now: nat) returns (r: Result<nat, SyncError>)
      requires Valid()
      modifies this`last, this`resync
      ensures Valid() && (View(), r) == ClockModel.Estimate(old(View()), now) && Tracks(old(View()), View())
    {
      NextTracks(View(), Estimating(now));
      if resync.Some? {
        return Err(ResyncRequired(resync.value));
      }
      if offset.None? {
        return Err(NotSynchronized);
      }
      var target := now + offset.value;
      var raw := target;
      if last.Some? {
        var (lastLocal, lastServer) := last.value;
        if now < lastLocal {
          return Err(NonMonotonicTime);
        }
        var elapsed := now - lastLocal;
        if elapsed > config.suspension {
          resync := Some(Suspension);
          return Err(ResyncRequired(Suspension));
        }
        var free := lastServer + elapsed;
        raw := free + Clamp(target - free, Allowance(config, elapsed));
      }
      r := ToDuration(raw);
      if r.Ok? {
        last := Some((now, r.value));
      }
    }

    /** Time since tick zero; an estimate before the epoch is out of range. */
    method EstimateServerElapsed(now: nat) returns (r: Result<nat, SyncError>)
      requires Valid()
      modifies this`last, this`resync
      ensures Valid() && View() == ClockModel.Estimate(old(View()), now).0
      ensures r == match ClockModel.Estimate(old(View()), now).1
        case Ok(time) => if time < epoch then Err(TimeRange) else Ok(time - epoch)
        case Err(error) => Err(error)
    {
      r := EstimateServerTime(now);
      if r.Ok? {
        r := if r.value < epoch then Err(TimeRange) else Ok(r.value - epoch);
      }
    }

    method Restart(newEpoch: nat)
      requires Valid()
      modifies this`epoch, this`samples, this`offset, this`last, this`resync
      ensures Valid() && View() == Reset(old(View()), newEpoch)
    {
      epoch, samples, offset, last, resync := newEpoch, [], None, None, None;
    }
  }

  class LeadController {
    var lead: nat
    var samples: seq<int>
    var lastTarget: Option<nat>
    var resync: Option<ResyncReason>

    /** The targets assigned so far. */
    ghost var targets: seq<nat>

    function View(): Lead
      reads this
    {
      Lead(lead, samples, lastTarget, resync)
    }

    ghost predicate Valid()
      reads this
    {
      ClockLead.Inv(ClockLead.State(View(), targets))
    }

    constructor (lead: nat)
      requires 1 <= lead <= 12
      ensures Valid() && Ok(View()) == NewLead(lead) && targets == []
    {
      this.lead, samples, lastTarget, resync, targets := lead, [], None, None, [];
    }

    method ObserveArrivalSlack(slack: int) returns (r: Result<nat, SyncError>)
      requires Valid()
      modifies this`lead, this`samples, this`resync
      ensures Valid() && (View(), r) == ObserveSlack(old(View()), slack)
    {
      ClockLead.NextKeeps(ClockLead.State(View(), targets), ClockLead.Slack(slack));
      if resync.Some? {
        return Err(ResyncRequired(resync.value));
      }
      if !(-12 <= slack <= 12) {
        return Err(InvalidSample);
      }
      if slack <= 0 {
        if lead == 12 {
          resync := Some(LeadExceeded);
          return Err(ResyncRequired(LeadExceeded));
        }
        lead, samples := lead + 1, [];
      } else {
        samples := Recent(samples, slack);
        if |samples| >= 8 {
          var sorted := SortInts(samples);
          if sorted[|sorted| / 4] > 2 && lead > 1 {
            lead, samples := lead - 1, [];
          }
        }
      }
      r := Ok(lead);
    }

    method Assign(serverTick: nat) returns (r: Result<Option<nat>, SyncError>)
      requires Valid()
      modifies this`lastTarget, this`resync, this`targets
      ensures Valid() && (View(), r) == AssignTarget(old(View()), serverTick)
      ensures ClockLead.State(View(), targets) ==
        ClockLead.Next(ClockLead.State(old(View()), old(targets)), ClockLead.Assigning(serverTick))
    {
      ClockLead.NextKeeps(ClockLead.State(View(), targets), ClockLead.Assigning(serverTick));
      if resync.Some? {
        return Err(ResyncRequired(resync.value));
      }
      if serverTick + lead > U64_MAX {
        return Err(TimeRange);
      }
      var target := serverTick + lead;
      if lastTarget.Some? {
        if target <= lastTarget.value {
          return Ok(None);
        }
        if target - lastTarget.value > 12 {
          resync := Some(TargetDiscontinuity);
          return Err(ResyncRequired(TargetDiscontinuity));
        }
      }
      lastTarget := Some(target);
      targets := targets + [target];
      r := Ok(Some(target));
    }
  }

  /** An estimator without samples, or nothing for an invalid configuration. */
  method CreateEstimator(hz: nat, epoch: nat, config: Config) returns (r: Result<ClockEstimator, SyncError>)
    ensures match NewEstimator(hz, epoch, config)
      case Ok(e) => r.Ok? && fresh(r.value) && r.value.Valid() && r.value.View() == e
      case Err(error) => r == Err(error)
  {
    if !ValidConfig(config) {
      return Err(InvalidConfiguration);
    }
    var estimator := new ClockEstimator(hz, epoch, config);
    r := Ok(estimator);
  }

  /** A controller for a lead of one to twelve ticks. */
  method CreateController(lead: nat) returns (r: Result<LeadController, SyncError>)
    ensures match NewLead(lead)
      case Ok(c) => r.Ok? && fresh(r.value) && r.value.Valid() && r.value.View() == c && r.value.targets == []
      case Err(error) => r == Err(error)
  {
    if !(1 <= lead <= 12) {
      return Err(InvalidConfiguration);
    }
    var controller := new LeadController(lead);
    r := Ok(controller);
  }
}
