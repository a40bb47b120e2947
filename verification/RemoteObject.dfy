/** The remote buffer as the program runs it: tracks, accounting and cursor updated in place. */
module RemoteObject {
  import opened NetTypes
  import opened TickRates
  import opened RemoteModel
  import opened RemoteInvariant
  import opened RemotePresent

  class RemoteBuffer {
    const connection: nat
    var config: Config
    var tracks: map<nat, Track>
    var accounting: Accounting
    var last: Option<nat>
    var at: nat
    var estimatedNow: nat

    function View(): Buffer
      reads this
    {
      Buffer(connection, config, tracks, accounting, last, at, estimatedNow)
    }

    ghost predicate Valid()
      reads this
    {
      Inv(View())
    }

    constructor (connection: nat, config: Config)
      requires connection != 0 && ValidConfig(config)
      ensures Valid() && Ok(View()) == NewBuffer(connection, config)
    {
      this.connection, this.config := connection, config;
      tracks, accounting, last, at, estimatedNow := map[], Accounting(0, 0, 0, 0), None, 0, 0;
      new;
      StartInv(connection, config);
    }

    /** Moves the cursor; it never goes back. */
    method Advance(now: nat) returns (cursor: nat)
      requires Valid()
      modifies this`estimatedNow, this`at, this`last
      ensures Valid() && View() == RemoteModel.Advance(old(View()), now)
      ensures cursor == at && old(at) <= at
    {
      NextKeeps(View(), Advancing(now));
      if now > estimatedNow {
        estimatedNow := now;
      }
      var candidate := SaturatingSub(estimatedNow, config.delay);
      at := if last.Some? && last.value > candidate then last.value else candidate;
      last := Some(at);
      cursor := at;
    }

    method SetDelay(delay: nat)
      requires Valid()
      modifies this`config
      ensures Valid() && View() == old(View()).(config := old(config).(delay := delay))
    {
      ghost var before := View();
      config := config.(delay := delay);
      SettledKeeps(before, View());
    }

    method Receive(sample: Sample, policy: Policy) returns (r: Result<Received, Error>)
      requires Valid()
      modifies this`tracks, this`accounting
      ensures Valid() && Covered(old(View()), sample.identity.scope.entity.index)
      ensures (View(), r) == RemoteModel.Receive(old(View()), sample, policy) && Later(old(View()), View())
    {
      TracksCovered(View(), sample.identity.scope.entity.index);
      ReceiveKeeps(View(), sample, policy);
      r := Admit(sample, policy);
    }

    method Admit(sample: Sample, policy: Policy) returns (r: Result<Received, Error>)
      requires ValidRate(config.hz) && Covered(View(), sample.identity.scope.entity.index)
      modifies this`tracks, this`accounting
      ensures (View(), r) == RemoteModel.Receive(old(View()), sample, policy)
    {
      var check := CheckSample(View(), sample, policy);
      if check.Failed? {
        return Err(check.error);
      }
      var index := sample.identity.scope.entity.index;
      var changed := true;
      if index in tracks {
        var known := Continues(tracks[index], sample.identity);
        if known.Err? {
          return Err(known.error);
        }
        changed := known.value;
      } else if accounting.knownEntities == config.limits.knownEntities {
        return Err(Capacity);
      }
      var prior := if changed || index !in tracks then [] else tracks[index].samples;
      var existing := FindTick(prior, sample.tick);
      if existing.Some? {
        return if existing.value == sample then Ok(Duplicate) else Err(Conflict);
      }
      if IsTooOld(prior, sample.tick, config.limits) {
        return Ok(TooOld);
      }
      r := Replace(sample.identity, Merged(prior, sample, config.limits), changed);
    }

    /** Swaps a track's history and adjusts the totals, or refuses for lack of room. */
    method Replace(identity: RemoteIdentity, samples: seq<Sample>, changed: bool) returns (r: Result<Received, Error>)
      requires Covered(View(), identity.scope.entity.index)
      modifies this`tracks, this`accounting
      ensures (View(), r) == Store(old(View()), identity, samples, changed)
    {
      var index := identity.scope.entity.index;
      var known := index in tracks;
      var count := accounting.samples - TrackSamples(View(), index) + |samples|;
      var bytes := accounting.retainedBytes - TrackBytes(View(), index) + Charge(samples, config.limits)
        + if known then 0 else config.limits.trackCharge;
      if count > config.limits.totalSamples || bytes > config.limits.retainedBytes {
        return Err(Capacity);
      }
      var entities := if known then accounting.knownEntities else accounting.knownEntities + 1;
      var active := if known && !tracks[index].retired then accounting.activeEntities
        else accounting.activeEntities + 1;
      accounting := Accounting(entities, active, count, bytes);
      r := Ok(if changed && known then Discontinuity else Inserted);
      tracks := tracks[index := Track(identity, false, samples)];
    }

    method Exit(scope: ScopeIdentity) returns (r: Outcome<Error>)
      requires Valid()
      modifies this`tracks, this`accounting
      ensures Valid() && Covered(old(View()), scope.entity.index) && CountsActive(old(View()), scope.entity.index)
      ensures (View(), r) == RemoteModel.Exit(old(View()), scope) && Later(old(View()), View())
    {
      TracksCovered(View(), scope.entity.index);
      ExitKeeps(View(), scope);
      r := Leave(scope);
    }

    /** Releases the history and keeps the fence. */
    method Leave(scope: ScopeIdentity) returns (r: Outcome<Error>)
      requires Covered(View(), scope.entity.index) && CountsActive(View(), scope.entity.index)
      modifies this`tracks, this`accounting
      ensures (View(), r) == RemoteModel.Exit(old(View()), scope)
    {
      var index := scope.entity.index;
      if index !in tracks || tracks[index].identity.scope != scope {
        return Failed(Stale);
      }
      var track := tracks[index];
      if !track.retired {
        accounting := Accounting(
          accounting.knownEntities, accounting.activeEntities - 1, accounting.samples - |track.samples|,
          accounting.retainedBytes - Charge(track.samples, config.limits));
        tracks := tracks[index := track.(samples := [], retired := true)];
      }
      r := Done;
    }

    method Present(scope: ScopeIdentity, policy: Policy) returns (r: Result<Option<Presented>, Error>)
      requires Valid()
      ensures Playable(View()) && r == SampleAt(View(), scope, policy) && Honest(View(), scope, policy)
    {
      InvPlayable(View());
      HonestSample(View(), scope, policy);
      r := SampleAt(View(), scope, policy);
    }
  }

  /** An empty buffer for one connection epoch, or the reason there is none. */
  method Create(connection: nat, config: Config) returns (r: Result<RemoteBuffer, Error>)
    ensures match NewBuffer(connection, config)
      case Ok(b) => r.Ok? && fresh(r.value) && r.value.Valid() && r.value.View() == b
      case Err(error) => r == Err(error)
  {
    if connection == 0 {
      return Err(InvalidIdentity);
    }
    if !ValidConfig(config) {
      return Err(InvalidConfiguration);
    }
    var buffer := new RemoteBuffer(connection, config);
    r := Ok(buffer);
  }
}
