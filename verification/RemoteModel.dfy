/** Delayed remote samples (engine/net/src/interpolation/mod.rs) as transitions of a value. */
module RemoteModel {
  import opened NetTypes
  import opened TickRates

  datatype ScopeIdentity = ScopeIdentity(connection: nat, entity: EntityId, scope: nat, representation: nat)

  datatype RemoteIdentity = RemoteIdentity(scope: ScopeIdentity, scene: nat, segment: nat)

  /** A pose: opaque content and the heap bytes it reports. */
  datatype Pose = Pose(content: int, bytes: nat)

  datatype Sample = Sample(identity: RemoteIdentity, tick: nat, value: Pose)

  datatype Limits = Limits(
    knownEntities: nat, samplesPerEntity: nat, totalSamples: nat, historyTicks: nat,
    sampleHeapBytes: nat, retainedBytes: nat, sampleSize: nat, trackCharge: nat)

  datatype Config = Config(hz: nat, delay: nat, extrapolationCap: nat, limits: Limits)

  datatype Error =
    | InvalidConfiguration | InvalidIdentity | InvalidPayload | WrongEpoch | Stale | Conflict | Capacity | TimeRange

  datatype Received = Inserted | Duplicate | TooOld | Discontinuity

  /** The game's pose callbacks; interpolation fractions are exact. */
  datatype Policy = Policy(
    valid: Pose -> bool,
    interpolate: (Pose, Pose, real) -> Option<Pose>,
    projectLatest: (Pose, nat) -> Option<Pose>,
    extrapolate: (Pose, Pose, nat, nat) -> Option<Pose>)

  datatype Accounting = Accounting(knownEntities: nat, activeEntities: nat, samples: nat, retainedBytes: nat)

  datatype Track = Track(identity: RemoteIdentity, retired: bool, samples: seq<Sample>)

  datatype Buffer = Buffer(
    connection: nat, config: Config, tracks: map<nat, Track>, accounting: Accounting,
    last: Option<nat>, at: nat, estimatedNow: nat)

  const CAP_NANOS: nat := 100_000_000

  predicate ValidConfig(config: Config) {
    && ValidRate(config.hz)
    && config.limits.knownEntities > 0
    && config.limits.samplesPerEntity >= 2
    && config.limits.totalSamples >= 2
    && config.limits.historyTicks > 0
    && config.limits.trackCharge <= config.limits.retainedBytes <= U64_MAX
    && config.extrapolationCap <= CAP_NANOS
  }

  function NewBuffer(connection: nat, config: Config): Result<Buffer, Error> {
    if connection == 0 then Err(InvalidIdentity)
    else if !ValidConfig(config) then Err(InvalidConfiguration)
    else Ok(Buffer(connection, config, map[], Accounting(0, 0, 0, 0), None, 0, 0))
  }

  // ---- identities ------------------------------------------------------------------------

  function CheckIdentity(identity: RemoteIdentity, connection: nat): Outcome<Error> {
    if identity.scope.connection != connection then Failed(WrongEpoch)
    else if identity.scope.entity.generation == 0 || identity.scope.scope == 0 || identity.scope.representation == 0
            || identity.scene == 0 || identity.segment == 0 then Failed(InvalidIdentity)
    else Done
  }

  predicate Newer(new_: RemoteIdentity, current: RemoteIdentity) {
    if new_.scene < current.scene then false
    else if new_.scope.entity.generation != current.scope.entity.generation then
      new_.scope.entity.generation > current.scope.entity.generation
    else if new_.scope.scope != current.scope.scope then new_.scope.scope > current.scope.scope
    else if new_.scope.representation != current.scope.representation then
      new_.scope.representation > current.scope.representation
    else if new_.scene != current.scene then new_.scene > current.scene
    else new_.segment > current.segment
  }

  // ---- one entity's samples ------------------------------------------------------------------

  function From(samples: seq<Sample>, floor: nat): seq<Sample> {
    if samples == [] then []
    else if samples[0].tick >= floor then [samples[0]] + From(samples[1..], floor)
    else From(samples[1..], floor)
  }

  /** Inserts before the first sample that is not earlier. */
  function InsertByTick(samples: seq<Sample>, sample: Sample): seq<Sample> {
    if samples == [] || samples[0].tick >= sample.tick then [sample] + samples
    else [samples[0]] + InsertByTick(samples[1..], sample)
  }

  function Newest(prior: seq<Sample>, tick: nat): nat {
    if prior == [] || prior[|prior| - 1].tick < tick then tick else prior[|prior| - 1].tick
  }

  function FloorOf(prior: seq<Sample>, tick: nat, limits: Limits): nat {
    SaturatingSub(Newest(prior, tick), limits.historyTicks)
  }

  function FindTick(samples: seq<Sample>, tick: nat): Option<Sample> {
    if samples == [] then None else if samples[0].tick == tick then Some(samples[0]) else FindTick(samples[1..], tick)
  }

  predicate IsTooOld(prior: seq<Sample>, tick: nat, limits: Limits) {
    || tick < FloorOf(prior, tick, limits)
    || (prior != [] && |prior| == limits.samplesPerEntity && tick < prior[0].tick)
  }

  /** The history with one more sample, trimmed to the span and the count. */
  function Merged(prior: seq<Sample>, sample: Sample, limits: Limits): seq<Sample> {
    var samples := InsertByTick(From(prior, FloorOf(prior, sample.tick, limits)), sample);
    if |samples| > limits.samplesPerEntity && samples != [] then samples[1..] else samples
  }

  function HeapBytes(samples: seq<Sample>, start: nat): nat {
    if samples == [] then start
    else SaturatingAdd(HeapBytes(samples[..|samples| - 1], start), samples[|samples| - 1].value.bytes)
  }

  /** Structs plus reported heap capacities, saturating. */
  function Charge(samples: seq<Sample>, limits: Limits): nat {
    HeapBytes(samples, |samples| * limits.sampleSize)
  }

  // ---- receiving --------------------------------------------------------------------------------

  function CheckSample(b: Buffer, sample: Sample, policy: Policy): Outcome<Error>
    requires ValidRate(b.config.hz)
  {
    var identity := CheckIdentity(sample.identity, b.connection);
    if identity.Failed? then identity
    else if Deadline(b.config.hz, sample.tick).None? then Failed(TimeRange)
    else if !policy.valid(sample.value) then Failed(InvalidPayload)
    else if sample.value.bytes > b.config.limits.sampleHeapBytes then Failed(Capacity)
    else Done
  }

  /** Whether the identity starts a new history on its track. */
  function Continues(track: Track, identity: RemoteIdentity): Result<bool, Error> {
    if track.retired && identity.scope.entity.generation == track.identity.scope.entity.generation
       && identity.scope.scope <= track.identity.scope.scope then Err(Stale)
    else if identity != track.identity then (if Newer(identity, track.identity) then Ok(true) else Err(Stale))
    else if track.retired then Err(Stale)
    else Ok(false)
  }

  function TrackBytes(b: Buffer, index: nat): nat {
    if index in b.tracks then Charge(b.tracks[index].samples, b.config.limits) else 0
  }

  function TrackSamples(b: Buffer, index: nat): nat {
    if index in b.tracks then |b.tracks[index].samples| else 0
  }

  /** The totals cover the track's own part, so replacing it never underflows. */
  predicate Covered(b: Buffer, index: nat) {
    TrackSamples(b, index) <= b.accounting.samples && TrackBytes(b, index) <= b.accounting.retainedBytes
  }

  /** The accounting once the track holds `samples`. */
  function Recount(b: Buffer, index: nat, samples: seq<Sample>): Accounting
    requires Covered(b, index)
  {
    var known := index in b.tracks;
    Accounting(
      if known then b.accounting.knownEntities else b.accounting.knownEntities + 1,
      if known && !b.tracks[index].retired then b.accounting.activeEntities else b.accounting.activeEntities + 1,
      b.accounting.samples - TrackSamples(b, index) + |samples|,
      b.accounting.retainedBytes - TrackBytes(b, index) + Charge(samples, b.config.limits)
        + if known then 0 else b.config.limits.trackCharge)
  }

  function Store(
    b: Buffer, identity: RemoteIdentity, samples: seq<Sample>, changed: bool): (Buffer, Result<Received, Error>)
    requires Covered(b, identity.scope.entity.index)
  {
    var index := identity.scope.entity.index;
    var recount := Recount(b, index, samples);
    if recount.samples > b.config.limits.totalSamples || recount.retainedBytes > b.config.limits.retainedBytes then
      (b, Err(Capacity))
    else
      (b.(tracks := b.tracks[index := Track(identity, false, samples)], accounting := recount),
       Ok(if changed && index in b.tracks then Discontinuity else Inserted))
  }

  function Extend(b: Buffer, sample: Sample, changed: bool): (Buffer, Result<Received, Error>)
    requires Covered(b, sample.identity.scope.entity.index)
  {
    var index := sample.identity.scope.entity.index;
    var prior := if changed || index !in b.tracks then [] else b.tracks[index].samples;
    var existing := FindTick(prior, sample.tick);
    if existing.Some? then (b, if existing.value == sample then Ok(Duplicate) else Err(Conflict))
    else if IsTooOld(prior, sample.tick, b.config.limits) then (b, Ok(TooOld))
    else Store(b, sample.identity, Merged(prior, sample, b.config.limits), changed)
  }

  function Receive(b: Buffer, sample: Sample, policy: Policy): (Buffer, Result<Received, Error>)
    requires ValidRate(b.config.hz) && Covered(b, sample.identity.scope.entity.index)
  {
    var check := CheckSample(b, sample, policy);
    if check.Failed? then (b, Err(check.error))
    else
      var index := sample.identity.scope.entity.index;
      if index !in b.tracks then
        (if b.accounting.knownEntities == b.config.limits.knownEntities then (b, Err(Capacity))
         else Extend(b, sample, true))
      else
        var changed := Continues(b.tracks[index], sample.identity);
        if changed.Err? then (b, Err(changed.error)) else Extend(b, sample, changed.value)
  }

  // ---- leaving a scope and moving the cursor ---------------------------------------------------------

  /** The active entities include an unretired track. */
  predicate CountsActive(b: Buffer, index: nat) {
    index in b.tracks && !b.tracks[index].retired ==> b.accounting.activeEntities > 0
  }

  function Exit(b: Buffer, scope: ScopeIdentity): (Buffer, Outcome<Error>)
    requires Covered(b, scope.entity.index) && CountsActive(b, scope.entity.index)
  {
    var index := scope.entity.index;
    if index !in b.tracks || b.tracks[index].identity.scope != scope then (b, Failed(Stale))
    else if b.tracks[index].retired then (b, Done)
    else
      (b.(accounting := b.accounting.(
            activeEntities := b.accounting.activeEntities - 1,
            samples := b.accounting.samples - TrackSamples(b, index),
            retainedBytes := b.accounting.retainedBytes - TrackBytes(b, index)),
          tracks := b.tracks[index := b.tracks[index].(samples := [], retired := true)]), Done)
  }

  /** `PresentationCursor::advance`. */
  function CursorAt(last: Option<nat>, now: nat, age: nat): nat {
    var candidate := SaturatingSub(now, age);
    if last.Some? && last.value > candidate then last.value else candidate
  }

  function Advance(b: Buffer, estimatedServerNow: nat): Buffer {
    var now := if b.estimatedNow > estimatedServerNow then b.estimatedNow else estimatedServerNow;
    var at := CursorAt(b.last, now, b.config.delay);
    b.(estimatedNow := now, at := at, last := Some(at))
  }

  // ---- sampling ----------------------------------------------------------------------------------------

  datatype FreezeReason = ExtrapolationLimit | InsufficientHistory | ByPolicy

  datatype Status = Buffering | Sampled | Interpolated | Extrapolated | Frozen(reason: FreezeReason)

  datatype Presented = Presented(
    identity: RemoteIdentity, value: Pose, status: Status, cursor: nat, newestTick: nat, poseTime: nat, totalAge: nat)

  datatype Shot = Shot(value: Pose, status: Status, poseTime: nat)

  /** How many leading samples are due at the cursor. */
  function Upper(samples: seq<Sample>, hz: nat, at: nat): (n: nat)
    requires ValidRate(hz)
    ensures n <= |samples|
  {
    if samples == [] || Instant(hz, samples[0].tick) > at then 0 else 1 + Upper(samples[1..], hz, at)
  }

  function Between(earlier: Sample, later: Sample, hz: nat, at: nat, policy: Policy): Shot
    requires ValidRate(hz) && Instant(hz, earlier.tick) <= at < Instant(hz, later.tick)
  {
    var start, end := Instant(hz, earlier.tick), Instant(hz, later.tick);
    var alpha := (at - start) as real / (end - start) as real;
    if alpha == 0.0 then Shot(earlier.value, Sampled, at)
    else
      match policy.interpolate(earlier.value, later.value, alpha)
      case Some(value) => Shot(value, Interpolated, at)
      case None => Shot(earlier.value, Frozen(ByPolicy), start)
  }

  /** Past the latest sample, by `ahead` more than zero. */
  function Beyond(samples: seq<Sample>, config: Config, ahead: nat, policy: Policy): Result<Shot, Error>
    requires ValidRate(config.hz) && samples != [] && ahead > 0
    requires |samples| >= 2 ==> samples[|samples| - 2].tick < samples[|samples| - 1].tick
  {
    var latest := samples[|samples| - 1];
    var time := Instant(config.hz, latest.tick);
    var projected := Min(ahead, config.extrapolationCap);
    var reached := if ahead > config.extrapolationCap then Frozen(ExtrapolationLimit) else Extrapolated;
    if |samples| < 2 then
      match policy.projectLatest(latest.value, projected)
      case Some(value) =>
        if time + projected > LONGEST then Err(TimeRange) else Ok(Shot(value, reached, time + projected))
      case None => Ok(Shot(latest.value, Frozen(InsufficientHistory), time))
    else if config.extrapolationCap == 0 then Ok(Shot(latest.value, Frozen(ExtrapolationLimit), time))
    else if time + projected > LONGEST then Err(TimeRange)
    else
      var previous := samples[|samples| - 2];
      InstantsIncrease(config.hz, previous.tick, latest.tick);
      match policy.extrapolate(previous.value, latest.value, time - Instant(config.hz, previous.tick), projected)
      case Some(value) => Ok(Shot(value, reached, time + projected))
      case None => Ok(Shot(latest.value, Frozen(ByPolicy), time))
  }
}
