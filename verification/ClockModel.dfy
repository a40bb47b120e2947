/**
 Clock estimation and prediction lead (engine/net/src/synchronization.rs). Offset and delay are
 those of section 8 of RFC 5905; times are nanoseconds.
 */
module ClockModel {
  import opened NetTypes
  import opened TickRates

  const MILLION: nat := 1_000_000

  datatype Exchange = Exchange(clientSend: nat, serverReceive: nat, serverSend: nat, clientReceive: nat)

  datatype Sample = Sample(clientSend: nat, roundTrip: nat, processing: nat, offset: int, clientReceive: nat)

  datatype ResyncReason = Suspension | OffsetJump | LeadExceeded | TargetDiscontinuity

  datatype SyncError =
    | InvalidConfiguration | InvalidSample | NotSynchronized | NonMonotonicTime | TimeRange
    | ResyncRequired(reason: ResyncReason)

  datatype Config = Config(window: nat, maximumRoundTrip: nat, offsetJump: nat, suspension: nat, slew: nat)

  /** Division that truncates toward zero. */
  function Truncate(a: int, b: nat): int
    requires b > 0
  {
    if a >= 0 then a / b else -((-a) / b)
  }

  function Abs(a: int): nat {
    if a >= 0 then a else -a
  }

  /** Round trip without server processing, and the symmetric-path offset. */
  function FromExchange(x: Exchange): Result<Sample, SyncError> {
    if x.clientReceive < x.clientSend || x.serverSend < x.serverReceive then Err(InvalidSample)
    else
      var local, processing := x.clientReceive - x.clientSend, x.serverSend - x.serverReceive;
      if local < processing then Err(InvalidSample)
      else
        Ok(Sample(
          x.clientSend, local - processing, processing,
          Truncate((x.serverReceive - x.clientSend) + (x.serverSend - x.clientReceive), 2), x.clientReceive))
  }

  datatype Estimator = Estimator(
    config: Config, hz: nat, epoch: nat, samples: seq<Sample>, offset: Option<int>,
    last: Option<(nat, nat)>, resync: Option<ResyncReason>)

  predicate ValidConfig(config: Config) {
    && 0 < config.window <= 256
    && config.maximumRoundTrip > 0 && config.offsetJump > 0 && config.suspension > 0
    && config.slew <= 20_000
  }

  function NewEstimator(hz: nat, epoch: nat, config: Config): Result<Estimator, SyncError> {
    if !ValidConfig(config) then Err(InvalidConfiguration)
    else Ok(Estimator(config, hz, epoch, [], None, None, None))
  }

  /** A smaller round trip, or a newer sample on equal round trips. */
  predicate Better(a: Sample, b: Sample) {
    a.roundTrip < b.roundTrip || (a.roundTrip == b.roundTrip && a.clientReceive > b.clientReceive)
  }

  /** The first of the best samples. */
  function Best(samples: seq<Sample>): Sample
    requires samples != []
  {
    if |samples| == 1 then samples[0]
    else
      var before := Best(samples[..|samples| - 1]);
      if Better(samples[|samples| - 1], before) then samples[|samples| - 1] else before
  }

  /** The window with one more sample. */
  function Window(e: Estimator, sample: Sample): seq<Sample> {
    (if |e.samples| == e.config.window && e.samples != [] then e.samples[1..] else e.samples) + [sample]
  }

  function Observe(e: Estimator, x: Exchange): (Estimator, Result<Sample, SyncError>) {
    if e.resync.Some? then (e, Err(ResyncRequired(e.resync.value)))
    else
      var r := FromExchange(x);
      if r.Err? then (e, r)
      else
        var sample := r.value;
        if sample.roundTrip > e.config.maximumRoundTrip then (e, Err(InvalidSample))
        else if e.samples != [] && (sample.clientReceive < e.samples[|e.samples| - 1].clientReceive
                                    || sample.clientSend <= e.samples[|e.samples| - 1].clientSend) then
          (e, Err(NonMonotonicTime))
        else
          var window := Window(e, sample);
          var best := Best(window);
          if e.offset.Some? && Abs(best.offset - e.offset.value) > e.config.offsetJump then
            (e.(resync := Some(OffsetJump)), Err(ResyncRequired(OffsetJump)))
          else (e.(offset := Some(best.offset), samples := window), Ok(sample))
  }

  function Clamp(a: int, bound: nat): int {
    if a + bound < 0 then 0 - (bound as int) else if a > bound then bound else a
  }

  function PartsPerMillion(a: nat, parts: nat): nat {
    a * parts / MILLION
  }

  function Allowance(config: Config, elapsed: nat): nat {
    PartsPerMillion(elapsed, config.slew)
  }

  function ToDuration(nanos: int): Result<nat, SyncError> {
    if nanos < 0 || nanos / NANOS > U64_MAX then Err(TimeRange) else Ok(nanos)
  }

  /** The slewed estimate, before it is checked for range. */
  function Slewed(config: Config, offset: int, lastLocal: nat, lastServer: nat, now: nat): int
    requires lastLocal <= now
  {
    var elapsed := now - lastLocal;
    var free := lastServer + elapsed;
    free + Clamp(now + offset - free, Allowance(config, elapsed))
  }

  function Estimate(e: Estimator, now: nat): (Estimator, Result<nat, SyncError>) {
    if e.resync.Some? then (e, Err(ResyncRequired(e.resync.value)))
    else if e.offset.None? then (e, Err(NotSynchronized))
    else if e.last.Some? && now < e.last.value.0 then (e, Err(NonMonotonicTime))
    else if e.last.Some? && now - e.last.value.0 > e.config.suspension then
      (e.(resync := Some(Suspension)), Err(ResyncRequired(Suspension)))
    else
      var target := now + e.offset.value;
      var raw := if e.last.Some? then Slewed(e.config, e.offset.value, e.last.value.0, e.last.value.1, now) else target;
      var estimate := ToDuration(raw);
      if estimate.Err? then (e, estimate) else (e.(last := Some((now, estimate.value))), estimate)
  }

  function Reset(e: Estimator, epoch: nat): Estimator {
    e.(epoch := epoch, samples := [], offset := None, last := None, resync := None)
  }

  // ---- prediction lead -------------------------------------------------------------------------

  datatype Lead = Lead(lead: nat, samples: seq<int>, lastTarget: Option<nat>, resync: Option<ResyncReason>)

  function NewLead(lead: nat): Result<Lead, SyncError> {
    if 1 <= lead <= 12 then Ok(Lead(lead, [], None, None)) else Err(InvalidConfiguration)
  }

  function InsertInt(x: int, sorted: seq<int>): seq<int> {
    if sorted == [] || x <= sorted[0] then [x] + sorted else [sorted[0]] + InsertInt(x, sorted[1..])
  }

  function SortInts(s: seq<int>): (sorted: seq<int>)
    ensures |sorted| == |s|
  {
    if s == [] then [] else
      var rest := SortInts(s[1..]);
      InsertedLength(s[0], rest);
      InsertInt(s[0], rest)
  }

  lemma {:induction false} InsertedLength(x: int, sorted: seq<int>)
    ensures |InsertInt(x, sorted)| == |sorted| + 1
  {
    if sorted != [] && x > sorted[0] {
      InsertedLength(x, sorted[1..]);
    }
  }

  function Recent(samples: seq<int>, slack: int): seq<int> {
    (if |samples| == 32 then samples[1..] else samples) + [slack]
  }

  /** The lower quartile of enough recent slacks exceeds two ticks. */
  predicate Overbuffered(samples: seq<int>) {
    |samples| >= 8 && SortInts(samples)[|samples| / 4] > 2
  }

  function ObserveSlack(c: Lead, slack: int): (Lead, Result<nat, SyncError>) {
    if c.resync.Some? then (c, Err(ResyncRequired(c.resync.value)))
    else if !(-12 <= slack <= 12) then (c, Err(InvalidSample))
    else if slack <= 0 then
      if c.lead == 12 then (c.(resync := Some(LeadExceeded)), Err(ResyncRequired(LeadExceeded)))
      else (c.(lead := c.lead + 1, samples := []), Ok(c.lead + 1))
    else
      var samples := Recent(c.samples, slack);
      if Overbuffered(samples) && c.lead > 1 then (c.(lead := c.lead - 1, samples := []), Ok(c.lead - 1))
      else (c.(samples := samples), Ok(c.lead))
  }

  function AssignTarget(c: Lead, serverTick: nat): (Lead, Result<Option<nat>, SyncError>) {
    if c.resync.Some? then (c, Err(ResyncRequired(c.resync.value)))
    else if serverTick + c.lead > U64_MAX then (c, Err(TimeRange))
    else
      var target := serverTick + c.lead;
      if c.lastTarget.Some? && target <= c.lastTarget.value then (c, Ok(None))
      else if c.lastTarget.Some? && target - c.lastTarget.value > 12 then
        (c.(resync := Some(TargetDiscontinuity)), Err(ResyncRequired(TargetDiscontinuity)))
      else (c.(lastTarget := Some(target)), Ok(Some(target)))
  }
}
