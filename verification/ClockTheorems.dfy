/** Error, slew and monotonicity bounds of the clock estimate, and the targets assigned with it. */
module ClockTheorems {
  import opened NetTypes
  import opened TickRates
  import opened ClockModel

  // ---- one exchange ------------------------------------------------------------------------

  /** The server clock is ahead by `offset`; requests take `up` and replies `down`. */
  predicate TrueExchange(x: Exchange, offset: int, up: nat, down: nat) {
    && x.serverReceive as int == x.clientSend + offset + up
    && x.clientReceive as int == x.serverSend - offset + down
    && x.serverReceive <= x.serverSend
  }

  lemma TruncatedHalf(a: int)
    ensures Abs(2 * Truncate(a, 2) - a) <= 1
  {
  }

  /** Processing is removed exactly, and the offset is off by at most half the round trip, plus rounding. */
  lemma OffsetErrorBound(x: Exchange, offset: int, up: nat, down: nat)
    requires TrueExchange(x, offset, up, down)
    ensures FromExchange(x).Ok?
    ensures var sample := FromExchange(x).value;
      && sample.roundTrip == up + down
      && sample.processing == x.serverSend - x.serverReceive
      && 2 * Abs(sample.offset - offset) <= Abs(up - down) + 1
      && 2 * Abs(sample.offset - offset) <= sample.roundTrip + 1
  {
    TruncatedHalf((x.serverReceive - x.clientSend) + (x.serverSend - x.clientReceive));
  }

  // ---- the window of samples --------------------------------------------------------------------

  lemma {:induction false} BestIsBest(samples: seq<Sample>)
    requires samples != []
    ensures Best(samples) in samples
    ensures forall i :: 0 <= i < |samples| ==> !Better(samples[i], Best(samples))
  {
    if |samples| > 1 {
      var most := samples[..|samples| - 1];
      BestIsBest(most);
      assert samples == most + [samples[|samples| - 1]];
      forall i | 0 <= i < |samples| ensures !Better(samples[i], Best(samples)) {
        assert i < |most| ==> !Better(most[i], Best(most));
      }
    }
  }

  /** The bound on a sample's offset when the true offset is fixed. */
  predicate Truthful(sample: Sample, offset: int) {
    2 * Abs(sample.offset - offset) <= sample.roundTrip + 1
  }

  ghost predicate AllTruthful(samples: seq<Sample>, offset: int) {
    forall i :: 0 <= i < |samples| ==> Truthful(samples[i], offset)
  }

  /** The target offset is that of the best sample in the window. */
  ghost predicate OffsetOk(e: Estimator) {
    && |e.samples| <= e.config.window
    && (e.samples == [] <==> e.offset.None?)
    && (e.samples != [] ==> e.offset == Some(Best(e.samples).offset))
  }

  /** With true exchanges the target offset is off by at most half the smallest round trip in the window. */
  lemma TargetOffsetBound(e: Estimator, offset: int, i: nat)
    requires OffsetOk(e) && AllTruthful(e.samples, offset) && i < |e.samples|
    ensures 2 * Abs(e.offset.value - offset) <= e.samples[i].roundTrip + 1
  {
    BestIsBest(e.samples);
    var k :| 0 <= k < |e.samples| && e.samples[k] == Best(e.samples);
    assert Truthful(e.samples[k], offset);
    assert !Better(e.samples[i], Best(e.samples));
  }

  // ---- one estimate --------------------------------------------------------------------------------

  lemma AllowanceBound(config: Config, elapsed: nat)
    requires ValidConfig(config)
    ensures Allowance(config, elapsed) * MILLION <= elapsed * config.slew
    ensures Allowance(config, elapsed) <= elapsed
  {
    FloorAtLeast(elapsed * config.slew, MILLION, Allowance(config, elapsed));
    assert elapsed * config.slew <= elapsed * MILLION;
    FloorAtLeast(elapsed * config.slew, MILLION, elapsed + 1);
    assert (elapsed + 1) * MILLION == elapsed * MILLION + MILLION;
  }

  /** How far an estimate is from where the target offset would put it. */
  function Misfit(offset: int, local: nat, server: int): int {
    server - (local + offset)
  }

  /** The estimate moves with local time, adjusted by at most the allowance toward the target. */
  lemma SlewedStep(config: Config, offset: int, lastLocal: nat, lastServer: nat, now: nat)
    requires ValidConfig(config) && lastLocal <= now
    ensures var next := Slewed(config, offset, lastLocal, lastServer, now);
      var elapsed := now - lastLocal;
      && lastServer <= next
      && Abs(next - lastServer - elapsed) * MILLION <= elapsed * config.slew
      && Abs(Misfit(offset, now, next))
        == Max(0, Abs(Misfit(offset, lastLocal, lastServer)) - Allowance(config, elapsed))
  {
    var elapsed := now - lastLocal;
    AllowanceBound(config, elapsed);
    var step := Abs(Slewed(config, offset, lastLocal, lastServer, now) - lastServer - elapsed);
    assert step <= Allowance(config, elapsed);
    assert step * MILLION <= Allowance(config, elapsed) * MILLION;
  }

  // ---- runs of the estimator ------------------------------------------------------------------------

  datatype Event = Observing(exchange: Exchange) | Estimating(now: nat)

  function Next(e: Estimator, event: Event): Estimator {
    match event
    case Observing(x) => Observe(e, x).0
    case Estimating(now) => Estimate(e, now).0
  }

  function Run(e: Estimator, events: seq<Event>): Estimator {
    if events == [] then e else Next(Run(e, events[..|events| - 1]), events[|events| - 1])
  }

  /** Two estimates of one run: later, never backward, and within the slew of local time. */
  predicate Tracks(a: Estimator, b: Estimator) {
    && b.config == a.config
    && (a.last.Some? ==>
          && b.last.Some?
          && a.last.value.0 <= b.last.value.0
          && a.last.value.1 <= b.last.value.1
          && Abs((b.last.value.1 - a.last.value.1) - (b.last.value.0 - a.last.value.0)) * MILLION
               <= (b.last.value.0 - a.last.value.0) * a.config.slew)
  }

  lemma NextTracks(e: Estimator, event: Event)
    requires ValidConfig(e.config)
    ensures Tracks(e, Next(e, event))
  {
    if event.Estimating? && e.offset.Some? && e.last.Some? && e.last.value.0 <= event.now {
      SlewedStep(e.config, e.offset.value, e.last.value.0, e.last.value.1, event.now);
    }
  }

  lemma TracksTrans(a: Estimator, b: Estimator, c: Estimator)
    requires Tracks(a, b) && Tracks(b, c)
    ensures Tracks(a, c)
  {
    if a.last.Some? {
      var u, v, w := b.last.value.0 - a.last.value.0, c.last.value.0 - b.last.value.0, c.last.value.0 - a.last.value.0;
      var p := (b.last.value.1 - a.last.value.1) - u;
      var q := (c.last.value.1 - b.last.value.1) - v;
      assert Abs(p + q) <= Abs(p) + Abs(q);
      assert Abs(p + q) * MILLION <= Abs(p) * MILLION + Abs(q) * MILLION;
      Distribute(u, v, a.config.slew);
    }
  }

  lemma Distribute(u: int, v: int, k: int)
    ensures (u + v) * k == u * k + v * k
  {
  }

  /** Over any run the estimate never goes backward and stays within the slew of local time. */
  lemma {:induction false} EstimatesTrackLocalTime(e: Estimator, events: seq<Event>)
    requires ValidConfig(e.config)
    ensures Tracks(e, Run(e, events))
  {
    if events != [] {
      var before := Run(e, events[..|events| - 1]);
      EstimatesTrackLocalTime(e, events[..|events| - 1]);
      NextTracks(before, events[|events| - 1]);
      TracksTrans(e, before, Run(e, events));
    }
  }

  predicate OnlyEstimates(events: seq<Event>) {
    forall i :: 0 <= i < |events| ==> events[i].Estimating?
  }

  /** While the target offset stays, the distance of the estimate from the target never grows. */
  lemma {:induction false} ErrorNeverGrows(e: Estimator, events: seq<Event>)
    requires ValidConfig(e.config) && OnlyEstimates(events) && e.offset.Some? && e.last.Some?
    ensures var later := Run(e, events);
      && later.config == e.config && later.offset == e.offset && later.last.Some?
      && Abs(Misfit(e.offset.value, later.last.value.0, later.last.value.1))
           <= Abs(Misfit(e.offset.value, e.last.value.0, e.last.value.1))
  {
    if events != [] {
      var before := Run(e, events[..|events| - 1]);
      ErrorNeverGrows(e, events[..|events| - 1]);
      var event := events[|events| - 1];
      if before.last.value.0 <= event.now {
        SlewedStep(before.config, e.offset.value, before.last.value.0, before.last.value.1, event.now);
      }
    }
  }

  lemma ObserveKeepsOffset(e: Estimator, x: Exchange)
    requires ValidConfig(e.config) && OffsetOk(e)
    ensures OffsetOk(Observe(e, x).0)
  {
  }

  /** An exchange that happened over nonnegative path delays under the fixed true offset. */
  ghost predicate Real(x: Exchange, offset: int) {
    exists up: nat, down: nat :: TrueExchange(x, offset, up, down)
  }

  ghost predicate AllReal(events: seq<Event>, offset: int) {
    forall i :: 0 <= i < |events| && events[i].Observing? ==> Real(events[i].exchange, offset)
  }

  lemma ObserveKeepsTruth(e: Estimator, x: Exchange, offset: int)
    requires AllTruthful(e.samples, offset) && Real(x, offset)
    ensures AllTruthful(Observe(e, x).0.samples, offset)
  {
    var up: nat, down: nat :| TrueExchange(x, offset, up, down);
    OffsetErrorBound(x, offset, up, down);
    var after := Observe(e, x).0.samples;
    forall i | 0 <= i < |after| ensures Truthful(after[i], offset) {
      assert after == e.samples || after == Window(e, FromExchange(x).value);
      assert forall k :: 0 <= k < |e.samples| ==> Truthful(e.samples[k], offset);
    }
  }

  lemma {:induction false} RunIsTruthful(hz: nat, epoch: nat, config: Config, events: seq<Event>, offset: int)
    requires ValidConfig(config) && AllReal(events, offset)
    ensures var e := Run(NewEstimator(hz, epoch, config).value, events);
      e.config == config && OffsetOk(e) && AllTruthful(e.samples, offset)
  {
    if events != [] {
      RunIsTruthful(hz, epoch, config, events[..|events| - 1], offset);
      var before := Run(NewEstimator(hz, epoch, config).value, events[..|events| - 1]);
      var event := events[|events| - 1];
      if event.Observing? {
        ObserveKeepsOffset(before, event.exchange);
        ObserveKeepsTruth(before, event.exchange, offset);
      }
    }
  }

  /** Over any run of real exchanges the target offset is within half the smallest windowed round trip of the truth. */
  lemma RunOffsetBound(hz: nat, epoch: nat, config: Config, events: seq<Event>, offset: int, i: nat)
    requires ValidConfig(config) && AllReal(events, offset)
    requires i < |Run(NewEstimator(hz, epoch, config).value, events).samples|
    ensures var e := Run(NewEstimator(hz, epoch, config).value, events);
      e.offset.Some? && 2 * Abs(e.offset.value - offset) <= e.samples[i].roundTrip + 1
  {
    RunIsTruthful(hz, epoch, config, events, offset);
    TargetOffsetBound(Run(NewEstimator(hz, epoch, config).value, events), offset, i);
  }
}
