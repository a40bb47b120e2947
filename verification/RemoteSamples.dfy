/** One entity's history: ordered, deduplicated and trimmed to the newest samples in the span. */
module RemoteSamples {
  import opened TickRates
  import opened RemoteModel

  predicate Ascending(samples: seq<Sample>) {
    forall i, j :: 0 <= i < j < |samples| ==> samples[i].tick < samples[j].tick
  }

  predicate LacksTick(samples: seq<Sample>, tick: nat) {
    forall i :: 0 <= i < |samples| ==> samples[i].tick != tick
  }

  lemma {:induction false} FindTickSpec(samples: seq<Sample>, tick: nat)
    ensures FindTick(samples, tick).None? <==> LacksTick(samples, tick)
    ensures FindTick(samples, tick).Some? ==>
      FindTick(samples, tick).value in samples && FindTick(samples, tick).value.tick == tick
  {
    if samples != [] {
      FindTickSpec(samples[1..], tick);
      assert samples == [samples[0]] + samples[1..];
    }
  }

  lemma {:induction false} FromSpec(samples: seq<Sample>, floor: nat)
    requires Ascending(samples)
    ensures Ascending(From(samples, floor))
    ensures forall x :: x in From(samples, floor) <==> x in samples && x.tick >= floor
    ensures |From(samples, floor)| <= |samples|
    ensures |From(samples, floor)| == |samples| ==> From(samples, floor) == samples
  {
    if samples != [] {
      var head, tail := samples[0], samples[1..];
      assert samples == [head] + tail;
      FromSpec(tail, floor);
      var rest := From(tail, floor);
      forall j | 0 <= j < |rest| ensures head.tick < rest[j].tick {
        assert rest[j] in tail;
      }
    }
  }

  lemma {:induction false} InsertSpec(samples: seq<Sample>, sample: Sample)
    requires Ascending(samples) && LacksTick(samples, sample.tick)
    ensures Ascending(InsertByTick(samples, sample))
    ensures forall x :: x in InsertByTick(samples, sample) <==> x == sample || x in samples
    ensures |InsertByTick(samples, sample)| == |samples| + 1
  {
    if samples != [] {
      var head, tail := samples[0], samples[1..];
      assert samples == [head] + tail;
      if head.tick < sample.tick {
        InsertSpec(tail, sample);
        var rest := InsertByTick(tail, sample);
        forall j | 0 <= j < |rest| ensures head.tick < rest[j].tick {
          assert rest[j] in rest;
        }
      }
    }
  }

  lemma FirstIsLeast(samples: seq<Sample>, x: Sample)
    requires Ascending(samples) && x in samples
    ensures samples[0].tick <= x.tick <= samples[|samples| - 1].tick
  {
  }

  /** What a merge keeps: the new sample and those of the old history within the span. */
  predicate Kept(prior: seq<Sample>, sample: Sample, limits: Limits, x: Sample) {
    x == sample || (x in prior && x.tick >= FloorOf(prior, sample.tick, limits))
  }

  lemma MergedUntrimmed(prior: seq<Sample>, sample: Sample, limits: Limits)
    requires Ascending(prior) && LacksTick(prior, sample.tick)
    ensures var all := InsertByTick(From(prior, FloorOf(prior, sample.tick, limits)), sample);
      && Ascending(all) && |all| <= |prior| + 1
      && (|all| == |prior| + 1 ==> From(prior, FloorOf(prior, sample.tick, limits)) == prior)
      && (forall x :: x in all <==> Kept(prior, sample, limits, x))
  {
    var floor := FloorOf(prior, sample.tick, limits);
    FromSpec(prior, floor);
    var kept := From(prior, floor);
    forall i | 0 <= i < |kept| ensures kept[i].tick != sample.tick {
      assert kept[i] in prior;
    }
    InsertSpec(kept, sample);
  }

  /** The merged history is ordered, holds the new sample, and is the newest part of what is kept. */
  lemma MergedSpec(prior: seq<Sample>, sample: Sample, limits: Limits)
    requires Ascending(prior) && LacksTick(prior, sample.tick) && |prior| <= limits.samplesPerEntity
    requires limits.samplesPerEntity >= 2 && !IsTooOld(prior, sample.tick, limits)
    ensures var merged := Merged(prior, sample, limits);
      && Ascending(merged) && 0 < |merged| <= limits.samplesPerEntity && sample in merged
      && (forall x :: x in merged ==> Kept(prior, sample, limits, x))
      && (forall x :: Kept(prior, sample, limits, x) && x !in merged ==>
            |merged| == limits.samplesPerEntity && x.tick < merged[0].tick)
  {
    var all := InsertByTick(From(prior, FloorOf(prior, sample.tick, limits)), sample);
    MergedUntrimmed(prior, sample, limits);
    if |all| > limits.samplesPerEntity {
      assert prior[0] in prior;
      assert all == InsertByTick(prior, sample);
      assert all[0] == prior[0];
      var merged := all[1..];
      assert all == [all[0]] + merged;
      forall x | Kept(prior, sample, limits, x) && x !in merged ensures x.tick < merged[0].tick {
        assert x in all && x == all[0];
      }
    }
  }

  lemma MergedSpan(prior: seq<Sample>, sample: Sample, limits: Limits, x: Sample)
    requires Ascending(prior) && !IsTooOld(prior, sample.tick, limits) && Kept(prior, sample, limits, x)
    ensures FloorOf(prior, sample.tick, limits) <= x.tick <= Newest(prior, sample.tick)
  {
    if x in prior {
      FirstIsLeast(prior, x);
    }
  }

  /** A history the buffer may hold: one identity, ordered, bounded in count, span and size. */
  ghost predicate SamplesOk(samples: seq<Sample>, identity: RemoteIdentity, config: Config) {
    && samples != []
    && Ascending(samples)
    && |samples| <= config.limits.samplesPerEntity
    && samples[|samples| - 1].tick - samples[0].tick <= config.limits.historyTicks
    && (forall i :: 0 <= i < |samples| ==> SampleOk(samples[i], identity, config))
  }

  predicate SampleOk(sample: Sample, identity: RemoteIdentity, config: Config) {
    && sample.identity == identity
    && ValidRate(config.hz) && Deadline(config.hz, sample.tick).Some?
    && sample.value.bytes <= config.limits.sampleHeapBytes
  }

  lemma MergedSamplesOk(prior: seq<Sample>, sample: Sample, config: Config, x: Sample)
    requires forall i :: 0 <= i < |prior| ==> SampleOk(prior[i], sample.identity, config)
    requires SampleOk(sample, sample.identity, config) && Kept(prior, sample, config.limits, x)
    ensures SampleOk(x, sample.identity, config)
  {
  }

  lemma MergedOk(prior: seq<Sample>, sample: Sample, config: Config)
    requires prior == [] || SamplesOk(prior, sample.identity, config)
    requires LacksTick(prior, sample.tick) && config.limits.samplesPerEntity >= 2
    requires !IsTooOld(prior, sample.tick, config.limits) && SampleOk(sample, sample.identity, config)
    ensures SamplesOk(Merged(prior, sample, config.limits), sample.identity, config)
  {
    var merged := Merged(prior, sample, config.limits);
    MergedSpec(prior, sample, config.limits);
    forall i | 0 <= i < |merged|
      ensures SampleOk(merged[i], sample.identity, config)
      ensures FloorOf(prior, sample.tick, config.limits) <= merged[i].tick <= Newest(prior, sample.tick)
    {
      assert merged[i] in merged;
      MergedSamplesOk(prior, sample, config, merged[i]);
      MergedSpan(prior, sample, config.limits, merged[i]);
    }
  }
}
