/** Fixed-tick dispatch with bounded catch-up (engine/net/src/clock.rs). */
module TickClocks {
  import opened NetTypes
  import opened TickRates

  /** What a poll does, in order: executed ticks with the time they saw, then perhaps a flush. */
  datatype Entry = Ran(tick: nat, observed: nat) | Flush(snapshot: bool)

  datatype Health = Health(committed: nat, debt: nat, overloaded: bool)

  datatype Decision = Decision(sendDue: bool, snapshotDue: bool, executed: nat, health: Health)

  datatype Clock = Clock(
    hz: nat, interval: nat, committed: nat, lastObserved: nat, catchupLimit: nat, lastFlushTick: nat, pending: bool)

  predicate ValidClock(c: Clock) {
    ValidRate(c.hz) && c.interval > 0 && 1 <= c.catchupLimit <= 1024
  }

  function NewClock(hz: nat, interval: nat): Clock {
    Clock(hz, interval, 0, 0, 4, 0, false)
  }

  /** Ticks that have elapsed, or the largest tick when that is out of range. */
  function WallTick(hz: nat, now: nat): nat
    requires ValidRate(hz)
  {
    var elapsed := ElapsedTicks(hz, now);
    if elapsed.Some? then elapsed.value else U64_MAX
  }

  function HealthAt(c: Clock, now: nat): Health
    requires ValidRate(c.hz)
  {
    var debt := SaturatingSub(WallTick(c.hz, Max(now, c.lastObserved)), c.committed);
    Health(c.committed, debt, debt > c.catchupLimit)
  }

  /** A tick is due on the wall exactly when its deadline has passed. */
  lemma DueIffDeadlinePassed(hz: nat, tick: nat, now: nat)
    requires ValidRate(hz) && tick <= U64_MAX
    ensures tick <= WallTick(hz, now) <==> Instant(hz, tick) <= now
  {
    InstantAtMost(hz, tick, now);
    FloorAtLeast(now * hz, NANOS, tick);
  }

  /** `count` more ticks at the observed time. */
  function Ticks(c: Clock, count: nat, now: nat): Clock
    requires c.interval > 0
    ensures Ticks(c, count, now).committed == c.committed + count && Ticks(c, count, now).interval == c.interval
  {
    if count == 0 then c
    else
      var before := Ticks(c, count - 1, now);
      var tick := before.committed + 1;
      before.(committed := tick, pending := before.pending || tick % c.interval == 0)
  }

  function Entries(first: nat, count: nat, now: nat): seq<Entry> {
    if count == 0 then [] else Entries(first, count - 1, now) + [Ran(first + count, now)]
  }

  /** The clock once `now` has been observed. */
  function Observed(c: Clock, now: nat): Clock {
    c.(lastObserved := Max(now, c.lastObserved))
  }

  function Burst(c: Clock, now: nat): nat
    requires ValidClock(c)
  {
    Min(HealthAt(c, now).debt, c.catchupLimit)
  }

  /** After the burst, a flush when the wall has moved on. */
  function Flushed(c: Clock, now: nat): (Clock, seq<Entry>)
    requires ValidRate(c.hz)
  {
    if WallTick(c.hz, now) > c.lastFlushTick
    then (c.(lastFlushTick := WallTick(c.hz, now), pending := false), [Flush(c.pending)])
    else (c, [])
  }

  function Advance(c: Clock, now: nat): (Clock, Decision, seq<Entry>)
    requires ValidClock(c)
  {
    var observed := Observed(c, now);
    var at := observed.lastObserved;
    var burst := Burst(observed, at);
    TicksFrame(observed, burst, at);
    var ran := Ticks(observed, burst, at);
    var (after, flush) := Flushed(ran, at);
    (after, Decision(flush != [], flush == [Flush(true)], burst, HealthAt(after, at)),
     Entries(c.committed, burst, at) + flush)
  }

  lemma {:induction false} TicksFrame(c: Clock, count: nat, now: nat)
    requires c.interval > 0
    ensures Ticks(c, count, now) == c.(committed := c.committed + count, pending := Ticks(c, count, now).pending)
  {
    if count > 0 {
      TicksFrame(c, count - 1, now);
    }
  }

  // ---- the log of everything executed and published --------------------------------------------

  /** Ticks 1, 2, 3, ... up to `committed`, each once and in order. */
  predicate RanInOrder(log: seq<Entry>, committed: nat) {
    if log == [] then committed == 0
    else
      var most := log[..|log| - 1];
      match log[|log| - 1]
      case Ran(tick, _) => committed > 0 && tick == committed && RanInOrder(most, committed - 1)
      case Flush(_) => RanInOrder(most, committed)
  }

  /** A snapshot multiple has run since the last flush. */
  predicate SnapshotRan(log: seq<Entry>, interval: nat)
    requires interval > 0
  {
    log != [] &&
      match log[|log| - 1]
      case Ran(tick, _) => tick % interval == 0 || SnapshotRan(log[..|log| - 1], interval)
      case Flush(_) => false
  }

  /** Every flush published exactly when a snapshot multiple had run since the flush before it. */
  predicate FlushesExact(log: seq<Entry>, interval: nat)
    requires interval > 0
  {
    log == [] ||
      var most, last := log[..|log| - 1], log[|log| - 1];
      FlushesExact(most, interval) && (last.Flush? ==> last.snapshot == SnapshotRan(most, interval))
  }

  predicate NoneEarly(log: seq<Entry>, hz: nat)
    requires ValidRate(hz)
  {
    forall i :: 0 <= i < |log| && log[i].Ran? ==> Instant(hz, log[i].tick) <= log[i].observed
  }

  ghost predicate Inv(c: Clock, log: seq<Entry>) {
    && ValidClock(c)
    && c.committed <= WallTick(c.hz, c.lastObserved) <= U64_MAX
    && RanInOrder(log, c.committed)
    && NoneEarly(log, c.hz)
    && FlushesExact(log, c.interval)
    && c.pending == SnapshotRan(log, c.interval)
  }

  lemma WallTickMonotone(hz: nat, a: nat, b: nat)
    requires ValidRate(hz) && a <= b
    ensures WallTick(hz, a) <= WallTick(hz, b) <= U64_MAX
  {
    var tick := WallTick(hz, a);
    DueIffDeadlinePassed(hz, tick, a);
    DueIffDeadlinePassed(hz, tick, b);
  }

  lemma RanKeeps(c: Clock, log: seq<Entry>, now: nat)
    requires Inv(c, log) && now == c.lastObserved && c.committed < WallTick(c.hz, now)
    ensures Inv(Ticks(c, 1, now), log + [Ran(c.committed + 1, now)])
  {
    var longer := log + [Ran(c.committed + 1, now)];
    assert longer[..|longer| - 1] == log;
    assert Ticks(c, 0, now) == c;
    DueIffDeadlinePassed(c.hz, c.committed + 1, now);
  }

  lemma TicksOneMore(c: Clock, count: nat, now: nat)
    requires c.interval > 0
    ensures Ticks(Ticks(c, count, now), 1, now) == Ticks(c, count + 1, now)
  {
    var before := Ticks(c, count, now);
    assert Ticks(before, 0, now) == before;
  }

  lemma EntriesLast(first: nat, count: nat, now: nat)
    requires count > 0
    ensures Entries(first, count, now) == Entries(first, count - 1, now) + [Ran(first + count, now)]
  {
  }

  lemma {:induction false} BurstKeeps(c: Clock, log: seq<Entry>, count: nat, now: nat)
    requires Inv(c, log) && now == c.lastObserved && c.committed + count <= WallTick(c.hz, now)
    ensures Inv(Ticks(c, count, now), log + Entries(c.committed, count, now))
  {
    if count == 0 {
      assert log + [] == log;
    } else {
      BurstKeeps(c, log, count - 1, now);
      var before := Ticks(c, count - 1, now);
      var most := log + Entries(c.committed, count - 1, now);
      TicksFrame(c, count - 1, now);
      RanKeeps(before, most, now);
      TicksOneMore(c, count - 1, now);
      EntriesLast(c.committed, count, now);
      assert log + Entries(c.committed, count, now) == most + [Ran(before.committed + 1, now)];
    }
  }

  lemma FlushKeeps(c: Clock, log: seq<Entry>, now: nat)
    requires Inv(c, log)
    ensures Inv(Flushed(c, now).0, log + Flushed(c, now).1)
  {
    var (after, flush) := Flushed(c, now);
    if flush == [] {
      assert log + flush == log;
    } else {
      var longer := log + [Flush(c.pending)];
      assert longer[..|longer| - 1] == log;
    }
  }

  /** A poll at any time keeps the log exact: no tick skipped, repeated or early, no publication lost or invented. */
  lemma AdvanceKeeps(c: Clock, log: seq<Entry>, now: nat)
    requires Inv(c, log)
    ensures Inv(Advance(c, now).0, log + Advance(c, now).2)
  {
    var observed := Observed(c, now);
    var at := observed.lastObserved;
    WallTickMonotone(c.hz, c.lastObserved, at);
    var burst := Burst(observed, at);
    assert Inv(observed, log);
    BurstKeeps(observed, log, burst, at);
    var ran := Ticks(observed, burst, at);
    var most := log + Entries(c.committed, burst, at);
    TicksFrame(observed, burst, at);
    FlushKeeps(ran, most, at);
    assert most + Flushed(ran, at).1 == log + Advance(c, now).2;
  }

  /** Debt is never dropped: a poll commits all due ticks, or a full burst of them. */
  lemma AdvanceCatchesUp(c: Clock, now: nat)
    requires ValidClock(c) && c.committed <= WallTick(c.hz, c.lastObserved)
    ensures Advance(c, now).0.committed == Min(WallTick(c.hz, Max(now, c.lastObserved)), c.committed + c.catchupLimit)
  {
    var observed := Observed(c, now);
    var at := observed.lastObserved;
    WallTickMonotone(c.hz, c.lastObserved, at);
    TicksFrame(observed, Burst(observed, at), at);
  }

  lemma StartInv(hz: nat, interval: nat, catchupLimit: nat)
    requires ValidRate(hz) && interval > 0 && 1 <= catchupLimit <= 1024
    ensures Inv(NewClock(hz, interval).(catchupLimit := catchupLimit), [])
  {
    WallTickMonotone(hz, 0, 0);
  }

  /** The clock and its log after any sequence of polls, whatever its catch-up limit. */
  ghost function Run(hz: nat, interval: nat, catchupLimit: nat, polls: seq<nat>): (r: (Clock, seq<Entry>))
    requires ValidRate(hz) && interval > 0 && 1 <= catchupLimit <= 1024
    ensures Inv(r.0, r.1)
  {
    if polls == [] then
      StartInv(hz, interval, catchupLimit);
      (NewClock(hz, interval).(catchupLimit := catchupLimit), [])
    else
      var (c, log) := Run(hz, interval, catchupLimit, polls[..|polls| - 1]);
      AdvanceKeeps(c, log, polls[|polls| - 1]);
      (Advance(c, polls[|polls| - 1]).0, log + Advance(c, polls[|polls| - 1]).2)
  }

  // ---- the clock as the program runs it ------------------------------------------------------------

  class TickClock {
    const hz: nat
    const interval: nat
    const catchupLimit: nat
    var committed: nat
    var lastObserved: nat
    var lastFlushTick: nat
    var pending: bool

    /** Everything executed and published. */
    ghost var log: seq<Entry>

    function View(): Clock
      reads this
    {
      Clock(hz, interval, committed, lastObserved, catchupLimit, lastFlushTick, pending)
    }

    ghost predicate Valid()
      reads this
    {
      Inv(View(), log)
    }

    constructor (hz: nat, interval: nat, catchupLimit: nat)
      requires ValidRate(hz) && interval > 0 && 1 <= catchupLimit <= 1024
      ensures Valid() && log == [] && View() == NewClock(hz, interval).(catchupLimit := catchupLimit)
    {
      this.hz, this.interval, this.catchupLimit := hz, interval, catchupLimit;
      committed, lastObserved, lastFlushTick, pending, log := 0, 0, 0, false, [];
      new;
      WallTickMonotone(hz, 0, 0);
    }

    method AdvanceTicked(now: nat) returns (decision: Decision)
      requires Valid()
      modifies this`committed, this`lastObserved, this`lastFlushTick, this`pending, this`log
      ensures Valid()
      ensures (View(), decision) == (Advance(old(View()), now).0, Advance(old(View()), now).1)
      ensures log == old(log) + Advance(old(View()), now).2
    {
      AdvanceKeeps(View(), log, now);
      ghost var result := Advance(View(), now);
      if now > lastObserved {
        lastObserved := now;
      }
      var at := lastObserved;
      ghost var observed := View();
      var burst := Min(HealthAt(View(), at).debt, catchupLimit);
      WallTickMonotone(hz, 0, at);
      RunBurst(burst, at);
      TicksFrame(observed, burst, at);
      var wall := WallTick(hz, at);
      var sendDue, snapshotDue := false, false;
      if wall > lastFlushTick {
        lastFlushTick := wall;
        sendDue, snapshotDue := true, pending;
        pending := false;
      }
      decision := Decision(sendDue, snapshotDue, burst, HealthAt(View(), at));
      log := log + result.2;
    }

    /** Executes the burst tick by tick. */
    method RunBurst(count: nat, at: nat)
      requires interval > 0
      modifies this`committed, this`pending
      ensures View() == Ticks(old(View()), count, at)
    {
      for i := 0 to count
        invariant View() == Ticks(old(View()), i, at)
      {
        var tick := committed + 1;
        committed := tick;
        pending := pending || tick % interval == 0;
      }
    }
  }
}
