/** The transmission loop for any plan: what it leaves behind, and exactly when it breaks. */
module SchedulerDelivery {
  import opened NetTypes
  import opened SchedulerModel

  /** The credit covers every accepted unit, and each of them has a history. */
  predicate Covered(tokens: nat, history: map<UnitId, History>, requests: seq<Request>, send: nat -> bool) {
    && AcceptedBytes(requests, send) * NANO <= tokens
    && forall i :: 0 <= i < |requests| && send(i) ==> requests[i].id in history
  }

  /** What a loop that did not break has done. */
  predicate Settled(
    p: Progress, tokens: nat, history: map<UnitId, History>, requests: seq<Request>, send: nat -> bool, tick: nat)
    requires Covered(tokens, history, requests, send)
  {
    var units := CountAccepted(|requests|, send);
    && p.tokens == tokens - AcceptedBytes(requests, send) * NANO
    && p.history == Stamped(history, requests, send, tick)
    && p.sent == Sent(units, AcceptedBytes(requests, send), |requests| - units)
  }

  lemma CoveredPrefix(tokens: nat, history: map<UnitId, History>, requests: seq<Request>, send: nat -> bool)
    requires requests != [] && Covered(tokens, history, requests, send)
    ensures Covered(tokens, history, requests[..|requests| - 1], send)
  {
    var most := requests[..|requests| - 1];
    assert forall i :: 0 <= i < |most| ==> most[i] == requests[i];
  }

  lemma CoveredOneMore(tokens: nat, history: map<UnitId, History>, requests: seq<Request>, send: nat -> bool)
    requires requests != [] && Covered(tokens, history, requests[..|requests| - 1], send)
    requires send(|requests| - 1) ==>
      AcceptedBytes(requests, send) * NANO <= tokens && requests[|requests| - 1].id in history
    ensures Covered(tokens, history, requests, send)
  {
    var most := requests[..|requests| - 1];
    forall i | 0 <= i < |requests| && send(i) ensures requests[i].id in history {
      assert i < |most| ==> most[i] == requests[i];
    }
  }

  /** The loop runs through exactly when the accepted units are covered, and then charges and stamps just those. */
  lemma {:induction false} BreaksUnlessCovered(
    tokens: nat, history: map<UnitId, History>, requests: seq<Request>, send: nat -> bool, tick: nat)
    ensures var p := SendEach(tokens, history, requests, send, tick);
      && (p.fault.None? <==> Covered(tokens, history, requests, send))
      && (p.fault.None? ==> Settled(p, tokens, history, requests, send, tick))
  {
    if requests != [] {
      var most := requests[..|requests| - 1];
      BreaksUnlessCovered(tokens, history, most, send, tick);
      var p := SendEach(tokens, history, requests, send, tick);
      if p.fault.None? {
        CoveredOneMore(tokens, history, requests, send);
      } else if Covered(tokens, history, requests, send) {
        CoveredPrefix(tokens, history, requests, send);
      }
    }
  }

  /** A broken loop names its first offending unit: too little credit for it, or no history. */
  lemma {:induction false} FirstFault(
    tokens: nat, history: map<UnitId, History>, requests: seq<Request>, send: nat -> bool, tick: nat) returns (n: nat)
    requires SendEach(tokens, history, requests, send, tick).fault.Some?
    ensures n < |requests| && send(n) && Covered(tokens, history, requests[..n], send)
    ensures SendEach(tokens, history, requests, send, tick).fault ==
      if AcceptedBytes(requests[..n + 1], send) * NANO > tokens then Some(CreditUnderflow) else Some(UnknownUnit)
    ensures AcceptedBytes(requests[..n + 1], send) * NANO > tokens || requests[n].id !in history
  {
    var last := |requests| - 1;
    var most := requests[..last];
    BreaksUnlessCovered(tokens, history, most, send, tick);
    if SendEach(tokens, history, most, send, tick).fault.Some? {
      n := FirstFault(tokens, history, most, send, tick);
      assert most[..n] == requests[..n] && most[..n + 1] == requests[..n + 1];
    } else {
      n := last;
      assert requests[..n + 1] == requests && requests[..n + 1][..n] == most;
    }
  }

  /** Credit is only ever taken. */
  lemma {:induction false} CreditFalls(
    tokens: nat, history: map<UnitId, History>, requests: seq<Request>, send: nat -> bool, tick: nat)
    ensures SendEach(tokens, history, requests, send, tick).tokens <= tokens
  {
    if requests != [] {
      CreditFalls(tokens, history, requests[..|requests| - 1], send, tick);
    }
  }

  // ---- whatever the transport answers ------------------------------------------------------------

  lemma {:induction false} AcceptingAll(requests: seq<Request>, send: nat -> bool)
    requires forall i :: 0 <= i < |requests| ==> send(i)
    ensures AcceptedBytes(requests, send) == TotalBytes(requests) && CountAccepted(|requests|, send) == |requests|
  {
    if requests != [] {
      AcceptingAll(requests[..|requests| - 1], send);
    }
  }

  /** The scheduler will try to send the plan. */
  predicate Tried(s: Scheduler, plan: Plan, world: nat, policy: nat) {
    plan.serial == s.serial && IsCurrent(plan, world, policy) && s.serial < U64_MAX
  }

  /** No answer of the transport breaks the call exactly when the plan is refused or paid for. */
  lemma NeverBreaksExactly(s: Scheduler, plan: Plan, world: nat, policy: nat)
    ensures (forall send: nat -> bool :: !Transmit(s, plan, world, policy, send).1.Broken?)
      <==> (Tried(s, plan, world, policy) ==> Payable(s, plan))
  {
    if Tried(s, plan, world, policy) {
      if Payable(s, plan) {
        forall send: nat -> bool ensures !Transmit(s, plan, world, policy, send).1.Broken? {
          BreaksUnlessCovered(s.tokens, s.history, plan.selected, send, plan.barrier.tick);
        }
      } else {
        var all := (i: nat) => true;
        AcceptingAll(plan.selected, all);
        BreaksUnlessCovered(s.tokens, s.history, plan.selected, all, plan.barrier.tick);
        assert Transmit(s, plan, world, policy, all).1.Broken?;
      }
    }
  }

  // ---- whether ages stay behind the clock ----------------------------------------------------------

  predicate AnyAccepted(requests: seq<Request>, send: nat -> bool) {
    exists i :: 0 <= i < |requests| && send(i)
  }

  /** Each history is the old one or bears the stamp, and every accepted unit bears it. */
  lemma {:induction false} StampedAt(
    history: map<UnitId, History>, requests: seq<Request>, send: nat -> bool, tick: nat, id: UnitId)
    requires forall i :: 0 <= i < |requests| && send(i) ==> requests[i].id in history
    requires id in history
    ensures Stamped(history, requests, send, tick)[id] ==
      if exists i :: 0 <= i < |requests| && send(i) && requests[i].id == id
      then history[id].(lastTransmitted := Some(tick)) else history[id]
  {
    if requests != [] {
      var last := |requests| - 1;
      var most := requests[..last];
      assert forall i :: 0 <= i < |most| ==> most[i] == requests[i];
      StampedAt(history, most, send, tick, id);
    }
  }

  /**
   After a completed call no history lies ahead of the clock exactly when nothing was accepted or the plan does
   not.
   */
  lemma StampedPastExactly(
    history: map<UnitId, History>, requests: seq<Request>, send: nat -> bool, tick: nat, now: nat)
    requires forall i :: 0 <= i < |requests| && send(i) ==> requests[i].id in history
    requires Past(history, now)
    ensures Past(Stamped(history, requests, send, tick), now) <==> (AnyAccepted(requests, send) ==> tick <= now)
  {
    var after := Stamped(history, requests, send, tick);
    if AnyAccepted(requests, send) {
      var i :| 0 <= i < |requests| && send(i);
      StampedAt(history, requests, send, tick, requests[i].id);
      assert Reference(after[requests[i].id]) == tick;
    }
    if AnyAccepted(requests, send) ==> tick <= now {
      forall id | id in after ensures Reference(after[id]) <= now {
        StampedAt(history, requests, send, tick, id);
      }
    }
  }

  /**
   Whatever the transport answers, a paid plan leaves the histories behind the clock exactly when it is empty or
   not ahead.
   */
  lemma StaysPastExactly(s: Scheduler, plan: Plan, world: nat, policy: nat)
    requires Past(s.history, s.tick) && Tried(s, plan, world, policy) && Payable(s, plan)
    ensures (forall send: nat -> bool :: Past(Transmit(s, plan, world, policy, send).0.history, s.tick))
      <==> (plan.selected == [] || plan.barrier.tick <= s.tick)
  {
    if plan.selected == [] || plan.barrier.tick <= s.tick {
      forall send: nat -> bool ensures Past(Transmit(s, plan, world, policy, send).0.history, s.tick) {
        BreaksUnlessCovered(s.tokens, s.history, plan.selected, send, plan.barrier.tick);
        StampedPastExactly(s.history, plan.selected, send, plan.barrier.tick, s.tick);
      }
    } else {
      var all := (i: nat) => true;
      BreaksUnlessCovered(s.tokens, s.history, plan.selected, all, plan.barrier.tick);
      StampedPastExactly(s.history, plan.selected, all, plan.barrier.tick, s.tick);
      assert all(0);
      assert !Past(Transmit(s, plan, world, policy, all).0.history, s.tick);
    }
  }

  // ---- ages in a scheduling round --------------------------------------------------------------------

  /** The unit has a history, and it lies ahead of the tick. */
  predicate Ahead(history: map<UnitId, History>, id: UnitId, tick: nat) {
    id in history && Reference(history[id]) > tick
  }

  /**
   A scheduling call breaks exactly when it gets past its checks and some requested unit has a history ahead of the
   barrier.
   */
  lemma ScheduleBreaksExactly(s: Scheduler, barrier: Barrier, requests: seq<Request>, now: nat, transport: Transport)
    ensures Schedule(s, barrier, requests, now, transport).1.Broken? <==>
      && Admissible(s, barrier, requests, now).Done?
      && exists i :: 0 <= i < |requests| && Ahead(s.history, requests[i].id, barrier.tick)
  {
    var after := AtBarrier(s, barrier, requests, now);
    var round := RoundOf(after, transport);
    forall i | 0 <= i < |requests|
      ensures Known(round, requests[i]) <==> !Ahead(s.history, requests[i].id, barrier.tick)
    {
      assert requests[i].id in IdsOf(requests);
    }
  }
}
