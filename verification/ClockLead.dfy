/** The prediction lead and the targets assigned with it. */
module ClockLead {
  import opened NetTypes
  import opened ClockModel

  // ---- the quartile -----------------------------------------------------------------------

  predicate Ascending(s: seq<int>) {
    forall i, j :: 0 <= i <= j < |s| ==> s[i] <= s[j]
  }

  function CountAtMost(s: seq<int>, bound: int): (n: nat)
    ensures n <= |s|
  {
    if s == [] then 0 else (if s[0] <= bound then 1 else 0) + CountAtMost(s[1..], bound)
  }

  lemma {:induction false} InsertSpec(x: int, sorted: seq<int>, bound: int)
    requires Ascending(sorted)
    ensures Ascending(InsertInt(x, sorted))
    ensures forall y :: y in InsertInt(x, sorted) <==> y == x || y in sorted
    ensures CountAtMost(InsertInt(x, sorted), bound) == CountAtMost(sorted, bound) + if x <= bound then 1 else 0
  {
    if sorted == [] || x <= sorted[0] {
      assert ([x] + sorted)[1..] == sorted;
    } else {
      var head, tail := sorted[0], sorted[1..];
      assert sorted == [head] + tail;
      InsertSpec(x, tail, bound);
      var rest := InsertInt(x, tail);
      assert ([head] + rest)[1..] == rest;
      forall j | 0 <= j < |rest| ensures head <= rest[j] {
        assert rest[j] in rest;
      }
    }
  }

  lemma {:induction false} SortSpec(s: seq<int>, bound: int)
    ensures Ascending(SortInts(s)) && CountAtMost(SortInts(s), bound) == CountAtMost(s, bound)
  {
    if s != [] {
      SortSpec(s[1..], bound);
      InsertSpec(s[0], SortInts(s[1..]), bound);
    }
  }

  /** In an ascending list the element at `k` exceeds a bound exactly when at most `k` elements do not. */
  lemma {:induction false} ExceedsIff(sorted: seq<int>, k: nat, bound: int)
    requires Ascending(sorted) && k < |sorted|
    ensures sorted[k] > bound <==> CountAtMost(sorted, bound) <= k
  {
    var tail := sorted[1..];
    if sorted[0] > bound {
      NoneAtMost(sorted, bound);
    } else if k == 0 {
      assert CountAtMost(sorted, bound) >= 1;
    } else {
      ExceedsIff(tail, k - 1, bound);
    }
  }

  lemma {:induction false} NoneAtMost(s: seq<int>, bound: int)
    requires forall i :: 0 <= i < |s| ==> s[i] > bound
    ensures CountAtMost(s, bound) == 0
  {
    if s != [] {
      NoneAtMost(s[1..], bound);
    }
  }

  /** The lead is lowered exactly when at most a quarter of at least eight slacks are two ticks or less. */
  lemma OverbufferedExactly(samples: seq<int>)
    ensures Overbuffered(samples) <==> |samples| >= 8 && CountAtMost(samples, 2) <= |samples| / 4
  {
    if |samples| >= 8 {
      SortSpec(samples, 2);
      ExceedsIff(SortInts(samples), |samples| / 4, 2);
    }
  }

  // ---- runs ----------------------------------------------------------------------------------

  datatype Event = Slack(slack: int) | Assigning(serverTick: nat)

  /** The controller and every target it has assigned. */
  datatype State = State(lead: Lead, targets: seq<nat>)

  function Next(st: State, event: Event): State {
    match event
    case Slack(slack) => st.(lead := ObserveSlack(st.lead, slack).0)
    case Assigning(tick) =>
      var (after, answer) := AssignTarget(st.lead, tick);
      State(after, if answer.Ok? && answer.value.Some? then st.targets + [answer.value.value] else st.targets)
  }

  /** Targets strictly increase, by at most twelve at a time; the lead stays between one and twelve. */
  ghost predicate Inv(st: State) {
    && 1 <= st.lead.lead <= 12
    && |st.lead.samples| <= 32
    && (forall i :: 0 <= i < |st.lead.samples| ==> 0 < st.lead.samples[i] <= 12)
    && (forall i :: 0 < i < |st.targets| ==> st.targets[i - 1] < st.targets[i] <= st.targets[i - 1] + 12)
    && (if st.targets == [] then st.lead.lastTarget.None? else st.lead.lastTarget == Some(st.targets[|st.targets| - 1]))
  }

  lemma SlackKeeps(st: State, slack: int)
    requires Inv(st)
    ensures Inv(Next(st, Slack(slack)))
  {
    var samples := Recent(st.lead.samples, slack);
    if 0 < slack <= 12 {
      forall i | 0 <= i < |samples| ensures 0 < samples[i] <= 12 {
        if i < |samples| - 1 {
          assert samples[i] == st.lead.samples[i + (|st.lead.samples| + 1 - |samples|)];
        }
      }
    }
  }

  lemma AssigningKeeps(st: State, serverTick: nat)
    requires Inv(st)
    ensures Inv(Next(st, Assigning(serverTick)))
  {
  }

  lemma NextKeeps(st: State, event: Event)
    requires Inv(st)
    ensures Inv(Next(st, event)) && st.targets <= Next(st, event).targets
  {
    match event
    case Slack(slack) => SlackKeeps(st, slack);
    case Assigning(serverTick) => AssigningKeeps(st, serverTick);
  }

  /** The controller after any sequence of calls. */
  ghost function Run(lead: nat, events: seq<Event>): (st: State)
    requires 1 <= lead <= 12
    ensures Inv(st)
  {
    if events == [] then State(NewLead(lead).value, [])
    else
      var before := Run(lead, events[..|events| - 1]);
      NextKeeps(before, events[|events| - 1]);
      Next(before, events[|events| - 1])
  }

  /** No target is ever assigned twice or out of order. */
  lemma {:induction false} TargetsStrictlyIncrease(lead: nat, events: seq<Event>, i: nat, j: nat)
    requires 1 <= lead <= 12 && i < j < |Run(lead, events).targets|
    ensures Run(lead, events).targets[i] < Run(lead, events).targets[j]
    decreases j
  {
    if i < j - 1 {
      TargetsStrictlyIncrease(lead, events, i, j - 1);
    }
  }

  /**
   A missed deadline raises the lead by one; only a clearly overbuffered window lowers it, by one; both start a new
   window.
   */
  lemma LeadMovesExactly(c: Lead, slack: int)
    requires 1 <= c.lead <= 12 && c.resync.None? && -12 <= slack <= 12 && !(slack <= 0 && c.lead == 12)
    ensures var (after, answer) := ObserveSlack(c, slack);
      var recent := Recent(c.samples, slack);
      var lowered := slack > 0 && c.lead > 1 && |recent| >= 8 && CountAtMost(recent, 2) <= |recent| / 4;
      && answer == Ok(after.lead) && after.lastTarget == c.lastTarget && after.resync.None?
      && after.lead == c.lead + (if slack <= 0 then 1 else if lowered then -1 else 0)
      && after.samples == if slack <= 0 || lowered then [] else recent
  {
    OverbufferedExactly(Recent(c.samples, slack));
  }
}
