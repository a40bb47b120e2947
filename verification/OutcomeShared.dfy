/** Ledgers that share one counter never give two results the same number. */
module OutcomeShared {
  import opened OutcomeModel
  import opened OutcomeRuns

  /** Two ledgers on one counter. */
  datatype Pair = Pair(first: State, second: State)

  ghost predicate Joined(p: Pair, a: Limits, b: Limits) {
    && p.first.next == p.second.next
    && Inv(p.first, a) && Inv(p.second, b)
    && (forall x, y :: x in p.first.finished && y in p.second.finished ==> x.sequence != y.sequence)
  }

  /** A call on one ledger; the other sees only that numbers were taken. */
  ghost function NextPair(p: Pair, a: Limits, b: Limits, onFirst: bool, event: Event): Pair {
    if onFirst then
      var after := Next(p.first, a, event);
      Pair(after, p.second.(next := after.next))
    else
      var after := Next(p.second, b, event);
      Pair(p.first.(next := after.next), after)
  }

  lemma CounterRises(st: State, limits: Limits, event: Event)
    ensures st.next <= Next(st, limits, event).next
    ensures forall slot :: slot in Next(st, limits, event).finished ==>
      slot in st.finished || slot.sequence == st.next < Next(st, limits, event).next
  {
  }

  lemma NumbersTaken(st: State, limits: Limits, next: nat)
    requires Inv(st, limits) && st.next <= next
    ensures Inv(st.(next := next), limits)
  {
    NextKeeps(st, limits, Elsewhere(next - st.next));
  }

  lemma StepJoined(mine: State, other: State, a: Limits, b: Limits, event: Event)
    requires mine.next == other.next && Inv(mine, a) && Inv(other, b)
    requires forall x, y :: x in mine.finished && y in other.finished ==> x.sequence != y.sequence
    ensures var after := Next(mine, a, event);
      && Inv(after, a) && Inv(other.(next := after.next), b)
      && forall x, y :: x in after.finished && y in other.finished ==> x.sequence != y.sequence
  {
    NextKeeps(mine, a, event);
    CounterRises(mine, a, event);
    NumbersTaken(other, b, Next(mine, a, event).next);
    forall y | y in other.finished ensures y.sequence < other.next {
    }
  }

  /** A call on either ledger gives no number that the other has given. */
  lemma NextJoined(p: Pair, a: Limits, b: Limits, onFirst: bool, event: Event)
    requires Joined(p, a, b)
    ensures Joined(NextPair(p, a, b, onFirst, event), a, b)
  {
    if onFirst {
      StepJoined(p.first, p.second, a, b, event);
    } else {
      StepJoined(p.second, p.first, b, a, event);
    }
  }

  datatype Call = Call(onFirst: bool, event: Event)

  ghost function RunPair(p: Pair, a: Limits, b: Limits, calls: seq<Call>): Pair {
    if calls == [] then p
    else
      var last := calls[|calls| - 1];
      NextPair(RunPair(p, a, b, calls[..|calls| - 1]), a, b, last.onFirst, last.event)
  }

  /** However calls on the two ledgers interleave, each number belongs to one result of one of them. */
  lemma {:induction false} SharedNumbersAreUnique(p: Pair, a: Limits, b: Limits, calls: seq<Call>)
    requires Joined(p, a, b)
    ensures Joined(RunPair(p, a, b, calls), a, b)
  {
    if calls != [] {
      var last := calls[|calls| - 1];
      SharedNumbersAreUnique(p, a, b, calls[..|calls| - 1]);
      NextJoined(RunPair(p, a, b, calls[..|calls| - 1]), a, b, last.onFirst, last.event);
    }
  }
}
