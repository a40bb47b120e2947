/** The quality of the greedy selection, and its independence from the order of the requests. */
module SchedulerChoice {
  import opened SchedulerModel
  import opened SchedulerOrder

  // ---- the selection ---------------------------------------------------------------------

  ghost predicate Backed(p: Selection, ranked: seq<Due>) {
    && p.used == TotalBytes(p.selected)
    && (forall id :: id in p.chosen <==> exists i :: 0 <= i < |p.selected| && p.selected[i].id == id)
    && (forall i :: 0 <= i < |p.selected| ==> Offers(ranked, p.selected[i]))
    && (forall i, j :: 0 <= i < j < |p.selected| ==> p.selected[i].id != p.selected[j].id)
  }

  /** The request is a due, feasible unit of the list. */
  ghost predicate Offers(ranked: seq<Due>, r: Request) {
    exists d :: d in ranked && d.request == r && !d.infeasible
  }

  lemma TakeBacked(p: Selection, ranked: seq<Due>, d: Due)
    requires Backed(p, ranked) && d in ranked && !d.infeasible && d.request.id !in p.chosen
    ensures Backed(Take(p, d.request), ranked)
  {
    var after := Take(p, d.request);
    assert after.selected[..|after.selected| - 1] == p.selected;
    forall i | 0 <= i < |after.selected| ensures Offers(ranked, after.selected[i]) {
      assert i < |p.selected| ==> after.selected[i] == p.selected[i];
    }
    forall id ensures id in after.chosen <==> exists i :: 0 <= i < |after.selected| && after.selected[i].id == id {
      if id == d.request.id {
        assert after.selected[|p.selected|].id == id;
      } else if id in p.chosen {
        var i :| 0 <= i < |p.selected| && p.selected[i].id == id;
        assert after.selected[i].id == id;
      }
    }
  }

  lemma BackedMore(p: Selection, ranked: seq<Due>, d: Due)
    requires Backed(p, ranked)
    ensures Backed(p, ranked + [d])
  {
    forall i | 0 <= i < |p.selected| ensures Offers(ranked + [d], p.selected[i]) {
      var x :| x in ranked && x.request == p.selected[i] && !x.infeasible;
      assert x in ranked + [d];
    }
  }

  /** Nothing chosen so far is the next unit. */
  lemma NotYetChosen(p: Selection, ranked: seq<Due>, d: Due)
    requires Backed(p, ranked) && Lacks(ranked, d.request.id)
    ensures d.request.id !in p.chosen
  {
    forall i | 0 <= i < |p.selected| ensures p.selected[i].id != d.request.id {
      var x :| x in ranked && x.request == p.selected[i] && !x.infeasible;
    }
  }

  /** A critical unit left out by the first pass: the reserve was used up, or it did not fit. */
  predicate CriticalServed(p: Selection, d: Due, budget: nat, reserve: nat) {
    !d.infeasible && d.request.cadence.critical && d.request.id !in p.chosen ==>
      p.used >= reserve || !Fits(p, d.request, budget)
  }

  lemma {:induction false} CriticalPassSpec(ranked: seq<Due>, budget: nat, reserve: nat)
    requires DistinctUnits(ranked)
    ensures var p := CriticalPass(ranked, budget, reserve);
      && Backed(p, ranked) && p.used <= budget
      && (forall i :: 0 <= i < |p.selected| ==> p.selected[i].cadence.critical && TotalBytes(p.selected[..i]) < reserve)
      && (forall i :: 0 <= i < |ranked| ==> CriticalServed(p, ranked[i], budget, reserve))
  {
    if ranked != [] {
      var most, d := ranked[..|ranked| - 1], ranked[|ranked| - 1];
      assert ranked == most + [d];
      CriticalPassSpec(most, budget, reserve);
      var p := CriticalPass(most, budget, reserve);
      var after := CriticalPass(ranked, budget, reserve);
      NotYetChosen(p, most, d);
      BackedMore(p, most, d);
      if TakesCritical(p, d, budget, reserve) {
        TakeBacked(p, ranked, d);
        assert after.selected[..|p.selected|] == p.selected;
        forall i | 0 <= i < |after.selected|
          ensures after.selected[i].cadence.critical && TotalBytes(after.selected[..i]) < reserve
        {
          assert i < |p.selected| ==> after.selected[..i] == p.selected[..i];
        }
      }
      forall i | 0 <= i < |ranked| ensures CriticalServed(after, ranked[i], budget, reserve) {
        assert i < |most| ==> CriticalServed(p, most[i], budget, reserve);
      }
    }
  }

  /** A feasible unit left out did not fit into what remains. */
  predicate OpenServed(p: Selection, d: Due, budget: nat) {
    !d.infeasible && d.request.id !in p.chosen ==> d.request.wireBytes > budget - p.used
  }

  lemma {:induction false} OpenPassSpec(start: Selection, ranked: seq<Due>, budget: nat, whole: seq<Due>)
    requires Backed(start, whole) && start.used <= budget
    requires forall d :: d in ranked ==> d in whole
    ensures var p := OpenPass(start, ranked, budget);
      && Backed(p, whole) && start.used <= p.used <= budget && start.chosen <= p.chosen
      && start.selected <= p.selected
      && (forall i :: 0 <= i < |ranked| ==> OpenServed(p, ranked[i], budget))
  {
    if ranked != [] {
      var most, d := ranked[..|ranked| - 1], ranked[|ranked| - 1];
      assert ranked == most + [d];
      OpenPassSpec(start, most, budget, whole);
      var p := OpenPass(start, most, budget);
      var after := OpenPass(start, ranked, budget);
      assert d in whole;
      if TakesOpen(p, d, budget) {
        TakeBacked(p, whole, d);
      }
      forall i | 0 <= i < |ranked| ensures OpenServed(after, ranked[i], budget) {
        assert i < |most| ==> OpenServed(p, most[i], budget);
      }
    }
  }

  /** Each due unit is either chosen or deferred, and selecting lists each chosen unit once. */
  lemma {:induction false} DeferredComplement(ranked: seq<Due>, chosen: set<UnitId>)
    requires DistinctUnits(ranked)
    ensures CountDeferred(ranked, chosen) + |chosen * UnitsOf(ranked)| == |ranked|
  {
    if ranked == [] {
      assert chosen * UnitsOf(ranked) == {};
    } else {
      var most, d := ranked[..|ranked| - 1], ranked[|ranked| - 1];
      DeferredComplement(most, chosen);
      UnitsWithLast(ranked);
      if d.request.id in chosen {
        assert chosen * UnitsOf(ranked) == (chosen * UnitsOf(most)) + {d.request.id};
      } else {
        assert chosen * UnitsOf(ranked) == chosen * UnitsOf(most);
      }
    }
  }

  ghost function UnitsOf(ranked: seq<Due>): set<UnitId> {
    set i | 0 <= i < |ranked| :: ranked[i].request.id
  }

  lemma UnitsWithLast(ranked: seq<Due>)
    requires ranked != [] && DistinctUnits(ranked)
    ensures var most, d := ranked[..|ranked| - 1], ranked[|ranked| - 1];
      UnitsOf(ranked) == UnitsOf(most) + {d.request.id} && d.request.id !in UnitsOf(most)
  {
    var most, d := ranked[..|ranked| - 1], ranked[|ranked| - 1];
    forall id ensures id in UnitsOf(ranked) <==> id in UnitsOf(most) + {d.request.id} {
      if id in UnitsOf(ranked) {
        var i :| 0 <= i < |ranked| && ranked[i].request.id == id;
        assert i < |most| ==> most[i].request.id == id;
      }
      if id in UnitsOf(most) {
        var i :| 0 <= i < |most| && most[i].request.id == id;
        assert ranked[i].request.id == id;
      }
    }
  }

  lemma {:induction false} ChosenSize(selected: seq<Request>, chosen: set<UnitId>)
    requires forall id :: id in chosen <==> exists i :: 0 <= i < |selected| && selected[i].id == id
    requires forall i, j :: 0 <= i < j < |selected| ==> selected[i].id != selected[j].id
    ensures |chosen| == |selected|
    decreases |selected|
  {
    if selected == [] {
      assert chosen == {};
    } else {
      var most, last := selected[..|selected| - 1], selected[|selected| - 1];
      assert selected[|most|].id == last.id;
      var fewer := chosen - {last.id};
      forall id ensures id in fewer <==> exists i :: 0 <= i < |most| && most[i].id == id {
        if id in fewer {
          var i :| 0 <= i < |selected| && selected[i].id == id;
          assert most[i].id == id;
        }
        if i :| 0 <= i < |most| && most[i].id == id {
          assert selected[i].id == id;
        }
      }
      ChosenSize(most, fewer);
    }
  }

  // ---- which units are due -------------------------------------------------------------------

  predicate DistinctRequests(requests: seq<Request>) {
    forall i, j :: 0 <= i < j < |requests| ==> requests[i].id != requests[j].id
  }

  /** The request behind a due unit. */
  ghost predicate ComesDue(round: Round, requests: seq<Request>, d: Due) {
    exists i :: 0 <= i < |requests| && Known(round, requests[i]) && IsDue(round, requests[i])
      && d == DueOf(round, requests[i])
  }

  lemma {:induction false} DueUnitsExactly(round: Round, requests: seq<Request>, d: Due)
    requires AllKnown(round, requests)
    ensures d in DueUnits(round, requests) <==> ComesDue(round, requests, d)
  {
    if requests != [] {
      var most, last := requests[..|requests| - 1], requests[|requests| - 1];
      assert forall i :: 0 <= i < |most| ==> most[i] == requests[i];
      DueUnitsExactly(round, most, d);
      assert Known(round, last);
      if ComesDue(round, requests, d) {
        var i :| 0 <= i < |requests| && Known(round, requests[i]) && IsDue(round, requests[i])
          && d == DueOf(round, requests[i]);
        assert i < |most| ==> most[i] == requests[i];
      }
    }
  }

  lemma {:induction false} DueUnitsDistinct(round: Round, requests: seq<Request>)
    requires AllKnown(round, requests) && DistinctRequests(requests)
    ensures DistinctUnits(DueUnits(round, requests))
  {
    if requests != [] {
      var most, last := requests[..|requests| - 1], requests[|requests| - 1];
      assert forall i :: 0 <= i < |most| ==> most[i] == requests[i];
      DueUnitsDistinct(round, most);
      assert Known(round, last);
      var due := DueUnits(round, most);
      forall i | 0 <= i < |due| ensures due[i].request.id != last.id {
        assert due[i] in due;
        DueUnitsExactly(round, most, due[i]);
      }
    }
  }

  lemma {:induction false} OldestAgeSpec(round: Round, requests: seq<Request>)
    requires AllKnown(round, requests)
    ensures forall i :: 0 <= i < |requests| ==> AgeOf(round, requests[i]) <= OldestAge(round, requests)
    ensures requests != [] ==>
      exists i :: 0 <= i < |requests| && AgeOf(round, requests[i]) == OldestAge(round, requests)
  {
    if requests != [] {
      var most, last := requests[..|requests| - 1], requests[|requests| - 1];
      assert forall i :: 0 <= i < |most| ==> most[i] == requests[i];
      OldestAgeSpec(round, most);
      assert Known(round, last) && requests[|most|] == last;
      if most != [] && AgeOf(round, last) < OldestAge(round, most) {
        var i :| 0 <= i < |most| && AgeOf(round, most[i]) == OldestAge(round, most);
        assert AgeOf(round, requests[i]) == OldestAge(round, requests);
      }
    }
  }

  lemma {:induction false} CountAppend(a: seq<Due>, b: seq<Due>)
    ensures CountInfeasible(a + b) == CountInfeasible(a) + CountInfeasible(b)
  {
    if b == [] {
      assert a + b == a;
    } else {
      CountAppend(a, b[..|b| - 1]);
      assert (a + b)[..|a + b| - 1] == a + b[..|b| - 1];
    }
  }

  lemma {:induction false} PlaceCounts(d: Due, ranked: seq<Due>)
    ensures CountInfeasible(Place(d, ranked)) == CountInfeasible(ranked) + CountInfeasible([d])
  {
    if ranked == [] || Precedes(d, ranked[0]) {
      CountAppend([d], ranked);
    } else {
      PlaceCounts(d, ranked[1..]);
      CountAppend([ranked[0]], Place(d, ranked[1..]));
      CountAppend([ranked[0]], ranked[1..]);
      assert ranked == [ranked[0]] + ranked[1..];
    }
  }

  lemma {:induction false} RankedCounts(due: seq<Due>)
    ensures CountInfeasible(Ranked(due)) == CountInfeasible(due)
  {
    if due != [] {
      RankedCounts(due[..|due| - 1]);
      PlaceCounts(due[|due| - 1], Ranked(due[..|due| - 1]));
      assert [due[|due| - 1]][..0] == [];
    }
  }
}
