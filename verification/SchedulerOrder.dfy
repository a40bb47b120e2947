/** The order of due units is total, so the ranked list depends only on which units are due. */
module SchedulerOrder {
  import opened SchedulerModel

  lemma PrecedesTrans(a: Due, b: Due, c: Due)
    requires Precedes(a, b) && Precedes(b, c)
    ensures Precedes(a, c)
  {
  }

  lemma PrecedesTotal(a: Due, b: Due)
    requires a.request.id != b.request.id
    ensures Precedes(a, b) != Precedes(b, a)
  {
  }

  predicate InOrder(ranked: seq<Due>) {
    forall i, j :: 0 <= i < j < |ranked| ==> Precedes(ranked[i], ranked[j])
  }

  predicate DistinctUnits(due: seq<Due>) {
    forall i, j :: 0 <= i < j < |due| ==> due[i].request.id != due[j].request.id
  }

  /** No unit of the list is the given one. */
  predicate Lacks(due: seq<Due>, id: UnitId) {
    forall i :: 0 <= i < |due| ==> due[i].request.id != id
  }

  lemma {:induction false} PlaceKeeps(d: Due, ranked: seq<Due>)
    requires InOrder(ranked) && Lacks(ranked, d.request.id)
    ensures InOrder(Place(d, ranked))
    ensures forall x :: x in Place(d, ranked) <==> x == d || x in ranked
    ensures |Place(d, ranked)| == |ranked| + 1
  {
    if ranked != [] {
      var head, tail := ranked[0], ranked[1..];
      assert ranked == [head] + tail;
      if Precedes(d, head) {
        forall j | 0 <= j < |ranked| ensures Precedes(d, ranked[j]) {
          if j > 0 {
            PrecedesTrans(d, head, ranked[j]);
          }
        }
      } else {
        PrecedesTotal(d, head);
        PlaceKeeps(d, tail);
        var rest := Place(d, tail);
        forall j | 0 <= j < |rest| ensures Precedes(head, rest[j]) {
          assert rest[j] in rest;
        }
      }
    }
  }

  lemma {:induction false} RankedSpec(due: seq<Due>)
    requires DistinctUnits(due)
    ensures InOrder(Ranked(due))
    ensures forall x :: x in Ranked(due) <==> x in due
    ensures |Ranked(due)| == |due|
  {
    if due != [] {
      var most, last := due[..|due| - 1], due[|due| - 1];
      RankedSpec(most);
      assert due == most + [last];
      forall i | 0 <= i < |Ranked(most)| ensures Ranked(most)[i].request.id != last.request.id {
        assert Ranked(most)[i] in most;
      }
      PlaceKeeps(last, Ranked(most));
    }
  }

  lemma HeadIsIn(s: seq<Due>)
    ensures s == [] || s[0] in s
  {
  }

  /** Two ordered lists of the same units are the same list. */
  lemma {:induction false} OrderIsUnique(a: seq<Due>, b: seq<Due>)
    requires InOrder(a) && InOrder(b)
    requires forall x :: x in a <==> x in b
    ensures a == b
  {
    HeadIsIn(a);
    HeadIsIn(b);
    if a != [] {
      SameHead(a, b);
      var restA, restB := a[1..], b[1..];
      assert a == [a[0]] + restA && b == [b[0]] + restB;
      forall x ensures x in restA <==> x in restB {
        SameTail(a, b, x);
        SameTail(b, a, x);
      }
      OrderIsUnique(restA, restB);
    }
  }

  lemma SameHead(a: seq<Due>, b: seq<Due>)
    requires InOrder(a) && InOrder(b) && a != [] && b != []
    requires forall x :: x in a <==> x in b
    ensures a[0] == b[0]
  {
    assert a[0] in b && b[0] in a by {
      assert a[0] in a && b[0] in b;
    }
    var i :| 0 <= i < |b| && b[i] == a[0];
    var j :| 0 <= j < |a| && a[j] == b[0];
    if i > 0 && j > 0 {
      PrecedesTrans(a[0], b[0], a[0]);
    }
  }

  lemma SameTail(a: seq<Due>, b: seq<Due>, x: Due)
    requires InOrder(a) && InOrder(b) && a != [] && b != [] && a[0] == b[0]
    requires forall y :: y in a <==> y in b
    ensures x in a[1..] ==> x in b[1..]
  {
    if x in a[1..] {
      var i :| 0 <= i < |a[1..]| && a[1..][i] == x;
      assert a[i + 1] == x && x in a;
      InOrderDiffer(a, i + 1);
      var j :| 0 <= j < |b| && b[j] == x;
      assert j > 0;
      assert b[1..][j - 1] == x;
    }
  }

  lemma InOrderDiffer(a: seq<Due>, i: nat)
    requires InOrder(a) && 0 < i < |a|
    ensures a[i] != a[0]
  {
  }
}
