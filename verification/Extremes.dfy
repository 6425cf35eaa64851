/** A finite set of integers has a least and a greatest element. */
module Extremes {
  lemma Pick<T>(s: set<T>) returns (x: T)
    requires s != {}
    ensures x in s
  {
    x :| x in s;
  }

  lemma {:induction false} LeastExists(s: set<int>)
    requires s != {}
    ensures exists v :: v in s && forall u | u in s :: v <= u
    decreases |s|
  {
    var x := Pick(s);
    if s - {x} == {} {
      assert s == {x};
      assert x in s && forall u | u in s :: x <= u;
    } else {
      LeastExists(s - {x});
      var v :| v in s - {x} && forall u | u in s - {x} :: v <= u;
      var m := if v <= x then v else x;
      assert forall u | u in s :: u == x || u in s - {x};
      assert m in s && forall u | u in s :: m <= u;
    }
  }

  lemma GreatestExists(s: set<int>)
    requires s != {}
    ensures exists v :: v in s && forall u | u in s :: u <= v
  {
    var negated := set u | u in s :: -u;
    var x := Pick(s);
    assert -x in negated;
    LeastExists(negated);
    var v :| v in negated && forall u | u in negated :: v <= u;
    var w := -v;
    assert w in s;
    forall u | u in s ensures u <= w {
      assert -u in negated;
    }
  }

  predicate StrictlyAscending(a: seq<int>) {
    forall i, j | 0 <= i < j < |a| :: a[i] < a[j]
  }

  /** A set has only one ascending list. */
  lemma {:induction false} AscendingIsUnique(a: seq<int>, b: seq<int>)
    requires StrictlyAscending(a) && StrictlyAscending(b)
    requires forall v :: v in a <==> v in b
    ensures a == b
  {
    if a != [] && b != [] {
      SameLast(a, b);
      var p, q := a[..|a| - 1], b[..|b| - 1];
      forall v ensures v in p <==> v in q {
        FrontHolds(a, v);
        FrontHolds(b, v);
      }
      AscendingIsUnique(p, q);
      assert a == p + [a[|a| - 1]] && b == q + [b[|b| - 1]];
    } else {
      HoldsSome(a);
      HoldsSome(b);
    }
  }

  lemma SameLast(a: seq<int>, b: seq<int>)
    requires a != [] && b != [] && StrictlyAscending(a) && StrictlyAscending(b)
    requires forall v :: v in a <==> v in b
    ensures a[|a| - 1] == b[|b| - 1]
  {
    var x, y := a[|a| - 1], b[|b| - 1];
    assert x in b && y in a;
    assert forall v | v in a :: v <= x;
    assert forall v | v in b :: v <= y;
  }

  lemma HoldsSome(a: seq<int>)
    ensures a == [] || exists v :: v in a
  {
    if a != [] {
      var v := a[0];
      assert v in a;
    }
  }

  lemma FrontHolds(a: seq<int>, v: int)
    requires a != [] && StrictlyAscending(a)
    ensures v in a[..|a| - 1] <==> v in a && v != a[|a| - 1]
  {
    if v in a && v != a[|a| - 1] {
      var i :| 0 <= i < |a| && a[i] == v;
      assert a[..|a| - 1][i] == v;
    }
  }

  lemma OneMore<T>(a: set<T>, x: T)
    requires x !in a
    ensures |a + {x}| == |a| + 1
  {
  }

  lemma Remaining<T>(a: set<T>, b: set<T>)
    requires b <= a
    ensures |a - b| == |a| - |b|
  {
    assert a == (a - b) + b;
  }
}
