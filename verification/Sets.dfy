/** Cardinality facts about finite sets, used by the counting invariants. */
module Sets {

  lemma CardinalityMonotone<T>(small: set<T>, big: set<T>)
    requires small <= big
    ensures |small| <= |big|
    ensures |small| == |big| ==> small == big
  {
    var rest := big - small;
    assert big == small + rest;
    assert |big| == |small| + |rest|;
    if |rest| == 0 {
      assert rest == {};
    }
  }

  lemma AtMostOne<T>(s: set<T>, x: T, y: T)
    requires |s| <= 1 && x in s && y in s
    ensures x == y
  {
    CardinalityMonotone({x, y}, s);
  }

  lemma Member<T>(s: set<T>) returns (x: T)
    requires s != {}
    ensures x in s
  {
    x :| x in s;
  }

  predicate IsLeast(x: int, s: set<int>) {
    x in s && forall y <- s :: x <= y
  }

  lemma {:induction false} HasLeast(s: set<int>, x: int)
    requires x in s
    ensures exists least :: IsLeast(least, s)
    decreases s
  {
    if y :| y in s && y < x {
      var rest := set z <- s | z < x;
      assert x !in rest;
      HasLeast(rest, y);
      var least :| IsLeast(least, rest);
      forall z <- s ensures least <= z {
        assert z < x ==> z in rest;
      }
      assert IsLeast(least, s);
    } else {
      assert IsLeast(x, s);
    }
  }

  function Least(s: set<int>): (least: int)
    requires s != {}
    ensures IsLeast(least, s)
  {
    assert exists x :: IsLeast(x, s) by {
      var x := Member(s);
      HasLeast(s, x);
    }
    var least :| IsLeast(least, s);
    least
  }

  /** The elements of a set in increasing order, as `sort.Ints` leaves them. */
  function Ascending(s: set<int>): (r: seq<int>)
    ensures forall x :: x in r <==> x in s
    ensures forall i, j | 0 <= i < j < |r| :: r[i] < r[j]
  {
    if s == {} then [] else [Least(s)] + Ascending(s - {Least(s)})
  }

  ghost predicate Increasing(r: seq<int>) {
    forall i, j | 0 <= i < j < |r| :: r[i] < r[j]
  }

  /** Increasing natural numbers are no smaller than their positions. */
  lemma {:induction false} PositionsAreLower(r: seq<int>, k: nat)
    requires Increasing(r) && k < |r| && r[0] >= 0
    ensures r[k] >= k
  {
    if k > 0 {
      PositionsAreLower(r, k - 1);
    }
  }

  lemma {:induction false} NoneIsLeftOut(r: seq<int>, top: int, k: nat)
    requires Increasing(r) && k < |r| && r[0] >= 0 && r[k] <= top
    requires forall x | 0 <= x < top :: x in r
    ensures r[k] == k
  {
    PositionsAreLower(r, k);
    if r[k] > k {
      assert k in r;
      var m :| 0 <= m < |r| && r[m] == k;
      NoneIsLeftOut(r, top, m);
    }
  }

  lemma {:induction false} UpToPosition(r: seq<int>, k: nat, x: nat)
    requires Increasing(r) && k < |r| && r[0] >= 0 && r[k] == k && x <= k
    ensures r[x] == x
  {
    if x < k {
      PositionsAreLower(r, k - 1);
      UpToPosition(r, k - 1, x);
    }
  }

  /** An element of increasing natural numbers is its own position exactly when all smaller numbers are elements. */
  lemma PositionIff(r: seq<int>, k: nat)
    requires Increasing(r) && k < |r| && r[0] >= 0
    ensures r[k] == k <==> forall x | 0 <= x < r[k] :: x in r
  {
    if r[k] == k {
      forall x | 0 <= x < r[k] ensures x in r {
        UpToPosition(r, k, x);
      }
    } else if forall x | 0 <= x < r[k] :: x in r {
      NoneIsLeftOut(r, r[k], k);
    }
  }

  /** Numbers no larger than increasing ones that cover them are the same ones. */
  lemma {:induction false} CoveringIsExact(r: seq<int>, shown: seq<int>, k: nat)
    requires Increasing(r) && |shown| == |r| && k < |r|
    requires forall m | 0 <= m < |r| :: shown[m] <= r[m]
    requires forall x <- r :: x in shown
    ensures shown[k] == r[k]
    decreases |r| - k
  {
    assert r[k] in shown;
    var m :| 0 <= m < |shown| && shown[m] == r[k];
    if m > k {
      CoveringIsExact(r, shown, m);
    }
  }
}
