/**
 * Sums of natural-number weights over finite sets. The monitor's path counts
 * and the machine's transition count are such sums; Java iterates a hash map
 * in an unspecified order, so every sum here is order-free.
 */
module Sums {

  /** The sum of w(x) over the elements x of s, in no particular order. */
  ghost function SumOver<T>(s: set<T>, w: T -> nat): nat
    decreases s
  {
    if s == {} then 0 else var x :| x in s; w(x) + SumOver(s - {x}, w)
  }

  /** Any element may be taken out first: the sum does not depend on the order. */
  lemma {:induction false} SumOverRemove<T>(s: set<T>, w: T -> nat, y: T)
    requires y in s
    ensures SumOver(s, w) == w(y) + SumOver(s - {y}, w)
    decreases s
  {
    var x :| x in s && SumOver(s, w) == w(x) + SumOver(s - {x}, w);
    if x != y {
      SumOverRemove(s - {x}, w, y);
      SumOverRemove(s - {y}, w, x);
      assert s - {x} - {y} == s - {y} - {x};
    }
  }

  /** Adding a new element adds its weight. */
  lemma SumOverAdd<T>(s: set<T>, w: T -> nat, y: T)
    requires y !in s
    ensures SumOver(s + {y}, w) == SumOver(s, w) + w(y)
  {
    SumOverRemove(s + {y}, w, y);
    assert s + {y} - {y} == s;
  }

  /** The sums over one and over two elements. */
  lemma SumOverSmall<T>(x: T, y: T, w: T -> nat)
    requires x != y
    ensures SumOver({x}, w) == w(x)
    ensures SumOver({x, y}, w) == w(x) + w(y)
  {
    SumOverAdd({}, w, x);
    assert {} + {x} == {x};
    SumOverAdd({x}, w, y);
    assert {x} + {y} == {x, y};
  }

  /** Weights that agree on s give the same sum. */
  lemma {:induction false} SumOverCongruent<T>(s: set<T>, w1: T -> nat, w2: T -> nat)
    requires forall x :: x in s ==> w1(x) == w2(x)
    ensures SumOver(s, w1) == SumOver(s, w2)
    decreases s
  {
    if s != {} {
      var x :| x in s;
      SumOverRemove(s, w1, x);
      SumOverRemove(s, w2, x);
      SumOverCongruent(s - {x}, w1, w2);
    }
  }

  /** The sum is additive in the weights. */
  lemma {:induction false} SumOverAddWeights<T>(s: set<T>, w1: T -> nat, w2: T -> nat, w: T -> nat)
    requires forall x :: x in s ==> w(x) == w1(x) + w2(x)
    ensures SumOver(s, w) == SumOver(s, w1) + SumOver(s, w2)
    decreases s
  {
    if s != {} {
      var x :| x in s;
      SumOverRemove(s, w, x);
      SumOverRemove(s, w1, x);
      SumOverRemove(s, w2, x);
      SumOverAddWeights(s - {x}, w1, w2, w);
    }
  }

  /** A constant factor can be taken out of the sum. */
  lemma {:induction false} SumOverScale<T>(s: set<T>, w1: T -> nat, k: nat, w: T -> nat)
    requires forall x :: x in s ==> w(x) == k * w1(x)
    ensures SumOver(s, w) == k * SumOver(s, w1)
    decreases s
  {
    if s != {} {
      var x :| x in s;
      SumOverRemove(s, w, x);
      SumOverRemove(s, w1, x);
      SumOverScale(s - {x}, w1, k, w);
      var a, b := w1(x), SumOver(s - {x}, w1);
      assert SumOver(s, w1) == a + b;
      assert SumOver(s, w) == k * a + k * b;
      Distribute(k, a, b, a + b);
    }
  }

  /** Multiplication distributes over a sum c of a and b. */
  lemma Distribute(n: nat, a: nat, b: nat, c: nat)
    requires c == a + b
    ensures n * c == n * a + n * b
  {
  }

  /** A sum is positive exactly when some weight is. */
  lemma {:induction false} SumOverPositive<T>(s: set<T>, w: T -> nat)
    ensures SumOver(s, w) > 0 <==> exists x :: x in s && w(x) > 0
    decreases s
  {
    if s != {} {
      var x :| x in s;
      SumOverRemove(s, w, x);
      SumOverPositive(s - {x}, w);
      if SumOver(s - {x}, w) > 0 {
        var y :| y in s - {x} && w(y) > 0;
        assert y in s;
      }
    }
  }

  /** Raising one weight by k raises the sum by k. */
  lemma SumOverBump<T>(s: set<T>, w1: T -> nat, w2: T -> nat, y: T, k: nat)
    requires y in s
    requires w2(y) == w1(y) + k
    requires forall x :: x in s && x != y ==> w1(x) == w2(x)
    ensures SumOver(s, w2) == SumOver(s, w1) + k
  {
    SumOverRemove(s, w1, y);
    SumOverRemove(s, w2, y);
    SumOverCongruent(s - {y}, w1, w2);
  }

  /** The weight a map gives to a key: its value, or 0 when absent. */
  function ValueOr0<T>(m: map<T, nat>, x: T): nat
  {
    if x in m then m[x] else 0
  }

  /** The sum of the values of a map. */
  ghost function SumMap<T>(m: map<T, nat>): nat
  {
    SumOver(m.Keys, x => ValueOr0(m, x))
  }

  /** Adding p to the entry of k (creating it if absent) adds p to the total. */
  lemma SumMapIncrement<T>(m: map<T, nat>, k: T, p: nat)
    ensures SumMap(m[k := ValueOr0(m, k) + p]) == SumMap(m) + p
  {
    var m' := m[k := ValueOr0(m, k) + p];
    var w := x => ValueOr0(m, x);
    var w' := x => ValueOr0(m', x);
    if k in m {
      assert m'.Keys == m.Keys;
      SumOverBump(m.Keys, w, w', k, p);
    } else {
      assert m'.Keys == m.Keys + {k};
      SumOverAdd(m.Keys, w', k);
      SumOverCongruent(m.Keys, w, w');
    }
  }

  /** A single entry sums to its value. */
  lemma SumMapSingleton<T>(k: T, n: nat)
    ensures SumMap(map[k := n]) == n
  {
    var m := map[k := n];
    assert m.Keys == {} + {k};
    SumOverAdd({}, x => ValueOr0(m, x), k);
  }

  /** Taking a subset out of a set leaves the rest of its size. */
  lemma SplitSize<T>(u: set<T>, m: set<T>)
    requires m <= u
    ensures |u| == |m| + |u - m|
  {
    assert u == m + (u - m);
  }

  /** The union of a list of sets. */
  function UnionOf<T>(ss: seq<set<T>>): set<T>
  {
    if ss == [] then {} else UnionOf(ss[..|ss| - 1]) + ss[|ss| - 1]
  }

  /** The sizes of a list of sets, added up. */
  function SizeSum<T>(ss: seq<set<T>>): nat
  {
    if ss == [] then 0 else SizeSum(ss[..|ss| - 1]) + |ss[|ss| - 1]|
  }

  ghost predicate PairwiseDisjoint<T>(ss: seq<set<T>>)
  {
    forall i, j :: 0 <= i < j < |ss| ==> ss[i] !! ss[j]
  }

  /**
   * Pairwise disjoint sets have no element in common, so their union is as
   * large as their sizes added up; a bound on each set bounds the union.
   */
  lemma {:induction false} DisjointUnionSize<T>(ss: seq<set<T>>, bound: set<T>)
    requires PairwiseDisjoint(ss)
    requires forall i :: 0 <= i < |ss| ==> ss[i] <= bound
    ensures |UnionOf(ss)| == SizeSum(ss)
    ensures UnionOf(ss) <= bound
    ensures forall x :: x in UnionOf(ss) ==> exists i :: 0 <= i < |ss| && x in ss[i]
  {
    if ss != [] {
      var k := |ss| - 1;
      var pre := ss[..k];
      assert forall i :: 0 <= i < k ==> pre[i] == ss[i];
      DisjointUnionSize(pre, bound);
      forall x | x in UnionOf(pre)
        ensures x !in ss[k]
      {
        var i :| 0 <= i < k && x in pre[i];
        assert ss[i] !! ss[k];
      }
      assert |UnionOf(ss)| == |UnionOf(pre)| + |ss[k]|;
      forall x | x in UnionOf(ss)
        ensures exists i :: 0 <= i < |ss| && x in ss[i]
      {
        if x !in ss[k] {
          var i :| 0 <= i < k && x in pre[i];
          assert x in ss[i];
        }
      }
    }
  }
}
