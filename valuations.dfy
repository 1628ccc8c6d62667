/**
 * Valuations: maps from variable names to Troolean values, with the
 * "partial order" (refinement) test and the optimality test of Valuation.java.
 */
module Valuations {
  import opened Troolean

  /** A valuation, compared by content as Java's HashMap is. */
  type Valuation = map<string, Value>

  /**
   * self.isPartialOrder(v): on every variable both valuations carry, the values
   * agree or self's value is INCONCLUSIVE. Variables only one side carries are
   * not compared. (The Java scans both entry sets in parallel; see
   * ScanPartialOrder and ScanAgreesWithIsPartialOrder for that reading.)
   */
  predicate IsPartialOrder(self: Valuation, v: Valuation)
  {
    forall k :: k in self && k in v ==> self[k] == v[k] || self[k] == INCONCLUSIVE
  }

  /**
   * The parallel scan of two entry iterations: it stops at the end of the
   * shorter one and fails at the first position where the values differ and
   * the first value is decided.
   */
  function ScanPartialOrder(mine: seq<Value>, theirs: seq<Value>): (r: bool)
    ensures r <==> forall i :: 0 <= i < |mine| && i < |theirs| ==>
                      mine[i] == theirs[i] || mine[i] == INCONCLUSIVE
  {
    if mine == [] || theirs == [] then true
    else if mine[0] != theirs[0] && mine[0] != INCONCLUSIVE then false
    else ScanPartialOrder(mine[1..], theirs[1..])
  }

  /** The values of v, listed in the key order `order`. */
  function EntryValues(v: Valuation, order: seq<string>): seq<Value>
    requires forall i :: 0 <= i < |order| ==> order[i] in v
  {
    seq(|order|, i requires 0 <= i < |order| => v[order[i]])
  }

  /**
   * When both valuations have the same keys, iterated in the same order, the
   * scan decides exactly IsPartialOrder.
   */
  lemma ScanAgreesWithIsPartialOrder(self: Valuation, v: Valuation, order: seq<string>)
    requires self.Keys == v.Keys
    requires forall k :: k in self <==> k in order
    ensures ScanPartialOrder(EntryValues(self, order), EntryValues(v, order)) <==> IsPartialOrder(self, v)
  {
    var a, b := EntryValues(self, order), EntryValues(v, order);
    if IsPartialOrder(self, v) {
      forall i | 0 <= i < |a| && i < |b|
        ensures a[i] == b[i] || a[i] == INCONCLUSIVE
      {
        assert order[i] in self && order[i] in v;
      }
    } else {
      var k :| k in self && k in v && self[k] != v[k] && self[k] != INCONCLUSIVE;
      var i :| 0 <= i < |order| && order[i] == k;
      assert a[i] != b[i] && a[i] != INCONCLUSIVE;
    }
  }

  /** A valuation is a partial order of itself. */
  lemma PartialOrderReflexive(v: Valuation)
    ensures IsPartialOrder(v, v)
  {
  }

  /** Over the same keys, the relation is antisymmetric. */
  lemma PartialOrderAntisymmetric(a: Valuation, b: Valuation)
    requires a.Keys == b.Keys
    requires IsPartialOrder(a, b) && IsPartialOrder(b, a)
    ensures a == b
  {
    forall k | k in a
      ensures a[k] == b[k]
    {
    }
  }

  /** Over the same keys, the relation is transitive. */
  lemma PartialOrderTransitive(a: Valuation, b: Valuation, c: Valuation)
    requires a.Keys == b.Keys == c.Keys
    requires IsPartialOrder(a, b) && IsPartialOrder(b, c)
    ensures IsPartialOrder(a, c)
  {
  }

  /** A decided value differing from the other side breaks the relation. */
  lemma PartialOrderFailsOnDecidedDifference(self: Valuation, v: Valuation, k: string)
    requires k in self && k in v && self[k] != v[k] && self[k] != INCONCLUSIVE
    ensures !IsPartialOrder(self, v)
  {
  }

  /** An all-INCONCLUSIVE valuation is a partial order of any valuation. */
  lemma UnknownIsPartialOrderOfAll(u: Valuation, v: Valuation)
    requires forall k :: k in u ==> u[k] == INCONCLUSIVE
    ensures IsPartialOrder(u, v)
  {
  }

  /**
   * self.isOptimal(S): no element of S other than self is a partial order of
   * self.
   */
  predicate IsOptimal(self: Valuation, s: set<Valuation>)
  {
    forall n :: n in s && n != self ==> !IsPartialOrder(n, self)
  }

  /** Optimality holds trivially in the empty set and in {self}. */
  lemma OptimalInTrivialSets(self: Valuation)
    ensures IsOptimal(self, {}) && IsOptimal(self, {self})
  {
  }

  /** An element that refines self and differs from it defeats optimality. */
  lemma NotOptimalWhenRefined(self: Valuation, s: set<Valuation>, n: Valuation)
    requires n in s && n != self && IsPartialOrder(n, self)
    ensures !IsOptimal(self, s)
  {
  }

  /** The set of names listed in a sequence. */
  function Names(names: seq<string>): set<string>
  {
    set n | n in names
  }

  /**
   * The valuation obtained by putting names[i] := values[i] for i = 0, 1, ...
   * in turn, starting from an empty map: a name listed twice keeps the value
   * of its last occurrence.
   */
  function Zip(names: seq<string>, values: seq<Value>): (r: Valuation)
    requires |names| == |values|
    ensures r.Keys == Names(names)
    decreases |names|
  {
    if names == [] then map[]
    else
      var n := |names| - 1;
      assert Names(names) == Names(names[..n]) + {names[n]};
      Zip(names[..n], values[..n])[names[n] := values[n]]
  }

  /** A name takes the value of its last occurrence. */
  lemma {:induction false} ZipLastOccurrence(names: seq<string>, values: seq<Value>, i: nat)
    requires |names| == |values| && i < |names|
    requires forall j :: i < j < |names| ==> names[j] != names[i]
    ensures Zip(names, values)[names[i]] == values[i]
    decreases |names|
  {
    var n := |names| - 1;
    if i < n {
      assert names[..n][i] == names[i];
      ZipLastOccurrence(names[..n], values[..n], i);
    }
  }

  /** Every value in the zipped valuation is one of the listed values. */
  lemma {:induction false} ZipValuesFrom(names: seq<string>, values: seq<Value>, k: string)
    requires |names| == |values| && k in Zip(names, values)
    ensures exists i :: 0 <= i < |names| && names[i] == k && Zip(names, values)[k] == values[i]
    decreases |names|
  {
    var n := |names| - 1;
    if names[n] != k {
      ZipValuesFrom(names[..n], values[..n], k);
      var i :| 0 <= i < n && names[..n][i] == k && Zip(names[..n], values[..n])[k] == values[..n][i];
      assert names[i] == k && values[i] == values[..n][i];
    }
  }

  /**
   * Zipping the values a valuation gives to its own listed names rebuilds it
   * (even when a name is listed twice, all its occurrences carry one value).
   */
  lemma {:induction false} ZipOfOwnValues(names: seq<string>, v: Valuation)
    requires Names(names) == v.Keys
    ensures Zip(names, seq(|names|, i requires 0 <= i < |names| => v[names[i]])) == v
  {
    var vals := seq(|names|, i requires 0 <= i < |names| => v[names[i]]);
    var z := Zip(names, vals);
    forall k | k in z
      ensures z[k] == v[k]
    {
      ZipValuesFrom(names, vals, k);
    }
  }

  /** A two-valued valuation over exactly the variables `dom`. */
  predicate TwoValuedOver(v: Valuation, dom: set<string>)
  {
    v.Keys == dom && forall k :: k in v ==> IsDecided(v[k])
  }
}
