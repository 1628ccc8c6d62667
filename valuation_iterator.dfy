/**
 * ValuationIterator: enumerates every two-valued assignment over a finite
 * domain by counting in binary, and the set of valuations it enumerates.
 */
module Iteration {
  import opened Troolean
  import opened Valuations
  import opened BinaryCounter

  /** No name is listed twice. */
  predicate Distinct(s: seq<string>)
  {
    forall i, j :: 0 <= i < j < |s| ==> s[i] != s[j]
  }

  /** `order` lists the elements of `dom`, each once: one iteration of a Java set. */
  predicate Lists(order: seq<string>, dom: set<string>)
  {
    Names(order) == dom && Distinct(order)
  }

  /** The valuations a counter over `order` produces for the numbers below c. */
  function Enumerated(order: seq<string>, c: nat): set<Valuation>
  {
    if c == 0 then {} else Enumerated(order, c - 1) + {Zip(order, Bits(c - 1, |order|))}
  }

  /** Everything the counter produces before it wraps around. */
  function AllOver(order: seq<string>): set<Valuation>
  {
    Enumerated(order, Pow2(|order|))
  }

  /** The valuations below c are exactly those of the numbers below c. */
  lemma {:induction false} EnumeratedMembers(order: seq<string>, c: nat, v: Valuation)
    ensures v in Enumerated(order, c) <==> exists k :: 0 <= k < c && v == Zip(order, Bits(k, |order|))
  {
    if c > 0 {
      var z := Zip(order, Bits(c - 1, |order|));
      assert Enumerated(order, c) == Enumerated(order, c - 1) + {z};
      EnumeratedMembers(order, c - 1, v);
      if v in Enumerated(order, c) {
        if v == z {
          assert 0 <= c - 1 < c && v == Zip(order, Bits(c - 1, |order|));
        } else {
          var k :| 0 <= k < c - 1 && v == Zip(order, Bits(k, |order|));
          assert 0 <= k < c && v == Zip(order, Bits(k, |order|));
        }
      }
      if exists k :: 0 <= k < c && v == Zip(order, Bits(k, |order|)) {
        var k :| 0 <= k < c && v == Zip(order, Bits(k, |order|));
        if k < c - 1 {
          assert 0 <= k < c - 1 && v == Zip(order, Bits(k, |order|));
        }
      }
    }
  }

  /** A listing with no repetition is as long as the set it lists. */
  lemma {:induction false} ListingLength(order: seq<string>)
    requires Distinct(order)
    ensures |Names(order)| == |order|
  {
    if order != [] {
      var n := |order| - 1;
      ListingLength(order[..n]);
      assert Names(order) == Names(order[..n]) + {order[n]};
      assert order[n] !in Names(order[..n]);
    }
  }

  lemma NamesAppend(s: seq<string>, x: string)
    ensures Names(s + [x]) == Names(s) + {x}
  {
    assert forall n :: n in s + [x] <==> n in s || n == x;
  }

  /** Every finite set of names can be listed. */
  lemma {:induction false} ListingExists(dom: set<string>)
    ensures exists order :: Lists(order, dom)
    decreases dom
  {
    if dom == {} {
      assert Lists([], dom);
    } else {
      var x :| x in dom;
      ListingExists(dom - {x});
      var order :| Lists(order, dom - {x});
      NamesAppend(order, x);
      assert Lists(order + [x], dom);
    }
  }

  /**
   * The counter produces exactly the two-valued valuations over the listed
   * names: none is missed and nothing else appears.
   */
  lemma AllOverCharacterization(order: seq<string>, v: Valuation)
    ensures v in AllOver(order) <==> TwoValuedOver(v, Names(order))
  {
    var n := |order|;
    EnumeratedMembers(order, Pow2(n), v);
    if v in AllOver(order) {
      var k :| 0 <= k < Pow2(n) && v == Zip(order, Bits(k, n));
      forall x | x in v
        ensures IsDecided(v[x])
      {
        ZipValuesFrom(order, Bits(k, n), x);
      }
    }
    if TwoValuedOver(v, Names(order)) {
      var b := seq(n, i requires 0 <= i < n => v[order[i]]);
      ZipOfOwnValues(order, v);
      BitsOfNumber(b);
      assert Zip(order, Bits(Number(b), n)) == v;
    }
  }

  /** Over distinct names, different numbers give different valuations. */
  lemma ZipBitsInjective(order: seq<string>, j: nat, k: nat)
    requires Distinct(order) && j < Pow2(|order|) && k < Pow2(|order|)
    requires Zip(order, Bits(j, |order|)) == Zip(order, Bits(k, |order|))
    ensures j == k
  {
    var n := |order|;
    forall i | 0 <= i < n
      ensures Bits(j, n)[i] == Bits(k, n)[i]
    {
      ZipLastOccurrence(order, Bits(j, n), i);
      ZipLastOccurrence(order, Bits(k, n), i);
    }
    assert Bits(j, n) == Bits(k, n);
    NumberOfBits(j, n);
    NumberOfBits(k, n);
  }

  /** Over distinct names, the valuation for c is not among those for smaller numbers. */
  lemma NotYetEnumerated(order: seq<string>, c: nat)
    requires Distinct(order) && c < Pow2(|order|)
    ensures Zip(order, Bits(c, |order|)) !in Enumerated(order, c)
  {
    var z := Zip(order, Bits(c, |order|));
    EnumeratedMembers(order, c, z);
    if z in Enumerated(order, c) {
      var k :| 0 <= k < c && z == Zip(order, Bits(k, |order|));
      ZipBitsInjective(order, k, c);
    }
  }

  /** Over distinct names, each number below 2^n adds one new valuation. */
  lemma OneMoreEnumerated(order: seq<string>, c: nat)
    requires Distinct(order) && c < Pow2(|order|)
    ensures |Enumerated(order, c + 1)| == |Enumerated(order, c)| + 1
  {
    var pre := Enumerated(order, c);
    var z := Zip(order, Bits(c, |order|));
    NotYetEnumerated(order, c);
    assert Enumerated(order, c + 1) == pre + {z};
  }

  /** Sets that start empty and grow by one at each step have as many elements as steps. */
  lemma {:induction false} GrowingByOne(sets: nat -> set<Valuation>, c: nat)
    requires |sets(0)| == 0
    requires forall k :: 0 <= k < c ==> |sets(k + 1)| == |sets(k)| + 1
    ensures |sets(c)| == c
  {
    if c > 0 {
      GrowingByOne(sets, c - 1);
      assert |sets(c - 1 + 1)| == |sets(c - 1)| + 1;
    }
  }

  /** Over distinct names, each of the first c numbers adds a valuation. */
  lemma EnumeratedGrows(order: seq<string>, c: nat)
    requires Distinct(order) && c <= Pow2(|order|)
    ensures |Enumerated(order, 0)| == 0
    ensures forall k :: 0 <= k < c ==> |Enumerated(order, k + 1)| == |Enumerated(order, k)| + 1
  {
    assert Enumerated(order, 0) == {};
    forall k | 0 <= k < c
      ensures |Enumerated(order, k + 1)| == |Enumerated(order, k)| + 1
    {
      OneMoreEnumerated(order, k);
    }
  }

  /** Over distinct names, the first c numbers give c distinct valuations. */
  lemma EnumeratedSize(order: seq<string>, c: nat)
    requires Distinct(order) && c <= Pow2(|order|)
    ensures |Enumerated(order, c)| == c
  {
    EnumeratedGrows(order, c);
    GrowingByOne((k: nat) => Enumerated(order, k), c);
  }

  /**
   * All two-valued valuations over a domain: as a set it does not depend on
   * the order in which the domain is listed. There are 2^n of them.
   */
  ghost function AllTwoValued(dom: set<string>): (r: set<Valuation>)
    ensures forall v :: v in r <==> TwoValuedOver(v, dom)
    ensures |r| == Pow2(|dom|)
  {
    ListingExists(dom);
    var order :| Lists(order, dom);
    forall v
      ensures v in AllOver(order) <==> TwoValuedOver(v, dom)
    {
      AllOverCharacterization(order, v);
    }
    ListingLength(order);
    EnumeratedSize(order, Pow2(|order|));
    AllOver(order)
  }

  /**
   * The iterator of ValuationIterator.java. `variables` and `vector` are its
   * two arrays (the names never change after construction); `done` and
   * `update` are its two flags.
   */
  class ValuationIterator {
    const variables: seq<string>
    const vector: array<Value>
    var done: bool
    var update: bool

    ghost predicate Valid()
      reads this, vector
    {
      vector.Length == |variables| && Distinct(variables) &&
      forall i :: 0 <= i < vector.Length ==> IsDecided(vector[i])
    }

    /**
     * Copies the domain into the name array in the set's iteration order and
     * starts from the all-FALSE vector, with both flags down.
     */
    constructor (domain: set<string>)
      ensures Valid() && fresh(vector)
      ensures Lists(variables, domain) && |variables| == |domain|
      ensures vector[..] == Falses(|domain|) && !done && !update
    {
      var names: seq<string> := [];
      var rest := domain;
      while rest != {}
        invariant Names(names) + rest == domain && Names(names) !! rest && Distinct(names)
        decreases rest
      {
        var s :| s in rest;
        names := names + [s];
        rest := rest - {s};
      }
      ListingLength(names);
      var a := new Value[|names|];
      for i := 0 to a.Length
        invariant forall j :: 0 <= j < i ==> a[j] == FALSE
      {
        a[i] := FALSE;
      }
      variables := names;
      vector := a;
      done := false;
      update := false;
    }

    /**
     * hasNext(): when an update is pending, advances the counter by one step,
     * raising `done` on a carry out of the last position; then clears the
     * pending update. Answers whether the enumeration goes on.
     */
    method HasNext() returns (more: bool)
      requires Valid()
      modifies this`done, this`update, vector
      ensures Valid() && !update && more == !done
      ensures old(update) ==> vector[..] == Increment(old(vector[..])).0 &&
                              done == (old(done) || Increment(old(vector[..])).1)
      ensures !old(update) ==> vector[..] == old(vector[..]) && done == old(done)
    {
      if update {
        ghost var before := vector[..];
        var i := 0;
        while i < vector.Length
          invariant 0 <= i <= vector.Length
          invariant forall k :: 0 <= k < i ==> before[k] != FALSE && vector[k] == FALSE
          invariant forall k :: i <= k < vector.Length ==> vector[k] == before[k]
          invariant done == (old(done) || (i == vector.Length && i > 0))
        {
          if vector[i] == FALSE {
            vector[i] := TRUE;
            IncrementAtFirstFalse(before, i);
            assert vector[..] == Falses(i) + [TRUE] + before[i + 1..];
            break;
          } else {
            vector[i] := FALSE;
            if i == vector.Length - 1 {
              done := true;
            }
          }
          i := i + 1;
        }
        if i == vector.Length {
          IncrementWithoutFalse(before);
          assert vector[..] == Falses(i);
        }
        update := false;
      }
      more := !done;
    }

    /**
     * next(): fails once the enumeration is done (Java throws
     * NoSuchElementException); otherwise returns the valuation pairing each
     * name with its position's value and marks an update as pending. The
     * vector itself is not changed.
     */
    method Next() returns (r: Option<Valuation>)
      requires Valid()
      modifies this`update
      ensures old(done) ==> r == None && update == old(update)
      ensures !old(done) ==> r == Some(Zip(variables, vector[..])) && update
    {
      if done {
        return None;
      }
      var v: Valuation := map[];
      for i := 0 to vector.Length
        invariant v == Zip(variables[..i], vector[..i])
      {
        assert variables[..i + 1][..i] == variables[..i] && vector[..i + 1][..i] == vector[..i];
        v := v[variables[i] := vector[i]];
      }
      assert variables[..vector.Length] == variables && vector[..vector.Length] == vector[..];
      update := true;
      r := Some(v);
    }
  }

  /** The members of s that `keep` accepts. */
  function Kept(s: set<Valuation>, keep: Valuation -> bool): set<Valuation>
  {
    set v | v in s && keep(v)
  }

  /** What the enumeration loop has kept after the numbers below c. */
  function KeptBelow(order: seq<string>, c: nat, keep: Valuation -> bool): set<Valuation>
  {
    if c == 0 then {}
    else
      var z := Zip(order, Bits(c - 1, |order|));
      KeptBelow(order, c - 1, keep) + (if keep(z) then {z} else {})
  }

  lemma {:induction false} KeptBelowIsKept(order: seq<string>, c: nat, keep: Valuation -> bool)
    ensures KeptBelow(order, c, keep) == Kept(Enumerated(order, c), keep)
  {
    if c > 0 {
      KeptBelowIsKept(order, c - 1, keep);
    }
  }

  /** Keeping from everything the counter produces keeps exactly the accepted two-valued valuations. */
  lemma KeptAllOver(order: seq<string>, keep: Valuation -> bool)
    ensures forall v :: v in Kept(AllOver(order), keep) <==> TwoValuedOver(v, Names(order)) && keep(v)
  {
    forall v
      ensures v in AllOver(order) <==> TwoValuedOver(v, Names(order))
    {
      AllOverCharacterization(order, v);
    }
  }

  /**
   * The loop's view of the iterator: no update pending, `more` says whether
   * the enumeration goes on, and while it does the vector holds the digits
   * of pos.
   */
  ghost predicate StandsAt(it: ValuationIterator, pos: nat, more: bool)
    reads it, it.vector
  {
    it.Valid() && !it.update && more == !it.done &&
    pos <= Pow2(|it.variables|) && more == (pos < Pow2(|it.variables|)) &&
    (more ==> it.vector[..] == Bits(pos, |it.variables|))
  }

  /**
   * One round of the enumeration loop on an iterator standing at number pos:
   * next() yields the valuation of pos, and the following hasNext() moves to
   * pos + 1, or reports the end after the largest number.
   */
  method Round(it: ValuationIterator, ghost pos: nat) returns (v: Valuation, more: bool)
    requires StandsAt(it, pos, true) && |it.variables| > 0
    modifies it`done, it`update, it.vector
    ensures StandsAt(it, pos + 1, more)
    ensures v == Zip(it.variables, Bits(pos, |it.variables|))
  {
    var next := it.Next();
    v := next.value;
    IncrementBits(pos, |it.variables|);
    more := it.HasNext();
  }

  /** The valuation of number c is kept after those below c exactly when `keep` accepts it. */
  lemma KeepsOneMore(order: seq<string>, c: nat, keep: Valuation -> bool, v: Valuation)
    requires v == Zip(order, Bits(c, |order|))
    ensures KeptBelow(order, c + 1, keep) == KeptBelow(order, c, keep) + (if keep(v) then {v} else {})
  {
  }

  /**
   * The loop `while (it.hasNext()) { v = it.next(); ... }` over an iterator
   * that has produced nothing yet: keeps, in enumeration order, the
   * valuations `keep` accepts, until hasNext() reports the end.
   */
  method Drain(it: ValuationIterator, keep: Valuation -> bool) returns (r: set<Valuation>)
    requires it.Valid() && !it.update && !it.done && |it.variables| > 0
    requires it.vector[..] == Bits(0, |it.variables|)
    modifies it, it.vector
    ensures r == KeptBelow(it.variables, Pow2(|it.variables|), keep)
  {
    r := {};
    ghost var order := it.variables;
    ghost var pos: nat := 0;
    var more := it.HasNext();
    while more
      invariant Draining(it, order, pos, more, r, keep)
      decreases Pow2(|order|) - pos
    {
      r, more := DrainRound(it, keep, order, pos, r);
      pos := pos + 1;
    }
  }

  /** The loop's invariant: the iterator stands at pos, and r holds what was kept below pos. */
  ghost predicate Draining(it: ValuationIterator, order: seq<string>, pos: nat, more: bool,
                           r: set<Valuation>, keep: Valuation -> bool)
    reads it, it.vector
  {
    StandsAt(it, pos, more) && it.variables == order && r == KeptBelow(order, pos, keep)
  }

  /** One round of the loop: the valuation of pos is kept when `keep` accepts it. */
  method DrainRound(it: ValuationIterator, keep: Valuation -> bool, ghost order: seq<string>, ghost pos: nat,
                    r: set<Valuation>) returns (r': set<Valuation>, more: bool)
    requires Draining(it, order, pos, true, r, keep) && |order| > 0
    modifies it`done, it`update, it.vector
    ensures Draining(it, order, pos + 1, more, r', keep)
  {
    var v;
    v, more := Round(it, pos);
    KeepsOneMore(order, pos, keep, v);
    r' := r;
    if keep(v) {
      r' := r + {v};
    }
  }

  /**
   * The enumeration shared by ConcreteMultiEvent.getAllValuations and the
   * symbolic multi-event queries: a fresh iterator over `domain`, drained,
   * keeping the valuations `keep` accepts. The domain must not be empty: over
   * an empty domain the iterator never raises `done` and the Java loop does
   * not end.
   */
  method CollectValuations(domain: set<string>, keep: Valuation -> bool) returns (r: set<Valuation>)
    requires domain != {}
    ensures forall v :: v in r <==> TwoValuedOver(v, domain) && keep(v)
  {
    var it := new ValuationIterator(domain);
    BitsOfZero(|it.variables|);
    r := Drain(it, keep);
    KeptBelowIsKept(it.variables, Pow2(|it.variables|), keep);
    KeptAllOver(it.variables, keep);
  }
}
