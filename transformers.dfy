/**
 * Multi-event functions: what a transition of the machine emits, computed
 * from the input multi-event. EmitConstant and Identity come from the
 * library; MergeVariables and BlurVariable are the two transformers of this
 * repository.
 */
module Transformers {
  import opened Troolean
  import opened Valuations
  import opened MultiEvents

  /** v.get(k): the entry, or null (None) when the key is absent. */
  function Lookup(v: Valuation, k: string): (r: Option<Value>)
    ensures r.Some? <==> k in v
    ensures r.Some? ==> r.value == v[k]
  {
    if k in v then Some(v[k]) else None
  }

  /**
   * v.put(k, o). A Java map can hold a null value under a key; a valuation
   * here cannot, so putting null is taken as leaving the key out.
   */
  function Put(v: Valuation, k: string, o: Option<Value>): (r: Valuation)
    ensures k in r <==> o.Some?
    ensures o.Some? ==> r[k] == o.value
    ensures forall y :: y != k ==> (y in r <==> y in v) && (y in r ==> r[y] == v[y])
  {
    match o
    case None => v - {k}
    case Some(b) => v[k := b]
  }

  /** The copy of v made in MergeVariables.getValue: x1 takes x2's entry and x2 takes x1's. */
  function Swap(v: Valuation, x1: string, x2: string): (r: Valuation)
    ensures x1 == x2 ==> r == v
    ensures x1 != x2 ==> Lookup(r, x1) == Lookup(v, x2) && Lookup(r, x2) == Lookup(v, x1)
    ensures forall y :: y != x1 && y != x2 ==> (y in r <==> y in v) && (y in r ==> r[y] == v[y])
  {
    Put(Put(v, x1, Lookup(v, x2)), x2, Lookup(v, x1))
  }

  /** Swapping the same two variables twice gives the valuation back. */
  lemma SwapInvolution(v: Valuation, x1: string, x2: string)
    ensures Swap(Swap(v, x1, x2), x1, x2) == v
  {
    var w := Swap(Swap(v, x1, x2), x1, x2);
    if x1 != x2 {
      assert Lookup(w, x1) == Lookup(v, x1) && Lookup(w, x2) == Lookup(v, x2);
      assert w.Keys == v.Keys;
    }
  }

  /** The swapped copies of every member of s. */
  function Swapped(s: set<Valuation>, x1: string, x2: string): (r: set<Valuation>)
    ensures forall v :: v in s ==> Swap(v, x1, x2) in r
    ensures forall w :: w in r ==> exists v :: v in s && w == Swap(v, x1, x2)
  {
    set v | v in s :: Swap(v, x1, x2)
  }

  lemma {:induction false} SwappedSize(s: set<Valuation>, x1: string, x2: string)
    ensures |Swapped(s, x1, x2)| <= |s|
    decreases s
  {
    if s != {} {
      var d :| d in s;
      SwappedSize(s - {d}, x1, x2);
      assert Swapped(s, x1, x2) == Swapped(s - {d}, x1, x2) + {Swap(d, x1, x2)};
    }
  }

  /** The valuation set built by MergeVariables.getValue: the input and every swapped copy. */
  function Merged(s: set<Valuation>, x1: string, x2: string): (r: set<Valuation>)
    ensures s <= r
    ensures forall v :: v in s ==> Swap(v, x1, x2) in r
    ensures forall w :: w in r ==> w in s || exists v :: v in s && w == Swap(v, x1, x2)
  {
    s + Swapped(s, x1, x2)
  }

  /** Merging at most doubles the number of valuations. */
  lemma MergedSize(s: set<Valuation>, x1: string, x2: string)
    ensures |Merged(s, x1, x2)| <= 2 * |s|
  {
    SwappedSize(s, x1, x2);
  }

  /** The output holds the swapped copy of each of its own members. */
  lemma MergedClosed(s: set<Valuation>, x1: string, x2: string, w: Valuation)
    requires w in Merged(s, x1, x2)
    ensures Swap(w, x1, x2) in Merged(s, x1, x2)
  {
    if w !in s {
      var v :| v in s && w == Swap(v, x1, x2);
      SwapInvolution(v, x1, x2);
    }
  }

  /** Merging the output of a merge adds nothing. */
  lemma MergedIdempotent(s: set<Valuation>, x1: string, x2: string)
    ensures Merged(Merged(s, x1, x2), x1, x2) == Merged(s, x1, x2)
  {
    forall w | w in Merged(s, x1, x2)
      ensures Swap(w, x1, x2) in Merged(s, x1, x2)
    {
      MergedClosed(s, x1, x2, w);
    }
  }

  /** Merging a variable with itself, or merging nothing, changes nothing. */
  lemma MergedTrivial(s: set<Valuation>, x1: string, x2: string)
    requires x1 == x2 || s == {}
    ensures Merged(s, x1, x2) == s
  {
  }

  /**
   * MergeVariables(x1, x2).getValue(e): a fresh concrete multi-event over the
   * merged valuations; the input is left as it is.
   */
  method MergeVariables(x1: string, x2: string, e: MultiEvent) returns (r: MultiEvent)
    requires Enumerable(e)
    ensures r.Concrete? && !r.isAll && Vals(r) == Merged(Vals(e), x1, x2)
  {
    var vals := GetValuations(e);
    r := FromSet(Merged(vals, x1, x2));
  }

  /**
   * The valuation v2 built in BlurVariable.getValue as written: it is filled
   * from itself, so it holds the blurred variable alone, FALSE when v has x
   * TRUE and TRUE otherwise.
   */
  function BlurredCopy(v: Valuation, x: string): (r: Valuation)
    ensures r.Keys == {x}
    ensures r[x] == FALSE <==> x in v && v[x] == TRUE
    ensures IsDecided(r[x])
  {
    map[x := if x in v && v[x] == TRUE then FALSE else TRUE]
  }

  /**
   * The copy as written loses every other variable: from {x = TRUE, y = TRUE}
   * it builds {x = FALSE}, where the documented copy is {x = FALSE, y = TRUE}.
   */
  lemma BlurredCopyDropsOthers()
    ensures var v := map["x" := TRUE, "y" := TRUE];
            "y" !in BlurredCopy(v, "x") && Flip(v, "x") == map["x" := FALSE, "y" := TRUE]
  {
    var v := map["x" := TRUE, "y" := TRUE];
    assert Flip(v, "x").Keys == {"x", "y"};
  }

  /**
   * BlurVariable(x).getValue(e) as written: the copies go into a set that is
   * then dropped, and the result wraps the input valuations.
   */
  method BlurVariable(x: string, e: MultiEvent) returns (r: MultiEvent)
    requires Enumerable(e)
    ensures r.Concrete? && !r.isAll && Vals(r) == Vals(e)
  {
    var vals := GetValuations(e);
    var dropped := vals + set v | v in vals :: BlurredCopy(v, x);
    r := FromSet(vals);
  }

  /** v with x's value flipped: FALSE when it was TRUE, TRUE otherwise. */
  function Flip(v: Valuation, x: string): (r: Valuation)
    ensures x in r && (r[x] == FALSE <==> x in v && v[x] == TRUE) && IsDecided(r[x])
    ensures forall y :: y != x ==> (y in r <==> y in v) && (y in r ==> r[y] == v[y])
  {
    v[x := if x in v && v[x] == TRUE then FALSE else TRUE]
  }

  /** Flipping a TRUE or FALSE entry twice gives the valuation back. */
  lemma FlipInvolution(v: Valuation, x: string)
    requires x in v && IsDecided(v[x])
    ensures Flip(Flip(v, x), x) == v
  {
    var w := Flip(Flip(v, x), x);
    assert w[x] == v[x];
    assert w.Keys == v.Keys;
  }

  /**
   * What BlurVariable's documentation promises: the input valuations and,
   * for each, the copy with x flipped.
   */
  function Blurred(s: set<Valuation>, x: string): (r: set<Valuation>)
    ensures s <= r
    ensures forall v :: v in s ==> Flip(v, x) in r
    ensures forall w :: w in r ==> w in s || exists v :: v in s && w == Flip(v, x)
  {
    s + set v | v in s :: Flip(v, x)
  }

  /**
   * When every input valuation gives x TRUE or FALSE, the blurred set holds
   * each of its valuations with x both ways: nothing can be concluded about x.
   */
  lemma BlurredHidesVariable(s: set<Valuation>, x: string, w: Valuation)
    requires forall v :: v in s ==> x in v && IsDecided(v[x])
    requires w in Blurred(s, x)
    ensures Flip(w, x) in Blurred(s, x)
  {
    if w !in s {
      var v :| v in s && w == Flip(v, x);
      FlipInvolution(v, x);
    }
  }

  /**
   * The code as written does not blur: from {x = TRUE} it returns {x = TRUE}
   * alone, whereas the documented result also holds {x = FALSE}.
   */
  lemma BlurAsWrittenKeepsVariable()
    ensures var s := {map["x" := TRUE]};
            map["x" := FALSE] in Blurred(s, "x") && map["x" := FALSE] !in Vals(FromSet(s))
  {
    var v := map["x" := TRUE];
    assert Flip(v, "x") == map["x" := FALSE];
    assert map["x" := FALSE] != v by {
      assert map["x" := FALSE]["x"] != v["x"];
    }
  }

  /**
   * The MultiEventFunction of a transition. EmitConstant(None) is EPSILON,
   * the constant that emits nothing (a null output).
   */
  datatype EventFunction =
    | EmitConstant(out: Option<MultiEvent>)
    | Identity
    | MergeVars(x1: string, x2: string)
    | BlurVar(x: string)

  /** MultiMonitor.NU: always emits SymbolicMultiEvent.ALL. */
  const NU: EventFunction := EmitConstant(Some(SymbolicAll))
  /** MultiMonitor.EMPTY: always emits SymbolicMultiEvent.NOTHING. */
  const EMPTY: EventFunction := EmitConstant(Some(SymbolicNothing))
  /** MultiMonitor.EPSILON: emits nothing. */
  const EPSILON: EventFunction := EmitConstant(None)

  /** The inputs on which getValue terminates: the transformers list the input's valuations. */
  predicate Applicable(fn: EventFunction, e: MultiEvent)
  {
    (fn.MergeVars? || fn.BlurVar?) ==> Enumerable(e)
  }

  /**
   * getValue(e) on a transition's function, None for null. Blurring is
   * taken as written: the input valuations come back unchanged.
   */
  ghost function Output(fn: EventFunction, e: MultiEvent): Option<MultiEvent>
  {
    match fn
    case EmitConstant(o) => o
    case Identity => Some(e)
    case MergeVars(x1, x2) => Some(Concrete(Merged(Vals(e), x1, x2), false))
    case BlurVar(x) => Some(Concrete(Vals(e), false))
  }

  /** getValue(e). */
  method ApplyFunction(fn: EventFunction, e: MultiEvent) returns (r: Option<MultiEvent>)
    requires Applicable(fn, e)
    ensures r == Output(fn, e)
  {
    match fn
    case EmitConstant(o) =>
      r := o;
    case Identity =>
      r := Some(e);
    case MergeVars(x1, x2) =>
      var m := MergeVariables(x1, x2, e);
      r := Some(m);
    case BlurVar(x) =>
      var b := BlurVariable(x, e);
      r := Some(b);
  }

  /**
   * The verdict the monitor reads off an output: TRUE for
   * SymbolicMultiEvent.ALL, FALSE for SymbolicMultiEvent.NOTHING,
   * INCONCLUSIVE for anything else, null included.
   */
  function Classify(o: Option<MultiEvent>): (r: Value)
    ensures r == TRUE <==> o.Some? && o.value.SymbolicAll?
    ensures r == FALSE <==> o.Some? && o.value.SymbolicNothing?
    ensures r == INCONCLUSIVE <==> o.None? || !(o.value.SymbolicAll? || o.value.SymbolicNothing?)
  {
    if o.Some? && o.value.SymbolicAll? then TRUE
    else if o.Some? && o.value.SymbolicNothing? then FALSE
    else INCONCLUSIVE
  }

  /**
   * NU yields TRUE, EMPTY FALSE and EPSILON INCONCLUSIVE; the two
   * transformers always build a concrete event, so they yield INCONCLUSIVE,
   * and the documented blur would yield the same verdict as the one written.
   */
  lemma VerdictOfFunctions(e: MultiEvent, fn: EventFunction)
    ensures Classify(Output(NU, e)) == TRUE
    ensures Classify(Output(EMPTY, e)) == FALSE
    ensures Classify(Output(EPSILON, e)) == INCONCLUSIVE
    ensures fn.MergeVars? || fn.BlurVar? ==> Classify(Output(fn, e)) == INCONCLUSIVE
    ensures fn.BlurVar? ==> Classify(Output(fn, e)) == Classify(Some(FromSet(Blurred(Vals(e), fn.x))))
  {
  }
}
