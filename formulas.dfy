/**
 * Propositional formulas: BeepBeep function trees whose leaves are
 * propositional variables and constants and whose inner nodes are Troolean
 * connectives. The connectives belong to the Troolean library, so a node
 * carries its connective as an opaque function of its operands' values.
 */
module Formulas {
  import opened Troolean
  import opened Valuations
  import opened BinaryCounter

  datatype Formula =
    | Constant(value: Value)
    | Variable(name: string)
    | Connective(op: seq<Value> -> Value, operands: seq<Formula>)

  /** PropositionalVariable.get(name): the leaf that reads variable `name`. */
  function GetVariable(name: string): (f: Formula)
    ensures f.Variable? && f.name == name
  {
    Variable(name)
  }

  /**
   * PropositionalVariable.getValue: the variable's entry in the valuation, or
   * INCONCLUSIVE when the valuation has no entry for it.
   */
  function VariableValue(name: string, v: Valuation): (r: Value)
    ensures name in v ==> r == v[name]
    ensures name !in v ==> r == INCONCLUSIVE
  {
    if name in v then v[name] else INCONCLUSIVE
  }

  /** Two valuations that agree on whether x is present and on its value. */
  predicate AgreeOn(v: Valuation, w: Valuation, x: string)
  {
    (x in v <==> x in w) && (x in v ==> v[x] == w[x])
  }

  /** A variable leaf looks at its own entry only. */
  lemma VariableValueIsLocal(name: string, v: Valuation, w: Valuation)
    requires AgreeOn(v, w, name)
    ensures VariableValue(name, v) == VariableValue(name, w)
  {
  }

  /** evaluate(v): the value of the tree on the valuation. */
  function Eval(f: Formula, v: Valuation): Value
    decreases f, 1
  {
    match f
    case Constant(b) => b
    case Variable(n) => VariableValue(n, v)
    case Connective(op, xs) => op(EvalAll(xs, v))
  }

  /** The values of a node's operands, in order. */
  function EvalAll(xs: seq<Formula>, v: Valuation): (r: seq<Value>)
    ensures |r| == |xs|
    decreases xs, 0
  {
    if xs == [] then [] else [Eval(xs[0], v)] + EvalAll(xs[1..], v)
  }

  /** The names of the variable leaves of a formula. */
  function Domain(f: Formula): set<string>
    decreases f, 1
  {
    match f
    case Constant(_) => {}
    case Variable(n) => {n}
    case Connective(_, xs) => DomainAll(xs)
  }

  /** The names of the variable leaves of a list of operands. */
  function DomainAll(xs: seq<Formula>): set<string>
    decreases xs, 0
  {
    if xs == [] then {} else Domain(xs[0]) + DomainAll(xs[1..])
  }

  /** The value of a formula depends only on the entries of its variables. */
  lemma {:induction false} EvalIsLocal(f: Formula, v: Valuation, w: Valuation)
    requires forall x :: x in Domain(f) ==> AgreeOn(v, w, x)
    ensures Eval(f, v) == Eval(f, w)
    decreases f, 1
  {
    match f
    case Constant(_) =>
    case Variable(n) =>
      assert n in Domain(f);
    case Connective(op, xs) =>
      EvalAllIsLocal(xs, v, w);
  }

  lemma {:induction false} EvalAllIsLocal(xs: seq<Formula>, v: Valuation, w: Valuation)
    requires forall x :: x in DomainAll(xs) ==> AgreeOn(v, w, x)
    ensures EvalAll(xs, v) == EvalAll(xs, w)
    decreases xs, 0
  {
    if xs != [] {
      EvalIsLocal(xs[0], v, w);
      EvalAllIsLocal(xs[1..], v, w);
    }
  }

  /** A leaf read through Eval returns the entry, or INCONCLUSIVE when absent. */
  lemma EvalVariable(name: string, v: Valuation)
    ensures name in v ==> Eval(GetVariable(name), v) == v[name]
    ensures name !in v ==> Eval(GetVariable(name), v) == INCONCLUSIVE
  {
  }

  /**
   * The valuation put together at a leaf of generateAllValuations: vars[j]
   * paired with values[j] while both arrays last, later names overriding
   * earlier ones.
   */
  function ZipMin(names: seq<string>, values: seq<Value>): (r: Valuation)
    ensures r.Keys == Names(names[..if |names| <= |values| then |names| else |values|])
  {
    var m := if |names| <= |values| then |names| else |values|;
    Zip(names[..m], values[..m])
  }

  /**
   * The TRUE-evaluating leaves of the recursion started at a scratch array
   * whose positions before it hold `prefix`, with k positions left to fill:
   * each position gets INCONCLUSIVE first, then TRUE.
   */
  function TrueLeaves(f: Formula, vars: seq<string>, prefix: seq<Value>, k: nat): set<Valuation>
    decreases k
  {
    if k == 0 then
      var v := ZipMin(vars, prefix);
      if Eval(f, v) == TRUE then {v} else {}
    else
      TrueLeaves(f, vars, prefix + [INCONCLUSIVE], k - 1) + TrueLeaves(f, vars, prefix + [TRUE], k - 1)
  }

  /** The words of s with x put in front. */
  function Prefixed(s: set<seq<Value>>, x: Value): set<seq<Value>>
  {
    set c | c in s :: [x] + c
  }

  /** The fillings the recursion tries for k positions: every word over {INCONCLUSIVE, TRUE}. */
  function Completions(k: nat): set<seq<Value>>
  {
    if k == 0 then {[]} else Prefixed(Completions(k - 1), INCONCLUSIVE) + Prefixed(Completions(k - 1), TRUE)
  }

  /** A word the recursion writes: no position holds FALSE. */
  predicate NeverFalse(c: seq<Value>)
  {
    forall i :: 0 <= i < |c| ==> c[i] == INCONCLUSIVE || c[i] == TRUE
  }

  /** The fillings are exactly the words of length k without FALSE. */
  lemma {:induction false} CompletionsMembers(k: nat, c: seq<Value>)
    ensures c in Completions(k) <==> |c| == k && NeverFalse(c)
  {
    if k > 0 {
      if |c| == k && NeverFalse(c) {
        CompletionsMembers(k - 1, c[1..]);
        assert c == [c[0]] + c[1..];
      }
      if c in Completions(k) {
        var d :| d in Completions(k - 1) && (c == [INCONCLUSIVE] + d || c == [TRUE] + d);
        CompletionsMembers(k - 1, d);
      }
    } else {
      assert |c| == 0 ==> c == [];
    }
  }

  /** Putting one value in front keeps the number of words. */
  lemma {:induction false} PrefixedSize(s: set<seq<Value>>, x: Value)
    ensures |Prefixed(s, x)| == |s|
    decreases s
  {
    if s != {} {
      var d :| d in s;
      PrefixedSize(s - {d}, x);
      assert Prefixed(s, x) == Prefixed(s - {d}, x) + {[x] + d};
      forall e | e in s - {d}
        ensures [x] + e != [x] + d
      {
        assert ([x] + e)[1..] == e && ([x] + d)[1..] == d;
      }
      assert [x] + d !in Prefixed(s - {d}, x);
    }
  }

  /** The recursion reaches exactly 2^k leaves. */
  lemma {:induction false} CompletionsSize(k: nat)
    ensures |Completions(k)| == Pow2(k)
  {
    if k > 0 {
      CompletionsSize(k - 1);
      PrefixedSize(Completions(k - 1), INCONCLUSIVE);
      PrefixedSize(Completions(k - 1), TRUE);
      var a := Prefixed(Completions(k - 1), INCONCLUSIVE);
      var b := Prefixed(Completions(k - 1), TRUE);
      assert a !! b by {
        forall c | c in a
          ensures c !in b
        {
          assert c[0] == INCONCLUSIVE;
        }
      }
      assert |a + b| == |a| + |b|;
    }
  }

  /** The full scratch-array contents reached from `prefix` with k positions left. */
  function Extensions(prefix: seq<Value>, k: nat): set<seq<Value>>
  {
    set c | c in Completions(k) :: prefix + c
  }

  /** Splitting the extensions on the value at the first open position. */
  lemma ExtensionsSplit(prefix: seq<Value>, k: nat)
    requires k > 0
    ensures Extensions(prefix, k) == Extensions(prefix + [INCONCLUSIVE], k - 1) + Extensions(prefix + [TRUE], k - 1)
  {
    forall x, d
      ensures prefix + ([x] + d) == prefix + [x] + d
    {
    }
    forall w | w in Extensions(prefix + [INCONCLUSIVE], k - 1)
      ensures w in Extensions(prefix, k)
    {
      var d :| d in Completions(k - 1) && w == prefix + [INCONCLUSIVE] + d;
      assert [INCONCLUSIVE] + d in Completions(k);
    }
    forall w | w in Extensions(prefix + [TRUE], k - 1)
      ensures w in Extensions(prefix, k)
    {
      var d :| d in Completions(k - 1) && w == prefix + [TRUE] + d;
      assert [TRUE] + d in Completions(k);
    }
  }

  /**
   * The valuations of the scratch-array contents in W that make the formula
   * TRUE: what the leaves reached by those contents add to the accumulator.
   */
  function TrueOf(f: Formula, vars: seq<string>, W: set<seq<Value>>): set<Valuation>
  {
    set w | w in W && Eval(f, ZipMin(vars, w)) == TRUE :: ZipMin(vars, w)
  }

  lemma TrueOfUnion(f: Formula, vars: seq<string>, A: set<seq<Value>>, B: set<seq<Value>>)
    ensures TrueOf(f, vars, A + B) == TrueOf(f, vars, A) + TrueOf(f, vars, B)
  {
  }

  lemma ExtensionsZero(prefix: seq<Value>)
    ensures Extensions(prefix, 0) == {prefix}
  {
    assert prefix + [] == prefix;
  }

  lemma ExtensionsOfEmpty(k: nat)
    ensures Extensions([], k) == Completions(k)
  {
    forall c: seq<Value>
      ensures [] + c == c
    {
    }
  }

  lemma TrueOfSingleton(f: Formula, vars: seq<string>, w: seq<Value>)
    ensures TrueOf(f, vars, {w}) == if Eval(f, ZipMin(vars, w)) == TRUE then {ZipMin(vars, w)} else {}
  {
  }

  /** One level of the recursion: the two branches together cover every filling. */
  lemma TrueLeavesStep(f: Formula, vars: seq<string>, prefix: seq<Value>, k: nat)
    requires k > 0
    requires TrueLeaves(f, vars, prefix + [INCONCLUSIVE], k - 1) == TrueOf(f, vars, Extensions(prefix + [INCONCLUSIVE], k - 1))
    requires TrueLeaves(f, vars, prefix + [TRUE], k - 1) == TrueOf(f, vars, Extensions(prefix + [TRUE], k - 1))
    ensures TrueLeaves(f, vars, prefix, k) == TrueOf(f, vars, Extensions(prefix, k))
  {
    var a := Extensions(prefix + [INCONCLUSIVE], k - 1);
    var b := Extensions(prefix + [TRUE], k - 1);
    calc {
      TrueLeaves(f, vars, prefix, k);
      TrueOf(f, vars, a) + TrueOf(f, vars, b);
      { TrueOfUnion(f, vars, a, b); }
      TrueOf(f, vars, a + b);
      { ExtensionsSplit(prefix, k); }
      TrueOf(f, vars, Extensions(prefix, k));
    }
  }

  /** What the recursion collects is the TRUE-evaluating leaves over all 2^k fillings. */
  lemma {:induction false} TrueLeavesAreTrueOf(f: Formula, vars: seq<string>, prefix: seq<Value>, k: nat)
    ensures TrueLeaves(f, vars, prefix, k) == TrueOf(f, vars, Extensions(prefix, k))
    decreases k
  {
    if k == 0 {
      ExtensionsZero(prefix);
      TrueOfSingleton(f, vars, prefix);
    } else {
      TrueLeavesAreTrueOf(f, vars, prefix + [INCONCLUSIVE], k - 1);
      TrueLeavesAreTrueOf(f, vars, prefix + [TRUE], k - 1);
      TrueLeavesStep(f, vars, prefix, k);
    }
  }

  /**
   * The leaf of generateAllValuations: pairs vars[j] with values[j] for as
   * many positions as both have, later duplicates of a name overwriting
   * earlier ones.
   */
  method LeafValuation(vars: seq<string>, values: array<Value>) returns (v: Valuation)
    ensures v == ZipMin(vars, values[..])
  {
    v := map[];
    var j := 0;
    while j < |vars| && j < values.Length
      invariant j <= |vars| && j <= values.Length
      invariant v == Zip(vars[..j], values[..j])
    {
      assert vars[..j + 1][..j] == vars[..j] && values[..j + 1][..j] == values[..j];
      v := v[vars[j] := values[j]];
      j := j + 1;
    }
    assert values[..][..j] == values[..j];
  }

  /**
   * generateAllValuations(vars, values, i, trueValuations). The Java set
   * `trueValuations` is filled in place; here it goes in as a parameter and
   * comes back as `acc`. The returned reference is `r`: null (None) from a
   * leaf call, the accumulator from every other call. Positions before i are
   * never written; every position from i on ends up TRUE, the last value tried.
   */
  method GenerateAllValuations(f: Formula, vars: seq<string>, values: array<Value>, i: nat,
                               trueValuations: set<Valuation>)
    returns (acc: set<Valuation>, r: Option<set<Valuation>>)
    requires i <= values.Length
    modifies values
    ensures values[..i] == old(values[..i])
    ensures forall j :: i <= j < values.Length ==> values[j] == TRUE
    ensures acc == trueValuations + TrueLeaves(f, vars, old(values[..i]), values.Length - i)
    ensures r == if i == values.Length then None else Some(acc)
    decreases values.Length - i
  {
    if i == values.Length {
      var v := LeafValuation(vars, values);
      assert values[..] == values[..i];
      acc := trueValuations;
      if Eval(f, v) == TRUE {
        acc := acc + {v};
      }
      return acc, None;
    }
    ghost var prefix := values[..i];
    values[i] := INCONCLUSIVE;
    assert values[..i + 1] == prefix + [INCONCLUSIVE];
    acc, r := GenerateAllValuations(f, vars, values, i + 1, trueValuations);
    assert values[..i] == values[..i + 1][..i];
    values[i] := TRUE;
    assert values[..i + 1] == prefix + [TRUE];
    acc, r := GenerateAllValuations(f, vars, values, i + 1, acc);
    assert values[..i] == values[..i + 1][..i];
    return acc, Some(acc);
  }

  /**
   * A top-level call over n >= 1 variables with an n-slot scratch array
   * returns the valuations, over all 2^n {INCONCLUSIVE, TRUE} fillings, that
   * make the formula TRUE; with no variables it returns null.
   */
  method TrueValuations(f: Formula, vars: seq<string>) returns (r: Option<set<Valuation>>)
    ensures |vars| == 0 ==> r == None
    ensures |vars| > 0 ==> r == Some(TrueOf(f, vars, Completions(|vars|)))
  {
    var values := new Value[|vars|](_ => INCONCLUSIVE);
    assert values[..0] == [];
    var acc;
    acc, r := GenerateAllValuations(f, vars, values, 0, {});
    ghost var leaves := TrueLeaves(f, vars, [], |vars|);
    assert acc == {} + leaves;
    assert acc == leaves;
    TrueLeavesAreTrueOf(f, vars, [], |vars|);
    ExtensionsOfEmpty(|vars|);
  }

  /** Every leaf collected over the full completions is a two-or-unknown valuation of vars. */
  lemma TrueOfMembersSound(f: Formula, vars: seq<string>, v: Valuation)
    requires v in TrueOf(f, vars, Completions(|vars|))
    ensures v.Keys == Names(vars) && Eval(f, v) == TRUE && forall x :: x in v ==> v[x] != FALSE
  {
    var n := |vars|;
    var c :| c in Completions(n) && Eval(f, ZipMin(vars, c)) == TRUE && v == ZipMin(vars, c);
    CompletionsMembers(n, c);
    assert vars[..n] == vars && c[..n] == c;
    forall x | x in v
      ensures v[x] != FALSE
    {
      ZipValuesFrom(vars, c, x);
    }
  }

  /** Every such valuation making the formula TRUE is collected. */
  lemma TrueOfMembersComplete(f: Formula, vars: seq<string>, v: Valuation)
    requires v.Keys == Names(vars) && Eval(f, v) == TRUE && forall x :: x in v ==> v[x] != FALSE
    ensures v in TrueOf(f, vars, Completions(|vars|))
  {
    var n := |vars|;
    var c := seq(n, i requires 0 <= i < n => v[vars[i]]);
    ZipOfOwnValues(vars, v);
    CompletionsMembers(n, c);
    assert vars[..n] == vars && c[..n] == c;
    assert ZipMin(vars, c) == v;
  }

  /** TrueValuations collects exactly the valuations of vars that avoid FALSE and make the formula TRUE. */
  lemma TrueOfMembers(f: Formula, vars: seq<string>, v: Valuation)
    ensures v in TrueOf(f, vars, Completions(|vars|)) <==>
            v.Keys == Names(vars) && Eval(f, v) == TRUE && forall x :: x in v ==> v[x] != FALSE
  {
    if v in TrueOf(f, vars, Completions(|vars|)) {
      TrueOfMembersSound(f, vars, v);
    }
    if v.Keys == Names(vars) && Eval(f, v) == TRUE && forall x :: x in v ==> v[x] != FALSE {
      TrueOfMembersComplete(f, vars, v);
    }
  }
}
