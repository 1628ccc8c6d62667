/**
 * Multi-events: sets of valuations, given either explicitly
 * (ConcreteMultiEvent) or as the TRUE set of a formula (SymbolicMultiEvent),
 * and the intersection that the monitor uses to match an input against a
 * transition guard.
 */
module MultiEvents {
  import opened Troolean
  import opened Valuations
  import opened Formulas
  import opened Iteration
  import opened BinaryCounter

  /**
   * A multi-event. `isAll` marks an instance of ConcreteMultiEvent.All, which
   * intersection treats specially. SymbolicAll and SymbolicNothing are the two
   * singletons SymbolicMultiEvent.ALL and NOTHING, whose classes override or
   * are tested for by the monitor; a plain Symbolic(f) is any other symbolic
   * multi-event, even one whose formula is a constant.
   */
  datatype MultiEvent =
    | Concrete(valuations: set<Valuation>, isAll: bool)
    | Symbolic(formula: Formula)
    | SymbolicAll
    | SymbolicNothing

  /** The two-valued assignments over dom on which f is TRUE. */
  ghost function TrueOver(f: Formula, dom: set<string>): (r: set<Valuation>)
    ensures forall v :: v in r <==> TwoValuedOver(v, dom) && Eval(f, v) == TRUE
  {
    set v | v in AllTwoValued(dom) && Eval(f, v) == TRUE
  }

  /** The valuations of a concrete set on which a formula is TRUE. */
  function Satisfying(s: set<Valuation>, f: Formula): (r: set<Valuation>)
    ensures forall v :: v in r <==> v in s && Eval(f, v) == TRUE
  {
    set v | v in s && Eval(f, v) == TRUE
  }

  /** The assignments over both domains on which both formulas are TRUE. */
  ghost function JointlyTrue(f: Formula, g: Formula): (r: set<Valuation>)
    ensures forall v :: v in r <==>
              TwoValuedOver(v, Domain(f) + Domain(g)) && Eval(g, v) == TRUE && Eval(f, v) == TRUE
  {
    set v | v in AllTwoValued(Domain(f) + Domain(g)) && Eval(g, v) == TRUE && Eval(f, v) == TRUE
  }

  /**
   * getFormula(): the formula of a symbolic multi-event; ALL holds the
   * constant TRUE and NOTHING the constant FALSE, neither with a variable.
   */
  function FormulaOf(e: MultiEvent): (r: Formula)
    requires !e.Concrete?
    ensures e.Symbolic? ==> r == e.formula
    ensures e.SymbolicAll? ==> Domain(r) == {} && forall v :: Eval(r, v) == TRUE
    ensures e.SymbolicNothing? ==> Domain(r) == {} && forall v :: Eval(r, v) == FALSE
  {
    match e
    case Symbolic(f) => f
    case SymbolicAll => Constant(TRUE)
    case SymbolicNothing => Constant(FALSE)
  }

  /** new ConcreteMultiEvent(): no valuation. */
  function EmptyEvent(): (e: MultiEvent)
    ensures e.Concrete? && !e.isAll && Vals(e) == {}
  {
    Concrete({}, false)
  }

  /** new ConcreteMultiEvent(set): a copy of the set. */
  function FromSet(s: set<Valuation>): (e: MultiEvent)
    ensures e.Concrete? && !e.isAll && Vals(e) == s
  {
    Concrete(s, false)
  }

  /** new ConcreteMultiEvent(v): exactly one valuation. */
  function FromValuation(v: Valuation): (e: MultiEvent)
    ensures e.Concrete? && !e.isAll && Vals(e) == {v} && |Vals(e)| == 1
  {
    Concrete({v}, false)
  }

  /** new ConcreteMultiEvent.Nothing(vars): no valuation, whatever the variables. */
  function ConcreteNothing(vars: set<string>): (e: MultiEvent)
    ensures e.Concrete? && !e.isAll && Vals(e) == {}
  {
    Concrete({}, false)
  }

  /** A multi-event whose valuations can be listed without looping forever. */
  predicate Enumerable(e: MultiEvent)
  {
    e.Concrete? || Domain(FormulaOf(e)) != {}
  }

  /**
   * getValuations(): the stored set of a concrete event; for a symbolic one,
   * the two-valued assignments over its formula's variables that make the
   * formula TRUE.
   */
  ghost function Vals(e: MultiEvent): set<Valuation>
  {
    if e.Concrete? then e.valuations else TrueOver(FormulaOf(e), Domain(FormulaOf(e)))
  }

  /** The pairs for which getIntersection terminates. */
  predicate IntersectionDefined(e: MultiEvent, c: MultiEvent)
  {
    match e
    case Concrete(_, _) => true
    case SymbolicAll => Enumerable(c)
    case _ => c.Concrete? || Domain(FormulaOf(e)) + Domain(FormulaOf(c)) != {}
  }

  /**
   * e.getIntersection(c), dispatched first on the receiver and then on the
   * argument, following the overrides of ConcreteMultiEvent,
   * SymbolicMultiEvent and SymbolicMultiEvent.All.
   */
  ghost function Intersection(e: MultiEvent, c: MultiEvent): set<Valuation>
  {
    match e
    case Concrete(a, _) =>
      (match c
       case Concrete(b, isAll) => if isAll then a else a * b
       case SymbolicAll => a
       case SymbolicNothing => {}
       case Symbolic(g) => Satisfying(a, g))
    case SymbolicAll => Vals(c)
    case _ =>
      if c.Concrete? then Satisfying(c.valuations, FormulaOf(e))
      else JointlyTrue(FormulaOf(e), FormulaOf(c))
  }

  /**
   * A symbolic multi-event's valuations are exactly the two-valued
   * assignments over its variables that make its formula TRUE; none of them
   * holds INCONCLUSIVE.
   */
  lemma SymbolicVals(e: MultiEvent, v: Valuation)
    requires !e.Concrete?
    ensures v in Vals(e) <==> v.Keys == Domain(FormulaOf(e)) && Eval(FormulaOf(e), v) == TRUE &&
                              forall x :: x in v ==> v[x] == TRUE || v[x] == FALSE
  {
  }

  /** ALL and NOTHING hold no variable, so they cannot be enumerated on their own. */
  lemma ConstantsNotEnumerable()
    ensures !Enumerable(SymbolicAll) && !Enumerable(SymbolicNothing)
  {
  }

  /** A concrete event and a symbolic one meet in the same set whichever is the receiver. */
  lemma MixedIntersectionCommutes(a: set<Valuation>, isAll: bool, o: MultiEvent)
    requires !o.Concrete?
    ensures Intersection(Concrete(a, isAll), o) == Intersection(o, Concrete(a, isAll))
  {
    if o.SymbolicNothing? {
      assert Satisfying(a, FormulaOf(o)) == {};
    } else if o.Symbolic? {
      assert FormulaOf(o) == o.formula;
    }
  }

  /** Two symbolic events meet in the same set whichever is the receiver. */
  lemma SymbolicIntersectionCommutes(e: MultiEvent, c: MultiEvent)
    requires !e.Concrete? && !c.Concrete?
    requires IntersectionDefined(e, c) && IntersectionDefined(c, e)
    ensures Intersection(e, c) == Intersection(c, e)
  {
    if e.SymbolicAll? || c.SymbolicAll? {
      var o := if e.SymbolicAll? then c else e;
      var f := FormulaOf(o);
      assert Domain(f) + Domain(FormulaOf(SymbolicAll)) == Domain(f);
      assert Intersection(o, SymbolicAll) == JointlyTrue(f, FormulaOf(SymbolicAll));
      assert Vals(o) == TrueOver(f, Domain(f));
    } else {
      var f, g := FormulaOf(e), FormulaOf(c);
      assert Domain(f) + Domain(g) == Domain(g) + Domain(f);
    }
  }

  /**
   * Intersection is commutative as a set, whatever the variants, as long as
   * neither operand is a ConcreteMultiEvent.All and both orders terminate.
   */
  lemma IntersectionCommutes(e: MultiEvent, c: MultiEvent)
    requires !(e.Concrete? && e.isAll) && !(c.Concrete? && c.isAll)
    requires IntersectionDefined(e, c) && IntersectionDefined(c, e)
    ensures Intersection(e, c) == Intersection(c, e)
  {
    if e.Concrete? && c.Concrete? {
    } else if e.Concrete? {
      MixedIntersectionCommutes(e.valuations, e.isAll, c);
    } else if c.Concrete? {
      MixedIntersectionCommutes(c.valuations, c.isAll, e);
    } else {
      SymbolicIntersectionCommutes(e, c);
    }
  }

  /** The valuations of ConcreteMultiEvent.All(vars): every two-valued assignment to vars. */
  ghost function ConcreteAllSpec(vars: set<string>): (e: MultiEvent)
    ensures e.Concrete? && e.isAll
    ensures forall v :: v in Vals(e) <==> TwoValuedOver(v, vars)
    ensures |Vals(e)| == Pow2(|vars|)
  {
    Concrete(AllTwoValued(vars), true)
  }

  /**
   * With ConcreteMultiEvent.All the order matters: a concrete event over
   * other variables meets All({x}) in all of its valuations one way round
   * and in none the other way round.
   */
  lemma ConcreteAllIsOneSided()
    ensures var a := FromValuation(map["y" := TRUE]);
            var all := ConcreteAllSpec({"x"});
            Intersection(a, all) == {map["y" := TRUE]} && Intersection(all, a) == {}
  {
    var all := ConcreteAllSpec({"x"});
    assert map["y" := TRUE] !in Vals(all) by {
      assert "y" in map["y" := TRUE];
    }
  }

  /** SymbolicMultiEvent.ALL is neutral: its intersection with any event is that event's valuations. */
  lemma AllIsNeutral(c: MultiEvent)
    requires !(c.Concrete? && c.isAll) && !c.SymbolicAll?
    requires Enumerable(c)
    ensures Intersection(SymbolicAll, c) == Vals(c)
    ensures Intersection(c, SymbolicAll) == Vals(c)
  {
    IntersectionCommutes(SymbolicAll, c);
  }

  /** SymbolicMultiEvent.NOTHING is absorbing: every intersection with it is empty. */
  lemma NothingIsAbsorbing(c: MultiEvent)
    requires IntersectionDefined(SymbolicNothing, c)
    ensures Intersection(SymbolicNothing, c) == {}
    ensures IntersectionDefined(c, SymbolicNothing) ==> Intersection(c, SymbolicNothing) == {}
  {
    if c.Concrete? {
      assert Satisfying(c.valuations, FormulaOf(SymbolicNothing)) == {};
    }
  }

  /**
   * A concrete operand bounds the intersection: the result only keeps
   * valuations that operand holds.
   */
  lemma IntersectionWithinConcrete(e: MultiEvent, c: MultiEvent)
    ensures e.Concrete? ==> Intersection(e, c) <= e.valuations
    ensures c.Concrete? && !e.Concrete? ==> Intersection(e, c) <= c.valuations
  {
  }

  /** A symbolic pair meets exactly on the two-valued assignments over both domains that satisfy both formulas. */
  lemma SymbolicIntersectionMembers(e: MultiEvent, c: MultiEvent, v: Valuation)
    requires !e.Concrete? && !e.SymbolicAll? && !c.Concrete?
    ensures v in Intersection(e, c) <==>
              TwoValuedOver(v, Domain(FormulaOf(e)) + Domain(FormulaOf(c))) &&
              Eval(FormulaOf(e), v) == TRUE && Eval(FormulaOf(c), v) == TRUE
  {
  }

  /**
   * The loops of intersectsWith over a concrete set: the members the test
   * accepts, gathered one at a time into a fresh set.
   */
  method Select(s: set<Valuation>, keep: Valuation -> bool) returns (r: set<Valuation>)
    ensures r == Kept(s, keep)
  {
    r := {};
    var rest := s;
    while rest != {}
      invariant rest <= s
      invariant r == Kept(s - rest, keep)
      decreases rest
    {
      var v :| v in rest;
      if keep(v) {
        r := r + {v};
      }
      rest := rest - {v};
      assert s - rest == (s - (rest + {v})) + {v};
    }
    assert s - rest == s;
  }

  /** getValuations(). */
  method GetValuations(e: MultiEvent) returns (r: set<Valuation>)
    requires Enumerable(e)
    ensures r == Vals(e)
  {
    if e.Concrete? {
      r := e.valuations;
    } else {
      var f := FormulaOf(e);
      r := CollectValuations(Domain(f), v => Eval(f, v) == TRUE);
    }
  }

  /** getAllValuations(vars) and the All(vars) constructor built on it. */
  method ConcreteAll(vars: set<string>) returns (e: MultiEvent)
    requires vars != {}
    ensures e == ConcreteAllSpec(vars)
  {
    var s := CollectValuations(vars, v => true);
    e := Concrete(s, true);
  }

  /**
   * ConcreteMultiEvent.getDomain(): the keys of whichever valuation the
   * iteration meets first, or nothing for an empty event; for a symbolic
   * event, the variables of its formula.
   */
  method GetDomain(e: MultiEvent) returns (r: set<string>)
    ensures e.Concrete? && e.valuations == {} ==> r == {}
    ensures e.Concrete? && e.valuations != {} ==> exists v :: v in e.valuations && r == v.Keys
    ensures !e.Concrete? ==> r == Domain(FormulaOf(e))
  {
    if e.Concrete? {
      if e.valuations == {} {
        r := {};
      } else {
        var v :| v in e.valuations;
        r := v.Keys;
      }
    } else {
      r := Domain(FormulaOf(e));
    }
  }

  /** getIntersection(c) on e. */
  method GetIntersection(e: MultiEvent, c: MultiEvent) returns (r: set<Valuation>)
    requires IntersectionDefined(e, c)
    ensures r == Intersection(e, c)
  {
    match e
    case Concrete(a, _) =>
      match c {
        case Concrete(b, isAll) =>
          if isAll {
            r := a;
          } else {
            r := Select(a, v => v in b);
          }
        case SymbolicAll =>
          r := a;
        case SymbolicNothing =>
          r := {};
        case Symbolic(g) =>
          r := Select(a, v => Eval(g, v) == TRUE);
      }
    case SymbolicAll =>
      r := GetValuations(c);
    case _ =>
      var f := FormulaOf(e);
      if c.Concrete? {
        r := Select(c.valuations, v => Eval(f, v) == TRUE);
      } else {
        var g := FormulaOf(c);
        r := CollectValuations(Domain(f) + Domain(g), v => Eval(g, v) == TRUE && Eval(f, v) == TRUE);
      }
  }
}
