/**
 * MultiMonitor: the uni-monitor lifted to multi-events by path counting. For
 * every machine state it keeps the exact number of uni-traces that are in
 * it (sigma), and for each input multi-event it derives the new numbers and
 * how many of the traces produced each verdict at this step (beta).
 */
module Monitor {
  import opened Troolean
  import opened Sums
  import opened Valuations
  import opened MultiEvents
  import opened Transformers
  import opened Machines

  /**
   * One increment made during a step: `paths` uni-traces move to `dest`,
   * and the same number is added to the counter of `verdict`.
   */
  datatype Flow = Flow(dest: State, paths: nat, verdict: Value)

  /** The three verdict counters as a value. */
  datatype Tally = Tally(numTrue: nat, numFalse: nat, numInconclusive: nat)
  {
    /** The counter of verdict v. */
    function Get(v: Value): nat
    {
      match v
      case TRUE => numTrue
      case FALSE => numFalse
      case INCONCLUSIVE => numInconclusive
    }

    /** The counters after adding p to the one of v. */
    function Add(v: Value, p: nat): (r: Tally)
      ensures r.Get(v) == Get(v) + p
      ensures forall w :: w != v ==> r.Get(w) == Get(w)
    {
      match v
      case TRUE => Tally(numTrue + p, numFalse, numInconclusive)
      case FALSE => Tally(numTrue, numFalse + p, numInconclusive)
      case INCONCLUSIVE => Tally(numTrue, numFalse, numInconclusive + p)
    }

    function Plus(o: Tally): Tally
    {
      Tally(numTrue + o.numTrue, numFalse + o.numFalse, numInconclusive + o.numInconclusive)
    }

    /** The traces counted under any verdict. */
    function Total(): nat
    {
      numTrue + numFalse + numInconclusive
    }
  }

  /** The number of traces the flows send to d. */
  function Into(fs: seq<Flow>, d: State): nat
  {
    if fs == [] then 0
    else Into(fs[..|fs| - 1], d) + (if fs[|fs| - 1].dest == d then fs[|fs| - 1].paths else 0)
  }

  /** The number of traces the flows move, wherever they go. */
  function Weight(fs: seq<Flow>): nat
  {
    if fs == [] then 0 else Weight(fs[..|fs| - 1]) + fs[|fs| - 1].paths
  }

  /** The verdict counters the flows add up to. */
  function TallyOf(fs: seq<Flow>): Tally
  {
    if fs == [] then Tally(0, 0, 0)
    else TallyOf(fs[..|fs| - 1]).Add(fs[|fs| - 1].verdict, fs[|fs| - 1].paths)
  }

  /** The destinations of the flows. */
  function FlowDests(fs: seq<Flow>): set<State>
  {
    if fs == [] then {} else FlowDests(fs[..|fs| - 1]) + {fs[|fs| - 1].dest}
  }

  lemma FlowsAppend(fs: seq<Flow>, f: Flow)
    ensures (fs + [f])[..|fs|] == fs
    ensures forall d :: Into(fs + [f], d) == Into(fs, d) + (if f.dest == d then f.paths else 0)
    ensures Weight(fs + [f]) == Weight(fs) + f.paths
    ensures TallyOf(fs + [f]) == TallyOf(fs).Add(f.verdict, f.paths)
    ensures FlowDests(fs + [f]) == FlowDests(fs) + {f.dest}
  {
    assert (fs + [f])[..|fs|] == fs;
  }

  /** Every trace moved is counted under exactly one verdict. */
  lemma {:induction false} TallyOfTotal(fs: seq<Flow>)
    ensures TallyOf(fs).Total() == Weight(fs)
  {
    if fs != [] {
      TallyOfTotal(fs[..|fs| - 1]);
    }
  }

  /** Flows that each move some trace send traces to each of their destinations. */
  lemma {:induction false} IntoPositive(fs: seq<Flow>, d: State)
    requires forall i :: 0 <= i < |fs| ==> fs[i].paths > 0
    ensures Into(fs, d) > 0 <==> d in FlowDests(fs)
  {
    if fs != [] {
      var n := |fs| - 1;
      assert forall i :: 0 <= i < n ==> fs[..n][i] == fs[i];
      IntoPositive(fs[..n], d);
    }
  }

  /**
   * The valuations of the input taken by some ordinary transition of ts:
   * what the loop over the transitions removes from `to_evaluate`.
   */
  ghost function Matched(ts: seq<Transition>, e: MultiEvent): set<Valuation>
  {
    if ts == [] then {}
    else
      var t := ts[|ts| - 1];
      Matched(ts[..|ts| - 1], e) + (if t.Ordinary? then Intersection(e, t.cond) else {})
  }

  /** The flow of one transition that n traces take with m valuations each. */
  ghost function FlowOf(t: Transition, e: MultiEvent, n: nat, m: nat): Flow
  {
    Flow(t.dest, n * m, Classify(Output(t.fn, e)))
  }

  /**
   * The flows of the ordinary transitions of ts, in list order, out of a
   * state that n traces are in: each transition whose guard meets the input
   * takes the n traces once for each common valuation.
   */
  ghost function OrdinaryFlows(ts: seq<Transition>, e: MultiEvent, n: nat): seq<Flow>
  {
    if ts == [] then []
    else
      var t := ts[|ts| - 1];
      var rest := OrdinaryFlows(ts[..|ts| - 1], e, n);
      if t.Ordinary? && |Intersection(e, t.cond)| > 0
      then rest + [FlowOf(t, e, n, |Intersection(e, t.cond)|)]
      else rest
  }

  /** The input valuations that no ordinary transition of ts takes. */
  ghost function Remaining(ts: seq<Transition>, e: MultiEvent): set<Valuation>
  {
    Vals(e) - Matched(ts, e)
  }

  /**
   * The flow of the otherwise transition, if the state has one and some
   * input valuation is left for it.
   */
  ghost function OtherwiseFlow(ts: seq<Transition>, e: MultiEvent, n: nat): seq<Flow>
  {
    var o := LastOtherwise(ts);
    if o.Some? && Remaining(ts, e) != {} then [FlowOf(o.value, e, n, |Remaining(ts, e)|)] else []
  }

  /** Everything n traces in a state with transitions ts do on input e. */
  ghost function StateFlows(ts: seq<Transition>, e: MultiEvent, n: nat): seq<Flow>
  {
    OrdinaryFlows(ts, e, n) + OtherwiseFlow(ts, e, n)
  }

  /** The flows out of state s; a state with no trace in it is skipped. */
  ghost function FlowsAt(delta: Delta, sigma: map<State, nat>, e: MultiEvent, s: State): seq<Flow>
  {
    if ValueOr0(sigma, s) == 0 then [] else StateFlows(ListOf(delta, s), e, sigma[s])
  }

  /** The flows out of every state. */
  ghost function FlowsOf(delta: Delta, sigma: map<State, nat>, e: MultiEvent): State -> seq<Flow>
  {
    s => FlowsAt(delta, sigma, e, s)
  }

  /** Per source state: the traces its flows send to d. */
  function IntoW(F: State -> seq<Flow>, d: State): State -> nat
  {
    s => Into(F(s), d)
  }

  /** Per source state: the traces its flows move. */
  function WeightW(F: State -> seq<Flow>): State -> nat
  {
    s => Weight(F(s))
  }

  /** Per source state: the traces its flows count under verdict v. */
  function VerdictW(F: State -> seq<Flow>, v: Value): State -> nat
  {
    s => TallyOf(F(s)).Get(v)
  }

  /** The number of traces that arrive in d, added up over all source states. */
  ghost function Arrived(delta: Delta, sigma: map<State, nat>, e: MultiEvent, d: State): nat
  {
    SumOver(sigma.Keys, IntoW(FlowsOf(delta, sigma, e), d))
  }

  /** The number of traces moved by the step. */
  ghost function Produced(delta: Delta, sigma: map<State, nat>, e: MultiEvent): nat
  {
    SumOver(sigma.Keys, WeightW(FlowsOf(delta, sigma, e)))
  }

  /** The verdict counters of the flows out of the states of D. */
  ghost function TallyOver(F: State -> seq<Flow>, D: set<State>): Tally
  {
    Tally(SumOver(D, VerdictW(F, TRUE)), SumOver(D, VerdictW(F, FALSE)), SumOver(D, VerdictW(F, INCONCLUSIVE)))
  }

  /** The states some flow of the step goes to. */
  ghost function Targets(delta: Delta, sigma: map<State, nat>, e: MultiEvent): set<State>
  {
    set s, d | s in sigma.Keys && d in FlowDests(FlowsAt(delta, sigma, e, s)) :: d
  }

  /** sigma': the path count after input e. */
  ghost function NextSigma(delta: Delta, sigma: map<State, nat>, e: MultiEvent): map<State, nat>
  {
    map d | d in Targets(delta, sigma, e) :: Arrived(delta, sigma, e, d)
  }

  /** beta: the verdict counters of input e. */
  ghost function NextVerdicts(delta: Delta, sigma: map<State, nat>, e: MultiEvent): Tally
  {
    TallyOver(FlowsOf(delta, sigma, e), sigma.Keys)
  }

  /** Whether some transition was taken from some state: the step is not silent. */
  ghost predicate Taken(delta: Delta, sigma: map<State, nat>, e: MultiEvent)
  {
    TakenFrom(delta, sigma, e, sigma.Keys)
  }

  /** Whether some transition was taken from some state of D. */
  ghost predicate TakenFrom(delta: Delta, sigma: map<State, nat>, e: MultiEvent, D: set<State>)
  {
    exists s :: s in D && FlowsAt(delta, sigma, e, s) != []
  }

  /** Every flow of a state with traces in it moves at least one trace. */
  lemma {:induction false} OrdinaryFlowsPositive(ts: seq<Transition>, e: MultiEvent, n: nat)
    requires n > 0
    ensures forall i :: 0 <= i < |OrdinaryFlows(ts, e, n)| ==> OrdinaryFlows(ts, e, n)[i].paths > 0
  {
    if ts != [] {
      var k := |ts| - 1;
      var pre, t := OrdinaryFlows(ts[..k], e, n), ts[k];
      OrdinaryFlowsPositive(ts[..k], e, n);
      if t.Ordinary? && |Intersection(e, t.cond)| > 0 {
        var m := |Intersection(e, t.cond)|;
        ProductPositive(n, m);
        assert OrdinaryFlows(ts, e, n) == pre + [FlowOf(t, e, n, m)];
      } else {
        assert OrdinaryFlows(ts, e, n) == pre;
      }
    }
  }

  lemma FlowsAtPositive(delta: Delta, sigma: map<State, nat>, e: MultiEvent, s: State)
    ensures forall i :: 0 <= i < |FlowsAt(delta, sigma, e, s)| ==> FlowsAt(delta, sigma, e, s)[i].paths > 0
  {
    if ValueOr0(sigma, s) > 0 {
      var ts, n := ListOf(delta, s), sigma[s];
      OrdinaryFlowsPositive(ts, e, n);
      OtherwiseFlowPositive(ts, e, n);
      AllPositiveConcat(OrdinaryFlows(ts, e, n), OtherwiseFlow(ts, e, n));
    }
  }

  lemma OtherwiseFlowPositive(ts: seq<Transition>, e: MultiEvent, n: nat)
    requires n > 0
    ensures forall i :: 0 <= i < |OtherwiseFlow(ts, e, n)| ==> OtherwiseFlow(ts, e, n)[i].paths > 0
  {
    var b := OtherwiseFlow(ts, e, n);
    if b != [] {
      var m := |Remaining(ts, e)|;
      assert b[0].paths == n * m;
      ProductPositive(n, m);
    }
  }

  lemma AllPositiveConcat(a: seq<Flow>, b: seq<Flow>)
    requires forall i :: 0 <= i < |a| ==> a[i].paths > 0
    requires forall i :: 0 <= i < |b| ==> b[i].paths > 0
    ensures forall i :: 0 <= i < |a + b| ==> (a + b)[i].paths > 0
  {
    forall i | 0 <= i < |a + b|
      ensures (a + b)[i].paths > 0
    {
      if i >= |a| {
        assert (a + b)[i] == b[i - |a|];
      }
    }
  }

  lemma ProductPositive(n: nat, m: nat)
    requires n > 0 && m > 0
    ensures n * m > 0
  {
  }

  /**
   * The new path count holds exactly the states some traces arrived in,
   * each with the number that arrived.
   */
  lemma NextSigmaMembers(delta: Delta, sigma: map<State, nat>, e: MultiEvent, d: State)
    ensures d in NextSigma(delta, sigma, e) <==> Arrived(delta, sigma, e, d) > 0
    ensures ValueOr0(NextSigma(delta, sigma, e), d) == Arrived(delta, sigma, e, d)
  {
    var w := IntoW(FlowsOf(delta, sigma, e), d);
    SumOverPositive(sigma.Keys, w);
    if Arrived(delta, sigma, e, d) > 0 {
      var s :| s in sigma.Keys && w(s) > 0;
      FlowsAtPositive(delta, sigma, e, s);
      IntoPositive(FlowsAt(delta, sigma, e, s), d);
    }
    if d in Targets(delta, sigma, e) {
      var s :| s in sigma.Keys && d in FlowDests(FlowsAt(delta, sigma, e, s));
      FlowsAtPositive(delta, sigma, e, s);
      IntoPositive(FlowsAt(delta, sigma, e, s), d);
    }
  }

  /** Two path counts without zero entries that agree on every count are equal. */
  lemma SameCounts(m1: map<State, nat>, m2: map<State, nat>)
    requires forall d :: d in m1 ==> m1[d] > 0
    requires forall d :: d in m2 ==> m2[d] > 0
    requires forall d :: ValueOr0(m1, d) == ValueOr0(m2, d)
    ensures m1 == m2
  {
    assert forall d :: d in m1 <==> ValueOr0(m1, d) > 0;
    assert forall d :: d in m2 <==> ValueOr0(m2, d) > 0;
    assert forall d :: d in m1.Keys <==> d in m2.Keys;
    assert m1.Keys == m2.Keys;
    assert forall d :: d in m1 ==> m1[d] == ValueOr0(m1, d) == ValueOr0(m2, d) == m2[d];
  }

  /**
   * Every trace moved at a step is counted under exactly one verdict: the
   * three counters add up to the number of traces moved.
   */
  lemma VerdictsCountEveryPath(delta: Delta, sigma: map<State, nat>, e: MultiEvent)
    ensures NextVerdicts(delta, sigma, e).Total() == Produced(delta, sigma, e)
  {
    TallyOverTotal(FlowsOf(delta, sigma, e), sigma.Keys);
  }

  lemma TallyOverTotal(F: State -> seq<Flow>, D: set<State>)
    ensures TallyOver(F, D).Total() == SumOver(D, WeightW(F))
  {
    var wt, wf, wi := VerdictW(F, TRUE), VerdictW(F, FALSE), VerdictW(F, INCONCLUSIVE);
    var wtf: State -> nat := s => wt(s) + wf(s);
    forall s | s in D
      ensures WeightW(F)(s) == wtf(s) + wi(s)
    {
      TallyOfTotal(F(s));
    }
    SumOverAddWeights(D, wtf, wi, WeightW(F));
    SumOverAddWeights(D, wt, wf, wtf);
  }

  /**
   * A state without traces contributes nothing: leaving its zero entry out
   * gives the same new path count and the same verdicts.
   */
  lemma ZeroCountContributesNothing(delta: Delta, sigma: map<State, nat>, e: MultiEvent, s: State)
    requires s in sigma && sigma[s] == 0
    ensures NextSigma(delta, sigma, e) == NextSigma(delta, sigma - {s}, e)
    ensures NextVerdicts(delta, sigma, e) == NextVerdicts(delta, sigma - {s}, e)
    ensures Taken(delta, sigma, e) <==> Taken(delta, sigma - {s}, e)
  {
    ZeroArrived(delta, sigma, e, s);
    ZeroVerdicts(delta, sigma, e, s);
    ZeroTaken(delta, sigma, e, s);
  }

  lemma ZeroFlows(delta: Delta, sigma: map<State, nat>, e: MultiEvent, s: State)
    requires s in sigma && sigma[s] == 0
    ensures (sigma - {s}).Keys == sigma.Keys - {s}
    ensures forall x :: FlowsAt(delta, sigma, e, x) == FlowsAt(delta, sigma - {s}, e, x)
  {
    assert (sigma - {s}).Keys == sigma.Keys - {s};
  }

  lemma ZeroArrived(delta: Delta, sigma: map<State, nat>, e: MultiEvent, s: State)
    requires s in sigma && sigma[s] == 0
    ensures NextSigma(delta, sigma, e) == NextSigma(delta, sigma - {s}, e)
  {
    var sigma' := sigma - {s};
    ZeroFlows(delta, sigma, e, s);
    forall d
      ensures Arrived(delta, sigma, e, d) == Arrived(delta, sigma', e, d)
    {
      SumOverRemove(sigma.Keys, IntoW(FlowsOf(delta, sigma, e), d), s);
      SumOverCongruent(sigma'.Keys, IntoW(FlowsOf(delta, sigma, e), d), IntoW(FlowsOf(delta, sigma', e), d));
    }
    forall d
      ensures ValueOr0(NextSigma(delta, sigma, e), d) == ValueOr0(NextSigma(delta, sigma', e), d)
    {
      NextSigmaMembers(delta, sigma, e, d);
      NextSigmaMembers(delta, sigma', e, d);
    }
    forall d | d in NextSigma(delta, sigma, e)
      ensures NextSigma(delta, sigma, e)[d] > 0
    {
      NextSigmaMembers(delta, sigma, e, d);
    }
    forall d | d in NextSigma(delta, sigma', e)
      ensures NextSigma(delta, sigma', e)[d] > 0
    {
      NextSigmaMembers(delta, sigma', e, d);
    }
    SameCounts(NextSigma(delta, sigma, e), NextSigma(delta, sigma', e));
  }

  lemma ZeroVerdicts(delta: Delta, sigma: map<State, nat>, e: MultiEvent, s: State)
    requires s in sigma && sigma[s] == 0
    ensures NextVerdicts(delta, sigma, e) == NextVerdicts(delta, sigma - {s}, e)
  {
    ZeroVerdict(delta, sigma, e, s, TRUE);
    ZeroVerdict(delta, sigma, e, s, FALSE);
    ZeroVerdict(delta, sigma, e, s, INCONCLUSIVE);
  }

  lemma ZeroVerdict(delta: Delta, sigma: map<State, nat>, e: MultiEvent, s: State, v: Value)
    requires s in sigma && sigma[s] == 0
    ensures SumOver(sigma.Keys, VerdictW(FlowsOf(delta, sigma, e), v))
            == SumOver((sigma - {s}).Keys, VerdictW(FlowsOf(delta, sigma - {s}, e), v))
  {
    var sigma' := sigma - {s};
    ZeroFlows(delta, sigma, e, s);
    SumOverRemove(sigma.Keys, VerdictW(FlowsOf(delta, sigma, e), v), s);
    SumOverCongruent(sigma'.Keys, VerdictW(FlowsOf(delta, sigma, e), v), VerdictW(FlowsOf(delta, sigma', e), v));
  }

  lemma ZeroTaken(delta: Delta, sigma: map<State, nat>, e: MultiEvent, s: State)
    requires s in sigma && sigma[s] == 0
    ensures Taken(delta, sigma, e) <==> Taken(delta, sigma - {s}, e)
  {
    ZeroFlows(delta, sigma, e, s);
    if Taken(delta, sigma, e) {
      var x :| x in sigma.Keys && FlowsAt(delta, sigma, e, x) != [];
      assert x != s;
      assert x in (sigma - {s}).Keys;
    }
  }

  /**
   * Per transition of ts, in list order: the input valuations it takes,
   * that is its guard's intersection with the input for an ordinary
   * transition and nothing for an otherwise transition.
   */
  ghost function Meets(ts: seq<Transition>, e: MultiEvent): seq<set<Valuation>>
  {
    if ts == [] then []
    else
      var t := ts[|ts| - 1];
      Meets(ts[..|ts| - 1], e) + [if t.Ordinary? then Intersection(e, t.cond) else {}]
  }

  /**
   * Within one state, the guards of the ordinary transitions take pairwise
   * disjoint sets of input valuations: no valuation is taken twice.
   */
  ghost predicate GuardsPartition(ts: seq<Transition>, e: MultiEvent)
  {
    PairwiseDisjoint(Meets(ts, e)) && forall i :: 0 <= i < |Meets(ts, e)| ==> Meets(ts, e)[i] <= Vals(e)
  }

  lemma MeetsAppend(ts: seq<Transition>, e: MultiEvent)
    requires ts != []
    ensures |Meets(ts, e)| == |ts|
    ensures Meets(ts, e)[..|ts| - 1] == Meets(ts[..|ts| - 1], e)
  {
    var pre := Meets(ts[..|ts| - 1], e);
    MeetsLength(ts[..|ts| - 1], e);
    assert Meets(ts, e)[..|pre|] == pre;
  }

  lemma {:induction false} MeetsLength(ts: seq<Transition>, e: MultiEvent)
    ensures |Meets(ts, e)| == |ts|
  {
    if ts != [] {
      MeetsLength(ts[..|ts| - 1], e);
    }
  }

  /**
   * The ordinary transitions take the union of what their guards take and
   * move n traces for each valuation each of them takes.
   */
  lemma {:induction false} OrdinaryWeight(ts: seq<Transition>, e: MultiEvent, n: nat)
    ensures Matched(ts, e) == UnionOf(Meets(ts, e))
    ensures Weight(OrdinaryFlows(ts, e, n)) == n * SizeSum(Meets(ts, e))
  {
    if ts != [] {
      var k := |ts| - 1;
      var pre, t := ts[..k], ts[k];
      OrdinaryWeight(pre, e, n);
      var before := OrdinaryFlows(pre, e, n);
      var ms := Meets(ts, e);
      MeetsAppend(ts, e);
      var m := ms[k];
      var a, b := SizeSum(Meets(pre, e)), |m|;
      assert ms == Meets(pre, e) + [m];
      assert UnionOf(ms) == UnionOf(Meets(pre, e)) + m;
      assert SizeSum(ms) == a + b;
      Distribute(n, a, b, SizeSum(ms));
      if t.Ordinary? && b > 0 {
        FlowsAppend(before, FlowOf(t, e, n, b));
        assert Weight(OrdinaryFlows(ts, e, n)) == n * a + n * b;
      } else {
        assert b == 0 && n * b == 0;
        assert OrdinaryFlows(ts, e, n) == before;
      }
      assert Weight(OrdinaryFlows(ts, e, n)) == n * SizeSum(ms);
    } else {
      assert Weight(OrdinaryFlows(ts, e, n)) == 0 == SizeSum(Meets(ts, e));
    }
  }

  /**
   * A state with disjoint guards and an otherwise transition sends each of
   * its n traces on for every valuation of the input: n * |E| in all.
   */
  lemma StateWeight(ts: seq<Transition>, e: MultiEvent, n: nat)
    requires GuardsPartition(ts, e) && LastOtherwise(ts).Some?
    ensures Weight(StateFlows(ts, e, n)) == n * |Vals(e)|
  {
    OrdinaryWeight(ts, e, n);
    RemainingSize(ts, e);
    var m, r := SizeSum(Meets(ts, e)), |Remaining(ts, e)|;
    var a, b := OrdinaryFlows(ts, e, n), OtherwiseFlow(ts, e, n);
    assert StateFlows(ts, e, n) == a + b;
    assert Weight(a + b) == n * m + n * r by {
      if r > 0 {
        var f := FlowOf(LastOtherwise(ts).value, e, n, r);
        assert b == [f];
        FlowsAppend(a, f);
      } else {
        assert b == [] && a + b == a;
        assert n * r == 0;
      }
    }
    Distribute(n, m, r, |Vals(e)|);
  }

  /** With disjoint guards, the valuations taken and those left over make up the input. */
  lemma RemainingSize(ts: seq<Transition>, e: MultiEvent)
    requires GuardsPartition(ts, e)
    ensures |Matched(ts, e)| == SizeSum(Meets(ts, e))
    ensures |Vals(e)| == SizeSum(Meets(ts, e)) + |Remaining(ts, e)|
  {
    OrdinaryWeight(ts, e, 0);
    DisjointUnionSize(Meets(ts, e), Vals(e));
    SplitSize(Vals(e), Matched(ts, e));
  }

  /**
   * When every state with traces in it has disjoint guards and an otherwise
   * transition, each trace is extended by every valuation of the input: the
   * step moves sum(sigma) * |E| traces.
   */
  lemma PathCountScales(delta: Delta, sigma: map<State, nat>, e: MultiEvent)
    requires forall s :: s in sigma && sigma[s] > 0 ==>
               GuardsPartition(ListOf(delta, s), e) && LastOtherwise(ListOf(delta, s)).Some?
    ensures Produced(delta, sigma, e) == |Vals(e)| * SumMap(sigma)
  {
    var F := FlowsOf(delta, sigma, e);
    forall s | s in sigma.Keys
      ensures WeightW(F)(s) == |Vals(e)| * ValueOr0(sigma, s)
    {
      StateScales(delta, sigma, e, s);
    }
    SumOverScale(sigma.Keys, x => ValueOr0(sigma, x), |Vals(e)|, WeightW(F));
  }

  lemma StateScales(delta: Delta, sigma: map<State, nat>, e: MultiEvent, s: State)
    requires s in sigma && sigma[s] > 0 ==>
               GuardsPartition(ListOf(delta, s), e) && LastOtherwise(ListOf(delta, s)).Some?
    ensures WeightW(FlowsOf(delta, sigma, e))(s) == |Vals(e)| * ValueOr0(sigma, s)
  {
    var k := |Vals(e)|;
    assert WeightW(FlowsOf(delta, sigma, e))(s) == Weight(FlowsAt(delta, sigma, e, s));
    if ValueOr0(sigma, s) > 0 {
      var n := sigma[s];
      assert FlowsAt(delta, sigma, e, s) == StateFlows(ListOf(delta, s), e, n);
      StateWeight(ListOf(delta, s), e, n);
      assert n * k == k * n;
    } else {
      assert FlowsAt(delta, sigma, e, s) == [];
      assert k * 0 == 0;
    }
  }

  /** A flow sends at least its own traces to its destination. */
  lemma {:induction false} IntoAtLeast(fs: seq<Flow>, f: Flow)
    requires f in fs
    ensures Into(fs, f.dest) >= f.paths
  {
    var k := |fs| - 1;
    if fs[k] != f {
      assert f in fs[..k] by {
        var j :| 0 <= j < |fs| && fs[j] == f;
        assert fs[..k][j] == f;
      }
      IntoAtLeast(fs[..k], f);
    }
  }

  /**
   * Whatever a flow out of a state with traces in it carries arrives in its
   * destination, which is then in the new path count.
   */
  lemma FlowArrives(delta: Delta, sigma: map<State, nat>, e: MultiEvent, s: State, f: Flow)
    requires s in sigma && f in FlowsAt(delta, sigma, e, s) && f.paths > 0
    ensures f.dest in NextSigma(delta, sigma, e)
    ensures NextSigma(delta, sigma, e)[f.dest] >= f.paths
  {
    var w := IntoW(FlowsOf(delta, sigma, e), f.dest);
    IntoAtLeast(FlowsAt(delta, sigma, e, s), f);
    SumOverRemove(sigma.Keys, w, s);
    NextSigmaMembers(delta, sigma, e, f.dest);
  }

  /** Each ordinary transition whose guard meets the input has its flow. */
  lemma {:induction false} OrdinaryFlowPresent(ts: seq<Transition>, e: MultiEvent, n: nat, i: int)
    requires 0 <= i < |ts| && ts[i].Ordinary? && |Intersection(e, ts[i].cond)| > 0
    ensures FlowOf(ts[i], e, n, |Intersection(e, ts[i].cond)|) in OrdinaryFlows(ts, e, n)
    decreases |ts|, 1
  {
    if i < |ts| - 1 {
      EarlierFlowPresent(ts, e, n, i);
    } else {
      var k := |ts| - 1;
      var pre, f := OrdinaryFlows(ts[..k], e, n), FlowOf(ts[i], e, n, |Intersection(e, ts[i].cond)|);
      assert OrdinaryFlows(ts, e, n) == pre + [f];
      assert (pre + [f])[|pre|] == f;
    }
  }

  lemma {:induction false} EarlierFlowPresent(ts: seq<Transition>, e: MultiEvent, n: nat, i: int)
    requires 0 <= i < |ts| - 1 && ts[i].Ordinary? && |Intersection(e, ts[i].cond)| > 0
    ensures FlowOf(ts[i], e, n, |Intersection(e, ts[i].cond)|) in OrdinaryFlows(ts, e, n)
    decreases |ts|, 0
  {
    var pre, t := ts[..|ts| - 1], ts[i];
    assert pre[i] == t;
    OrdinaryFlowPresent(pre, e, n, i);
    OrdinaryFlowsGrow(ts, e, n, FlowOf(t, e, n, |Intersection(e, t.cond)|));
  }

  /** The flows of a prefix stay among the flows of the whole list. */
  lemma OrdinaryFlowsGrow(ts: seq<Transition>, e: MultiEvent, n: nat, f: Flow)
    requires ts != [] && f in OrdinaryFlows(ts[..|ts| - 1], e, n)
    ensures f in OrdinaryFlows(ts, e, n)
  {
    var pre, t := OrdinaryFlows(ts[..|ts| - 1], e, n), ts[|ts| - 1];
    if t.Ordinary? && |Intersection(e, t.cond)| > 0 {
      assert OrdinaryFlows(ts, e, n) == pre + [FlowOf(t, e, n, |Intersection(e, t.cond)|)];
    }
  }

  /**
   * An ordinary transition t of a state s with traces in it, whose guard
   * meets the input in I, sends sigma[s] * |I| traces to its destination:
   * that state is in the new path count with at least this many.
   */
  lemma TransitionContributes(delta: Delta, sigma: map<State, nat>, e: MultiEvent, s: State, i: int)
    requires s in sigma && sigma[s] > 0
    requires 0 <= i < |ListOf(delta, s)| && ListOf(delta, s)[i].Ordinary?
    requires |Intersection(e, ListOf(delta, s)[i].cond)| > 0
    ensures ListOf(delta, s)[i].dest in NextSigma(delta, sigma, e)
    ensures NextSigma(delta, sigma, e)[ListOf(delta, s)[i].dest]
              >= sigma[s] * |Intersection(e, ListOf(delta, s)[i].cond)|
  {
    var ts := ListOf(delta, s);
    var m := |Intersection(e, ts[i].cond)|;
    var f := FlowOf(ts[i], e, sigma[s], m);
    OrdinaryFlowPresent(ts, e, sigma[s], i);
    ProductPositive(sigma[s], m);
    FlowArrives(delta, sigma, e, s, f);
  }

  /**
   * The otherwise transition of a state s with traces in it takes the input
   * valuations no guard took, if there are any: its destination receives at
   * least sigma[s] times their number.
   */
  lemma OtherwiseContributes(delta: Delta, sigma: map<State, nat>, e: MultiEvent, s: State)
    requires s in sigma && sigma[s] > 0
    requires LastOtherwise(ListOf(delta, s)).Some? && Remaining(ListOf(delta, s), e) != {}
    ensures LastOtherwise(ListOf(delta, s)).value.dest in NextSigma(delta, sigma, e)
    ensures NextSigma(delta, sigma, e)[LastOtherwise(ListOf(delta, s)).value.dest]
              >= sigma[s] * |Remaining(ListOf(delta, s), e)|
  {
    var ts := ListOf(delta, s);
    var m := |Remaining(ts, e)|;
    var f := FlowOf(LastOtherwise(ts).value, e, sigma[s], m);
    OtherwiseFlowIn(delta, sigma, e, s, f);
    ProductPositive(sigma[s], m);
    FlowArrives(delta, sigma, e, s, f);
  }

  /** The flow of the otherwise transition is among the flows of its state. */
  lemma OtherwiseFlowIn(delta: Delta, sigma: map<State, nat>, e: MultiEvent, s: State, f: Flow)
    requires s in sigma && sigma[s] > 0
    requires LastOtherwise(ListOf(delta, s)).Some? && Remaining(ListOf(delta, s), e) != {}
    requires f == FlowOf(LastOtherwise(ListOf(delta, s)).value, e, sigma[s], |Remaining(ListOf(delta, s), e)|)
    ensures f in FlowsAt(delta, sigma, e, s)
  {
    FlowsAtLive(delta, sigma, e, s);
    OtherwiseFlowInState(ListOf(delta, s), e, sigma[s], f);
  }

  lemma FlowsAtLive(delta: Delta, sigma: map<State, nat>, e: MultiEvent, s: State)
    requires s in sigma && sigma[s] > 0
    ensures FlowsAt(delta, sigma, e, s) == StateFlows(ListOf(delta, s), e, sigma[s])
  {
  }

  lemma OtherwiseFlowInState(ts: seq<Transition>, e: MultiEvent, n: nat, f: Flow)
    requires LastOtherwise(ts).Some? && Remaining(ts, e) != {}
    requires f == FlowOf(LastOtherwise(ts).value, e, n, |Remaining(ts, e)|)
    ensures f in StateFlows(ts, e, n)
  {
    assert OtherwiseFlow(ts, e, n) == [f];
    assert StateFlows(ts, e, n)[|OrdinaryFlows(ts, e, n)|] == f;
  }

  /**
   * The step is silent exactly when the new path count is empty; an empty
   * path count stays empty and silent, so after one silent step every later
   * step is silent too.
   */
  lemma SilentStep(delta: Delta, sigma: map<State, nat>, e: MultiEvent)
    ensures Taken(delta, sigma, e) <==> NextSigma(delta, sigma, e) != map[]
    ensures sigma == map[] ==> NextSigma(delta, sigma, e) == map[] && !Taken(delta, sigma, e)
  {
    if Taken(delta, sigma, e) {
      var s :| s in sigma && FlowsAt(delta, sigma, e, s) != [];
      var f := FlowsAt(delta, sigma, e, s)[0];
      FlowsAtPositive(delta, sigma, e, s);
      FlowArrives(delta, sigma, e, s, f);
    }
    if NextSigma(delta, sigma, e) != map[] {
      var d :| d in NextSigma(delta, sigma, e);
      var s :| s in sigma.Keys && d in FlowDests(FlowsAt(delta, sigma, e, s));
      assert FlowsAt(delta, sigma, e, s) != [];
    }
    if sigma == map[] {
      assert Targets(delta, sigma, e) == {};
    }
  }

  /** A map without zero entries that gives every state the traces arriving in it is the new path count. */
  lemma NextSigmaIs(delta: Delta, sigma: map<State, nat>, e: MultiEvent, m: map<State, nat>)
    requires forall d :: d in m ==> m[d] > 0
    requires forall d :: Arrived(delta, sigma, e, d) == ValueOr0(m, d)
    ensures NextSigma(delta, sigma, e) == m
  {
    forall d
      ensures ValueOr0(NextSigma(delta, sigma, e), d) == ValueOr0(m, d)
    {
      NextSigmaMembers(delta, sigma, e, d);
    }
    forall d | d in NextSigma(delta, sigma, e)
      ensures NextSigma(delta, sigma, e)[d] > 0
    {
      NextSigmaMembers(delta, sigma, e, d);
    }
    SameCounts(NextSigma(delta, sigma, e), m);
  }

  /** A step from one state s with n traces is what the flows of s make of it. */
  lemma OneStateStep(delta: Delta, s: State, n: nat, e: MultiEvent)
    requires n > 0
    ensures forall d :: Arrived(delta, map[s := n], e, d) == Into(StateFlows(ListOf(delta, s), e, n), d)
    ensures NextVerdicts(delta, map[s := n], e) == TallyOf(StateFlows(ListOf(delta, s), e, n))
  {
    var sigma := map[s := n];
    var F := FlowsOf(delta, sigma, e);
    assert sigma.Keys == {s};
    assert F(s) == StateFlows(ListOf(delta, s), e, n);
    forall d
      ensures Arrived(delta, sigma, e, d) == Into(F(s), d)
    {
      SumOverSmall(s, s + 1, IntoW(F, d));
    }
    SumOverSmall(s, s + 1, VerdictW(F, TRUE));
    SumOverSmall(s, s + 1, VerdictW(F, FALSE));
    SumOverSmall(s, s + 1, VerdictW(F, INCONCLUSIVE));
  }

  /** A step from two states is what their flows make of it together. */
  lemma TwoStateStep(delta: Delta, s1: State, n1: nat, s2: State, n2: nat, e: MultiEvent)
    requires n1 > 0 && n2 > 0 && s1 != s2
    ensures forall d :: Arrived(delta, map[s1 := n1, s2 := n2], e, d)
                        == Into(StateFlows(ListOf(delta, s1), e, n1), d) + Into(StateFlows(ListOf(delta, s2), e, n2), d)
    ensures NextVerdicts(delta, map[s1 := n1, s2 := n2], e)
            == TallyOf(StateFlows(ListOf(delta, s1), e, n1)).Plus(TallyOf(StateFlows(ListOf(delta, s2), e, n2)))
  {
    TwoStateArrived(delta, s1, n1, s2, n2, e);
    TwoStateVerdicts(delta, s1, n1, s2, n2, e);
  }

  lemma TwoStateArrived(delta: Delta, s1: State, n1: nat, s2: State, n2: nat, e: MultiEvent)
    requires n1 > 0 && n2 > 0 && s1 != s2
    ensures forall d :: Arrived(delta, map[s1 := n1, s2 := n2], e, d)
                        == Into(StateFlows(ListOf(delta, s1), e, n1), d) + Into(StateFlows(ListOf(delta, s2), e, n2), d)
  {
    var sigma := map[s1 := n1, s2 := n2];
    var F := FlowsOf(delta, sigma, e);
    var f1, f2 := StateFlows(ListOf(delta, s1), e, n1), StateFlows(ListOf(delta, s2), e, n2);
    assert sigma.Keys == {s1, s2};
    PairFlows(delta, s1, n1, s2, n2, e);
    forall d
      ensures Arrived(delta, sigma, e, d) == Into(f1, d) + Into(f2, d)
    {
      PairInto(F, s1, s2, d);
      assert Arrived(delta, sigma, e, d) == SumOver({s1, s2}, IntoW(F, d));
    }
  }

  lemma TwoStateVerdicts(delta: Delta, s1: State, n1: nat, s2: State, n2: nat, e: MultiEvent)
    requires n1 > 0 && n2 > 0 && s1 != s2
    ensures NextVerdicts(delta, map[s1 := n1, s2 := n2], e)
            == TallyOf(StateFlows(ListOf(delta, s1), e, n1)).Plus(TallyOf(StateFlows(ListOf(delta, s2), e, n2)))
  {
    var sigma := map[s1 := n1, s2 := n2];
    assert sigma.Keys == {s1, s2};
    PairFlows(delta, s1, n1, s2, n2, e);
    PairTally(FlowsOf(delta, sigma, e), s1, s2);
  }

  lemma PairFlows(delta: Delta, s1: State, n1: nat, s2: State, n2: nat, e: MultiEvent)
    requires n1 > 0 && n2 > 0 && s1 != s2
    ensures FlowsOf(delta, map[s1 := n1, s2 := n2], e)(s1) == StateFlows(ListOf(delta, s1), e, n1)
    ensures FlowsOf(delta, map[s1 := n1, s2 := n2], e)(s2) == StateFlows(ListOf(delta, s2), e, n2)
  {
    var sigma := map[s1 := n1, s2 := n2];
    assert ValueOr0(sigma, s1) == n1 && ValueOr0(sigma, s2) == n2;
  }

  /** Over two states, what arrives in d is the sum of what each sends there. */
  lemma PairInto(F: State -> seq<Flow>, s1: State, s2: State, d: State)
    requires s1 != s2
    ensures SumOver({s1, s2}, IntoW(F, d)) == Into(F(s1), d) + Into(F(s2), d)
  {
    SumOverSmall(s1, s2, IntoW(F, d));
  }

  lemma {:induction false} PairTally(F: State -> seq<Flow>, s1: State, s2: State)
    requires s1 != s2
    ensures TallyOver(F, {s1, s2}) == TallyOf(F(s1)).Plus(TallyOf(F(s2)))
  {
    PairTallyOn(F, {s1, s2}, s1, s2);
  }

  lemma {:induction false} PairTallyOn(F: State -> seq<Flow>, D: set<State>, s1: State, s2: State)
    requires s1 != s2 && D == {s1, s2}
    ensures TallyOver(F, D) == TallyOf(F(s1)).Plus(TallyOf(F(s2)))
  {
    var a, t1, t2 := TallyOver(F, D), TallyOf(F(s1)), TallyOf(F(s2));
    assert a.numTrue == t1.numTrue + t2.numTrue by { PairCount(F, D, s1, s2, TRUE); }
    assert a.numFalse == t1.numFalse + t2.numFalse by { PairCount(F, D, s1, s2, FALSE); }
    assert a.numInconclusive == t1.numInconclusive + t2.numInconclusive by { PairCount(F, D, s1, s2, INCONCLUSIVE); }
    TallyFromCounts(a, t1, t2);
  }

  lemma TallyFromCounts(a: Tally, t1: Tally, t2: Tally)
    requires a.numTrue == t1.numTrue + t2.numTrue
    requires a.numFalse == t1.numFalse + t2.numFalse
    requires a.numInconclusive == t1.numInconclusive + t2.numInconclusive
    ensures a == t1.Plus(t2)
  {
  }

  /** Over two states, the counter of v is the sum of theirs. */
  lemma {:induction false} PairCount(F: State -> seq<Flow>, D: set<State>, s1: State, s2: State, v: Value)
    requires s1 != s2 && D == {s1, s2}
    ensures SumOver(D, VerdictW(F, v)) == TallyOf(F(s1)).Get(v) + TallyOf(F(s2)).Get(v)
  {
    SumOverSmall(s1, s2, VerdictW(F, v));
  }

  /** MultiMonitor.PathCount: a map from states to numbers of uni-traces. */
  class PathCount {
    var entries: map<State, nat>

    /** An empty count. */
    constructor ()
      ensures entries == map[]
    {
      entries := map[];
    }

    /** increment(s, p): s's count becomes its old count (0 if absent) plus p. */
    method Increment(s: State, p: nat)
      modifies this
      ensures entries == old(entries)[s := ValueOr0(old(entries), s) + p]
      ensures SumMap(entries) == SumMap(old(entries)) + p
    {
      SumMapIncrement(entries, s, p);
      if s !in entries {
        entries := entries[s := p];
      } else {
        var c := entries[s];
        entries := entries[s := c + p];
      }
    }
  }

  /** MultiMonitor.VerdictCount: one counter per verdict, all starting at 0. */
  class VerdictCount {
    var numTrue: nat
    var numFalse: nat
    var numInconclusive: nat

    /** The counters as a value. */
    function Counts(): Tally
      reads this
    {
      Tally(numTrue, numFalse, numInconclusive)
    }

    constructor ()
      ensures Counts() == Tally(0, 0, 0)
    {
      numTrue, numFalse, numInconclusive := 0, 0, 0;
    }

    /** increment(v, p): adds p to the counter of v; the other two stay as they are. */
    method Increment(v: Value, p: nat)
      modifies this
      ensures Counts() == old(Counts()).Add(v, p)
    {
      if v == TRUE {
        numTrue := numTrue + p;
      }
      if v == FALSE {
        numFalse := numFalse + p;
      }
      if v == INCONCLUSIVE {
        numInconclusive := numInconclusive + p;
      }
    }

    /** get(v): the counter of v. */
    function Get(v: Value): (r: nat)
      reads this
      ensures r == Counts().Get(v)
    {
      if v == TRUE then numTrue
      else if v == FALSE then numFalse
      else numInconclusive
    }
  }

  /** A getIntersection or getValue whose receiver is enumerable terminates. */
  lemma EnumerableInput(e: MultiEvent, c: MultiEvent, fn: EventFunction)
    requires Enumerable(e)
    ensures IntersectionDefined(e, c) && Applicable(fn, e)
  {
  }

  /**
   * What the increments made so far amount to: the path count `sp` and the
   * verdict counters `b` hold their starting values `base` and `b0` plus the
   * flows fs.
   */
  ghost predicate Records(sp: map<State, nat>, base: map<State, nat>, b: Tally, b0: Tally, fs: seq<Flow>)
  {
    sp.Keys == base.Keys + FlowDests(fs) &&
    (forall d :: ValueOr0(sp, d) == ValueOr0(base, d) + Into(fs, d)) &&
    SumMap(sp) == SumMap(base) + Weight(fs) &&
    b == b0.Plus(TallyOf(fs))
  }

  /** One step of the ordinary-transition loop, as the flow functions see it. */
  lemma OtherwiseStep(ts: seq<Transition>, i: nat, e: MultiEvent, n: nat)
    requires i < |ts| && ts[i].Otherwise?
    ensures LastOtherwise(ts[..i + 1]) == Some(ts[i])
    ensures Matched(ts[..i + 1], e) == Matched(ts[..i], e)
    ensures OrdinaryFlows(ts[..i + 1], e, n) == OrdinaryFlows(ts[..i], e, n)
  {
    assert ts[..i + 1][..i] == ts[..i];
  }

  lemma OrdinaryStep(ts: seq<Transition>, i: nat, e: MultiEvent, n: nat)
    requires i < |ts| && ts[i].Ordinary?
    ensures LastOtherwise(ts[..i + 1]) == LastOtherwise(ts[..i])
    ensures Matched(ts[..i + 1], e) == Matched(ts[..i], e) + Intersection(e, ts[i].cond)
    ensures OrdinaryFlows(ts[..i + 1], e, n) ==
              if |Intersection(e, ts[i].cond)| > 0
              then OrdinaryFlows(ts[..i], e, n) + [FlowOf(ts[i], e, n, |Intersection(e, ts[i].cond)|)]
              else OrdinaryFlows(ts[..i], e, n)
  {
    assert ts[..i + 1][..i] == ts[..i];
  }

  /**
   * Taking transition t for n traces with m valuations each: both counts
   * are incremented by n * m, as in the two branches of compute.
   */
  method Take(t: Transition, e: MultiEvent, n: nat, m: nat, sigmaPrime: PathCount, beta: VerdictCount,
              ghost base: map<State, nat>, ghost b0: Tally, ghost before: seq<Flow>)
    requires Enumerable(e)
    requires Records(sigmaPrime.entries, base, beta.Counts(), b0, before)
    modifies sigmaPrime, beta
    ensures Records(sigmaPrime.entries, base, beta.Counts(), b0, before + [FlowOf(t, e, n, m)])
  {
    ghost var sp0, c0 := sigmaPrime.entries, beta.Counts();
    var paths := n * m;
    sigmaPrime.Increment(t.dest, paths);
    EnumerableInput(e, e, t.fn);
    var output := ApplyFunction(t.fn, e);
    beta.Increment(Classify(output), paths);
    RecordsAppend(sp0, sigmaPrime.entries, base, c0, beta.Counts(), b0, before, FlowOf(t, e, n, m));
  }

  /** Incrementing both counts by the traces of flow f records f as well. */
  lemma RecordsAppend(sp0: map<State, nat>, sp1: map<State, nat>, base: map<State, nat>,
                      c0: Tally, c1: Tally, b0: Tally, before: seq<Flow>, f: Flow)
    requires Records(sp0, base, c0, b0, before)
    requires sp1 == sp0[f.dest := ValueOr0(sp0, f.dest) + f.paths]
    requires SumMap(sp1) == SumMap(sp0) + f.paths
    requires c1 == c0.Add(f.verdict, f.paths)
    ensures Records(sp1, base, c1, b0, before + [f])
  {
    FlowsAppend(before, f);
    var fs := before + [f];
    forall d
      ensures ValueOr0(sp1, d) == ValueOr0(base, d) + Into(fs, d)
    {
    }
    assert sp1.Keys == sp0.Keys + {f.dest};
    assert c1 == b0.Plus(TallyOf(fs)) by {
      assert TallyOf(fs) == TallyOf(before).Add(f.verdict, f.paths);
      PlusAdd(b0, TallyOf(before), f.verdict, f.paths);
    }
  }

  /** Adding to a counter commutes with adding up counters. */
  lemma PlusAdd(a: Tally, b: Tally, v: Value, p: nat)
    ensures a.Plus(b).Add(v, p) == a.Plus(b.Add(v, p))
  {
  }

  /**
   * What the loop over the transitions keeps true after the first i of
   * them: the valuations not yet matched, the last otherwise transition,
   * what the ordinary transitions recorded, and whether one of them fired.
   */
  ghost predicate Scanned(ts: seq<Transition>, i: nat, e: MultiEvent, n: nat, sp: map<State, nat>,
                          base: map<State, nat>, b: Tally, b0: Tally,
                          toEvaluate: set<Valuation>, otherwise: Option<Transition>, fired: bool)
    requires i <= |ts|
  {
    toEvaluate == Vals(e) - Matched(ts[..i], e) &&
    otherwise == LastOtherwise(ts[..i]) &&
    Records(sp, base, b, b0, OrdinaryFlows(ts[..i], e, n)) &&
    (fired <==> OrdinaryFlows(ts[..i], e, n) != [])
  }

  /** One round of the loop over the transitions, on transition ts[i]. */
  method ScanOne(ts: seq<Transition>, i: nat, e: MultiEvent, n: nat, sigmaPrime: PathCount, beta: VerdictCount,
                 ghost base: map<State, nat>, ghost b0: Tally,
                 toEvaluate: set<Valuation>, otherwise: Option<Transition>, fired: bool)
    returns (toEvaluate': set<Valuation>, otherwise': Option<Transition>, fired': bool)
    requires Enumerable(e) && i < |ts|
    requires Scanned(ts, i, e, n, sigmaPrime.entries, base, beta.Counts(), b0, toEvaluate, otherwise, fired)
    modifies sigmaPrime, beta
    ensures Scanned(ts, i + 1, e, n, sigmaPrime.entries, base, beta.Counts(), b0, toEvaluate', otherwise', fired')
  {
    var t := ts[i];
    if t.Otherwise? {
      OtherwiseScanned(ts, i, e, n, sigmaPrime.entries, base, beta.Counts(), b0, toEvaluate, otherwise, fired);
      toEvaluate', otherwise', fired' := toEvaluate, Some(t), fired;
    } else {
      otherwise' := otherwise;
      toEvaluate', fired' := OrdinaryScan(ts, i, e, n, sigmaPrime, beta, base, b0, toEvaluate, otherwise, fired);
    }
  }

  /** An otherwise transition met by the loop changes nothing but the one remembered. */
  lemma OtherwiseScanned(ts: seq<Transition>, i: nat, e: MultiEvent, n: nat, sp: map<State, nat>,
                         base: map<State, nat>, b: Tally, b0: Tally,
                         toEvaluate: set<Valuation>, otherwise: Option<Transition>, fired: bool)
    requires i < |ts| && ts[i].Otherwise?
    requires Scanned(ts, i, e, n, sp, base, b, b0, toEvaluate, otherwise, fired)
    ensures Scanned(ts, i + 1, e, n, sp, base, b, b0, toEvaluate, Some(ts[i]), fired)
  {
    OtherwiseStep(ts, i, e, n);
  }

  /** An ordinary transition met by the loop: its guard is evaluated against the input. */
  method OrdinaryScan(ts: seq<Transition>, i: nat, e: MultiEvent, n: nat, sigmaPrime: PathCount, beta: VerdictCount,
                      ghost base: map<State, nat>, ghost b0: Tally,
                      toEvaluate: set<Valuation>, ghost otherwise: Option<Transition>, fired: bool)
    returns (toEvaluate': set<Valuation>, fired': bool)
    requires Enumerable(e) && i < |ts| && ts[i].Ordinary?
    requires Scanned(ts, i, e, n, sigmaPrime.entries, base, beta.Counts(), b0, toEvaluate, otherwise, fired)
    modifies sigmaPrime, beta
    ensures Scanned(ts, i + 1, e, n, sigmaPrime.entries, base, beta.Counts(), b0, toEvaluate', otherwise, fired')
  {
    ghost var before, after := OrdinaryFlows(ts[..i], e, n), OrdinaryFlows(ts[..i + 1], e, n);
    OrdinaryStep(ts, i, e, n);
    toEvaluate', fired' := ScanGuard(ts[i], e, n, sigmaPrime, beta, base, b0, before, after, toEvaluate, fired);
    OrdinaryScanned(ts, i, e, n, sigmaPrime.entries, base, beta.Counts(), b0, toEvaluate, toEvaluate', otherwise, fired');
  }

  /** The facts an ordinary round establishes, gathered into the loop's invariant. */
  lemma OrdinaryScanned(ts: seq<Transition>, i: nat, e: MultiEvent, n: nat, sp: map<State, nat>,
                        base: map<State, nat>, b: Tally, b0: Tally,
                        toEvaluate: set<Valuation>, toEvaluate': set<Valuation>, otherwise: Option<Transition>,
                        fired': bool)
    requires i < |ts| && ts[i].Ordinary?
    requires toEvaluate == Vals(e) - Matched(ts[..i], e) && otherwise == LastOtherwise(ts[..i])
    requires toEvaluate' == toEvaluate - Intersection(e, ts[i].cond)
    requires Records(sp, base, b, b0, OrdinaryFlows(ts[..i + 1], e, n))
    requires fired' <==> OrdinaryFlows(ts[..i + 1], e, n) != []
    ensures Scanned(ts, i + 1, e, n, sp, base, b, b0, toEvaluate', otherwise, fired')
  {
    OrdinaryStep(ts, i, e, n);
  }

  /**
   * An ordinary transition t met by the loop: when its guard meets the
   * input, it takes n traces per common valuation; its common valuations
   * leave `toEvaluate`.
   */
  method ScanGuard(t: Transition, e: MultiEvent, n: nat, sigmaPrime: PathCount, beta: VerdictCount,
                   ghost base: map<State, nat>, ghost b0: Tally, ghost before: seq<Flow>, ghost after: seq<Flow>,
                   toEvaluate: set<Valuation>, fired: bool)
    returns (toEvaluate': set<Valuation>, fired': bool)
    requires Enumerable(e) && t.Ordinary?
    requires Records(sigmaPrime.entries, base, beta.Counts(), b0, before)
    requires fired <==> before != []
    requires after == if |Intersection(e, t.cond)| > 0 then before + [FlowOf(t, e, n, |Intersection(e, t.cond)|)] else before
    modifies sigmaPrime, beta
    ensures toEvaluate' == toEvaluate - Intersection(e, t.cond)
    ensures Records(sigmaPrime.entries, base, beta.Counts(), b0, after)
    ensures fired' <==> after != []
  {
    EnumerableInput(e, t.cond, t.fn);
    var common := GetIntersection(e, t.cond);
    fired' := fired;
    if |common| > 0 {
      fired' := true;
      Take(t, e, n, |common|, sigmaPrime, beta, base, b0, before);
    }
    toEvaluate' := toEvaluate - common;
  }

  /**
   * The loop over the outgoing transitions of a state that n > 0 traces
   * are in: each ordinary transition whose guard meets the input takes n
   * traces per common valuation, and its common valuations leave
   * `toEvaluate`; the last otherwise transition met is remembered.
   */
  method ScanTransitions(ts: seq<Transition>, e: MultiEvent, allValuations: set<Valuation>, n: nat,
                         sigmaPrime: PathCount, beta: VerdictCount)
    returns (toEvaluate: set<Valuation>, otherwise: Option<Transition>, fired: bool)
    requires Enumerable(e) && allValuations == Vals(e)
    modifies sigmaPrime, beta
    ensures toEvaluate == Remaining(ts, e) && otherwise == LastOtherwise(ts)
    ensures Records(sigmaPrime.entries, old(sigmaPrime.entries), beta.Counts(), old(beta.Counts()), OrdinaryFlows(ts, e, n))
    ensures fired <==> OrdinaryFlows(ts, e, n) != []
  {
    ghost var base, b0 := sigmaPrime.entries, beta.Counts();
    toEvaluate := allValuations;
    otherwise := None;
    fired := false;
    for i := 0 to |ts|
      invariant Scanned(ts, i, e, n, sigmaPrime.entries, base, beta.Counts(), b0, toEvaluate, otherwise, fired)
    {
      toEvaluate, otherwise, fired := ScanOne(ts, i, e, n, sigmaPrime, beta, base, b0, toEvaluate, otherwise, fired);
    }
    assert ts[..|ts|] == ts;
  }

  /**
   * The body of the loop over the entries of sigma, for a state that n > 0
   * traces are in and whose transitions are ts: the ordinary transitions
   * first; then the otherwise transition, if any, takes n traces per
   * valuation no ordinary transition took. Every amount goes to the
   * destination's path count and to the counter of the verdict the
   * transition's output stands for. `fired` tells whether a transition was
   * taken.
   */
  method ProcessState(ts: seq<Transition>, e: MultiEvent, allValuations: set<Valuation>, n: nat,
                      sigmaPrime: PathCount, beta: VerdictCount) returns (fired: bool)
    requires Enumerable(e) && allValuations == Vals(e)
    modifies sigmaPrime, beta
    ensures Records(sigmaPrime.entries, old(sigmaPrime.entries), beta.Counts(), old(beta.Counts()), StateFlows(ts, e, n))
    ensures fired <==> StateFlows(ts, e, n) != []
  {
    ghost var base, b0 := sigmaPrime.entries, beta.Counts();
    var toEvaluate, otherwise;
    toEvaluate, otherwise, fired := ScanTransitions(ts, e, allValuations, n, sigmaPrime, beta);
    ghost var ordinary := OrdinaryFlows(ts, e, n);
    if otherwise.Some? && toEvaluate != {} {
      fired := true;
      assert OtherwiseFlow(ts, e, n) == [FlowOf(otherwise.value, e, n, |toEvaluate|)];
      Take(otherwise.value, e, n, |toEvaluate|, sigmaPrime, beta, base, b0, ordinary);
    } else {
      assert OtherwiseFlow(ts, e, n) == [];
      assert StateFlows(ts, e, n) == ordinary;
    }
  }

  /**
   * What the loop over the entries of sigma keeps true once the states of D
   * are done: sp and b hold the flows F out of those states, added up.
   */
  ghost predicate Accounts(sp: map<State, nat>, b: Tally, F: State -> seq<Flow>, D: set<State>)
  {
    (forall d :: ValueOr0(sp, d) == SumOver(D, IntoW(F, d))) &&
    (forall d :: d in sp ==> sp[d] > 0) &&
    SumMap(sp) == SumOver(D, WeightW(F)) &&
    b == TallyOver(F, D)
  }

  /** Before the first state, nothing is counted. */
  lemma AccountsStart(F: State -> seq<Flow>)
    ensures Accounts(map[], Tally(0, 0, 0), F, {})
  {
    var empty: map<State, nat> := map[];
    assert empty.Keys == {};
    assert SumMap(empty) == 0;
  }

  /** Adding the flows of one more state to the counts keeps them accounted for. */
  lemma AccountStep(F: State -> seq<Flow>, D: set<State>, s: State,
                    sp0: map<State, nat>, b0: Tally, sp1: map<State, nat>, b1: Tally)
    requires s !in D
    requires forall i :: 0 <= i < |F(s)| ==> F(s)[i].paths > 0
    requires Accounts(sp0, b0, F, D)
    requires Records(sp1, sp0, b1, b0, F(s))
    ensures Accounts(sp1, b1, F, D + {s})
  {
    AccountInto(F, D, s, sp0, sp1);
    AccountPositive(F(s), sp0, b0, sp1, b1);
    AccountTotals(F, D, s);
  }

  lemma AccountInto(F: State -> seq<Flow>, D: set<State>, s: State, sp0: map<State, nat>, sp1: map<State, nat>)
    requires s !in D
    requires forall d :: ValueOr0(sp0, d) == SumOver(D, IntoW(F, d))
    requires forall d :: ValueOr0(sp1, d) == ValueOr0(sp0, d) + Into(F(s), d)
    ensures forall d :: ValueOr0(sp1, d) == SumOver(D + {s}, IntoW(F, d))
  {
    forall d
      ensures ValueOr0(sp1, d) == SumOver(D + {s}, IntoW(F, d))
    {
      SumOverAdd(D, IntoW(F, d), s);
    }
  }

  lemma AccountPositive(fs: seq<Flow>, sp0: map<State, nat>, b0: Tally, sp1: map<State, nat>, b1: Tally)
    requires forall i :: 0 <= i < |fs| ==> fs[i].paths > 0
    requires forall d :: d in sp0 ==> sp0[d] > 0
    requires Records(sp1, sp0, b1, b0, fs)
    ensures forall d :: d in sp1 ==> sp1[d] > 0
  {
    forall d | d in sp1
      ensures sp1[d] > 0
    {
      IntoPositive(fs, d);
    }
  }

  lemma AccountTotals(F: State -> seq<Flow>, D: set<State>, s: State)
    requires s !in D
    ensures SumOver(D + {s}, WeightW(F)) == SumOver(D, WeightW(F)) + Weight(F(s))
    ensures TallyOver(F, D + {s}) == TallyOver(F, D).Plus(TallyOf(F(s)))
  {
    SumOverAdd(D, WeightW(F), s);
    var t := TallyOf(F(s));
    AccountVerdict(F, D, s, TRUE);
    AccountVerdict(F, D, s, FALSE);
    AccountVerdict(F, D, s, INCONCLUSIVE);
  }

  lemma AccountVerdict(F: State -> seq<Flow>, D: set<State>, s: State, v: Value)
    requires s !in D
    ensures SumOver(D + {s}, VerdictW(F, v)) == SumOver(D, VerdictW(F, v)) + TallyOf(F(s)).Get(v)
  {
    SumOverAdd(D, VerdictW(F, v), s);
  }

  /** Nothing done, nothing recorded. */
  lemma RecordsNothing(sp: map<State, nat>, b: Tally)
    ensures Records(sp, sp, b, b, [])
  {
  }

  /**
   * One round of the loop over the entries of sigma: state s, which
   * `current` maps to its number of traces, is skipped when that number is
   * 0 and processed otherwise.
   */
  method VisitEntry(m: ExplicitPropositionalMachine, ghost delta: Delta, current: map<State, nat>, s: State,
                    e: MultiEvent, allValuations: set<Valuation>, sigmaPrime: PathCount, beta: VerdictCount,
                    ghost done: set<State>, ghost rest: set<State>, taken: bool) returns (taken': bool)
    requires delta == m.delta && Enumerable(e) && allValuations == Vals(e) && s in rest
    requires Progress(sigmaPrime.entries, beta.Counts(), taken, delta, current, e, done, rest)
    modifies sigmaPrime, beta
    ensures Progress(sigmaPrime.entries, beta.Counts(), taken', delta, current, e, done + {s}, rest - {s})
  {
    ghost var sp0, b0 := sigmaPrime.entries, beta.Counts();
    ghost var fs := FlowsAt(delta, current, e, s);
    var fired := false;
    var count := current[s];
    if count != 0 {
      var outgoing := m.TransitionsFor(s);
      assert outgoing == ListOf(delta, s);
      fired := ProcessState(outgoing, e, allValuations, count, sigmaPrime, beta);
      assert fs == StateFlows(outgoing, e, count);
    } else {
      RecordsNothing(sp0, b0);
      assert fs == [];
    }
    taken' := taken || fired;
    Visited(sp0, b0, sigmaPrime.entries, beta.Counts(), taken, fired, delta, current, e, done, rest, s);
  }

  /** Accounting for one more state s, whose flows sp1 and b1 record, keeps the loop's progress. */
  lemma Visited(sp0: map<State, nat>, b0: Tally, sp1: map<State, nat>, b1: Tally, taken: bool, fired: bool,
                delta: Delta, current: map<State, nat>, e: MultiEvent, done: set<State>, rest: set<State>, s: State)
    requires s in rest && Progress(sp0, b0, taken, delta, current, e, done, rest)
    requires Records(sp1, sp0, b1, b0, FlowsAt(delta, current, e, s))
    requires fired <==> FlowsAt(delta, current, e, s) != []
    ensures Progress(sp1, b1, taken || fired, delta, current, e, done + {s}, rest - {s})
  {
    assert s !in done;
    AccountAt(sp0, b0, sp1, b1, delta, current, e, done, s);
    TakenStep(taken, fired, delta, current, e, done, s);
    ProgressAdvance(sp1, b1, taken || fired, delta, current, e, done, rest, s);
  }

  /** The accounts over D, plus what state s records, are the accounts over D + {s}. */
  lemma AccountAt(sp0: map<State, nat>, b0: Tally, sp1: map<State, nat>, b1: Tally,
                  delta: Delta, current: map<State, nat>, e: MultiEvent, D: set<State>, s: State)
    requires s !in D && Accounts(sp0, b0, FlowsOf(delta, current, e), D)
    requires Records(sp1, sp0, b1, b0, FlowsAt(delta, current, e, s))
    ensures Accounts(sp1, b1, FlowsOf(delta, current, e), D + {s})
  {
    var F := FlowsOf(delta, current, e);
    assert F(s) == FlowsAt(delta, current, e, s);
    FlowsAtPositive(delta, current, e, s);
    AccountStep(F, D, s, sp0, b0, sp1, b1);
  }

  /** Some state of D + {s} took a transition iff one of D did or s did. */
  lemma TakenStep(taken: bool, fired: bool, delta: Delta, current: map<State, nat>, e: MultiEvent,
                  D: set<State>, s: State)
    requires taken <==> TakenFrom(delta, current, e, D)
    requires fired <==> FlowsAt(delta, current, e, s) != []
    ensures taken || fired <==> TakenFrom(delta, current, e, D + {s})
  {
    if fired {
      assert s in D + {s} && FlowsAt(delta, current, e, s) != [];
    }
    if taken {
      var t :| t in D && FlowsAt(delta, current, e, t) != [];
      assert t in D + {s};
    }
  }

  lemma ProgressAdvance(sp: map<State, nat>, b: Tally, taken: bool, delta: Delta, current: map<State, nat>,
                        e: MultiEvent, done: set<State>, rest: set<State>, s: State)
    requires s in rest && rest !! done && rest + done == current.Keys
    requires Accounts(sp, b, FlowsOf(delta, current, e), done + {s})
    requires taken <==> TakenFrom(delta, current, e, done + {s})
    ensures Progress(sp, b, taken, delta, current, e, done + {s}, rest - {s})
  {
  }

  /**
   * What the loop of compute keeps true: the states of `done` are
   * accounted for in sp and b, those of `rest` are still to be visited,
   * and `taken` says whether some state of `done` took a transition.
   */
  ghost predicate Progress(sp: map<State, nat>, b: Tally, taken: bool, delta: Delta, current: map<State, nat>,
                           e: MultiEvent, done: set<State>, rest: set<State>)
  {
    rest !! done && rest + done == current.Keys &&
    Accounts(sp, b, FlowsOf(delta, current, e), done) &&
    (taken <==> TakenFrom(delta, current, e, done))
  }

  /**
   * The loop of compute over the entries of the path count, in whatever
   * order the map yields them: afterwards the new counts are those of the
   * step, and `taken` says whether some state took a transition.
   */
  method VisitAll(m: ExplicitPropositionalMachine, current: map<State, nat>, e: MultiEvent,
                  allValuations: set<Valuation>, sigmaPrime: PathCount, beta: VerdictCount)
    returns (taken: bool)
    requires Enumerable(e) && allValuations == Vals(e)
    requires sigmaPrime.entries == map[] && beta.Counts() == Tally(0, 0, 0)
    modifies sigmaPrime, beta
    ensures sigmaPrime.entries == NextSigma(m.delta, current, e)
    ensures beta.Counts() == NextVerdicts(m.delta, current, e)
    ensures SumMap(sigmaPrime.entries) == Produced(m.delta, current, e)
    ensures taken <==> Taken(m.delta, current, e)
  {
    taken := false;
    var rest := current.Keys;
    ghost var done: set<State> := {};
    ghost var delta := m.delta;
    AccountsStart(FlowsOf(delta, current, e));
    while rest != {}
      invariant Progress(sigmaPrime.entries, beta.Counts(), taken, delta, current, e, done, rest)
      decreases rest
    {
      SomeState(rest);
      var s :| s in rest;
      taken := VisitEntry(m, delta, current, s, e, allValuations, sigmaPrime, beta, done, rest, taken);
      done, rest := done + {s}, rest - {s};
    }
    assert done == current.Keys;
    Settle(sigmaPrime.entries, beta.Counts(), delta, current, e);
  }

  /** Once every state is done, the counts are those of the step. */
  lemma Settle(sp: map<State, nat>, b: Tally, delta: Delta, sigma: map<State, nat>, e: MultiEvent)
    requires Accounts(sp, b, FlowsOf(delta, sigma, e), sigma.Keys)
    ensures sp == NextSigma(delta, sigma, e)
    ensures b == NextVerdicts(delta, sigma, e)
    ensures SumMap(sp) == Produced(delta, sigma, e)
  {
    forall d
      ensures ValueOr0(sp, d) == ValueOr0(NextSigma(delta, sigma, e), d)
    {
      NextSigmaMembers(delta, sigma, e, d);
    }
    forall d | d in NextSigma(delta, sigma, e)
      ensures NextSigma(delta, sigma, e)[d] > 0
    {
      NextSigmaMembers(delta, sigma, e, d);
    }
    SameCounts(sp, NextSigma(delta, sigma, e));
  }

  /**
   * The multi-monitor lifted from a machine. `sigma` is m_sigma, the number
   * of uni-traces in each state, and `verdicts` is m_verdicts, the verdict
   * counters of the last step. The machine is shared, not copied: the
   * monitor reads its transition relation at every step.
   */
  class MultiMonitor {
    const machine: ExplicitPropositionalMachine
    var sigma: PathCount
    var verdicts: VerdictCount

    /**
     * A new monitor: one trace, the empty one, in the machine's initial
     * state; all verdict counters at 0.
     */
    constructor (m: ExplicitPropositionalMachine)
      requires m.initial.Some?
      ensures machine == m && fresh(sigma) && fresh(verdicts)
      ensures sigma.entries == map[m.initial.value := 1]
      ensures verdicts.Counts() == Tally(0, 0, 0)
    {
      machine := m;
      var p := new PathCount();
      p.entries := p.entries[m.initial.value := 1];
      sigma := p;
      verdicts := new VerdictCount();
    }

    /**
     * reset(): one trace in the initial state again; the verdict counters
     * of the last step are kept.
     */
    method Reset()
      requires machine.initial.Some?
      modifies this
      ensures fresh(sigma) && sigma.entries == map[machine.initial.value := 1]
      ensures verdicts == old(verdicts)
    {
      var p := new PathCount();
      p.entries := p.entries[machine.initial.value := 1];
      sigma := p;
    }

    /**
     * compute: one step on the input multi-event e. sigma is replaced by
     * the new path count and verdicts by the new verdict counters, whether
     * or not a transition was taken. The step emits the new counters
     * (`out`) exactly when some transition was taken from some state.
     */
    method Compute(e: MultiEvent) returns (emitted: bool, out: Option<VerdictCount>)
      requires Enumerable(e)
      modifies this
      ensures fresh(sigma) && fresh(verdicts)
      ensures sigma.entries == NextSigma(machine.delta, old(sigma.entries), e)
      ensures verdicts.Counts() == NextVerdicts(machine.delta, old(sigma.entries), e)
      ensures SumMap(sigma.entries) == Produced(machine.delta, old(sigma.entries), e)
      ensures emitted <==> Taken(machine.delta, old(sigma.entries), e)
      ensures out == if emitted then Some(verdicts) else None
    {
      var beta := new VerdictCount();
      var sigmaPrime := new PathCount();
      var allValuations := GetValuations(e);
      var transitionTaken := VisitAll(machine, sigma.entries, e, allValuations, sigmaPrime, beta);
      sigma := sigmaPrime;
      verdicts := beta;
      if !transitionTaken {
        return false, None;
      }
      return true, Some(beta);
    }
  }
}
