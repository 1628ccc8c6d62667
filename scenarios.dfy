/**
 * The scenarios of the multi-monitor's unit tests. The uni-monitor reads
 * valuations of two variables a and b: from state 0, TF (a TRUE, b FALSE)
 * leads to state 1 and FT to state 2, anything else stays in 0, all three
 * emitting nothing; state 1 then emits ALL forever and state 2 NOTHING.
 */
module MonitorScenarios {
  import opened Troolean
  import opened Sums
  import opened Valuations
  import opened MultiEvents
  import opened Transformers
  import opened Machines
  import opened Monitor

  /** The valuation giving a and b the two values, as the tests write them: TF, FT, FF. */
  function Val(a: Value, b: Value): Valuation
  {
    map["a" := a, "b" := b]
  }

  const TF: Valuation := Val(TRUE, FALSE)
  const FT: Valuation := Val(FALSE, TRUE)
  const FF: Valuation := Val(FALSE, FALSE)

  /** A concrete multi-event read from a list of valuations. */
  function Event(s: set<Valuation>): MultiEvent
  {
    Concrete(s, false)
  }

  /** The transitions of state 0, in the order they are added. */
  function Start(): seq<Transition>
  {
    [Ordinary(1, Event({TF}), EPSILON), Ordinary(2, Event({FT}), EPSILON), Otherwise(0, EPSILON)]
  }

  /** The transition relation the tests build. */
  function TestDelta(): Delta
  {
    map[0 := Start(), 1 := [Otherwise(1, NU)], 2 := [Otherwise(2, EMPTY)]]
  }

  lemma Distinct()
    ensures TF != FT && TF != FF && FT != FF
  {
    assert TF["a"] != FT["a"];
    assert TF["a"] != FF["a"];
    assert FT["b"] != FF["b"];
  }

  /** The valuations of S that a one-valuation guard takes. */
  lemma GuardMeets(S: set<Valuation>, v: Valuation)
    ensures |Intersection(Event(S), Event({v}))| == if v in S then 1 else 0
  {
    if v in S {
      assert S * {v} == {v};
    } else {
      assert S * {v} == {};
    }
  }

  /**
   * From state 0, n traces go to 1 if the input holds TF, to 2 if it holds
   * FT, and stay in 0 once for each other valuation; all are inconclusive.
   */
  lemma StartFlows(S: set<Valuation>, n: nat)
    ensures StateFlows(Start(), Event(S), n)
            == (if TF in S then [Flow(1, n, INCONCLUSIVE)] else [])
             + (if FT in S then [Flow(2, n, INCONCLUSIVE)] else [])
             + (if S - {TF, FT} != {} then [Flow(0, n * |S - {TF, FT}|, INCONCLUSIVE)] else [])
  {
    var ts, e := Start(), Event(S);
    StartRemaining(S);
    StartOrdinary(S, n);
    VerdictOfFunctions(e, EPSILON);
    assert LastOtherwise(ts) == Some(ts[2]);
  }

  /** The guards of state 0 take TF and FT; the other valuations are left to its otherwise transition. */
  lemma StartRemaining(S: set<Valuation>)
    ensures Remaining(Start(), Event(S)) == S - {TF, FT}
  {
    var ts, e := Start(), Event(S);
    assert ts[..2] == [ts[0], ts[1]];
    assert ts[..2][..1] == [ts[0]];
    assert [ts[0]][..0] == [];
    assert Matched([ts[0]], e) == S * {TF};
    assert Matched(ts[..2], e) == S * {TF} + S * {FT};
    assert Matched(ts, e) == S * {TF} + S * {FT};
  }

  lemma StartOrdinary(S: set<Valuation>, n: nat)
    ensures OrdinaryFlows(Start(), Event(S), n)
            == (if TF in S then [Flow(1, n, INCONCLUSIVE)] else [])
             + (if FT in S then [Flow(2, n, INCONCLUSIVE)] else [])
  {
    var ts, e := Start(), Event(S);
    Distinct();
    assert ts[..2] == [ts[0], ts[1]];
    assert ts[..2][..1] == [ts[0]];
    assert [ts[0]][..0] == [];
    GuardMeets(S, TF);
    GuardMeets(S, FT);
    VerdictOfFunctions(e, EPSILON);
    var a, b := Flow(1, n, INCONCLUSIVE), Flow(2, n, INCONCLUSIVE);
    assert FlowOf(ts[0], e, n, 1) == a;
    assert FlowOf(ts[1], e, n, 1) == b;
    assert OrdinaryFlows([ts[0]], e, n) == if TF in S then [a] else [];
    assert OrdinaryFlows(ts[..2], e, n) == OrdinaryFlows([ts[0]], e, n) + (if FT in S then [b] else []);
  }

  /** A state whose only transition is an otherwise one sends its n traces there once per input valuation. */
  lemma OtherwiseOnlyFlows(d: State, fn: EventFunction, e: MultiEvent, n: nat)
    ensures StateFlows([Otherwise(d, fn)], e, n)
            == if Vals(e) != {} then [Flow(d, n * |Vals(e)|, Classify(Output(fn, e)))] else []
  {
    var ts := [Otherwise(d, fn)];
    assert ts[..0] == [];
    assert Matched(ts, e) == {};
    assert Remaining(ts, e) == Vals(e);
    assert OrdinaryFlows(ts, e, n) == [];
    assert LastOtherwise(ts) == Some(ts[0]);
  }

  /** The traces one and two flows send to d. */
  lemma IntoSmall(f1: Flow, f2: Flow, d: State)
    ensures Into([f1], d) == (if f1.dest == d then f1.paths else 0)
    ensures Into([f1, f2], d) == Into([f1], d) + (if f2.dest == d then f2.paths else 0)
  {
    FlowsAppend([], f1);
    assert [] + [f1] == [f1];
    FlowsAppend([f1], f2);
    assert [f1] + [f2] == [f1, f2];
  }

  /** The verdict counters of one flow. */
  lemma TallyOne(f: Flow)
    ensures TallyOf([f]) == Tally(0, 0, 0).Add(f.verdict, f.paths)
  {
    assert [f][..0] == [];
  }

  /** The verdict counters of two flows. */
  lemma TallyTwo(f1: Flow, f2: Flow)
    ensures TallyOf([f1, f2]) == Tally(0, 0, 0).Add(f1.verdict, f1.paths).Add(f2.verdict, f2.paths)
  {
    assert [f1, f2][..1] == [f1];
    TallyOne(f1);
  }

  /** Two flows to distinct states make up the map sending each state its flow's traces. */
  lemma SplitPair(f1: Flow, f2: Flow, m: map<State, nat>)
    requires f1.dest != f2.dest && f1.paths > 0 && f2.paths > 0
    requires m == map[f1.dest := f1.paths, f2.dest := f2.paths]
    ensures forall d :: d in m ==> m[d] > 0
    ensures forall d :: Into([f1], d) + Into([f2], d) == ValueOr0(m, d)
  {
    forall d
      ensures Into([f1], d) + Into([f2], d) == ValueOr0(m, d)
    {
      IntoSmall(f1, f1, d);
      IntoSmall(f2, f2, d);
    }
  }

  /** A flow g and a pair f1, f2 where g and f1 share their destination. */
  lemma MergePair(g: Flow, f1: Flow, f2: Flow, m: map<State, nat>)
    requires g.dest == f1.dest && f1.dest != f2.dest && g.paths > 0 && f1.paths > 0 && f2.paths > 0
    requires m == map[f1.dest := g.paths + f1.paths, f2.dest := f2.paths]
    ensures forall d :: d in m ==> m[d] > 0
    ensures forall d :: Into([g], d) + Into([f1, f2], d) == ValueOr0(m, d)
  {
    forall d
      ensures Into([g], d) + Into([f1, f2], d) == ValueOr0(m, d)
    {
      IntoSmall(g, g, d);
      IntoSmall(f1, f2, d);
    }
  }

  /**
   * States 1 and 2 keep their n traces, once for each input valuation,
   * with verdict TRUE and FALSE respectively.
   */
  lemma SinkFlows(S: set<Valuation>, n: nat)
    requires S != {}
    ensures StateFlows(ListOf(TestDelta(), 1), Event(S), n) == [Flow(1, n * |S|, TRUE)]
    ensures StateFlows(ListOf(TestDelta(), 2), Event(S), n) == [Flow(2, n * |S|, FALSE)]
  {
    var e := Event(S);
    assert ListOf(TestDelta(), 1) == [Otherwise(1, NU)];
    assert ListOf(TestDelta(), 2) == [Otherwise(2, EMPTY)];
    OtherwiseOnlyFlows(1, NU, e, n);
    OtherwiseOnlyFlows(2, EMPTY, e, n);
    VerdictOfFunctions(e, NU);
  }

  /** A step from one state with n traces, given what its flows fs add up to. */
  lemma FromOne(delta: Delta, s: State, n: nat, e: MultiEvent, fs: seq<Flow>, m: map<State, nat>, t: Tally)
    requires n > 0 && StateFlows(ListOf(delta, s), e, n) == fs
    requires forall d :: d in m ==> m[d] > 0
    requires forall d :: Into(fs, d) == ValueOr0(m, d)
    requires TallyOf(fs) == t
    ensures NextSigma(delta, map[s := n], e) == m
    ensures NextVerdicts(delta, map[s := n], e) == t
  {
    OneStateStep(delta, s, n, e);
    NextSigmaIs(delta, map[s := n], e, m);
  }

  /** One flow makes up the map sending its destination its traces. */
  lemma OneMap(f: Flow, m: map<State, nat>)
    requires f.paths > 0 && m == map[f.dest := f.paths]
    ensures forall d :: d in m ==> m[d] > 0
    ensures forall d :: Into([f], d) == ValueOr0(m, d)
  {
    forall d
      ensures Into([f], d) == ValueOr0(m, d)
    {
      IntoSmall(f, f, d);
    }
  }

  /** Two flows to distinct states make up the map sending each state its flow's traces. */
  lemma TwoMap(f1: Flow, f2: Flow, m: map<State, nat>)
    requires f1.dest != f2.dest && f1.paths > 0 && f2.paths > 0
    requires m == map[f1.dest := f1.paths, f2.dest := f2.paths]
    ensures forall d :: d in m ==> m[d] > 0
    ensures forall d :: Into([f1, f2], d) == ValueOr0(m, d)
  {
    forall d
      ensures Into([f1, f2], d) == ValueOr0(m, d)
    {
      IntoSmall(f1, f2, d);
    }
  }

  /** A step from one state with one trace, whose only flow is f. */
  lemma OneFlowStep(delta: Delta, s: State, e: MultiEvent, f: Flow, t: Tally)
    requires f.paths > 0 && StateFlows(ListOf(delta, s), e, 1) == [f]
    requires t == Tally(0, 0, 0).Add(f.verdict, f.paths)
    ensures NextSigma(delta, map[s := 1], e) == map[f.dest := f.paths]
    ensures NextVerdicts(delta, map[s := 1], e) == t
  {
    var m := map[f.dest := f.paths];
    OneMap(f, m);
    TallyOne(f);
    FromOne(delta, s, 1, e, [f], m, t);
  }

  /** A step from one state with one trace, whose flows are f1 and f2, to distinct states. */
  lemma TwoFlowStep(delta: Delta, s: State, e: MultiEvent, f1: Flow, f2: Flow, t: Tally)
    requires f1.paths > 0 && f2.paths > 0 && f1.dest != f2.dest
    requires StateFlows(ListOf(delta, s), e, 1) == [f1, f2]
    requires t == Tally(0, 0, 0).Add(f1.verdict, f1.paths).Add(f2.verdict, f2.paths)
    ensures NextSigma(delta, map[s := 1], e) == map[f1.dest := f1.paths, f2.dest := f2.paths]
    ensures NextVerdicts(delta, map[s := 1], e) == t
  {
    var m := map[f1.dest := f1.paths, f2.dest := f2.paths];
    TwoMap(f1, f2, m);
    TallyTwo(f1, f2);
    FromOne(delta, s, 1, e, [f1, f2], m, t);
  }

  /** From state 0, the input {TF} sends the trace to state 1. */
  lemma StartOnTF()
    ensures StateFlows(ListOf(TestDelta(), 0), Event({TF}), 1) == [Flow(1, 1, INCONCLUSIVE)]
  {
    Distinct();
    assert {TF} - {TF, FT} == {};
    assert ListOf(TestDelta(), 0) == Start();
    StartFlows({TF}, 1);
  }

  /** From state 0, the input {TF, FT} sends one trace to state 1 and one to state 2. */
  lemma StartOnTFFT()
    ensures StateFlows(ListOf(TestDelta(), 0), Event({TF, FT}), 1)
            == [Flow(1, 1, INCONCLUSIVE), Flow(2, 1, INCONCLUSIVE)]
  {
    Distinct();
    assert {TF, FT} - {TF, FT} == {};
    assert ListOf(TestDelta(), 0) == Start();
    StartFlows({TF, FT}, 1);
  }

  /** From state 0, the input {TF, FF} sends one trace to state 1 and keeps one. */
  lemma StartOnTFFF()
    ensures StateFlows(ListOf(TestDelta(), 0), Event({TF, FF}), 1)
            == [Flow(1, 1, INCONCLUSIVE), Flow(0, 1, INCONCLUSIVE)]
  {
    Distinct();
    assert {TF, FF} - {TF, FT} == {FF};
    assert ListOf(TestDelta(), 0) == Start();
    StartFlows({TF, FF}, 1);
  }

  /** Test 1, first input TF: the single trace goes to state 1, inconclusive. */
  lemma Test1First()
    ensures NextSigma(TestDelta(), map[0 := 1], Event({TF})) == map[1 := 1]
    ensures NextVerdicts(TestDelta(), map[0 := 1], Event({TF})) == Tally(0, 0, 1)
  {
    StartOnTF();
    OneFlowStep(TestDelta(), 0, Event({TF}), Flow(1, 1, INCONCLUSIVE), Tally(0, 0, 1));
  }

  /** Test 1, second input TF: the trace in state 1 is TRUE and stays there. */
  lemma Test1Second()
    ensures NextSigma(TestDelta(), map[1 := 1], Event({TF})) == map[1 := 1]
    ensures NextVerdicts(TestDelta(), map[1 := 1], Event({TF})) == Tally(1, 0, 0)
  {
    SinksOnTF();
    OneFlowStep(TestDelta(), 1, Event({TF}), Flow(1, 1, TRUE), Tally(1, 0, 0));
  }

  /** Test 2, first input {TF, FT}: one trace goes to state 1 and one to state 2, both inconclusive. */
  lemma Test2First()
    ensures NextSigma(TestDelta(), map[0 := 1], Event({TF, FT})) == map[1 := 1, 2 := 1]
    ensures NextVerdicts(TestDelta(), map[0 := 1], Event({TF, FT})) == Tally(0, 0, 2)
  {
    StartOnTFFT();
    TwoFlowStep(TestDelta(), 0, Event({TF, FT}), Flow(1, 1, INCONCLUSIVE), Flow(2, 1, INCONCLUSIVE), Tally(0, 0, 2));
  }

  /** Test 3, first input {TF, FF}: one trace goes to state 1, the other stays in 0; both inconclusive. */
  lemma Test3First()
    ensures NextSigma(TestDelta(), map[0 := 1], Event({TF, FF})) == map[1 := 1, 0 := 1]
    ensures NextVerdicts(TestDelta(), map[0 := 1], Event({TF, FF})) == Tally(0, 0, 2)
  {
    StartOnTFFF();
    TwoFlowStep(TestDelta(), 0, Event({TF, FF}), Flow(1, 1, INCONCLUSIVE), Flow(0, 1, INCONCLUSIVE), Tally(0, 0, 2));
  }

  /** A step from two states, given what their flows fs1 and fs2 add up to. */
  lemma FromTwo(delta: Delta, sigma: map<State, nat>, s1: State, n1: nat, s2: State, n2: nat, e: MultiEvent,
                fs1: seq<Flow>, fs2: seq<Flow>, m: map<State, nat>, t1: Tally, t2: Tally, t: Tally)
    requires s1 != s2 && n1 > 0 && n2 > 0 && sigma == map[s1 := n1, s2 := n2]
    requires StateFlows(ListOf(delta, s1), e, n1) == fs1
    requires StateFlows(ListOf(delta, s2), e, n2) == fs2
    requires forall d :: d in m ==> m[d] > 0
    requires forall d :: Into(fs1, d) + Into(fs2, d) == ValueOr0(m, d)
    requires TallyOf(fs1) == t1 && TallyOf(fs2) == t2 && t1.Plus(t2) == t
    ensures NextSigma(delta, sigma, e) == m
    ensures NextVerdicts(delta, sigma, e) == t
  {
    FromTwoArrived(delta, sigma, s1, n1, s2, n2, e, fs1, fs2, m);
    TwoStateVerdicts(delta, s1, n1, s2, n2, e);
  }

  lemma FromTwoArrived(delta: Delta, sigma: map<State, nat>, s1: State, n1: nat, s2: State, n2: nat, e: MultiEvent,
                       fs1: seq<Flow>, fs2: seq<Flow>, m: map<State, nat>)
    requires s1 != s2 && n1 > 0 && n2 > 0 && sigma == map[s1 := n1, s2 := n2]
    requires StateFlows(ListOf(delta, s1), e, n1) == fs1
    requires StateFlows(ListOf(delta, s2), e, n2) == fs2
    requires forall d :: d in m ==> m[d] > 0
    requires forall d :: Into(fs1, d) + Into(fs2, d) == ValueOr0(m, d)
    ensures NextSigma(delta, sigma, e) == m
  {
    TwoStateArrived(delta, s1, n1, s2, n2, e);
    forall d
      ensures Arrived(delta, sigma, e, d) == ValueOr0(m, d)
    {
      assert Arrived(delta, sigma, e, d) == Into(fs1, d) + Into(fs2, d);
    }
    NextSigmaIs(delta, sigma, e, m);
  }

  /** Test 2, second input TF: the trace in state 1 is TRUE, the one in state 2 FALSE. */
  lemma Test2Second()
    ensures NextSigma(TestDelta(), map[1 := 1, 2 := 1], Event({TF})) == map[1 := 1, 2 := 1]
    ensures NextVerdicts(TestDelta(), map[1 := 1, 2 := 1], Event({TF})) == Tally(1, 1, 0)
  {
    SinksOnTF();
    SinksStep(TestDelta(), Event({TF}));
  }

  /** A step from states 1 and 2, one trace each, whose traces stay put as TRUE and FALSE. */
  lemma SinksStep(delta: Delta, e: MultiEvent)
    requires StateFlows(ListOf(delta, 1), e, 1) == [Flow(1, 1, TRUE)]
    requires StateFlows(ListOf(delta, 2), e, 1) == [Flow(2, 1, FALSE)]
    ensures NextSigma(delta, map[1 := 1, 2 := 1], e) == map[1 := 1, 2 := 1]
    ensures NextVerdicts(delta, map[1 := 1, 2 := 1], e) == Tally(1, 1, 0)
  {
    var f1, f2 := Flow(1, 1, TRUE), Flow(2, 1, FALSE);
    var sigma := map[1 := 1, 2 := 1];
    assert NextSigma(delta, sigma, e) == sigma by {
      SplitPair(f1, f2, sigma);
      FromTwoArrived(delta, sigma, 1, 1, 2, 1, e, [f1], [f2], sigma);
    }
    assert NextVerdicts(delta, sigma, e) == Tally(1, 1, 0) by {
      TwoStateVerdicts(delta, 1, 1, 2, 1, e);
      SinksTally(f1, f2);
    }
  }

  lemma SinksTally(f1: Flow, f2: Flow)
    requires f1 == Flow(1, 1, TRUE) && f2 == Flow(2, 1, FALSE)
    ensures TallyOf([f1]) == Tally(1, 0, 0)
    ensures TallyOf([f2]) == Tally(0, 1, 0)
  {
    TallyOne(f1);
    TallyOne(f2);
  }

  lemma SinksOnTF()
    ensures StateFlows(ListOf(TestDelta(), 1), Event({TF}), 1) == [Flow(1, 1, TRUE)]
    ensures StateFlows(ListOf(TestDelta(), 2), Event({TF}), 1) == [Flow(2, 1, FALSE)]
  {
    SinkFlows({TF}, 1);
  }

  /**
   * Test 3, second input {TF, FT}: the trace in state 1 is TRUE for both
   * valuations; the one in state 0 splits to 1 and 2, inconclusive.
   */
  lemma Test3Second()
    ensures NextSigma(TestDelta(), map[1 := 1, 0 := 1], Event({TF, FT})) == map[1 := 3, 2 := 1]
    ensures NextVerdicts(TestDelta(), map[1 := 1, 0 := 1], Event({TF, FT})) == Tally(2, 0, 2)
  {
    BothOnTFFT();
    SplitAndStayStep(TestDelta(), Event({TF, FT}));
  }

  /**
   * A step from states 1 and 0, one trace each, where state 1 keeps two
   * TRUE traces and state 0 sends one inconclusive trace to 1 and one to 2.
   */
  lemma SplitAndStayStep(delta: Delta, e: MultiEvent)
    requires StateFlows(ListOf(delta, 1), e, 1) == [Flow(1, 2, TRUE)]
    requires StateFlows(ListOf(delta, 0), e, 1) == [Flow(1, 1, INCONCLUSIVE), Flow(2, 1, INCONCLUSIVE)]
    ensures NextSigma(delta, map[1 := 1, 0 := 1], e) == map[1 := 3, 2 := 1]
    ensures NextVerdicts(delta, map[1 := 1, 0 := 1], e) == Tally(2, 0, 2)
  {
    var g, f1, f2 := Flow(1, 2, TRUE), Flow(1, 1, INCONCLUSIVE), Flow(2, 1, INCONCLUSIVE);
    var sigma, m := map[1 := 1, 0 := 1], map[1 := 3, 2 := 1];
    assert NextSigma(delta, sigma, e) == m by {
      MergePair(g, f1, f2, m);
      FromTwoArrived(delta, sigma, 1, 1, 0, 1, e, [g], [f1, f2], m);
    }
    assert NextVerdicts(delta, sigma, e) == Tally(2, 0, 2) by {
      TwoStateVerdicts(delta, 1, 1, 0, 1, e);
      SplitTally(g, f1, f2);
    }
  }

  lemma SplitTally(g: Flow, f1: Flow, f2: Flow)
    requires g == Flow(1, 2, TRUE) && f1 == Flow(1, 1, INCONCLUSIVE) && f2 == Flow(2, 1, INCONCLUSIVE)
    ensures TallyOf([g]) == Tally(2, 0, 0)
    ensures TallyOf([f1, f2]) == Tally(0, 0, 2)
  {
    TallyOne(g);
    TallyTwo(f1, f2);
  }

  lemma BothOnTFFT()
    ensures StateFlows(ListOf(TestDelta(), 1), Event({TF, FT}), 1) == [Flow(1, 2, TRUE)]
    ensures StateFlows(ListOf(TestDelta(), 0), Event({TF, FT}), 1)
            == [Flow(1, 1, INCONCLUSIVE), Flow(2, 1, INCONCLUSIVE)]
  {
    Distinct();
    assert {TF, FT} - {TF, FT} == {};
    assert ListOf(TestDelta(), 0) == Start();
    assert |{TF, FT}| == 2;
    SinkFlows({TF, FT}, 1);
    StartFlows({TF, FT}, 1);
  }
}
