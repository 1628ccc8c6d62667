/**
 * ExplicitPropositionalMachine: a guarded automaton whose transition
 * relation is a map from each source state to its list of outgoing
 * transitions, run one multi-event at a time.
 */
module Machines {
  import opened Troolean
  import opened Sums
  import opened MultiEvents
  import opened Transformers

  type State = int

  /**
   * PropositionalMachine.Transition, with a guard, and
   * TransitionOtherwise, taken when no guard matches.
   */
  datatype Transition =
    | Ordinary(dest: State, cond: MultiEvent, fn: EventFunction)
    | Otherwise(dest: State, fn: EventFunction)

  type Delta = map<State, seq<Transition>>

  /** A non-empty set of states has a member to pick. */
  lemma SomeState(r: set<State>)
    requires r != {}
    ensures exists s :: s in r
  {
    if forall s :: s !in r {
      assert false;
    }
  }

  /** The list stored for s, or the empty list when s has no entry. */
  function ListOf(d: Delta, s: State): seq<Transition>
  {
    if s in d then d[s] else []
  }

  /** The weight of a state in the transition count: the length of its list. */
  function LengthIn(d: Delta): State -> nat
  {
    s => |ListOf(d, s)|
  }

  /** The number of transitions stored, over all source states. */
  ghost function Total(d: Delta): nat
  {
    SumOver(d.Keys, LengthIn(d))
  }

  /** Appending one transition to the list of s (creating it if needed) adds one to the total. */
  lemma TotalAppend(d: Delta, s: State, t: Transition)
    ensures Total(d[s := ListOf(d, s) + [t]]) == Total(d) + 1
  {
    var d' := d[s := ListOf(d, s) + [t]];
    if s in d {
      assert d'.Keys == d.Keys;
      SumOverBump(d.Keys, LengthIn(d), LengthIn(d'), s, 1);
    } else {
      assert d'.Keys == d.Keys + {s};
      SumOverAdd(d.Keys, LengthIn(d'), s);
      SumOverCongruent(d.Keys, LengthIn(d), LengthIn(d'));
    }
  }

  /** An ordinary transition whose guard meets the input in at least one valuation. */
  ghost predicate Matches(t: Transition, e: MultiEvent)
  {
    t.Ordinary? && |Intersection(e, t.cond)| > 0
  }

  /** The last transition of the list that p accepts, if any. */
  ghost function LastWhere(ts: seq<Transition>, p: Transition -> bool): Option<Transition>
  {
    if ts == [] then None
    else if p(ts[|ts| - 1]) then Some(ts[|ts| - 1])
    else LastWhere(ts[..|ts| - 1], p)
  }

  /** The last matching ordinary transition of the list, if any. */
  ghost function LastMatch(ts: seq<Transition>, e: MultiEvent): Option<Transition>
  {
    LastWhere(ts, t => Matches(t, e))
  }

  /** The last otherwise transition of the list, if any. */
  function LastOtherwise(ts: seq<Transition>): (r: Option<Transition>)
    ensures r.Some? ==> r.value.Otherwise?
  {
    if ts == [] then None
    else if ts[|ts| - 1].Otherwise? then Some(ts[|ts| - 1])
    else LastOtherwise(ts[..|ts| - 1])
  }

  /** The transition compute takes: the last matching guard, else the otherwise transition. */
  ghost function Chosen(ts: seq<Transition>, e: MultiEvent): Option<Transition>
  {
    if LastMatch(ts, e).Some? then LastMatch(ts, e) else LastOtherwise(ts)
  }

  /** LastWhere finds the last accepted transition, and nothing after it is accepted. */
  lemma {:induction false} LastWhereIsLast(ts: seq<Transition>, p: Transition -> bool) returns (i: int)
    ensures LastWhere(ts, p).None? ==> forall j :: 0 <= j < |ts| ==> !p(ts[j])
    ensures LastWhere(ts, p).Some? ==>
              0 <= i < |ts| && p(ts[i]) && LastWhere(ts, p) == Some(ts[i]) &&
              forall j :: i < j < |ts| ==> !p(ts[j])
  {
    if ts == [] {
      return 0;
    }
    var n := |ts| - 1;
    if p(ts[n]) {
      return n;
    }
    i := LastWhereIsLast(ts[..n], p);
    assert forall j :: 0 <= j < n ==> ts[..n][j] == ts[j];
  }

  /**
   * The choice made by compute when some guard matches: the last matching
   * transition in list order, no later transition matching; when none
   * matches, the otherwise transition is taken.
   */
  lemma LastMatchIsLast(ts: seq<Transition>, e: MultiEvent) returns (i: int)
    ensures LastMatch(ts, e).None? ==>
              (forall j :: 0 <= j < |ts| ==> !Matches(ts[j], e)) && Chosen(ts, e) == LastOtherwise(ts)
    ensures LastMatch(ts, e).Some? ==>
              0 <= i < |ts| && Matches(ts[i], e) && Chosen(ts, e) == Some(ts[i]) &&
              forall j :: i < j < |ts| ==> !Matches(ts[j], e)
  {
    i := LastWhereIsLast(ts, t => Matches(t, e));
  }

  /**
   * The inputs on which compute terminates from a state with list ts: every
   * guard can be met with e, and the function of the transition taken, the
   * only one applied, can be applied to e.
   */
  ghost predicate StepDefined(ts: seq<Transition>, e: MultiEvent)
  {
    (forall i :: 0 <= i < |ts| && ts[i].Ordinary? ==> IntersectionDefined(e, ts[i].cond)) &&
    (Chosen(ts, e).Some? ==> Applicable(Chosen(ts, e).value.fn, e))
  }

  /** The destinations of a list of transitions. */
  function Dests(ts: seq<Transition>): (r: set<State>)
    ensures forall i :: 0 <= i < |ts| ==> ts[i].dest in r
  {
    if ts == [] then {} else Dests(ts[..|ts| - 1]) + {ts[|ts| - 1].dest}
  }

  /** The states listed as destinations of the transitions of s. */
  function Succ(d: Delta, s: State): set<State>
  {
    Dests(ListOf(d, s))
  }

  /** A walk through the machine: each state is a destination of the one before. */
  ghost predicate IsPath(d: Delta, p: seq<State>)
  {
    |p| > 0 && forall i :: 0 <= i < |p| - 1 ==> p[i + 1] in Succ(d, p[i])
  }

  ghost predicate Reaches(d: Delta, a: State, b: State)
  {
    exists p :: IsPath(d, p) && p[0] == a && p[|p| - 1] == b
  }

  lemma ReachesSelf(d: Delta, a: State)
    ensures Reaches(d, a, a)
  {
    assert IsPath(d, [a]);
  }

  lemma ReachesStep(d: Delta, a: State, b: State, c: State)
    requires Reaches(d, a, b) && c in Succ(d, b)
    ensures Reaches(d, a, c)
  {
    var p :| IsPath(d, p) && p[0] == a && p[|p| - 1] == b;
    assert IsPath(d, p + [c]);
  }

  /** The states reachable from the initial state; none when there is no initial state. */
  ghost predicate Reachable(d: Delta, init: Option<State>, k: State)
  {
    init.Some? && Reaches(d, init.value, k)
  }

  /** The transition relation after removeUnreachableStates. */
  ghost function Pruned(d: Delta, init: Option<State>): Delta
  {
    map k | k in d && Reachable(d, init, k) :: d[k]
  }

  /** A set holding a and closed under successors holds everything a reaches. */
  lemma ClosedHoldsReachable(d: Delta, a: State, seen: set<State>, b: State)
    requires a in seen
    requires forall s :: s in seen ==> Succ(d, s) <= seen
    requires Reaches(d, a, b)
    ensures b in seen
  {
    var p :| IsPath(d, p) && p[0] == a && p[|p| - 1] == b;
    var i := 0;
    while i < |p| - 1
      invariant 0 <= i < |p| && p[i] in seen
    {
      i := i + 1;
    }
  }

  /**
   * Every state on a walk from the initial state is itself reachable, so it
   * survives the pruning and the walk stays a walk in the pruned relation.
   */
  lemma PathSurvivesPruning(d: Delta, init: State, p: seq<State>)
    requires IsPath(d, p) && p[0] == init
    ensures IsPath(Pruned(d, Some(init)), p)
  {
    var pd := Pruned(d, Some(init));
    forall i | 0 <= i < |p| - 1
      ensures p[i + 1] in Succ(pd, p[i])
    {
      assert IsPath(d, p[..i + 1]);
      assert Reaches(d, init, p[i]);
      assert p[i + 1] in Succ(d, p[i]);
      assert p[i] in d;
      assert ListOf(pd, p[i]) == ListOf(d, p[i]);
    }
  }

  /**
   * After pruning, every remaining state is reachable from the initial
   * state and keeps its list; reachable states are all kept; and pruning
   * again changes nothing.
   */
  lemma PrunedProperties(d: Delta, init: Option<State>)
    ensures forall k :: k in Pruned(d, init) ==> Reachable(d, init, k) && Pruned(d, init)[k] == d[k]
    ensures forall k :: k in d && Reachable(d, init, k) ==> k in Pruned(d, init)
    ensures Pruned(Pruned(d, init), init) == Pruned(d, init)
  {
    var pd := Pruned(d, init);
    forall k | k in pd
      ensures Reachable(pd, init, k)
    {
      var p :| IsPath(d, p) && p[0] == init.value && p[|p| - 1] == k;
      PathSurvivesPruning(d, init.value, p);
    }
    assert Pruned(pd, init).Keys == pd.Keys;
  }

  /**
   * One visit of the worklist search: queue every destination of `current`
   * that has not been seen yet.
   */
  method Visit(d: Delta, current: State, seen: set<State>, toVisit: set<State>) returns (queued: set<State>)
    ensures queued == toVisit + (Succ(d, current) - seen)
  {
    queued := toVisit;
    if current !in d {
      return;
    }
    var trans := d[current];
    var j := 0;
    while j < |trans|
      invariant j <= |trans|
      invariant queued == toVisit + (Dests(trans[..j]) - seen)
    {
      assert trans[..j + 1][..j] == trans[..j];
      var dest := trans[j].dest;
      if dest !in seen {
        queued := queued + {dest};
      }
      j := j + 1;
    }
    assert trans[..j] == trans;
  }

  /** Every destination listed anywhere in d. */
  ghost function AllDests(d: Delta): (u: set<State>)
    ensures forall s :: Succ(d, s) <= u
    decreases |d|
  {
    if d == map[] then {}
    else
      assert d.Keys != {};
      SomeState(d.Keys);
      var k :| k in d;
      var rest := d - {k};
      assert forall s :: s != k ==> Succ(rest, s) == Succ(d, s);
      AllDests(rest) + Succ(d, k)
  }

  /**
   * What the worklist search keeps true: everything seen or queued lies in
   * the universe and is reachable, the initial state is seen or queued, and
   * the destinations of a seen state are seen or queued.
   */
  ghost predicate SearchInvariant(d: Delta, init: Option<State>, universe: set<State>,
                                  seen: set<State>, toVisit: set<State>)
  {
    seen + toVisit <= universe &&
    (forall s :: s in seen + toVisit ==> Reachable(d, init, s)) &&
    (init.Some? ==> init.value in seen + toVisit) &&
    (forall s :: s in seen ==> Succ(d, s) <= seen + toVisit)
  }

  /**
   * One round of the first loop of removeUnreachableStates: take a queued
   * state; unless already seen, mark it seen and queue its unseen
   * destinations.
   */
  method SearchRound(d: Delta, init: Option<State>, ghost universe: set<State>,
                     seen: set<State>, toVisit: set<State>) returns (seen': set<State>, toVisit': set<State>)
    requires AllDests(d) <= universe
    requires SearchInvariant(d, init, universe, seen, toVisit) && toVisit != {}
    ensures SearchInvariant(d, init, universe, seen', toVisit')
    ensures |universe - seen'| < |universe - seen| || (seen' == seen && |toVisit'| < |toVisit|)
  {
    SomeState(toVisit);
    var current :| current in toVisit;
    toVisit' := toVisit - {current};
    seen' := seen;
    if current in seen {
      assert seen + toVisit' == seen + toVisit;
      return;
    }
    seen' := seen + {current};
    toVisit' := Visit(d, current, seen', toVisit');
    MarkSeen(d, init, universe, seen, toVisit, current);
  }

  /** Marking a queued state seen and queueing its unseen destinations keeps the search invariant. */
  lemma MarkSeen(d: Delta, init: Option<State>, universe: set<State>,
                 seen: set<State>, toVisit: set<State>, current: State)
    requires AllDests(d) <= universe
    requires SearchInvariant(d, init, universe, seen, toVisit)
    requires current in toVisit && current !in seen
    ensures var seen' := seen + {current};
            var toVisit' := (toVisit - {current}) + (Succ(d, current) - seen');
            SearchInvariant(d, init, universe, seen', toVisit') &&
            |universe - seen'| < |universe - seen|
  {
    var seen' := seen + {current};
    assert universe - seen' < universe - seen;
    forall t | t in Succ(d, current)
      ensures Reachable(d, init, t)
    {
      ReachesStep(d, init.value, current, t);
    }
  }

  /**
   * The first loop of removeUnreachableStates: a worklist search from the
   * initial state, marking each state seen once and queueing its unseen
   * destinations.
   */
  method Explore(d: Delta, init: Option<State>) returns (seen: set<State>)
    ensures forall k :: k in seen <==> Reachable(d, init, k)
  {
    seen := {};
    var toVisit: set<State> := if init.Some? then {init.value} else {};
    ghost var universe := AllDests(d) + toVisit;
    if init.Some? {
      ReachesSelf(d, init.value);
    }
    while toVisit != {}
      invariant SearchInvariant(d, init, universe, seen, toVisit)
      decreases |universe - seen|, |toVisit|
    {
      seen, toVisit := SearchRound(d, init, universe, seen, toVisit);
    }
    forall k | Reachable(d, init, k)
      ensures k in seen
    {
      ClosedHoldsReachable(d, init.value, seen, k);
    }
  }

  class ExplicitPropositionalMachine {
    /** m_state: the current state; None until the first transition is added. */
    var state: Option<State>
    /** m_initialState. */
    var initial: Option<State>
    /** m_delta. */
    var delta: Delta

    /** An empty machine: no state, no transition. */
    constructor ()
      ensures state.None? && initial.None? && delta == map[]
    {
      state := None;
      initial := None;
      delta := map[];
    }

    /** getInitialState(). */
    function GetInitialState(): (r: Option<State>)
      reads this
      ensures r == initial
    {
      initial
    }

    /** getStateCount(): the states with an entry, i.e. the sources of added transitions. */
    function StateCount(): (r: nat)
      reads this
      ensures r == |delta.Keys|
    {
      |delta|
    }

    /** getTransitionsFor(s): the stored list, or a fresh empty list for a state without entry. */
    function TransitionsFor(s: State): (r: seq<Transition>)
      reads this
      ensures s in delta ==> r == delta[s]
      ensures s !in delta ==> r == []
    {
      ListOf(delta, s)
    }

    /** getTransitionCount(): the lengths of all the lists, added up over the map's entries. */
    method TransitionCount() returns (n: nat)
      ensures n == Total(delta)
    {
      n := 0;
      var rest := delta.Keys;
      while rest != {}
        invariant rest <= delta.Keys
        invariant n + SumOver(rest, LengthIn(delta)) == Total(delta)
        decreases rest
      {
        SomeState(rest);
        var s :| s in rest;
        SumOverRemove(rest, LengthIn(delta), s);
        n := n + |delta[s]|;
        rest := rest - {s};
      }
    }

    /** setInitialState(s): changes the initial state only. */
    method SetInitialState(s: State)
      modifies this`initial
      ensures initial == Some(s)
    {
      initial := Some(s);
    }

    /**
     * addTransition(source, t): appends t to the list of source. The first
     * call also makes source the initial and the current state.
     */
    method AddTransition(source: State, t: Transition)
      modifies this
      ensures old(initial).None? ==> initial == Some(source) && state == Some(source)
      ensures old(initial).Some? ==> initial == old(initial) && state == old(state)
      ensures delta == old(delta)[source := ListOf(old(delta), source) + [t]]
      ensures Total(delta) == Total(old(delta)) + 1
      ensures delta.Keys == old(delta).Keys + {source}
    {
      if initial.None? {
        initial := Some(source);
        state := Some(source);
      }
      var list: seq<Transition> := [];
      if source in delta {
        list := delta[source];
      }
      TotalAppend(delta, source, t);
      delta := delta[source := list + [t]];
    }

    /**
     * compute(e): from the current state, take the last transition whose
     * guard meets e, else the otherwise transition. `moved` is the return
     * value and `out` the output queued (None when the function gives null).
     * Without an entry for the current state, or with nowhere to go, nothing
     * changes.
     */
    method Compute(e: MultiEvent) returns (moved: bool, out: Option<MultiEvent>)
      requires state.Some? && state.value in delta ==> StepDefined(delta[state.value], e)
      modifies this`state
      ensures !(old(state).Some? && old(state).value in delta) ==> !moved && out.None? && state == old(state)
      ensures old(state).Some? && old(state).value in delta ==>
                var c := Chosen(delta[old(state).value], e);
                (c.None? ==> !moved && out.None? && state == old(state)) &&
                (c.Some? ==> moved && state == Some(c.value.dest) && out == Output(c.value.fn, e))
    {
      if state.None? || state.value !in delta {
        return false, None;
      }
      var ts := delta[state.value];
      var candidate: Option<Transition> := None;
      var otherwise: Option<Transition> := None;
      var i := 0;
      while i < |ts|
        invariant i <= |ts|
        invariant candidate == LastMatch(ts[..i], e)
        invariant otherwise == LastOtherwise(ts[..i])
        invariant state == old(state)
      {
        assert ts[..i + 1][..i] == ts[..i];
        var t := ts[i];
        if t.Otherwise? {
          otherwise := Some(t);
        } else {
          var common := GetIntersection(e, t.cond);
          if |common| > 0 {
            candidate := Some(t);
          }
        }
        i := i + 1;
      }
      assert ts[..i] == ts;
      assert candidate == LastMatch(ts, e) && otherwise == LastOtherwise(ts);
      var toTake := if candidate.Some? then candidate else otherwise;
      assert Chosen(ts, e) == toTake;
      if toTake.None? {
        return false, None;
      }
      out := ApplyFunction(toTake.value.fn, e);
      state := Some(toTake.value.dest);
      moved := true;
    }

    /**
     * removeUnreachableStates(): drops the entry of every state that the
     * initial state does not reach; reachable entries stay as they are.
     */
    method RemoveUnreachableStates()
      modifies this`delta
      ensures delta == Pruned(old(delta), initial)
    {
      var seen := Explore(delta, initial);
      var all := delta.Keys;
      var rest := all;
      while rest != {}
        invariant rest <= all
        invariant forall k :: k in delta <==> k in all && (k in seen || k in rest)
        invariant forall k :: k in delta ==> delta[k] == old(delta)[k]
        decreases rest
      {
        SomeState(rest);
        var s :| s in rest;
        if s !in seen {
          delta := delta - {s};
        }
        rest := rest - {s};
      }
      assert forall k :: k in delta <==> k in Pruned(old(delta), initial);
    }
  }
}
