/**
 Particular schedules of the interleaved engine: the sequential run is one of them, and the budget
 bound under races is reached by another.
 */
module Schedules {
  import opened Basics
  import opened Json
  import opened Pipelines
  import opened Dispatching
  import opened Machine
  import opened Interleaving

  lemma {:induction false} DoAllAppend<S>(env: Env<S>, s: Sys<S>, a: seq<Action<S>>, b: seq<Action<S>>)
    ensures DoAll(env, s, a + b) == DoAll(env, DoAll(env, s, a), b)
    decreases |a|
  {
    hide Do;
    if a == [] {
      assert a + b == b;
    } else {
      assert (a + b)[1..] == a[1..] + b;
      DoAllAppend(env, Do(env, s, a[0]), a[1..], b);
    }
  }

  lemma DoAllOne<S>(env: Env<S>, s: Sys<S>, a: Action<S>)
    ensures DoAll(env, s, [a]) == Do(env, s, a)
  {
    hide Do;
    assert [a][1..] == [];
  }

  function Goes<S>(t: nat, k: nat): seq<Action<S>> {
    seq(k, _ => Go(t))
  }

  /** Scheduling one task k times in a row iterates its stack k times and leaves the other tasks alone. */
  lemma {:induction false} AloneIterates<S>(env: Env<S>, s: Sys<S>, t: nat, k: nat)
    requires t < |s.stacks|
    ensures var e := DoAll(env, s, Goes(t, k));
      var (w', stack') := Iterate(env, k, s.w, s.stacks[t]);
      e.w == w' && e.stacks == s.stacks[t := stack']
    decreases k
  {
    hide Advance;
    var acts: seq<Action<S>> := Goes(t, k);
    if k == 0 {
      assert s.stacks[t := s.stacks[t]] == s.stacks;
    } else {
      assert acts[1..] == Goes(t, k - 1);
      var next := Do(env, s, Go(t));
      AloneIterates(env, next, t, k - 1);
      if s.stacks[t] == [] {
        assert next == s;
        EmptyStays(env, k - 1, s.w);
      }
    }
  }

  lemma EmptyStays<S>(env: Env<S>, k: nat, w: World<S>)
    ensures Iterate(env, k, w, []) == (w, [])
  {
  }

  /**
   Every sequential dispatch is a schedule: starting it on an idle task and letting only that task
   run gets to exactly the shared state, and hence the trace, of the big-step semantics.
   */
  lemma SequentialIsASchedule<S>(
    fuel: nat, env: Env<S>, sc: Scope, pid: string, params: ParamMap, s: Sys<S>, t: nat)
    requires t < |s.stacks| && s.stacks[t] == []
    requires Dispatch(fuel, env, sc, pid, params, s.w).Some?
    ensures exists k: nat :: var e := DoAll(env, s, [Start(t, sc, pid, params)] + Goes(t, k));
              e.w == Dispatch(fuel, env, sc, pid, params, s.w).value.w && e.stacks == s.stacks
  {
    hide Dispatch, Advance, Iterate, Goes, DoAll;
    var r := Dispatch(fuel, env, sc, pid, params, s.w).value;
    var start: Action<S> := Start(t, sc, pid, params);
    var a := Activation(s.w.nextId, sc, pid, params, Entered);
    DispatchSimulated(fuel, env, sc, pid, params, s.w, []);
    assert [] + [a] == [a];
    var k: nat :| Iterate(env, k, s.w.(nextId := s.w.nextId + 1), [a]) == (r.w, Return([], r.out));
    DoAllAppend(env, s, [start], Goes(t, k));
    DoAllOne(env, s, start);
    AloneIterates(env, Do(env, s, start), t, k);
    assert s.stacks[t := [a]][t := []] == s.stacks;
  }

  // ----- Who can spend -----

  /** What is left of a pipeline that only subgates and the budget can refuse and that does nothing. */
  function Bare(p: Pipeline): Pipeline {
    p.(schema := Null, preconditions := [], steps := [])
  }

  /** The subgates judge by id, class, flags, parameters and state, not by what a pipeline asks or does. */
  ghost predicate StepBlind<S(!new)>(gates: seq<Gate<S>>) {
    forall g, p, params, host :: g in gates ==> g.check(p, params, host) == g.check(Bare(p), params, host)
  }

  /** A dispatch the subgates let through when the host is as given. */
  datatype Probe<!S> = Probe(p: Pipeline, params: ParamMap, host: S)

  predicate Passes<S>(env: Env<S>, q: Probe<S>) {
    q.p.visibility.Surfaced? && GateCheck(env.gates, q.p, q.params, q.host).1.None?
  }

  /** In some state the subgates let some Surfaced pipeline through. */
  ghost predicate Passable<S(!new)>(env: Env<S>) {
    exists q :: Passes(env, q)
  }

  /** A probe nothing but the budget, the switch and the subgates can refuse. */
  predicate Cheap<S>(env: Env<S>, q: Probe<S>) {
    Passes(env, q) && q.p == Bare(q.p)
  }

  lemma {:induction false} BlindCheck<S(!new)>(gates: seq<Gate<S>>, p: Pipeline, params: ParamMap, host: S)
    requires StepBlind(gates)
    ensures GateCheck(gates, Bare(p), params, host) == GateCheck(gates, p, params, host)
    decreases |gates|
  {
    if gates != [] {
      var (host', verdict) := gates[0].check(Bare(p), params, host);
      assert gates[0] in gates;
      BlindCheck(gates[1..], p, params, host');
    }
  }

  lemma CheapProbe<S(!new)>(env: Env<S>) returns (q: Probe<S>)
    requires StepBlind(env.gates) && Passable(env)
    ensures Cheap(env, q)
  {
    var r: Probe<S> :| Passes(env, r);
    BlindCheck(env.gates, r.p, r.params, r.host);
    q := r.(p := Bare(r.p));
  }

  function Solo<S>(q: Probe<S>): Scope {
    Scope("", [q.p])
  }

  function StartProbe<S>(t: nat, q: Probe<S>): Action<S> {
    Start(t, Solo(q), q.p.id, q.params)
  }

  /** The switch disarmed and the host as the probe wants it. */
  function Prepare<S>(q: Probe<S>): Action<S> {
    Outside(q.host, false)
  }

  // ----- The overshoot is real -----

  predicate Checked<S>(stack: Stack, q: Probe<S>) {
    |stack| == 1 && stack[0].phase == BudgetPassed(q.p) && stack[0].params == q.params
  }

  /** Tasks before `k` have passed the check and not paid; the others are idle. */
  predicate CheckedUpTo<S>(s: Sys<S>, q: Probe<S>, k: nat) {
    && k <= |s.stacks|
    && forall i :: 0 <= i < |s.stacks| ==> if i < k then Checked(s.stacks[i], q) else s.stacks[i] == []
  }

  lemma CheckOne<S>(env: Env<S>, s: Sys<S>, q: Probe<S>, k: nat)
    requires Cheap(env, q) && s.w.used < env.ceiling
    requires k < |s.stacks| && CheckedUpTo(s, q, k)
    ensures var e := DoAll(env, s, [StartProbe(k, q), Go(k)]);
      CheckedUpTo(e, q, k + 1) && e.w.used == s.w.used && |e.stacks| == |s.stacks|
  {
    hide DoAll, GateCheck;
    var start: Action<S>, go: Action<S> := StartProbe(k, q), Go(k);
    assert [start, go] == [start] + [go];
    DoAllAppend(env, s, [start], [go]);
    DoAllOne(env, s, start);
    DoAllOne(env, Do(env, s, start), go);
  }

  lemma {:induction false} CheckAll<S>(env: Env<S>, s: Sys<S>, q: Probe<S>, k: nat) returns (acts: seq<Action<S>>)
    requires Cheap(env, q) && s.w.used < env.ceiling && CheckedUpTo(s, q, k)
    ensures var e := DoAll(env, s, acts);
      CheckedUpTo(e, q, |s.stacks|) && e.w.used == s.w.used && |e.stacks| == |s.stacks|
    decreases |s.stacks| - k
  {
    hide Cheap;
    if k == |s.stacks| {
      acts := [];
    } else {
      var now: seq<Action<S>> := [StartProbe(k, q), Go(k)];
      CheckOne(env, s, q, k);
      var later := CheckAll(env, DoAll(env, s, now), q, k + 1);
      DoAllAppend(env, s, now, later);
      acts := now + later;
    }
  }

  /** Preparation; then switch, subgates, parameters and preconditions, debit: four actions, one unit. */
  function Paying<S>(q: Probe<S>, t: nat): seq<Action<S>> {
    [Prepare(q)] + Goes(t, 4)
  }

  lemma PayOne<S>(env: Env<S>, s: Sys<S>, q: Probe<S>, k: nat)
    requires Cheap(env, q) && k < |s.stacks| && Checked(s.stacks[k], q)
    ensures var e := DoAll(env, s, Paying(q, k));
      && e.w.used == s.w.used + 1 && |e.stacks| == |s.stacks|
      && forall i :: 0 <= i < |s.stacks| && i != k ==> e.stacks[i] == s.stacks[i]
  {
    hide DoAll, Goes;
    var prepare: Action<S> := Prepare(q);
    var ready := Do(env, s, prepare);
    DoAllOne(env, s, prepare);
    DoAllAppend(env, s, [prepare], Goes(k, 4));
    AloneIterates(env, ready, k, 4);
    FourActions(env, ready.w, s.stacks[k], q);
  }

  lemma FourActions<S>(env: Env<S>, w: World<S>, stack: Stack, q: Probe<S>)
    requires Cheap(env, q) && !w.armed && w.host == q.host && Checked(stack, q)
    ensures Iterate(env, 4, w, stack).0.used == w.used + 1
  {
    hide Iterate, Advance, Find, LinkSnapshot, Resolve, RunStep, GateCheck;
    var p := q.p;
    var a := stack[0];
    assert stack == [a];
    var b := a.(phase := KillPassed(p));
    AdvanceAlone(env, w, a);
    var through := w.(host := GateCheck(env.gates, p, q.params, q.host).0);
    var c := a.(phase := Gated(p));
    AdvanceAlone(env, w, b);
    var ctx := LeafCtx(a.sc.broker, a.pid, a.params, env.overlay(a.sc.broker, through.host), env.frame);
    var d := a.(phase := Cleared(p, ctx));
    AdvanceAlone(env, through, c);
    var paid := through.(used := w.used + 1);
    var e := a.(phase := Running(p, ctx, [], Null));
    AdvanceAlone(env, through, d);
    IterateOnce(env, 3, w, [a]);
    IterateOnce(env, 2, w, [b]);
    IterateOnce(env, 1, through, [c]);
    IterateOnce(env, 0, through, [d]);
    IterateNone(env, paid, [e]);
  }

  lemma AdvanceAlone<S>(env: Env<S>, w: World<S>, a: Activation)
    requires Act(env, w, a).Became?
    ensures Advance(env, w, [a]) == (Act(env, w, a).w, [a.(phase := Act(env, w, a).phase)])
  {
    hide Act;
    var b := a.(phase := Act(env, w, a).phase);
    assert [a][..0] + [b] == [b];
  }

  lemma IterateOnce<S>(env: Env<S>, k: nat, w: World<S>, stack: Stack)
    requires stack != []
    ensures var (w', stack') := Advance(env, w, stack); Iterate(env, k + 1, w, stack) == Iterate(env, k, w', stack')
  {
    hide Advance;
  }

  lemma IterateNone<S>(env: Env<S>, w: World<S>, stack: Stack)
    ensures Iterate(env, 0, w, stack) == (w, stack)
  {
  }

  lemma {:induction false} PayAll<S>(env: Env<S>, s: Sys<S>, q: Probe<S>, k: nat) returns (acts: seq<Action<S>>)
    requires Cheap(env, q) && k <= |s.stacks|
    requires forall i :: k <= i < |s.stacks| ==> Checked(s.stacks[i], q)
    ensures DoAll(env, s, acts).w.used == s.w.used + (|s.stacks| - k)
    decreases |s.stacks| - k
  {
    hide Cheap, Checked;
    if k == |s.stacks| {
      acts := [];
    } else {
      PayOne(env, s, q, k);
      var later := PayAll(env, DoAll(env, s, Paying(q, k)), q, k + 1);
      DoAllAppend(env, s, Paying(q, k), later);
      acts := Paying(q, k) + later;
    }
  }

  lemma CheapDispatch<S>(env: Env<S>, q: Probe<S>, w: World<S>)
    requires Cheap(env, q) && !w.armed && w.host == q.host && w.used < env.ceiling
    ensures var r := Dispatch(1, env, Solo(q), q.p.id, q.params, w);
      r.Some? && r.value.w.used == w.used + 1
  {
    hide LinkSnapshot, GateCheck;
  }

  /** One dispatch on an idle task, from start to end. */
  lemma SpendOne<S>(env: Env<S>, s: Sys<S>, q: Probe<S>) returns (acts: seq<Action<S>>)
    requires Cheap(env, q) && s.w.used < env.ceiling && s.stacks != [] && s.stacks[0] == []
    ensures var e := DoAll(env, s, acts); e.w.used == s.w.used + 1 && e.stacks == s.stacks
  {
    hide Dispatch, DoAll, Goes, Cheap, Solo;
    var prepare: Action<S> := Prepare(q);
    var ready := Do(env, s, prepare);
    DoAllOne(env, s, prepare);
    CheapDispatch(env, q, ready.w);
    SequentialIsASchedule(1, env, Solo(q), q.p.id, q.params, ready, 0);
    var start: Action<S> := StartProbe(0, q);
    var k: nat :| var e := DoAll(env, ready, [start] + Goes(0, k));
      e.w == Dispatch(1, env, Solo(q), q.p.id, q.params, ready.w).value.w && e.stacks == s.stacks;
    DoAllAppend(env, s, [prepare], [start] + Goes(0, k));
    acts := [prepare] + ([start] + Goes(0, k));
  }

  lemma {:induction false} SpendMany<S>(env: Env<S>, s: Sys<S>, q: Probe<S>, k: nat) returns (acts: seq<Action<S>>)
    requires Cheap(env, q) && s.w.used + k <= env.ceiling && s.stacks != [] && s.stacks[0] == []
    ensures var e := DoAll(env, s, acts); e.w.used == s.w.used + k && e.stacks == s.stacks
    decreases k
  {
    if k == 0 {
      acts := [];
    } else {
      hide DoAll;
      var first := SpendOne(env, s, q);
      var rest := SpendMany(env, DoAll(env, s, first), q, k - 1);
      DoAllAppend(env, s, first, rest);
      acts := first + rest;
    }
  }

  /** With one unit left, n tasks that all check before any pays. */
  lemma Overshoot<S>(env: Env<S>, s: Sys<S>, q: Probe<S>) returns (acts: seq<Action<S>>)
    requires Cheap(env, q) && Quiet(s) && |s.stacks| >= 1 && s.w.used + 1 == env.ceiling
    ensures DoAll(env, s, acts).w.used == env.ceiling + |s.stacks| - 1
  {
    hide DoAll, Cheap;
    var first := CheckAll(env, s, q, 0);
    var mid := DoAll(env, s, first);
    var second := PayAll(env, mid, q, 0);
    DoAllAppend(env, s, first, second);
    acts := first + second;
  }

  /**
   The race bound is tight: when the subgates let anything Surfaced through, then whatever the start,
   some schedule of n tasks leaves the counter at ceiling + n - 1.
   */
  lemma OvershootReached<S(!new)>(env: Env<S>, s: Sys<S>) returns (acts: seq<Action<S>>)
    requires StepBlind(env.gates) && Passable(env)
    requires Initial(env, s) && |s.stacks| >= 1 && env.ceiling >= 1
    ensures DoAll(env, s, acts).w.used == env.ceiling + |s.stacks| - 1
  {
    hide DoAll, StepBlind, Passable, Cheap;
    var q := CheapProbe(env);
    var reset: Action<S> := ResetBudget;
    DoAllOne(env, s, reset);
    var fromZero := DoAll(env, s, [reset]);
    var most := SpendMany(env, fromZero, q, env.ceiling - 1);
    var ready := DoAll(env, fromZero, most);
    var last := Overshoot(env, ready, q);
    DoAllAppend(env, s, [reset], most);
    DoAllAppend(env, s, [reset] + most, last);
    acts := [reset] + most + last;
  }

  // ----- Subgates that let nothing through -----

  /** No activation has a Surfaced pipeline past the subgates and not yet paid for. */
  predicate Stopped(a: Activation) {
    match a.phase
    case Gated(p) => !p.visibility.Surfaced?
    case Cleared(p, _) => !p.visibility.Surfaced?
    case _ => true
  }

  ghost predicate AllStopped(stack: Stack) {
    forall i :: 0 <= i < |stack| ==> Stopped(stack[i])
  }

  lemma MoveStopped<S(!new)>(env: Env<S>, w: World<S>, a: Activation)
    requires !Passable(env) && Stopped(a)
    ensures var m := Act(env, w, a);
      && m.w.used == w.used
      && (m.Became? ==> Stopped(a.(phase := m.phase)))
      && (m.Called? ==> Stopped(m.callee))
  {
    hide GateCheck, LinkSnapshot, Holds, Resolve, Unmet, ParamsValid, Find;
    if a.phase.KillPassed? {
      assert !Passes(env, Probe(a.phase.p, a.params, w.host));
    }
  }

  lemma AdvanceStopped<S(!new)>(env: Env<S>, w: World<S>, stack: Stack)
    requires !Passable(env) && stack != [] && AllStopped(stack)
    ensures var (w', stack') := Advance(env, w, stack); w'.used == w.used && AllStopped(stack')
  {
    hide Act, Passable;
    MoveStopped(env, w, stack[|stack| - 1]);
  }

  lemma {:induction false} NothingPasses<S(!new)>(env: Env<S>, s: Sys<S>, actions: seq<Action<S>>)
    requires !Passable(env) && forall t :: 0 <= t < |s.stacks| ==> AllStopped(s.stacks[t])
    ensures DoAll(env, s, actions).w.used <= s.w.used
    decreases |actions|
  {
    hide Advance, Passable;
    if actions != [] {
      var a := actions[0];
      if a.Go? && a.t < |s.stacks| && s.stacks[a.t] != [] {
        AdvanceStopped(env, s.w, s.stacks[a.t]);
      }
      NothingPasses(env, Do(env, s, a), actions[1..]);
    }
  }

  /**
   With subgates that do not look at steps, the ceiling is kept on every schedule if and only if there is one task at
   most, or the ceiling is zero, or the subgates refuse every Surfaced pipeline in every state.
   */
  lemma CeilingKeptExactly<S(!new)>(env: Env<S>, s: Sys<S>)
    requires StepBlind(env.gates) && Initial(env, s)
    ensures (forall acts :: DoAll(env, s, acts).w.used <= env.ceiling) <==>
            |s.stacks| <= 1 || env.ceiling == 0 || !Passable(env)
  {
    hide DoAll, StepBlind, Passable;
    if |s.stacks| <= 1 || env.ceiling == 0 || !Passable(env) {
      forall acts ensures DoAll(env, s, acts).w.used <= env.ceiling {
        if env.ceiling == 0 || s.stacks == [] {
          NothingToSpend(env, s, acts);
        } else if |s.stacks| == 1 {
          BudgetBoundUnderRaces(env, s, acts);
        } else {
          NothingPasses(env, s, acts);
        }
      }
    } else {
      var acts := OvershootReached(env, s);
    }
  }

  /** With no subgates at all, anything Surfaced passes. */
  lemma NoGatesPassable<S(!new)>(env: Env<S>, host: S)
    requires env.gates == []
    ensures StepBlind(env.gates) && Passable(env)
  {
    var p := Pipeline("", Surfaced, Capability, Null, [], [], false);
    assert Passes(env, Probe(p, map[], host));
  }
}
