/**
 All interleavings of concurrent dispatches. Any number of tasks take turns, one atomic action at a
 time, while brokers tick and operators flip the kill switch or reset the budget in between. What survives every
 schedule: the budget overshoots by less than the number of tasks, every dispatch leaves exactly one
 record, and each broker's records form one chain of deltas from which its overlays can be replayed.
 */
module Interleaving {
  import opened Basics
  import opened Json
  import opened Pipelines
  import opened Traces
  import opened Dispatching
  import opened Machine
  import opened Chains
  import opened Audit

  /**
   The shared state, one stack per task, and history variables that no action reads: each broker's
   links, and the debits made since the counter was last at `base`.
   */
  datatype Sys<!S> = Sys(w: World<S>, stacks: seq<Stack>, chains: map<string, seq<Link>>, base: nat, debits: nat)

  datatype Action<!S> =
    | Start(t: nat, sc: Scope, pid: string, params: ParamMap)  // a new top-level dispatch on an idle task
    | Go(t: nat)                                               // the task's next atomic action
    | Outside(host: S, armed: bool)                            // a tick, or an operator at the switch
    | ResetBudget                                              // an operator resets the trust budget

  function ChainOf(chains: map<string, seq<Link>>, broker: string): seq<Link> {
    if broker in chains then chains[broker] else []
  }

  function Do<S>(env: Env<S>, s: Sys<S>, a: Action<S>): Sys<S> {
    match a
    case Start(t, sc, pid, params) =>
      if t < |s.stacks| && s.stacks[t] == [] then
        s.(w := s.w.(nextId := s.w.nextId + 1),
           stacks := s.stacks[t := [Activation(s.w.nextId, sc, pid, params, Entered)]])
      else s
    case Go(t) =>
      if t < |s.stacks| && s.stacks[t] != [] then
        var (w', stack') := Advance(env, s.w, s.stacks[t]);
        var top := s.stacks[t][|s.stacks[t]| - 1];
        Sys(w', s.stacks[t := stack'],
            if top.phase.Observed? then
              s.chains[top.sc.broker := ChainOf(s.chains, top.sc.broker)
                + [Link(stack'[|stack'| - 1].phase.rec, top.phase.overlay)]]
            else s.chains,
            s.base, s.debits + if top.phase.Cleared? && top.phase.p.visibility.Surfaced? then 1 else 0)
      else s
    case Outside(host, armed) => s.(w := s.w.(host := host, armed := armed))
    case ResetBudget => s.(w := s.w.(used := 0), base := 0, debits := 0)
  }

  function DoAll<S>(env: Env<S>, s: Sys<S>, actions: seq<Action<S>>): Sys<S>
    decreases |actions|
  {
    if actions == [] then s else DoAll(env, Do(env, s, actions[0]), actions[1..])
  }

  predicate Quiet<S>(s: Sys<S>) {
    forall t :: 0 <= t < |s.stacks| ==> s.stacks[t] == []
  }

  /** Nothing dispatched yet: no records, no snapshots, idle tasks, a budget not overdrawn. */
  predicate Initial<S>(env: Env<S>, s: Sys<S>) {
    && s.w.trace == [] && s.w.prior == map[] && s.chains == map[] && s.base == s.w.used && s.debits == 0
    && s.w.used <= env.ceiling && Quiet(s)
  }

  // ----- Stack shape: only the top activation is doing anything but waiting for a callee -----

  predicate Waiting(a: Activation) {
    a.phase.Running? && a.phase.todo != [] && a.phase.todo[0].SubPipeline?
  }

  ghost predicate Shaped(stack: Stack) {
    forall i :: 0 <= i < |stack| - 1 ==> Waiting(stack[i])
  }

  lemma AdvanceShaped<S>(env: Env<S>, w: World<S>, stack: Stack)
    requires stack != [] && Shaped(stack)
    ensures Shaped(Advance(env, w, stack).1)
  {
    hide RunStep, Enter, Clear, GateCheck, LinkSnapshot;
    var n := |stack| - 1;
    var m := Act(env, w, stack[n]);
    if m.Called? { CallerWaits(env, w, stack[n]); }
  }

  lemma CallerWaits<S>(env: Env<S>, w: World<S>, a: Activation)
    requires Act(env, w, a).Called?
    ensures Waiting(a)
    ensures Act(env, w, a).w == w.(nextId := w.nextId + 1)
    ensures Act(env, w, a).callee.phase == Entered && Act(env, w, a).callee.id == w.nextId
  {
  }

  // ----- Budget -----

  /** Past the budget check, not yet debited. */
  predicate PendingTop(stack: Stack) {
    stack != [] &&
    match stack[|stack| - 1].phase
    case BudgetPassed(_) => true
    case KillPassed(_) => true
    case Gated(p) => p.visibility.Surfaced?
    case Cleared(p, _) => p.visibility.Surfaced?
    case _ => false
  }

  function Pending(stacks: seq<Stack>): nat {
    if stacks == [] then 0 else (if PendingTop(stacks[0]) then 1 else 0) + Pending(stacks[1..])
  }

  lemma {:induction false} PendingUpdate(stacks: seq<Stack>, t: nat, stack: Stack)
    requires t < |stacks|
    ensures Pending(stacks[t := stack]) + (if PendingTop(stacks[t]) then 1 else 0)
         == Pending(stacks) + (if PendingTop(stack) then 1 else 0)
    ensures Pending(stacks) <= |stacks|
  {
    if t == 0 {
      assert stacks[t := stack][1..] == stacks[1..];
      if |stacks| > 1 { PendingUpdate(stacks[1..], 0, stacks[1]); }
    } else {
      assert stacks[t := stack][1..] == stacks[1..][t - 1 := stack];
      PendingUpdate(stacks[1..], t - 1, stack);
    }
  }

  /** Phase bookkeeping: governance phases always carry a Surfaced pipeline. */
  predicate SurfacedGate(a: Activation) {
    match a.phase
    case BudgetPassed(p) => p.visibility.Surfaced?
    case KillPassed(p) => p.visibility.Surfaced?
    case _ => true
  }

  lemma AdvanceBudget<S>(env: Env<S>, w: World<S>, stack: Stack)
    requires stack != [] && Shaped(stack) && SurfacedGate(stack[|stack| - 1])
    ensures var (w', stack') := Advance(env, w, stack);
      var top := stack[|stack| - 1];
      var debit := top.phase.Cleared? && top.phase.p.visibility.Surfaced?;
      && w'.used == w.used + (if debit then 1 else 0)
      && (PendingTop(stack') && !PendingTop(stack) ==> w.used < env.ceiling && !debit)
      && (debit ==> PendingTop(stack) && !PendingTop(stack'))
      && (stack' != [] ==> SurfacedGate(stack'[|stack'| - 1]))
  {
    hide GateCheck, LinkSnapshot, Holds, Resolve, Unmet, ParamsValid, Find;
  }

  ghost predicate BudgetInv<S>(env: Env<S>, s: Sys<S>) {
    && (forall t :: 0 <= t < |s.stacks| ==>
          Shaped(s.stacks[t]) && (s.stacks[t] != [] ==> SurfacedGate(s.stacks[t][|s.stacks[t]| - 1])))
    && s.w.used == s.base + s.debits
    && s.w.used + Pending(s.stacks) <= env.ceiling + |s.stacks| - 1
    && (env.ceiling == 0 ==> Pending(s.stacks) == 0 && s.w.used == 0)
  }

  lemma BudgetStep<S>(env: Env<S>, s: Sys<S>, a: Action<S>)
    requires BudgetInv(env, s) && |s.stacks| >= 1
    ensures BudgetInv(env, Do(env, s, a))
    ensures |Do(env, s, a).stacks| == |s.stacks|
    ensures a != ResetBudget ==> Do(env, s, a).base == s.base
  {
    hide Advance, Pending;
    match a {
      case Start(t, sc, pid, params) =>
        if t < |s.stacks| {
          PendingUpdate(s.stacks, t, [Activation(s.w.nextId, sc, pid, params, Entered)]);
        }
      case Go(t) =>
        if t < |s.stacks| && s.stacks[t] != [] {
          AdvanceShaped(env, s.w, s.stacks[t]);
          AdvanceBudget(env, s.w, s.stacks[t]);
          PendingUpdate(s.stacks, t, Advance(env, s.w, s.stacks[t]).1);
          PendingUpdate(Do(env, s, a).stacks, t, s.stacks[t]);
        }
      case Outside(_, _) =>
      case ResetBudget => PendingUpdate(s.stacks, 0, s.stacks[0]);
    }
  }

  lemma {:induction false} BudgetRun<S>(env: Env<S>, s: Sys<S>, actions: seq<Action<S>>)
    requires BudgetInv(env, s) && |s.stacks| >= 1
    ensures BudgetInv(env, DoAll(env, s, actions))
    ensures |DoAll(env, s, actions).stacks| == |s.stacks|
    ensures ResetBudget !in actions ==> DoAll(env, s, actions).base == s.base
    decreases |actions|
  {
    hide BudgetInv, Do;
    if actions != [] {
      BudgetStep(env, s, actions[0]);
      BudgetRun(env, Do(env, s, actions[0]), actions[1..]);
    }
  }

  lemma {:induction false} NobodyPending(stacks: seq<Stack>)
    requires forall t :: 0 <= t < |stacks| ==> stacks[t] == []
    ensures Pending(stacks) == 0
  {
    if stacks != [] {
      assert forall t :: 0 <= t < |stacks[1..]| ==> stacks[1..][t] == stacks[t + 1];
      NobodyPending(stacks[1..]);
    }
  }

  /**
   With n tasks the counter and the checks passed but not yet debited stay below ceiling + n, resets
   included (one task never exceeds the ceiling); and without a reset the counter has grown by exactly
   the Surfaced dispatches, nested ones included, that reached their steps.
   */
  lemma BudgetBoundUnderRaces<S>(env: Env<S>, s: Sys<S>, actions: seq<Action<S>>)
    requires Initial(env, s) && |s.stacks| >= 1
    ensures var e := DoAll(env, s, actions);
      && e.w.used == e.base + e.debits
      && (ResetBudget !in actions ==> e.base == s.w.used)
      && e.w.used + Pending(e.stacks) <= env.ceiling + |s.stacks| - 1
  {
    NobodyPending(s.stacks);
    BudgetRun(env, s, actions);
  }

  /** Nobody spends a budget of zero, and where there are no tasks nobody spends any. */
  lemma NothingToSpend<S>(env: Env<S>, s: Sys<S>, actions: seq<Action<S>>)
    requires Initial(env, s) && (env.ceiling == 0 || s.stacks == [])
    ensures DoAll(env, s, actions).w.used <= env.ceiling
  {
    if s.stacks == [] {
      NoTasks(env, s, actions);
    } else {
      NobodyPending(s.stacks);
      BudgetRun(env, s, actions);
    }
  }

  lemma {:induction false} NoTasks<S>(env: Env<S>, s: Sys<S>, actions: seq<Action<S>>)
    requires s.stacks == []
    ensures DoAll(env, s, actions).w.used <= s.w.used
    decreases |actions|
  {
    if actions != [] { NoTasks(env, Do(env, s, actions[0]), actions[1..]); }
  }

  // ----- Audit: every id drawn is on a stack or on exactly one record -----

  function IdsOf(stack: Stack): seq<nat> {
    seq(|stack|, i requires 0 <= i < |stack| => stack[i].id)
  }

  function RecordIds(trace: seq<Record>): seq<nat> {
    seq(|trace|, i requires 0 <= i < |trace| => trace[i].id)
  }

  ghost function OpenIds(stacks: seq<Stack>): multiset<nat> {
    if stacks == [] then multiset{} else multiset(IdsOf(stacks[0])) + OpenIds(stacks[1..])
  }

  lemma {:induction false} OpenUpdate(stacks: seq<Stack>, t: nat, stack: Stack)
    requires t < |stacks|
    ensures OpenIds(stacks[t := stack]) + multiset(IdsOf(stacks[t])) == OpenIds(stacks) + multiset(IdsOf(stack))
  {
    if t == 0 {
      assert stacks[t := stack][1..] == stacks[1..];
    } else {
      var next := stacks[t := stack];
      assert next[0] == stacks[0];
      assert next[1..] == stacks[1..][t - 1 := stack];
      OpenUpdate(stacks[1..], t - 1, stack);
      AddBoth(multiset(IdsOf(stacks[0])), OpenIds(next[1..]), multiset(IdsOf(stacks[t])), OpenIds(stacks[1..]),
        multiset(IdsOf(stack)));
    }
  }

  lemma AddBoth(a: multiset<nat>, b: multiset<nat>, x: multiset<nat>, c: multiset<nat>, y: multiset<nat>)
    requires b + x == c + y
    ensures a + b + x == a + c + y
  {
    forall id: nat ensures (a + b + x)[id] == (a + c + y)[id] {
      assert (b + x)[id] == (c + y)[id];
    }
  }

  /** Removing the same ids on both sides. */
  lemma Cancel(a: multiset<nat>, x: multiset<nat>, b: multiset<nat>)
    requires a + x == b + x
    ensures a == b
  {
    forall id: nat ensures a[id] == b[id] {
      assert (a + x)[id] == (b + x)[id];
    }
  }

  lemma OpenGrown(stacks: seq<Stack>, t: nat, stack: Stack, id: nat)
    requires t < |stacks| && IdsOf(stack) == IdsOf(stacks[t]) + [id]
    ensures OpenIds(stacks[t := stack]) == OpenIds(stacks) + multiset{id}
  {
    hide OpenIds;
    OpenUpdate(stacks, t, stack);
    Cancel(OpenIds(stacks[t := stack]), multiset(IdsOf(stacks[t])), OpenIds(stacks) + multiset{id});
  }

  lemma OpenShrunk(stacks: seq<Stack>, t: nat, stack: Stack, id: nat)
    requires t < |stacks| && IdsOf(stacks[t]) == IdsOf(stack) + [id]
    ensures OpenIds(stacks[t := stack]) + multiset{id} == OpenIds(stacks)
  {
    hide OpenIds;
    OpenUpdate(stacks, t, stack);
    Cancel(OpenIds(stacks[t := stack]) + multiset{id}, multiset(IdsOf(stack)), OpenIds(stacks));
  }

  lemma OpenSame(stacks: seq<Stack>, t: nat, stack: Stack)
    requires t < |stacks| && IdsOf(stacks[t]) == IdsOf(stack)
    ensures OpenIds(stacks[t := stack]) == OpenIds(stacks)
  {
    hide OpenIds;
    OpenUpdate(stacks, t, stack);
    Cancel(OpenIds(stacks[t := stack]), multiset(IdsOf(stack)), OpenIds(stacks));
  }

  lemma OpenTwice(stacks: seq<Stack>, t: nat, u: nat, id: nat)
    requires t < |stacks| && u < |stacks| && t != u && id in IdsOf(stacks[t]) && id in IdsOf(stacks[u])
    ensures OpenIds(stacks)[id] >= 2
  {
    hide OpenIds;
    OpenUpdate(stacks, t, []);
    OpenOnce(stacks[t := []], u, id);
    assert (OpenIds(stacks[t := []]) + multiset(IdsOf(stacks[t])))[id] == (OpenIds(stacks) + multiset(IdsOf([])))[id];
  }

  lemma OpenOnce(stacks: seq<Stack>, t: nat, id: nat)
    requires t < |stacks| && id in IdsOf(stacks[t])
    ensures OpenIds(stacks)[id] >= 1
  {
    hide OpenIds;
    OpenUpdate(stacks, t, []);
    assert (OpenIds(stacks[t := []]) + multiset(IdsOf(stacks[t])))[id] == (OpenIds(stacks) + multiset(IdsOf([])))[id];
  }

  /** The record made by an activation carries the activation's own id and broker. */
  predicate OwnRecord(a: Activation) {
    a.phase.Linked? ==> a.phase.rec.id == a.id && a.phase.rec.broker == a.sc.broker
  }

  predicate Fits(stack: Stack) {
    stack != [] ==> OwnRecord(stack[|stack| - 1])
  }

  /** What one move does to the ids, the trace and the snapshot cache. */
  lemma MoveIds<S>(env: Env<S>, w: World<S>, a: Activation)
    requires OwnRecord(a)
    ensures var m := Act(env, w, a);
      && (m.Returned? <==> a.phase.Linked?)
      && (m.Returned? ==> m.w == w.(trace := w.trace + [a.phase.rec]))
      && (!m.Returned? ==> m.w.trace == w.trace)
      && (m.Called? ==> m.w.nextId == w.nextId + 1 && m.callee.id == w.nextId && m.callee.phase == Entered)
      && (!m.Called? ==> m.w.nextId == w.nextId)
      && (m.Became? ==> OwnRecord(a.(phase := m.phase)) && (m.phase.Linked? <==> a.phase.Observed?))
      && (!a.phase.Observed? ==> m.w.prior == w.prior)
      && (a.phase.Observed? ==>
            var (prior', from, change) := LinkSnapshot(w.prior, a.sc.broker, a.id, a.phase.overlay);
            && m.Became? && m.w.prior == prior' && m.phase.rec.from == from && m.phase.rec.change == change
            && m.phase.rec.id == a.id && m.phase.rec.broker == a.sc.broker)
  {
    hide GateCheck, LinkSnapshot, Holds, Resolve, Unmet, ParamsValid, Find;
    if Act(env, w, a).Called? { CallerWaits(env, w, a); }
  }

  /** What an action does to the ids, the trace and the snapshot cache. */
  lemma AdvanceIds<S>(env: Env<S>, w: World<S>, stack: Stack)
    requires stack != [] && Shaped(stack) && Fits(stack)
    ensures var (w', stack') := Advance(env, w, stack);
      var top := stack[|stack| - 1];
      && Fits(stack')
      && (if top.phase.Linked? then
            && w' == w.(trace := w.trace + [top.phase.rec])
            && IdsOf(stack) == IdsOf(stack') + [top.id]
            && (stack' != [] ==> !stack'[|stack'| - 1].phase.Linked?)
          else
            && w'.trace == w.trace
            && (if |stack'| > |stack| then w'.nextId == w.nextId + 1 && IdsOf(stack') == IdsOf(stack) + [w.nextId]
                else w'.nextId == w.nextId && IdsOf(stack') == IdsOf(stack))
            && stack' != []
            && (stack'[|stack'| - 1].phase.Linked? <==> top.phase.Observed?))
      && (if top.phase.Observed? then
            var (prior', from, change) := LinkSnapshot(w.prior, top.sc.broker, top.id, top.phase.overlay);
            && w'.prior == prior'
            && stack'[|stack'| - 1].phase.rec.from == from && stack'[|stack'| - 1].phase.rec.change == change
            && stack'[|stack'| - 1].phase.rec.id == top.id && stack'[|stack'| - 1].phase.rec.broker == top.sc.broker
          else w'.prior == w.prior)
  {
    hide Act, LinkSnapshot;
    var n := |stack| - 1;
    MoveIds(env, w, stack[n]);
    match Act(env, w, stack[n]) {
      case Became(_, phase) => assert IdsOf(stack[..n] + [stack[n].(phase := phase)]) == IdsOf(stack);
      case Called(_, callee) =>
      case Returned(_, out) => assert IdsOf(Return(stack[..n], out)) == IdsOf(stack[..n]);
    }
  }

  ghost predicate AuditInv<S>(s: Sys<S>, id0: nat) {
    && (forall t :: 0 <= t < |s.stacks| ==> Shaped(s.stacks[t]) && Fits(s.stacks[t]))
    && id0 <= s.w.nextId
    && multiset(RecordIds(s.w.trace)) + OpenIds(s.stacks) == multiset(Range(id0, s.w.nextId))
  }

  lemma AuditStep<S>(env: Env<S>, s: Sys<S>, a: Action<S>, id0: nat)
    requires AuditInv(s, id0)
    ensures AuditInv(Do(env, s, a), id0)
  {
    hide Advance, OpenIds;
    match a {
      case Start(t, sc, pid, params) =>
        if t < |s.stacks| && s.stacks[t] == [] {
          var stack := [Activation(s.w.nextId, sc, pid, params, Entered)];
          assert IdsOf(stack) == IdsOf([]) + [s.w.nextId];
          OpenGrown(s.stacks, t, stack, s.w.nextId);
          RangeGrows(id0, s.w.nextId);
        }
      case Go(t) =>
        if t < |s.stacks| && s.stacks[t] != [] {
          AdvanceShaped(env, s.w, s.stacks[t]);
          GoKeepsIds(env, s, t, id0);
        }
      case Outside(_, _) =>
      case ResetBudget =>
    }
  }

  lemma RangeGrows(lo: nat, hi: nat)
    requires lo <= hi
    ensures multiset(Range(lo, hi + 1)) == multiset(Range(lo, hi)) + multiset{hi}
  {
    assert Range(lo, hi + 1) == Range(lo, hi) + [hi];
  }

  lemma GoKeepsIds<S>(env: Env<S>, s: Sys<S>, t: nat, id0: nat)
    requires AuditInv(s, id0) && t < |s.stacks| && s.stacks[t] != []
    ensures var (w', stack') := Advance(env, s.w, s.stacks[t]);
      && Fits(stack')
      && s.w.nextId <= w'.nextId
      && multiset(RecordIds(w'.trace)) + OpenIds(s.stacks[t := stack']) == multiset(Range(id0, w'.nextId))
  {
    hide Advance, OpenIds, Range;
    var stack := s.stacks[t];
    AdvanceIds(env, s.w, stack);
    var (w', stack') := Advance(env, s.w, stack);
    var id := stack[|stack| - 1].id;
    if stack[|stack| - 1].phase.Linked? {
      assert RecordIds(w'.trace) == RecordIds(s.w.trace) + [id];
      OpenShrunk(s.stacks, t, stack', id);
    } else if |stack'| > |stack| {
      OpenGrown(s.stacks, t, stack', s.w.nextId);
      RangeGrows(id0, s.w.nextId);
    } else {
      OpenSame(s.stacks, t, stack');
    }
  }

  // ----- Chains -----

  /** The record has been linked: it is in the trace, or about to be appended by the task that made it. */
  ghost predicate Made<S>(s: Sys<S>, rec: Record) {
    rec in s.w.trace || exists t :: 0 <= t < |s.stacks| && InFlight(s.stacks[t], rec)
  }

  predicate InFlight(stack: Stack, rec: Record) {
    stack != [] && stack[|stack| - 1].phase.Linked? && stack[|stack| - 1].phase.rec == rec
  }

  ghost predicate Filed<S>(s: Sys<S>, rec: Record) {
    rec in Recs(ChainOf(s.chains, rec.broker))
  }

  ghost predicate ChainInv<S>(s: Sys<S>) {
    && s.chains.Keys == s.w.prior.Keys
    && (forall b :: b in s.chains ==>
          var c := s.chains[b];
          && c != [] && Chain(b, c)
          && s.w.prior[b] == Snapshot(c[|c| - 1].rec.id, c[|c| - 1].overlay))
    && (forall rec :: Made(s, rec) <==> Filed(s, rec))
  }

  /** A made record does not carry the id of an activation that has not linked its snapshot yet. */
  lemma MadeByAnother<S>(s: Sys<S>, id0: nat, t: nat, rec: Record)
    requires AuditInv(s, id0) && Made(s, rec)
    requires t < |s.stacks| && s.stacks[t] != [] && !s.stacks[t][|s.stacks[t]| - 1].phase.Linked?
    ensures rec.id != s.stacks[t][|s.stacks[t]| - 1].id
  {
    hide OpenIds, Range;
    var stack := s.stacks[t];
    var id := stack[|stack| - 1].id;
    assert IdsOf(stack)[|stack| - 1] == id;
    OpenOnce(s.stacks, t, id);
    RangeOnceOrNever(id0, s.w.nextId, id);
    if rec in s.w.trace {
      var k :| 0 <= k < |s.w.trace| && s.w.trace[k] == rec;
      assert RecordIds(s.w.trace)[k] == rec.id;
    } else {
      var u :| 0 <= u < |s.stacks| && InFlight(s.stacks[u], rec);
      assert IdsOf(s.stacks[u])[|s.stacks[u]| - 1] == rec.id;
      if rec.id == id { OpenTwice(s.stacks, t, u, id); }
    }
  }

  lemma NotYetFiled<S>(s: Sys<S>, id0: nat, t: nat, b: string)
    requires AuditInv(s, id0) && ChainInv(s)
    requires t < |s.stacks| && s.stacks[t] != [] && !s.stacks[t][|s.stacks[t]| - 1].phase.Linked?
    ensures forall i :: 0 <= i < |ChainOf(s.chains, b)| ==>
              ChainOf(s.chains, b)[i].rec.id != s.stacks[t][|s.stacks[t]| - 1].id
  {
    hide AuditInv, Made;
    var c := ChainOf(s.chains, b);
    forall i | 0 <= i < |c| ensures c[i].rec.id != s.stacks[t][|s.stacks[t]| - 1].id {
      assert Recs(c)[i] == c[i].rec;
      assert Filed(s, c[i].rec);
      assert Made(s, c[i].rec);
      MadeByAnother(s, id0, t, c[i].rec);
    }
  }

  lemma RangeOnceOrNever(lo: nat, hi: nat, id: nat)
    requires lo <= hi
    ensures multiset(Range(lo, hi))[id] <= 1
  {
    if lo <= id < hi { RangeOnce(lo, hi, id); }
  }

  lemma ChainExtends(b: string, c: seq<Link>, prior: map<string, Snapshot>, l: Link)
    requires Chain(b, c)
    requires if c == [] then b !in prior else b in prior && prior[b] == Snapshot(c[|c| - 1].rec.id, c[|c| - 1].overlay)
    requires l.rec.broker == b
    requires var (_, from, change) := LinkSnapshot(prior, b, l.rec.id, l.overlay);
      l.rec.from == from && l.rec.change == change
    requires forall i :: 0 <= i < |c| ==> c[i].rec.id != l.rec.id
    ensures Chain(b, c + [l])
  {
    var d := c + [l];
    forall i | 0 < i < |d| ensures LinkedTo(d[i], d[i - 1]) {
      if i < |c| { assert LinkedTo(c[i], c[i - 1]); }
    }
  }

  /** A stack step that neither links nor appends leaves the set of made records alone. */
  lemma MadeUnchanged<S>(s: Sys<S>, e: Sys<S>, t: nat)
    requires t < |s.stacks| && e.w.trace == s.w.trace && |e.stacks| == |s.stacks|
    requires forall u :: 0 <= u < |s.stacks| && u != t ==> e.stacks[u] == s.stacks[u]
    requires s.stacks[t] == [] || !s.stacks[t][|s.stacks[t]| - 1].phase.Linked?
    requires e.stacks[t] == [] || !e.stacks[t][|e.stacks[t]| - 1].phase.Linked?
    ensures forall rec :: Made(e, rec) <==> Made(s, rec)
  {
    forall rec ensures Made(e, rec) <==> Made(s, rec) {
      assert !InFlight(s.stacks[t], rec) && !InFlight(e.stacks[t], rec);
      if Made(s, rec) && rec !in s.w.trace {
        var u :| 0 <= u < |s.stacks| && InFlight(s.stacks[u], rec);
        assert InFlight(e.stacks[u], rec);
      }
      if Made(e, rec) && rec !in s.w.trace {
        var u :| 0 <= u < |s.stacks| && InFlight(e.stacks[u], rec);
        assert InFlight(s.stacks[u], rec);
      }
    }
  }

  lemma AppendKeepsMade<S>(env: Env<S>, s: Sys<S>, t: nat)
    requires t < |s.stacks| && s.stacks[t] != [] && s.stacks[t][|s.stacks[t]| - 1].phase.Linked?
    requires Shaped(s.stacks[t]) && Fits(s.stacks[t])
    ensures forall rec :: Made(Do(env, s, Go(t)), rec) <==> Made(s, rec)
    ensures Do(env, s, Go(t)).chains == s.chains && Do(env, s, Go(t)).w.prior == s.w.prior
  {
    hide Advance;
    var e := Do(env, s, Go(t));
    AdvanceIds(env, s.w, s.stacks[t]);
    forall rec ensures Made(e, rec) <==> Made(s, rec) {
      assert !InFlight(e.stacks[t], rec);
      if Made(s, rec) && rec !in e.w.trace {
        var u :| 0 <= u < |s.stacks| && InFlight(s.stacks[u], rec);
        assert InFlight(e.stacks[u], rec);
      }
      if Made(e, rec) && rec !in s.w.trace {
        if rec in e.w.trace {
          assert InFlight(s.stacks[t], rec);
        } else {
          var u :| 0 <= u < |s.stacks| && InFlight(e.stacks[u], rec);
          assert InFlight(s.stacks[u], rec);
        }
      }
    }
  }

  lemma LinkAddsOne<S>(env: Env<S>, s: Sys<S>, t: nat) returns (l: Link)
    requires t < |s.stacks| && s.stacks[t] != [] && s.stacks[t][|s.stacks[t]| - 1].phase.Observed?
    requires Shaped(s.stacks[t]) && Fits(s.stacks[t])
    ensures var e := Do(env, s, Go(t));
      var top := s.stacks[t][|s.stacks[t]| - 1];
      var (prior', from, change) := LinkSnapshot(s.w.prior, top.sc.broker, top.id, top.phase.overlay);
      && l.rec.id == top.id && l.rec.broker == top.sc.broker && l.overlay == top.phase.overlay
      && l.rec.from == from && l.rec.change == change
      && e.w.prior == prior'
      && e.chains == s.chains[top.sc.broker := ChainOf(s.chains, top.sc.broker) + [l]]
      && forall rec :: Made(e, rec) <==> Made(s, rec) || rec == l.rec
  {
    hide Advance, LinkSnapshot;
    var e := Do(env, s, Go(t));
    AdvanceIds(env, s.w, s.stacks[t]);
    var top := s.stacks[t][|s.stacks[t]| - 1];
    l := Link(e.stacks[t][|e.stacks[t]| - 1].phase.rec, top.phase.overlay);
    forall rec ensures Made(e, rec) <==> Made(s, rec) || rec == l.rec {
      assert !InFlight(s.stacks[t], rec) && (InFlight(e.stacks[t], rec) <==> rec == l.rec);
      if Made(s, rec) && rec !in s.w.trace {
        var u :| 0 <= u < |s.stacks| && InFlight(s.stacks[u], rec);
        assert InFlight(e.stacks[u], rec);
      }
      if Made(e, rec) && rec !in s.w.trace {
        var u :| 0 <= u < |s.stacks| && InFlight(e.stacks[u], rec);
        assert u != t ==> InFlight(s.stacks[u], rec);
      }
    }
  }

  lemma WellFormedStack<S>(s: Sys<S>, id0: nat, t: nat)
    requires AuditInv(s, id0) && t < |s.stacks|
    ensures Shaped(s.stacks[t]) && Fits(s.stacks[t])
  {
  }

  lemma FiledGrows<S>(s: Sys<S>, e: Sys<S>, b: string, l: Link)
    requires l.rec.broker == b && e.chains == s.chains[b := ChainOf(s.chains, b) + [l]]
    ensures forall rec :: Filed(e, rec) <==> Filed(s, rec) || rec == l.rec
  {
    assert Recs(ChainOf(s.chains, b) + [l]) == Recs(ChainOf(s.chains, b)) + [l.rec];
  }

  /** The chain of one broker has grown by one link, and so have the made records. */
  lemma OneChainGrows<S>(s: Sys<S>, e: Sys<S>, b: string, l: Link)
    requires ChainInv(s) && l.rec.broker == b && Chain(b, ChainOf(s.chains, b) + [l])
    requires e.chains == s.chains[b := ChainOf(s.chains, b) + [l]]
    requires e.w.prior == s.w.prior[b := Snapshot(l.rec.id, l.overlay)]
    requires forall rec :: Made(e, rec) <==> Made(s, rec) || rec == l.rec
    ensures ChainInv(e)
  {
    hide Made, Chain, Filed;
    FiledGrows(s, e, b, l);
  }

  lemma LinkKeepsChains<S>(env: Env<S>, s: Sys<S>, t: nat, id0: nat)
    requires AuditInv(s, id0) && ChainInv(s)
    requires t < |s.stacks| && s.stacks[t] != [] && s.stacks[t][|s.stacks[t]| - 1].phase.Observed?
    ensures ChainInv(Do(env, s, Go(t)))
  {
    hide Advance, Do, Chain, Made, AuditInv, Filed;
    WellFormedStack(s, id0, t);
    var b := s.stacks[t][|s.stacks[t]| - 1].sc.broker;
    var l := LinkAddsOne(env, s, t);
    NotYetFiled(s, id0, t, b);
    EmptyChain(b);
    ChainExtends(b, ChainOf(s.chains, b), s.w.prior, l);
    OneChainGrows(s, Do(env, s, Go(t)), b, l);
  }

  lemma EmptyChain(b: string)
    ensures Chain(b, [])
  {
  }

  lemma ChainStep<S>(env: Env<S>, s: Sys<S>, a: Action<S>, id0: nat)
    requires AuditInv(s, id0) && ChainInv(s)
    ensures ChainInv(Do(env, s, a))
  {
    hide Advance, OpenIds, Range, Chain;
    var e := Do(env, s, a);
    match a {
      case Start(t, _, _, _) =>
        if t < |s.stacks| && s.stacks[t] == [] { MadeUnchanged(s, e, t); SameChains(s, e); }
      case Go(t) =>
        if t < |s.stacks| && s.stacks[t] != [] {
          var top := s.stacks[t][|s.stacks[t]| - 1];
          if top.phase.Observed? {
            LinkKeepsChains(env, s, t, id0);
          } else if top.phase.Linked? {
            AppendKeepsMade(env, s, t);
            SameChains(s, e);
          } else {
            AdvanceIds(env, s.w, s.stacks[t]);
            MadeUnchanged(s, e, t);
            SameChains(s, e);
          }
        }
      case Outside(_, _) =>
        forall rec ensures Made(e, rec) <==> Made(s, rec) {}
        SameChains(s, e);
      case ResetBudget =>
        forall rec ensures Made(e, rec) <==> Made(s, rec) {}
        SameChains(s, e);
    }
  }

  lemma SameChains<S>(s: Sys<S>, e: Sys<S>)
    requires ChainInv(s) && e.chains == s.chains && e.w.prior == s.w.prior
    requires forall rec :: Made(e, rec) <==> Made(s, rec)
    ensures ChainInv(e)
  {
    hide Made, Chain;
    forall rec ensures Made(e, rec) <==> Filed(e, rec) {
      assert Made(s, rec) <==> Filed(s, rec);
    }
  }

  lemma {:induction false} AuditRun<S>(env: Env<S>, s: Sys<S>, actions: seq<Action<S>>, id0: nat)
    requires AuditInv(s, id0) && ChainInv(s)
    ensures AuditInv(DoAll(env, s, actions), id0) && ChainInv(DoAll(env, s, actions))
    decreases |actions|
  {
    hide AuditInv, ChainInv, Do;
    if actions != [] {
      AuditStep(env, s, actions[0], id0);
      ChainStep(env, s, actions[0], id0);
      AuditRun(env, Do(env, s, actions[0]), actions[1..], id0);
    }
  }

  lemma {:induction false} NobodyOpen(stacks: seq<Stack>)
    requires forall t :: 0 <= t < |stacks| ==> stacks[t] == []
    ensures OpenIds(stacks) == multiset{}
  {
    if stacks != [] {
      assert forall t :: 0 <= t < |stacks[1..]| ==> stacks[1..][t] == stacks[t + 1];
      NobodyOpen(stacks[1..]);
    }
  }

  lemma InitialInv<S>(env: Env<S>, s: Sys<S>)
    requires Initial(env, s)
    ensures AuditInv(s, s.w.nextId) && ChainInv(s)
  {
    NobodyOpen(s.stacks);
    assert RecordIds(s.w.trace) == [];
    assert Range(s.w.nextId, s.w.nextId) == [];
  }

  /** Whatever the schedule, once all tasks are idle every id drawn labels exactly one record. */
  lemma OneRecordEachUnderRaces<S>(env: Env<S>, s: Sys<S>, actions: seq<Action<S>>)
    requires Initial(env, s)
    requires Quiet(DoAll(env, s, actions))
    ensures var e := DoAll(env, s, actions);
      && s.w.nextId <= e.w.nextId
      && multiset(RecordIds(e.w.trace)) == multiset(Range(s.w.nextId, e.w.nextId))
  {
    InitialInv(env, s);
    AuditRun(env, s, actions, s.w.nextId);
    NobodyOpen(DoAll(env, s, actions).stacks);
  }

  lemma Repeated(ids: seq<nat>, i: nat, j: nat)
    requires i < j < |ids| && ids[i] == ids[j]
    ensures multiset(ids)[ids[i]] >= 2
  {
    var front, back := ids[..j], ids[j..];
    assert ids == front + back;
    assert front[i] == ids[i] && back[0] == ids[i];
  }

  lemma TraceIdsDistinct<S>(s: Sys<S>, id0: nat, r: Record, r': Record)
    requires AuditInv(s, id0) && r in s.w.trace && r' in s.w.trace && r.id == r'.id
    ensures r == r'
  {
    hide OpenIds, Range;
    var i :| 0 <= i < |s.w.trace| && s.w.trace[i] == r;
    var j :| 0 <= j < |s.w.trace| && s.w.trace[j] == r';
    var ids := RecordIds(s.w.trace);
    var mine: multiset<nat> := multiset(ids);
    assert mine[r.id] <= (mine + OpenIds(s.stacks))[r.id];
    RangeOnceOrNever(id0, s.w.nextId, r.id);
    if i < j { Repeated(ids, i, j); }
    if j < i { Repeated(ids, j, i); }
  }

  /**
   Replay over every interleaving. When the tasks are idle, each broker's records in the trace are
   exactly one chain that ends at the cached snapshot; and following the back links from any of its
   records rebuilds the overlay that record was made from, as long as no step on the way is one whose
   delta is ambiguous.
   */
  lemma DeltaChainsReplay<S>(env: Env<S>, s: Sys<S>, actions: seq<Action<S>>, b: string)
    requires Initial(env, s) && Quiet(DoAll(env, s, actions))
    ensures var e := DoAll(env, s, actions);
      var c := ChainOf(e.chains, b);
      && Chain(b, c)
      && (forall rec: Record :: rec.broker == b ==> (rec in e.w.trace <==> rec in Recs(c)))
      && (b in e.w.prior <==> c != [])
      && (c != [] ==> e.w.prior[b] == Snapshot(c[|c| - 1].rec.id, c[|c| - 1].overlay))
      && (forall i :: 0 <= i < |c| && Unambiguous(c, i) ==>
            Replay(Walk(|c|, e.w.trace, c[i].rec.id)) == c[i].overlay)
  {
    hide Chain, OpenIds, Replay, Walk, Range, DoAll;
    InitialInv(env, s);
    AuditRun(env, s, actions, s.w.nextId);
    var e := DoAll(env, s, actions);
    var c := ChainOf(e.chains, b);
    EmptyChain(b);
    forall rec: Record | rec.broker == b ensures rec in e.w.trace <==> rec in Recs(c) {
      assert Made(e, rec) <==> Filed(e, rec);
    }
    forall i | 0 <= i < |c| && Unambiguous(c, i) ensures Replay(Walk(|c|, e.w.trace, c[i].rec.id)) == c[i].overlay {
      ChainWritten(e, s.w.nextId, b);
      OverlayRecovered(b, e.w.trace, c, i);
    }
  }

  lemma ChainWritten<S>(e: Sys<S>, id0: nat, b: string)
    requires AuditInv(e, id0) && ChainInv(e) && Quiet(e)
    ensures Written(e.w.trace, ChainOf(e.chains, b))
  {
    var c := ChainOf(e.chains, b);
    forall i | 0 <= i < |c| ensures c[i].rec in e.w.trace {
      assert Recs(c)[i] == c[i].rec;
      assert Filed(e, c[i].rec);
      assert Made(e, c[i].rec);
    }
    forall r, r' | r in e.w.trace && r' in e.w.trace && r.id == r'.id ensures r == r' {
      TraceIdsDistinct(e, id0, r, r');
    }
  }
}
