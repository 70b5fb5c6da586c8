/**
 The dispatch engine one atomic action at a time. Each task is a stack of activations; budget check
 and budget debit are separate actions, and so are reading the overlay, linking the snapshot under
 its lock, and appending the record outside it. Running one task alone is the big-step semantics.
 */
module Machine {
  import opened Basics
  import opened Json
  import opened Pipelines
  import opened Dispatching

  datatype Phase =
    | Entered
    | BudgetPassed(p: Pipeline)
    | KillPassed(p: Pipeline)
    | Gated(p: Pipeline)
    | Cleared(p: Pipeline, ctx: LeafCtx)
    | Running(p: Pipeline, ctx: LeafCtx, todo: seq<Step>, last: Json)
    | Ended(found: Option<Pipeline>, out: Outcome)
    | Observed(found: Option<Pipeline>, out: Outcome, overlay: Json)
    | Linked(out: Outcome, rec: Record)

  datatype Activation = Activation(id: nat, sc: Scope, pid: string, params: ParamMap, phase: Phase)

  type Stack = seq<Activation>

  function Refuse(p: Pipeline, why: Refusal): Phase {
    Ended(Some(p), Err(GovernanceRefused(why)))
  }

  /** The phase a running activation goes to when its current step is over. */
  function Settle(p: Pipeline, ctx: LeafCtx, rest: seq<Step>, out: Outcome): Phase {
    match out
    case Ok(v) => Running(p, ctx, rest, v)
    case Err(e) => Ended(Some(p), Err(e))
  }

  /** Hand a finished dispatch's outcome to the activation that called it. */
  function Return(below: Stack, out: Outcome): Stack {
    if below == [] then []
    else
      var n := |below| - 1;
      match below[n].phase
      case Running(p, ctx, todo, last) =>
        if todo != [] && todo[0].SubPipeline? then
          below[..n] + [below[n].(phase := Settle(p, ctx, todo[1..], Wrap(todo[0].sub, out)))]
        else below
      case _ => below
  }

  /** What one action does to the activation on top: change its phase, call another, or finish. */
  datatype Move<!S> =
    | Became(w: World<S>, phase: Phase)
    | Called(w: World<S>, callee: Activation)
    | Returned(w: World<S>, out: Outcome)

  function Enter<S>(env: Env<S>, w: World<S>, a: Activation): Phase {
    match Find(a.sc.catalog, a.pid)
    case None => Ended(None, Err(PipelineNotFound(a.sc.broker, a.pid)))
    case Some(p) =>
      var refusal := BudgetCheck(w.used, env.ceiling);
      if !p.visibility.Surfaced? then Gated(p)
      else if refusal.Some? then Refuse(p, refusal.value) else BudgetPassed(p)
  }

  function Clear<S>(env: Env<S>, w: World<S>, a: Activation, p: Pipeline): Phase {
    var overlay := env.overlay(a.sc.broker, w.host);
    var unmet := Unmet(env, p.preconditions, overlay, a.params);
    if !ParamsValid(p.schema, a.params) then Ended(Some(p), Err(ParamValidation(a.pid)))
    else if unmet.Some? then Ended(Some(p), Err(PreconditionUnmet(unmet.value)))
    else Cleared(p, LeafCtx(a.sc.broker, a.pid, a.params, overlay, env.frame))
  }

  function RunStep<S>(
    env: Env<S>, w: World<S>, a: Activation, p: Pipeline, ctx: LeafCtx, step: Step, rest: seq<Step>, last: Json)
    : Move<S>
  {
    match step
    case Leaf(op) =>
      var r := env.leaf(op, ctx, w.host, w.armed);
      Became(w.(host := r.host, armed := r.armed), Settle(p, ctx, rest, LeafOutcome(op, r.result)))
    case SubPipeline(sub, params) =>
      (match Resolve(env, a.sc, sub)
       case Unreachable(e) => Became(w, Settle(p, ctx, rest, Err(e)))
       case Callee(callee) => Called(w.(nextId := w.nextId + 1), Activation(w.nextId, callee, sub, params, Entered)))
    case Guard(text, inner) =>
      Became(w, if Holds(env, text, ctx.overlay, ctx.params) then Running(p, ctx, [inner] + rest, last)
                else Running(p, ctx, rest, Null))
    case Branch(text, ifTrue, ifFalse) =>
      Became(w, Running(p, ctx, [if Holds(env, text, ctx.overlay, ctx.params) then ifTrue else ifFalse] + rest, last))
  }

  function Act<S>(env: Env<S>, w: World<S>, a: Activation): Move<S> {
    match a.phase
    case Entered => Became(w, Enter(env, w, a))
    case BudgetPassed(p) =>
      var refusal := KillCheck(p, w.armed);
      Became(w, if refusal.Some? then Refuse(p, refusal.value) else KillPassed(p))
    case KillPassed(p) =>
      var (host, refusal) := GateCheck(env.gates, p, a.params, w.host);
      Became(w.(host := host), if refusal.Some? then Refuse(p, refusal.value) else Gated(p))
    case Gated(p) => Became(w, Clear(env, w, a, p))
    case Cleared(p, ctx) =>
      Became(if p.visibility.Surfaced? then w.(used := w.used + 1) else w, Running(p, ctx, p.steps, Null))
    case Running(p, ctx, todo, last) =>
      if todo == [] then Became(w, Ended(Some(p), Ok(last)))
      else RunStep(env, w, a, p, ctx, todo[0], todo[1..], last)
    case Ended(found, out) => Became(w, Observed(found, out, env.overlay(a.sc.broker, w.host)))
    case Observed(found, out, overlay) =>
      var (prior', from, change) := LinkSnapshot(w.prior, a.sc.broker, a.id, overlay);
      Became(w.(prior := prior'),
             Linked(out, Record(a.id, a.pid, a.sc.broker, a.params, from, change, out, ClassOf(found))))
    case Linked(out, rec) => Returned(w.(trace := w.trace + [rec]), out)
  }

  function Advance<S>(env: Env<S>, w: World<S>, stack: Stack): (World<S>, Stack)
    requires stack != []
  {
    var n := |stack| - 1;
    match Act(env, w, stack[n])
    case Became(w', phase) => (w', stack[..n] + [stack[n].(phase := phase)])
    case Called(w', callee) => (w', stack + [callee])
    case Returned(w', out) => (w', Return(stack[..n], out))
  }

  // ----- One task alone computes the big-step semantics -----

  function Iterate<S>(env: Env<S>, k: nat, w: World<S>, stack: Stack): (World<S>, Stack)
    decreases k
  {
    if k == 0 || stack == [] then (w, stack)
    else
      var (w', stack') := Advance(env, w, stack);
      Iterate(env, k - 1, w', stack')
  }

  lemma {:induction false} IterateAdd<S>(env: Env<S>, j: nat, k: nat, w: World<S>, stack: Stack)
    ensures var (w1, stack1) := Iterate(env, j, w, stack);
      Iterate(env, j + k, w, stack) == Iterate(env, k, w1, stack1)
    decreases j
  {
    hide Advance;
    if j > 0 && stack != [] {
      var (w', stack') := Advance(env, w, stack);
      IterateAdd(env, j - 1, k, w', stack');
    }
  }

  /** `(w', stack')` is where some number of actions leads from `(w, stack)`. */
  ghost predicate Reaches<S>(env: Env<S>, w: World<S>, stack: Stack, w': World<S>, stack': Stack) {
    exists k: nat :: Iterate(env, k, w, stack) == (w', stack')
  }

  lemma ReachesTrans<S>(env: Env<S>, w: World<S>, s: Stack, w1: World<S>, s1: Stack, w2: World<S>, s2: Stack)
    requires Reaches(env, w, s, w1, s1) && Reaches(env, w1, s1, w2, s2)
    ensures Reaches(env, w, s, w2, s2)
  {
    hide Iterate;
    var j: nat :| Iterate(env, j, w, s) == (w1, s1);
    var k: nat :| Iterate(env, k, w1, s1) == (w2, s2);
    IterateAdd(env, j, k, w, s);
    assert Iterate(env, j + k, w, s) == (w2, s2);
  }

  lemma ReachesStep<S>(env: Env<S>, w: World<S>, s: Stack, w1: World<S>, s1: Stack)
    requires s != [] && Advance(env, w, s) == (w1, s1)
    ensures Reaches(env, w, s, w1, s1)
  {
    hide Advance;
    assert Iterate(env, 1, w, s) == Iterate(env, 0, w1, s1);
  }

  lemma Becomes<S>(env: Env<S>, w: World<S>, below: Stack, a: Activation)
    requires Act(env, w, a).Became?
    ensures var m := Act(env, w, a); Reaches(env, w, below + [a], m.w, below + [a.(phase := m.phase)])
  {
    hide Act;
    var s := below + [a];
    assert s[..|s| - 1] == below && s[|s| - 1] == a;
    var m := Act(env, w, a);
    ReachesStep(env, w, s, m.w, below + [a.(phase := m.phase)]);
  }

  /** Where the admission of `a` leaves it. */
  function AfterAdmission<S>(a: Activation, r: Admission<S>): Activation {
    match r
    case Refused(_, found, e) => a.(phase := Ended(found, Err(e)))
    case Admitted(_, p, ctx) => a.(phase := Running(p, ctx, p.steps, Null))
  }

  lemma GatedSimulated<S>(env: Env<S>, w: World<S>, below: Stack, a: Activation, p: Pipeline)
    requires a.phase == Gated(p)
    ensures var ph := Clear(env, w, a, p);
      if ph.Cleared? then
        Reaches(env, w, below + [a],
                if p.visibility.Surfaced? then w.(used := w.used + 1) else w,
                below + [a.(phase := Running(p, ph.ctx, p.steps, Null))])
      else Reaches(env, w, below + [a], w, below + [a.(phase := ph)])
  {
    hide Clear, Reaches;
    var ph := Clear(env, w, a, p);
    Becomes(env, w, below, a);
    if ph.Cleared? {
      ClearedWith(env, w, a, p);
      var b := a.(phase := ph);
      Becomes(env, w, below, b);
      var m := Act(env, w, b);
      ReachesTrans(env, w, below + [a], w, below + [b], m.w, below + [b.(phase := m.phase)]);
    }
  }

  lemma ClearedWith<S>(env: Env<S>, w: World<S>, a: Activation, p: Pipeline)
    ensures Clear(env, w, a, p).Cleared? ==> Clear(env, w, a, p).p == p
  {
  }

  lemma AdmissionSimulated<S>(env: Env<S>, w: World<S>, below: Stack, a: Activation)
    requires a.phase == Entered
    ensures var r := Admit(env, a.sc, a.pid, a.params, w);
      Reaches(env, w, below + [a], r.w, below + [AfterAdmission(a, r)])
  {
    hide Reaches, Unmet, ParamsValid, GateCheck, Find;
    var s := below + [a];
    var found := Find(a.sc.catalog, a.pid);
    Becomes(env, w, below, a);
    if found.Some? {
      var p := found.value;
      if !p.visibility.Surfaced? {
        var g := a.(phase := Gated(p));
        GatedSimulated(env, w, below, g, p);
        var ph := Clear(env, w, g, p);
        var r := Admit(env, a.sc, a.pid, a.params, w);
        ReachesTrans(env, w, s, w, below + [g], r.w, below + [AfterAdmission(a, r)]);
      } else if BudgetCheck(w.used, env.ceiling).None? {
        var b := a.(phase := BudgetPassed(p));
        Becomes(env, w, below, b);
        if KillCheck(p, w.armed).Some? {
          ReachesTrans(env, w, s, w, below + [b], w, below + [a.(phase := Refuse(p, KillCheck(p, w.armed).value))]);
        } else {
          var k := a.(phase := KillPassed(p));
          ReachesTrans(env, w, s, w, below + [b], w, below + [k]);
          Becomes(env, w, below, k);
          var m := Act(env, w, k);
          var g := k.(phase := m.phase);
          ReachesTrans(env, w, s, w, below + [k], m.w, below + [g]);
          if m.phase.Gated? {
            GatedSimulated(env, m.w, below, g, p);
            var r := Admit(env, a.sc, a.pid, a.params, w);
            ReachesTrans(env, w, s, m.w, below + [g], r.w, below + [AfterAdmission(a, r)]);
          }
        }
      }
    }
  }

  lemma FinishSimulated<S>(env: Env<S>, w: World<S>, below: Stack, a: Activation, found: Option<Pipeline>, out: Outcome)
    requires a.phase == Ended(found, out)
    ensures Reaches(env, w, below + [a], Finish(env, a.sc, a.id, a.pid, a.params, found, w, out), Return(below, out))
  {
    hide Reaches, Return;
    var s := below + [a];
    Becomes(env, w, below, a);
    var o := a.(phase := Act(env, w, a).phase);
    Becomes(env, w, below, o);
    var m := Act(env, w, o);
    var l := o.(phase := m.phase);
    ReachesTrans(env, w, s, w, below + [o], m.w, below + [l]);
    var t := below + [l];
    assert t[..|t| - 1] == below && t[|t| - 1] == l;
    var done := Act(env, m.w, l);
    ReachesStep(env, m.w, t, done.w, Return(below, out));
    ReachesTrans(env, w, s, m.w, t, done.w, Return(below, out));
  }

  /** The big-step `Dispatch` is a run of the machine, from the call to the return. */
  lemma {:induction false} DispatchSimulated<S>(
    fuel: nat, env: Env<S>, sc: Scope, pid: string, params: ParamMap, w: World<S>, below: Stack)
    requires Dispatch(fuel, env, sc, pid, params, w).Some?
    ensures var r := Dispatch(fuel, env, sc, pid, params, w).value;
      Reaches(env, w.(nextId := w.nextId + 1), below + [Activation(w.nextId, sc, pid, params, Entered)],
              r.w, Return(below, r.out))
    decreases fuel, 0
  {
    hide Reaches, Admit, Return, Finish, ExecuteSteps;
    var start, a := w.(nextId := w.nextId + 1), Activation(w.nextId, sc, pid, params, Entered);
    AdmissionSimulated(env, start, below, a);
    var adm := Admit(env, sc, pid, params, start);
    var b := AfterAdmission(a, adm);
    match adm {
      case Refused(w1, found, e) =>
        FinishSimulated(env, w1, below, b, found, Err(e));
        var r := Dispatch(fuel, env, sc, pid, params, w).value;
        ReachesTrans(env, start, below + [a], w1, below + [b], r.w, Return(below, r.out));
      case Admitted(w1, p, ctx) =>
        StepsSimulated(fuel - 1, env, p, p.steps, ctx, w1, Null, below, b);
        var inner := ExecuteSteps(fuel - 1, env, sc, p.steps, ctx, w1, Null).value;
        var c := b.(phase := Ended(Some(p), inner.out));
        ReachesTrans(env, start, below + [a], w1, below + [b], inner.w, below + [c]);
        FinishSimulated(env, inner.w, below, c, Some(p), inner.out);
        var r := Dispatch(fuel, env, sc, pid, params, w).value;
        ReachesTrans(env, start, below + [a], inner.w, below + [c], r.w, Return(below, r.out));
    }
  }

  lemma {:induction false} StepsSimulated<S>(
    fuel: nat, env: Env<S>, p: Pipeline, steps: seq<Step>, ctx: LeafCtx, w: World<S>, last: Json, below: Stack,
    a: Activation)
    requires a.phase == Running(p, ctx, steps, last)
    requires ExecuteSteps(fuel, env, a.sc, steps, ctx, w, last).Some?
    ensures var r := ExecuteSteps(fuel, env, a.sc, steps, ctx, w, last).value;
      Reaches(env, w, below + [a], r.w, below + [a.(phase := Ended(Some(p), r.out))])
    decreases fuel, 2, |steps|
  {
    hide Reaches, ExecuteStep;
    if steps == [] {
      Becomes(env, w, below, a);
    } else {
      StepSimulated(fuel, env, p, steps[0], steps[1..], ctx, w, last, below, a);
      var r := ExecuteStep(fuel, env, a.sc, steps[0], ctx, w).value;
      if r.out.Ok? {
        var b := a.(phase := Running(p, ctx, steps[1..], r.out.value));
        StepsSimulated(fuel, env, p, steps[1..], ctx, r.w, r.out.value, below, b);
        var all := ExecuteSteps(fuel, env, a.sc, steps, ctx, w, last).value;
        ReachesTrans(env, w, below + [a], r.w, below + [b], all.w, below + [a.(phase := Ended(Some(p), all.out))]);
      }
    }
  }

  lemma {:induction false} StepSimulated<S>(
    fuel: nat, env: Env<S>, p: Pipeline, step: Step, rest: seq<Step>, ctx: LeafCtx, w: World<S>, last: Json,
    below: Stack, a: Activation)
    requires a.phase.Running? && a.phase.p == p && a.phase.ctx == ctx && a.phase.last == last
    requires a.phase.todo != [] && a.phase.todo[0] == step && a.phase.todo[1..] == rest
    requires ExecuteStep(fuel, env, a.sc, step, ctx, w).Some?
    ensures var r := ExecuteStep(fuel, env, a.sc, step, ctx, w).value;
      Reaches(env, w, below + [a], r.w, below + [a.(phase := Settle(p, ctx, rest, r.out))])
    decreases fuel, 1, step, 0
  {
    hide Reaches, Dispatch;
    match step {
      case Leaf(_) => Becomes(env, w, below, a);
      case SubPipeline(sub, params) =>
        match Resolve(env, a.sc, sub) {
          case Unreachable(_) => Becomes(env, w, below, a);
          case Callee(callee) =>
            var s, start := below + [a], w.(nextId := w.nextId + 1);
            var child := Activation(w.nextId, callee, sub, params, Entered);
            assert s[..|s| - 1] == below && s[|s| - 1] == a;
            ReachesStep(env, w, s, start, s + [child]);
            DispatchSimulated(fuel, env, callee, sub, params, w, s);
            var r := Dispatch(fuel, env, callee, sub, params, w).value;
            ReachesTrans(env, w, s, start, s + [child], r.w, Return(s, r.out));
        }
      case Guard(text, inner) =>
        Becomes(env, w, below, a);
        if Holds(env, text, ctx.overlay, ctx.params) {
          Continue(fuel, env, p, inner, rest, ctx, w, last, below, a);
        }
      case Branch(text, ifTrue, ifFalse) =>
        var chosen := if Holds(env, text, ctx.overlay, ctx.params) then ifTrue else ifFalse;
        Becomes(env, w, below, a);
        Continue(fuel, env, p, chosen, rest, ctx, w, last, below, a);
    }
  }

  /** After a guard or branch has replaced itself by the step it chose. */
  lemma {:induction false} Continue<S>(
    fuel: nat, env: Env<S>, p: Pipeline, chosen: Step, rest: seq<Step>, ctx: LeafCtx, w: World<S>, last: Json,
    below: Stack, a: Activation)
    requires a.phase.Running? && ExecuteStep(fuel, env, a.sc, chosen, ctx, w).Some?
    requires Reaches(env, w, below + [a], w, below + [a.(phase := Running(p, ctx, [chosen] + rest, last))])
    ensures var r := ExecuteStep(fuel, env, a.sc, chosen, ctx, w).value;
      Reaches(env, w, below + [a], r.w, below + [a.(phase := Settle(p, ctx, rest, r.out))])
    decreases fuel, 1, chosen, 1
  {
    hide Reaches, ExecuteStep;
    var b := a.(phase := Running(p, ctx, [chosen] + rest, last));
    assert ([chosen] + rest)[1..] == rest;
    StepSimulated(fuel, env, p, chosen, rest, ctx, w, last, below, b);
    var r := ExecuteStep(fuel, env, a.sc, chosen, ctx, w).value;
    ReachesTrans(env, w, below + [a], w, below + [b], r.w, below + [a.(phase := Settle(p, ctx, rest, r.out))]);
  }
}
