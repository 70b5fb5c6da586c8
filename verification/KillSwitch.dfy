/** Kill-switch safety over validated catalogs: while armed, only governance pipelines get to run. */
module KillSwitch {
  import opened Basics
  import opened Json
  import opened Pipelines
  import opened Catalogs
  import opened Dispatching
  import opened Audit

  /** Every catalog a run from `sc` can use was accepted for its broker, under either policy. */
  ghost predicate Validated<S>(env: Env<S>, sc: Scope) {
    && (exists policy :: Accepted(sc.catalog, sc.broker, policy))
    && (env.registry.Some? ==>
          forall b :: b in env.registry.value ==> exists policy :: Accepted(env.registry.value[b], b, policy))
  }

  /** A Surfaced dispatch that saw the switch armed reached its steps only as a governance pipeline. */
  ghost predicate OnlyGovernanceWhileArmed(cs: seq<Call>)
    decreases cs
  {
    cs == [] || (
      && (Debited(cs[0]) && cs[0].sawArmed ==> cs[0].pipeline.value.auditClass.Governance?)
      && OnlyGovernanceWhileArmed(cs[0].children)
      && OnlyGovernanceWhileArmed(cs[1..]))
  }

  lemma {:induction false} GovernanceAppend(a: seq<Call>, b: seq<Call>)
    requires OnlyGovernanceWhileArmed(a) && OnlyGovernanceWhileArmed(b)
    ensures OnlyGovernanceWhileArmed(a + b)
  {
    if a == [] {
      assert a + b == b;
    } else {
      assert (a + b)[1..] == a[1..] + b;
      GovernanceAppend(a[1..], b);
    }
  }

  lemma BypassImpliesGovernance(sc: Scope, policy: CrossBrokerPolicy, pid: string)
    requires Accepted(sc.catalog, sc.broker, policy)
    ensures var p := Find(sc.catalog, pid);
      p.Some? && p.value.bypassesKillSwitch ==> p.value.auditClass.Governance?
  {
  }

  lemma {:induction false} ArmedDispatchIsGovernance<S>(
    fuel: nat, env: Env<S>, sc: Scope, pid: string, params: ParamMap, w: World<S>)
    requires Validated(env, sc) && Dispatch(fuel, env, sc, pid, params, w).Some?
    ensures OnlyGovernanceWhileArmed(Dispatch(fuel, env, sc, pid, params, w).value.calls)
    decreases fuel, 0
  {
    hide Admit, Finish, Accepted;
    var start := w.(nextId := w.nextId + 1);
    AdmitEffect(env, sc, pid, params, start);
    var policy :| Accepted(sc.catalog, sc.broker, policy);
    BypassImpliesGovernance(sc, policy, pid);
    var a := Admit(env, sc, pid, params, start);
    if a.Admitted? { ArmedStepsAreGovernance(fuel - 1, env, sc, a.p.steps, a.ctx, a.w, Null); }
  }

  lemma {:induction false} ArmedStepsAreGovernance<S>(
    fuel: nat, env: Env<S>, sc: Scope, steps: seq<Step>, ctx: LeafCtx, w: World<S>, last: Json)
    requires Validated(env, sc) && ExecuteSteps(fuel, env, sc, steps, ctx, w, last).Some?
    ensures OnlyGovernanceWhileArmed(ExecuteSteps(fuel, env, sc, steps, ctx, w, last).value.calls)
    decreases fuel, 2, |steps|
  {
    if steps != [] {
      ArmedStepIsGovernance(fuel, env, sc, steps[0], ctx, w);
      var r := ExecuteStep(fuel, env, sc, steps[0], ctx, w).value;
      if r.out.Ok? {
        ArmedStepsAreGovernance(fuel, env, sc, steps[1..], ctx, r.w, r.out.value);
        GovernanceAppend(r.calls, ExecuteSteps(fuel, env, sc, steps[1..], ctx, r.w, r.out.value).value.calls);
      }
    }
  }

  lemma {:induction false} ArmedStepIsGovernance<S>(
    fuel: nat, env: Env<S>, sc: Scope, step: Step, ctx: LeafCtx, w: World<S>)
    requires Validated(env, sc) && ExecuteStep(fuel, env, sc, step, ctx, w).Some?
    ensures OnlyGovernanceWhileArmed(ExecuteStep(fuel, env, sc, step, ctx, w).value.calls)
    decreases fuel, 1, step
  {
    match step {
      case Leaf(_) =>
      case SubPipeline(sub, params) =>
        match Resolve(env, sc, sub) {
          case Unreachable(_) =>
          case Callee(callee) => ArmedDispatchIsGovernance(fuel, env, callee, sub, params, w);
        }
      case Guard(text, inner) =>
        if Holds(env, text, ctx.overlay, ctx.params) { ArmedStepIsGovernance(fuel, env, sc, inner, ctx, w); }
      case Branch(text, ifTrue, ifFalse) =>
        var chosen := if Holds(env, text, ctx.overlay, ctx.params) then ifTrue else ifFalse;
        ArmedStepIsGovernance(fuel, env, sc, chosen, ctx, w);
    }
  }
}
