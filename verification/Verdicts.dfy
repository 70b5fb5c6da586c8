/**
 What decides a dispatch, said in terms of the environment alone: which verdicts of the precondition
 language let it through or stop it, in which order the subgates are asked, which step a guard or a
 branch runs, what a step hands on, and what the record of it all says.
 */
module Verdicts {
  import opened Basics
  import opened Json
  import opened Pipelines
  import opened Frames
  import opened Dispatching

  // ----- Preconditions -----

  /** The first text that is false once the frame has been put in, all earlier ones being true. */
  ghost predicate FirstFalse<S>(env: Env<S>, texts: seq<string>, overlay: Json, params: ParamMap, i: nat) {
    && i < |texts| && !env.holds(Substitute(env.frame, texts[i]), overlay, params)
    && forall j :: 0 <= j < i ==> env.holds(Substitute(env.frame, texts[j]), overlay, params)
  }

  ghost predicate AllTrue<S>(env: Env<S>, texts: seq<string>, overlay: Json, params: ParamMap) {
    forall i :: 0 <= i < |texts| ==> env.holds(Substitute(env.frame, texts[i]), overlay, params)
  }

  lemma AllTrueCons<S>(env: Env<S>, texts: seq<string>, overlay: Json, params: ParamMap)
    requires texts != []
    ensures AllTrue(env, texts, overlay, params) <==>
            env.holds(Substitute(env.frame, texts[0]), overlay, params) && AllTrue(env, texts[1..], overlay, params)
  {
    hide Substitute;
    assert forall i :: 0 < i < |texts| ==> texts[i] == texts[1..][i - 1];
    assert forall i :: 0 <= i < |texts[1..]| ==> texts[1..][i] == texts[i + 1];
  }

  lemma FalseLater<S>(env: Env<S>, texts: seq<string>, overlay: Json, params: ParamMap, k: nat)
    requires texts != [] && env.holds(Substitute(env.frame, texts[0]), overlay, params)
    requires FirstFalse(env, texts[1..], overlay, params, k)
    ensures FirstFalse(env, texts, overlay, params, k + 1)
  {
    hide Substitute;
    assert forall j :: 0 < j <= k + 1 ==> texts[j] == texts[1..][j - 1];
  }

  lemma {:induction false} UnmetExactly<S>(env: Env<S>, texts: seq<string>, overlay: Json, params: ParamMap)
    returns (i: nat)
    ensures Unmet(env, texts, overlay, params).None? <==> AllTrue(env, texts, overlay, params)
    ensures Unmet(env, texts, overlay, params).Some? ==>
              FirstFalse(env, texts, overlay, params, i) && Unmet(env, texts, overlay, params) == Some(texts[i])
    decreases |texts|
  {
    hide Substitute, AllTrue;
    i := 0;
    if texts == [] {
      NoTexts(env, overlay, params);
    } else {
      AllTrueCons(env, texts, overlay, params);
      if env.holds(Substitute(env.frame, texts[0]), overlay, params) {
        var k := UnmetExactly(env, texts[1..], overlay, params);
        i := k + 1;
        if Unmet(env, texts[1..], overlay, params).Some? { FalseLater(env, texts, overlay, params, k); }
      }
    }
  }

  lemma NoTexts<S>(env: Env<S>, overlay: Json, params: ParamMap)
    ensures AllTrue(env, [], overlay, params)
  {
  }

  // ----- Governance -----

  /** The first n subgates let the dispatch through, each leaving its state for the next. */
  ghost predicate Through<S>(gates: seq<Gate<S>>, p: Pipeline, params: ParamMap, hosts: seq<S>, n: nat) {
    && n <= |gates| && |hosts| == n + 1
    && forall i :: 0 <= i < n ==> gates[i].check(p, params, hosts[i]) == (hosts[i + 1], None)
  }

  /** Subgates are asked in order, each with the state the one before it left, up to the first that refuses. */
  lemma {:induction false} GatesInOrder<S>(gates: seq<Gate<S>>, p: Pipeline, params: ParamMap, host: S)
    returns (hosts: seq<S>, n: nat)
    ensures Through(gates, p, params, hosts, n) && hosts[0] == host
    ensures GateCheck(gates, p, params, host) ==
            if n == |gates| then (hosts[n], None)
            else
              var (host', verdict) := gates[n].check(p, params, hosts[n]);
              (host', if verdict.Some? then Some(Subgate(gates[n].name, verdict.value)) else None)
    ensures n < |gates| ==> gates[n].check(p, params, hosts[n]).1.Some?
    decreases |gates|
  {
    hosts, n := [host], 0;
    if gates != [] {
      var (host', verdict) := gates[0].check(p, params, host);
      if verdict.None? {
        var later, k := GatesInOrder(gates[1..], p, params, host');
        hosts, n := [host] + later, k + 1;
        assert forall i :: 0 < i < n ==> gates[i] == gates[1..][i - 1] && hosts[i] == later[i - 1];
      }
    }
  }

  /** Budget, switch, subgates: each is asked only when those before it agree, and a refusal says which it was. */
  lemma GovernedExactly<S>(env: Env<S>, p: Pipeline, params: ParamMap, w: World<S>)
    ensures var (w', refusal) := Govern(env, p, params, w);
      var (host', gate) := GateCheck(env.gates, p, params, w.host);
      && (refusal.None? <==> w.used < env.ceiling && (w.armed ==> p.bypassesKillSwitch) && gate.None?)
      && (w.used >= env.ceiling ==> w' == w && refusal == Some(BudgetExhausted(w.used, env.ceiling)))
      && (w.used < env.ceiling && w.armed && !p.bypassesKillSwitch ==> w' == w && refusal == Some(KillSwitchArmed))
      && (w.used < env.ceiling && (w.armed ==> p.bypassesKillSwitch) ==> w' == w.(host := host') && refusal == gate)
  {
    hide GateCheck;
  }

  // ----- Admission -----

  /** What governance makes of a pipeline: only Surfaced ones are governed. */
  function Governed<S>(env: Env<S>, p: Pipeline, params: ParamMap, w: World<S>): (World<S>, Option<Refusal>) {
    if p.visibility == Surfaced then Govern(env, p, params, w) else (w, None)
  }

  /**
   A dispatch reaches its steps if and only if governance agrees, the parameters fit the schema and every
   precondition is true of the overlay as it then is. Otherwise the error names the first of these to
   fail, and among the preconditions the first that is false, as it is written in the catalog.
   */
  lemma AdmittedExactly<S>(env: Env<S>, sc: Scope, pid: string, params: ParamMap, w: World<S>, p: Pipeline)
    returns (i: nat)
    requires Find(sc.catalog, pid) == Some(p)
    ensures var a := Admit(env, sc, pid, params, w);
      var (w', refusal) := Governed(env, p, params, w);
      var overlay := env.overlay(sc.broker, w'.host);
      && (a.Admitted? <==>
            refusal.None? && ParamsValid(p.schema, params) && AllTrue(env, p.preconditions, overlay, params))
      && (a.Admitted? ==>
            && a.p == p && a.ctx == LeafCtx(sc.broker, pid, params, overlay, env.frame)
            && a.w == w'.(used := w'.used + if p.visibility == Surfaced then 1 else 0))
      && (a.Refused? ==>
            && a.w == w' && a.found == Some(p)
            && (refusal.Some? ==> a.e == GovernanceRefused(refusal.value))
            && (refusal.None? && !ParamsValid(p.schema, params) ==> a.e == ParamValidation(pid))
            && (refusal.None? && ParamsValid(p.schema, params) ==>
                  FirstFalse(env, p.preconditions, overlay, params, i) && a.e == PreconditionUnmet(p.preconditions[i])))
  {
    hide Govern, ParamsValid, FirstFalse, AllTrue, Unmet, Find;
    var (w', refusal) := Governed(env, p, params, w);
    i := UnmetExactly(env, p.preconditions, env.overlay(sc.broker, w'.host), params);
  }

  /** A pipeline that is not in the catalog is refused before anything else is asked. */
  lemma UnknownRefused<S>(env: Env<S>, sc: Scope, pid: string, params: ParamMap, w: World<S>)
    requires Find(sc.catalog, pid).None?
    ensures Admit(env, sc, pid, params, w) == Refused(w, None, PipelineNotFound(sc.broker, pid))
  {
  }

  // ----- Steps -----

  /** A guard runs its inner step if its predicate is true, and otherwise yields Null and does nothing. */
  lemma GuardDecides<S>(fuel: nat, env: Env<S>, sc: Scope, text: string, inner: Step, ctx: LeafCtx, w: World<S>)
    ensures ExecuteStep(fuel, env, sc, Guard(text, inner), ctx, w) ==
            if env.holds(Substitute(env.frame, text), ctx.overlay, ctx.params)
            then ExecuteStep(fuel, env, sc, inner, ctx, w)
            else Some(Run(w, Ok(Null), []))
  {
    hide Substitute;
  }

  /** A branch runs the step its predicate selects, and the other one not at all. */
  lemma BranchDecides<S>(
    fuel: nat, env: Env<S>, sc: Scope, text: string, ifTrue: Step, ifFalse: Step, ctx: LeafCtx, w: World<S>)
    ensures env.holds(Substitute(env.frame, text), ctx.overlay, ctx.params) ==>
              ExecuteStep(fuel, env, sc, Branch(text, ifTrue, ifFalse), ctx, w)
              == ExecuteStep(fuel, env, sc, ifTrue, ctx, w)
    ensures !env.holds(Substitute(env.frame, text), ctx.overlay, ctx.params) ==>
              ExecuteStep(fuel, env, sc, Branch(text, ifTrue, ifFalse), ctx, w)
              == ExecuteStep(fuel, env, sc, ifFalse, ctx, w)
  {
    hide Substitute;
  }

  /** A leaf-op's value or reason is handed on as it is. */
  lemma LeafHandsOn<S>(fuel: nat, env: Env<S>, sc: Scope, op: string, ctx: LeafCtx, w: World<S>)
    ensures var ran := env.leaf(op, ctx, w.host, w.armed);
      var r := ExecuteStep(fuel, env, sc, Leaf(op), ctx, w);
      && r.Some? && r.value.w == w.(host := ran.host, armed := ran.armed)
      && (forall v :: r.value.out == Ok(v) <==> ran.result == Ok(v))
      && (forall reason :: r.value.out == Err(LeafOpFailed(op, reason)) <==> ran.result == Err(reason))
  {
  }

  /** The catalog a sub-pipeline is dispatched from, when there is one. */
  ghost predicate LeadsTo<S>(env: Env<S>, sc: Scope, sub: string, callee: Scope) {
    var owner := BeforeSlash(sub);
    if owner == sc.broker then callee == sc
    else
      env.registry.Some? && owner in env.registry.value && callee == Scope(owner, env.registry.value[owner])
  }

  /** A sub-pipeline step is the dispatch it names, output included; an error comes back with the name around it. */
  lemma SubPipelineHandsOn<S>(
    fuel: nat, env: Env<S>, sc: Scope, sub: string, params: ParamMap, ctx: LeafCtx, w: World<S>, callee: Scope)
    requires LeadsTo(env, sc, sub, callee)
    ensures var r := ExecuteStep(fuel, env, sc, SubPipeline(sub, params), ctx, w);
      var d := Dispatch(fuel, env, callee, sub, params, w);
      && r.Some? == d.Some?
      && (d.Some? ==>
            && r.value.w == d.value.w && r.value.calls == d.value.calls
            && (forall v :: r.value.out == Ok(v) <==> d.value.out == Ok(v))
            && (forall e :: r.value.out == Err(SubPipelineFailed(sub, e)) <==> d.value.out == Err(e)))
  {
    hide Dispatch, BeforeSlash;
  }

  /** Without a registry, or for an owner it does not have, the step fails and nothing happens. */
  lemma NowhereToGo<S>(
    fuel: nat, env: Env<S>, sc: Scope, sub: string, params: ParamMap, ctx: LeafCtx, w: World<S>)
    requires BeforeSlash(sub) != sc.broker
    requires env.registry.None? || BeforeSlash(sub) !in env.registry.value
    ensures ExecuteStep(fuel, env, sc, SubPipeline(sub, params), ctx, w) ==
            Some(Run(w, Err(SubPipelineFailed(sub,
              if env.registry.None? then NoRegistry(sub) else CalleeNotRegistered(BeforeSlash(sub)))), []))
  {
    hide BeforeSlash;
  }

  /** The first n steps have run to success, each from the world the one before it left. */
  ghost predicate RanThrough<S>(
    fuel: nat, env: Env<S>, sc: Scope, steps: seq<Step>, ctx: LeafCtx, runs: seq<Run<S>>, w: World<S>, n: nat)
  {
    && n <= |steps| && n <= |runs|
    && forall i :: 0 <= i < n ==>
         && ExecuteStep(fuel, env, sc, steps[i], ctx, Before(w, runs, i)) == Some(runs[i])
         && runs[i].out.Ok?
  }

  function Before<S>(w: World<S>, runs: seq<Run<S>>, i: nat): World<S>
    requires i <= |runs|
  {
    if i == 0 then w else runs[i - 1].w
  }

  /**
   Steps run in order, each from the world the one before it left. If all succeed the output is that of
   the last one, or Null when there is none; otherwise it is the error of the first that fails, and no
   later one runs.
   */
  lemma {:induction false} StepsHandOn<S>(
    fuel: nat, env: Env<S>, sc: Scope, steps: seq<Step>, ctx: LeafCtx, w: World<S>, last: Json)
    returns (runs: seq<Run<S>>, n: nat)
    requires ExecuteSteps(fuel, env, sc, steps, ctx, w, last).Some?
    ensures n <= |steps| && |runs| == if n == |steps| then n else n + 1
    ensures RanThrough(fuel, env, sc, steps, ctx, runs, w, n)
    ensures var r := ExecuteSteps(fuel, env, sc, steps, ctx, w, last).value;
      if n == |steps| then
        r.w == Before(w, runs, n) && r.out == if n == 0 then Ok(last) else runs[n - 1].out
      else
        && ExecuteStep(fuel, env, sc, steps[n], ctx, Before(w, runs, n)) == Some(runs[n])
        && runs[n].out.Err? && r.w == runs[n].w && r.out == runs[n].out
    decreases |steps|
  {
    hide ExecuteStep, RanThrough;
    runs, n := [], 0;
    NoneRan(fuel, env, sc, steps, ctx, w);
    if steps != [] {
      var r := ExecuteStep(fuel, env, sc, steps[0], ctx, w).value;
      runs := [r];
      if r.out.Ok? {
        var later, k := StepsHandOn(fuel, env, sc, steps[1..], ctx, r.w, r.out.value);
        runs, n := [r] + later, k + 1;
        RanOneMore(fuel, env, sc, steps, ctx, r, later, w, k);
        if k < |steps[1..]| {
          assert steps[n] == steps[1..][k] && runs[n] == later[k];
        }
      }
    }
  }

  lemma NoneRan<S>(fuel: nat, env: Env<S>, sc: Scope, steps: seq<Step>, ctx: LeafCtx, w: World<S>)
    ensures forall runs :: RanThrough(fuel, env, sc, steps, ctx, runs, w, 0)
  {
  }

  lemma RanOneMore<S>(
    fuel: nat, env: Env<S>, sc: Scope, steps: seq<Step>, ctx: LeafCtx, r: Run<S>, later: seq<Run<S>>, w: World<S>,
    k: nat)
    requires steps != [] && ExecuteStep(fuel, env, sc, steps[0], ctx, w) == Some(r) && r.out.Ok?
    requires RanThrough(fuel, env, sc, steps[1..], ctx, later, r.w, k)
    ensures RanThrough(fuel, env, sc, steps, ctx, [r] + later, w, k + 1)
    ensures Before(w, [r] + later, k + 1) == Before(r.w, later, k)
  {
    hide ExecuteStep;
    var runs := [r] + later;
    forall i | 0 <= i < k + 1
      ensures ExecuteStep(fuel, env, sc, steps[i], ctx, Before(w, runs, i)) == Some(runs[i]) && runs[i].out.Ok?
    {
      if i > 0 { assert steps[i] == steps[1..][i - 1] && Before(w, runs, i) == Before(r.w, later, i - 1); }
    }
  }

  // ----- The record -----

  /**
   The last record of a dispatch is its own: it says what was asked for, with which parameters, by which
   broker and what came of it, and it has the pipeline's audit class, or Governance when there is no such
   pipeline.
   */
  lemma RecordSays<S>(fuel: nat, env: Env<S>, sc: Scope, pid: string, params: ParamMap, w: World<S>)
    requires Dispatch(fuel, env, sc, pid, params, w).Some?
    ensures var r := Dispatch(fuel, env, sc, pid, params, w).value;
      && r.w.trace != []
      && var rec := r.w.trace[|r.w.trace| - 1];
         && rec.id == w.nextId && rec.pid == pid && rec.broker == sc.broker && rec.params == params
         && rec.out == r.out
         && match Find(sc.catalog, pid)
            case None => rec.auditClass == AuditClass.Governance
            case Some(p) => rec.auditClass == p.auditClass
  {
    hide Find, Govern, Unmet, ParamsValid, ExecuteSteps, LinkSnapshot;
  }
}
