/**
 A catalog accepted under the Reject policy never leaves its broker at run time, so a dispatch
 cannot depend on the registry. This holds exactly for broker ids without a slash.
 */
module StaticSafety {
  import opened Basics
  import opened Json
  import opened Pipelines
  import opened Catalogs
  import opened Dispatching
  import opened Audit

  type Registry = Option<map<string, seq<Pipeline>>>

  function With<S>(env: Env<S>, registry: Registry): Env<S> {
    env.(registry := registry)
  }

  /** Every dispatch of the tree runs on this broker. */
  ghost predicate StaysOn(cs: seq<Call>, broker: string)
    decreases cs
  {
    cs == [] || (cs[0].broker == broker && StaysOn(cs[0].children, broker) && StaysOn(cs[1..], broker))
  }

  lemma {:induction false} StaysOnAppend(a: seq<Call>, b: seq<Call>, broker: string)
    requires StaysOn(a, broker) && StaysOn(b, broker)
    ensures StaysOn(a + b, broker)
  {
    if a == [] {
      assert a + b == b;
    } else {
      assert (a + b)[1..] == a[1..] + b;
      StaysOnAppend(a[1..], b, broker);
    }
  }

  lemma {:induction false} UnmetSame<S>(env: Env<S>, reg: Registry, texts: seq<string>, overlay: Json, params: ParamMap)
    ensures Unmet(With(env, reg), texts, overlay, params) == Unmet(env, texts, overlay, params)
  {
    if texts != [] { UnmetSame(env, reg, texts[1..], overlay, params); }
  }

  lemma AdmitSame<S>(env: Env<S>, reg: Registry, sc: Scope, pid: string, params: ParamMap, w: World<S>)
    ensures Admit(With(env, reg), sc, pid, params, w) == Admit(env, sc, pid, params, w)
  {
    hide ParamsValid, GateCheck, Unmet, Find;
    var p := Find(sc.catalog, pid);
    if p.Some? {
      var host := if p.value.visibility.Surfaced? then Govern(env, p.value, params, w).0.host else w.host;
      UnmetSame(env, reg, p.value.preconditions, env.overlay(sc.broker, host), params);
    }
  }

  lemma FinishSame<S>(env: Env<S>, reg: Registry, sc: Scope, id: nat, pid: string, params: ParamMap,
                      p: Option<Pipeline>, w: World<S>, out: Outcome)
    ensures Finish(With(env, reg), sc, id, pid, params, p, w, out) == Finish(env, sc, id, pid, params, p, w, out)
  {
  }

  lemma AcceptedStays(catalog: seq<Pipeline>, broker: string, p: Pipeline)
    requires Accepted(catalog, broker, Reject) && p in catalog
    ensures forall ref :: ref in Refs(p.steps) ==> Owned(ref, broker)
  {
  }

  lemma {:induction false} DispatchSame<S>(
    fuel: nat, env: Env<S>, reg: Registry, sc: Scope, pid: string, params: ParamMap, w: World<S>)
    requires '/' !in sc.broker && Accepted(sc.catalog, sc.broker, Reject)
    ensures Dispatch(fuel, With(env, reg), sc, pid, params, w) == Dispatch(fuel, env, sc, pid, params, w)
    ensures Dispatch(fuel, env, sc, pid, params, w).Some? ==>
              StaysOn(Dispatch(fuel, env, sc, pid, params, w).value.calls, sc.broker)
    decreases fuel, 0
  {
    hide Admit, Finish, Accepted, Refs, ExecuteSteps;
    if fuel > 0 {
      var start := w.(nextId := w.nextId + 1);
      AdmitSame(env, reg, sc, pid, params, start);
      var a := Admit(env, sc, pid, params, start);
      if a.Admitted? {
        AdmitEffect(env, sc, pid, params, start);
        AcceptedStays(sc.catalog, sc.broker, a.p);
        StepsSame(fuel - 1, env, reg, sc, a.p.steps, a.ctx, a.w, Null);
        var r := ExecuteSteps(fuel - 1, env, sc, a.p.steps, a.ctx, a.w, Null);
        if r.Some? { FinishSame(env, reg, sc, w.nextId, pid, params, Some(a.p), r.value.w, r.value.out); }
      } else {
        FinishSame(env, reg, sc, w.nextId, pid, params, a.found, a.w, Err(a.e));
      }
    }
  }

  lemma {:induction false} StepsSame<S>(
    fuel: nat, env: Env<S>, reg: Registry, sc: Scope, steps: seq<Step>, ctx: LeafCtx, w: World<S>, last: Json)
    requires '/' !in sc.broker && Accepted(sc.catalog, sc.broker, Reject)
    requires forall ref :: ref in Refs(steps) ==> Owned(ref, sc.broker)
    ensures ExecuteSteps(fuel, With(env, reg), sc, steps, ctx, w, last)
        == ExecuteSteps(fuel, env, sc, steps, ctx, w, last)
    ensures ExecuteSteps(fuel, env, sc, steps, ctx, w, last).Some? ==>
              StaysOn(ExecuteSteps(fuel, env, sc, steps, ctx, w, last).value.calls, sc.broker)
    decreases fuel, 2, |steps|
  {
    if steps != [] {
      StepSame(fuel, env, reg, sc, steps[0], ctx, w);
      var r := ExecuteStep(fuel, env, sc, steps[0], ctx, w);
      if r.Some? && r.value.out.Ok? {
        StepsSame(fuel, env, reg, sc, steps[1..], ctx, r.value.w, r.value.out.value);
        var rest := ExecuteSteps(fuel, env, sc, steps[1..], ctx, r.value.w, r.value.out.value);
        if rest.Some? { StaysOnAppend(r.value.calls, rest.value.calls, sc.broker); }
      }
    }
  }

  lemma {:induction false} StepSame<S>(
    fuel: nat, env: Env<S>, reg: Registry, sc: Scope, step: Step, ctx: LeafCtx, w: World<S>)
    requires '/' !in sc.broker && Accepted(sc.catalog, sc.broker, Reject)
    requires forall ref :: ref in StepRefs(step) ==> Owned(ref, sc.broker)
    ensures ExecuteStep(fuel, With(env, reg), sc, step, ctx, w) == ExecuteStep(fuel, env, sc, step, ctx, w)
    ensures ExecuteStep(fuel, env, sc, step, ctx, w).Some? ==>
              StaysOn(ExecuteStep(fuel, env, sc, step, ctx, w).value.calls, sc.broker)
    decreases fuel, 1, step
  {
    match step {
      case Leaf(_) =>
      case SubPipeline(sub, params) =>
        assert sub in StepRefs(step);
        PrefixNamesOwner(sc.broker, sub);
        DispatchSame(fuel, env, reg, sc, sub, params, w);
      case Guard(_, inner) => StepSame(fuel, env, reg, sc, inner, ctx, w);
      case Branch(_, ifTrue, ifFalse) =>
        StepSame(fuel, env, reg, sc, ifTrue, ctx, w);
        StepSame(fuel, env, reg, sc, ifFalse, ctx, w);
    }
  }

  /** Whatever catalog is accepted for `broker`, its dispatches run the same under any two registries. */
  ghost predicate RegistryIndependent<S(!new)>(env: Env<S>, broker: string) {
    forall catalog: seq<Pipeline>, fuel: nat, pid: string, params: ParamMap, w: World<S>, r1: Registry, r2: Registry ::
      Accepted(catalog, broker, Reject) ==>
        Dispatch(fuel, With(env, r1), Scope(broker, catalog), pid, params, w)
        == Dispatch(fuel, With(env, r2), Scope(broker, catalog), pid, params, w)
  }

  function Plain(id: string, steps: seq<Step>): Pipeline {
    Pipeline(id, Internal, Capability, Null, [], steps, false)
  }

  lemma AdmitPlain<S>(env: Env<S>, sc: Scope, pid: string, w: World<S>)
    requires Find(sc.catalog, pid).Some? && exists steps :: Find(sc.catalog, pid).value == Plain(pid, steps)
    ensures var a := Admit(env, sc, pid, map[], w); a.Admitted? && a.w == w && a.p == Find(sc.catalog, pid).value
  {
  }

  /** A catalog of two pipelines, the first of which only calls the second. */
  function CallingPair(broker: string): seq<Pipeline> {
    [Plain(broker + "/x", [SubPipeline(broker + "/y", map[])]), Plain(broker + "/y", [])]
  }

  lemma PairAccepted(broker: string)
    ensures Accepted(CallingPair(broker), broker, Reject)
    ensures Find(CallingPair(broker), broker + "/x") == Some(CallingPair(broker)[0])
    ensures Find(CallingPair(broker), broker + "/y") == Some(CallingPair(broker)[1])
    ensures '/' in broker ==> BeforeSlash(broker + "/y") != broker
  {
    var x, y := broker + "/x", broker + "/y";
    var pair := CallingPair(broker);
    assert x[|x| - 1] == 'x' && y[|y| - 1] == 'y';
    assert Refs(pair[0].steps) == {y} by { assert pair[0].steps[1..] == []; }
    assert pair[1..] == [pair[1]];
    if '/' in broker {
      var i := IndexOf(broker, '/');
      assert i < |broker| by { assert broker == broker[..|broker|]; }
      assert broker[..i] == y[..i];
      IndexOfIs(y, '/', i);
    }
  }

  lemma StepsOfOne<S>(fuel: nat, env: Env<S>, sc: Scope, steps: seq<Step>, ctx: LeafCtx, w: World<S>)
    requires |steps| == 1 && ExecuteStep(fuel, env, sc, steps[0], ctx, w).Some?
    ensures var all := ExecuteSteps(fuel, env, sc, steps, ctx, w, Null);
      all.Some? && all.value.out == ExecuteStep(fuel, env, sc, steps[0], ctx, w).value.out
  {
    assert steps[1..] == [];
  }

  lemma PairWithoutRegistry<S>(env: Env<S>, broker: string, w: World<S>)
    requires '/' in broker && env.registry.None?
    ensures var r := Dispatch(2, env, Scope(broker, CallingPair(broker)), broker + "/x", map[], w);
      r.Some? && r.value.out.Err?
  {
    hide Accepted, Finish, Admit;
    PairAccepted(broker);
    var sc, pid := Scope(broker, CallingPair(broker)), broker + "/x";
    var start := w.(nextId := w.nextId + 1);
    AdmitPlain(env, sc, pid, start);
    var a := Admit(env, sc, pid, map[], start);
    StepsOfOne(1, env, sc, a.p.steps, a.ctx, a.w);
  }

  lemma PairWithRegistry<S>(env: Env<S>, broker: string, w: World<S>)
    requires '/' in broker && env.registry == Some(map[BeforeSlash(broker + "/y") := CallingPair(broker)])
    ensures var r := Dispatch(2, env, Scope(broker, CallingPair(broker)), broker + "/x", map[], w);
      r.Some? && r.value.out.Ok?
  {
    hide Accepted, Finish, Admit;
    PairAccepted(broker);
    var sc, pid, sub := Scope(broker, CallingPair(broker)), broker + "/x", broker + "/y";
    var start := w.(nextId := w.nextId + 1);
    AdmitPlain(env, sc, pid, start);
    var a := Admit(env, sc, pid, map[], start);
    var callee := Scope(BeforeSlash(sub), sc.catalog);
    AdmitPlain(env, callee, sub, a.w.(nextId := a.w.nextId + 1));
    assert Resolve(env, sc, sub) == Callee(callee);
    assert Dispatch(1, env, callee, sub, map[], a.w).Some?;
    StepsOfOne(1, env, sc, a.p.steps, a.ctx, a.w);
  }

  /** A broker id with a slash makes the runner look for another owner, so the registry decides. */
  lemma SlashedBrokerDepends<S>(env: Env<S>, broker: string, w: World<S>)
    requires '/' in broker
    ensures var sc, pid := Scope(broker, CallingPair(broker)), broker + "/x";
      var owners := Some(map[BeforeSlash(broker + "/y") := sc.catalog]);
      && Accepted(sc.catalog, broker, Reject)
      && Dispatch(2, With(env, None), sc, pid, map[], w) != Dispatch(2, With(env, owners), sc, pid, map[], w)
  {
    hide Accepted, Dispatch;
    PairAccepted(broker);
    PairWithoutRegistry(With(env, None), broker, w);
    PairWithRegistry(With(env, Some(map[BeforeSlash(broker + "/y") := CallingPair(broker)])), broker, w);
  }

  lemma StaticCheckIsSafeExactlyForSlashFreeIds<S(!new)>(env: Env<S>, broker: string, w: World<S>)
    ensures RegistryIndependent(env, broker) <==> '/' !in broker
  {
    if '/' in broker {
      SlashedBrokerDepends(env, broker, w);
    } else {
      forall catalog: seq<Pipeline>, fuel: nat, pid: string, params: ParamMap, w': World<S>, r1: Registry, r2: Registry
        | Accepted(catalog, broker, Reject)
        ensures Dispatch(fuel, With(env, r1), Scope(broker, catalog), pid, params, w')
             == Dispatch(fuel, With(env, r2), Scope(broker, catalog), pid, params, w')
      {
        DispatchSame(fuel, env, r1, Scope(broker, catalog), pid, params, w');
        DispatchSame(fuel, env, r2, Scope(broker, catalog), pid, params, w');
      }
    }
  }
}
