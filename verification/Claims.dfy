/**
 The Work Broker's own pipelines from end to end: when a work unit can be claimed and what a claim
 leaves behind, what a tick shows, and how the switch is armed.
 */
module Claims {
  import opened Basics
  import opened Json
  import opened Pipelines
  import opened Frames
  import opened Placeholders
  import opened FinalTexts
  import opened Preconditions
  import opened TextLines
  import opened Dispatching
  import opened Verdicts
  import opened WorkBrokers

  // ----- The parameter -----

  /** Claiming asks for one parameter, a string. */
  lemma ClaimSchemaExactly(params: ParamMap)
    ensures ParamsValid(ClaimSchema(), params) <==> "work_unit_id" in params && params["work_unit_id"].Str?
  {
    hide HasType;
    var typed := Obj(map["type" := Str("string")]);
    var props := map["work_unit_id" := typed];
    assert Get(ClaimSchema(), "properties") == Some(Obj(props));
    assert Get(ClaimSchema(), "required") == Some(Arr([Str("work_unit_id")]));
    assert Get(typed, "type") == Some(Str("string")) && Get(typed, "enum").None?;
    assert Str("work_unit_id") in [Str("work_unit_id")];
    assert forall f :: f in RequiredFields(ClaimSchema()) <==> f == "work_unit_id";
    if "work_unit_id" in params { StringType(params["work_unit_id"]); }
  }

  lemma StringType(value: Json)
    ensures HasType(value, "string") <==> value.Str?
  {
  }

  // ----- The overlay -----

  /** One more unit at the end shows exactly if it is Ready, and is listed as claimed exactly if it is Claimed. */
  lemma {:induction false} CurateSnoc(units: seq<WorkUnit>, u: WorkUnit)
    ensures Curate(units + [u]) ==
            ActiveWork(Curate(units).activeWork + (if u.status == Ready then [u] else []),
                       Curate(units).recentClaims + (if u.status == Claimed then [u.id] else []))
  {
    StatusSnoc(units, u, Ready);
    StatusSnoc(units, u, Claimed);
    var claimed := WithStatus(units, Claimed);
    if u.status == Claimed { assert IdsOf(claimed + [u]) == IdsOf(claimed) + [u.id]; }
  }

  lemma {:induction false} StatusSnoc(units: seq<WorkUnit>, u: WorkUnit, status: Status)
    ensures WithStatus(units + [u], status) == WithStatus(units, status) + if u.status == status then [u] else []
  {
    if units == [] {
      assert units + [u] == [u] && [u][1..] == [];
    } else {
      assert (units + [u])[1..] == units[1..] + [u];
      StatusSnoc(units[1..], u, status);
    }
  }

  lemma NothingCurated()
    ensures Curate([]) == ActiveWork([], [])
  {
  }

  /** The overlay shows the Ready units and the ids of the Claimed ones, and nothing else. */
  ghost predicate Shows(overlay: ActiveWork, units: seq<WorkUnit>) {
    && (forall u :: u in overlay.activeWork <==> u in units && u.status == Ready)
    && (forall id :: id in overlay.recentClaims <==> exists u :: u in units && u.status == Claimed && u.id == id)
  }

  lemma CurateShows(units: seq<WorkUnit>)
    ensures Shows(Curate(units), units)
  {
    var claimed := WithStatus(units, Claimed);
    forall id ensures id in IdsOf(claimed) <==> exists u :: u in units && u.status == Claimed && u.id == id {
      if id in IdsOf(claimed) {
        var i :| 0 <= i < |IdsOf(claimed)| && IdsOf(claimed)[i] == id;
        assert claimed[i] in units;
      }
      if u :| u in units && u.status == Claimed && u.id == id {
        assert u in claimed;
        var i :| 0 <= i < |claimed| && claimed[i] == u;
        assert IdsOf(claimed)[i] == id;
      }
    }
  }

  // ----- Claiming -----

  /** The unit a claim is for: the first of that id, and it is Ready. */
  predicate Claimable(units: seq<WorkUnit>, id: string, i: nat) {
    && i < |units| && units[i].id == id && units[i].status == Ready
    && forall j :: 0 <= j < i ==> units[j].id != id
  }

  lemma ClaimLeaf(ctx: LeafCtx, s: Backlog, armed: bool, id: string, i: nat)
    requires UnitId(ctx.params) == Some(id) && i == Position(s.units, id)
    ensures var r := WorkLeaf("claim_work_unit", ctx, s, armed);
      && r.armed == armed
      && (if Claimable(s.units, id, i) then
            && r.host == s.(units := ClaimedAt(s.units, i))
            && r.result == Ok(Obj(map["claimed" := Str(id), "status" := Str("claimed")]))
          else r.host == s && r.result.Err?)
  {
  }

  lemma RefreshLeaf(ctx: LeafCtx, s: Backlog, armed: bool)
    ensures WorkLeaf("refresh_overlay", ctx, s, armed) ==
            LeafRun(s.(overlay := Curate(s.units)), armed, Ok(Obj(map["refreshed" := Bool(true)])))
  {
  }

  const CLAIM_STEPS := [Leaf("claim_work_unit"), Leaf("refresh_overlay")]

  function ClaimedAt(units: seq<WorkUnit>, i: nat): seq<WorkUnit> {
    if i < |units| then units[i := units[i].(status := Claimed)] else units
  }

  /** Claim, then refresh: a claim that fails leaves everything as it was. */
  lemma ClaimSteps<G(!new)>(
    fuel: nat, env: Env<(Backlog, G)>, sc: Scope, ctx: LeafCtx, w: World<(Backlog, G)>, id: string, i: nat)
    requires RunsWorkBroker(env, sc.broker) && ctx.broker == sc.broker
    requires UnitId(ctx.params) == Some(id) && i == Position(w.host.0.units, id)
    ensures var r := ExecuteSteps(fuel, env, sc, CLAIM_STEPS, ctx, w, Null);
      var units := w.host.0.units;
      && r.Some?
      && (if Claimable(units, id, i) then
            && r.value.out == Ok(Obj(map["refreshed" := Bool(true)]))
            && r.value.w == w.(host := (Backlog(ClaimedAt(units, i), Curate(ClaimedAt(units, i))), w.host.1))
          else r.value.out.Err? && r.value.w == w)
  {
    hide WorkLeaf, Claimable, Curate, UnitId, ClaimedAt;
    var s, units := w.host.0, w.host.0.units;
    ClaimLeaf(ctx, s, w.armed, id, i);
    assert CLAIM_STEPS[1..] == [Leaf("refresh_overlay")];
    if Claimable(units, id, i) {
      var claimed := w.(host := (s.(units := ClaimedAt(units, i)), w.host.1));
      RefreshLeaf(ctx, claimed.host.0, w.armed);
      OneLeaf(fuel, env, sc, "refresh_overlay", ctx, claimed,
              Obj(map["claimed" := Str(id), "status" := Str("claimed")]));
    }
  }

  lemma OneLeaf<G(!new)>(
    fuel: nat, env: Env<(Backlog, G)>, sc: Scope, op: string, ctx: LeafCtx, w: World<(Backlog, G)>, last: Json)
    requires RunsWorkBroker(env, sc.broker) && ctx.broker == sc.broker
    ensures var r := WorkLeaf(op, ctx, w.host.0, w.armed);
      ExecuteSteps(fuel, env, sc, [Leaf(op)], ctx, w, last) ==
      Some(Run(w.(host := (r.host, w.host.1), armed := r.armed), LeafOutcome(op, r.result), []))
  {
    hide WorkLeaf;
    assert [Leaf(op)][1..] == [];
    var none: seq<Call> := [];
    assert none + none == none;
  }

  lemma ClaimAt(broker: string)
    ensures Find(WorkCatalog(broker), broker + "/dispatch-work-unit") ==
            Some(Pipeline(broker + "/dispatch-work-unit", Surfaced, Capability, ClaimSchema(), ["active_work"],
                          CLAIM_STEPS, false))
  {
  }

  /** The subgates' answer to the claim pipeline. */
  function Gates<G>(env: Env<(Backlog, G)>, broker: string, params: ParamMap, w: World<(Backlog, G)>)
    : ((Backlog, G), Option<Refusal>)
  {
    var p := Pipeline(
      broker + "/dispatch-work-unit", Surfaced, Capability, ClaimSchema(), ["active_work"], CLAIM_STEPS, false);
    GateCheck(env.gates, p, params, w.host)
  }

  /** Everything that must agree before the claim itself. */
  predicate LetThrough<G>(env: Env<(Backlog, G)>, broker: string, params: ParamMap, w: World<(Backlog, G)>) {
    var (host, refusal) := Gates(env, broker, params, w);
    && w.used < env.ceiling && !w.armed && refusal.None?
    && env.holds(Substitute(env.frame, "active_work"), env.overlay(broker, host), params)
  }

  /** The parameter names the unit at `i`, which is Ready. */
  predicate Names(units: seq<WorkUnit>, params: ParamMap, i: nat) {
    && "work_unit_id" in params && params["work_unit_id"].Str?
    && Claimable(units, params["work_unit_id"].text, i)
  }

  /**
   Dispatching the claim pipeline succeeds if and only if a budget unit is left, the switch is off, no
   subgate refuses, the overlay meets the precondition, and the parameter is a string that names a unit
   which is Ready. Then exactly that unit is Claimed and the overlay shows the new backlog. Otherwise
   backlog and overlay are as the subgates left them. One budget unit is spent once all but the unit's
   own state agree, and the switch never moves.
   */
  lemma ClaimExactly<G(!new)>(
    fuel: nat, env: Env<(Backlog, G)>, broker: string, params: ParamMap, w: World<(Backlog, G)>)
    requires RunsWorkBroker(env, broker) && fuel >= 1
    ensures var r := Dispatch(fuel, env, Scope(broker, WorkCatalog(broker)), broker + "/dispatch-work-unit", params, w);
      var host := Gates(env, broker, params, w).0;
      && r.Some?
      && (r.value.out.Ok? <==> LetThrough(env, broker, params, w) && exists i: nat :: Names(host.0.units, params, i))
      && (r.value.out.Ok? ==>
            && r.value.out == Ok(Obj(map["refreshed" := Bool(true)]))
            && forall i: nat :: Names(host.0.units, params, i) ==>
                 var claimed := ClaimedAt(host.0.units, i);
                 r.value.w.host == (Backlog(claimed, Curate(claimed)), host.1))
      && (r.value.out.Err? ==> r.value.w.host == if w.used < env.ceiling && !w.armed then host else w.host)
      && r.value.w.armed == w.armed
      && r.value.w.used == w.used +
           if LetThrough(env, broker, params, w) && "work_unit_id" in params && params["work_unit_id"].Str?
           then 1 else 0
  {
    hide WorkCatalog, Find, Govern, GateCheck, ParamsValid, ClaimSchema, ExecuteSteps, Finish, RunsWorkBroker;
    hide UnitId, Substitute, Claimable, Curate, ClaimedAt;
    var sc, pid := Scope(broker, WorkCatalog(broker)), broker + "/dispatch-work-unit";
    ClaimAt(broker);
    var p := Find(sc.catalog, pid).value;
    var start := w.(nextId := w.nextId + 1);
    var host := Gates(env, broker, params, w).0;
    GovernedExactly(env, p, params, start);
    ClaimSchemaExactly(params);
    var k := AdmittedExactly(env, sc, pid, params, start, p);
    OneText(env, env.overlay(broker, host), params);
    var a := Admit(env, sc, pid, params, start);
    if a.Admitted? {
      var id := params["work_unit_id"].text;
      NamedUnit(params);
      var i := Position(host.0.units, id);
      ClaimSteps(fuel - 1, env, sc, a.ctx, a.w, id, i);
      forall j: nat | Names(host.0.units, params, j) ensures j == i { OnePosition(host.0.units, id, j); }
      assert Claimable(host.0.units, id, i) <==> Names(host.0.units, params, i);
    }
    FinishKeeps(env, sc, w.nextId, pid, params, w);
  }

  lemma OnePosition(units: seq<WorkUnit>, id: string, i: nat)
    requires Claimable(units, id, i)
    ensures i == Position(units, id)
  {
  }

  lemma NamedUnit(params: ParamMap)
    requires "work_unit_id" in params && params["work_unit_id"].Str?
    ensures UnitId(params) == Some(params["work_unit_id"].text)
  {
  }

  lemma OneText<S>(env: Env<S>, overlay: Json, params: ParamMap)
    ensures AllTrue(env, ["active_work"], overlay, params) <==>
            env.holds(Substitute(env.frame, "active_work"), overlay, params)
  {
    hide Substitute;
    assert ["active_work"][0] == "active_work";
  }

  // ----- The precondition -----

  lemma {:induction false} NoBraces(frame: Frame, s: string)
    requires '{' !in s
    ensures Substitute(frame, s) == s
  {
    hide Tokenize;
    PlainsFirst(s, "");
    EmptyTokens();
    assert s + "" == s && Plains(s) + [] == Plains(s);
    FrameIsFilling(frame, Plains(s));
    FillPlains(FrameFilling(frame), s, []);
    assert s + FillAll(FrameFilling(frame), []) == s;
  }

  /** The claim pipeline's precondition is true exactly of overlays that have the field, in every frame. */
  lemma ActiveWorkIsThere(show: Json -> string, frame: Frame, params: seq<Binding>, overlay: Json)
    ensures Decide(show, overlay, SubstituteParams(params, Substitute(frame, "active_work"))) <==>
            Get(overlay, "active_work").Some?
  {
    hide Decide, Substitute;
    NoBraces(frame, "active_work");
    UnclosedStays(params, "active_work");
    OneWord(show, overlay, "active_work");
  }

  // ----- Tick and switch -----

  /** A pipeline of one leaf-op that asks for nothing does what the leaf-op does, if governance agrees. */
  lemma OneLeafDispatch<G(!new)>(
    fuel: nat, env: Env<(Backlog, G)>, broker: string, params: ParamMap, w: World<(Backlog, G)>, p: Pipeline,
    op: string)
    returns (ctx: LeafCtx)
    requires RunsWorkBroker(env, broker) && fuel >= 1 && Find(WorkCatalog(broker), p.id) == Some(p)
    requires p.schema == Obj(map[]) && p.preconditions == [] && p.steps == [Leaf(op)]
    ensures var r := Dispatch(fuel, env, Scope(broker, WorkCatalog(broker)), p.id, params, w);
      var (w', refusal) := Governed(env, p, params, w.(nextId := w.nextId + 1));
      var ran := WorkLeaf(op, ctx, w'.host.0, w'.armed);
      && r.Some?
      && (if refusal.Some? then
            && r.value.out == Err(GovernanceRefused(refusal.value))
            && r.value.w.host == w'.host && r.value.w.armed == w'.armed && r.value.w.used == w'.used
          else
            && r.value.out == LeafOutcome(op, ran.result)
            && r.value.w.host == (ran.host, w'.host.1) && r.value.w.armed == ran.armed
            && r.value.w.used == w'.used + if p.visibility == Surfaced then 1 else 0)
  {
    hide WorkCatalog, Find, Govern, GateCheck, ExecuteSteps, Finish, RunsWorkBroker, WorkLeaf, LeafOutcome;
    hide ParamsValid, FirstFalse;
    var sc := Scope(broker, WorkCatalog(broker));
    var start := w.(nextId := w.nextId + 1);
    var k := AdmittedExactly(env, sc, p.id, params, start, p);
    AnythingGoes(params);
    var a := Admit(env, sc, p.id, params, start);
    ctx := LeafCtx(broker, p.id, params, env.overlay(broker, Governed(env, p, params, start).0.host), env.frame);
    if a.Admitted? { OneLeaf(fuel - 1, env, sc, op, ctx, a.w, Null); }
    FinishKeeps(env, sc, w.nextId, p.id, params, w);
  }

  lemma AnythingGoes(params: ParamMap)
    ensures ParamsValid(Obj(map[]), params)
  {
  }

  /** A tick needs no budget and no open switch: it always succeeds and shows the backlog as it is. */
  lemma TickShowsBacklog<G(!new)>(
    fuel: nat, env: Env<(Backlog, G)>, broker: string, params: ParamMap, w: World<(Backlog, G)>)
    requires RunsWorkBroker(env, broker) && fuel >= 1
    ensures var r := Dispatch(fuel, env, Scope(broker, WorkCatalog(broker)), broker + "/work-broker-tick", params, w);
      && r.Some? && r.value.out.Ok?
      && r.value.w.host == (Backlog(w.host.0.units, Curate(w.host.0.units)), w.host.1)
      && r.value.w.armed == w.armed && r.value.w.used == w.used
  {
    hide Dispatch, RunsWorkBroker, Curate, CanonicalGovernancePipelines;
    FindInWorkCatalog(broker, 1);
    assert broker + "/" + NAMES[1] == broker + "/work-broker-tick";
    var p := WorkCatalog(broker)[1];
    var ctx := OneLeafDispatch(fuel, env, broker, params, w, p, "refresh_overlay");
  }

  /** Arming works if and only if a budget unit is left and no subgate refuses it; otherwise the switch stays. */
  lemma ArmingTakesEffect<G(!new)>(
    fuel: nat, env: Env<(Backlog, G)>, broker: string, params: ParamMap, w: World<(Backlog, G)>)
    requires RunsWorkBroker(env, broker) && fuel >= 1
    ensures var r := Dispatch(fuel, env, Scope(broker, WorkCatalog(broker)), broker + "/arm-kill-switch", params, w);
      && r.Some?
      && (r.value.out.Ok? <==> w.used < env.ceiling && NoGateRefuses(env, WorkCatalog(broker)[6], params, w.host))
      && (if r.value.out.Ok? then
            r.value.out == Ok(Obj(map["armed" := Bool(true)])) && r.value.w.armed && r.value.w.used == w.used + 1
          else r.value.w.armed == w.armed && r.value.w.used == w.used)
  {
    hide Dispatch, RunsWorkBroker, GateCheck;
    FindInWorkCatalog(broker, 6);
    assert broker + "/" + NAMES[6] == broker + "/arm-kill-switch";
    var p := WorkCatalog(broker)[6];
    assert p == Switch(broker, "arm-kill-switch", "arm_kill_switch");
    GovernedExactly(env, p, params, w.(nextId := w.nextId + 1));
    var ctx := OneLeafDispatch(fuel, env, broker, params, w, p, "arm_kill_switch");
  }

  /** Of the broker's own pipelines the two for the switch bypass it, and no other. */
  lemma OnlySwitchBypasses(broker: string, i: nat)
    requires i < 8
    ensures WorkCatalog(broker)[i].bypassesKillSwitch <==>
            WorkCatalog(broker)[i].id in {broker + "/arm-kill-switch", broker + "/disengage-kill-switch"}
  {
    hide ClaimSchema;
    CatalogIds(broker, i);
    if i < 6 { NamesDiffer(broker, i, 6); }
    if i < 7 { NamesDiffer(broker, i, 7); }
    assert broker + "/" + NAMES[6] == broker + "/arm-kill-switch";
    assert broker + "/" + NAMES[7] == broker + "/disengage-kill-switch";
  }
}
