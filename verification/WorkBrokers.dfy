/** The Work Broker in its in-memory mode: its catalog, its leaf-ops, and the way back from an armed kill switch. */
module WorkBrokers {
  import opened Basics
  import opened Json
  import opened Pipelines
  import opened Catalogs
  import opened Dispatching
  import opened Audit
  import opened Governance

  datatype Status = Ready | Claimed | Blocked | Done

  datatype WorkUnit = WorkUnit(id: string, title: string, status: Status)

  datatype ActiveWork = ActiveWork(activeWork: seq<WorkUnit>, recentClaims: seq<string>)

  datatype Backlog = Backlog(units: seq<WorkUnit>, overlay: ActiveWork)

  function WithStatus(units: seq<WorkUnit>, status: Status): (r: seq<WorkUnit>)
    ensures forall u :: u in r <==> u in units && u.status == status
  {
    if units == [] then []
    else (if units[0].status == status then [units[0]] else []) + WithStatus(units[1..], status)
  }

  function IdsOf(units: seq<WorkUnit>): seq<string> {
    seq(|units|, i requires 0 <= i < |units| => units[i].id)
  }

  function Curate(units: seq<WorkUnit>): ActiveWork {
    ActiveWork(WithStatus(units, Ready), IdsOf(WithStatus(units, Claimed)))
  }

  /** Position of the first unit with this id, or the length. */
  function Position(units: seq<WorkUnit>, id: string): (i: nat)
    ensures i <= |units|
    ensures i < |units| ==> units[i].id == id
    ensures forall j :: 0 <= j < i ==> units[j].id != id
  {
    if units == [] || units[0].id == id then 0 else 1 + Position(units[1..], id)
  }

  function Claim(units: seq<WorkUnit>, id: string): Result<seq<WorkUnit>, string> {
    var i := Position(units, id);
    if i == |units| then Err("not found")
    else if units[i].status != Ready then Err("not ready")
    else Ok(units[i := units[i].(status := Claimed)])
  }

  function UnitId(params: ParamMap): Option<string> {
    if "work_unit_id" in params && params["work_unit_id"].Str? then Some(params["work_unit_id"].text) else None
  }

  /** The leaf-ops as a transformer of the backlog and the kill switch. */
  function WorkLeaf(op: string, ctx: LeafCtx, s: Backlog, armed: bool): LeafRun<Backlog> {
    if op == "claim_work_unit" then
      match UnitId(ctx.params)
      case None => LeafRun(s, armed, Err("missing work_unit_id"))
      case Some(id) =>
        (match Claim(s.units, id)
         case Err(why) => LeafRun(s, armed, Err(why))
         case Ok(units) => LeafRun(s.(units := units), armed,
           Ok(Obj(map["claimed" := Str(id), "status" := Str("claimed")]))))
    else if op == "refresh_overlay" then
      LeafRun(s.(overlay := Curate(s.units)), armed, Ok(Obj(map["refreshed" := Bool(true)])))
    else if op == "arm_kill_switch" then LeafRun(s, true, Ok(Obj(map["armed" := Bool(true)])))
    else if op == "disengage_kill_switch" then LeafRun(s, false, Ok(Obj(map["armed" := Bool(false)])))
    else LeafRun(s, armed, Err("leaf-op not found"))
  }

  // ----- Catalog -----

  function Framework(broker: string, name: string): Pipeline {
    Pipeline(broker + "/" + name, Internal, AuditClass.Governance, Obj(map[]), [], [], false)
  }

  function Switch(broker: string, name: string, op: string): Pipeline {
    Pipeline(broker + "/" + name, Surfaced, AuditClass.Governance, Obj(map[]), [], [Leaf(op)], true)
  }

  function CanonicalGovernancePipelines(broker: string): seq<Pipeline> {
    [Framework(broker, "check-trust-budget"),
     Framework(broker, "check-kill-switch"),
     Framework(broker, "record-dispatch"),
     Framework(broker, "record-outcome"),
     Switch(broker, "arm-kill-switch", "arm_kill_switch"),
     Switch(broker, "disengage-kill-switch", "disengage_kill_switch")]
  }

  function ClaimSchema(): Json {
    Obj(map["type" := Str("object"),
            "properties" := Obj(map["work_unit_id" := Obj(map["type" := Str("string")])]),
            "required" := Arr([Str("work_unit_id")])])
  }

  function WorkCatalog(broker: string): seq<Pipeline> {
    [Pipeline(broker + "/dispatch-work-unit", Surfaced, Capability, ClaimSchema(), ["active_work"],
              [Leaf("claim_work_unit"), Leaf("refresh_overlay")], false),
     Pipeline(broker + "/work-broker-tick", Internal, Capability, Obj(map[]), [], [Leaf("refresh_overlay")], false)]
    + CanonicalGovernancePipelines(broker)
  }

  /** The names after the prefix, in catalog order. */
  const NAMES: seq<string> := [
    "dispatch-work-unit", "work-broker-tick", "check-trust-budget", "check-kill-switch",
    "record-dispatch", "record-outcome", "arm-kill-switch", "disengage-kill-switch"]

  lemma CatalogIds(broker: string, i: nat)
    requires i < 8
    ensures |WorkCatalog(broker)| == 8 && WorkCatalog(broker)[i].id == broker + "/" + NAMES[i]
  {
    hide ClaimSchema;
    if i >= 2 {
      assert WorkCatalog(broker)[i] == CanonicalGovernancePipelines(broker)[i - 2];
      assert NAMES[i] == NAMES[2..][i - 2];
    }
  }

  lemma NamesDiffer(broker: string, i: nat, j: nat)
    requires i < j < 8
    ensures broker + "/" + NAMES[i] != broker + "/" + NAMES[j]
  {
    var a, b := broker + "/" + NAMES[i], broker + "/" + NAMES[j];
    assert a[|broker| + 1..] == NAMES[i] && b[|broker| + 1..] == NAMES[j];
    if |NAMES[i]| == |NAMES[j]| {
      assert NAMES[0][0] == 'd' && NAMES[1][0] == 'w' && NAMES[2][6] == 't' && NAMES[3][6] == 'k'
          && NAMES[4][0] == 'r' && NAMES[5][0] == 'r' && NAMES[6][0] == 'a' && NAMES[7][0] == 'd';
    }
  }

  lemma {:induction false} LeafRefs(steps: seq<Step>)
    requires forall s :: s in steps ==> s.Leaf?
    ensures Refs(steps) == {}
  {
    if steps != [] { LeafRefs(steps[1..]); }
  }

  /** The broker's own catalog passes the strict policy, whatever its id. */
  lemma WorkCatalogAccepted(broker: string)
    ensures Accepted(WorkCatalog(broker), broker, Reject)
  {
    var cat := WorkCatalog(broker);
    forall i, j | 0 <= i < j < |cat| ensures cat[i].id != cat[j].id {
      CatalogIds(broker, i);
      CatalogIds(broker, j);
      NamesDiffer(broker, i, j);
    }
    forall p | p in cat ensures Lawful(p, broker, Reject) {
      var i :| 0 <= i < |cat| && cat[i] == p;
      CatalogIds(broker, i);
      assert broker + "/" + NAMES[i] == (broker + "/") + NAMES[i];
      LeafRefs(p.steps);
    }
  }

  lemma {:induction false} FindDistinct(catalog: seq<Pipeline>, i: nat)
    requires i < |catalog| && forall j :: 0 <= j < i ==> catalog[j].id != catalog[i].id
    ensures Find(catalog, catalog[i].id) == Some(catalog[i])
  {
    if i > 0 { FindDistinct(catalog[1..], i - 1); }
  }

  lemma FindInWorkCatalog(broker: string, i: nat)
    requires i < 8
    ensures Find(WorkCatalog(broker), broker + "/" + NAMES[i]) == Some(WorkCatalog(broker)[i])
  {
    CatalogIds(broker, i);
    WorkCatalogAccepted(broker);
    FindDistinct(WorkCatalog(broker), i);
  }

  // ----- Recovery -----

  ghost predicate NoGateRefuses<S>(env: Env<S>, p: Pipeline, params: ParamMap, host: S) {
    GateCheck(env.gates, p, params, host).1.None?
  }

  /** The Work Broker's leaf-ops in a host that also holds `G`, the state of everything else, subgates included. */
  function HostLeaf<G>(op: string, ctx: LeafCtx, host: (Backlog, G), armed: bool): LeafRun<(Backlog, G)> {
    var r := WorkLeaf(op, ctx, host.0, armed);
    LeafRun((r.host, host.1), r.armed, r.result)
  }

  /** An environment in which this broker's leaf-ops do what the Work Broker does. */
  ghost predicate RunsWorkBroker<G(!new)>(env: Env<(Backlog, G)>, broker: string) {
    forall op: string, ctx: LeafCtx, host: (Backlog, G), armed: bool ::
      ctx.broker == broker ==> env.leaf(op, ctx, host, armed) == HostLeaf(op, ctx, host, armed)
  }

  /**
   The way out of an armed switch, exactly: disengaging works if and only if a budget unit is left and
   no subgate refuses it, because only the kill-switch check is bypassed. When it works the switch is
   off; when it does not, the switch stays as it was.
   */
  lemma DisengageRecovers<G(!new)>(
    fuel: nat, env: Env<(Backlog, G)>, broker: string, params: ParamMap, w: World<(Backlog, G)>)
    requires RunsWorkBroker(env, broker) && fuel >= 1
    ensures var r := Dispatch(fuel, env, Scope(broker, WorkCatalog(broker)), broker + "/disengage-kill-switch",
        params, w);
      && r.Some?
      && (r.value.out.Ok? <==> w.used < env.ceiling && NoGateRefuses(env, WorkCatalog(broker)[7], params, w.host))
      && (if r.value.out.Ok? then
            r.value.out == Ok(Obj(map["armed" := Bool(false)])) && !r.value.w.armed && r.value.w.used == w.used + 1
          else r.value.w.armed == w.armed && r.value.w.used == w.used)
  {
    hide WorkCatalog, Admit, ExecuteSteps, Finish, RunsWorkBroker, NoGateRefuses, Find;
    var sc, pid := Scope(broker, WorkCatalog(broker)), broker + "/" + NAMES[7];
    assert pid == broker + "/disengage-kill-switch";
    FindInWorkCatalog(broker, 7);
    SwitchAt(broker);
    var start := w.(nextId := w.nextId + 1);
    var a := Admit(env, sc, pid, params, start);
    SwitchAdmitted(env, sc, pid, params, start);
    if a.Admitted? {
      SwitchSteps(fuel - 1, env, sc, a.p, a.ctx, a.w);
    }
    FinishKeeps(env, sc, w.nextId, pid, params, w);
  }

  /** The budget and the subgates decide, and nothing else. */
  lemma SwitchAdmitted<G>(env: Env<(Backlog, G)>, sc: Scope, pid: string, params: ParamMap, w: World<(Backlog, G)>)
    requires Find(sc.catalog, pid) == Some(Switch(sc.broker, "disengage-kill-switch", "disengage_kill_switch"))
    ensures var a := Admit(env, sc, pid, params, w);
      && (a.Admitted? <==> w.used < env.ceiling && NoGateRefuses(env, Find(sc.catalog, pid).value, params, w.host))
      && a.w.armed == w.armed
      && (if a.Admitted? then
            && a.p == Find(sc.catalog, pid).value && a.ctx.broker == sc.broker && a.w.used == w.used + 1
          else a.w.used == w.used)
  {
    hide GateCheck;
  }

  lemma SwitchAt(broker: string)
    ensures WorkCatalog(broker)[7] == Switch(broker, "disengage-kill-switch", "disengage_kill_switch")
  {
  }

  lemma SwitchSteps<G(!new)>(
    fuel: nat, env: Env<(Backlog, G)>, sc: Scope, p: Pipeline, ctx: LeafCtx, w: World<(Backlog, G)>)
    requires RunsWorkBroker(env, sc.broker) && ctx.broker == sc.broker && p.steps == [Leaf("disengage_kill_switch")]
    ensures var r := ExecuteSteps(fuel, env, sc, p.steps, ctx, w, Null);
      r.Some? && r.value.out == Ok(Obj(map["armed" := Bool(false)])) && r.value.w == w.(armed := false)
  {
    assert p.steps[1..] == [];
  }

  lemma FinishKeeps<S>(env: Env<S>, sc: Scope, id: nat, pid: string, params: ParamMap, w: World<S>)
    ensures forall p, inner: World<S>, out :: var done := Finish(env, sc, id, pid, params, p, inner, out);
      done.armed == inner.armed && done.used == inner.used && done.host == inner.host
  {
  }

  /** With the switch off, budget and subgates decide for every pipeline. */
  lemma GateOpensAgain<S>(env: Env<S>, p: Pipeline, params: ParamMap, w: World<S>)
    requires !w.armed
    ensures Govern(env, p, params, w).1.None? <==> w.used < env.ceiling && NoGateRefuses(env, p, params, w.host)
  {
  }

  /**
   From an armed switch, a pipeline that the gate refuses passes it after disengaging if and only if
   two budget units are left and no subgate refuses either of the two.
   */
  lemma RecoveryReopensGate<G(!new)>(
    fuel: nat, env: Env<(Backlog, G)>, broker: string, params: ParamMap, w: World<(Backlog, G)>, p: Pipeline,
    params': ParamMap)
    requires RunsWorkBroker(env, broker) && w.armed && fuel >= 1 && !p.bypassesKillSwitch
    ensures Govern(env, p, params', w).1.Some?
    ensures var r := Dispatch(fuel, env, Scope(broker, WorkCatalog(broker)), broker + "/disengage-kill-switch",
        params, w);
      && r.Some?
      && (r.value.out.Ok? && Govern(env, p, params', r.value.w).1.None? <==>
            && w.used + 2 <= env.ceiling
            && NoGateRefuses(env, WorkCatalog(broker)[7], params, w.host)
            && NoGateRefuses(env, p, params', r.value.w.host))
  {
    hide WorkCatalog, Dispatch, NoGateRefuses;
    DisengageRecovers(fuel, env, broker, params, w);
    var r := Dispatch(fuel, env, Scope(broker, WorkCatalog(broker)), broker + "/disengage-kill-switch", params, w);
    if r.value.out.Ok? { GateOpensAgain(env, p, params', r.value.w); }
  }

  // ----- Claims -----

  function ReadyCount(units: seq<WorkUnit>, id: string): nat {
    if units == [] then 0
    else (if units[0].id == id && units[0].status == Ready then 1 else 0) + ReadyCount(units[1..], id)
  }

  lemma {:induction false} ReadyCountUpdate(units: seq<WorkUnit>, i: nat, id: string)
    requires i < |units| && units[i].status == Ready
    ensures ReadyCount(units[i := units[i].(status := Claimed)], id) + (if units[i].id == id then 1 else 0)
         == ReadyCount(units, id)
  {
    var units' := units[i := units[i].(status := Claimed)];
    if i > 0 {
      assert units'[1..] == units[1..][i - 1 := units[i].(status := Claimed)];
      ReadyCountUpdate(units[1..], i - 1, id);
    } else {
      assert units'[1..] == units[1..];
    }
  }

  predicate Claims(op: string, ctx: LeafCtx, r: LeafRun<Backlog>, id: string) {
    op == "claim_work_unit" && UnitId(ctx.params) == Some(id) && r.result.Ok?
  }

  /** A sequence of leaf-op calls and how many of them claimed the given unit. */
  function RunLeaves(calls: seq<(string, LeafCtx)>, s: Backlog, armed: bool, id: string): (Backlog, nat) {
    if calls == [] then (s, 0)
    else
      var r := WorkLeaf(calls[0].0, calls[0].1, s, armed);
      var (s', n) := RunLeaves(calls[1..], r.host, r.armed, id);
      (s', n + if Claims(calls[0].0, calls[0].1, r, id) then 1 else 0)
  }

  lemma LeafConserves(op: string, ctx: LeafCtx, s: Backlog, armed: bool, id: string)
    ensures var r := WorkLeaf(op, ctx, s, armed);
      && ReadyCount(r.host.units, id) + (if Claims(op, ctx, r, id) then 1 else 0) == ReadyCount(s.units, id)
      && IdsOf(r.host.units) == IdsOf(s.units)
  {
    hide ReadyCount;
    if op == "claim_work_unit" && WorkLeaf(op, ctx, s, armed).result.Ok? {
      ReadyCountUpdate(s.units, Position(s.units, UnitId(ctx.params).value), id);
    }
  }

  /** Claims are conserved: every successful claim of an id uses up one Ready unit of that id, and nothing else does. */
  lemma {:induction false} ClaimsAreConserved(calls: seq<(string, LeafCtx)>, s: Backlog, armed: bool, id: string)
    ensures var (s', n) := RunLeaves(calls, s, armed, id);
      && ReadyCount(s'.units, id) + n == ReadyCount(s.units, id)
      && IdsOf(s'.units) == IdsOf(s.units)
  {
    hide WorkLeaf, ReadyCount, Claims;
    if calls != [] {
      var (op, ctx) := calls[0];
      var r := WorkLeaf(op, ctx, s, armed);
      LeafConserves(op, ctx, s, armed, id);
      ClaimsAreConserved(calls[1..], r.host, r.armed, id);
    }
  }

  // ----- The broker object -----

  class WorkBroker {
    const id: string
    var units: seq<WorkUnit>
    var overlay: ActiveWork
    const governance: GovernanceComposer<Backlog>

    constructor (id: string, initial: seq<WorkUnit>, governance: GovernanceComposer<Backlog>)
      ensures this.id == id && this.governance == governance
      ensures State() == Backlog(initial, Curate(initial))
    {
      this.id, this.governance := id, governance;
      units, overlay := initial, Curate(initial);
    }

    function State(): Backlog
      reads this
    {
      Backlog(units, overlay)
    }

    method ExecuteLeaf(op: string, ctx: LeafCtx) returns (result: Result<Json, string>)
      modifies this`units, this`overlay, governance`armed
      ensures WorkLeaf(op, ctx, old(State()), old(governance.armed)) == LeafRun(State(), governance.armed, result)
    {
      match op {
        case "claim_work_unit" =>
          var id := UnitId(ctx.params);
          if id.None? { return Err("missing work_unit_id"); }
          var i := 0;
          while i < |units| && units[i].id != id.value
            invariant i <= |units| && units == old(units)
            invariant Position(units, id.value) == i + Position(units[i..], id.value)
          {
            assert units[i..][1..] == units[i + 1..];
            i := i + 1;
          }
          if i == |units| { return Err("not found"); }
          if units[i].status != Ready { return Err("not ready"); }
          units := units[i := units[i].(status := Claimed)];
          return Ok(Obj(map["claimed" := Str(id.value), "status" := Str("claimed")]));
        case "refresh_overlay" =>
          overlay := Curate(units);
          return Ok(Obj(map["refreshed" := Bool(true)]));
        case "arm_kill_switch" =>
          governance.SetArmed(true);
          return Ok(Obj(map["armed" := Bool(true)]));
        case "disengage_kill_switch" =>
          governance.SetArmed(false);
          return Ok(Obj(map["armed" := Bool(false)]));
        case _ =>
          return Err("leaf-op not found");
      }
    }
  }
}
