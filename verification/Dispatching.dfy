/**
 Sequential big-step semantics of a dispatch. `Dispatch` is the recursive interpreter: admission,
 steps, snapshot delta, audit record. `fuel` only bounds the nesting depth of sub-pipelines; the
 Termination module shows how much of it is always enough.

 The host state `S` holds the brokers and the subgates. Leaf-ops, subgates, overlays and the
 precondition language are parameters: everything proved here holds for all of them.
 */
module Dispatching {
  import opened Basics
  import opened Json
  import opened Pipelines
  import opened Frames
  import opened Traces

  datatype Refusal =
    | BudgetExhausted(used: nat, ceiling: nat)
    | KillSwitchArmed
    | Subgate(name: string, reason: string)

  datatype DispatchError =
    | PipelineNotFound(broker: string, pid: string)
    | ParamValidation(pid: string)
    | PreconditionUnmet(text: string)
    | GovernanceRefused(why: Refusal)
    | LeafOpFailed(leafOp: string, reason: string)
    | SubPipelineFailed(sub: string, source: DispatchError)
    | NoRegistry(sub: string)
    | CalleeNotRegistered(callee: string)

  type Outcome = Result<Json, DispatchError>

  datatype LeafCtx = LeafCtx(broker: string, pid: string, params: ParamMap, overlay: Json, frame: Frame)

  /** What a leaf-op leaves behind. It may arm or disarm the kill switch but has no access to the budget. */
  datatype LeafRun<!S> = LeafRun(host: S, armed: bool, result: Result<Json, string>)

  /** A subgate may keep its own state inside the host state and may refuse. */
  datatype Gate<!S> = Gate(name: string, check: (Pipeline, ParamMap, S) -> (S, Option<string>))

  datatype Env<!S> = Env(
    holds: (string, Json, ParamMap) -> bool,
    overlay: (string, S) -> Json,
    leaf: (string, LeafCtx, S, bool) -> LeafRun<S>,
    gates: seq<Gate<S>>,
    frame: Frame,
    registry: Option<map<string, seq<Pipeline>>>,
    ceiling: nat)

  /** The last overlay recorded for a broker, and the trace id of the record that carries it. */
  datatype Snapshot = Snapshot(id: nat, overlay: Json)

  /** The first record of a broker carries the whole overlay, later ones a delta. */
  datatype Logged = Full(overlay: Json) | Diff(delta: SnapshotDelta)

  datatype Record = Record(
    id: nat, pid: string, broker: string, params: ParamMap,
    from: Option<nat>, change: Logged, out: Outcome, auditClass: AuditClass)

  datatype World<!S> = World(
    host: S, used: nat, armed: bool, prior: map<string, Snapshot>, trace: seq<Record>, nextId: nat)

  /** One dispatch, as a node of the call tree a run unfolds into. */
  datatype Call = Call(
    id: nat, broker: string, pid: string,
    pipeline: Option<Pipeline>, sawArmed: bool, ran: bool,
    out: Outcome, children: seq<Call>)

  datatype Run<!S> = Run(w: World<S>, out: Outcome, calls: seq<Call>)

  // ----- Admission -----

  function BudgetCheck(used: nat, ceiling: nat): Option<Refusal> {
    if used >= ceiling then Some(BudgetExhausted(used, ceiling)) else None
  }

  function KillCheck(p: Pipeline, armed: bool): Option<Refusal> {
    if armed && !p.bypassesKillSwitch then Some(KillSwitchArmed) else None
  }

  /** Subgates run in registration order; the first refusal stops the rest. */
  function GateCheck<S>(gates: seq<Gate<S>>, p: Pipeline, params: ParamMap, host: S): (S, Option<Refusal>) {
    if gates == [] then (host, None)
    else
      var (host', verdict) := gates[0].check(p, params, host);
      if verdict.Some? then (host', Some(Subgate(gates[0].name, verdict.value)))
      else GateCheck(gates[1..], p, params, host')
  }

  function Govern<S>(env: Env<S>, p: Pipeline, params: ParamMap, w: World<S>): (World<S>, Option<Refusal>) {
    var budget := BudgetCheck(w.used, env.ceiling);
    var kill := KillCheck(p, w.armed);
    if budget.Some? then (w, budget)
    else if kill.Some? then (w, kill)
    else
      var (host', refusal) := GateCheck(env.gates, p, params, w.host);
      (w.(host := host'), refusal)
  }

  predicate Holds<S>(env: Env<S>, text: string, overlay: Json, params: ParamMap) {
    env.holds(Substitute(env.frame, text), overlay, params)
  }

  /** The first precondition that does not hold. */
  function Unmet<S>(env: Env<S>, texts: seq<string>, overlay: Json, params: ParamMap): Option<string> {
    if texts == [] then None
    else if !Holds(env, texts[0], overlay, params) then Some(texts[0])
    else Unmet(env, texts[1..], overlay, params)
  }

  datatype Admission<!S> =
    | Refused(w: World<S>, found: Option<Pipeline>, e: DispatchError)
    | Admitted(w: World<S>, p: Pipeline, ctx: LeafCtx)

  /** Everything up to the first step: lookup, governance, parameters, preconditions, debit. */
  function Admit<S>(env: Env<S>, sc: Scope, pid: string, params: ParamMap, w: World<S>): Admission<S> {
    match Find(sc.catalog, pid)
    case None => Refused(w, None, PipelineNotFound(sc.broker, pid))
    case Some(p) =>
      var (w1, refusal) := if p.visibility.Surfaced? then Govern(env, p, params, w) else (w, None);
      if refusal.Some? then Refused(w1, Some(p), GovernanceRefused(refusal.value))
      else if !ParamsValid(p.schema, params) then Refused(w1, Some(p), ParamValidation(pid))
      else
        var overlay := env.overlay(sc.broker, w1.host);
        var unmet := Unmet(env, p.preconditions, overlay, params);
        if unmet.Some? then Refused(w1, Some(p), PreconditionUnmet(unmet.value))
        else
          Admitted(
            if p.visibility.Surfaced? then w1.(used := w1.used + 1) else w1,
            p, LeafCtx(sc.broker, pid, params, overlay, env.frame))
  }

  // ----- Audit record -----

  /** The cache update made under the snapshot lock: the new cache, the back link and the recorded change. */
  function LinkSnapshot(prior: map<string, Snapshot>, broker: string, id: nat, overlay: Json)
    : (map<string, Snapshot>, Option<nat>, Logged)
  {
    var prior' := prior[broker := Snapshot(id, overlay)];
    if broker in prior then (prior', Some(prior[broker].id), Diff(Compute(prior[broker].overlay, overlay)))
    else (prior', None, Full(overlay))
  }

  function ClassOf(p: Option<Pipeline>): AuditClass {
    if p.Some? then p.value.auditClass else AuditClass.Governance
  }

  /** Read the overlay, link it, append the record. */
  function Finish<S>(env: Env<S>, sc: Scope, id: nat, pid: string, params: ParamMap,
                     p: Option<Pipeline>, w: World<S>, out: Outcome): World<S>
  {
    var (prior', from, change) := LinkSnapshot(w.prior, sc.broker, id, env.overlay(sc.broker, w.host));
    w.(prior := prior', trace := w.trace + [Record(id, pid, sc.broker, params, from, change, out, ClassOf(p))])
  }

  // ----- Steps -----

  datatype Target = Callee(scope: Scope) | Unreachable(e: DispatchError)

  /** Where a sub-pipeline step leads: the same catalog, or the callee's own catalog from the registry. */
  function Resolve<S>(env: Env<S>, sc: Scope, sub: string): Target {
    var owner := BeforeSlash(sub);
    if owner == sc.broker then Callee(sc)
    else if env.registry.None? then Unreachable(SubPipelineFailed(sub, NoRegistry(sub)))
    else if owner !in env.registry.value then Unreachable(SubPipelineFailed(sub, CalleeNotRegistered(owner)))
    else Callee(Scope(owner, env.registry.value[owner]))
  }

  function Wrap(sub: string, out: Outcome): Outcome {
    if out.Err? then Err(SubPipelineFailed(sub, out.error)) else out
  }

  function LeafOutcome(op: string, result: Result<Json, string>): Outcome {
    match result
    case Ok(v) => Ok(v)
    case Err(reason) => Err(LeafOpFailed(op, reason))
  }

  function Dispatch<S>(fuel: nat, env: Env<S>, sc: Scope, pid: string, params: ParamMap, w: World<S>): Option<Run<S>>
    decreases fuel, 0
  {
    if fuel == 0 then None
    else
      var id := w.nextId;
      match Admit(env, sc, pid, params, w.(nextId := id + 1))
      case Refused(w1, p, e) =>
        Some(Run(Finish(env, sc, id, pid, params, p, w1, Err(e)), Err(e),
                 [Call(id, sc.broker, pid, p, w.armed, false, Err(e), [])]))
      case Admitted(w1, p, ctx) =>
        match ExecuteSteps(fuel - 1, env, sc, p.steps, ctx, w1, Null)
        case None => None
        case Some(r) =>
          Some(Run(Finish(env, sc, id, pid, params, Some(p), r.w, r.out), r.out,
                   [Call(id, sc.broker, pid, Some(p), w.armed, true, r.out, r.calls)]))
  }

  function ExecuteSteps<S>(fuel: nat, env: Env<S>, sc: Scope, steps: seq<Step>, ctx: LeafCtx, w: World<S>, last: Json)
    : Option<Run<S>>
    decreases fuel, 2, |steps|
  {
    if steps == [] then Some(Run(w, Ok(last), []))
    else
      match ExecuteStep(fuel, env, sc, steps[0], ctx, w)
      case None => None
      case Some(r) =>
        if r.out.Err? then Some(r)
        else
          match ExecuteSteps(fuel, env, sc, steps[1..], ctx, r.w, r.out.value)
          case None => None
          case Some(rest) => Some(Run(rest.w, rest.out, r.calls + rest.calls))
  }

  function ExecuteStep<S>(fuel: nat, env: Env<S>, sc: Scope, step: Step, ctx: LeafCtx, w: World<S>): Option<Run<S>>
    decreases fuel, 1, step
  {
    match step
    case Leaf(op) =>
      var r := env.leaf(op, ctx, w.host, w.armed);
      Some(Run(w.(host := r.host, armed := r.armed), LeafOutcome(op, r.result), []))
    case SubPipeline(sub, params) =>
      (match Resolve(env, sc, sub)
       case Unreachable(e) => Some(Run(w, Err(e), []))
       case Callee(callee) =>
         match Dispatch(fuel, env, callee, sub, params, w)
         case None => None
         case Some(r) => Some(Run(r.w, Wrap(sub, r.out), r.calls)))
    case Guard(text, inner) =>
      if Holds(env, text, ctx.overlay, ctx.params) then ExecuteStep(fuel, env, sc, inner, ctx, w)
      else Some(Run(w, Ok(Null), []))
    case Branch(text, ifTrue, ifFalse) =>
      ExecuteStep(fuel, env, sc, if Holds(env, text, ctx.overlay, ctx.params) then ifTrue else ifFalse, ctx, w)
  }
}
