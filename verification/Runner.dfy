/**
 The pipeline runner as it updates its own state: governance counters, snapshot cache, trace and the
 brokers behind it. Each method is proved to compute the big-step semantics, and the entry point needs
 no bound on the nesting depth, only that every cycle of pipelines passes through a Surfaced one.
 */
module Runner {
  import opened Basics
  import opened Json
  import opened Pipelines
  import opened Frames
  import opened Traces
  import opened Governance
  import D = Dispatching
  import opened Dispatching
  import opened Termination
  import opened Verdicts

  class PipelineRunner<!S> {
    const governance: GovernanceComposer<S>
    const holds: (string, Json, ParamMap) -> bool
    const overlay: (string, S) -> Json
    const leaf: (string, LeafCtx, S, bool) -> LeafRun<S>
    var frame: Frame
    var registry: Option<map<string, seq<Pipeline>>>
    var host: S
    var prior: map<string, Snapshot>
    var trace: seq<Record>
    var nextId: nat

    constructor (governance: GovernanceComposer<S>, holds: (string, Json, ParamMap) -> bool,
                 overlay: (string, S) -> Json, leaf: (string, LeafCtx, S, bool) -> LeafRun<S>, host: S)
      ensures this.governance == governance && this.host == host
      ensures this.holds == holds && this.overlay == overlay && this.leaf == leaf
      ensures prior == map[] && trace == [] && frame == map[] && registry == None
    {
      this.governance, this.holds, this.overlay, this.leaf := governance, holds, overlay, leaf;
      this.host := host;
      frame, registry, prior, trace, nextId := map[], None, map[], [], 0;
    }

    method SetRegistry(registry: map<string, seq<Pipeline>>)
      modifies this`registry
      ensures this.registry == Some(registry)
    {
      this.registry := Some(registry);
    }

    method SetFrame(frame: Frame)
      modifies this`frame
      ensures this.frame == frame
    {
      this.frame := frame;
    }

    function Env(): Env<S>
      reads this, governance
    {
      Dispatching.Env(holds, overlay, leaf, governance.gates, frame, registry, governance.ceiling)
    }

    function World(): World<S>
      reads this, governance
    {
      Dispatching.World(host, governance.used, governance.armed, prior, trace, nextId)
    }

    method FirstUnmet(texts: seq<string>, snapshot: Json, params: ParamMap) returns (unmet: Option<string>)
      ensures unmet == Unmet(Env(), texts, snapshot, params)
      ensures unmet.None? ==> AllTrue(Env(), texts, snapshot, params)
      ensures unmet.Some? ==>
                exists i: nat :: FirstFalse(Env(), texts, snapshot, params, i) && unmet == Some(texts[i])
    {
      var i := 0;
      assert texts[0..] == texts;
      while i < |texts|
        invariant i <= |texts|
        invariant Unmet(Env(), texts, snapshot, params) == Unmet(Env(), texts[i..], snapshot, params)
        invariant forall j :: 0 <= j < i ==> holds(Substitute(frame, texts[j]), snapshot, params)
      {
        assert texts[i..][1..] == texts[i + 1..];
        var resolved := SubstitutePlaceholders(frame, texts[i]);
        if !holds(resolved, snapshot, params) {
          assert FirstFalse(Env(), texts, snapshot, params, i);
          return Some(texts[i]);
        }
        i := i + 1;
      }
      return None;
    }

    /** Governance, parameters, preconditions and the debit. */
    method Admit(
      sc: Scope, pid: string, params: ParamMap) returns (found: Option<Pipeline>, ctx: Result<LeafCtx, DispatchError>)
      modifies this`host, governance`used
      ensures var a := D.Admit(old(Env()), sc, pid, params, old(World()));
        && World() == a.w
        && match a
           case Refused(_, p, e) => found == p && ctx == Err(e)
           case Admitted(_, p, c) => found == Some(p) && ctx == Ok(c)
    {
      hide Unmet, ParamsValid, GateCheck, Find;
      found := Find(sc.catalog, pid);
      if found.None? { return None, Err(PipelineNotFound(sc.broker, pid)); }
      var p := found.value;
      if p.visibility.Surfaced? {
        var refusal;
        host, refusal := governance.PreDispatchChecksFor(p, params, host);
        if refusal.Some? { return found, Err(GovernanceRefused(refusal.value)); }
      }
      if !ParamsValid(p.schema, params) { return found, Err(ParamValidation(pid)); }
      var snapshot := overlay(sc.broker, host);
      var unmet := FirstUnmet(p.preconditions, snapshot, params);
      if unmet.Some? { return found, Err(PreconditionUnmet(unmet.value)); }
      if p.visibility.Surfaced? { governance.RecordDispatch(); }
      ctx := Ok(LeafCtx(sc.broker, pid, params, snapshot, frame));
    }

    /** The snapshot cache update, with the delta filled in key by key. */
    method ComputeSnapshotDelta(broker: string, id: nat, current: Json) returns (from: Option<nat>, change: Logged)
      modifies this`prior
      ensures (prior, from, change) == LinkSnapshot(old(prior), broker, id, current)
    {
      if broker in prior {
        var last := prior[broker];
        var added, removed, changed := ComputeDelta(last.overlay, current);
        var gone := set k | k in removed;
        assert gone == Compute(last.overlay, current).removed;
        from, change := Some(last.id), Diff(SnapshotDelta(added, gone, changed));
      } else {
        from, change := None, Full(current);
      }
      prior := prior[broker := Snapshot(id, current)];
    }

    method DispatchWithin(ghost fuel: nat, sc: Scope, pid: string, params: ParamMap) returns (out: Outcome)
      requires D.Dispatch(fuel, Env(), sc, pid, params, World()).Some?
      modifies this`host, this`prior, this`trace, this`nextId, governance`used, governance`armed
      ensures var r := D.Dispatch(fuel, old(Env()), sc, pid, params, old(World())).value;
        World() == r.w && out == r.out
      decreases fuel, 0
    {
      hide D.Admit, D.ExecuteSteps, Compute;
      var id := nextId;
      nextId := nextId + 1;
      ghost var start := World();
      var found, ctx := Admit(sc, pid, params);
      if ctx.Err? {
        out := Err(ctx.error);
      } else {
        out := ExecuteSteps(fuel - 1, sc, found.value.steps, ctx.value);
      }
      ghost var inner := World();
      var post := overlay(sc.broker, host);
      var from, change := ComputeSnapshotDelta(sc.broker, id, post);
      trace := trace + [Record(id, pid, sc.broker, params, from, change, out, ClassOf(found))];
      assert World() == Finish(old(Env()), sc, id, pid, params, found, inner, out);
    }

    method ExecuteSteps(ghost fuel: nat, sc: Scope, steps: seq<Step>, ctx: LeafCtx) returns (lastOutput: Outcome)
      requires D.ExecuteSteps(fuel, Env(), sc, steps, ctx, World(), Null).Some?
      modifies this`host, this`prior, this`trace, this`nextId, governance`used, governance`armed
      ensures var r := D.ExecuteSteps(fuel, old(Env()), sc, steps, ctx, old(World()), Null).value;
        World() == r.w && lastOutput == r.out
      decreases fuel, 2, |steps|
    {
      var last := Null;
      var i := 0;
      ghost var env, all := Env(), D.ExecuteSteps(fuel, Env(), sc, steps, ctx, World(), Null).value;
      assert steps[0..] == steps;
      while i < |steps|
        invariant i <= |steps| && Env() == env
        invariant var rest := D.ExecuteSteps(fuel, env, sc, steps[i..], ctx, World(), last);
          rest.Some? && rest.value.w == all.w && rest.value.out == all.out
      {
        assert steps[i..][1..] == steps[i + 1..];
        lastOutput := ExecuteStep(fuel, sc, steps[i], ctx);
        if lastOutput.Err? { return; }
        last := lastOutput.value;
        i := i + 1;
      }
      assert steps[i..] == [];
      lastOutput := Ok(last);
    }

    method ExecuteStep(ghost fuel: nat, sc: Scope, step: Step, ctx: LeafCtx) returns (out: Outcome)
      requires D.ExecuteStep(fuel, Env(), sc, step, ctx, World()).Some?
      modifies this`host, this`prior, this`trace, this`nextId, governance`used, governance`armed
      ensures var r := D.ExecuteStep(fuel, old(Env()), sc, step, ctx, old(World())).value;
        World() == r.w && out == r.out
      decreases fuel, 1, step
    {
      match step {
        case Leaf(op) =>
          var r := leaf(op, ctx, host, governance.armed);
          host := r.host;
          governance.SetArmed(r.armed);
          out := LeafOutcome(op, r.result);
        case SubPipeline(sub, params) =>
          var target := Resolve(Env(), sc, sub);
          match target {
            case Unreachable(e) => out := Err(e);
            case Callee(callee) =>
              out := DispatchWithin(fuel, callee, sub, params);
              out := Wrap(sub, out);
          }
        case Guard(text, inner) =>
          var resolved := SubstitutePlaceholders(frame, text);
          if holds(resolved, ctx.overlay, ctx.params) {
            out := ExecuteStep(fuel, sc, inner, ctx);
          } else {
            out := Ok(Null);
          }
        case Branch(text, ifTrue, ifFalse) =>
          var resolved := SubstitutePlaceholders(frame, text);
          var chosen := if holds(resolved, ctx.overlay, ctx.params) then ifTrue else ifFalse;
          out := ExecuteStep(fuel, sc, chosen, ctx);
      }
    }
  }

  /** The entry point: it terminates, and does what the semantics says, for every catalog whose cycles are Surfaced. */
  method DispatchPipeline<S(!new)>(
    runner: PipelineRunner<S>, sc: Scope, pid: string, params: ParamMap) returns (out: Outcome)
    requires CyclesAreSurfaced(runner.Env(), Node(sc, pid))
    modifies runner`host, runner`prior, runner`trace, runner`nextId, runner.governance`used, runner.governance`armed
    ensures var r := D.Dispatch(EnoughFuel(old(runner.Env()), Node(sc, pid), old(runner.World())), old(runner.Env()),
        sc, pid, params, old(runner.World()));
      r.Some? && runner.World() == r.value.w && out == r.value.out
  {
    ghost var fuel := EnoughFuel(runner.Env(), Node(sc, pid), runner.World());
    DispatchTerminates(fuel, runner.Env(), sc, pid, params, runner.World());
    out := runner.DispatchWithin(fuel, sc, pid, params);
  }
}
