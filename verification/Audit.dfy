/**
 Audit completeness of a sequential run. The call tree is the independent account of what was
 dispatched; the trace, the trace ids and the budget are all read off it.
 */
module Audit {
  import opened Basics
  import opened Json
  import opened Pipelines
  import opened Dispatching

  /** The part of a record that identifies the dispatch it belongs to. */
  datatype Entry = Entry(id: nat, broker: string, pid: string, out: Outcome, auditClass: AuditClass)

  function Brief(r: Record): Entry { Entry(r.id, r.broker, r.pid, r.out, r.auditClass) }

  /** The class is the pipeline's own, and Governance where there is no such pipeline. */
  function EntryOf(c: Call): Entry {
    Entry(c.id, c.broker, c.pid, c.out,
          match c.pipeline { case None => AuditClass.Governance case Some(p) => p.auditClass })
  }

  function Briefs(trace: seq<Record>): seq<Entry> {
    seq(|trace|, i requires 0 <= i < |trace| => Brief(trace[i]))
  }

  /** Children before their parent, siblings in call order. */
  function PostOrder(cs: seq<Call>): seq<Entry>
    decreases cs
  {
    if cs == [] then [] else PostOrder(cs[0].children) + [EntryOf(cs[0])] + PostOrder(cs[1..])
  }

  /** Parent before its children: the order in which trace ids are drawn. */
  function Ids(cs: seq<Call>): seq<nat>
    decreases cs
  {
    if cs == [] then [] else [cs[0].id] + Ids(cs[0].children) + Ids(cs[1..])
  }

  function Range(lo: nat, hi: nat): seq<nat>
    requires lo <= hi
  {
    seq(hi - lo, i requires 0 <= i => lo + i)
  }

  predicate Debited(c: Call) {
    c.ran && c.pipeline.Some? && c.pipeline.value.visibility.Surfaced?
  }

  /** Surfaced dispatches, nested ones included, that reached their steps. */
  function Debits(cs: seq<Call>): nat
    decreases cs
  {
    if cs == [] then 0 else (if Debited(cs[0]) then 1 else 0) + Debits(cs[0].children) + Debits(cs[1..])
  }

  predicate AllSucceeded(cs: seq<Call>)
    decreases cs
  {
    cs == [] || (cs[0].out.Ok? && AllSucceeded(cs[0].children) && AllSucceeded(cs[1..]))
  }

  /** What every node of the tree satisfies, at any depth. */
  ghost predicate Sound(cs: seq<Call>)
    decreases cs
  {
    cs == [] || (SoundNode(cs[0]) && Sound(cs[0].children) && Sound(cs[1..]))
  }

  ghost predicate SoundNode(c: Call) {
    // a success has only successes beneath it
    && (c.out.Ok? ==> c.ran && AllSucceeded(c.children))
    // a dispatch refused before its steps calls nothing
    && (!c.ran ==> c.out.Err? && c.children == [])
    && (c.ran ==> c.pipeline.Some?)
    // the kill switch, as this dispatch's own check saw it
    && (Debited(c) && c.sawArmed ==> c.pipeline.value.bypassesKillSwitch)
  }

  /** `b` is reached from `a` by exactly the dispatches of `cs`. */
  ghost predicate Explains<S>(a: World<S>, b: World<S>, cs: seq<Call>) {
    && a.trace <= b.trace
    && Briefs(b.trace) == Briefs(a.trace) + PostOrder(cs)
    && a.nextId <= b.nextId
    && Ids(cs) == Range(a.nextId, b.nextId)
    && b.used == a.used + Debits(cs)
    && Sound(cs)
  }

  lemma Reassociate<T>(a: seq<T>, b: seq<T>, c: seq<T>, d: seq<T>)
    ensures a + b + (c + d) == (a + b + c) + d
  {
  }

  lemma {:induction false} PostOrderAppend(a: seq<Call>, b: seq<Call>)
    ensures PostOrder(a + b) == PostOrder(a) + PostOrder(b)
  {
    if a == [] {
      assert a + b == b;
    } else {
      var rest := a[1..];
      assert (a + b)[0] == a[0] && (a + b)[1..] == rest + b;
      PostOrderAppend(rest, b);
      Reassociate(PostOrder(a[0].children), [EntryOf(a[0])], PostOrder(rest), PostOrder(b));
    }
  }

  lemma {:induction false} IdsAppend(a: seq<Call>, b: seq<Call>)
    ensures Ids(a + b) == Ids(a) + Ids(b)
  {
    if a == [] {
      assert a + b == b;
    } else {
      var rest := a[1..];
      assert (a + b)[0] == a[0] && (a + b)[1..] == rest + b;
      IdsAppend(rest, b);
      Reassociate([a[0].id], Ids(a[0].children), Ids(rest), Ids(b));
    }
  }

  lemma {:induction false} ForestAppend(a: seq<Call>, b: seq<Call>)
    ensures Debits(a + b) == Debits(a) + Debits(b)
    ensures Sound(a + b) <==> Sound(a) && Sound(b)
    ensures AllSucceeded(a + b) <==> AllSucceeded(a) && AllSucceeded(b)
  {
    hide SoundNode, Debited;
    if a == [] {
      assert a + b == b;
    } else {
      var rest := a[1..];
      assert (a + b)[0] == a[0] && (a + b)[1..] == rest + b;
      ForestAppend(rest, b);
    }
  }

  lemma ExplainsTrans<S>(a: World<S>, b: World<S>, c: World<S>, cs: seq<Call>, ds: seq<Call>)
    requires Explains(a, b, cs) && Explains(b, c, ds)
    ensures Explains(a, c, cs + ds)
  {
    hide PostOrder, Ids, Debits, Sound;
    PostOrderAppend(cs, ds);
    IdsAppend(cs, ds);
    ForestAppend(cs, ds);
    assert Range(a.nextId, c.nextId) == Range(a.nextId, b.nextId) + Range(b.nextId, c.nextId);
  }

  lemma ExplainsNothing<S>(a: World<S>, b: World<S>)
    requires b.trace == a.trace && b.nextId == a.nextId && b.used == a.used
    ensures Explains(a, b, [])
  {
  }

  /** Admission touches neither the trace nor the ids, and debits exactly the admitted Surfaced pipelines. */
  lemma AdmitEffect<S>(env: Env<S>, sc: Scope, pid: string, params: ParamMap, w: World<S>)
    ensures var a := Admit(env, sc, pid, params, w);
      && a.w.trace == w.trace && a.w.nextId == w.nextId && a.w.prior == w.prior && a.w.armed == w.armed
      && (a.Refused? ==> a.w.used == w.used)
      && (a.Admitted? ==> Find(sc.catalog, pid) == Some(a.p) && a.ctx.broker == sc.broker && a.ctx.pid == pid)
      && (a.Admitted? ==> a.w.used == w.used + if a.p.visibility.Surfaced? then 1 else 0)
      && (a.Admitted? && a.p.visibility.Surfaced? ==>
            w.used < env.ceiling && (w.armed ==> a.p.bypassesKillSwitch))
  {
    hide Find, GateCheck, Unmet, ParamsValid;
  }

  lemma FinishExplains<S>(env: Env<S>, sc: Scope, pid: string, params: ParamMap, w: World<S>, inner: World<S>, c: Call)
    requires c.id == w.nextId && c.broker == sc.broker && c.pid == pid && SoundNode(c)
    requires w.trace <= inner.trace && Briefs(inner.trace) == Briefs(w.trace) + PostOrder(c.children)
    requires w.nextId + 1 <= inner.nextId && Ids(c.children) == Range(w.nextId + 1, inner.nextId)
    requires inner.used == w.used + (if Debited(c) then 1 else 0) + Debits(c.children)
    requires Sound(c.children)
    ensures Explains(w, Finish(env, sc, c.id, pid, params, c.pipeline, inner, c.out), [c])
  {
    var done := Finish(env, sc, c.id, pid, params, c.pipeline, inner, c.out);
    var rec := done.trace[|inner.trace|];
    assert done.trace == inner.trace + [rec];
    assert Briefs(done.trace) == Briefs(inner.trace) + [Brief(rec)];
    assert Brief(rec) == EntryOf(c);
    assert [c][1..] == [];
    assert PostOrder([c]) == PostOrder(c.children) + [EntryOf(c)];
    assert Range(w.nextId, done.nextId) == [c.id] + Range(w.nextId + 1, inner.nextId);
  }

  lemma EmptyForest()
    ensures PostOrder([]) == [] && Ids([]) == [] && Debits([]) == 0 && Sound([]) && AllSucceeded([])
  {
  }

  /**
   Every dispatch, at any depth and whatever its outcome, appends exactly one record; the records
   come in post-order of the call tree and say what the calls returned; the ids drawn are exactly
   the next ones; and the budget grew by the Surfaced dispatches that reached their steps.
   */
  lemma {:induction false} DispatchAudited<S>(
    fuel: nat, env: Env<S>, sc: Scope, pid: string, params: ParamMap, w: World<S>)
    requires Dispatch(fuel, env, sc, pid, params, w).Some?
    ensures var r := Dispatch(fuel, env, sc, pid, params, w).value;
      && Explains(w, r.w, r.calls)
      && |r.calls| == 1 && r.calls[0].id == w.nextId && r.calls[0].out == r.out
    decreases fuel, 0
  {
    hide Admit, Finish, ExecuteSteps, PostOrder, Ids, Debits, Sound, AllSucceeded;
    var start := w.(nextId := w.nextId + 1);
    AdmitEffect(env, sc, pid, params, start);
    EmptyForest();
    var r := Dispatch(fuel, env, sc, pid, params, w).value;
    var c := r.calls[0];
    match Admit(env, sc, pid, params, start) {
      case Refused(w1, p, e) =>
        assert Briefs(w1.trace) == Briefs(w.trace) + PostOrder([]);
        FinishExplains(env, sc, pid, params, w, w1, c);
      case Admitted(w1, p, ctx) =>
        StepsAudited(fuel - 1, env, sc, p.steps, ctx, w1, Null);
        var inner := ExecuteSteps(fuel - 1, env, sc, p.steps, ctx, w1, Null).value;
        FinishExplains(env, sc, pid, params, w, inner.w, c);
    }
  }

  lemma {:induction false} StepsAudited<S>(
    fuel: nat, env: Env<S>, sc: Scope, steps: seq<Step>, ctx: LeafCtx, w: World<S>, last: Json)
    requires ExecuteSteps(fuel, env, sc, steps, ctx, w, last).Some?
    ensures var r := ExecuteSteps(fuel, env, sc, steps, ctx, w, last).value;
      Explains(w, r.w, r.calls) && (r.out.Ok? ==> AllSucceeded(r.calls))
    decreases fuel, 2, |steps|
  {
    if steps == [] {
      ExplainsNothing(w, w);
    } else {
      StepAudited(fuel, env, sc, steps[0], ctx, w);
      var r := ExecuteStep(fuel, env, sc, steps[0], ctx, w).value;
      if r.out.Ok? {
        StepsAudited(fuel, env, sc, steps[1..], ctx, r.w, r.out.value);
        var rest := ExecuteSteps(fuel, env, sc, steps[1..], ctx, r.w, r.out.value).value;
        ExplainsTrans(w, r.w, rest.w, r.calls, rest.calls);
        ForestAppend(r.calls, rest.calls);
      }
    }
  }

  lemma {:induction false} StepAudited<S>(fuel: nat, env: Env<S>, sc: Scope, step: Step, ctx: LeafCtx, w: World<S>)
    requires ExecuteStep(fuel, env, sc, step, ctx, w).Some?
    ensures var r := ExecuteStep(fuel, env, sc, step, ctx, w).value;
      Explains(w, r.w, r.calls) && (r.out.Ok? ==> AllSucceeded(r.calls))
    decreases fuel, 1, step
  {
    match step {
      case Leaf(op) =>
        ExplainsNothing(w, ExecuteStep(fuel, env, sc, step, ctx, w).value.w);
      case SubPipeline(sub, params) =>
        match Resolve(env, sc, sub) {
          case Unreachable(e) => ExplainsNothing(w, w);
          case Callee(callee) => 
            DispatchAudited(fuel, env, callee, sub, params, w);
            var r := Dispatch(fuel, env, callee, sub, params, w).value;
            assert r.calls == [r.calls[0]];
            assert Sound(r.calls);
            assert r.out.Ok? ==> AllSucceeded(r.calls);
        }
      case Guard(text, inner) =>
        if Holds(env, text, ctx.overlay, ctx.params) {
          StepAudited(fuel, env, sc, inner, ctx, w);
        } else {
          ExplainsNothing(w, w);
        }
      case Branch(text, ifTrue, ifFalse) =>
        StepAudited(fuel, env, sc, if Holds(env, text, ctx.overlay, ctx.params) then ifTrue else ifFalse, ctx, w);
    }
  }

  function EntryIds(es: seq<Entry>): seq<nat> {
    seq(|es|, i requires 0 <= i < |es| => es[i].id)
  }

  lemma Rotate(below: seq<Entry>, e: Entry, rest: seq<Entry>, id: nat, belowIds: seq<nat>, restIds: seq<nat>)
    requires e.id == id
    requires multiset(EntryIds(below)) == multiset(belowIds) && multiset(EntryIds(rest)) == multiset(restIds)
    ensures multiset(EntryIds(below + [e] + rest)) == multiset([id] + belowIds + restIds)
  {
    assert EntryIds(below + [e] + rest) == EntryIds(below) + [id] + EntryIds(rest);
  }

  lemma {:induction false} SameIdsEitherOrder(cs: seq<Call>)
    ensures multiset(EntryIds(PostOrder(cs))) == multiset(Ids(cs))
    decreases cs
  {
    if cs != [] {
      var below, rest := PostOrder(cs[0].children), PostOrder(cs[1..]);
      SameIdsEitherOrder(cs[0].children);
      SameIdsEitherOrder(cs[1..]);
      Rotate(below, EntryOf(cs[0]), rest, cs[0].id, Ids(cs[0].children), Ids(cs[1..]));
    }
  }

  lemma RangeOnce(lo: nat, hi: nat, id: nat)
    requires lo <= id < hi
    ensures multiset(Range(lo, hi))[id] == 1
  {
    var a, b := Range(lo, id), Range(id + 1, hi);
    assert Range(lo, hi) == a + [id] + b;
    assert id !in a && id !in b;
  }

  /** Each trace id drawn during a run labels exactly one of the records the run appends. */
  lemma OneRecordPerDispatch<S>(fuel: nat, env: Env<S>, sc: Scope, pid: string, params: ParamMap, w: World<S>, id: nat)
    requires Dispatch(fuel, env, sc, pid, params, w).Some?
    requires w.nextId <= id < Dispatch(fuel, env, sc, pid, params, w).value.w.nextId
    ensures var t := Dispatch(fuel, env, sc, pid, params, w).value.w.trace;
      && w.trace <= t
      && multiset(EntryIds(Briefs(t[|w.trace|..])))[id] == 1
  {
    DispatchAudited(fuel, env, sc, pid, params, w);
    var r := Dispatch(fuel, env, sc, pid, params, w).value;
    var added := r.w.trace[|w.trace|..];
    assert r.w.trace == w.trace + added;
    assert Briefs(r.w.trace) == Briefs(w.trace) + Briefs(added);
    assert Briefs(added) == Briefs(r.w.trace)[|w.trace|..] == PostOrder(r.calls);
    SameIdsEitherOrder(r.calls);
    RangeOnce(w.nextId, r.w.nextId, id);
  }
}
