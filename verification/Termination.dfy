/**
 Sequential dispatch terminates although pipelines may call each other in cycles, provided every
 cycle of references passes through a Surfaced pipeline: each Surfaced pipeline that runs its
 steps has consumed a unit of a budget nothing gives back during the run. The proof gives an
 explicit bound on how deeply dispatches nest.
 */
module Termination {
  import opened Basics
  import opened Json
  import opened Pipelines
  import opened Dispatching
  import opened Audit

  /** A non-Surfaced pipeline of some catalog. */
  datatype Node = Node(scope: Scope, pid: string)

  ghost predicate Private(n: Node) {
    var p := Find(n.scope.catalog, n.pid);
    p.Some? && !p.value.visibility.Surfaced?
  }

  /** Some step of `a` refers to `b`, in the scope the reference resolves to. */
  ghost predicate Calls<S>(env: Env<S>, a: Node, b: Node) {
    var p := Find(a.scope.catalog, a.pid);
    p.Some? && b.pid in Refs(p.value.steps) && Resolve(env, a.scope, b.pid) == Callee(b.scope)
  }

  ghost predicate Walks<S>(env: Env<S>, path: seq<Node>) {
    path != [] && forall i :: 0 <= i < |path| - 1 ==> Calls(env, path[i], path[i + 1])
  }

  ghost predicate WalksFrom<S>(env: Env<S>, root: Node, n: Node, path: seq<Node>) {
    Walks(env, path) && path[0] == root && path[|path| - 1] == n
  }

  /** References lead from `root` to `n`. */
  ghost predicate Reachable<S>(env: Env<S>, root: Node, n: Node) {
    exists path :: WalksFrom(env, root, n, path)
  }

  lemma ReachSelf<S>(env: Env<S>, root: Node)
    ensures Reachable(env, root, root)
  {
    assert WalksFrom(env, root, root, [root]);
  }

  lemma ReachStep<S>(env: Env<S>, root: Node, a: Node, b: Node)
    requires Reachable(env, root, a) && Calls(env, a, b)
    ensures Reachable(env, root, b)
  {
    hide Calls;
    var path :| WalksFrom(env, root, a, path);
    var longer := path + [b];
    forall i | 0 <= i < |longer| - 1 ensures Calls(env, longer[i], longer[i + 1]) {
      if i < |path| - 1 { assert longer[i] == path[i] && longer[i + 1] == path[i + 1]; }
    }
    assert WalksFrom(env, root, b, longer);
  }

  /** A reference from one non-Surfaced pipeline to another. */
  ghost predicate Edge<S>(env: Env<S>, a: Node, b: Node) {
    Calls(env, a, b) && Private(b)
  }

  /** A chain of calls through non-Surfaced pipelines only. */
  ghost predicate Chain<S>(env: Env<S>, path: seq<Node>) {
    && (forall n :: n in path ==> Private(n))
    && (forall i :: 0 <= i < |path| - 1 ==> Edge(env, path[i], path[i + 1]))
  }

  /** The scopes a run started in `sc` can be in. */
  ghost function Scopes<S>(env: Env<S>, sc: Scope): set<Scope> {
    {sc} + if env.registry.None? then {} else set b | b in env.registry.value :: Scope(b, env.registry.value[b])
  }

  /** The non-Surfaced pipelines that references lead to from `root`. */
  ghost function Nodes<S>(env: Env<S>, root: Node): set<Node> {
    set s, p |
      s in Scopes(env, root.scope) && p in s.catalog && !p.visibility.Surfaced? && Reachable(env, root, Node(s, p.id))
      :: Node(s, p.id)
  }

  ghost predicate Within(path: seq<Node>, nodes: set<Node>) {
    forall n :: n in path ==> n in nodes
  }

  /**
   Every cycle of references that can be reached from `root` passes through a Surfaced pipeline: none
   stays among the others.
   */
  ghost predicate CyclesAreSurfaced<S(!new)>(env: Env<S>, root: Node) {
    forall path: seq<Node> ::
      Chain(env, path) && Within(path, Nodes(env, root)) && |path| >= 2 ==> path[0] != path[|path| - 1]
  }

  function Left(used: nat, ceiling: nat): nat {
    if used < ceiling then ceiling - used else 0
  }

  /** Nesting depth that always suffices with `left` budget units and `room` non-Surfaced pipelines unvisited. */
  function Depth(left: nat, room: nat, nodes: nat): nat {
    left * (nodes + 1) + room + 1
  }

  lemma DepthMonotone(left: nat, left': nat, room: nat, nodes: nat)
    requires left <= left'
    ensures Depth(left, room, nodes) <= Depth(left', room, nodes)
    ensures left >= 1 ==> Depth(left - 1, nodes, nodes) + 1 <= Depth(left, room, nodes)
    ensures room >= 1 ==> Depth(left, room - 1, nodes) + 1 == Depth(left, room, nodes)
    ensures Depth(left, room, nodes) >= 1
  {
    assert left * (nodes + 1) <= left' * (nodes + 1);
    if left >= 1 { assert (left - 1) * (nodes + 1) + nodes + 1 == left * (nodes + 1); }
  }

  lemma DistinctLength<T>(path: seq<T>, all: set<T>)
    requires forall i, j :: 0 <= i < j < |path| ==> path[i] != path[j]
    requires forall n :: n in path ==> n in all
    ensures |path| <= |all|
  {
    if path != [] {
      var last := path[|path| - 1];
      DistinctLength(path[..|path| - 1], all - {last});
    }
  }

  lemma ChainSlice<S>(env: Env<S>, path: seq<Node>, lo: nat, hi: nat)
    requires Chain(env, path) && lo <= hi <= |path|
    ensures Chain(env, path[lo..hi])
  {
    hide Edge, Private;
    var part := path[lo..hi];
    forall i | 0 <= i < |part| - 1 ensures Edge(env, part[i], part[i + 1]) {
      assert part[i] == path[lo + i] && part[i + 1] == path[lo + i + 1];
    }
  }

  /** On a chain without private cycles no node repeats. */
  lemma ChainDistinct<S(!new)>(env: Env<S>, root: Node, path: seq<Node>)
    requires CyclesAreSurfaced(env, root) && Chain(env, path) && Within(path, Nodes(env, root))
    ensures forall i, j :: 0 <= i < j < |path| ==> path[i] != path[j]
  {
    hide Chain, Nodes, CyclesAreSurfaced, Within;
    forall i, j | 0 <= i < j < |path| ensures path[i] != path[j] {
      ChainSlice(env, path, i, j + 1);
      WithinSlice(path, Nodes(env, root), i, j + 1);
      EndsDiffer(env, root, path[i..j + 1]);
    }
  }

  lemma EndsDiffer<S(!new)>(env: Env<S>, root: Node, part: seq<Node>)
    requires CyclesAreSurfaced(env, root) && Chain(env, part) && Within(part, Nodes(env, root)) && |part| > 1
    ensures part[0] != part[|part| - 1]
  {
    hide Chain, Nodes, Within;
  }

  lemma WithinSlice(path: seq<Node>, nodes: set<Node>, lo: nat, hi: nat)
    requires Within(path, nodes) && lo <= hi <= |path|
    ensures Within(path[lo..hi], nodes)
  {
  }

  /**
   The dispatch in progress: the pipeline `cur`, the references still to be followed, and the chain of
   non-Surfaced pipelines since the last Surfaced one.
   */
  ghost predicate Calling<S>(env: Env<S>, root: Node, stack: seq<Node>, cur: Node, refs: set<string>) {
    && Chain(env, stack) && Within(stack, Nodes(env, root))
    && Reachable(env, root, cur) && cur.scope in Scopes(env, root.scope)
    && Find(cur.scope.catalog, cur.pid).Some?
    && refs <= Refs(Find(cur.scope.catalog, cur.pid).value.steps)
    && (stack != [] ==> stack[|stack| - 1] == cur)
  }

  /** The next pipeline to be dispatched. */
  ghost predicate Next<S>(env: Env<S>, root: Node, stack: seq<Node>, n: Node) {
    && Chain(env, stack) && Within(stack, Nodes(env, root))
    && Reachable(env, root, n) && n.scope in Scopes(env, root.scope)
    && (stack != [] && Private(n) ==> Edge(env, stack[|stack| - 1], n))
  }

  lemma Push<S(!new)>(env: Env<S>, root: Node, stack: seq<Node>, n: Node)
    requires CyclesAreSurfaced(env, root) && Next(env, root, stack, n) && Private(n)
    ensures Calling(env, root, stack + [n], n, Refs(Find(n.scope.catalog, n.pid).value.steps))
    ensures |stack| + 1 <= |Nodes(env, root)|
  {
    hide Nodes, Scopes, CyclesAreSurfaced, Edge, Refs, Reachable;
    var path := stack + [n];
    PrivateIsNode(env, root, n);
    assert forall m :: m in path ==> m in stack || m == n;
    forall i | 0 <= i < |path| - 1 ensures Edge(env, path[i], path[i + 1]) {
      if i < |stack| - 1 { assert path[i] == stack[i] && path[i + 1] == stack[i + 1]; }
    }
    ChainDistinct(env, root, path);
    DistinctLength(path, Nodes(env, root));
  }

  lemma PrivateIsNode<S>(env: Env<S>, root: Node, n: Node)
    requires n.scope in Scopes(env, root.scope) && Private(n) && Reachable(env, root, n)
    ensures n in Nodes(env, root)
  {
    hide Reachable, Scopes;
    var p := Find(n.scope.catalog, n.pid).value;
    assert p in n.scope.catalog && Node(n.scope, p.id) == n;
  }

  lemma Restart<S>(env: Env<S>, root: Node, stack: seq<Node>, n: Node)
    requires Next(env, root, stack, n) && Find(n.scope.catalog, n.pid).Some?
    ensures Calling(env, root, [], n, Refs(Find(n.scope.catalog, n.pid).value.steps))
  {
  }

  lemma FewerRefs<S>(env: Env<S>, root: Node, stack: seq<Node>, cur: Node, refs: set<string>, fewer: set<string>)
    requires Calling(env, root, stack, cur, refs) && fewer <= refs
    ensures Calling(env, root, stack, cur, fewer)
  {
  }

  lemma Follow<S>(env: Env<S>, root: Node, stack: seq<Node>, cur: Node, n: Node)
    requires Calling(env, root, stack, cur, {n.pid}) && Resolve(env, cur.scope, n.pid) == Callee(n.scope)
    ensures Next(env, root, stack, n)
  {
    hide Reachable, Chain, Nodes;
    assert n.pid in {n.pid};
    assert Calls(env, cur, n);
    ReachStep(env, root, cur, n);
    assert n.scope in Scopes(env, root.scope);
  }

  lemma {:induction false} DispatchBounded<S(!new)>(
    fuel: nat, env: Env<S>, root: Node, stack: seq<Node>, sc: Scope, pid: string, params: ParamMap, w: World<S>)
    requires CyclesAreSurfaced(env, root) && Next(env, root, stack, Node(sc, pid)) && |stack| <= |Nodes(env, root)|
    requires fuel >= Depth(Left(w.used, env.ceiling), |Nodes(env, root)| - |stack|, |Nodes(env, root)|)
    ensures Dispatch(fuel, env, sc, pid, params, w).Some?
    decreases fuel, 0
  {
    hide Depth, Admit, Nodes, Next, CyclesAreSurfaced, Calling, ExecuteSteps, Finish;
    var n, cur := |Nodes(env, root)|, Node(sc, pid);
    var start := w.(nextId := w.nextId + 1);
    AdmitEffect(env, sc, pid, params, start);
    DepthMonotone(Left(w.used, env.ceiling), Left(w.used, env.ceiling), n - |stack|, n);
    match Admit(env, sc, pid, params, start) {
      case Refused(_, _, _) =>
      case Admitted(w1, p, ctx) =>
        if p.visibility.Surfaced? {
          Restart(env, root, stack, cur);
          StepsBounded(fuel - 1, env, root, [], cur, p.steps, ctx, w1, Null);
        } else {
          Push(env, root, stack, cur);
          StepsBounded(fuel - 1, env, root, stack + [cur], cur, p.steps, ctx, w1, Null);
        }
    }
  }

  lemma StepSpends<S>(fuel: nat, env: Env<S>, sc: Scope, step: Step, ctx: LeafCtx, w: World<S>)
    requires ExecuteStep(fuel, env, sc, step, ctx, w).Some?
    ensures w.used <= ExecuteStep(fuel, env, sc, step, ctx, w).value.w.used
  {
    StepAudited(fuel, env, sc, step, ctx, w);
  }

  lemma {:induction false} StepsBounded<S(!new)>(
    fuel: nat, env: Env<S>, root: Node, stack: seq<Node>, cur: Node, steps: seq<Step>,
    ctx: LeafCtx, w: World<S>, last: Json)
    requires CyclesAreSurfaced(env, root)
    requires Calling(env, root, stack, cur, Refs(steps))
    requires |stack| <= |Nodes(env, root)|
    requires fuel >= Depth(Left(w.used, env.ceiling), |Nodes(env, root)| - |stack|, |Nodes(env, root)|)
    ensures ExecuteSteps(fuel, env, cur.scope, steps, ctx, w, last).Some?
    decreases fuel, 2, |steps|
  {
    hide Depth, Nodes, Calling, CyclesAreSurfaced, ExecuteStep, Explains;
    if steps != [] {
      var n := |Nodes(env, root)|;
      FewerRefs(env, root, stack, cur, Refs(steps), StepRefs(steps[0]));
      FewerRefs(env, root, stack, cur, Refs(steps), Refs(steps[1..]));
      StepBounded(fuel, env, root, stack, cur, steps[0], ctx, w);
      var r := ExecuteStep(fuel, env, cur.scope, steps[0], ctx, w).value;
      if r.out.Ok? {
        StepSpends(fuel, env, cur.scope, steps[0], ctx, w);
        DepthMonotone(Left(r.w.used, env.ceiling), Left(w.used, env.ceiling), n - |stack|, n);
        StepsBounded(fuel, env, root, stack, cur, steps[1..], ctx, r.w, r.out.value);
      }
    }
  }

  lemma {:induction false} StepBounded<S(!new)>(
    fuel: nat, env: Env<S>, root: Node, stack: seq<Node>, cur: Node, step: Step, ctx: LeafCtx, w: World<S>)
    requires CyclesAreSurfaced(env, root)
    requires Calling(env, root, stack, cur, StepRefs(step))
    requires |stack| <= |Nodes(env, root)|
    requires fuel >= Depth(Left(w.used, env.ceiling), |Nodes(env, root)| - |stack|, |Nodes(env, root)|)
    ensures ExecuteStep(fuel, env, cur.scope, step, ctx, w).Some?
    decreases fuel, 1, step
  {
    hide Depth, Nodes, Calling, Next, CyclesAreSurfaced, Dispatch;
    match step {
      case Leaf(_) =>
      case SubPipeline(sub, params) =>
        match Resolve(env, cur.scope, sub) {
          case Unreachable(_) =>
          case Callee(callee) =>
            Follow(env, root, stack, cur, Node(callee, sub));
            DispatchBounded(fuel, env, root, stack, callee, sub, params, w);
        }
      case Guard(_, inner) => StepBounded(fuel, env, root, stack, cur, inner, ctx, w);
      case Branch(_, ifTrue, ifFalse) =>
        FewerRefs(env, root, stack, cur, StepRefs(step), StepRefs(ifTrue));
        FewerRefs(env, root, stack, cur, StepRefs(step), StepRefs(ifFalse));
        StepBounded(fuel, env, root, stack, cur, ifTrue, ctx, w);
        StepBounded(fuel, env, root, stack, cur, ifFalse, ctx, w);
    }
  }

  /** The nesting depth of any run of `root` from `w`: (budget left + 1) * (reachable non-Surfaced pipelines + 1). */
  ghost function EnoughFuel<S>(env: Env<S>, root: Node, w: World<S>): nat {
    Depth(Left(w.used, env.ceiling), |Nodes(env, root)|, |Nodes(env, root)|)
  }

  lemma DispatchTerminates<S(!new)>(fuel: nat, env: Env<S>, sc: Scope, pid: string, params: ParamMap, w: World<S>)
    requires CyclesAreSurfaced(env, Node(sc, pid)) && fuel >= EnoughFuel(env, Node(sc, pid), w)
    ensures Dispatch(fuel, env, sc, pid, params, w).Some?
  {
    hide CyclesAreSurfaced, Nodes, Dispatch;
    ReachSelf(env, Node(sc, pid));
    DispatchBounded(fuel, env, Node(sc, pid), [], sc, pid, params, w);
  }

  // ----- Which catalogs meet the condition -----

  ghost predicate Ranked<S(!new)>(env: Env<S>, root: Node, rank: Node -> nat) {
    forall a, b :: a in Nodes(env, root) && b in Nodes(env, root) && Private(a) && Edge(env, a, b) ==> rank(b) < rank(a)
  }

  lemma {:induction false} RankFalls<S(!new)>(env: Env<S>, root: Node, rank: Node -> nat, path: seq<Node>)
    requires Ranked(env, root, rank) && Chain(env, path) && Within(path, Nodes(env, root)) && |path| >= 2
    ensures rank(path[|path| - 1]) < rank(path[0])
  {
    var n := |path| - 1;
    assert Edge(env, path[n - 1], path[n]);
    if n > 1 {
      var front := path[..n];
      forall i | 0 <= i < |front| - 1 ensures Edge(env, front[i], front[i + 1]) {
        assert Edge(env, path[i], path[i + 1]);
      }
      RankFalls(env, root, rank, front);
    }
  }

  /** A numbering that falls along every reference between non-Surfaced pipelines shows the condition. */
  lemma RankSuffices<S(!new)>(env: Env<S>, root: Node, rank: Node -> nat)
    requires Ranked(env, root, rank)
    ensures CyclesAreSurfaced(env, root)
  {
    forall path: seq<Node> | Chain(env, path) && Within(path, Nodes(env, root)) && |path| >= 2
      ensures path[0] != path[|path| - 1]
    {
      RankFalls(env, root, rank, path);
    }
  }

  /** A Surfaced pipeline and a private one that call each other, and a Surfaced one that calls itself. */
  function Looping(broker: string): seq<Pipeline> {
    [Pipeline(broker + "/x", Surfaced, Capability, Null, [], [SubPipeline(broker + "/y", map[])], false),
     Pipeline(broker + "/y", Internal, Capability, Null, [], [SubPipeline(broker + "/x", map[])], false),
     Pipeline(broker + "/z", Surfaced, Capability, Null, [], [SubPipeline(broker + "/z", map[])], false)]
  }

  lemma LoopingFound(broker: string)
    ensures Find(Looping(broker), broker + "/x") == Some(Looping(broker)[0])
    ensures Find(Looping(broker), broker + "/y") == Some(Looping(broker)[1])
    ensures forall p :: p in Looping(broker) ==> p.id in {broker + "/x", broker + "/y", broker + "/z"}
    ensures forall p :: p in Looping(broker) ==> Refs(p.steps) <= {broker + "/x", broker + "/y", broker + "/z"}
    ensures Refs(Looping(broker)[1].steps) == {broker + "/x"}
    ensures broker + "/y" != broker + "/x" && broker + "/z" != broker + "/x"
  {
    var x, y, z := broker + "/x", broker + "/y", broker + "/z";
    var all := Looping(broker);
    assert x[|x| - 1] == 'x' && y[|y| - 1] == 'y' && z[|z| - 1] == 'z';
    assert all[0].steps[1..] == [] && all[1].steps[1..] == [] && all[2].steps[1..] == [];
    assert all[1..][0] == all[1];
  }

  /** References inside this catalog stay in it. */
  lemma {:induction false} LoopingStays<S>(env: Env<S>, broker: string, path: seq<Node>, i: nat)
    requires '/' !in broker && Walks(env, path) && path[0].scope == Scope(broker, Looping(broker)) && i < |path|
    ensures path[i].scope == Scope(broker, Looping(broker))
  {
    hide Calls, Looping;
    if i > 0 {
      LoopingStays(env, broker, path, i - 1);
      assert Calls(env, path[i - 1], path[i]);
      LoopingCalls(env, broker, path[i - 1], path[i]);
    }
  }

  lemma LoopingCalls<S>(env: Env<S>, broker: string, a: Node, b: Node)
    requires '/' !in broker && Calls(env, a, b) && a.scope == Scope(broker, Looping(broker))
    ensures b.scope == a.scope
  {
    hide Looping, Refs;
    LoopingFound(broker);
    assert b.pid in {broker + "/x", broker + "/y", broker + "/z"};
    assert b.pid[..|broker| + 1] == broker + "/";
    PrefixNamesOwner(broker, b.pid);
  }

  /**
   Cycles through Surfaced pipelines meet the condition, so dispatches of them end, in every
   environment and with any registry.
   */
  lemma SurfacedLoopsTerminate<S(!new)>(
    fuel: nat, env: Env<S>, broker: string, pid: string, params: ParamMap, w: World<S>)
    requires '/' !in broker && fuel >= EnoughFuel(env, Node(Scope(broker, Looping(broker)), pid), w)
    ensures CyclesAreSurfaced(env, Node(Scope(broker, Looping(broker)), pid))
    ensures Dispatch(fuel, env, Scope(broker, Looping(broker)), pid, params, w).Some?
  {
    hide Dispatch, EnoughFuel, CyclesAreSurfaced, Walks, Calls;
    var sc := Scope(broker, Looping(broker));
    var root := Node(sc, pid);
    forall a, b | a in Nodes(env, root) && b in Nodes(env, root) && Private(a) ensures !Edge(env, a, b) {
      OnlyY(env, broker, pid, a);
      OnlyY(env, broker, pid, b);
      YCallsX(env, broker, a, b);
    }
    RankSuffices(env, root, n => 0);
    DispatchTerminates(fuel, env, sc, pid, params, w);
  }

  lemma OnlyY<S>(env: Env<S>, broker: string, pid: string, n: Node)
    requires '/' !in broker && n in Nodes(env, Node(Scope(broker, Looping(broker)), pid))
    ensures n == Node(Scope(broker, Looping(broker)), broker + "/y")
  {
    hide Walks;
    var root := Node(Scope(broker, Looping(broker)), pid);
    var path :| WalksFrom(env, root, n, path);
    assert path != [] by { NotEmpty(env, path); }
    LoopingStays(env, broker, path, |path| - 1);
  }

  lemma NotEmpty<S>(env: Env<S>, path: seq<Node>)
    requires Walks(env, path)
    ensures path != []
  {
  }

  lemma YCallsX<S>(env: Env<S>, broker: string, a: Node, b: Node)
    requires a == b == Node(Scope(broker, Looping(broker)), broker + "/y")
    ensures !Edge(env, a, b)
  {
    LoopingFound(broker);
  }

  /** A private pipeline that calls itself does not meet the condition. */
  lemma PrivateLoopIsNoSurfacedCycle<S(!new)>(env: Env<S>, sc: Scope, pid: string)
    requires Private(Node(sc, pid)) && BeforeSlash(pid) == sc.broker
    requires pid in Refs(Find(sc.catalog, pid).value.steps)
    ensures !CyclesAreSurfaced(env, Node(sc, pid))
  {
    hide Nodes, Reachable;
    var n := Node(sc, pid);
    var path := [n, n];
    ReachSelf(env, n);
    PrivateIsNode(env, n, n);
    assert Chain(env, path) && Within(path, Nodes(env, n));
  }

  // ----- The result does not depend on the fuel -----

  lemma {:induction false} DispatchFuel<S>(
    f: nat, g: nat, env: Env<S>, sc: Scope, pid: string, params: ParamMap, w: World<S>)
    requires f <= g && Dispatch(f, env, sc, pid, params, w).Some?
    ensures Dispatch(g, env, sc, pid, params, w) == Dispatch(f, env, sc, pid, params, w)
    decreases f, 0
  {
    hide Admit, Finish, ExecuteSteps;
    match Admit(env, sc, pid, params, w.(nextId := w.nextId + 1)) {
      case Refused(_, _, _) =>
      case Admitted(w1, p, ctx) => StepsFuel(f - 1, g - 1, env, sc, p.steps, ctx, w1, Null);
    }
  }

  lemma {:induction false} StepsFuel<S>(
    f: nat, g: nat, env: Env<S>, sc: Scope, steps: seq<Step>, ctx: LeafCtx, w: World<S>, last: Json)
    requires f <= g && ExecuteSteps(f, env, sc, steps, ctx, w, last).Some?
    ensures ExecuteSteps(g, env, sc, steps, ctx, w, last) == ExecuteSteps(f, env, sc, steps, ctx, w, last)
    decreases f, 2, |steps|
  {
    if steps != [] {
      StepFuel(f, g, env, sc, steps[0], ctx, w);
      var r := ExecuteStep(f, env, sc, steps[0], ctx, w).value;
      if r.out.Ok? { StepsFuel(f, g, env, sc, steps[1..], ctx, r.w, r.out.value); }
    }
  }

  lemma {:induction false} StepFuel<S>(f: nat, g: nat, env: Env<S>, sc: Scope, step: Step, ctx: LeafCtx, w: World<S>)
    requires f <= g && ExecuteStep(f, env, sc, step, ctx, w).Some?
    ensures ExecuteStep(g, env, sc, step, ctx, w) == ExecuteStep(f, env, sc, step, ctx, w)
    decreases f, 1, step
  {
    match step {
      case Leaf(_) =>
      case SubPipeline(sub, params) =>
        match Resolve(env, sc, sub) {
          case Unreachable(_) =>
          case Callee(callee) => DispatchFuel(f, g, env, callee, sub, params, w);
        }
      case Guard(text, inner) =>
        if Holds(env, text, ctx.overlay, ctx.params) { StepFuel(f, g, env, sc, inner, ctx, w); }
      case Branch(text, ifTrue, ifFalse) =>
        StepFuel(f, g, env, sc, if Holds(env, text, ctx.overlay, ctx.params) then ifTrue else ifFalse, ctx, w);
    }
  }

  /**
   Without the condition on cycles there is no such bound: a non-Surfaced pipeline that is always
   admitted and begins by calling itself never comes back, whatever depth is allowed.
   */
  lemma {:induction false} PrivateLoopDiverges<S>(
    fuel: nat, env: Env<S>, sc: Scope, pid: string, params: ParamMap, w: World<S>)
    requires Private(Node(sc, pid)) && BeforeSlash(pid) == sc.broker
    requires var p := Find(sc.catalog, pid).value;
      p.preconditions == [] && ParamsValid(p.schema, params) && p.steps != [] && p.steps[0] == SubPipeline(pid, params)
    ensures Dispatch(fuel, env, sc, pid, params, w).None?
  {
    if fuel > 0 {
      var a := Admit(env, sc, pid, params, w.(nextId := w.nextId + 1));
      PrivateLoopDiverges(fuel - 1, env, sc, pid, params, a.w);
      assert ExecuteStep(fuel - 1, env, sc, a.p.steps[0], a.ctx, a.w).None?;
    }
  }
}
