/**
 Kill-switch safety over every interleaving: whatever the schedule, and however often the switch is
 flipped meanwhile, a Surfaced dispatch whose own check saw the switch armed reached its steps only as
 a governance pipeline, provided the catalogs were validated.
 */
module KillSwitchRaces {
  import opened Basics
  import opened Pipelines
  import opened Catalogs
  import opened Dispatching
  import opened Machine
  import opened Audit
  import opened Interleaving
  import opened Forests
  import opened KillSwitch

  predicate Trusted(p: Pipeline) { p.bypassesKillSwitch ==> p.auditClass.Governance? }

  ghost predicate TrustedScope(sc: Scope) {
    forall p :: p in sc.catalog ==> Trusted(p)
  }

  ghost predicate TrustedRegistry<S>(env: Env<S>) {
    env.registry.Some? ==> forall b :: b in env.registry.value ==> TrustedScope(Scope(b, env.registry.value[b]))
  }

  ghost predicate TrustedCalls(cs: seq<Call>)
    decreases cs
  {
    cs == [] || (
      && (cs[0].pipeline.Some? ==> Trusted(cs[0].pipeline.value))
      && TrustedCalls(cs[0].children) && TrustedCalls(cs[1..]))
  }

  lemma {:induction false} TrustedAppend(a: seq<Call>, b: seq<Call>)
    requires TrustedCalls(a) && TrustedCalls(b)
    ensures TrustedCalls(a + b)
  {
    if a == [] {
      assert a + b == b;
    } else {
      assert (a + b)[1..] == a[1..] + b;
      TrustedAppend(a[1..], b);
    }
  }

  lemma {:induction false} SoundTrustedIsGoverned(cs: seq<Call>)
    requires Sound(cs) && TrustedCalls(cs)
    ensures OnlyGovernanceWhileArmed(cs)
    decreases cs
  {
    if cs != [] {
      SoundTrustedIsGoverned(cs[0].children);
      SoundTrustedIsGoverned(cs[1..]);
    }
  }

  ghost predicate TrustedLevel(a: Activation, l: Level) {
    TrustedScope(a.sc) && (l.pipeline.Some? ==> Trusted(l.pipeline.value)) && TrustedCalls(l.children)
  }

  ghost predicate TrustedTask(stack: Stack, acc: Account) {
    && |acc.open| == |stack| && TrustedCalls(acc.finished)
    && forall i :: 0 <= i < |stack| ==> TrustedLevel(stack[i], acc.open[i])
  }

  // ----- One action -----

  lemma NotedTrusted<S>(env: Env<S>, w: World<S>, a: Activation, l: Level, phase: Phase)
    requires TrustedLevel(a, l)
    ensures TrustedLevel(a.(phase := phase), Noted(w, a, l))
  {
  }

  lemma CalleeTrusted<S>(env: Env<S>, w: World<S>, a: Activation)
    requires TrustedRegistry(env) && TrustedScope(a.sc) && Act(env, w, a).Called?
    ensures TrustedLevel(Act(env, w, a).callee, NEW)
  {
    hide GateCheck, LinkSnapshot, Enter, Clear, Holds;
  }

  lemma NodeTrusted(a: Activation, l: Level, out: Outcome)
    requires TrustedLevel(a, l)
    ensures TrustedCalls([NodeOf(a, l, out)])
  {
    assert [NodeOf(a, l, out)][1..] == [];
  }

  lemma ReturnScopes(below: Stack, out: Outcome)
    ensures |Return(below, out)| == |below|
    ensures forall i :: 0 <= i < |below| ==> Return(below, out)[i].sc == below[i].sc
  {
  }

  lemma PopTrusted<S>(env: Env<S>, w: World<S>, stack: Stack, acc: Account)
    requires stack != [] && TrustedTask(stack, acc) && Act(env, w, stack[|stack| - 1]).Returned?
    ensures TrustedTask(Advance(env, w, stack).1, FollowTask(env, w, stack, acc))
  {
    hide Act, Return, TrustedScope, TrustedCalls, Trusted;
    var n := |stack| - 1;
    var node := NodeOf(stack[n], acc.open[n], Act(env, w, stack[n]).out);
    NodeTrusted(stack[n], acc.open[n], node.out);
    ReturnScopes(stack[..n], node.out);
    if n == 0 { TrustedAppend(acc.finished, [node]); } else { TrustedAppend(acc.open[n - 1].children, [node]); }
  }

  lemma TaskStaysTrusted<S>(env: Env<S>, w: World<S>, stack: Stack, acc: Account)
    requires TrustedRegistry(env) && stack != [] && TrustedTask(stack, acc)
    ensures TrustedTask(Advance(env, w, stack).1, FollowTask(env, w, stack, acc))
  {
    hide Act, Noted, TrustedLevel, TrustedScope, TrustedCalls, Trusted, TrustedRegistry;
    var n := |stack| - 1;
    match Act(env, w, stack[n]) {
      case Became(_, phase) => NotedTrusted(env, w, stack[n], acc.open[n], phase);
      case Called(_, _) =>
        assert TrustedScope(stack[n].sc) by { LevelScope(stack[n], acc.open[n]); }
        CalleeTrusted(env, w, stack[n]);
      case Returned(_, _) => PopTrusted(env, w, stack, acc);
    }
  }

  lemma LevelScope(a: Activation, l: Level)
    requires TrustedLevel(a, l)
    ensures TrustedScope(a.sc)
  {
  }

  // ----- Runs -----

  ghost predicate TrustedTasks<S>(s: Sys<S>, h: Ledger) {
    Matches(s, h) && forall t :: 0 <= t < |s.stacks| ==> TrustedTask(s.stacks[t], h.accounts[t])
  }

  ghost predicate TrustedStarts<S>(actions: seq<Action<S>>) {
    forall i :: 0 <= i < |actions| && actions[i].Start? ==> TrustedScope(actions[i].sc)
  }

  lemma StepStaysTrusted<S>(env: Env<S>, s: Sys<S>, a: Action<S>, h: Ledger)
    requires TrustedRegistry(env) && TrustedTasks(s, h) && (a.Start? ==> TrustedScope(a.sc))
    ensures TrustedTasks(Do(env, s, a), Follow(env, s, a, h))
  {
    hide FollowTask, Advance, TrustedScope, TrustedCalls, TrustedRegistry, Trusted;
    if a.Go? && a.t < |s.stacks| && s.stacks[a.t] != [] {
      TaskStaysTrusted(env, s.w, s.stacks[a.t], h.accounts[a.t]);
    }
    if a.Start? { NothingCalled(); }
  }

  lemma NothingCalled()
    ensures TrustedCalls([])
  {
  }

  lemma {:induction false} RunStaysTrusted<S>(env: Env<S>, s: Sys<S>, actions: seq<Action<S>>, h: Ledger)
    requires TrustedRegistry(env) && TrustedTasks(s, h) && TrustedStarts(actions)
    ensures TrustedTasks(DoAll(env, s, actions), FollowAll(env, s, actions, h))
    decreases |actions|
  {
    hide TrustedTask, Do, Follow, TrustedScope;
    if actions != [] {
      StepStaysTrusted(env, s, actions[0], h);
      assert TrustedStarts(actions[1..]) by {
        assert forall i :: 0 <= i < |actions| - 1 ==> actions[1..][i] == actions[i + 1];
      }
      RunStaysTrusted(env, Do(env, s, actions[0]), actions[1..], Follow(env, s, actions[0], h));
    }
  }

  /** Every catalog that dispatches are started with, or resolved in, was accepted for its broker under some policy. */
  ghost predicate AllValidated<S>(env: Env<S>, actions: seq<Action<S>>) {
    && (forall i :: 0 <= i < |actions| && actions[i].Start? ==> Validated(env, actions[i].sc))
    && (env.registry.Some? ==>
          forall b :: b in env.registry.value ==> exists policy :: Accepted(env.registry.value[b], b, policy))
  }

  lemma AcceptedIsTrusted(sc: Scope, policy: CrossBrokerPolicy)
    requires Accepted(sc.catalog, sc.broker, policy)
    ensures TrustedScope(sc)
  {
    forall p | p in sc.catalog ensures Trusted(p) { assert Lawful(p, sc.broker, policy); }
  }

  lemma ValidatedIsTrusted<S>(env: Env<S>, actions: seq<Action<S>>)
    requires AllValidated(env, actions)
    ensures TrustedRegistry(env) && TrustedStarts(actions)
  {
    hide Accepted, TrustedScope;
    if env.registry.Some? {
      forall b | b in env.registry.value ensures TrustedScope(Scope(b, env.registry.value[b])) {
        var policy :| Accepted(env.registry.value[b], b, policy);
        AcceptedIsTrusted(Scope(b, env.registry.value[b]), policy);
      }
    }
    forall i | 0 <= i < |actions| && actions[i].Start? ensures TrustedScope(actions[i].sc) {
      var policy :| Accepted(actions[i].sc.catalog, actions[i].sc.broker, policy);
      AcceptedIsTrusted(actions[i].sc, policy);
    }
  }

  lemma BlankTrusted<S>(env: Env<S>, s: Sys<S>)
    requires Initial(env, s)
    ensures TrustedTasks(s, Blank(|s.stacks|))
  {
    NothingCalled();
  }

  /** Over every interleaving of dispatches from validated catalogs, only governance pipelines run while armed. */
  lemma ArmedTasksAreGovernance<S>(env: Env<S>, s: Sys<S>, actions: seq<Action<S>>)
    requires Initial(env, s) && Quiet(DoAll(env, s, actions)) && AllValidated(env, actions)
    ensures var h := FollowAll(env, s, actions, Blank(|s.stacks|));
      && |h.accounts| == |s.stacks|
      && forall t :: 0 <= t < |s.stacks| ==> OnlyGovernanceWhileArmed(h.accounts[t].finished)
  {
    hide DoAll, FollowAll, Initial, Sound, TrustedCalls, TrustedStarts, TrustedRegistry, AllValidated, Project,
      PostOrder;
    BlankTrusted(env, s);
    ValidatedIsTrusted(env, actions);
    RunStaysTrusted(env, s, actions, Blank(|s.stacks|));
    TasksAudited(env, s, actions);
    BlankOk(env, s);
    SameTasks(env, s, actions);
    var h := FollowAll(env, s, actions, Blank(|s.stacks|));
    forall t | 0 <= t < |s.stacks| ensures OnlyGovernanceWhileArmed(h.accounts[t].finished) {
      SoundTrustedIsGoverned(h.accounts[t].finished);
    }
  }

  lemma {:induction false} SameTasks<S>(env: Env<S>, s: Sys<S>, actions: seq<Action<S>>)
    ensures |DoAll(env, s, actions).stacks| == |s.stacks|
    decreases |actions|
  {
    hide Advance;
    if actions != [] { SameTasks(env, Do(env, s, actions[0]), actions[1..]); }
  }
}
