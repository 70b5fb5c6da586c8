/**
 What the interleaved engine writes, task by task. A ledger beside the run records who wrote each
 record and the call forest of every task; over every schedule a task's records are exactly the
 post-order of its calls, with their outcomes, whatever the other tasks write in between.
 */
module Forests {
  import opened Basics
  import opened Json
  import opened Pipelines
  import opened Dispatching
  import opened Machine
  import opened Audit
  import opened Interleaving

  /** What is known of a dispatch in progress: one level per activation on a task's stack. */
  datatype Level = Level(pipeline: Option<Pipeline>, ran: bool, sawArmed: bool, children: seq<Call>)

  /** The finished top-level calls of a task, and its levels. */
  datatype Account = Account(finished: seq<Call>, open: seq<Level>)

  datatype Ledger = Ledger(accounts: seq<Account>, owners: seq<nat>)

  const NEW := Level(None, false, false, [])

  /** What an action of the top activation teaches about its level. */
  function Noted<S>(w: World<S>, a: Activation, l: Level): Level {
    match a.phase
    case Entered => l.(pipeline := Find(a.sc.catalog, a.pid))
    case BudgetPassed(_) => l.(sawArmed := w.armed)
    case Cleared(_, _) => l.(ran := true)
    case _ => l
  }

  function NodeOf(a: Activation, l: Level, out: Outcome): Call {
    Call(a.id, a.sc.broker, a.pid, l.pipeline, l.sawArmed, l.ran, out, l.children)
  }

  function Filed(acc: Account, node: Call): Account
    requires acc.open != []
  {
    var n := |acc.open| - 1;
    if n == 0 then Account(acc.finished + [node], [])
    else acc.(open := acc.open[..n - 1] + [acc.open[n - 1].(children := acc.open[n - 1].children + [node])])
  }

  function FollowTask<S>(env: Env<S>, w: World<S>, stack: Stack, acc: Account): Account
    requires stack != [] && |acc.open| == |stack|
  {
    var n := |stack| - 1;
    match Act(env, w, stack[n])
    case Became(_, _) => acc.(open := acc.open[..n] + [Noted(w, stack[n], acc.open[n])])
    case Called(_, _) => acc.(open := acc.open + [NEW])
    case Returned(_, out) => Filed(acc, NodeOf(stack[n], acc.open[n], out))
  }

  // ----- What a level says about its activation -----

  ghost predicate Bypassed(l: Level) {
    l.pipeline.Some? && l.pipeline.value.visibility.Surfaced? && l.sawArmed ==> l.pipeline.value.bypassesKillSwitch
  }

  ghost predicate Idle(l: Level, p: Pipeline) {
    l.pipeline == Some(p) && !l.ran && l.children == []
  }

  ghost predicate EndOk(l: Level, out: Outcome) {
    && (out.Ok? ==> l.ran && AllSucceeded(l.children))
    && (!l.ran ==> out.Err? && l.children == [])
    && (l.ran ==> l.pipeline.Some? && Bypassed(l))
  }

  ghost predicate LevelOk(a: Activation, l: Level) {
    && Sound(l.children)
    && match a.phase
       case Entered => l == NEW
       case BudgetPassed(p) => Idle(l, p)
       case KillPassed(p) => Idle(l, p) && Bypassed(l)
       case Gated(p) => Idle(l, p) && Bypassed(l)
       case Cleared(p, _) => Idle(l, p) && Bypassed(l)
       case Running(p, _, _, _) => l.pipeline == Some(p) && l.ran && Bypassed(l) && AllSucceeded(l.children)
       case Ended(found, out) => found == l.pipeline && EndOk(l, out)
       case Observed(found, out, _) => found == l.pipeline && EndOk(l, out)
       case Linked(out, rec) => EndOk(l, out) && Brief(rec) == EntryOf(NodeOf(a, l, out))
  }

  ghost predicate StackOk(stack: Stack, acc: Account) {
    && Shaped(stack) && |acc.open| == |stack| && Sound(acc.finished)
    && forall i :: 0 <= i < |stack| ==> LevelOk(stack[i], acc.open[i])
  }

  /** The records of the levels, outermost first. */
  function OpenOrder(levels: seq<Level>): seq<Entry> {
    if levels == [] then []
    else OpenOrder(levels[..|levels| - 1]) + PostOrder(levels[|levels| - 1].children)
  }

  /** Everything the task has written. */
  function Entries(acc: Account): seq<Entry> { PostOrder(acc.finished) + OpenOrder(acc.open) }

  function LevelDebit(l: Level): nat {
    if l.ran && l.pipeline.Some? && l.pipeline.value.visibility.Surfaced? then 1 else 0
  }

  function OpenDebits(levels: seq<Level>): nat {
    if levels == [] then 0
    else
      var l := levels[|levels| - 1];
      OpenDebits(levels[..|levels| - 1]) + Debits(l.children) + LevelDebit(l)
  }

  /** The Surfaced dispatches of the task, nested ones included, that have reached their steps. */
  function Spent(acc: Account): nat { Debits(acc.finished) + OpenDebits(acc.open) }

  // ----- One action of one task -----

  lemma EnterOk<S>(env: Env<S>, w: World<S>, a: Activation, l: Level)
    requires LevelOk(a, l) && Act(env, w, a).Became?
    ensures LevelOk(a.(phase := Act(env, w, a).phase), Noted(w, a, l))
    ensures Noted(w, a, l).children == l.children
    ensures var debit := a.phase.Cleared? && a.phase.p.visibility.Surfaced?;
      LevelDebit(Noted(w, a, l)) == LevelDebit(l) + if debit then 1 else 0
  {
    hide Sound, AllSucceeded, GateCheck, LinkSnapshot, Unmet, ParamsValid, Find, Resolve, Holds;
    FoundOnly(env, w, a);
  }

  lemma FoundOnly<S>(env: Env<S>, w: World<S>, a: Activation)
    ensures AllSucceeded([])
    ensures forall p :: Clear(env, w, a, p).Cleared? ==> Clear(env, w, a, p).p == p
    ensures forall p :: !Clear(env, w, a, p).Cleared? ==>
              Clear(env, w, a, p).Ended? && Clear(env, w, a, p).found == Some(p) && Clear(env, w, a, p).out.Err?
  {
  }

  lemma SwapLast<S>(env: Env<S>, w: World<S>, stack: Stack, acc: Account)
    requires stack != [] && StackOk(stack, acc) && Act(env, w, stack[|stack| - 1]).Became?
    ensures StackOk(Advance(env, w, stack).1, FollowTask(env, w, stack, acc))
    ensures Entries(FollowTask(env, w, stack, acc)) == Entries(acc)
    ensures var top := stack[|stack| - 1];
      Spent(FollowTask(env, w, stack, acc)) ==
      Spent(acc) + if top.phase.Cleared? && top.phase.p.visibility.Surfaced? then 1 else 0
  {
    hide Act, LevelOk, Noted, PostOrder, Debits, Sound, LevelDebit, Waiting;
    var n := |stack| - 1;
    EnterOk(env, w, stack[n], acc.open[n]);
    var after := FollowTask(env, w, stack, acc);
    assert after.open[..n] == acc.open[..n];
  }

  lemma PushOk<S>(env: Env<S>, w: World<S>, stack: Stack, acc: Account)
    requires stack != [] && StackOk(stack, acc) && Act(env, w, stack[|stack| - 1]).Called?
    ensures StackOk(Advance(env, w, stack).1, FollowTask(env, w, stack, acc))
    ensures Entries(FollowTask(env, w, stack, acc)) == Entries(acc)
        && Spent(FollowTask(env, w, stack, acc)) == Spent(acc)
    ensures !stack[|stack| - 1].phase.Cleared?
  {
    var n := |stack| - 1;
    CallerWaits(env, w, stack[n]);
    EmptyForest();
    hide Act, PostOrder, Debits, Sound, Waiting;
    var after := FollowTask(env, w, stack, acc);
    assert after.open[..n + 1] == acc.open;
    assert OpenOrder(acc.open) + [] == OpenOrder(acc.open);
  }

  /** A finished call is a sound node of the tree, and its record is the one just written. */
  lemma NodeSound<S>(env: Env<S>, w: World<S>, a: Activation, l: Level)
    requires LevelOk(a, l) && Act(env, w, a).Returned?
    ensures var node := NodeOf(a, l, Act(env, w, a).out);
      && Sound([node]) && a.phase.Linked? && Act(env, w, a).w.trace == w.trace + [a.phase.rec]
      && Brief(a.phase.rec) == EntryOf(node) && (node.out.Ok? ==> AllSucceeded([node]))
      && Debits([node]) == LevelDebit(l) + Debits(l.children)
      && PostOrder([node]) == PostOrder(l.children) + [EntryOf(node)]
  {
    EmptyForest();
    var node := NodeOf(a, l, Act(env, w, a).out);
    assert [node][1..] == [];
  }

  lemma CallerResumes(a: Activation, l: Level, node: Call)
    requires LevelOk(a, l) && Waiting(a) && Sound([node]) && (node.out.Ok? ==> AllSucceeded([node]))
    ensures var b := Return([a], node.out);
      |b| == 1 && LevelOk(b[0], l.(children := l.children + [node]))
  {
    hide Sound, AllSucceeded, PostOrder, Ids, Debits, Return;
    ForestAppend(l.children, [node]);
    ReturnOne(a, node.out);
  }

  lemma ReturnOne(a: Activation, out: Outcome)
    requires Waiting(a)
    ensures var ph := a.phase;
      Return([a], out) == [a.(phase := Settle(ph.p, ph.ctx, ph.todo[1..], Wrap(ph.todo[0].sub, out)))]
  {
    hide Settle, Wrap;
    assert [a][..0] == [];
  }

  lemma ReturnBelow(below: Stack, out: Outcome)
    requires below != [] && Waiting(below[|below| - 1])
    ensures var n := |below| - 1;
      |Return([below[n]], out)| == 1 && Return(below, out) == below[..n] + Return([below[n]], out)
  {
    var n := |below| - 1;
    assert [below[n]][..0] == [];
  }

  lemma OpenSnoc(levels: seq<Level>, l: Level)
    ensures OpenOrder(levels + [l]) == OpenOrder(levels) + PostOrder(l.children)
    ensures OpenDebits(levels + [l]) == OpenDebits(levels) + Debits(l.children) + LevelDebit(l)
  {
    hide PostOrder, Debits, LevelDebit;
    assert (levels + [l])[..|levels|] == levels;
  }

  /** Filing a finished call writes one more entry and spends nothing. */
  lemma FiledEntries(acc: Account, node: Call)
    requires acc.open != []
    requires var l := acc.open[|acc.open| - 1];
      && PostOrder([node]) == PostOrder(l.children) + [EntryOf(node)]
      && Debits([node]) == LevelDebit(l) + Debits(l.children)
    ensures Entries(Filed(acc, node)) == Entries(acc) + [EntryOf(node)]
    ensures Spent(Filed(acc, node)) == Spent(acc)
  {
    hide PostOrder, Debits, LevelDebit, EntryOf, OpenOrder, OpenDebits;
    var n := |acc.open| - 1;
    var l := acc.open[n];
    assert acc.open == acc.open[..n] + [l];
    OpenSnoc(acc.open[..n], l);
    if n == 0 {
      NothingOpen();
      assert acc.open[..0] == [];
      PostOrderAppend(acc.finished, [node]);
      ForestAppend(acc.finished, [node]);
    } else {
      var up, front := acc.open[n - 1], acc.open[..n - 1];
      var up' := up.(children := up.children + [node]);
      assert acc.open[..n] == front + [up];
      OpenSnoc(front, up);
      OpenSnoc(front, up');
      PostOrderAppend(up.children, [node]);
      ForestAppend(up.children, [node]);
      assert LevelDebit(up') == LevelDebit(up) by { SameDebit(up, up.children + [node]); }
    }
  }

  lemma SameDebit(l: Level, children: seq<Call>)
    ensures LevelDebit(l.(children := children)) == LevelDebit(l)
  {
  }

  lemma NothingOpen()
    ensures OpenOrder([]) == [] && OpenDebits([]) == 0
  {
  }

  lemma PopOk<S>(env: Env<S>, w: World<S>, stack: Stack, acc: Account)
    requires stack != [] && StackOk(stack, acc) && Act(env, w, stack[|stack| - 1]).Returned?
    ensures StackOk(Advance(env, w, stack).1, FollowTask(env, w, stack, acc))
    ensures var top := stack[|stack| - 1];
      && top.phase.Linked? && Advance(env, w, stack).0.trace == w.trace + [top.phase.rec]
      && Entries(FollowTask(env, w, stack, acc)) == Entries(acc) + [Brief(top.phase.rec)]
      && Spent(FollowTask(env, w, stack, acc)) == Spent(acc)
  {
    hide Act, LevelOk, PostOrder, Debits, LevelDebit, Sound, AllSucceeded, Return, Waiting, EntryOf, OpenOrder,
      OpenDebits;
    var n := |stack| - 1;
    var top, l := stack[n], acc.open[n];
    var node := NodeOf(top, l, Act(env, w, top).out);
    NodeSound(env, w, top, l);
    FiledEntries(acc, node);
    var below := stack[..n];
    if n == 0 {
      assert Return(below, node.out) == [] by { ReturnEmpty(node.out); }
      ForestAppend(acc.finished, [node]);
    } else {
      ReturnBelow(below, node.out);
      CallerResumes(stack[n - 1], acc.open[n - 1], node);
      assert below[..n - 1] == stack[..n - 1];
    }
  }

  lemma ReturnEmpty(out: Outcome)
    ensures Return([], out) == []
  {
  }

  // ----- All tasks -----

  lemma SameDepth<S>(env: Env<S>, w: World<S>, stack: Stack, acc: Account)
    requires stack != [] && |acc.open| == |stack|
    ensures |FollowTask(env, w, stack, acc).open| == |Advance(env, w, stack).1|
  {
    hide Act, Noted, NodeOf;
  }

  lemma FollowMatches<S>(env: Env<S>, s: Sys<S>, a: Action<S>, h: Ledger)
    requires Matches(s, h)
    ensures a.Go? && a.t < |s.stacks| && s.stacks[a.t] != [] ==>
              |FollowTask(env, s.w, s.stacks[a.t], h.accounts[a.t]).open| == |Do(env, s, a).stacks[a.t]|
  {
    hide FollowTask, Advance;
    if a.Go? && a.t < |s.stacks| && s.stacks[a.t] != [] { SameDepth(env, s.w, s.stacks[a.t], h.accounts[a.t]); }
  }

  function Follow<S>(env: Env<S>, s: Sys<S>, a: Action<S>, h: Ledger): (h': Ledger)
    requires Matches(s, h)
    ensures Matches(Do(env, s, a), h')
  {
    FollowMatches(env, s, a, h);
    match a
    case Start(t, _, _, _) =>
      if t < |s.stacks| && s.stacks[t] == [] then h.(accounts := h.accounts[t := h.accounts[t].(open := [NEW])]) else h
    case Go(t) =>
      if t < |s.stacks| && s.stacks[t] != [] then
        Ledger(h.accounts[t := FollowTask(env, s.w, s.stacks[t], h.accounts[t])],
               if s.stacks[t][|s.stacks[t]| - 1].phase.Linked? then h.owners + [t] else h.owners)
      else h
    case _ => h
  }

  predicate Matches<S>(s: Sys<S>, h: Ledger) {
    |h.accounts| == |s.stacks| && forall t :: 0 <= t < |s.stacks| ==> |h.accounts[t].open| == |s.stacks[t]|
  }

  /** The records of one task. */
  function Project(trace: seq<Record>, owners: seq<nat>, t: nat): seq<Entry>
    requires |owners| == |trace|
  {
    if trace == [] then []
    else
      var n := |trace| - 1;
      Project(trace[..n], owners[..n], t) + if owners[n] == t then [Brief(trace[n])] else []
  }

  function SpentByAll(accounts: seq<Account>): nat {
    if accounts == [] then 0 else Spent(accounts[0]) + SpentByAll(accounts[1..])
  }

  ghost predicate LedgerOk<S>(s: Sys<S>, h: Ledger) {
    && Matches(s, h) && |h.owners| == |s.w.trace|
    && (forall t :: 0 <= t < |s.stacks| ==> StackOk(s.stacks[t], h.accounts[t]))
    && (forall t :: 0 <= t < |s.stacks| ==> Project(s.w.trace, h.owners, t) == Entries(h.accounts[t]))
    && (forall i :: 0 <= i < |h.owners| ==> h.owners[i] < |s.stacks|)
  }

  lemma {:induction false} SpentUpdate(accounts: seq<Account>, t: nat, acc: Account)
    requires t < |accounts|
    ensures SpentByAll(accounts[t := acc]) + Spent(accounts[t]) == SpentByAll(accounts) + Spent(acc)
  {
    hide Spent;
    if t == 0 {
      assert accounts[t := acc][1..] == accounts[1..];
    } else {
      assert accounts[t := acc][1..] == accounts[1..][t - 1 := acc];
      SpentUpdate(accounts[1..], t - 1, acc);
    }
  }

  lemma ProjectSnoc(trace: seq<Record>, owners: seq<nat>, t: nat, rec: Record, owner: nat)
    requires |owners| == |trace|
    ensures Project(trace + [rec], owners + [owner], t) ==
            Project(trace, owners, t) + if owner == t then [Brief(rec)] else []
  {
    assert (trace + [rec])[..|trace|] == trace && (owners + [owner])[..|owners|] == owners;
  }

  /** One action of task `t`: its stack and account stay matched, and a record it writes is accounted for. */
  lemma TaskStep<S>(env: Env<S>, w: World<S>, stack: Stack, acc: Account)
    requires stack != [] && StackOk(stack, acc)
    ensures StackOk(Advance(env, w, stack).1, FollowTask(env, w, stack, acc))
    ensures var top := stack[|stack| - 1];
      && Advance(env, w, stack).0.trace == w.trace + (if top.phase.Linked? then [top.phase.rec] else [])
      && Entries(FollowTask(env, w, stack, acc)) ==
         Entries(acc) + (if top.phase.Linked? then [Brief(top.phase.rec)] else [])
      && Spent(FollowTask(env, w, stack, acc)) ==
         Spent(acc) + (if top.phase.Cleared? && top.phase.p.visibility.Surfaced? then 1 else 0)
  {
    hide StackOk, Entries, Spent, FollowTask;
    var top := stack[|stack| - 1];
    TraceOnlyAtEnd(env, w, top);
    match Act(env, w, top) {
      case Became(_, _) =>
        SwapLast(env, w, stack, acc);
        assert Entries(acc) + [] == Entries(acc) && w.trace + [] == w.trace;
      case Called(_, _) =>
        PushOk(env, w, stack, acc);
        assert Entries(acc) + [] == Entries(acc) && w.trace + [] == w.trace;
      case Returned(_, _) => PopOk(env, w, stack, acc);
    }
  }

  lemma TraceOnlyAtEnd<S>(env: Env<S>, w: World<S>, a: Activation)
    ensures Act(env, w, a).Returned? <==> a.phase.Linked?
    ensures !Act(env, w, a).Returned? ==> Act(env, w, a).w.trace == w.trace
  {
    hide GateCheck, LinkSnapshot, Enter, Clear, Holds, Resolve;
  }

  lemma StartOk(acc: Account, a: Activation)
    requires StackOk([], acc) && a.phase == Entered
    ensures StackOk([a], acc.(open := [NEW])) && Entries(acc.(open := [NEW])) == Entries(acc)
    ensures Spent(acc.(open := [NEW])) == Spent(acc)
  {
    EmptyForest();
    var levels := [NEW];
    assert levels[..0] == [] && acc.open == [];
  }

  lemma FollowStep<S>(env: Env<S>, s: Sys<S>, a: Action<S>, h: Ledger)
    requires LedgerOk(s, h)
    ensures LedgerOk(Do(env, s, a), Follow(env, s, a, h))
    ensures a != ResetBudget ==>
              Do(env, s, a).debits + SpentByAll(h.accounts) == s.debits + SpentByAll(Follow(env, s, a, h).accounts)
  {
    hide StackOk, Entries, Spent, Project, FollowTask, Advance, SpentByAll;
    var e, f := Do(env, s, a), Follow(env, s, a, h);
    match a {
      case Start(t, sc, pid, params) =>
        if t < |s.stacks| && s.stacks[t] == [] {
          var first := Activation(s.w.nextId, sc, pid, params, Entered);
          StartOk(h.accounts[t], first);
          SpentUpdate(h.accounts, t, f.accounts[t]);
          forall u | 0 <= u < |e.stacks| ensures StackOk(e.stacks[u], f.accounts[u]) {}
        }
      case Go(t) =>
        if t < |s.stacks| && s.stacks[t] != [] {
          var stack := s.stacks[t];
          var top := stack[|stack| - 1];
          TaskStep(env, s.w, stack, h.accounts[t]);
          SpentUpdate(h.accounts, t, f.accounts[t]);
          forall u | 0 <= u < |e.stacks|
            ensures StackOk(e.stacks[u], f.accounts[u]) && |f.accounts[u].open| == |e.stacks[u]|
            ensures |f.owners| == |e.w.trace| && Project(e.w.trace, f.owners, u) == Entries(f.accounts[u])
          {
            OpenMatches(e.stacks[u], f.accounts[u]);
            var mine := Entries(h.accounts[u]);
            assert Project(s.w.trace, h.owners, u) == mine && mine + [] == mine;
            if top.phase.Linked? {
              ProjectSnoc(s.w.trace, h.owners, u, top.phase.rec, t);
            } else {
              assert s.w.trace + [] == s.w.trace;
            }
          }
        }
      case _ =>
    }
  }

  lemma OpenMatches(stack: Stack, acc: Account)
    requires StackOk(stack, acc)
    ensures |acc.open| == |stack|
  {
  }

  function FollowAll<S>(env: Env<S>, s: Sys<S>, actions: seq<Action<S>>, h: Ledger): Ledger
    requires Matches(s, h)
    decreases |actions|
  {
    if actions == [] then h
    else FollowAll(env, Do(env, s, actions[0]), actions[1..], Follow(env, s, actions[0], h))
  }

  lemma LedgerMatches<S>(s: Sys<S>, h: Ledger)
    requires LedgerOk(s, h)
    ensures Matches(s, h)
  {
  }

  lemma {:induction false} FollowRun<S>(env: Env<S>, s: Sys<S>, actions: seq<Action<S>>, h: Ledger)
    requires LedgerOk(s, h)
    ensures LedgerOk(DoAll(env, s, actions), FollowAll(env, s, actions, h))
    ensures ResetBudget !in actions ==>
              DoAll(env, s, actions).debits + SpentByAll(h.accounts)
              == s.debits + SpentByAll(FollowAll(env, s, actions, h).accounts)
    decreases |actions|
  {
    hide LedgerOk, Do, Follow, SpentByAll;
    if actions != [] {
      assert Matches(s, h) by { LedgerMatches(s, h); }
      FollowStep(env, s, actions[0], h);
      FollowRun(env, Do(env, s, actions[0]), actions[1..], Follow(env, s, actions[0], h));
    }
  }

  function Blank(n: nat): Ledger { Ledger(seq(n, _ => Account([], [])), []) }

  lemma {:induction false} BlankSpends(accounts: seq<Account>)
    requires forall i :: 0 <= i < |accounts| ==> accounts[i] == Account([], [])
    ensures SpentByAll(accounts) == 0
  {
    EmptyForest();
    if accounts != [] { BlankSpends(accounts[1..]); }
  }

  lemma BlankOk<S>(env: Env<S>, s: Sys<S>)
    requires Initial(env, s)
    ensures LedgerOk(s, Blank(|s.stacks|)) && SpentByAll(Blank(|s.stacks|).accounts) == 0
  {
    EmptyForest();
    BlankSpends(Blank(|s.stacks|).accounts);
  }

  /**
   Audit completeness over every interleaving. Once the tasks are idle, each record belongs to one
   task, and a task's records, in the order of the trace, are the post-order of its call forest and
   carry the outcomes of its calls. The forest is sound: no refusal lies beneath a success, refused
   dispatches call nothing, and a Surfaced dispatch whose own check saw the switch armed reached its
   steps only if it bypasses the switch. Without resets the counter has grown by the Surfaced calls of
   all forests, nested ones included, that reached their steps.
   */
  lemma TasksAudited<S>(env: Env<S>, s: Sys<S>, actions: seq<Action<S>>)
    requires Initial(env, s) && Quiet(DoAll(env, s, actions))
    ensures var e, h := DoAll(env, s, actions), FollowAll(env, s, actions, Blank(|s.stacks|));
      && |h.accounts| == |e.stacks| && |h.owners| == |e.w.trace|
      && (forall i :: 0 <= i < |h.owners| ==> h.owners[i] < |e.stacks|)
      && (forall t :: 0 <= t < |e.stacks| ==>
            Project(e.w.trace, h.owners, t) == PostOrder(h.accounts[t].finished) && Sound(h.accounts[t].finished))
      && (forall t :: 0 <= t < |e.stacks| ==> h.accounts[t].open == [])
      && (ResetBudget !in actions ==> e.debits == SpentByAll(h.accounts))
  {
    hide Project, DoAll, FollowAll, PostOrder, Sound, SpentByAll;
    BlankOk(env, s);
    assert s.debits == 0 by { NoDebits(env, s); }
    FollowRun(env, s, actions, Blank(|s.stacks|));
    var h := FollowAll(env, s, actions, Blank(|s.stacks|));
    var e := DoAll(env, s, actions);
    forall t | 0 <= t < |e.stacks|
      ensures h.accounts[t].open == [] && Sound(h.accounts[t].finished)
      ensures Project(e.w.trace, h.owners, t) == PostOrder(h.accounts[t].finished)
    {
      assert StackOk(e.stacks[t], h.accounts[t]);
      NothingOpen();
      assert PostOrder(h.accounts[t].finished) + [] == PostOrder(h.accounts[t].finished);
    }
  }

  lemma NoDebits<S>(env: Env<S>, s: Sys<S>)
    requires Initial(env, s)
    ensures s.debits == 0
  {
  }
}
