/**
 The sender-side limiter for one peer: a semaphore of `maxInflight` permits and a mutex-guarded stamp
 of the last grant. The clock is read before the mutex is taken, the mutex is dropped across the sleep,
 and the stamp is not checked again afterwards. So what the limiter guarantees, over every interleaving
 and every cancellation, is `minInterval` across `maxInflight + 1` consecutive grants, and spacing of
 neighbouring grants exactly when there is a single permit.
 */
module EmitLimiter {
  import opened Basics

  datatype Phase =
    | Idle
    | Waiting                    // for a permit
    | Acquired                   // holds a permit
    | Clocked(t0: nat)           // has read the clock, wants the mutex
    | Checking(t0: nat)          // holds the mutex, about to compare with the last grant
    | Parting(wait: nat)         // has dropped the mutex, about to sleep
    | Sleeping(deadline: nat)
    | Woken                      // wants the mutex again
    | Stamping                   // holds the mutex, about to stamp the grant
    | Holding                    // has returned to the caller, which holds the permit

  /** `seen` is a history variable: the number of grants made when the task got its permit. */
  datatype Task = Task(phase: Phase, seen: nat)

  /** `grants` and `seenBy` are history variables: the time of each grant, and its task's `seen`. */
  datatype Limiter = Limiter(
    now: nat, permits: nat, last: Option<nat>, mutex: Option<nat>,
    tasks: seq<Task>, grants: seq<nat>, seenBy: seq<nat>)

  datatype Config = Config(maxInflight: nat, minInterval: nat)

  datatype Action = Tick(d: nat) | Step(t: nat) | Cancel(t: nat)

  function Elapsed(t0: nat, prev: nat): nat {
    if t0 >= prev then t0 - prev else 0
  }

  function Put(l: Limiter, t: nat, phase: Phase): Limiter
    requires t < |l.tasks|
  {
    l.(tasks := l.tasks[t := l.tasks[t].(phase := phase)])
  }

  /** The next action of a task; where it has to wait and cannot go on, nothing happens. */
  function StepTask(c: Config, l: Limiter, t: nat): Limiter
    requires t < |l.tasks|
  {
    match l.tasks[t].phase
    case Idle => Put(l, t, Waiting)
    case Waiting =>
      if l.permits == 0 then l
      else l.(permits := l.permits - 1, tasks := l.tasks[t := Task(Acquired, |l.grants|)])
    case Acquired => Put(l, t, Clocked(l.now))
    case Clocked(t0) => if l.mutex.Some? then l else Put(l, t, Checking(t0)).(mutex := Some(t))
    case Checking(t0) =>
      if l.last.None? || Elapsed(t0, l.last.value) >= c.minInterval then Put(l, t, Stamping)
      else Put(l, t, Parting(c.minInterval - Elapsed(t0, l.last.value))).(mutex := None)
    case Parting(wait) => Put(l, t, Sleeping(l.now + wait))
    case Sleeping(deadline) => if l.now < deadline then l else Put(l, t, Woken)
    case Woken => if l.mutex.Some? then l else Put(l, t, Stamping).(mutex := Some(t))
    case Stamping =>
      Put(l, t, Holding).(last := Some(l.now), mutex := None,
                          grants := l.grants + [l.now], seenBy := l.seenBy + [l.tasks[t].seen])
    case Holding => Put(l, t, Idle).(permits := l.permits + 1)
  }

  /** A caller may abandon the call wherever it is suspended; a permit it holds goes back. */
  function CancelTask(l: Limiter, t: nat): Limiter
    requires t < |l.tasks|
  {
    match l.tasks[t].phase
    case Waiting => Put(l, t, Idle)
    case Clocked(_) => Put(l, t, Idle).(permits := l.permits + 1)
    case Sleeping(_) => Put(l, t, Idle).(permits := l.permits + 1)
    case Woken => Put(l, t, Idle).(permits := l.permits + 1)
    case _ => l
  }

  function Do(c: Config, l: Limiter, a: Action): Limiter {
    match a
    case Tick(d) => l.(now := l.now + d)
    case Step(t) => if t < |l.tasks| then StepTask(c, l, t) else l
    case Cancel(t) => if t < |l.tasks| then CancelTask(l, t) else l
  }

  function DoAll(c: Config, l: Limiter, actions: seq<Action>): Limiter
    decreases |actions|
  {
    if actions == [] then l else DoAll(c, Do(c, l, actions[0]), actions[1..])
  }

  function Fresh(c: Config, n: nat, now: nat): Limiter {
    Limiter(now, c.maxInflight, None, None, seq(n, _ => Task(Idle, 0)), [], [])
  }

  // ----- Counting -----

  predicate HasPermit(x: Task) { !x.phase.Idle? && !x.phase.Waiting? }

  /** Holds a permit taken before grant `i` was followed by another, and has not used it. */
  predicate EarlyAndOpen(x: Task, i: nat) { HasPermit(x) && !x.phase.Holding? && x.seen <= i }

  function Permits(tasks: seq<Task>): nat {
    if tasks == [] then 0 else (if HasPermit(tasks[0]) then 1 else 0) + Permits(tasks[1..])
  }

  function Open(tasks: seq<Task>, i: nat): nat {
    if tasks == [] then 0 else (if EarlyAndOpen(tasks[0], i) then 1 else 0) + Open(tasks[1..], i)
  }

  /** Grants after `i` made with permits that are not younger than grant `i`. */
  function EarlyGrants(seenBy: seq<nat>, i: nat): nat
    decreases |seenBy|
  {
    var n := |seenBy| - 1;
    if n <= i then 0 else (if seenBy[n] <= i then 1 else 0) + EarlyGrants(seenBy[..n], i)
  }

  lemma {:induction false} CountUpdate(tasks: seq<Task>, t: nat, x: Task, i: nat)
    requires t < |tasks|
    ensures Permits(tasks[t := x]) + (if HasPermit(tasks[t]) then 1 else 0)
        == Permits(tasks) + (if HasPermit(x) then 1 else 0)
    ensures Open(tasks[t := x], i) + (if EarlyAndOpen(tasks[t], i) then 1 else 0)
        == Open(tasks, i) + (if EarlyAndOpen(x, i) then 1 else 0)
  {
    if t == 0 {
      assert tasks[t := x][1..] == tasks[1..];
    } else {
      assert tasks[t := x][1..] == tasks[1..][t - 1 := x];
      CountUpdate(tasks[1..], t - 1, x, i);
    }
  }

  lemma {:induction false} OpenBound(tasks: seq<Task>, i: nat)
    ensures Open(tasks, i) <= Permits(tasks)
  {
    if tasks != [] { OpenBound(tasks[1..], i); }
  }

  /** If every grant in `(i, m)` used an early permit, there are that many of them. */
  lemma {:induction false} EarlyGrantsAtLeast(seenBy: seq<nat>, i: nat, m: nat)
    requires i < m <= |seenBy| && forall j :: i < j < m ==> seenBy[j] <= i
    ensures EarlyGrants(seenBy, i) >= m - i - 1
    decreases |seenBy|
  {
    var n := |seenBy| - 1;
    if n > i { EarlyGrantsAtLeast(seenBy[..n], i, if m <= n then m else n); }
  }

  // ----- Invariant -----

  /** How late a task that saw a grant must be before it can make the next one. */
  ghost predicate LateEnough(c: Config, now: nat, x: Task, g: nat) {
    match x.phase
    case Clocked(t0) => g <= t0 <= now
    case Checking(t0) => g <= t0 <= now
    case Parting(wait) => g + c.minInterval <= now + wait
    case Sleeping(deadline) => g + c.minInterval <= deadline
    case Woken => g + c.minInterval <= now
    case Stamping => g + c.minInterval <= now
    case _ => true
  }

  ghost predicate TaskOk(c: Config, l: Limiter, t: nat)
    requires t < |l.tasks|
  {
    var x := l.tasks[t];
    && (HasPermit(x) ==> x.seen <= |l.grants|)
    && (HasPermit(x) && x.seen > 0 ==> LateEnough(c, l.now, x, l.grants[x.seen - 1]))
    && (x.phase.Clocked? ==> x.phase.t0 <= l.now)
    && (x.phase.Checking? ==> x.phase.t0 <= l.now)
    && (x.phase.Checking? || x.phase.Stamping? ==> l.mutex == Some(t))
  }

  ghost predicate HistoryOk(c: Config, l: Limiter) {
    && |l.seenBy| == |l.grants|
    && (forall i, j :: 0 <= i <= j < |l.grants| ==> l.grants[i] <= l.grants[j] <= l.now)
    && l.last == (if l.grants == [] then None else Some(l.grants[|l.grants| - 1]))
    && (forall j :: 0 <= j < |l.grants| ==> l.seenBy[j] <= j)
    && (forall j :: 0 <= j < |l.grants| && l.seenBy[j] > 0 ==>
          l.grants[l.seenBy[j] - 1] + c.minInterval <= l.grants[j])
  }

  ghost predicate Inv(c: Config, l: Limiter) {
    && l.permits + Permits(l.tasks) == c.maxInflight
    && HistoryOk(c, l)
    && (forall t :: 0 <= t < |l.tasks| ==> TaskOk(c, l, t))
    && (forall i :: 0 <= i < |l.grants| ==> Open(l.tasks, i) + EarlyGrants(l.seenBy, i) < c.maxInflight)
  }

  predicate OwnsMutex(x: Task) { x.phase.Checking? || x.phase.Stamping? }

  ghost predicate OwnersHoldMutex(l: Limiter) {
    forall u :: 0 <= u < |l.tasks| && OwnsMutex(l.tasks[u]) ==> l.mutex == Some(u)
  }

  /** An action that only changes one task's phase, the clock aside, keeps the counts when these two facts stay. */
  lemma PhaseChange(c: Config, l: Limiter, t: nat, x: Task, permits: nat, mutex: Option<nat>)
    requires Inv(c, l) && t < |l.tasks|
    requires permits + (if HasPermit(x) then 1 else 0) == l.permits + (if HasPermit(l.tasks[t]) then 1 else 0)
    requires forall i :: 0 <= i < |l.grants| && EarlyAndOpen(x, i) ==> EarlyAndOpen(l.tasks[t], i)
    requires var e := l.(permits := permits, mutex := mutex, tasks := l.tasks[t := x]); TaskOk(c, e, t)
    requires forall u :: 0 <= u < |l.tasks| && u != t && OwnsMutex(l.tasks[u]) ==> mutex == Some(u)
    ensures Inv(c, l.(permits := permits, mutex := mutex, tasks := l.tasks[t := x]))
  {
    hide Permits, Open, EarlyGrants;
    var e := l.(permits := permits, mutex := mutex, tasks := l.tasks[t := x]);
    CountUpdate(l.tasks, t, x, 0);
    forall i | 0 <= i < |l.grants| ensures Open(e.tasks, i) + EarlyGrants(e.seenBy, i) < c.maxInflight {
      CountUpdate(l.tasks, t, x, i);
    }
    forall u | 0 <= u < |e.tasks| ensures TaskOk(c, e, u) {
      if u != t { assert TaskOk(c, l, u); }
    }
  }

  lemma GrantKeepsInv(c: Config, l: Limiter, t: nat)
    requires Inv(c, l) && t < |l.tasks| && l.tasks[t].phase.Stamping?
    ensures Inv(c, StepTask(c, l, t))
  {
    hide Permits, Open, EarlyGrants;
    var e := StepTask(c, l, t);
    var x, n := l.tasks[t], |l.grants|;
    assert TaskOk(c, l, t);
    CountUpdate(l.tasks, t, x.(phase := Holding), 0);
    assert e.seenBy[..n] == l.seenBy;
    forall i | 0 <= i < |e.grants| ensures Open(e.tasks, i) + EarlyGrants(e.seenBy, i) < c.maxInflight {
      CountUpdate(l.tasks, t, x.(phase := Holding), i);
      EarlyGrantsLast(e.seenBy, i);
      if i == n {
        OpenBound(l.tasks, i);
        EarlyGrantsLast(e.seenBy, i);
      }
    }
    forall u | 0 <= u < |e.tasks| ensures TaskOk(c, e, u) {
      assert TaskOk(c, l, u);
    }
  }

  lemma EarlyGrantsLast(seenBy: seq<nat>, i: nat)
    requires seenBy != []
    ensures var n := |seenBy| - 1;
      EarlyGrants(seenBy, i) == if n <= i then 0 else (if seenBy[n] <= i then 1 else 0) + EarlyGrants(seenBy[..n], i)
  {
  }

  lemma StepKeepsInv(c: Config, l: Limiter, t: nat)
    requires Inv(c, l) && t < |l.tasks|
    ensures Inv(c, StepTask(c, l, t))
  {
    hide Permits, Open, EarlyGrants, Inv, HistoryOk;
    InvParts(c, l);
    assert TaskOk(c, l, t);
    var x := l.tasks[t];
    match x.phase {
      case Idle => PhaseChange(c, l, t, x.(phase := Waiting), l.permits, l.mutex);
      case Waiting => if l.permits > 0 { PhaseChange(c, l, t, Task(Acquired, |l.grants|), l.permits - 1, l.mutex); }
      case Acquired => PhaseChange(c, l, t, x.(phase := Clocked(l.now)), l.permits, l.mutex);
      case Clocked(t0) => if l.mutex.None? { PhaseChange(c, l, t, x.(phase := Checking(t0)), l.permits, Some(t)); }
      case Checking(t0) =>
        if l.last.None? || Elapsed(t0, l.last.value) >= c.minInterval {
          PhaseChange(c, l, t, x.(phase := Stamping), l.permits, l.mutex);
        } else {
          PhaseChange(c, l, t, x.(phase := Parting(c.minInterval - Elapsed(t0, l.last.value))), l.permits, None);
        }
      case Parting(wait) => PhaseChange(c, l, t, x.(phase := Sleeping(l.now + wait)), l.permits, l.mutex);
      case Sleeping(deadline) => if l.now >= deadline { PhaseChange(c, l, t, x.(phase := Woken), l.permits, l.mutex); }
      case Woken => if l.mutex.None? { PhaseChange(c, l, t, x.(phase := Stamping), l.permits, Some(t)); }
      case Stamping => GrantKeepsInv(c, l, t);
      case Holding => PhaseChange(c, l, t, x.(phase := Idle), l.permits + 1, l.mutex);
    }
  }

  lemma InvParts(c: Config, l: Limiter)
    requires Inv(c, l)
    ensures l.last == if l.grants == [] then None else Some(l.grants[|l.grants| - 1])
    ensures forall i, j :: 0 <= i <= j < |l.grants| ==> l.grants[i] <= l.grants[j] <= l.now
    ensures forall u :: 0 <= u < |l.tasks| ==> TaskOk(c, l, u)
    ensures OwnersHoldMutex(l)
  {
    forall u | 0 <= u < |l.tasks| && OwnsMutex(l.tasks[u]) ensures l.mutex == Some(u) { assert TaskOk(c, l, u); }
  }

  lemma DoKeepsInv(c: Config, l: Limiter, a: Action)
    requires Inv(c, l)
    ensures Inv(c, Do(c, l, a))
  {
    hide Permits, Open, EarlyGrants, StepTask;
    match a {
      case Tick(d) =>
        var e := Do(c, l, a);
        forall u | 0 <= u < |e.tasks| ensures TaskOk(c, e, u) { assert TaskOk(c, l, u); }
      case Step(t) => if t < |l.tasks| { StepKeepsInv(c, l, t); }
      case Cancel(t) =>
        if t < |l.tasks| {
          var x := l.tasks[t];
          InvParts(c, l);
          if x.phase.Waiting? { PhaseChange(c, l, t, x.(phase := Idle), l.permits, l.mutex); }
          if x.phase.Clocked? || x.phase.Sleeping? || x.phase.Woken? {
            PhaseChange(c, l, t, x.(phase := Idle), l.permits + 1, l.mutex);
          }
        }
    }
  }

  lemma {:induction false} RunKeepsInv(c: Config, l: Limiter, actions: seq<Action>)
    requires Inv(c, l)
    ensures Inv(c, DoAll(c, l, actions))
    decreases |actions|
  {
    hide Inv, Do;
    if actions != [] {
      DoKeepsInv(c, l, actions[0]);
      RunKeepsInv(c, Do(c, l, actions[0]), actions[1..]);
    }
  }

  lemma {:induction false} NobodyHasPermit(tasks: seq<Task>)
    requires forall x :: x in tasks ==> x.phase.Idle?
    ensures Permits(tasks) == 0
  {
    if tasks != [] { NobodyHasPermit(tasks[1..]); }
  }

  lemma FreshInv(c: Config, n: nat, now: nat)
    ensures Inv(c, Fresh(c, n, now))
  {
    NobodyHasPermit(Fresh(c, n, now).tasks);
  }

  // ----- What every run guarantees -----

  function Holders(tasks: seq<Task>): nat {
    if tasks == [] then 0 else (if tasks[0].phase.Holding? then 1 else 0) + Holders(tasks[1..])
  }

  lemma {:induction false} HoldersHavePermits(tasks: seq<Task>)
    ensures Holders(tasks) <= Permits(tasks)
  {
    if tasks != [] { HoldersHavePermits(tasks[1..]); }
  }

  lemma AtMostMaxInflight(c: Config, n: nat, now: nat, actions: seq<Action>)
    ensures Holders(DoAll(c, Fresh(c, n, now), actions).tasks) <= c.maxInflight
  {
    FreshInv(c, n, now);
    RunKeepsInv(c, Fresh(c, n, now), actions);
    HoldersHavePermits(DoAll(c, Fresh(c, n, now), actions).tasks);
  }

  lemma SpacingOfState(c: Config, l: Limiter, i: nat)
    requires Inv(c, l) && i + c.maxInflight < |l.grants|
    ensures l.grants[i] + c.minInterval <= l.grants[i + c.maxInflight]
  {
    hide Permits, Open, EarlyGrants;
    var m := i + c.maxInflight;
    assert exists j :: i < j <= m && l.seenBy[j] > i by {
      if forall j :: i < j < m + 1 ==> l.seenBy[j] <= i { EarlyGrantsAtLeast(l.seenBy, i, m + 1); }
    }
    var j :| i < j <= m && l.seenBy[j] > i;
    assert l.grants[i] <= l.grants[l.seenBy[j] - 1];
    assert l.grants[j] <= l.grants[m];
  }

  /** Any `maxInflight + 1` consecutive grants span at least the minimum interval. */
  lemma GrantsAreSpaced(c: Config, n: nat, now: nat, actions: seq<Action>, i: nat)
    requires i + c.maxInflight < |DoAll(c, Fresh(c, n, now), actions).grants|
    ensures var g := DoAll(c, Fresh(c, n, now), actions).grants;
      g[i] + c.minInterval <= g[i + c.maxInflight]
  {
    FreshInv(c, n, now);
    RunKeepsInv(c, Fresh(c, n, now), actions);
    SpacingOfState(c, DoAll(c, Fresh(c, n, now), actions), i);
  }

  ghost predicate NeighboursSpaced(c: Config) {
    forall n: nat, now: nat, actions: seq<Action>, i: nat ::
      i + 1 < |DoAll(c, Fresh(c, n, now), actions).grants| ==>
        DoAll(c, Fresh(c, n, now), actions).grants[i] + c.minInterval
          <= DoAll(c, Fresh(c, n, now), actions).grants[i + 1]
  }

  lemma {:induction false} DoAllSnoc(c: Config, l: Limiter, actions: seq<Action>, a: Action)
    ensures DoAll(c, l, actions + [a]) == Do(c, DoAll(c, l, actions), a)
    decreases |actions|
  {
    hide Do;
    if actions == [] {
      assert [a][1..] == [];
    } else {
      assert (actions + [a])[1..] == actions[1..] + [a];
      DoAllSnoc(c, Do(c, l, actions[0]), actions[1..], a);
    }
  }

  /** The run so far and the state it has reached, one action longer. */
  lemma Then(c: Config, l: Limiter, acts: seq<Action>, e: Limiter, a: Action) returns (acts': seq<Action>, e': Limiter)
    requires DoAll(c, l, acts) == e
    ensures e' == Do(c, e, a) && DoAll(c, l, acts') == e'
  {
    DoAllSnoc(c, l, acts, a);
    acts', e' := acts + [a], Do(c, e, a);
  }

  /** An idle task that finds the last grant made just now goes to sleep for the whole interval. */
  lemma FallAsleep(
    c: Config, l: Limiter, acts: seq<Action>, e: Limiter, t: nat) returns (acts': seq<Action>, e': Limiter)
    requires DoAll(c, l, acts) == e
    requires t < |e.tasks| && e.tasks[t].phase.Idle? && e.permits > 0 && e.mutex.None? && e.last == Some(e.now)
        && c.minInterval > 0
    ensures DoAll(c, l, acts') == e'
    ensures e' == e.(permits := e.permits - 1, tasks := e.tasks[t := Task(Sleeping(e.now + c.minInterval), |e.grants|)])
  {
    hide DoAll;
    var x := Task(Acquired, |e.grants|);
    acts', e' := Then(c, l, acts, e, Step(t));
    acts', e' := Then(c, l, acts', e', Step(t));
    assert e'.tasks == e.tasks[t := x];
    acts', e' := Then(c, l, acts', e', Step(t));
    acts', e' := Then(c, l, acts', e', Step(t));
    assert e'.tasks == e.tasks[t := x.(phase := Checking(e.now))];
    acts', e' := Then(c, l, acts', e', Step(t));
    assert e'.tasks == e.tasks[t := x.(phase := Parting(c.minInterval))];
    acts', e' := Then(c, l, acts', e', Step(t));
    assert e'.tasks == e.tasks[t := x.(phase := Sleeping(e.now + c.minInterval))];
  }

  /** A task whose deadline has come stamps the time without looking at the last grant. */
  lemma WakeAndStamp(
    c: Config, l: Limiter, acts: seq<Action>, e: Limiter, t: nat) returns (acts': seq<Action>, e': Limiter)
    requires DoAll(c, l, acts) == e
    requires t < |e.tasks| && e.tasks[t].phase.Sleeping? && e.tasks[t].phase.deadline <= e.now && e.mutex.None?
    ensures DoAll(c, l, acts') == e'
    ensures e'.grants == e.grants + [e.now] && e'.now == e.now && e'.mutex.None?
    ensures |e'.tasks| == |e.tasks| && forall u :: 0 <= u < |e.tasks| && u != t ==> e'.tasks[u] == e.tasks[u]
  {
    hide DoAll;
    acts', e' := Then(c, l, acts, e, Step(t));
    acts', e' := Then(c, l, acts', e', Step(t));
    acts', e' := Then(c, l, acts', e', Step(t));
  }

  /** The first grant is immediate and leaves its task idle again once released. */
  lemma FirstGrant(c: Config, now: nat) returns (acts: seq<Action>, e: Limiter)
    requires c.maxInflight >= 1
    ensures DoAll(c, Fresh(c, 2, now), acts) == e
    ensures e.grants == [now] && e.now == now && e.last == Some(now) && e.mutex.None? && e.permits == c.maxInflight
    ensures |e.tasks| == 2 && e.tasks[0].phase.Idle? && e.tasks[1].phase.Idle?
  {
    hide DoAll;
    var l := Fresh(c, 2, now);
    GrantedWhenDue(c, l, 0);
    acts, e := Then(c, l, Promptly(c, l, 0), DoAll(c, l, Promptly(c, l, 0)), Step(0));
    assert [] + [now] == [now];
  }

  lemma NoActions(c: Config, l: Limiter)
    ensures DoAll(c, l, []) == l
  {
  }

  /** With two permits, two tasks that sleep on the same stamp are granted at the same instant. */
  lemma BurstOfTwo(c: Config, now: nat) returns (acts: seq<Action>)
    requires c.maxInflight >= 2 && c.minInterval > 0
    ensures var g := DoAll(c, Fresh(c, 2, now), acts).grants;
      |g| == 3 && g[1] == g[2]
  {
    hide DoAll;
    var l := Fresh(c, 2, now);
    var e;
    acts, e := FirstGrant(c, now);
    acts, e := FallAsleep(c, l, acts, e, 1);
    acts, e := FallAsleep(c, l, acts, e, 0);
    acts, e := Then(c, l, acts, e, Tick(c.minInterval));
    acts, e := WakeAndStamp(c, l, acts, e, 1);
    acts, e := WakeAndStamp(c, l, acts, e, 0);
  }

  /** Spacing of neighbouring grants is promised exactly by a single permit. */
  lemma NeighboursSpacedExactly(c: Config)
    ensures NeighboursSpaced(c) <==> c.maxInflight <= 1 || c.minInterval == 0
  {
    if c.maxInflight <= 1 || c.minInterval == 0 {
      forall n: nat, now: nat, actions: seq<Action>, i: nat | i + 1 < |DoAll(c, Fresh(c, n, now), actions).grants|
        ensures DoAll(c, Fresh(c, n, now), actions).grants[i] + c.minInterval
            <= DoAll(c, Fresh(c, n, now), actions).grants[i + 1]
      {
        FreshInv(c, n, now);
        RunKeepsInv(c, Fresh(c, n, now), actions);
        var l := DoAll(c, Fresh(c, n, now), actions);
        GrantNeedsPermit(c, l);
        if c.maxInflight == 1 { SpacingOfState(c, l, i); }
      }
    } else {
      var acts := BurstOfTwo(c, 0);
      var g := DoAll(c, Fresh(c, 2, 0), acts).grants;
      assert g[1] + c.minInterval > g[1 + 1];
    }
  }

  lemma GrantNeedsPermit(c: Config, l: Limiter)
    requires Inv(c, l) && l.grants != []
    ensures c.maxInflight > 0
  {
    assert Open(l.tasks, 0) + EarlyGrants(l.seenBy, 0) < c.maxInflight;
  }

  /** The production limiter: two permits, six seconds. Three grants to a peer never fall within six seconds. */
  const PRODUCTION := Config(2, 6000)

  lemma ThreeGrantsTakeSixSeconds(n: nat, now: nat, actions: seq<Action>, i: nat)
    requires i + 2 < |DoAll(PRODUCTION, Fresh(PRODUCTION, n, now), actions).grants|
    ensures var g := DoAll(PRODUCTION, Fresh(PRODUCTION, n, now), actions).grants; g[i] + 6000 <= g[i + 2]
    ensures !NeighboursSpaced(PRODUCTION)
  {
    GrantsAreSpaced(PRODUCTION, n, now, actions, i);
    NeighboursSpacedExactly(PRODUCTION);
  }

  // ----- Nobody waits longer than that -----

  function Steps(t: nat, k: nat): seq<Action> { seq(k, _ => Step(t)) }

  /** When a task that finds permit and mutex free is due: at once, or an interval after the last grant. */
  function Due(c: Config, l: Limiter): nat {
    if l.last.Some? && l.now < l.last.value + c.minInterval then l.last.value + c.minInterval else l.now
  }

  /** The task alone, never kept waiting: it sleeps once if it is not due yet, and not at all otherwise. */
  function Promptly(c: Config, l: Limiter, t: nat): seq<Action> {
    if Due(c, l) == l.now then Steps(t, 6) else Steps(t, 6) + [Tick(Due(c, l) - l.now)] + Steps(t, 3)
  }

  /** An idle task, with a permit and the mutex to be had, and a clock that has not run backwards. */
  predicate Unhindered(l: Limiter, t: nat) {
    && t < |l.tasks| && l.tasks[t].phase.Idle? && l.permits > 0 && l.mutex.None?
    && (l.last.Some? ==> l.last.value <= l.now)
  }

  lemma StepMore(c: Config, l: Limiter, acts: seq<Action>, e: Limiter, t: nat, k: nat) returns (e': Limiter)
    requires DoAll(c, l, acts + Steps(t, k)) == e
    ensures e' == Do(c, e, Step(t)) && DoAll(c, l, acts + Steps(t, k + 1)) == e'
  {
    assert acts + Steps(t, k + 1) == (acts + Steps(t, k)) + [Step(t)];
    DoAllSnoc(c, l, acts + Steps(t, k), Step(t));
    e' := Do(c, e, Step(t));
  }

  /** Permit, clock, mutex: four steps of an idle task up to the comparison with the last grant. */
  lemma ReachCheck(c: Config, l: Limiter, t: nat)
    requires Unhindered(l, t)
    ensures DoAll(c, l, Steps(t, 4)) ==
            l.(permits := l.permits - 1, mutex := Some(t), tasks := l.tasks[t := Task(Checking(l.now), |l.grants|)])
  {
    hide DoAll;
    var none: seq<Action> := [];
    NoActions(c, l);
    assert none + Steps(t, 0) == none && none + Steps(t, 4) == Steps(t, 4);
    var e := StepMore(c, l, none, l, t, 0);
    e := StepMore(c, l, none, e, t, 1);
    var x := Task(Acquired, |l.grants|);
    assert e.tasks == l.tasks[t := x];
    e := StepMore(c, l, none, e, t, 2);
    e := StepMore(c, l, none, e, t, 3);
    assert e.tasks == l.tasks[t := x.(phase := Checking(l.now))];
  }

  /**
   A task that nothing hinders is granted exactly when it is due. If there was no grant yet, or the last
   one lies an interval back, it needs no time at all; otherwise it is granted the moment the clock
   reaches the last grant plus the interval. It then holds one permit, and nothing else has changed.
   */
  lemma GrantedWhenDue(c: Config, l: Limiter, t: nat)
    requires Unhindered(l, t)
    ensures DoAll(c, l, Promptly(c, l, t)) ==
            l.(now := Due(c, l), permits := l.permits - 1, last := Some(Due(c, l)),
               tasks := l.tasks[t := Task(Holding, |l.grants|)],
               grants := l.grants + [Due(c, l)], seenBy := l.seenBy + [|l.grants|])
  {
    hide DoAll;
    var none: seq<Action> := [];
    var x := Task(Acquired, |l.grants|);
    ReachCheck(c, l, t);
    assert none + Steps(t, 4) == Steps(t, 4) && none + Steps(t, 6) == Steps(t, 6);
    var e := StepMore(c, l, none, DoAll(c, l, Steps(t, 4)), t, 4);
    e := StepMore(c, l, none, e, t, 5);
    if Due(c, l) == l.now {
      assert e.tasks == l.tasks[t := x.(phase := Holding)];
    } else {
      assert e.tasks == l.tasks[t := x.(phase := Sleeping(Due(c, l)))];
      var tick := Tick(Due(c, l) - l.now);
      DoAllSnoc(c, l, Steps(t, 6), tick);
      var acts := Steps(t, 6) + [tick];
      assert acts + Steps(t, 0) == acts;
      e := StepMore(c, l, acts, Do(c, e, tick), t, 0);
      e := StepMore(c, l, acts, e, t, 1);
      e := StepMore(c, l, acts, e, t, 2);
      assert e.tasks == l.tasks[t := x.(phase := Holding)];
    }
  }

  /** A run of one task and the clock. */
  predicate Alone(t: nat, actions: seq<Action>) {
    forall i :: 0 <= i < |actions| ==> actions[i].Tick? || actions[i] == Step(t)
  }

  /** A task alone on its way to a grant that is due at `due`: the time has come, or it is going to wait for it. */
  predicate NotYet(c: Config, l: Limiter, t: nat, due: nat) {
    && t < |l.tasks|
    && (due <= l.now || (
          && l.last.Some? && l.last.value <= l.now && due == l.last.value + c.minInterval
          && match l.tasks[t].phase
             case Clocked(t0) => t0 <= l.now
             case Checking(t0) => t0 <= l.now
             case Parting(wait) => due <= l.now + wait
             case Sleeping(deadline) => due <= deadline
             case Woken => false
             case Stamping => false
             case Holding => false
             case _ => true))
  }

  lemma StepNotYet(c: Config, l: Limiter, t: nat, due: nat, a: Action)
    requires NotYet(c, l, t, due) && (a.Tick? || a == Step(t))
    ensures var e := Do(c, l, a);
      && NotYet(c, e, t, due) && l.grants <= e.grants && |e.grants| <= |l.grants| + 1
      && (|e.grants| > |l.grants| ==> e.grants[|l.grants|] >= due)
  {
  }

  /** And not before: however the task is stepped, no grant of its comes earlier than the first one is due. */
  lemma {:induction false} NoneBefore(c: Config, l: Limiter, t: nat, due: nat, actions: seq<Action>)
    requires NotYet(c, l, t, due) && Alone(t, actions)
    ensures var g := DoAll(c, l, actions).grants;
      l.grants <= g && forall i :: |l.grants| <= i < |g| ==> g[i] >= due
    decreases |actions|
  {
    hide NotYet, Do;
    if actions != [] {
      StepNotYet(c, l, t, due, actions[0]);
      NoneBefore(c, Do(c, l, actions[0]), t, due, actions[1..]);
    }
  }

  lemma NoGrantBeforeDue(c: Config, l: Limiter, t: nat, actions: seq<Action>)
    requires Unhindered(l, t) && Alone(t, actions)
    ensures var g := DoAll(c, l, actions).grants;
      l.grants <= g && forall i :: |l.grants| <= i < |g| ==> g[i] >= Due(c, l)
  {
    NoneBefore(c, l, t, Due(c, l), actions);
  }

  /** A task asleep, or about to be, has no more than one interval to go. */
  predicate ShortOfInterval(c: Config, l: Limiter, x: Task) {
    match x.phase
    case Parting(wait) => 0 < wait <= c.minInterval
    case Sleeping(deadline) => deadline <= l.now + c.minInterval
    case _ => true
  }

  ghost predicate AllShort(c: Config, l: Limiter) {
    forall t :: 0 <= t < |l.tasks| ==> ShortOfInterval(c, l, l.tasks[t])
  }

  lemma StepShortOfInterval(c: Config, l: Limiter, a: Action)
    requires AllShort(c, l)
    ensures AllShort(c, Do(c, l, a))
  {
    var e := Do(c, l, a);
    forall t | 0 <= t < |e.tasks| ensures ShortOfInterval(c, e, e.tasks[t]) {
      assert ShortOfInterval(c, l, l.tasks[t]);
    }
  }

  lemma {:induction false} StayShortOfInterval(c: Config, l: Limiter, actions: seq<Action>)
    requires AllShort(c, l)
    ensures AllShort(c, DoAll(c, l, actions))
    decreases |actions|
  {
    hide Do, AllShort;
    if actions != [] {
      StepShortOfInterval(c, l, actions[0]);
      StayShortOfInterval(c, Do(c, l, actions[0]), actions[1..]);
    }
  }

  /** In every run, over every interleaving and cancellation, whoever sleeps has at most one interval to go. */
  lemma NobodyOversleeps(c: Config, n: nat, now: nat, actions: seq<Action>, t: nat)
    requires t < |DoAll(c, Fresh(c, n, now), actions).tasks|
    ensures var e := DoAll(c, Fresh(c, n, now), actions);
      e.tasks[t].phase.Sleeping? ==> e.tasks[t].phase.deadline <= e.now + c.minInterval
  {
    StayShortOfInterval(c, Fresh(c, n, now), actions);
    assert ShortOfInterval(c, DoAll(c, Fresh(c, n, now), actions), DoAll(c, Fresh(c, n, now), actions).tasks[t]);
  }

  // ----- What giving up and giving back leave behind -----

  /** Where a call is suspended and can be abandoned. */
  predicate Suspended(x: Task) {
    x.phase.Waiting? || x.phase.Clocked? || x.phase.Sleeping? || x.phase.Woken?
  }

  /** Abandoning a suspended call, or releasing a grant, gives its permit back and leaves all else as it was. */
  lemma NothingLeftBehind(c: Config, l: Limiter, t: nat)
    requires t < |l.tasks| && (Suspended(l.tasks[t]) || l.tasks[t].phase.Holding?)
    ensures Do(c, l, if l.tasks[t].phase.Holding? then Step(t) else Cancel(t)) ==
            l.(tasks := l.tasks[t := Task(Idle, l.tasks[t].seen)],
               permits := l.permits + if HasPermit(l.tasks[t]) then 1 else 0)
  {
  }
}
