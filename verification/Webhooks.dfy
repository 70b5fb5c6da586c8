/**
 The webhook service's dedup and debounce decision, which is shown to depend on the history of recorded
 deliveries and pulls alone, never on what was purged. Safety is proved for runs in which syncs may
 overlap; the shipped handler waits for nothing between its decision and the record of its pull, so it
 serves one delivery after the other, and these serial runs are among them. For serial runs the module
 says exactly when a delivery starts another sync. Times are real numbers read from one clock that does
 not run backwards.
 */
module Webhooks {
  import opened Basics

  datatype Row = Row(receivedAt: real, agent: string)

  datatype Store = Store(deliveries: map<string, Row>, pulls: map<string, real>)

  datatype Config = Config(window: real, debounce: real)

  datatype Verdict = Replay | Debounced(since: real) | Sync

  // ----- Storage operations -----

  predicate DeliverySeen(s: Store, id: string, within: real, now: real) {
    id != "" && id in s.deliveries && s.deliveries[id].receivedAt >= now - within
  }

  function RecordDelivery(s: Store, id: string, agent: string, now: real): Store {
    if id == "" then s else s.(deliveries := s.deliveries[id := Row(now, agent)])
  }

  function Purge(s: Store, seconds: real, now: real): Store {
    s.(deliveries := map id | id in s.deliveries && s.deliveries[id].receivedAt >= now - seconds :: s.deliveries[id])
  }

  function SinceLastPull(s: Store, agent: string, now: real): Option<real> {
    if agent in s.pulls then Some(now - s.pulls[agent]) else None
  }

  function RecordPull(s: Store, agent: string, now: real): Store {
    s.(pulls := s.pulls[agent := now])
  }

  /** The locked section, with its three clock readings in order. */
  function Decide(c: Config, s: Store, id: string, agent: string, t1: real, t2: real, t3: real): (Store, Verdict) {
    if DeliverySeen(s, id, c.window, t1) then (s, Replay)
    else
      var since := SinceLastPull(s, agent, t2);
      (RecordDelivery(s, id, agent, t3),
       if since.Some? && since.value < c.debounce then Debounced(since.value) else Sync)
  }

  // ----- Runs -----

  datatype Event =
    | Receive(id: string, agent: string, t1: real, t2: real, t3: real)
    | Finish(agent: string, success: bool, at: real)   // a sync returns; only a success records a pull
    | Purged(seconds: real, at: real)

  datatype Delivery = Delivery(id: string, at: real)
  datatype Pull = Pull(agent: string, at: real)
  datatype Started = Started(id: string, agent: string, decidedAt: real, recordedAt: real)

  /** The store and the clock, with the history of what was ever recorded and started. */
  datatype Service = Service(store: Store, now: real, recorded: seq<Delivery>, pulled: seq<Pull>, started: seq<Started>)

  predicate Timely(s: Service, e: Event) {
    match e
    case Receive(_, _, t1, t2, t3) => s.now <= t1 <= t2 <= t3
    case Finish(_, _, at) => s.now <= at
    case Purged(_, at) => s.now <= at
  }

  function Do(c: Config, s: Service, e: Event): Service {
    match e
    case Receive(id, agent, t1, t2, t3) =>
      var (store, verdict) := Decide(c, s.store, id, agent, t1, t2, t3);
      Service(store, t3,
              s.recorded + if verdict.Replay? || id == "" then [] else [Delivery(id, t3)],
              s.pulled,
              s.started + if verdict.Sync? then [Started(id, agent, t2, t3)] else [])
    case Finish(agent, success, at) =>
      if success then s.(store := RecordPull(s.store, agent, at), now := at, pulled := s.pulled + [Pull(agent, at)])
      else s.(now := at)
    case Purged(seconds, at) => s.(store := Purge(s.store, seconds, at), now := at)
  }

  function DoAll(c: Config, s: Service, events: seq<Event>): Service
    decreases |events|
  {
    if events == [] then s else DoAll(c, Do(c, s, events[0]), events[1..])
  }

  /** The clock never runs backwards and purges are no younger than the idempotency window. */
  predicate Proper(c: Config, s: Service, events: seq<Event>)
    decreases |events|
  {
    events == [] || (
      && Timely(s, events[0])
      && (events[0].Purged? ==> events[0].seconds >= c.window)
      && Proper(c, Do(c, s, events[0]), events[1..]))
  }

  const EMPTY := Service(Store(map[], map[]), 0.0, [], [], [])

  // ----- The decision as a function of history -----

  ghost predicate RecentlyRecorded(c: Config, s: Service, id: string, t: real) {
    exists d :: d in s.recorded && d.id == id && d.at >= t - c.window
  }

  ghost predicate RecentlyPulled(c: Config, s: Service, agent: string, t: real) {
    exists p :: p in s.pulled && p.agent == agent && t - p.at < c.debounce
  }

  ghost predicate Inv(c: Config, s: Service) {
    && "" !in s.store.deliveries
    // a row carries the latest recording of its id; a missing row means all recordings are too old to matter
    && (forall id :: id in s.store.deliveries ==> Delivery(id, s.store.deliveries[id].receivedAt) in s.recorded)
    && (forall d :: d in s.recorded ==>
          && d.id != "" && d.at <= s.now
          && if d.id in s.store.deliveries then d.at <= s.store.deliveries[d.id].receivedAt
            else d.at < s.now - c.window)
    && (forall a :: a in s.store.pulls ==> Pull(a, s.store.pulls[a]) in s.pulled)
    && (forall p :: p in s.pulled ==> p.at <= s.now && p.agent in s.store.pulls && p.at <= s.store.pulls[p.agent])
  }

  lemma InvStep(c: Config, s: Service, e: Event)
    requires Inv(c, s) && Timely(s, e) && (e.Purged? ==> e.seconds >= c.window)
    ensures Inv(c, Do(c, s, e))
  {
    var n := Do(c, s, e);
    match e {
      case Receive(id, agent, t1, t2, t3) =>
        if id != "" && n.recorded != s.recorded {
          assert n.recorded[|s.recorded|] == Delivery(id, t3);
          forall d | d in n.recorded ensures d in s.recorded || d == Delivery(id, t3) {}
        }
      case Finish(agent, success, at) =>
        if success {
          assert n.pulled[|s.pulled|] == Pull(agent, at);
          forall p | p in n.pulled ensures p in s.pulled || p == Pull(agent, at) {}
        }
      case Purged(seconds, at) =>
    }
  }

  /** What the locked section answers, exactly, in terms of everything ever recorded. */
  lemma DecisionExact(c: Config, s: Service, id: string, agent: string, t1: real, t2: real, t3: real)
    requires Inv(c, s) && s.now <= t1 <= t2 <= t3
    ensures var v := Decide(c, s.store, id, agent, t1, t2, t3).1;
      && (v.Replay? <==> RecentlyRecorded(c, s, id, t1))
      && (v.Debounced? <==> !RecentlyRecorded(c, s, id, t1) && RecentlyPulled(c, s, agent, t2))
      && (v.Sync? <==> !RecentlyRecorded(c, s, id, t1) && !RecentlyPulled(c, s, agent, t2))
  {
    if DeliverySeen(s.store, id, c.window, t1) {
      var d := Delivery(id, s.store.deliveries[id].receivedAt);
      assert d in s.recorded;
    } else if agent in s.store.pulls {
      var p := Pull(agent, s.store.pulls[agent]);
      assert p in s.pulled;
    }
  }

  /** Syncs of one delivery are more than the window apart, and none starts too soon after a recorded pull. */
  ghost predicate Spaced(c: Config, s: Service) {
    && (forall i, j :: 0 <= i < j < |s.started| && s.started[i].id == s.started[j].id && s.started[i].id != "" ==>
          s.started[j].recordedAt - s.started[i].recordedAt > c.window)
    && (forall i :: 0 <= i < |s.started| && s.started[i].id != "" ==>
          Delivery(s.started[i].id, s.started[i].recordedAt) in s.recorded)
  }

  lemma SpacedStep(c: Config, s: Service, e: Event)
    requires Inv(c, s) && Spaced(c, s) && Timely(s, e)
    ensures Spaced(c, Do(c, s, e))
  {
    var n := Do(c, s, e);
    if e.Receive? && n.started != s.started {
      DecisionExact(c, s, e.id, e.agent, e.t1, e.t2, e.t3);
      var last := |s.started|;
      if e.id != "" { assert n.recorded[|s.recorded|] == Delivery(e.id, e.t3); }
      forall i | 0 <= i < last && s.started[i].id == e.id && e.id != ""
        ensures e.t3 - s.started[i].recordedAt > c.window
      {
        var d := Delivery(s.started[i].id, s.started[i].recordedAt);
        assert d in s.recorded;
        assert !(d.at >= e.t1 - c.window);
      }
    }
  }

  lemma {:induction false} RunKeeps(c: Config, s: Service, events: seq<Event>)
    requires Inv(c, s) && Spaced(c, s) && Proper(c, s, events)
    ensures Inv(c, DoAll(c, s, events)) && Spaced(c, DoAll(c, s, events))
    decreases |events|
  {
    hide Inv, Spaced, Do;
    if events != [] {
      InvStep(c, s, events[0]);
      SpacedStep(c, s, events[0]);
      RunKeeps(c, Do(c, s, events[0]), events[1..]);
    }
  }

  /** Over every run: two syncs started for the same delivery were recorded more than the window apart. */
  lemma SameDeliverySyncsApart(c: Config, events: seq<Event>, i: nat, j: nat)
    requires Proper(c, EMPTY, events)
    requires var s := DoAll(c, EMPTY, events).started; i < j < |s| && s[i].id == s[j].id && s[i].id != ""
    ensures var s := DoAll(c, EMPTY, events).started; s[j].recordedAt - s[i].recordedAt > c.window
  {
    RunKeeps(c, EMPTY, events);
  }

  /**
   Over every run: a sync that starts next starts no sooner than the debounce period after any recorded
   pull of its agent.
   */
  lemma SyncRespectsPulls(c: Config, events: seq<Event>, e: Event, p: Pull)
    requires Proper(c, EMPTY, events) && e.Receive?
    requires var s := DoAll(c, EMPTY, events); Timely(s, e) && |Do(c, s, e).started| > |s.started|
    requires p in DoAll(c, EMPTY, events).pulled && p.agent == e.agent
    ensures e.t2 - p.at >= c.debounce
  {
    RunKeeps(c, EMPTY, events);
    DecisionExact(c, DoAll(c, EMPTY, events), e.id, e.agent, e.t1, e.t2, e.t3);
  }

  /** In every run, a delivery starts a sync if and only if neither it nor a pull of its agent was recorded recently. */
  lemma SyncStartsExactly(c: Config, events: seq<Event>, e: Event)
    requires Proper(c, EMPTY, events) && e.Receive? && Timely(DoAll(c, EMPTY, events), e)
    ensures var s := DoAll(c, EMPTY, events);
      Do(c, s, e).started != s.started <==>
      !RecentlyRecorded(c, s, e.id, e.t1) && !RecentlyPulled(c, s, e.agent, e.t2)
  {
    hide DoAll, RecentlyRecorded, RecentlyPulled;
    RunKeeps(c, EMPTY, events);
    var s := DoAll(c, EMPTY, events);
    DecisionExact(c, s, e.id, e.agent, e.t1, e.t2, e.t3);
    assert s.started + [] == s.started;
  }

  /**
   A retry is answered as a replay for a whole window after its delivery was recorded, whether or not
   the sync it started succeeded: no later event within the window makes the service try again.
   */
  lemma RetryWithinWindowIsReplayed(c: Config, events: seq<Event>, d: Delivery, e: Event)
    requires Proper(c, EMPTY, events) && e.Receive? && e.id == d.id
    requires var s := DoAll(c, EMPTY, events); d in s.recorded && Timely(s, e)
    requires e.t1 <= d.at + c.window
    ensures var s := DoAll(c, EMPTY, events);
      Decide(c, s.store, e.id, e.agent, e.t1, e.t2, e.t3).1 == Replay && Do(c, s, e).started == s.started
  {
    RunKeeps(c, EMPTY, events);
    var s := DoAll(c, EMPTY, events);
    DecisionExact(c, s, e.id, e.agent, e.t1, e.t2, e.t3);
    assert RecentlyRecorded(c, s, e.id, e.t1);
  }

  // ----- One delivery after the other -----

  /** A delivery from its arrival to its answer, the sync and its outcome included, or a purge. */
  datatype Request =
    | Handle(id: string, agent: string, t1: real, t2: real, t3: real, success: bool, t4: real)
    | Clean(seconds: real, at: real)

  /** A sync that has run: when it was decided, how it ended and when. */
  datatype Ran = Ran(agent: string, success: bool, decidedAt: real, endedAt: real)

  datatype Serial = Serial(service: Service, syncs: seq<Ran>)

  function Arrival(r: Request): Event
    requires r.Handle?
  {
    Receive(r.id, r.agent, r.t1, r.t2, r.t3)
  }

  function Serve(c: Config, x: Serial, r: Request): Serial {
    match r
    case Handle(_, agent, _, t2, _, success, t4) =>
      var decided := Do(c, x.service, Arrival(r));
      if |decided.started| == |x.service.started| then x.(service := decided)
      else Serial(Do(c, decided, Finish(agent, success, t4)), x.syncs + [Ran(agent, success, t2, t4)])
    case Clean(seconds, at) => x.(service := Do(c, x.service, Purged(seconds, at)))
  }

  function ServeAll(c: Config, x: Serial, requests: seq<Request>): Serial
    decreases |requests|
  {
    if requests == [] then x else ServeAll(c, Serve(c, x, requests[0]), requests[1..])
  }

  predicate InTime(c: Config, s: Service, r: Request) {
    match r
    case Handle(_, _, t1, t2, t3, _, t4) => s.now <= t1 <= t2 <= t3 <= t4
    case Clean(seconds, at) => s.now <= at && seconds >= c.window
  }

  predicate AllInTime(c: Config, x: Serial, requests: seq<Request>)
    decreases |requests|
  {
    requests == [] || (InTime(c, x.service, requests[0]) && AllInTime(c, Serve(c, x, requests[0]), requests[1..]))
  }

  const IDLE := Serial(EMPTY, [])

  /** A serial run is one of the interleaved ones. */
  lemma {:induction false} SerialIsARun(c: Config, x: Serial, requests: seq<Request>) returns (events: seq<Event>)
    requires AllInTime(c, x, requests)
    ensures Proper(c, x.service, events) && DoAll(c, x.service, events) == ServeAll(c, x, requests).service
    decreases |requests|
  {
    hide Do;
    if requests == [] {
      events := [];
    } else {
      var now := ServeEvents(c, x, requests[0]);
      var later := SerialIsARun(c, Serve(c, x, requests[0]), requests[1..]);
      events := now + later;
      RunAppend(c, x.service, now, later);
    }
  }

  lemma ServeEvents(c: Config, x: Serial, r: Request) returns (events: seq<Event>)
    requires InTime(c, x.service, r)
    ensures Proper(c, x.service, events) && DoAll(c, x.service, events) == Serve(c, x, r).service
  {
    match r {
      case Handle(_, agent, _, _, _, success, t4) =>
        var e1, e2 := Arrival(r), Finish(agent, success, t4);
        OneEvent(c, x.service, e1);
        TwoEvents(c, x.service, e1, e2);
        events := if Do(c, x.service, e1).started == x.service.started then [e1] else [e1, e2];
      case Clean(seconds, at) =>
        OneEvent(c, x.service, Purged(seconds, at));
        events := [Purged(seconds, at)];
    }
  }

  lemma OneEvent(c: Config, s: Service, e: Event)
    ensures DoAll(c, s, [e]) == Do(c, s, e)
    ensures Proper(c, s, [e]) <==> Timely(s, e) && (e.Purged? ==> e.seconds >= c.window)
  {
    hide Do, Timely;
    assert [e][1..] == [];
  }

  lemma TwoEvents(c: Config, s: Service, e1: Event, e2: Event)
    ensures DoAll(c, s, [e1, e2]) == Do(c, Do(c, s, e1), e2)
    ensures !e1.Purged? && !e2.Purged? ==>
              (Proper(c, s, [e1, e2]) <==> Timely(s, e1) && Timely(Do(c, s, e1), e2))
  {
    hide Do, Timely;
    assert [e1, e2] == [e1] + [e2];
    RunAppend(c, s, [e1], [e2]);
    OneEvent(c, s, e1);
    OneEvent(c, Do(c, s, e1), e2);
  }

  lemma {:induction false} RunAppend(c: Config, s: Service, a: seq<Event>, b: seq<Event>)
    ensures DoAll(c, s, a + b) == DoAll(c, DoAll(c, s, a), b)
    ensures Proper(c, s, a + b) <==> Proper(c, s, a) && Proper(c, DoAll(c, s, a), b)
    decreases |a|
  {
    hide Do, Timely;
    if a == [] {
      assert a + b == b;
    } else {
      assert (a + b)[1..] == a[1..] + b && (a + b)[0] == a[0];
      RunAppend(c, Do(c, s, a[0]), a[1..], b);
    }
  }

  /** The pulls are those of the successful syncs, and no sync was decided too soon after one of its agent. */
  ghost predicate SerialInv(c: Config, x: Serial) {
    && Inv(c, x.service)
    && (forall i :: 0 <= i < |x.syncs| && x.syncs[i].success ==>
          Pull(x.syncs[i].agent, x.syncs[i].endedAt) in x.service.pulled)
    && Explained(x)
    && (forall i :: 0 <= i < |x.syncs| ==> x.syncs[i].decidedAt <= x.syncs[i].endedAt <= x.service.now)
    && (forall i, j :: 0 <= i < j < |x.syncs| && x.syncs[i].agent == x.syncs[j].agent && x.syncs[i].success ==>
          x.syncs[j].decidedAt - x.syncs[i].endedAt >= c.debounce)
  }

  predicate PulledBy(y: Ran, p: Pull) { y.success && y.agent == p.agent && y.endedAt == p.at }

  lemma ServeKeeps(c: Config, x: Serial, r: Request)
    requires SerialInv(c, x) && InTime(c, x.service, r)
    ensures SerialInv(c, Serve(c, x, r))
  {
    hide Inv;
    assert Inv(c, x.service);
    var n := Serve(c, x, r);
    match r {
      case Clean(seconds, at) => InvStep(c, x.service, Purged(seconds, at));
      case Handle(id, agent, t1, t2, t3, success, t4) =>
        var decided := Do(c, x.service, Arrival(r));
        InvStep(c, x.service, Arrival(r));
        DecisionExact(c, x.service, id, agent, t1, t2, t3);
        if |decided.started| != |x.service.started| { SyncKeeps(c, x, r); }
    }
  }

  /** Every pull is some successful sync's. */
  ghost predicate Explained(x: Serial) {
    forall p :: p in x.service.pulled ==> exists i :: 0 <= i < |x.syncs| && PulledBy(x.syncs[i], p)
  }

  lemma StillExplained(x: Serial, n: Serial, y: Ran)
    requires Explained(x) && n.syncs == x.syncs + [y]
    requires n.service.pulled == x.service.pulled + if y.success then [Pull(y.agent, y.endedAt)] else []
    ensures Explained(n)
  {
    forall p | p in n.service.pulled ensures exists i :: 0 <= i < |n.syncs| && PulledBy(n.syncs[i], p) {
      if p in x.service.pulled {
        var i :| 0 <= i < |x.syncs| && PulledBy(x.syncs[i], p);
        assert n.syncs[i] == x.syncs[i];
      } else {
        assert PulledBy(n.syncs[|x.syncs|], p);
      }
    }
  }

  /** A sync that starts and ends. */
  lemma SyncKeeps(c: Config, x: Serial, r: Request)
    requires SerialInv(c, x) && r.Handle? && InTime(c, x.service, r)
    requires |Do(c, x.service, Arrival(r)).started| != |x.service.started|
    ensures SerialInv(c, Serve(c, x, r))
  {
    hide Inv, RecentlyRecorded, Explained;
    var decided, n, k := Do(c, x.service, Arrival(r)), Serve(c, x, r), |x.syncs|;
    assert Inv(c, x.service);
    InvStep(c, x.service, Arrival(r));
    DecisionExact(c, x.service, r.id, r.agent, r.t1, r.t2, r.t3);
    InvStep(c, decided, Finish(r.agent, r.success, r.t4));
    StillExplained(x, n, n.syncs[k]);
    forall i | 0 <= i < k && x.syncs[i].agent == r.agent && x.syncs[i].success
      ensures r.t2 - x.syncs[i].endedAt >= c.debounce
    {
      assert Pull(r.agent, x.syncs[i].endedAt) in x.service.pulled;
    }
  }

  lemma {:induction false} ServeAllKeeps(c: Config, x: Serial, requests: seq<Request>)
    requires SerialInv(c, x) && AllInTime(c, x, requests)
    ensures SerialInv(c, ServeAll(c, x, requests))
    decreases |requests|
  {
    hide SerialInv, Serve;
    if requests != [] {
      ServeKeeps(c, x, requests[0]);
      ServeAllKeeps(c, Serve(c, x, requests[0]), requests[1..]);
    }
  }

  predicate LastAt(syncs: seq<Ran>, agent: string, i: nat) {
    i < |syncs| && syncs[i].agent == agent && forall j :: i < j < |syncs| ==> syncs[j].agent != agent
  }

  /** The last sync of an agent. */
  function LastRan(syncs: seq<Ran>, agent: string): (r: Option<Ran>)
    ensures r.Some? ==> exists i :: 0 <= i < |syncs| && LastAt(syncs, agent, i) && syncs[i] == r.value
    ensures r.None? ==> forall i :: 0 <= i < |syncs| ==> syncs[i].agent != agent
  {
    if syncs == [] then None
    else
      var n := |syncs| - 1;
      if syncs[n].agent == agent then
        assert LastAt(syncs, agent, n);
        Some(syncs[n])
      else
        assert forall i :: 0 <= i < n && LastAt(syncs[..n], agent, i) ==> LastAt(syncs, agent, i);
        LastRan(syncs[..n], agent)
  }

  /** Whether a pull was recorded recently is read off the agent's last sync alone. */
  lemma LastSyncDecides(c: Config, x: Serial, agent: string, t: real)
    requires SerialInv(c, x) && x.service.now <= t
    ensures var last := LastRan(x.syncs, agent);
      RecentlyPulled(c, x.service, agent, t) <==>
      last.Some? && last.value.success && t - last.value.endedAt < c.debounce
  {
    hide Inv, Explained, LastRan;
    var last := LastRan(x.syncs, agent);
    if last.Some? && last.value.success {
      assert Pull(agent, last.value.endedAt) in x.service.pulled;
    }
    if RecentlyPulled(c, x.service, agent, t) {
      var p :| p in x.service.pulled && p.agent == agent && t - p.at < c.debounce;
      var i := PullingSync(x, p);
      var k :| 0 <= k < |x.syncs| && LastAt(x.syncs, agent, k) && x.syncs[k] == last.value;
      RecentIsLast(c, x, agent, i, k, t);
    }
  }

  lemma PullingSync(x: Serial, p: Pull) returns (i: nat)
    requires Explained(x) && p in x.service.pulled
    ensures i < |x.syncs| && PulledBy(x.syncs[i], p)
  {
    i :| 0 <= i < |x.syncs| && PulledBy(x.syncs[i], p);
  }

  /** A successful sync that ended recently has none of its agent after it. */
  lemma RecentIsLast(c: Config, x: Serial, agent: string, i: nat, k: nat, t: real)
    requires SerialInv(c, x) && x.service.now <= t && i < |x.syncs| && LastAt(x.syncs, agent, k)
    requires x.syncs[i].agent == agent && x.syncs[i].success && t - x.syncs[i].endedAt < c.debounce
    ensures i == k
  {
    hide Inv, Explained;
    assert i <= k;
    assert x.syncs[k].decidedAt <= x.service.now;
  }

  /**
   In a serial run, a delivery that has not been recorded recently starts a sync if and only if the
   last sync of its agent failed, or ended at least the debounce period ago, or there was none. So
   pushes in quick succession collapse to one pull exactly as long as the pulls succeed.
   */
  lemma NextSyncExactly(c: Config, requests: seq<Request>, r: Request)
    requires AllInTime(c, IDLE, requests) && r.Handle? && InTime(c, ServeAll(c, IDLE, requests).service, r)
    ensures var x := ServeAll(c, IDLE, requests);
      var last := LastRan(x.syncs, r.agent);
      |Serve(c, x, r).syncs| > |x.syncs| <==>
        && !RecentlyRecorded(c, x.service, r.id, r.t1)
        && (last.None? || !last.value.success || r.t2 - last.value.endedAt >= c.debounce)
  {
    hide RecentlyRecorded, RecentlyPulled, ServeAll, LastRan;
    ServeAllKeeps(c, IDLE, requests);
    var x := ServeAll(c, IDLE, requests);
    LastSyncDecides(c, x, r.agent, r.t2);
    DecisionExact(c, x.service, r.id, r.agent, r.t1, r.t2, r.t3);
  }

  /** Two syncs of one agent within the debounce period: the earlier one failed. */
  lemma CloseSyncsFailed(c: Config, requests: seq<Request>, i: nat, j: nat)
    requires AllInTime(c, IDLE, requests)
    requires var y := ServeAll(c, IDLE, requests).syncs;
      i < j < |y| && y[i].agent == y[j].agent && y[j].decidedAt - y[i].endedAt < c.debounce
    ensures !ServeAll(c, IDLE, requests).syncs[i].success
  {
    hide ServeAll;
    ServeAllKeeps(c, IDLE, requests);
  }

  /** A failed sync records no pull, so the next delivery starts another sync at once, whatever the debounce period. */
  lemma FailedSyncIsNotDebounced(c: Config, a: string, b: string, agent: string, t: real)
    requires a != b && t >= 0.0
    ensures var requests := [Handle(a, agent, t, t, t, false, t), Handle(b, agent, t, t, t, true, t)];
      && AllInTime(c, IDLE, requests)
      && ServeAll(c, IDLE, requests).syncs == [Ran(agent, false, t, t), Ran(agent, true, t, t)]
  {
    var first, second := Handle(a, agent, t, t, t, false, t), Handle(b, agent, t, t, t, true, t);
    TwoRequests(c, first, second);
    var x := Serve(c, IDLE, first);
    assert x.syncs == [Ran(agent, false, t, t)] && x.service.pulled == [];
  }

  lemma TwoRequests(c: Config, r1: Request, r2: Request)
    ensures ServeAll(c, IDLE, [r1, r2]) == Serve(c, Serve(c, IDLE, r1), r2)
    ensures AllInTime(c, IDLE, [r1, r2]) <==> InTime(c, EMPTY, r1) && InTime(c, Serve(c, IDLE, r1).service, r2)
  {
    hide Serve, InTime;
    var both, last: seq<Request> := [r1, r2], [r2];
    assert both[1..] == last && last[1..] == [];
    var x := Serve(c, IDLE, r1);
    assert ServeAll(c, x, last) == ServeAll(c, Serve(c, x, r2), []);
    assert AllInTime(c, x, last) <==> InTime(c, x.service, r2) && AllInTime(c, Serve(c, x, r2), []);
  }

  // ----- The storage object and the handler's locked section -----

  class Storage {
    var deliveries: map<string, Row>
    var pulls: map<string, real>

    constructor ()
      ensures deliveries == map[] && pulls == map[]
    {
      deliveries, pulls := map[], map[];
    }

    function State(): Store
      reads this
    {
      Store(deliveries, pulls)
    }

    method DeliveryWasSeen(id: string, within: real, now: real) returns (seen: bool)
      ensures seen == DeliverySeen(State(), id, within, now)
    {
      if id == "" { return false; }
      var cutoff := now - within;
      if id !in deliveries { return false; }
      return deliveries[id].receivedAt >= cutoff;
    }

    method Record(id: string, agent: string, now: real)
      modifies this`deliveries
      ensures State() == RecordDelivery(old(State()), id, agent, now)
    {
      if id == "" { return; }
      deliveries := deliveries[id := Row(now, agent)];
    }

    /** Returns how many rows went. */
    method PurgeDeliveriesOlderThan(seconds: real, now: real) returns (rowcount: nat)
      modifies this`deliveries
      ensures State() == Purge(old(State()), seconds, now)
      ensures rowcount + |deliveries| == |old(deliveries)|
    {
      var cutoff := now - seconds;
      var gone := set id | id in deliveries && deliveries[id].receivedAt < cutoff;
      var kept := map id | id in deliveries && deliveries[id].receivedAt >= cutoff :: deliveries[id];
      assert kept.Keys == deliveries.Keys - gone;
      rowcount := |gone|;
      assert |deliveries.Keys| == |gone| + |deliveries.Keys - gone|;
      deliveries := kept;
    }

    method SecondsSinceLastPull(agent: string, now: real) returns (since: Option<real>)
      ensures since == SinceLastPull(State(), agent, now)
    {
      if agent !in pulls { return None; }
      return Some(now - pulls[agent]);
    }

    method RecordPullAt(agent: string, now: real)
      modifies this`pulls
      ensures State() == RecordPull(old(State()), agent, now)
    {
      pulls := pulls[agent := now];
    }

    method ReceiveLocked(c: Config, id: string, agent: string, t1: real, t2: real, t3: real) returns (verdict: Verdict)
      modifies this`deliveries
      ensures (State(), verdict) == Decide(c, old(State()), id, agent, t1, t2, t3)
    {
      var seen := DeliveryWasSeen(id, c.window, t1);
      if seen { return Replay; }
      var since := SecondsSinceLastPull(agent, t2);
      if since.Some? && since.value < c.debounce {
        Record(id, agent, t3);
        return Debounced(since.value);
      }
      Record(id, agent, t3);
      return Sync;
    }
  }
}
