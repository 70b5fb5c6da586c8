/**
 Clients against the concurrent server: any number of `invoke` calls share one response cache and run
 interleaved with each other, with the server's handlers and with POSTs from elsewhere. Polling always
 succeeds at once, and every answer is one that a handler run produced for the message.
 */
module PeerClients {
  import opened Basics
  import opened PeerTasks
  import opened PeerInvocation

  datatype Stage =
    | Begun                              // about to look in the cache
    | Posting(p: nat)                    // its POST is under way on the server
    | Polling(task: nat, attempts: nat)
    | Got(response: Envelope)            // validated, about to be cached
    | Answered(response: Envelope)
    | Refused                            // the POST was refused, or the response was not valid
    | GaveUp

  datatype Invocation = Invocation(envelope: Envelope, stage: Stage)

  datatype Net = Net(server: Server, cache: Cache, calls: seq<Invocation>)

  datatype Event =
    | Serve(a: PeerTasks.Action)         // the server moves, or somebody else posts
    | Invoke(envelope: Envelope)
    | Proceed(c: nat)

  /** The next action of one `invoke` call: the network as it leaves it, and its new stage. */
  function Continue(handlers: set<string>, n: Net, call: Invocation): (Net, Stage) {
    var id := call.envelope.messageId;
    match call.stage
    case Begun =>
      if id in n.cache then (n, Answered(n.cache[id]))
      else (n.(server := PeerTasks.Do(handlers, n.server, Receive(call.envelope))), Posting(|n.server.posts|))
    case Posting(p) =>
      if p >= |n.server.posts| then (n, call.stage)
      else
        (match n.server.posts[p].phase
         case Replied(t) => (n, Polling(t, 0))
         case Rejected => (n, Refused)
         case _ => (n, call.stage))
    case Polling(t, k) =>
      if t in n.server.tasks then
        (n, if n.server.tasks[t].schemaVersion == "1" then Got(n.server.tasks[t]) else Refused)
      else (n, if k + 1 < POLL_MAX_ATTEMPTS then Polling(t, k + 1) else GaveUp)
    case Got(r) => (n.(cache := n.cache[id := r]), Answered(r))
    case _ => (n, call.stage)
  }

  function Happen(handlers: set<string>, n: Net, ev: Event): Net {
    match ev
    case Serve(a) => n.(server := PeerTasks.Do(handlers, n.server, a))
    case Invoke(e) => n.(calls := n.calls + [Invocation(e, Begun)])
    case Proceed(c) =>
      if c < |n.calls| then
        var (next, stage) := Continue(handlers, n, n.calls[c]);
        next.(calls := n.calls[c := n.calls[c].(stage := stage)])
      else n
  }

  function HappenAll(handlers: set<string>, n: Net, events: seq<Event>): Net
    decreases |events|
  {
    if events == [] then n else HappenAll(handlers, Happen(handlers, n, events[0]), events[1..])
  }

  const SILENT := Net(PeerTasks.EMPTY, map[], [])

  // ----- What every run keeps -----

  ghost predicate StageOk(s: Server, call: Invocation) {
    var id := call.envelope.messageId;
    match call.stage
    case Posting(p) => p < |s.posts| && s.posts[p].envelope == call.envelope
    case Polling(t, k) => k == 0 && t in s.tasks && Was(s, id, s.tasks[t])
    case Got(r) => Was(s, id, r)
    case Answered(r) => Was(s, id, r)
    case GaveUp => false
    case _ => true
  }

  ghost predicate NetOk(n: Net) {
    && Honest(n.server)
    && (forall id :: id in n.cache ==> Was(n.server, id, n.cache[id]))
    && (forall c :: 0 <= c < |n.calls| ==> StageOk(n.server, n.calls[c]))
  }

  /** What the server's own actions leave alone. */
  ghost predicate Grows(s: Server, e: Server) {
    && |s.posts| <= |e.posts|
    && (forall p :: 0 <= p < |s.posts| ==> e.posts[p].envelope == s.posts[p].envelope)
    && (forall t :: t in s.tasks ==> t in e.tasks && e.tasks[t] == s.tasks[t])
    && (forall id, r :: Was(s, id, r) ==> Was(e, id, r))
  }

  lemma PostsStay(handlers: set<string>, s: Server, a: PeerTasks.Action)
    ensures var e := PeerTasks.Do(handlers, s, a);
      && |s.posts| <= |e.posts| && s.produced <= e.produced
      && forall p :: 0 <= p < |s.posts| ==> e.posts[p].envelope == s.posts[p].envelope
  {
    hide PeerTasks.StepPost;
    if a.Step? && a.p < |s.posts| { OnePostSteps(handlers, s, a.p); }
  }

  lemma OnePostSteps(handlers: set<string>, s: Server, p: nat)
    requires p < |s.posts|
    ensures var e := PeerTasks.StepPost(handlers, s, p);
      && e.produced == s.produced && |e.posts| == |s.posts|
      && e.posts == s.posts[p := e.posts[p]] && e.posts[p].envelope == s.posts[p].envelope
  {
  }

  lemma ServerGrows(handlers: set<string>, s: Server, a: PeerTasks.Action)
    requires Honest(s)
    ensures Honest(PeerTasks.Do(handlers, s, a)) && Grows(s, PeerTasks.Do(handlers, s, a))
  {
    hide Honest, PeerTasks.Do;
    HonestStep(handlers, s, a);
    PostsStay(handlers, s, a);
    ProducedGrows(s, PeerTasks.Do(handlers, s, a));
  }

  lemma StagesStay(s: Server, e: Server, calls: seq<Invocation>)
    requires Grows(s, e) && forall c :: 0 <= c < |calls| ==> StageOk(s, calls[c])
    ensures forall c :: 0 <= c < |calls| ==> StageOk(e, calls[c])
  {
    hide Was;
    forall c | 0 <= c < |calls| ensures StageOk(e, calls[c]) { assert StageOk(s, calls[c]); }
  }

  lemma ServeKeeps(handlers: set<string>, n: Net, a: PeerTasks.Action)
    requires NetOk(n)
    ensures NetOk(Happen(handlers, n, Serve(a)))
  {
    hide Honest, StageOk;
    ServerGrows(handlers, n.server, a);
    StagesStay(n.server, PeerTasks.Do(handlers, n.server, a), n.calls);
  }

  /** The POST that a call waits for has been answered with a task that is there, or refused. */
  lemma ReplyIsThere(s: Server, p: nat)
    requires Honest(s) && p < |s.posts| && s.posts[p].phase.Replied?
    ensures var t := s.posts[p].phase.taskId; t in s.tasks && Was(s, s.posts[p].envelope.messageId, s.tasks[t])
  {
    assert PostOk(s, s.posts[p]);
  }

  lemma ContinueKeeps(handlers: set<string>, n: Net, call: Invocation)
    requires NetOk(n) && StageOk(n.server, call)
    ensures var (next, stage) := Continue(handlers, n, call);
      NetOk(next) && StageOk(next.server, call.(stage := stage)) && next.calls == n.calls
  {
    hide Honest, Was;
    match call.stage {
      case Begun =>
        if call.envelope.messageId !in n.cache { ServeKeeps(handlers, n, Receive(call.envelope)); }
      case Posting(p) => if n.server.posts[p].phase.Replied? { ReplyIsThere(n.server, p); }
      case _ =>
    }
  }

  lemma HappenKeeps(handlers: set<string>, n: Net, ev: Event)
    requires NetOk(n)
    ensures NetOk(Happen(handlers, n, ev))
  {
    hide Honest, StageOk, Continue, Was;
    match ev {
      case Serve(a) => ServeKeeps(handlers, n, a);
      case Invoke(e) => NewCallOk(n.server, e);
      case Proceed(c) => if c < |n.calls| { ContinueKeeps(handlers, n, n.calls[c]); }
    }
  }

  lemma NewCallOk(s: Server, e: Envelope)
    ensures StageOk(s, Invocation(e, Begun))
  {
  }

  lemma {:induction false} RunKeeps(handlers: set<string>, n: Net, events: seq<Event>)
    requires NetOk(n)
    ensures NetOk(HappenAll(handlers, n, events))
    decreases |events|
  {
    hide NetOk, Happen;
    if events != [] {
      HappenKeeps(handlers, n, events[0]);
      RunKeeps(handlers, Happen(handlers, n, events[0]), events[1..]);
    }
  }

  /**
   Over every interleaving: no call ever gives up, a polling call is at its first attempt and would be
   served now, and every answer, cached or returned, was produced by a handler run for its message.
   */
  lemma InvokeNeverWaitsInVain(handlers: set<string>, events: seq<Event>)
    ensures var n := HappenAll(handlers, SILENT, events);
      && (forall c :: 0 <= c < |n.calls| ==> !n.calls[c].stage.GaveUp?)
      && (forall c :: 0 <= c < |n.calls| && n.calls[c].stage.Polling? ==>
            n.calls[c].stage.attempts == 0 && n.calls[c].stage.task in n.server.tasks)
      && (forall c :: 0 <= c < |n.calls| && n.calls[c].stage.Answered? ==>
            Was(n.server, n.calls[c].envelope.messageId, n.calls[c].stage.response))
      && (forall id :: id in n.cache ==> Was(n.server, id, n.cache[id]))
  {
    hide Was;
    RunKeeps(handlers, SILENT, events);
    var n := HappenAll(handlers, SILENT, events);
    forall c | 0 <= c < |n.calls| ensures StageOk(n.server, n.calls[c]) {}
  }

  // ----- Agreement -----

  /** The server's actions are free of races. */
  predicate NetRaceFree(handlers: set<string>, n: Net, events: seq<Event>)
    decreases |events|
  {
    events == [] || (
      && (events[0].Serve? ==> !Races(handlers, n.server, events[0].a))
      && NetRaceFree(handlers, Happen(handlers, n, events[0]), events[1..]))
  }

  lemma ServerStaysAlone(handlers: set<string>, s: Server, a: PeerTasks.Action)
    requires OneAtATime(s) && !Races(handlers, s, a)
    ensures OneAtATime(PeerTasks.Do(handlers, s, a))
  {
    hide OneAtATime, StepPost, Races;
    match a {
      case Receive(e) => OneAtATimeReceive(handlers, s, e);
      case Step(p) => if p < |s.posts| { OneAtATimeStep(handlers, s, p); }
      case HandlerDone(p, r) => if p < |s.posts| && s.posts[p].phase.Running? { OneAtATimeDone(handlers, s, p, r); }
    }
  }

  lemma {:induction false} NetStaysAlone(handlers: set<string>, n: Net, events: seq<Event>)
    requires OneAtATime(n.server) && NetRaceFree(handlers, n, events)
    ensures OneAtATime(HappenAll(handlers, n, events).server)
    decreases |events|
  {
    hide OneAtATime, PeerTasks.Do, Races;
    if events != [] {
      match events[0] {
        case Serve(a) => ServerStaysAlone(handlers, n.server, a);
        case Invoke(_) =>
        case Proceed(c) =>
          if c < |n.calls| {
            ReceiveNeverRaces(handlers, n.server, n.calls[c].envelope);
            ServerStaysAlone(handlers, n.server, Receive(n.calls[c].envelope));
          }
      }
      NetStaysAlone(handlers, Happen(handlers, n, events[0]), events[1..]);
    }
  }

  lemma ReceiveNeverRaces(handlers: set<string>, s: Server, e: Envelope)
    ensures !Races(handlers, s, Receive(e))
  {
  }

  lemma {:induction false} WasCounts(produced: seq<Produced>, id: string, r: Envelope)
    requires Produced(id, r) in produced
    ensures r in ProducedFor(produced, id)
  {
    var k := |produced| - 1;
    if produced[k] != Produced(id, r) {
      assert produced == produced[..k] + [produced[k]];
      WasCounts(produced[..k], id, r);
    }
  }

  lemma OneResponse(handlers: set<string>, events: seq<Event>, id: string, r: Envelope, r': Envelope)
    requires NetRaceFree(handlers, SILENT, events)
    requires var n := HappenAll(handlers, SILENT, events); Was(n.server, id, r) && Was(n.server, id, r')
    ensures r == r'
  {
    hide ProducedFor, OneAtATime, HappenAll;
    EmptyIsFine();
    NetStaysAlone(handlers, SILENT, events);
    var s := HappenAll(handlers, SILENT, events).server;
    OneSuccess(s, id);
    WasCounts(s.produced, id, r);
    WasCounts(s.produced, id, r');
  }

  /** Without races, all calls for one message are answered alike, and by what the shared cache holds for it. */
  lemma RaceFreeAnswersAgree(handlers: set<string>, events: seq<Event>, c: nat, d: nat)
    requires NetRaceFree(handlers, SILENT, events)
    requires var calls := HappenAll(handlers, SILENT, events).calls;
      c < |calls| && d < |calls| && calls[c].stage.Answered? && calls[d].stage.Answered?
    ensures var n := HappenAll(handlers, SILENT, events);
      var id := n.calls[c].envelope.messageId;
      && (n.calls[d].envelope.messageId == id ==> n.calls[d].stage.response == n.calls[c].stage.response)
      && (id in n.cache ==> n.cache[id] == n.calls[c].stage.response)
  {
    hide HappenAll, NetRaceFree, Was;
    InvokeNeverWaitsInVain(handlers, events);
    var n := HappenAll(handlers, SILENT, events);
    var id := n.calls[c].envelope.messageId;
    if n.calls[d].envelope.messageId == id {
      OneResponse(handlers, events, id, n.calls[d].stage.response, n.calls[c].stage.response);
    }
    if id in n.cache { OneResponse(handlers, events, id, n.cache[id], n.calls[c].stage.response); }
  }

  // ----- One call alone -----

  /** What a server of the concurrent kind is to a client that is alone with it. */
  function Abstract(s: Server): ServerState {
    ServerState(s.idempotency, s.tasks, s.nextTask, |s.begun|)
  }

  lemma {:induction false} DoAllSnoc(handlers: set<string>, s: Server, acts: seq<PeerTasks.Action>, a: PeerTasks.Action)
    ensures PeerTasks.DoAll(handlers, s, acts + [a]) == PeerTasks.Do(handlers, PeerTasks.DoAll(handlers, s, acts), a)
    decreases |acts|
  {
    hide PeerTasks.Do;
    if acts == [] {
      assert [a][1..] == [];
    } else {
      assert (acts + [a])[1..] == acts[1..] + [a];
      DoAllSnoc(handlers, PeerTasks.Do(handlers, s, acts[0]), acts[1..], a);
    }
  }

  /** The run so far and the state it has reached, one action longer. */
  lemma More(handlers: set<string>, s: Server, acts: seq<PeerTasks.Action>, e: Server, a: PeerTasks.Action)
    returns (acts': seq<PeerTasks.Action>, e': Server)
    requires PeerTasks.DoAll(handlers, s, acts) == e
    ensures e' == PeerTasks.Do(handlers, e, a) && PeerTasks.DoAll(handlers, s, acts') == e'
  {
    DoAllSnoc(handlers, s, acts, a);
    acts', e' := acts + [a], PeerTasks.Do(handlers, e, a);
  }

  /** A POST that has arrived, left alone with the server, ends as the sequential server would have it. */
  lemma PostAlone(handlers: set<string>, h: Handler, s: Server, p: nat) returns (acts: seq<PeerTasks.Action>, e: Server)
    requires p < |s.posts| && s.posts[p].phase.Arrived?
    ensures PeerTasks.DoAll(handlers, s, acts) == e
    ensures var (s', reply) := PostTask(handlers, h, Abstract(s), s.posts[p].envelope);
      && Abstract(e) == s' && p < |e.posts|
      && e.posts[p].phase == if reply.Ok? then Replied(reply.value) else Rejected
  {
    hide PeerTasks.DoAll;
    var m := s.posts[p].envelope;
    var none: seq<PeerTasks.Action> := [];
    assert PeerTasks.DoAll(handlers, s, none) == s by { NothingDone(handlers, s); }
    acts, e := More(handlers, s, none, s, Step(p));
    if m.messageId in s.idempotency {
      acts, e := More(handlers, s, acts, e, Step(p));
    } else if m.schemaVersion == "1" && m.messageType in handlers {
      acts, e := More(handlers, s, acts, e, Step(p));
      acts, e := More(handlers, s, acts, e, HandlerDone(p, h(m, |s.begun|)));
      if h(m, |s.begun|).Ok? {
        acts, e := More(handlers, s, acts, e, Step(p));
        acts, e := More(handlers, s, acts, e, Step(p));
      }
    }
  }

  lemma NothingDone(handlers: set<string>, s: Server)
    ensures PeerTasks.DoAll(handlers, s, []) == s
  {
  }

  lemma {:induction false} HappenAppend(handlers: set<string>, n: Net, a: seq<Event>, b: seq<Event>)
    ensures HappenAll(handlers, n, a + b) == HappenAll(handlers, HappenAll(handlers, n, a), b)
    decreases |a|
  {
    hide Happen;
    if a == [] {
      assert a + b == b;
    } else {
      assert (a + b)[1..] == a[1..] + b;
      HappenAppend(handlers, Happen(handlers, n, a[0]), a[1..], b);
    }
  }

  lemma HappenOne(handlers: set<string>, n: Net, ev: Event)
    ensures HappenAll(handlers, n, [ev]) == Happen(handlers, n, ev)
  {
    hide Happen;
    assert [ev][1..] == [];
  }

  function Serves(acts: seq<PeerTasks.Action>): seq<Event> {
    if acts == [] then [] else [Serve(acts[0])] + Serves(acts[1..])
  }

  lemma {:induction false} ServerRuns(handlers: set<string>, n: Net, acts: seq<PeerTasks.Action>)
    ensures HappenAll(handlers, n, Serves(acts)) == n.(server := PeerTasks.DoAll(handlers, n.server, acts))
    decreases |acts|
  {
    hide PeerTasks.Do;
    if acts != [] {
      assert Serves(acts)[1..] == Serves(acts[1..]);
      ServerRuns(handlers, Happen(handlers, n, Serve(acts[0])), acts[1..]);
    }
  }

  lemma Proceeds(handlers: set<string>, n: Net, events: seq<Event>, e: Net, ev: Event)
    returns (events': seq<Event>, e': Net)
    requires HappenAll(handlers, n, events) == e
    ensures e' == Happen(handlers, e, ev) && HappenAll(handlers, n, events') == e'
  {
    HappenAppend(handlers, n, events, [ev]);
    HappenOne(handlers, e, ev);
    events', e' := events + [ev], Happen(handlers, e, ev);
  }

  /** Where a finished call stands, by its answer. */
  function Outcome(answer: Result<Envelope, PeerError>): Stage {
    match answer
    case Ok(r) => Answered(r)
    case Err(TimedOut) => GaveUp
    case Err(_) => Refused
  }

  /** What one call alone leaves, wherever it began. */
  ghost predicate EndsAsInvoke(handlers: set<string>, h: Handler, n: Net, c: nat, e: Net)
    requires c < |n.calls|
  {
    var (cache', s', answer) := PeerInvocation.Invoke(handlers, h, n.cache, Abstract(n.server), n.calls[c].envelope);
    && e.cache == cache' && Abstract(e.server) == s'
    && e.calls == n.calls[c := n.calls[c].(stage := Outcome(answer))]
  }

  /**
   One call left alone with the concurrent server is the sequential `invoke`: some schedule of its own
   actions, its POST's and the handler's leaves cache, server and answer exactly as that says.
   */
  lemma CallAlone(handlers: set<string>, h: Handler, n: Net, c: nat) returns (events: seq<Event>, e: Net)
    requires c < |n.calls| && n.calls[c].stage.Begun?
    ensures HappenAll(handlers, n, events) == e && EndsAsInvoke(handlers, h, n, c, e)
  {
    hide PeerTasks.DoAll, HappenAll, Abstract, PostTask;
    var call, id := n.calls[c], n.calls[c].envelope.messageId;
    events := [Proceed(c)];
    e := Happen(handlers, n, Proceed(c));
    HappenOne(handlers, n, Proceed(c));
    if id !in n.cache {
      var p := |n.server.posts|;
      SameToClient(n.server, call.envelope);
      var acts, s := PostAlone(handlers, h, e.server, p);
      ServerRuns(handlers, e, acts);
      HappenAppend(handlers, n, events, Serves(acts));
      events, e := events + Serves(acts), e.(server := s);
      events, e := Proceeds(handlers, n, events, e, Proceed(c));
      assert e.calls == n.calls[c := e.calls[c]];
      PostedTaskIsFound(handlers, h, Abstract(n.server), call.envelope);
      TasksOf(s);
      if e.calls[c].stage.Polling? {
        events, e := Proceeds(handlers, n, events, e, Proceed(c));
        assert e.calls == n.calls[c := e.calls[c]];
        if e.calls[c].stage.Got? { events, e := Proceeds(handlers, n, events, e, Proceed(c)); }
      }
    }
    FirstPollSuffices(handlers, h, n.cache, Abstract(n.server), call.envelope);
    assert e.calls == n.calls[c := e.calls[c]];
  }

  /** A POST that has only arrived makes no difference. */
  lemma SameToClient(s: Server, e: Envelope)
    ensures Abstract(s.(posts := s.posts + [Post(e, Arrived)])) == Abstract(s)
  {
  }

  lemma TasksOf(s: Server)
    ensures Abstract(s).tasks == s.tasks
  {
  }

  // ----- A peer that never has the task -----

  function Again(c: nat, k: nat): seq<Event> { seq(k, _ => Proceed(c)) }

  function AtStage(n: Net, c: nat, stage: Stage): Net
    requires c < |n.calls|
  {
    n.(calls := n.calls[c := n.calls[c].(stage := stage)])
  }

  /**
   Were a peer to answer a POST with a task it does not have, the call would not hang: it polls as often
   as it may and then gives up.
   */
  lemma {:induction false} PollingIsBounded(handlers: set<string>, n: Net, c: nat, t: nat, k: nat, j: nat)
    requires c < |n.calls| && n.calls[c].stage == Polling(t, k) && t !in n.server.tasks
    requires k < POLL_MAX_ATTEMPTS && k + j <= POLL_MAX_ATTEMPTS
    ensures HappenAll(handlers, n, Again(c, j)) ==
            AtStage(n, c, if k + j < POLL_MAX_ATTEMPTS then Polling(t, k + j) else GaveUp)
    decreases j
  {
    if j == 0 {
      assert n.calls[c := n.calls[c].(stage := Polling(t, k))] == n.calls;
    } else {
      assert Again(c, j)[1..] == Again(c, j - 1);
      var next := Happen(handlers, n, Proceed(c));
      if k + 1 < POLL_MAX_ATTEMPTS {
        PollingIsBounded(handlers, next, c, t, k + 1, j - 1);
      } else {
        assert Again(c, 0) == [];
      }
    }
  }
}
