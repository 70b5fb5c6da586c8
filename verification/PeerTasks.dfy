/**
 Peer tasks: POST with an idempotency cache, GET by task id, and a client that posts once and polls.
 The first half runs any number of POSTs concurrently; the second composes the client with the server.
 */
module PeerTasks {
  import opened Basics

  datatype Envelope = Envelope(schemaVersion: string, messageId: string, messageType: string, payload: string)

  // ----- Concurrent POSTs -----

  datatype Phase =
    | Arrived
    | Replaying(cached: Envelope)      // found in the cache, about to store it under a new task id
    | Accepted                         // not in the cache, accepted, about to call the handler
    | Running                          // inside the handler
    | Returned(response: Envelope)     // about to fill the cache
    | Cached(response: Envelope)       // about to store the response under a new task id
    | Replied(taskId: nat)
    | Rejected

  datatype Post = Post(envelope: Envelope, phase: Phase)

  /** History: which message each handler run was for, which runs produced what, which task answered which message. */
  datatype Produced = Produced(messageId: string, response: Envelope)
  datatype Issued = Issued(taskId: nat, messageId: string)

  datatype Server = Server(
    idempotency: map<string, Envelope>, tasks: map<nat, Envelope>, nextTask: nat, posts: seq<Post>,
    begun: seq<string>, produced: seq<Produced>, issued: seq<Issued>)

  datatype Action =
    | Receive(envelope: Envelope)
    | Step(p: nat)
    | HandlerDone(p: nat, result: Result<Envelope, string>)

  function SetPhase(s: Server, p: nat, phase: Phase): Server
    requires p < |s.posts|
  {
    s.(posts := s.posts[p := s.posts[p].(phase := phase)])
  }

  /** Store a response under a fresh task id and reply. */
  function Issue(s: Server, p: nat, response: Envelope): Server
    requires p < |s.posts|
  {
    SetPhase(s, p, Replied(s.nextTask)).(
      tasks := s.tasks[s.nextTask := response], nextTask := s.nextTask + 1,
      issued := s.issued + [Issued(s.nextTask, s.posts[p].envelope.messageId)])
  }

  function StepPost(handlers: set<string>, s: Server, p: nat): Server
    requires p < |s.posts|
  {
    var e := s.posts[p].envelope;
    match s.posts[p].phase
    case Arrived =>
      if e.messageId in s.idempotency then SetPhase(s, p, Replaying(s.idempotency[e.messageId]))
      else if e.schemaVersion != "1" || e.messageType !in handlers then SetPhase(s, p, Rejected)
      else SetPhase(s, p, Accepted)
    case Accepted => SetPhase(s, p, Running).(begun := s.begun + [e.messageId])
    case Replaying(cached) => Issue(s, p, cached)
    case Returned(response) =>
      SetPhase(s, p, Cached(response)).(idempotency := s.idempotency[e.messageId := response])
    case Cached(response) => Issue(s, p, response)
    case _ => s
  }

  function Do(handlers: set<string>, s: Server, a: Action): Server {
    match a
    case Receive(e) => s.(posts := s.posts + [Post(e, Arrived)])
    case Step(p) => if p < |s.posts| then StepPost(handlers, s, p) else s
    case HandlerDone(p, result) =>
      if p < |s.posts| && s.posts[p].phase.Running? then
        (match result
         case Err(_) => SetPhase(s, p, Rejected)
         case Ok(r) =>
           SetPhase(s, p, Returned(r)).(produced := s.produced + [Produced(s.posts[p].envelope.messageId, r)]))
      else s
  }

  function DoAll(handlers: set<string>, s: Server, actions: seq<Action>): Server
    decreases |actions|
  {
    if actions == [] then s else DoAll(handlers, Do(handlers, s, actions[0]), actions[1..])
  }

  const EMPTY := Server(map[], map[], 0, [], [], [], [])

  function Runs(begun: seq<string>, id: string): nat {
    if begun == [] then 0 else Runs(begun[..|begun| - 1], id) + if begun[|begun| - 1] == id then 1 else 0
  }

  /** POSTs of a message that have passed the cache check and not yet called the handler. */
  function AboutToRun(posts: seq<Post>, id: string): nat {
    if posts == [] then 0
    else (if posts[0].phase.Accepted? && posts[0].envelope.messageId == id then 1 else 0) + AboutToRun(posts[1..], id)
  }

  lemma {:induction false} AboutToRunUpdate(posts: seq<Post>, p: nat, post: Post, id: string)
    requires p < |posts| && post.envelope == posts[p].envelope
    ensures AboutToRun(posts[p := post], id)
        + (if posts[p].phase.Accepted? && post.envelope.messageId == id then 1 else 0)
         == AboutToRun(posts, id) + (if post.phase.Accepted? && post.envelope.messageId == id then 1 else 0)
  {
    if p == 0 {
      assert posts[p := post][1..] == posts[1..];
    } else {
      assert posts[p := post][1..] == posts[1..][p - 1 := post];
      AboutToRunUpdate(posts[1..], p - 1, post, id);
    }
  }

  lemma {:induction false} AboutToRunSnoc(posts: seq<Post>, post: Post, id: string)
    requires !post.phase.Accepted?
    ensures AboutToRun(posts + [post], id) == AboutToRun(posts, id)
  {
    if posts == [] {
      assert posts + [post] == [post] && [post][1..] == [];
    } else {
      assert (posts + [post])[1..] == posts[1..] + [post];
      AboutToRunSnoc(posts[1..], post, id);
    }
  }

  /** One POST moves; one for a cached message does not pass the cache check. */
  lemma OneMoves(handlers: set<string>, s: Server, p: nat, id: string)
    requires id in s.idempotency && p < |s.posts|
    ensures var n := StepPost(handlers, s, p);
      && id in n.idempotency
      && |n.posts| == |s.posts| && n.posts == s.posts[p := n.posts[p]] && n.posts[p].envelope == s.posts[p].envelope
      && n.begun == (if s.posts[p].phase.Accepted? then s.begun + [s.posts[p].envelope.messageId] else s.begun)
      && (s.posts[p].envelope.messageId == id ==> !n.posts[p].phase.Accepted?)
  {
  }

  lemma CachedStep(handlers: set<string>, s: Server, a: Action, id: string)
    requires id in s.idempotency
    ensures var n := Do(handlers, s, a);
      id in n.idempotency && Runs(n.begun, id) + AboutToRun(n.posts, id) == Runs(s.begun, id) + AboutToRun(s.posts, id)
  {
    hide AboutToRun, Runs, StepPost;
    var n := Do(handlers, s, a);
    match a {
      case Receive(e) => AboutToRunSnoc(s.posts, Post(e, Arrived), id);
      case Step(p) =>
        if p < |s.posts| {
          OneMoves(handlers, s, p, id);
          AboutToRunUpdate(s.posts, p, n.posts[p], id);
          RunsSnoc(s.begun, s.posts[p].envelope.messageId, id);
        }
      case HandlerDone(p, _) => if p < |s.posts| { AboutToRunUpdate(s.posts, p, n.posts[p], id); }
    }
  }

  lemma RunsSnoc(begun: seq<string>, last: string, id: string)
    ensures Runs(begun + [last], id) == Runs(begun, id) + if last == id then 1 else 0
  {
    assert (begun + [last])[..|begun|] == begun;
  }

  /**
   Once a message id is cached it stays cached, and the handler runs that still begin for it are those
   of POSTs that had passed the cache check before: no POST that arrives later runs the handler.
   */
  lemma {:induction false} CachedNeverRunsAgain(handlers: set<string>, s: Server, actions: seq<Action>, id: string)
    requires id in s.idempotency
    ensures var e := DoAll(handlers, s, actions);
      && id in e.idempotency
      && Runs(e.begun, id) + AboutToRun(e.posts, id) == Runs(s.begun, id) + AboutToRun(s.posts, id)
    decreases |actions|
  {
    hide Do;
    if actions != [] {
      CachedStep(handlers, s, actions[0], id);
      CachedNeverRunsAgain(handlers, Do(handlers, s, actions[0]), actions[1..], id);
    }
  }

  ghost predicate Was(s: Server, id: string, r: Envelope) {
    Produced(id, r) in s.produced
  }

  ghost predicate PostOk(s: Server, p: Post) {
    match p.phase
    case Replaying(r) => Was(s, p.envelope.messageId, r)
    case Returned(r) => Was(s, p.envelope.messageId, r)
    case Cached(r) => Was(s, p.envelope.messageId, r)
    case Replied(t) => t in s.tasks && Was(s, p.envelope.messageId, s.tasks[t])
    case _ => true
  }

  ghost predicate Honest(s: Server) {
    && (forall p :: 0 <= p < |s.posts| ==> PostOk(s, s.posts[p]))
    && (forall id :: id in s.idempotency ==> Was(s, id, s.idempotency[id]))
    && (forall t :: t in s.tasks ==> t < s.nextTask)
    && (forall i :: 0 <= i < |s.issued| ==>
          s.issued[i].taskId in s.tasks && Was(s, s.issued[i].messageId, s.tasks[s.issued[i].taskId]))
  }

  /** A POST moves to a phase that claims nothing false; the maps change only in honest ways. */
  lemma MovePost(s: Server, n: Server, p: nat, phase: Phase)
    requires Honest(s) && p < |s.posts| && n.posts == s.posts[p := s.posts[p].(phase := phase)]
    requires s.produced <= n.produced
    requires PostOk(n, n.posts[p])
    requires n.tasks == s.tasks && n.nextTask == s.nextTask && n.issued == s.issued
    requires forall id :: id in n.idempotency ==> Was(n, id, n.idempotency[id])
    ensures Honest(n)
  {
    ProducedGrows(s, n);
    forall q | 0 <= q < |n.posts| ensures PostOk(n, n.posts[q]) {
      if q != p { assert PostOk(s, s.posts[q]); }
    }
  }

  lemma ProducedGrows(s: Server, n: Server)
    requires s.produced <= n.produced
    ensures forall id, r :: Was(s, id, r) ==> Was(n, id, r)
  {
    forall id, r | Was(s, id, r) ensures Was(n, id, r) {
      var i :| 0 <= i < |s.produced| && s.produced[i] == Produced(id, r);
      assert n.produced[i] == s.produced[i];
    }
  }

  lemma IssueHonest(s: Server, p: nat, r: Envelope)
    requires Honest(s) && p < |s.posts| && Was(s, s.posts[p].envelope.messageId, r)
    ensures Honest(Issue(s, p, r))
    ensures forall t :: t in s.tasks ==> t in Issue(s, p, r).tasks && Issue(s, p, r).tasks[t] == s.tasks[t]
  {
    var n := Issue(s, p, r);
    forall q | 0 <= q < |n.posts| ensures PostOk(n, n.posts[q]) {
      if q != p { assert PostOk(s, s.posts[q]); }
    }
  }

  lemma HonestStep(handlers: set<string>, s: Server, a: Action)
    requires Honest(s)
    ensures Honest(Do(handlers, s, a))
    ensures forall t :: t in s.tasks ==> t in Do(handlers, s, a).tasks && Do(handlers, s, a).tasks[t] == s.tasks[t]
  {
    hide Issue, Honest;
    HonestParts(s);
    var n := Do(handlers, s, a);
    match a {
      case Receive(e) => ReceiveHonest(handlers, s, e);
      case Step(p) =>
        if p < |s.posts| {
          var id := s.posts[p].envelope.messageId;
          assert PostOk(s, s.posts[p]);
          match s.posts[p].phase {
            case Replaying(r) => IssueHonest(s, p, r);
            case Cached(r) => IssueHonest(s, p, r);
            case Arrived => MovePost(s, n, p, n.posts[p].phase);
            case Accepted => MovePost(s, n, p, Running);
            case Returned(r) => MovePost(s, n, p, Cached(r));
            case _ =>
          }
        }
      case HandlerDone(p, result) =>
        if p < |s.posts| && s.posts[p].phase.Running? {
          ProducedGrows(s, n);
          if result.Ok? { assert n.produced[|s.produced|] == Produced(s.posts[p].envelope.messageId, result.value); }
          MovePost(s, n, p, n.posts[p].phase);
        }
    }
  }

  lemma HonestParts(s: Server)
    requires Honest(s)
    ensures forall p :: 0 <= p < |s.posts| ==> PostOk(s, s.posts[p])
    ensures forall id :: id in s.idempotency ==> Was(s, id, s.idempotency[id])
  {
  }

  lemma ReceiveHonest(handlers: set<string>, s: Server, e: Envelope)
    requires Honest(s)
    ensures Honest(Do(handlers, s, Receive(e)))
  {
    var n := Do(handlers, s, Receive(e));
    forall p | 0 <= p < |n.posts| ensures PostOk(n, n.posts[p]) {
      if p < |s.posts| { assert PostOk(s, s.posts[p]); }
    }
  }

  /**
   Every task id ever issued answers its message with something a handler run produced for it, and
   keeps that answer.
   */
  lemma {:induction false} IssuedForever(handlers: set<string>, s: Server, actions: seq<Action>)
    requires Honest(s)
    ensures var e := DoAll(handlers, s, actions);
      && Honest(e)
      && forall t :: t in s.tasks ==> t in e.tasks && e.tasks[t] == s.tasks[t]
    decreases |actions|
  {
    hide Honest, Do;
    if actions != [] {
      HonestStep(handlers, s, actions[0]);
      IssuedForever(handlers, Do(handlers, s, actions[0]), actions[1..]);
    }
  }

  /**
   Whatever else is posted before or after, a poll for the task a POST was answered with finds it at
   once, and always gets the same envelope, which some handler run produced for that message.
   */
  lemma FirstPollFinds(handlers: set<string>, actions: seq<Action>, later: seq<Action>, p: nat)
    requires p < |DoAll(handlers, EMPTY, actions).posts| && DoAll(handlers, EMPTY, actions).posts[p].phase.Replied?
    ensures var s := DoAll(handlers, EMPTY, actions);
      var e, t := DoAll(handlers, s, later), s.posts[p].phase.taskId;
      t in s.tasks && t in e.tasks && e.tasks[t] == s.tasks[t] && Was(s, s.posts[p].envelope.messageId, e.tasks[t])
  {
    IssuedForever(handlers, EMPTY, actions);
    var s := DoAll(handlers, EMPTY, actions);
    assert PostOk(s, s.posts[p]);
    IssuedForever(handlers, s, later);
  }

  // ----- Races -----

  predicate Finished(p: Post) { p.phase.Replied? || p.phase.Rejected? }

  /** Between the cache check and the cache write. */
  predicate Busy(p: Post) { p.phase.Accepted? || p.phase.Running? || p.phase.Returned? }

  predicate SameMessage(s: Server, p: nat, q: nat)
    requires p < |s.posts| && q < |s.posts|
  {
    s.posts[p].envelope.messageId == s.posts[q].envelope.messageId
  }

  /** The action takes a POST past the cache check, on its way to the handler. */
  predicate Admits(handlers: set<string>, s: Server, a: Action) {
    && a.Step? && a.p < |s.posts|
    && s.posts[a.p].phase.Arrived? && StepPost(handlers, s, a.p).posts[a.p].phase.Accepted?
  }

  /** The action takes a POST past the cache check while another one of the message is between check and write. */
  predicate Races(handlers: set<string>, s: Server, a: Action) {
    && Admits(handlers, s, a)
    && exists q :: 0 <= q < |s.posts| && q != a.p && SameMessage(s, a.p, q) && Busy(s.posts[q])
  }

  predicate RaceFree(handlers: set<string>, s: Server, actions: seq<Action>)
    decreases |actions|
  {
    actions == [] || (!Races(handlers, s, actions[0]) && RaceFree(handlers, Do(handlers, s, actions[0]), actions[1..]))
  }

  function ProducedFor(produced: seq<Produced>, id: string): seq<Envelope> {
    if produced == [] then []
    else ProducedFor(produced[..|produced| - 1], id)
         + if produced[|produced| - 1].messageId == id then [produced[|produced| - 1].response] else []
  }

  /** What a POST's phase says about the cache and the handler runs for its message. */
  ghost predicate InStep(s: Server, p: Post) {
    var id := p.envelope.messageId;
    match p.phase
    case Replaying(r) => id in s.idempotency && r == s.idempotency[id]
    case Accepted => id !in s.idempotency && ProducedFor(s.produced, id) == []
    case Running => id !in s.idempotency && ProducedFor(s.produced, id) == []
    case Returned(r) => id !in s.idempotency && ProducedFor(s.produced, id) == [r]
    case Cached(r) => id in s.idempotency && r == s.idempotency[id]
    case _ => true
  }

  ghost predicate Awaited(s: Server, id: string) {
    exists p :: 0 <= p < |s.posts| && s.posts[p].envelope.messageId == id && s.posts[p].phase.Returned?
  }

  ghost predicate OneAtATime(s: Server) {
    && (forall p :: 0 <= p < |s.posts| ==> InStep(s, s.posts[p]))
    && (forall p, q :: 0 <= p < q < |s.posts| && SameMessage(s, p, q) ==> !(Busy(s.posts[p]) && Busy(s.posts[q])))
    && (forall id :: id in s.idempotency ==> ProducedFor(s.produced, id) == [s.idempotency[id]])
    // a message whose handler has succeeded is cached, or about to be
    && (forall id :: id !in s.idempotency && ProducedFor(s.produced, id) != [] ==> Awaited(s, id))
    && (forall t :: t in s.tasks ==> t < s.nextTask)
    && (forall i :: 0 <= i < |s.issued| ==>
          var (t, id) := (s.issued[i].taskId, s.issued[i].messageId);
          t in s.tasks && id in s.idempotency && s.tasks[t] == s.idempotency[id])
  }

  lemma OneAtATimeReceive(handlers: set<string>, s: Server, e: Envelope)
    requires OneAtATime(s)
    ensures OneAtATime(Do(handlers, s, Receive(e)))
  {
    var n := Do(handlers, s, Receive(e));
    forall p | 0 <= p < |n.posts| ensures InStep(n, n.posts[p]) {
      if p < |s.posts| { assert InStep(s, s.posts[p]); }
    }
    forall id | id !in n.idempotency && ProducedFor(n.produced, id) != [] ensures Awaited(n, id) {
      var p :| 0 <= p < |s.posts| && s.posts[p].envelope.messageId == id && s.posts[p].phase.Returned?;
      assert n.posts[p] == s.posts[p];
    }
    forall p, q | 0 <= p < q < |n.posts| && SameMessage(n, p, q) ensures !(Busy(n.posts[p]) && Busy(n.posts[q])) {
      if q < |s.posts| { assert SameMessage(s, p, q); }
    }
  }

  /** A POST of a cached message, or one not yet begun, moves on without touching what was produced. */
  lemma OneAtATimeIssue(s: Server, p: nat, r: Envelope)
    requires OneAtATime(s) && p < |s.posts|
    requires var id := s.posts[p].envelope.messageId; id in s.idempotency && r == s.idempotency[id]
    requires !s.posts[p].phase.Returned?
    ensures OneAtATime(Issue(s, p, r))
  {
    hide ProducedFor;
    var n := Issue(s, p, r);
    forall q | 0 <= q < |n.posts| ensures InStep(n, n.posts[q]) { assert InStep(s, s.posts[q]); }
    StillReturned(s, n, p);
    StillAlone(s, n, p);
  }

  /** When one POST moves to a phase that is not Busy, or was the only one of its message that is, no two are. */
  lemma StillAlone(s: Server, n: Server, p: nat)
    requires OneAtATime(s) && p < |s.posts| && |n.posts| == |s.posts|
    requires forall q :: 0 <= q < |s.posts| && q != p ==> n.posts[q] == s.posts[q]
    requires n.posts[p].envelope == s.posts[p].envelope
    requires Busy(n.posts[p]) ==> forall q :: 0 <= q < |s.posts| && q != p && SameMessage(s, p, q) ==> !Busy(s.posts[q])
    ensures forall i, j :: 0 <= i < j < |n.posts| && SameMessage(n, i, j) ==> !(Busy(n.posts[i]) && Busy(n.posts[j]))
  {
    hide ProducedFor, Busy;
    forall i, j | 0 <= i < j < |n.posts| && SameMessage(n, i, j) ensures !(Busy(n.posts[i]) && Busy(n.posts[j])) {
      assert SameMessage(s, i, j) && SameMessage(s, j, i);
      if i == p { assert n.posts[j] == s.posts[j]; }
      if j == p { assert n.posts[i] == s.posts[i]; }
    }
  }

  lemma StillReturned(s: Server, n: Server, p: nat)
    requires OneAtATime(s) && p < |s.posts| && |n.posts| == |s.posts|
    requires forall q :: 0 <= q < |s.posts| && q != p ==> n.posts[q] == s.posts[q]
    requires !s.posts[p].phase.Returned? && n.produced == s.produced && n.idempotency == s.idempotency
    ensures forall id :: id !in n.idempotency && ProducedFor(n.produced, id) != [] ==> Awaited(n, id)
  {
    hide ProducedFor;
    forall id | id !in n.idempotency && ProducedFor(n.produced, id) != [] ensures Awaited(n, id) {
      var q :| 0 <= q < |s.posts| && s.posts[q].envelope.messageId == id && s.posts[q].phase.Returned?;
      assert n.posts[q] == s.posts[q];
    }
  }

  lemma OneAtATimeMove(s: Server, n: Server, p: nat, phase: Phase)
    requires OneAtATime(s) && p < |s.posts| && !s.posts[p].phase.Returned? && !Finished(s.posts[p])
    requires n == SetPhase(s, p, phase).(begun := n.begun)
    requires InStep(n, n.posts[p])
    requires Busy(n.posts[p]) ==> forall q :: 0 <= q < |s.posts| && q != p && SameMessage(s, p, q) ==> !Busy(s.posts[q])
    ensures OneAtATime(n)
  {
    hide ProducedFor;
    forall q | 0 <= q < |n.posts| ensures InStep(n, n.posts[q]) { assert InStep(s, s.posts[q]); }
    StillReturned(s, n, p);
    StillAlone(s, n, p);
  }

  /** While one POST is between check and write, no other of its message is. */
  lemma OnlyOneBusy(s: Server, p: nat)
    requires OneAtATime(s) && p < |s.posts| && Busy(s.posts[p])
    ensures forall q :: 0 <= q < |s.posts| && q != p && SameMessage(s, p, q) ==> !Busy(s.posts[q])
  {
    hide ProducedFor, InStep;
    forall q | 0 <= q < |s.posts| && q != p && SameMessage(s, p, q) ensures !Busy(s.posts[q]) {
      if q < p { assert SameMessage(s, q, p); }
    }
  }

  lemma OneAtATimeCache(handlers: set<string>, s: Server, p: nat)
    requires OneAtATime(s) && p < |s.posts| && s.posts[p].phase.Returned?
    ensures OneAtATime(StepPost(handlers, s, p))
  {
    hide ProducedFor;
    var n := StepPost(handlers, s, p);
    OnlyOneBusy(s, p);
    assert InStep(s, s.posts[p]);
    forall q | 0 <= q < |n.posts| ensures InStep(n, n.posts[q]) {
      assert InStep(s, s.posts[q]);
      assert q != p ==> n.posts[q] == s.posts[q];
      assert q != p && SameMessage(s, p, q) ==> !Busy(s.posts[q]);
    }
    StillAlone(s, n, p);
    forall id | id !in n.idempotency && ProducedFor(n.produced, id) != [] ensures Awaited(n, id) {
      var q :| 0 <= q < |s.posts| && s.posts[q].envelope.messageId == id && s.posts[q].phase.Returned?;
      assert n.posts[q] == s.posts[q];
    }
  }

  lemma NothingProduced(s: Server, p: nat)
    requires OneAtATime(s) && p < |s.posts| && s.posts[p].phase.Arrived?
    requires forall q :: 0 <= q < |s.posts| && q != p && SameMessage(s, p, q) ==> !Busy(s.posts[q])
    ensures var id := s.posts[p].envelope.messageId; id !in s.idempotency ==> ProducedFor(s.produced, id) == []
  {
    hide ProducedFor;
    var id := s.posts[p].envelope.messageId;
    assert forall q :: 0 <= q < |s.posts| && s.posts[q].envelope.messageId == id ==> q == p || SameMessage(s, p, q);
  }

  lemma OneAtATimeArrived(handlers: set<string>, s: Server, p: nat)
    requires OneAtATime(s) && p < |s.posts| && s.posts[p].phase.Arrived? && !Races(handlers, s, Step(p))
    ensures OneAtATime(StepPost(handlers, s, p))
  {
    hide ProducedFor;
    var n := StepPost(handlers, s, p);
    if n.posts[p].phase.Accepted? {
      forall q | 0 <= q < |s.posts| && q != p && SameMessage(s, p, q) ensures !Busy(s.posts[q]) {}
      NothingProduced(s, p);
    }
    OneAtATimeMove(s, n, p, n.posts[p].phase);
  }

  lemma OneAtATimeBegin(handlers: set<string>, s: Server, p: nat)
    requires OneAtATime(s) && p < |s.posts| && s.posts[p].phase.Accepted?
    ensures OneAtATime(StepPost(handlers, s, p))
  {
    hide ProducedFor;
    OnlyOneBusy(s, p);
    assert InStep(s, s.posts[p]);
    OneAtATimeMove(s, StepPost(handlers, s, p), p, Running);
  }

  lemma OneAtATimeStep(handlers: set<string>, s: Server, p: nat)
    requires OneAtATime(s) && p < |s.posts| && !Races(handlers, s, Step(p))
    ensures OneAtATime(StepPost(handlers, s, p))
  {
    hide OneAtATime, ProducedFor, Issue, Races;
    assert InStep(s, s.posts[p]) by { PostInStep(s, p); }
    match s.posts[p].phase {
      case Replaying(r) => OneAtATimeIssue(s, p, r);
      case Cached(r) => OneAtATimeIssue(s, p, r);
      case Arrived => OneAtATimeArrived(handlers, s, p);
      case Accepted => OneAtATimeBegin(handlers, s, p);
      case Returned(_) => OneAtATimeCache(handlers, s, p);
      case _ =>
    }
  }

  lemma PostInStep(s: Server, p: nat)
    requires OneAtATime(s) && p < |s.posts|
    ensures InStep(s, s.posts[p])
  {
  }

  lemma OneAtATimeDone(handlers: set<string>, s: Server, p: nat, result: Result<Envelope, string>)
    requires OneAtATime(s) && p < |s.posts| && s.posts[p].phase.Running?
    ensures OneAtATime(Do(handlers, s, HandlerDone(p, result)))
  {
    hide ProducedFor;
    var n := Do(handlers, s, HandlerDone(p, result));
    var mine := s.posts[p].envelope.messageId;
    OnlyOneBusy(s, p);
    assert InStep(s, s.posts[p]);
    ProducedForOthers(s.produced, n.produced, mine);
    StillAlone(s, n, p);
    forall q | 0 <= q < |n.posts| ensures InStep(n, n.posts[q]) {
      assert InStep(s, s.posts[q]);
      assert q != p ==> n.posts[q] == s.posts[q];
      assert q != p && SameMessage(s, p, q) ==> !Busy(s.posts[q]);
    }
    forall id | id !in n.idempotency && ProducedFor(n.produced, id) != [] ensures Awaited(n, id) {
      if id == mine {
        assert n.posts[p].phase.Returned?;
      } else {
        StillAwaited(s, n, p, id);
      }
    }
  }

  lemma StillAwaited(s: Server, n: Server, p: nat, id: string)
    requires Awaited(s, id) && p < |s.posts| && |n.posts| == |s.posts| && n.posts == s.posts[p := n.posts[p]]
    requires s.posts[p].phase.Returned? && s.posts[p].envelope.messageId == id ==> n.posts[p] == s.posts[p]
    ensures Awaited(n, id)
  {
    var q :| 0 <= q < |s.posts| && s.posts[q].envelope.messageId == id && s.posts[q].phase.Returned?;
    assert n.posts[q] == s.posts[q];
  }

  lemma ProducedForOthers(before: seq<Produced>, after: seq<Produced>, mine: string)
    requires after == before
        || (|after| == |before| + 1 && after[..|before|] == before && after[|before|].messageId == mine)
    ensures forall id :: id != mine ==> ProducedFor(after, id) == ProducedFor(before, id)
    ensures ProducedFor(after, mine) ==
            ProducedFor(before, mine) + if after == before then [] else [after[|before|].response]
  {
    if after == before { assert ProducedFor(before, mine) + [] == ProducedFor(before, mine); }
  }

  lemma {:induction false} OneAtATimeRun(handlers: set<string>, s: Server, actions: seq<Action>)
    requires OneAtATime(s) && RaceFree(handlers, s, actions)
    ensures OneAtATime(DoAll(handlers, s, actions))
    decreases |actions|
  {
    hide OneAtATime, StepPost, Races;
    if actions != [] {
      match actions[0] {
        case Receive(e) => OneAtATimeReceive(handlers, s, e);
        case Step(p) => if p < |s.posts| { OneAtATimeStep(handlers, s, p); }
        case HandlerDone(p, r) => if p < |s.posts| && s.posts[p].phase.Running? { OneAtATimeDone(handlers, s, p, r); }
      }
      OneAtATimeRun(handlers, Do(handlers, s, actions[0]), actions[1..]);
    }
  }

  /** All replies to one message agree. */
  ghost predicate Agree(s: Server) {
    forall i, j :: 0 <= i < |s.issued| && 0 <= j < |s.issued| && s.issued[i].messageId == s.issued[j].messageId ==>
      && s.issued[i].taskId in s.tasks && s.issued[j].taskId in s.tasks
      && s.tasks[s.issued[i].taskId] == s.tasks[s.issued[j].taskId]
  }

  lemma OneSuccess(s: Server, id: string)
    requires OneAtATime(s)
    ensures |ProducedFor(s.produced, id)| <= 1
  {
    hide ProducedFor;
    if id !in s.idempotency && ProducedFor(s.produced, id) != [] {
      var p :| 0 <= p < |s.posts| && s.posts[p].envelope.messageId == id && s.posts[p].phase.Returned?;
      assert InStep(s, s.posts[p]);
    }
  }

  lemma RepliesAgree(s: Server)
    requires OneAtATime(s)
    ensures Agree(s)
  {
    hide ProducedFor, InStep;
  }

  lemma EmptyIsFine()
    ensures OneAtATime(EMPTY)
  {
  }

  /** Without a race, at most one handler run succeeds per message and all replies to it agree. */
  lemma RaceFreeRepliesAgree(handlers: set<string>, actions: seq<Action>)
    requires RaceFree(handlers, EMPTY, actions)
    ensures var e := DoAll(handlers, EMPTY, actions);
      Agree(e) && forall id :: |ProducedFor(e.produced, id)| <= 1
  {
    hide ProducedFor, Agree, OneAtATime;
    EmptyIsFine();
    OneAtATimeRun(handlers, EMPTY, actions);
    var e := DoAll(handlers, EMPTY, actions);
    RepliesAgree(e);
    forall id ensures |ProducedFor(e.produced, id)| <= 1 { OneSuccess(e, id); }
  }

  // ----- POSTs of one message id that do not overlap -----

  /** No POST arrives while another one for the same message id is unfinished. */
  predicate NoOverlap(handlers: set<string>, s: Server, actions: seq<Action>)
    decreases |actions|
  {
    actions == [] || (
      && (actions[0].Receive? ==>
            forall p :: 0 <= p < |s.posts| && s.posts[p].envelope.messageId == actions[0].envelope.messageId ==>
                Finished(s.posts[p]))
      && NoOverlap(handlers, Do(handlers, s, actions[0]), actions[1..]))
  }

  ghost predicate OneOpen(s: Server) {
    forall p, q :: 0 <= p < q < |s.posts| && SameMessage(s, p, q) ==> Finished(s.posts[p]) || Finished(s.posts[q])
  }

  lemma OneOpenStays(handlers: set<string>, s: Server, a: Action)
    requires OneOpen(s) && NoOverlap(handlers, s, [a])
    ensures OneOpen(Do(handlers, s, a)) && !Races(handlers, s, a)
  {
    hide NoOverlap;
    NoOverlapOne(handlers, s, a);
    var n := Do(handlers, s, a);
    forall p, q | 0 <= p < q < |n.posts| && SameMessage(n, p, q) ensures Finished(n.posts[p]) || Finished(n.posts[q]) {
      if q < |s.posts| { assert SameMessage(s, p, q); }
    }
    if a.Step? && a.p < |s.posts| && s.posts[a.p].phase.Arrived? { OthersFinished(s, a.p); }
  }

  lemma OthersFinished(s: Server, p: nat)
    requires OneOpen(s) && p < |s.posts| && !Finished(s.posts[p])
    ensures forall q :: 0 <= q < |s.posts| && q != p && SameMessage(s, p, q) ==> Finished(s.posts[q])
  {
    forall q | 0 <= q < |s.posts| && q != p && SameMessage(s, p, q) ensures Finished(s.posts[q]) {
      if q < p { assert SameMessage(s, q, p); }
    }
  }

  lemma NoOverlapOne(handlers: set<string>, s: Server, a: Action)
    requires NoOverlap(handlers, s, [a])
    ensures a.Receive? ==>
              forall p :: 0 <= p < |s.posts| && s.posts[p].envelope.messageId == a.envelope.messageId ==>
                  Finished(s.posts[p])
  {
  }

  lemma {:induction false} NoOverlapIsRaceFree(handlers: set<string>, s: Server, actions: seq<Action>)
    requires OneOpen(s) && NoOverlap(handlers, s, actions)
    ensures RaceFree(handlers, s, actions)
    decreases |actions|
  {
    hide Do, OneOpen, Races, Finished;
    if actions != [] {
      assert [actions[0]][1..] == [];
      OneOpenStays(handlers, s, actions[0]);
      NoOverlapIsRaceFree(handlers, Do(handlers, s, actions[0]), actions[1..]);
    }
  }

  /** Without overlap, at most one handler run succeeds per message and all replies to it agree. */
  lemma WithoutOverlapRepliesAgree(handlers: set<string>, actions: seq<Action>)
    requires NoOverlap(handlers, EMPTY, actions)
    ensures var e := DoAll(handlers, EMPTY, actions);
      Agree(e) && forall id :: |ProducedFor(e.produced, id)| <= 1
  {
    NoOverlapIsRaceFree(handlers, EMPTY, actions);
    RaceFreeRepliesAgree(handlers, actions);
  }

  // ----- Exactly the races are to blame -----

  /** What is on its way is finished: nothing new is posted and no further POST passes the cache check. */
  predicate Settling(handlers: set<string>, s: Server, cont: seq<Action>)
    decreases |cont|
  {
    cont == [] || (
      && !cont[0].Receive? && !Admits(handlers, s, cont[0])
      && Settling(handlers, Do(handlers, s, cont[0]), cont[1..]))
  }

  /** However the run is left off and settled, whatever the handlers answer, all replies to one message agree. */
  ghost predicate AlwaysSettlesAlike(handlers: set<string>, actions: seq<Action>) {
    forall k: nat, cont: seq<Action> ::
      k <= |actions| && Settling(handlers, DoAll(handlers, EMPTY, actions[..k]), cont) ==>
        Agree(DoAll(handlers, DoAll(handlers, EMPTY, actions[..k]), cont))
  }

  lemma {:induction false} SettlingIsRaceFree(handlers: set<string>, s: Server, cont: seq<Action>)
    requires Settling(handlers, s, cont)
    ensures RaceFree(handlers, s, cont)
    decreases |cont|
  {
    if cont != [] {
      hide Do;
      SettlingIsRaceFree(handlers, Do(handlers, s, cont[0]), cont[1..]);
    }
  }

  lemma {:induction false} RaceFreeAppend(handlers: set<string>, s: Server, a: seq<Action>, b: seq<Action>)
    ensures RaceFree(handlers, s, a + b) <==> RaceFree(handlers, s, a) && RaceFree(handlers, DoAll(handlers, s, a), b)
    ensures DoAll(handlers, s, a + b) == DoAll(handlers, DoAll(handlers, s, a), b)
    decreases |a|
  {
    hide Do, Races;
    if a == [] {
      assert a + b == b;
    } else {
      assert (a + b)[1..] == a[1..] + b && (a + b)[0] == a[0];
      RaceFreeAppend(handlers, Do(handlers, s, a[0]), a[1..], b);
    }
  }

  /** The first race of a run. */
  lemma {:induction false} FirstRace(handlers: set<string>, s: Server, actions: seq<Action>) returns (k: nat)
    requires !RaceFree(handlers, s, actions)
    ensures k < |actions| && Races(handlers, DoAll(handlers, s, actions[..k]), actions[k])
    decreases |actions|
  {
    hide Do, Races;
    if Races(handlers, s, actions[0]) {
      k := 0;
    } else {
      var j := FirstRace(handlers, Do(handlers, s, actions[0]), actions[1..]);
      k := j + 1;
      assert actions[..k][1..] == actions[1..][..j];
    }
  }

  /** One more settling action, with the state it leads to. */
  lemma SettleOne(
    handlers: set<string>, s: Server, cont: seq<Action>, e: Server, a: Action) returns (cont': seq<Action>, e': Server)
    requires Settling(handlers, s, cont) && DoAll(handlers, s, cont) == e
    requires !a.Receive? && !Admits(handlers, e, a)
    ensures e' == Do(handlers, e, a) && Settling(handlers, s, cont') && DoAll(handlers, s, cont') == e'
  {
    hide Do;
    cont', e' := cont + [a], Do(handlers, e, a);
    SettlingSnoc(handlers, s, cont, a);
  }

  lemma {:induction false} SettlingSnoc(handlers: set<string>, s: Server, cont: seq<Action>, a: Action)
    requires Settling(handlers, s, cont) && !a.Receive?
    requires !Admits(handlers, DoAll(handlers, s, cont), a)
    ensures Settling(handlers, s, cont + [a])
    ensures DoAll(handlers, s, cont + [a]) == Do(handlers, DoAll(handlers, s, cont), a)
    decreases |cont|
  {
    hide Do;
    if cont == [] {
      var one: seq<Action> := [a];
      assert one[1..] == [] && cont + [a] == one;
    } else {
      assert (cont + [a])[1..] == cont[1..] + [a];
      SettlingSnoc(handlers, Do(handlers, s, cont[0]), cont[1..], a);
    }
  }

  lemma NothingSettled(handlers: set<string>, s: Server)
    ensures Settling(handlers, s, []) && DoAll(handlers, s, []) == s
  {
  }

  /** A POST past the cache check calls the handler. */
  lemma Begin(handlers: set<string>, s: Server, cont: seq<Action>, e: Server, p: nat)
    returns (cont': seq<Action>, e': Server)
    requires Settling(handlers, s, cont) && DoAll(handlers, s, cont) == e
    requires p < |e.posts| && e.posts[p].phase.Accepted?
    ensures Settling(handlers, s, cont') && DoAll(handlers, s, cont') == e'
    ensures e' == SetPhase(e, p, Running).(begun := e.begun + [e.posts[p].envelope.messageId])
  {
    cont', e' := SettleOne(handlers, s, cont, e, Step(p));
  }

  /** A handler that is still running can return anything. */
  lemma Return(
    handlers: set<string>, s: Server, cont: seq<Action>, e: Server, p: nat, r: Envelope)
    returns (cont': seq<Action>, e': Server)
    requires Settling(handlers, s, cont) && DoAll(handlers, s, cont) == e
    requires p < |e.posts| && e.posts[p].phase.Running?
    ensures Settling(handlers, s, cont') && DoAll(handlers, s, cont') == e'
    ensures e'.posts == e.posts[p := e.posts[p].(phase := Returned(r))] && e'.tasks == e.tasks && e'.issued == e.issued
    ensures e'.nextTask == e.nextTask && e'.begun == e.begun
  {
    cont', e' := SettleOne(handlers, s, cont, e, HandlerDone(p, Ok(r)));
  }

  /** A POST whose handler has returned is cached, stored and answered. */
  lemma Answer(
    handlers: set<string>, s: Server, cont: seq<Action>, e: Server, p: nat) returns (cont': seq<Action>, e': Server)
    requires Settling(handlers, s, cont) && DoAll(handlers, s, cont) == e
    requires p < |e.posts| && e.posts[p].phase.Returned?
    ensures Settling(handlers, s, cont') && DoAll(handlers, s, cont') == e'
    ensures e'.posts == e.posts[p := e.posts[p].(phase := Replied(e.nextTask))] && e'.nextTask == e.nextTask + 1
    ensures e'.tasks == e.tasks[e.nextTask := e.posts[p].phase.response]
    ensures e'.issued == e.issued + [Issued(e.nextTask, e.posts[p].envelope.messageId)] && e'.begun == e.begun
  {
    var r := e.posts[p].phase.response;
    cont', e' := SettleOne(handlers, s, cont, e, Step(p));
    assert e'.posts[p].phase == Cached(r);
    cont', e' := SettleOne(handlers, s, cont', e', Step(p));
  }

  function Other(r: Envelope): Envelope { r.(payload := r.payload + "'") }

  /** Right after a race, the handlers can still answer so that the two replies differ. */
  lemma RaceCanDisagree(handlers: set<string>, s: Server, p: nat, q: nat) returns (cont: seq<Action>)
    requires p < |s.posts| && q < |s.posts| && p != q && SameMessage(s, p, q)
    requires s.posts[p].phase.Accepted? && Busy(s.posts[q])
    ensures Settling(handlers, s, cont) && !Agree(DoAll(handlers, s, cont))
  {
    hide Do, DoAll, Settling;
    NothingSettled(handlers, s);
    var e := s;
    cont := [];
    cont, e := Begin(handlers, s, cont, e, p);
    if e.posts[q].phase.Accepted? { cont, e := Begin(handlers, s, cont, e, q); }
    if e.posts[q].phase.Running? { cont, e := Return(handlers, s, cont, e, q, s.posts[p].envelope); }
    var r := e.posts[q].phase.response;
    cont, e := Return(handlers, s, cont, e, p, Other(r));
    var i, first := |e.issued|, e.nextTask;
    cont, e := Answer(handlers, s, cont, e, q);
    cont, e := Answer(handlers, s, cont, e, p);
    assert e.issued[i] == Issued(first, s.posts[q].envelope.messageId);
    assert e.issued[i + 1] == Issued(first + 1, s.posts[p].envelope.messageId);
    assert |Other(r).payload| != |r.payload|;
    assert e.tasks[first] == r && e.tasks[first + 1] == Other(r);
  }

  lemma RacedState(handlers: set<string>, s: Server, a: Action) returns (q: nat)
    requires Races(handlers, s, a)
    ensures var n := Do(handlers, s, a);
      && a.p < |n.posts| && q < |n.posts| && q != a.p && SameMessage(n, a.p, q)
      && n.posts[a.p].phase.Accepted? && Busy(n.posts[q])
  {
    q :| 0 <= q < |s.posts| && q != a.p && SameMessage(s, a.p, q) && Busy(s.posts[q]);
  }

  /** Replies always agree, however a run is settled, if and only if the run is free of races. */
  lemma RacesExactly(handlers: set<string>, actions: seq<Action>)
    ensures AlwaysSettlesAlike(handlers, actions) <==> RaceFree(handlers, EMPTY, actions)
  {
    hide Do, Races, Agree;
    if RaceFree(handlers, EMPTY, actions) {
      forall k: nat, cont: seq<Action>
        | k <= |actions| && Settling(handlers, DoAll(handlers, EMPTY, actions[..k]), cont)
        ensures Agree(DoAll(handlers, DoAll(handlers, EMPTY, actions[..k]), cont))
      {
        assert actions == actions[..k] + actions[k..];
        RaceFreeAppend(handlers, EMPTY, actions[..k], actions[k..]);
        SettlingIsRaceFree(handlers, DoAll(handlers, EMPTY, actions[..k]), cont);
        RaceFreeAppend(handlers, EMPTY, actions[..k], cont);
        RaceFreeRepliesAgree(handlers, actions[..k] + cont);
      }
    } else {
      var k := FirstRace(handlers, EMPTY, actions);
      var s := DoAll(handlers, EMPTY, actions[..k]);
      DoAllSnoc(handlers, EMPTY, actions[..k], actions[k]);
      assert actions[..k + 1] == actions[..k] + [actions[k]];
      var q := RacedState(handlers, s, actions[k]);
      assert actions[k].Step? by { RaceIsStep(handlers, s, actions[k]); }
      var cont := RaceCanDisagree(handlers, DoAll(handlers, EMPTY, actions[..k + 1]), actions[k].p, q);
      assert !AlwaysSettlesAlike(handlers, actions);
    }
  }

  lemma RaceIsStep(handlers: set<string>, s: Server, a: Action)
    requires Races(handlers, s, a)
    ensures a.Step?
  {
  }

  lemma {:induction false} DoAllSnoc(handlers: set<string>, s: Server, actions: seq<Action>, a: Action)
    ensures DoAll(handlers, s, actions + [a]) == Do(handlers, DoAll(handlers, s, actions), a)
    decreases |actions|
  {
    hide Do;
    if actions == [] {
      var one: seq<Action> := [a];
      assert one[1..] == [];
      assert actions + [a] == one;
    } else {
      assert (actions + [a])[1..] == actions[1..] + [a];
      DoAllSnoc(handlers, Do(handlers, s, actions[0]), actions[1..], a);
    }
  }

  lemma Then(handlers: set<string>, acts: seq<Action>, e: Server, a: Action) returns (acts': seq<Action>, e': Server)
    requires DoAll(handlers, EMPTY, acts) == e
    ensures e' == Do(handlers, e, a) && DoAll(handlers, EMPTY, acts') == e'
  {
    DoAllSnoc(handlers, EMPTY, acts, a);
    acts', e' := acts + [a], Do(handlers, e, a);
  }

  lemma NoActions(handlers: set<string>)
    ensures DoAll(handlers, EMPTY, []) == EMPTY
  {
  }

  /** Two overlapping POSTs of one message both run the handler, and may be answered differently. */
  lemma OverlappingPostsCanDisagree(
    handlers: set<string>, m: Envelope, a: Envelope, b: Envelope) returns (acts: seq<Action>)
    requires m.schemaVersion == "1" && m.messageType in handlers && a != b
    ensures var e := DoAll(handlers, EMPTY, acts);
      && e.issued == [Issued(0, m.messageId), Issued(1, m.messageId)]
      && e.tasks == map[0 := a, 1 := b]
      && Runs(e.begun, m.messageId) == 2
  {
    hide DoAll, Settling;
    var e;
    NoActions(handlers);
    acts, e := Then(handlers, [], EMPTY, Receive(m));
    acts, e := Then(handlers, acts, e, Receive(m));
    acts, e := Then(handlers, acts, e, Step(0));
    acts, e := Then(handlers, acts, e, Step(1));
    assert e.posts == [Post(m, Accepted), Post(m, Accepted)] && e.begun == [];
    var s, cont := e, [];
    NothingSettled(handlers, s);
    cont, e := Begin(handlers, s, cont, e, 0);
    cont, e := Begin(handlers, s, cont, e, 1);
    assert e.begun == [m.messageId, m.messageId];
    cont, e := Return(handlers, s, cont, e, 0, a);
    cont, e := Return(handlers, s, cont, e, 1, b);
    cont, e := Answer(handlers, s, cont, e, 0);
    cont, e := Answer(handlers, s, cont, e, 1);
    RaceFreeAppend(handlers, EMPTY, acts, cont);
    acts := acts + cont;
    RunsTwice(m.messageId);
  }

  lemma RunsTwice(id: string)
    ensures Runs([id, id], id) == 2
  {
    var both, one: seq<string> := [id, id], [id];
    assert both[..1] == one && one[..0] == [];
    assert Runs(one, id) == 1;
  }
}
