/** The client's `invoke` against a server that handles one request at a time: post once, then poll. */
module PeerInvocation {
  import opened Basics
  import opened PeerTasks

  const POLL_MAX_ATTEMPTS := 300

  datatype PeerError = UnsupportedSchema | NotAccepted | HandlerFailed(why: string) | InvalidResponse | TimedOut

  /** `runs` counts handler executions; each may answer differently. */
  datatype ServerState = ServerState(idempotency: map<string, Envelope>, tasks: map<nat, Envelope>, nextTask: nat,
    runs: nat)

  type Handler = (Envelope, nat) -> Result<Envelope, string>

  function Store(s: ServerState, response: Envelope): ServerState {
    s.(tasks := s.tasks[s.nextTask := response], nextTask := s.nextTask + 1)
  }

  /** One POST from arrival to reply: the new state and the task id. */
  function PostTask(
    handlers: set<string>, h: Handler, s: ServerState, e: Envelope): (ServerState, Result<nat, PeerError>)
  {
    if e.messageId in s.idempotency then (Store(s, s.idempotency[e.messageId]), Ok(s.nextTask))
    else if e.schemaVersion != "1" then (s, Err(UnsupportedSchema))
    else if e.messageType !in handlers then (s, Err(NotAccepted))
    else
      var ran := s.(runs := s.runs + 1);
      match h(e, s.runs)
      case Err(why) => (ran, Err(HandlerFailed(why)))
      case Ok(r) => (Store(ran.(idempotency := s.idempotency[e.messageId := r]), r), Ok(s.nextTask))
  }

  type Cache = map<string, Envelope>

  /** What `invoke` amounts to: the response is there at the first poll. */
  function Invoke(handlers: set<string>, h: Handler, cache: Cache, s: ServerState, e: Envelope)
    : (Cache, ServerState, Result<Envelope, PeerError>)
  {
    if e.messageId in cache then (cache, s, Ok(cache[e.messageId]))
    else
      match PostTask(handlers, h, s, e)
      case (s', Err(err)) => (cache, s', Err(err))
      case (s', Ok(t)) =>
        if t !in s'.tasks then (cache, s', Err(TimedOut))
        else if s'.tasks[t].schemaVersion != "1" then (cache, s', Err(InvalidResponse))
        else (cache[e.messageId := s'.tasks[t]], s', Ok(s'.tasks[t]))
  }

  /** The posted task is always found, so polling never times out, and it holds what the cache now holds. */
  lemma PostedTaskIsFound(handlers: set<string>, h: Handler, s: ServerState, e: Envelope)
    ensures var (s', r) := PostTask(handlers, h, s, e);
      r.Ok? ==> r.value in s'.tasks && e.messageId in s'.idempotency && s'.tasks[r.value] == s'.idempotency[e.messageId]
  {
  }

  /** How often the poll loop asks for the task: until it is there, or until it gives up. */
  function Polls(handlers: set<string>, h: Handler, cache: Cache, s: ServerState, e: Envelope): nat {
    if e.messageId in cache then 0
    else
      match PostTask(handlers, h, s, e)
      case (_, Err(_)) => 0
      case (s', Ok(t)) => if t in s'.tasks then 1 else POLL_MAX_ATTEMPTS
  }

  /** The first poll finds the task, so `invoke` never times out. */
  lemma FirstPollSuffices(handlers: set<string>, h: Handler, cache: Cache, s: ServerState, e: Envelope)
    ensures Polls(handlers, h, cache, s, e) <= 1
    ensures Invoke(handlers, h, cache, s, e).2 != Err(TimedOut)
  {
    PostedTaskIsFound(handlers, h, s, e);
  }

  /** A message new to client and server, of the version and of a type the server takes. */
  predicate Acceptable(handlers: set<string>, cache: Cache, s: ServerState, e: Envelope) {
    && e.messageId !in cache && e.messageId !in s.idempotency
    && e.schemaVersion == "1" && e.messageType in handlers
  }

  /**
   What a new message is answered: the handler's response, which is then cached on both sides, if it has
   the right version; and an error, with the client's cache as it was, if it has not. It costs one run.
   */
  lemma NewMessageAnswered(
    handlers: set<string>, h: Handler, cache: Cache, s: ServerState, e: Envelope, r: Envelope)
    requires Acceptable(handlers, cache, s, e) && h(e, s.runs) == Ok(r)
    ensures var (cache', s', answer) := Invoke(handlers, h, cache, s, e);
      && s'.runs == s.runs + 1 && s'.idempotency == s.idempotency[e.messageId := r]
      && Polls(handlers, h, cache, s, e) == 1
      && (if r.schemaVersion == "1" then answer == Ok(r) && cache' == cache[e.messageId := r]
          else answer == Err(InvalidResponse) && cache' == cache)
  {
  }

  /**
   What is refused, and why: another version before an unknown type before a handler's failure. Nothing is
   cached on either side, no task is issued, and only the last costs a run.
   */
  lemma NewMessageRefused(handlers: set<string>, h: Handler, cache: Cache, s: ServerState, e: Envelope, why: string)
    requires e.messageId !in cache && e.messageId !in s.idempotency
    requires !Acceptable(handlers, cache, s, e) || h(e, s.runs) == Err(why)
    ensures Invoke(handlers, h, cache, s, e) ==
            if e.schemaVersion != "1" then (cache, s, Err(UnsupportedSchema))
            else if e.messageType !in handlers then (cache, s, Err(NotAccepted))
            else (cache, s.(runs := s.runs + 1), Err(HandlerFailed(why)))
    ensures Polls(handlers, h, cache, s, e) == 0
  {
  }

  /** What was answered before is answered from the nearer cache, without a run, whatever the envelope now says. */
  lemma KnownMessageReplayed(handlers: set<string>, h: Handler, cache: Cache, s: ServerState, e: Envelope)
    requires e.messageId in cache || e.messageId in s.idempotency
    ensures var (cache', s', answer) := Invoke(handlers, h, cache, s, e);
      && s'.runs == s.runs && s'.idempotency == s.idempotency
      && (if e.messageId in cache then cache' == cache && s' == s && answer == Ok(cache[e.messageId])
          else
            var r := s.idempotency[e.messageId];
            if r.schemaVersion == "1" then cache' == cache[e.messageId := r] && answer == Ok(r)
            else cache' == cache && answer == Err(InvalidResponse))
    ensures Polls(handlers, h, cache, s, e) == if e.messageId in cache then 0 else 1
  {
  }

  /**
   A message answered once is answered the same way from then on, to this client or any other that has
   not its own answer, without another run.
   */
  lemma InvokeAgain(
    handlers: set<string>, h: Handler, cache: Cache, s: ServerState, e: Envelope, cache': Cache, e': Envelope)
    requires e.messageId !in cache && Invoke(handlers, h, cache, s, e).2.Ok?
    requires e'.messageId == e.messageId
    ensures var (c1, s1, r1) := Invoke(handlers, h, cache, s, e);
      && Invoke(handlers, h, c1, s1, e') == (c1, s1, r1)
      && (e.messageId !in cache' ==>
            var (_, s2, r2) := Invoke(handlers, h, cache', s1, e'); r2 == r1 && s2.runs == s1.runs)
  {
    PostedTaskIsFound(handlers, h, s, e);
  }

  // ----- The two objects -----

  class TaskServer {
    const handlers: set<string>
    const handler: Handler
    var idempotency: map<string, Envelope>
    var tasks: map<nat, Envelope>
    var nextTask: nat
    var runs: nat

    constructor (handlers: set<string>, handler: Handler)
      ensures this.handlers == handlers && this.handler == handler
      ensures State() == ServerState(map[], map[], 0, 0)
    {
      this.handlers, this.handler := handlers, handler;
      idempotency, tasks, nextTask, runs := map[], map[], 0, 0;
    }

    function State(): ServerState
      reads this
    {
      ServerState(idempotency, tasks, nextTask, runs)
    }

    method Post(e: Envelope) returns (reply: Result<nat, PeerError>)
      modifies this
      ensures (State(), reply) == PostTask(handlers, handler, old(State()), e)
    {
      var taskId := nextTask;
      if e.messageId in idempotency {
        tasks := tasks[taskId := idempotency[e.messageId]];
        nextTask := nextTask + 1;
        return Ok(taskId);
      }
      if e.schemaVersion != "1" { return Err(UnsupportedSchema); }
      if e.messageType !in handlers { return Err(NotAccepted); }
      var response := handler(e, runs);
      runs := runs + 1;
      if response.Err? { return Err(HandlerFailed(response.error)); }
      idempotency := idempotency[e.messageId := response.value];
      tasks := tasks[taskId := response.value];
      nextTask := nextTask + 1;
      return Ok(taskId);
    }

    method Get(taskId: nat) returns (r: Option<Envelope>)
      ensures r == if taskId in tasks then Some(tasks[taskId]) else None
    {
      r := if taskId in tasks then Some(tasks[taskId]) else None;
    }
  }

  class TaskClient {
    var cache: Cache

    constructor ()
      ensures cache == map[]
    {
      cache := map[];
    }

    /** The second result is how many polls the loop made. */
    method InvokePeer(server: TaskServer, e: Envelope) returns (r: Result<Envelope, PeerError>, polls: nat)
      modifies this, server
      ensures (cache, server.State(), r) == Invoke(server.handlers, server.handler, old(cache), old(server.State()), e)
      ensures polls == Polls(server.handlers, server.handler, old(cache), old(server.State()), e)
    {
      if e.messageId in cache { return Ok(cache[e.messageId]), 0; }
      var accepted := server.Post(e);
      if accepted.Err? { return Err(accepted.error), 0; }
      var attempt := 0;
      while attempt < POLL_MAX_ATTEMPTS
        invariant attempt <= POLL_MAX_ATTEMPTS
        invariant attempt > 0 ==> accepted.value !in server.tasks
        invariant cache == old(cache)
            && (server.State(), accepted) == PostTask(server.handlers, server.handler, old(server.State()), e)
      {
        var found := server.Get(accepted.value);
        attempt := attempt + 1;
        if found.Some? {
          if found.value.schemaVersion != "1" { return Err(InvalidResponse), attempt; }
          cache := cache[e.messageId := found.value];
          return Ok(found.value), attempt;
        }
      }
      return Err(TimedOut), attempt;
    }
  }
}
