/** The three sliding-window limiters as objects: per-key queues pruned in place. */
module Limiters {
  import opened Basics
  import opened Json
  import opened Pipelines
  import opened Windows

  type Queues = map<string, seq<nat>>

  function QueueOf(queues: Queues, key: string): seq<nat> {
    if key in queues then queues[key] else []
  }

  /** Pop from the front until an entry is kept. */
  function PopFront(w: Window, queue: seq<nat>, now: nat): seq<nat> {
    if queue == [] || Kept(w, queue[0], now) then queue else PopFront(w, queue[1..], now)
  }

  /** On a queue in time order, popping from the front drops exactly what is behind the cutoff. */
  lemma {:induction false} PopFrontPrunes(w: Window, queue: seq<nat>, now: nat)
    requires Sorted(queue)
    ensures PopFront(w, queue, now) == Prune(w, queue, now)
  {
    if queue != [] {
      if Kept(w, queue[0], now) {
        assert forall i :: 0 <= i < |queue| ==> queue[0] <= queue[i];
        AllAhead(w, queue, now);
      } else {
        PopFrontPrunes(w, queue[1..], now);
      }
    }
  }

  function AdmitFront(w: Window, queue: seq<nat>, now: nat): (seq<nat>, bool) {
    var q := PopFront(w, queue, now);
    if |q| >= w.limit then (q, false) else (q + [now], true)
  }

  /** A key's queue after a sequence of calls to a front-popping limiter. */
  function FrontQueue(w: Window, calls: seq<nat>): seq<nat> {
    if calls == [] then [] else AdmitFront(w, FrontQueue(w, calls[..|calls| - 1]), calls[|calls| - 1]).0
  }

  lemma {:induction false} PopFrontOrdered(w: Window, queue: seq<nat>, now: nat)
    requires Sorted(queue) && UpTo(queue, now)
    ensures Sorted(PopFront(w, queue, now)) && UpTo(PopFront(w, queue, now), now)
  {
    if queue != [] && !Kept(w, queue[0], now) { PopFrontOrdered(w, queue[1..], now); }
  }

  lemma AdmitOrdered(w: Window, queue: seq<nat>, now: nat)
    requires Sorted(queue) && UpTo(queue, now)
    ensures AdmitFront(w, queue, now) == Admit(w, queue, now)
    ensures var q := AdmitFront(w, queue, now).0; Sorted(q) && UpTo(q, now)
  {
    PopFrontPrunes(w, queue, now);
    PopFrontOrdered(w, queue, now);
  }

  /** For calls in time order, front-popping and filtering limiters go through the same queues. */
  lemma {:induction false} FrontQueueIsQueue(w: Window, calls: seq<nat>)
    requires Sorted(calls)
    ensures FrontQueue(w, calls) == Queue(w, calls)
    ensures Sorted(FrontQueue(w, calls)) && (calls != [] ==> UpTo(FrontQueue(w, calls), calls[|calls| - 1]))
  {
    hide AdmitFront, Admit;
    if calls != [] {
      var n := |calls| - 1;
      FrontQueueIsQueue(w, calls[..n]);
      var q, now := FrontQueue(w, calls[..n]), calls[n];
      if n > 0 { assert calls[..n][n - 1] <= now; }
      AdmitOrdered(w, q, now);
    }
  }

  // ----- Many keys -----

  datatype KeyedCall = KeyedCall(key: string, at: nat)

  /** The map of queues after a run of calls for any keys, each key with its own window. */
  function Keyed(w: string -> Window, calls: seq<KeyedCall>): Queues {
    if calls == [] then map[]
    else
      var n := |calls| - 1;
      var before, c := Keyed(w, calls[..n]), calls[n];
      before[c.key := AdmitFront(w(c.key), QueueOf(before, c.key), c.at).0]
  }

  /** When the calls for one key were made, and when those that were accepted were made. */
  function TimesOf(calls: seq<KeyedCall>, key: string): seq<nat> {
    if calls == [] then []
    else
      var n := |calls| - 1;
      TimesOf(calls[..n], key) + if calls[n].key == key then [calls[n].at] else []
  }

  function AcceptedFor(w: string -> Window, calls: seq<KeyedCall>, key: string): seq<nat> {
    if calls == [] then []
    else
      var n := |calls| - 1;
      var c := calls[n];
      AcceptedFor(w, calls[..n], key) +
      if c.key == key && AdmitFront(w(key), QueueOf(Keyed(w, calls[..n]), key), c.at).1 then [c.at] else []
  }

  predicate InTimeOrder(calls: seq<KeyedCall>) {
    forall i, j :: 0 <= i <= j < |calls| ==> calls[i].at <= calls[j].at
  }

  lemma {:induction false} TimesInOrder(calls: seq<KeyedCall>, key: string, start: nat)
    requires InTimeOrder(calls) && AllFrom(calls, start)
    ensures Sorted(TimesOf(calls, key)) && From(TimesOf(calls, key), start)
    ensures calls != [] ==> UpTo(TimesOf(calls, key), calls[|calls| - 1].at)
  {
    hide Sorted, From, UpTo, InTimeOrder, AllFrom;
    if calls == [] {
      NoTimes(start, 0);
    } else {
      var n := |calls| - 1;
      var last := calls[n];
      EarlierCalls(calls, start);
      TimesInOrder(calls[..n], key, start);
      var before := TimesOf(calls[..n], key);
      if n == 0 {
        NoTimes(start, last.at);
      } else {
        assert calls[..n][n - 1] == calls[n - 1];
        UpToLater(before, calls[n - 1].at, last.at);
      }
      OneMoreTime(before, last.at, start);
      assert before + [] == before;
    }
  }

  lemma NoTimes(start: nat, now: nat)
    ensures Sorted([]) && From([], start) && UpTo([], now)
  {
  }

  lemma UpToLater(times: seq<nat>, now: nat, later: nat)
    requires UpTo(times, now) && now <= later
    ensures UpTo(times, later)
  {
  }

  lemma OneMoreTime(times: seq<nat>, at: nat, start: nat)
    requires Sorted(times) && From(times, start) && UpTo(times, at) && start <= at
    ensures Sorted(times + [at]) && From(times + [at], start) && UpTo(times + [at], at)
  {
  }

  lemma EarlierCalls(calls: seq<KeyedCall>, start: nat)
    requires InTimeOrder(calls) && AllFrom(calls, start) && calls != []
    ensures var n := |calls| - 1;
      && InTimeOrder(calls[..n]) && AllFrom(calls[..n], start) && start <= calls[n].at
      && (n > 0 ==> calls[n - 1].at <= calls[n].at)
  {
  }

  lemma FrontQueueSnoc(w: Window, times: seq<nat>, at: nat)
    ensures FrontQueue(w, times + [at]) == AdmitFront(w, FrontQueue(w, times), at).0
  {
    assert (times + [at])[..|times|] == times;
  }

  lemma OneKeySnoc(w: Window, times: seq<nat>, at: nat)
    requires Sorted(times) && UpTo(times, at)
    ensures FrontQueue(w, times + [at]) == AdmitFront(w, FrontQueue(w, times), at).0
    ensures AcceptedByQueue(w, times + [at]) ==
            AcceptedByQueue(w, times) + if AdmitFront(w, FrontQueue(w, times), at).1 then [at] else []
  {
    FrontQueueSnoc(w, times, at);
    QueueSnoc(w, times, at);
    FrontQueueIsQueue(w, times);
    AdmitOrdered(w, FrontQueue(w, times), at);
  }

  /** Each key is limited as if it were alone. */
  lemma {:induction false} KeysAreIndependent(w: string -> Window, calls: seq<KeyedCall>, key: string)
    requires InTimeOrder(calls)
    ensures QueueOf(Keyed(w, calls), key) == FrontQueue(w(key), TimesOf(calls, key))
    ensures AcceptedFor(w, calls, key) == AcceptedByQueue(w(key), TimesOf(calls, key))
  {
    hide AdmitFront, Admit;
    if calls != [] {
      var n := |calls| - 1;
      var before, c := calls[..n], calls[n];
      KeysAreIndependent(w, before, key);
      if c.key == key {
        var times := TimesOf(before, key);
        TimesInOrder(before, key, 0);
        if n > 0 { assert before[n - 1].at <= c.at; }
        OneKeySnoc(w(key), times, c.at);
      } else {
        assert TimesOf(before, key) + [] == TimesOf(before, key);
        assert AcceptedFor(w, before, key) + [] == AcceptedFor(w, before, key);
      }
    }
  }

  predicate AllFrom(calls: seq<KeyedCall>, start: nat) {
    forall i :: 0 <= i < |calls| ==> start <= calls[i].at
  }

  /** In a run over any keys, no window of a key ever holds more than that key's limit of accepted calls. */
  lemma EveryKeyBounded(w: string -> Window, calls: seq<KeyedCall>, key: string, start: nat)
    requires InTimeOrder(calls) && AllFrom(calls, start) && LateStart(w(key), start)
    ensures Bounded(w(key), AcceptedFor(w, calls, key))
  {
    KeysAreIndependent(w, calls, key);
    TimesInOrder(calls, key, start);
    QueueAcceptsTheSame(w(key), TimesOf(calls, key), start);
    AcceptedBounded(w(key), TimesOf(calls, key));
  }

  /** The rate-limit subgate: a closed window per scope key. */
  class RateLimitSubgate {
    const span: nat
    const limit: nat
    const bucket: string
    const scopeKey: (Pipeline, ParamMap) -> string
    var state: Queues

    constructor (span: nat, limit: nat, bucket: string, scopeKey: (Pipeline, ParamMap) -> string)
      ensures this.span == span && this.limit == limit && this.bucket == bucket && this.scopeKey == scopeKey
      ensures state == map[]
    {
      this.span, this.limit, this.bucket, this.scopeKey, state := span, limit, bucket, scopeKey, map[];
    }

    /** The clock must have run for at least one window: the subtraction panics otherwise. */
    method Check(p: Pipeline, params: ParamMap, now: nat) returns (ok: bool)
      requires now >= span
      modifies this`state
      ensures var key := scopeKey(p, params) + "::" + bucket;
        var (q, admitted) := AdmitFront(Window(span, limit, true), QueueOf(old(state), key), now);
        state == old(state)[key := q] && ok == admitted
    {
      var key := scopeKey(p, params) + "::" + bucket;
      var queue: seq<nat> := QueueOf(state, key);
      ghost var w := Window(span, limit, true);
      var cutoff := now - span;
      while queue != [] && queue[0] < cutoff
        invariant PopFront(w, queue, now) == PopFront(w, QueueOf(state, key), now)
        decreases |queue|
      {
        queue := queue[1..];
      }
      if |queue| >= limit {
        state := state[key := queue];
        return false;
      }
      state := state[key := queue + [now]];
      return true;
    }

    /** A diagnostic read of one stored key, which prunes it as a side effect. */
    method CurrentCount(key: string, now: nat) returns (n: nat)
      requires key in state ==> now >= span
      modifies this`state
      ensures var left := PopFront(Window(span, limit, true), QueueOf(old(state), key), now);
        n == |left| && state == if key in old(state) then old(state)[key := left] else old(state)
    {
      if key !in state { return 0; }
      ghost var w := Window(span, limit, true);
      var queue: seq<nat> := state[key];
      while queue != [] && queue[0] < now - span
        invariant PopFront(w, queue, now) == PopFront(w, state[key], now)
        decreases |queue|
      {
        queue := queue[1..];
      }
      state := state[key := queue];
      return |queue|;
    }
  }

  /** The receive-side limiter: it appends first and takes the entry back when that was one too many. */
  class ReceiveLimiter {
    const span: nat
    const maxPerWindow: nat
    var peers: Queues

    constructor (maxPerWindow: nat, span: nat)
      ensures this.span == span && this.maxPerWindow == maxPerWindow && peers == map[]
    {
      this.span, this.maxPerWindow, peers := span, maxPerWindow, map[];
    }

    method AdmitReceipt(peer: string, now: nat) returns (accepted: bool)
      modifies this`peers
      ensures var (q, admitted) := AdmitFront(Window(span, maxPerWindow, true), QueueOf(old(peers), peer), now);
        peers == old(peers)[peer := q] && accepted == admitted
    {
      var queue: seq<nat> := QueueOf(peers, peer);
      var w := Window(span, maxPerWindow, true);
      var cutoff := Cutoff(w, now);
      while queue != [] && queue[0] < cutoff
        invariant PopFront(w, queue, now) == PopFront(w, QueueOf(peers, peer), now)
        decreases |queue|
      {
        queue := queue[1..];
      }
      ghost var popped := queue;
      queue := queue + [now];
      accepted := |queue| <= maxPerWindow;
      if !accepted {
        queue := queue[..|queue| - 1];
        assert queue == popped;
      }
      peers := peers[peer := queue];
    }
  }

  // ----- The sensory queue -----

  /** The field the structural check of an envelope complains about first. */
  function EnvelopeFault(payload: Json): Option<string> {
    if !payload.Obj? then Some("(root)")
    else
      match Get(payload, "meta")
      case Some(Obj(meta)) =>
        (match Get(Obj(meta), "schema_version")
         case Some(Str(v)) =>
           if v != "1" then Some("meta.schema_version")
           else
             (match Get(payload, "score")
              case Some(Int(n)) =>
                if n < 0 || n > 100 then Some("score")
                else
                  (match Get(payload, "findings")
                   case None => None
                   case Some(Arr(_)) => None
                   case _ => Some("findings"))
              case _ => Some("score"))
         case _ => Some("meta.schema_version"))
      case _ => Some("meta")
  }

  /** The structural floor of an envelope, said without an order of checks. */
  ghost predicate WellFormedEnvelope(payload: Json) {
    && Get(payload, "meta").Some? && Get(Get(payload, "meta").value, "schema_version") == Some(Str("1"))
    && (exists n :: 0 <= n <= 100 && Get(payload, "score") == Some(Int(n)))
    && (Get(payload, "findings").Some? ==> Get(payload, "findings").value.Arr?)
  }

  lemma EnvelopeCheckExact(payload: Json)
    ensures EnvelopeFault(payload).None? <==> WellFormedEnvelope(payload)
  {
    if EnvelopeFault(payload).None? {
      var score := Get(payload, "score");
      assert score == Some(Int(score.value.i));
    }
  }

  /** What is wrong with the field that the check names. */
  ghost predicate Wrong(payload: Json, field: string) {
    match field
    case "(root)" => !payload.Obj?
    case "meta" => !exists meta :: Get(payload, "meta") == Some(Obj(meta))
    case "meta.schema_version" =>
      Get(payload, "meta").Some? && Get(Get(payload, "meta").value, "schema_version") != Some(Str("1"))
    case "score" => !exists n :: 0 <= n <= 100 && Get(payload, "score") == Some(Int(n))
    case "findings" => Get(payload, "findings").Some? && !Get(payload, "findings").value.Arr?
    case _ => false
  }

  /** The check never blames a field that is in order. */
  lemma BlamedFieldIsWrong(payload: Json)
    ensures EnvelopeFault(payload).Some? ==> Wrong(payload, EnvelopeFault(payload).value)
  {
  }

  datatype RateLimitConfig = RateLimitConfig(span: nat, maxWrites: nat)

  datatype EnforceResult = Allowed | RateLimited(current: nat) | SchemaInvalid(field: string)

  /** Enforcement for custom sensors: a half-open window per source, then the structural check. */
  class SensoryQueueEnforcer {
    const defaultLimits: RateLimitConfig
    var perSource: map<string, RateLimitConfig>
    var windows: Queues

    constructor (span: nat, maxWrites: nat)
      ensures defaultLimits == RateLimitConfig(span, maxWrites) && perSource == map[] && windows == map[]
      ensures forall source :: LimitsFor(source) == Window(span, maxWrites, false)
    {
      defaultLimits, perSource, windows := RateLimitConfig(span, maxWrites), map[], map[];
    }

    /** The override holds for its source at once, and for no other. */
    method SetPerSourceLimits(source: string, span: nat, maxWrites: nat)
      modifies this`perSource
      ensures perSource == old(perSource)[source := RateLimitConfig(span, maxWrites)]
      ensures LimitsFor(source) == Window(span, maxWrites, false)
      ensures forall other :: other != source ==> LimitsFor(other) == old(LimitsFor(other))
    {
      perSource := perSource[source := RateLimitConfig(span, maxWrites)];
    }

    function LimitsFor(source: string): Window
      reads this
    {
      var config := if source in perSource then perSource[source] else defaultLimits;
      Window(config.span, config.maxWrites, false)
    }

    /** A write that fits takes its slot even when its payload turns out to be malformed. */
    method Enforce(source: string, payload: Json, now: nat) returns (result: EnforceResult)
      modifies this`windows
      ensures var w := LimitsFor(source);
        var (q, admitted) := Admit(w, QueueOf(old(windows), source), now);
        && windows == old(windows)[source := q]
        && (!admitted ==> result == RateLimited(|Prune(w, q, now)|))
        && (admitted ==> (result == Allowed <==> WellFormedEnvelope(payload)))
        && (admitted && result != Allowed ==>
          EnvelopeFault(payload).Some? && result == SchemaInvalid(EnvelopeFault(payload).value))
    {
      var w := LimitsFor(source);
      var stamps: seq<nat> := QueueOf(windows, source);
      var kept: seq<nat> := [];
      var i := 0;
      assert stamps[0..] == stamps;
      while i < |stamps|
        invariant i <= |stamps|
        invariant kept + Prune(w, stamps[i..], now) == Prune(w, stamps, now)
      {
        assert stamps[i..][1..] == stamps[i + 1..];
        if Kept(w, stamps[i], now) {
          kept := kept + [stamps[i]];
        }
        i := i + 1;
      }
      assert stamps[i..] == [] && kept == kept + [];
      assert kept == Prune(w, stamps, now);
      EnvelopeCheckExact(payload);
      if |kept| >= w.limit {
        windows := windows[source := kept];
        return RateLimited(|Prune(w, kept, now)|);
      }
      windows := windows[source := kept + [now]];
      var fault := EnvelopeFault(payload);
      return if fault.Some? then SchemaInvalid(fault.value) else Allowed;
    }
  }
}
