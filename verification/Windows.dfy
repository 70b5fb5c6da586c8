/**
 Sliding windows. The reference limiter counts the accepted calls that are still near; the limiters
 keep only a pruned queue. The queue refines the count, and the count bounds every window, exactly
 when the clock starts late enough for "now minus window" not to underflow.
 */
module Windows {
  import opened Basics

  /** `closed`: a call exactly `span` ago still counts. Time is in the clock's smallest unit. */
  datatype Window = Window(span: nat, limit: nat, closed: bool)

  /** Still inside the window that ends at `now`. */
  predicate Near(w: Window, ts: nat, now: nat) {
    if w.closed then now <= ts + w.span else now < ts + w.span
  }

  /** The cutoff the limiters compare with: an underflowing subtraction yields `now` itself. */
  function Cutoff(w: Window, now: nat): nat {
    if now >= w.span then now - w.span else now
  }

  predicate Kept(w: Window, ts: nat, now: nat) {
    if w.closed then ts >= Cutoff(w, now) else ts > Cutoff(w, now)
  }

  function NearOnes(w: Window, history: seq<nat>, now: nat): seq<nat> {
    if history == [] then []
    else (if Near(w, history[0], now) then [history[0]] else []) + NearOnes(w, history[1..], now)
  }

  /** The queue after dropping what is behind the cutoff. */
  function Prune(w: Window, queue: seq<nat>, now: nat): seq<nat> {
    if queue == [] then []
    else (if Kept(w, queue[0], now) then [queue[0]] else []) + Prune(w, queue[1..], now)
  }

  /** One call: the new queue and whether the call was accepted. */
  function Admit(w: Window, queue: seq<nat>, now: nat): (seq<nat>, bool) {
    var q := Prune(w, queue, now);
    if |q| >= w.limit then (q, false) else (q + [now], true)
  }

  /** The queue and the full history of accepted calls after a sequence of calls. */
  function Queue(w: Window, calls: seq<nat>): seq<nat> {
    if calls == [] then [] else Admit(w, Queue(w, calls[..|calls| - 1]), calls[|calls| - 1]).0
  }

  /** The reference: a call is accepted when fewer than `limit` accepted calls are near. */
  function Accepted(w: Window, calls: seq<nat>): seq<nat> {
    if calls == [] then []
    else
      var before, now := Accepted(w, calls[..|calls| - 1]), calls[|calls| - 1];
      if |NearOnes(w, before, now)| >= w.limit then before else before + [now]
  }

  predicate Sorted(s: seq<nat>) {
    forall i, j :: 0 <= i <= j < |s| ==> s[i] <= s[j]
  }

  predicate From(s: seq<nat>, start: nat) {
    forall i :: 0 <= i < |s| ==> start <= s[i]
  }

  predicate UpTo(s: seq<nat>, now: nat) {
    forall i :: 0 <= i < |s| ==> s[i] <= now
  }

  /** The first clock reading from which no subtraction that matters underflows. */
  predicate LateStart(w: Window, start: nat) {
    if w.closed then start + 1 >= w.span else start >= w.span
  }

  lemma KeptIsNear(w: Window, ts: nat, now: nat, start: nat)
    requires LateStart(w, start) && start <= ts <= now
    ensures Kept(w, ts, now) <==> Near(w, ts, now)
  {
  }

  lemma {:induction false} NearAppend(w: Window, a: seq<nat>, b: seq<nat>, now: nat)
    ensures NearOnes(w, a + b, now) == NearOnes(w, a, now) + NearOnes(w, b, now)
  {
    if a == [] {
      assert a + b == b;
    } else {
      assert (a + b)[1..] == a[1..] + b;
      NearAppend(w, a[1..], b, now);
    }
  }

  /** Pruning an already pruned history with a later clock forgets nothing that is still near. */
  lemma {:induction false} PruneNear(w: Window, history: seq<nat>, earlier: nat, now: nat, start: nat)
    requires LateStart(w, start) && earlier <= now
    requires From(history, start) && UpTo(history, earlier)
    ensures Prune(w, NearOnes(w, history, earlier), now) == NearOnes(w, history, now)
  {
    if history != [] {
      PruneNear(w, history[1..], earlier, now, start);
      var t, rest := history[0], NearOnes(w, history[1..], earlier);
      KeptIsNear(w, t, now, start);
      if Near(w, t, earlier) {
        var all := [t] + rest;
        assert all[1..] == rest;
        assert Prune(w, all, now) == (if Kept(w, t, now) then [t] else []) + Prune(w, rest, now);
        assert NearOnes(w, history, earlier) == all;
      } else {
        assert NearOnes(w, history, earlier) == rest;
      }
    }
  }

  lemma {:induction false} AcceptedAreCalls(w: Window, calls: seq<nat>, start: nat)
    requires Sorted(calls) && From(calls, start)
    ensures Sorted(Accepted(w, calls)) && From(Accepted(w, calls), start)
    ensures calls != [] ==> UpTo(Accepted(w, calls), calls[|calls| - 1])
  {
    if calls != [] {
      var n := |calls| - 1;
      AcceptedAreCalls(w, calls[..n], start);
      if n > 0 { assert calls[..n][n - 1] <= calls[n]; }
    }
  }

  lemma {:induction false} PruneAppend(w: Window, a: seq<nat>, b: seq<nat>, now: nat)
    ensures Prune(w, a + b, now) == Prune(w, a, now) + Prune(w, b, now)
  {
    if a == [] {
      assert a + b == b;
    } else {
      assert (a + b)[1..] == a[1..] + b;
      PruneAppend(w, a[1..], b, now);
    }
  }

  /** Whenever the next call comes, what it finds in its queue are the accepted calls that are near it. */
  lemma {:induction false} PrunedQueueIsNear(w: Window, calls: seq<nat>, now: nat, start: nat)
    requires Sorted(calls) && From(calls, start) && UpTo(calls, now) && start <= now && LateStart(w, start)
    ensures Prune(w, Queue(w, calls), now) == NearOnes(w, Accepted(w, calls), now)
    decreases |calls|
  {
    if calls != [] {
      var n := |calls| - 1;
      var before, t := calls[..n], calls[n];
      var history := Accepted(w, before);
      var kept := NearOnes(w, history, t);
      PrunedQueueIsNear(w, before, t, start);
      AcceptedAreCalls(w, before, start);
      PruneNear(w, history, t, now, start);
      PruneAppend(w, kept, [t], now);
      NearAppend(w, history, [t], now);
      KeptIsNear(w, t, now, start);
      assert [t][1..] == [];
      assert Prune(w, [t], now) == NearOnes(w, [t], now);
    }
  }

  /**
   Refinement: the queue is the accepted history as far as it is near the latest call, and a refusal
   means it is full.
   */
  lemma QueueRefinesHistory(w: Window, calls: seq<nat>, start: nat)
    requires Sorted(calls) && From(calls, start) && LateStart(w, start) && calls != []
    ensures w.span > 0 || w.closed ==> Queue(w, calls) == NearOnes(w, Accepted(w, calls), calls[|calls| - 1])
    ensures Admit(w, Queue(w, calls[..|calls| - 1]), calls[|calls| - 1]).1
            <==> |NearOnes(w, Accepted(w, calls[..|calls| - 1]), calls[|calls| - 1])| < w.limit
  {
    var n := |calls| - 1;
    var before, now := calls[..n], calls[n];
    var history := Accepted(w, before);
    PrunedQueueIsNear(w, before, now, start);
    NearAppend(w, history, [now], now);
    assert [now][1..] == [];
    assert NearOnes(w, [now], now) == if w.span > 0 || w.closed then [now] else [];
  }

  lemma {:induction false} NearSuffix(w: Window, history: seq<nat>, i: nat, now: nat)
    requires i <= |history| && forall j :: i <= j < |history| ==> Near(w, history[j], now)
    ensures |NearOnes(w, history, now)| >= |history| - i
  {
    if history != [] {
      NearSuffix(w, history[1..], if i == 0 then 0 else i - 1, now);
    }
  }

  /** Any `limit + 1` accepted calls in a row do not fit in one window. */
  ghost predicate Bounded(w: Window, accepted: seq<nat>) {
    forall i :: 0 <= i && i + w.limit < |accepted| ==> !Near(w, accepted[i], accepted[i + w.limit])
  }

  lemma {:induction false} AcceptedBounded(w: Window, calls: seq<nat>)
    requires Sorted(calls)
    ensures Bounded(w, Accepted(w, calls))
  {
    if calls != [] {
      var n := |calls| - 1;
      var history, now := Accepted(w, calls[..n]), calls[n];
      AcceptedBounded(w, calls[..n]);
      AcceptedAreCalls(w, calls[..n], 0);
      var all := Accepted(w, calls);
      if all == history + [now] {
        var i := |history| - w.limit;
        if i >= 0 && Near(w, all[i], now) {
          assert forall j :: i <= j < |history| ==> history[i] <= history[j];
          NearSuffix(w, history, i, now);
        }
      }
    }
  }

  /** What the queue-based limiter accepts. */
  function AcceptedByQueue(w: Window, calls: seq<nat>): seq<nat> {
    if calls == [] then []
    else
      var n := |calls| - 1;
      AcceptedByQueue(w, calls[..n]) + if Admit(w, Queue(w, calls[..n]), calls[n]).1 then [calls[n]] else []
  }

  lemma {:induction false} QueueAcceptsTheSame(w: Window, calls: seq<nat>, start: nat)
    requires Sorted(calls) && From(calls, start) && LateStart(w, start)
    ensures AcceptedByQueue(w, calls) == Accepted(w, calls)
  {
    if calls != [] {
      QueueAcceptsTheSame(w, calls[..|calls| - 1], start);
      QueueRefinesHistory(w, calls, start);
    }
  }

  ghost predicate AlwaysBounded(w: Window, start: nat) {
    forall calls: seq<nat> :: Sorted(calls) && From(calls, start) ==> Bounded(w, AcceptedByQueue(w, calls))
  }

  function Copies(start: nat, k: nat): seq<nat> {
    if k == 0 then [] else Copies(start, k - 1) + [start]
  }

  lemma {:induction false} CopiesAre(start: nat, k: nat)
    ensures |Copies(start, k)| == k && forall i :: 0 <= i < k ==> Copies(start, k)[i] == start
  {
    if k > 0 { CopiesAre(start, k - 1); }
  }

  lemma {:induction false} AllBehind(w: Window, queue: seq<nat>, now: nat)
    requires forall i :: 0 <= i < |queue| ==> !Kept(w, queue[i], now)
    ensures Prune(w, queue, now) == []
  {
    if queue != [] { AllBehind(w, queue[1..], now); }
  }

  lemma {:induction false} AllAhead(w: Window, queue: seq<nat>, now: nat)
    requires forall i :: 0 <= i < |queue| ==> Kept(w, queue[i], now)
    ensures Prune(w, queue, now) == queue
  {
    if queue != [] { AllAhead(w, queue[1..], now); }
  }

  /** The first `k <= limit` calls, all at `start`, are accepted. */
  lemma {:induction false} EarlyFill(w: Window, start: nat, k: nat)
    requires k <= w.limit && !LateStart(w, start)
    ensures AcceptedByQueue(w, Copies(start, k)) == Copies(start, k)
    ensures |Queue(w, Copies(start, k))| <= k
    ensures forall i :: 0 <= i < |Queue(w, Copies(start, k))| ==> Queue(w, Copies(start, k))[i] == start
  {
    hide Prune, Queue, AcceptedByQueue;
    if k == 0 {
      NoCalls(w);
    } else {
      var fewer := Copies(start, k - 1);
      EarlyFill(w, start, k - 1);
      QueueSnoc(w, fewer, start);
      PrunedAtStart(w, Queue(w, fewer), start);
    }
  }

  lemma NoCalls(w: Window)
    ensures Queue(w, []) == [] && AcceptedByQueue(w, []) == []
  {
  }

  /** Before the window can be subtracted, a closed queue keeps everything and a half-open one nothing. */
  lemma PrunedAtStart(w: Window, queue: seq<nat>, start: nat)
    requires !LateStart(w, start) && forall i :: 0 <= i < |queue| ==> queue[i] == start
    ensures Prune(w, queue, start) == if w.closed then queue else []
  {
    if w.closed { AllAhead(w, queue, start); } else { AllBehind(w, queue, start); }
  }

  lemma QueueSnoc(w: Window, calls: seq<nat>, at: nat)
    ensures Queue(w, calls + [at]) == Admit(w, Queue(w, calls), at).0
    ensures AcceptedByQueue(w, calls + [at]) ==
            AcceptedByQueue(w, calls) + if Admit(w, Queue(w, calls), at).1 then [at] else []
  {
    assert (calls + [at])[..|calls|] == calls;
  }

  /** A clock that starts too early makes the limiter forget calls it has just accepted. */
  lemma EarlyClockForgets(w: Window, start: nat)
    requires !LateStart(w, start) && w.limit > 0
    ensures !AlwaysBounded(w, start)
  {
    hide Queue, AcceptedByQueue, Copies;
    var second := if w.closed then start + 1 else start;
    var fill := Copies(start, w.limit);
    EarlyFill(w, start, w.limit);
    CopiesAre(start, w.limit);
    AllBehind(w, Queue(w, fill), second);
    QueueSnoc(w, fill, second);
    var calls := fill + [second];
    assert AcceptedByQueue(w, calls) == calls;
    assert Near(w, calls[0], calls[0 + w.limit]);
    assert Sorted(calls) && From(calls, start) && !Bounded(w, AcceptedByQueue(w, calls));
  }

  lemma {:induction false} ZeroLimitAcceptsNothing(w: Window, calls: seq<nat>)
    requires w.limit == 0
    ensures AcceptedByQueue(w, calls) == []
  {
    if calls != [] { ZeroLimitAcceptsNothing(w, calls[..|calls| - 1]); }
  }

  /** The promise holds exactly from the first clock reading that cannot underflow, or when nothing is ever accepted. */
  lemma BoundedExactlyFromLateStart(w: Window, start: nat)
    ensures AlwaysBounded(w, start) <==> LateStart(w, start) || w.limit == 0
  {
    if LateStart(w, start) || w.limit == 0 {
      forall calls: seq<nat> | Sorted(calls) && From(calls, start) ensures Bounded(w, AcceptedByQueue(w, calls)) {
        if w.limit == 0 {
          ZeroLimitAcceptsNothing(w, calls);
        } else {
          QueueAcceptsTheSame(w, calls, start);
          AcceptedBounded(w, calls);
        }
      }
    } else {
      EarlyClockForgets(w, start);
    }
  }
}
