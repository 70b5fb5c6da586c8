/** The suspension queue: dispatches parked until a tick or until a time, then drained or cancelled once. */
module Workflows {
  import opened Basics

  datatype Wake = Tick | AfterDuration(d: nat)

  datatype Parked<D> = Parked(id: nat, dispatch: D, since: nat, wake: Wake)

  predicate Ready<D>(e: Parked<D>, now: nat, tick: bool) {
    match e.wake
    case Tick => tick
    case AfterDuration(d) => now >= e.since + d
  }

  function Select<D>(entries: seq<Parked<D>>, now: nat, tick: bool, ready: bool): seq<Parked<D>> {
    if entries == [] then []
    else (if Ready(entries[0], now, tick) == ready then [entries[0]] else []) + Select(entries[1..], now, tick, ready)
  }

  function Position<D>(entries: seq<Parked<D>>, id: nat): (i: nat)
    ensures i <= |entries|
    ensures i < |entries| ==> entries[i].id == id
    ensures forall j :: 0 <= j < i ==> entries[j].id != id
  {
    if entries == [] || entries[0].id == id then 0 else 1 + Position(entries[1..], id)
  }

  /** The engine, with the history of what left it. */
  datatype Engine<D> = Engine(entries: seq<Parked<D>>, nextId: nat, drained: seq<seq<Parked<D>>>,
    cancelled: seq<Parked<D>>)

  datatype Action<D> = Suspend(dispatch: D, wake: Wake, at: nat) | Drain(tick: bool, now: nat) | Cancel(id: nat)

  function Do<D>(e: Engine<D>, a: Action<D>): Engine<D> {
    match a
    case Suspend(dispatch, wake, at) =>
      e.(entries := e.entries + [Parked(e.nextId, dispatch, at, wake)], nextId := e.nextId + 1)
    case Drain(tick, now) =>
      e.(entries := Select(e.entries, now, tick, false), drained := e.drained + [Select(e.entries, now, tick, true)])
    case Cancel(id) =>
      var i := Position(e.entries, id);
      if i == |e.entries| then e
      else e.(entries := e.entries[..i] + e.entries[i + 1..], cancelled := e.cancelled + [e.entries[i]])
  }

  function DoAll<D>(e: Engine<D>, actions: seq<Action<D>>): Engine<D>
    decreases |actions|
  {
    if actions == [] then e else DoAll(Do(e, actions[0]), actions[1..])
  }

  function Fresh<D>(): Engine<D> { Engine([], 0, [], []) }

  // ----- Where each issued suspension is -----

  function Ids<D>(entries: seq<Parked<D>>): seq<nat> {
    seq(|entries|, i requires 0 <= i < |entries| => entries[i].id)
  }

  function Concat<D>(parts: seq<seq<Parked<D>>>): seq<Parked<D>> {
    if parts == [] then [] else parts[0] + Concat(parts[1..])
  }

  function UpTo(n: nat): seq<nat> { seq(n, i => i) }

  ghost function Everywhere<D>(e: Engine<D>): multiset<nat> {
    multiset(Ids(e.entries)) + multiset(Ids(Concat(e.drained))) + multiset(Ids(e.cancelled))
  }

  predicate Increasing(ids: seq<nat>) {
    forall i, j :: 0 <= i < j < |ids| ==> ids[i] < ids[j]
  }

  lemma IdsAppend<D>(a: seq<Parked<D>>, b: seq<Parked<D>>)
    ensures Ids(a + b) == Ids(a) + Ids(b)
    ensures multiset(Ids(a + b)) == multiset(Ids(a)) + multiset(Ids(b))
  {
    assert Ids(a + b) == Ids(a) + Ids(b);
  }

  lemma {:induction false} SelectSplits<D>(entries: seq<Parked<D>>, now: nat, tick: bool)
    ensures multiset(Ids(Select(entries, now, tick, false))) + multiset(Ids(Select(entries, now, tick, true)))
        == multiset(Ids(entries))
  {
    hide Ids, Ready;
    if entries == [] {
      assert entries + entries == entries;
      IdsAppend(entries, entries);
    } else {
      var first, rest := entries[..1], entries[1..];
      SelectSplits(rest, now, tick);
      assert entries == first + rest;
      IdsAppend(first, rest);
      var kept, out := Select(rest, now, tick, false), Select(rest, now, tick, true);
      assert first == [entries[0]];
      if Ready(entries[0], now, tick) {
        IdsAppend(first, out);
        assert Select(entries, now, tick, false) == kept;
      } else {
        IdsAppend(first, kept);
        assert Select(entries, now, tick, true) == out;
      }
    }
  }

  lemma {:induction false} SelectMembers<D>(entries: seq<Parked<D>>, now: nat, tick: bool, ready: bool, x: Parked<D>)
    ensures x in Select(entries, now, tick, ready) <==> x in entries && Ready(x, now, tick) == ready
  {
    hide Ready;
    if entries != [] {
      SelectMembers(entries[1..], now, tick, ready, x);
      assert entries == [entries[0]] + entries[1..];
    }
  }

  lemma LeastFirst(ids: seq<nat>)
    requires ids != [] && Increasing(ids)
    ensures Increasing(ids[1..]) && forall x :: x in ids[1..] ==> ids[0] < x
  {
    var rest := ids[1..];
    forall i, j | 0 <= i < j < |rest| ensures rest[i] < rest[j] {
      assert rest[i] == ids[i + 1] && rest[j] == ids[j + 1];
    }
  }

  lemma PutFirst(least: nat, ids: seq<nat>)
    requires Increasing(ids) && forall x :: x in ids ==> least < x
    ensures Increasing([least] + ids)
  {
    var all := [least] + ids;
    forall i, j | 0 <= i < j < |all| ensures all[i] < all[j] {
      assert all[j] == ids[j - 1] && ids[j - 1] in ids;
      if i > 0 { assert all[i] == ids[i - 1]; }
    }
  }

  lemma IdIn<D>(entries: seq<Parked<D>>, id: nat)
    ensures id in Ids(entries) <==> exists x :: x in entries && x.id == id
  {
    if id in Ids(entries) {
      var i :| 0 <= i < |Ids(entries)| && Ids(entries)[i] == id;
      assert entries[i] in entries;
    }
    if x :| x in entries && x.id == id {
      var i :| 0 <= i < |entries| && entries[i] == x;
      assert Ids(entries)[i] == id;
    }
  }

  lemma {:induction false} SelectKeepsOrder<D>(entries: seq<Parked<D>>, now: nat, tick: bool, ready: bool)
    requires Increasing(Ids(entries))
    ensures Increasing(Ids(Select(entries, now, tick, ready)))
  {
    hide Ready, Increasing;
    if entries == [] {
      assert Select(entries, now, tick, ready) == entries;
    } else {
      var rest, s := entries[1..], Select(entries[1..], now, tick, ready);
      assert Ids(rest) == Ids(entries)[1..];
      LeastFirst(Ids(entries));
      SelectKeepsOrder(rest, now, tick, ready);
      if Ready(entries[0], now, tick) == ready {
        forall id | id in Ids(s) ensures entries[0].id < id { StillThere(rest, now, tick, ready, id); }
        PutFirst(entries[0].id, Ids(s));
        assert Ids([entries[0]] + s) == [entries[0].id] + Ids(s);
      } else {
        assert [] + s == s;
      }
    }
  }

  lemma StillThere<D>(entries: seq<Parked<D>>, now: nat, tick: bool, ready: bool, id: nat)
    requires id in Ids(Select(entries, now, tick, ready))
    ensures id in Ids(entries)
  {
    hide Select, Ready, Ids;
    var s := Select(entries, now, tick, ready);
    IdIn(s, id);
    var x :| x in s && x.id == id;
    SelectMembers(entries, now, tick, ready, x);
    IdIn(entries, id);
  }

  lemma {:induction false} ConcatSnoc<D>(parts: seq<seq<Parked<D>>>, last: seq<Parked<D>>)
    ensures Concat(parts + [last]) == Concat(parts) + last
  {
    if parts == [] {
      var one: seq<seq<Parked<D>>> := [last];
      assert one[1..] == [];
      assert parts + [last] == one;
    } else {
      assert (parts + [last])[1..] == parts[1..] + [last];
      ConcatSnoc(parts[1..], last);
    }
  }

  /** Pending entries and every drained batch are in suspension order, and every id is in exactly one place. */
  ghost predicate Inv<D>(e: Engine<D>) {
    && Increasing(Ids(e.entries))
    && (forall i :: 0 <= i < |e.entries| ==> e.entries[i].id < e.nextId)
    && (forall k :: 0 <= k < |e.drained| ==> Increasing(Ids(e.drained[k])))
    && Everywhere(e) == multiset(UpTo(e.nextId))
  }

  lemma SuspendKeeps<D>(e: Engine<D>, dispatch: D, wake: Wake, at: nat)
    requires Inv(e)
    ensures Inv(Do(e, Suspend(dispatch, wake, at)))
  {
    var x := Parked(e.nextId, dispatch, at, wake);
    IdsAppend(e.entries, [x]);
    assert Ids([x]) == [e.nextId];
    assert UpTo(e.nextId + 1) == UpTo(e.nextId) + [e.nextId];
    forall i | 0 <= i < |e.entries| ensures Ids(e.entries)[i] < e.nextId { assert e.entries[i].id < e.nextId; }
  }

  lemma DrainKeeps<D>(e: Engine<D>, tick: bool, now: nat)
    requires Inv(e)
    ensures Inv(Do(e, Drain(tick, now)))
  {
    hide Select;
    var kept, out := Select(e.entries, now, tick, false), Select(e.entries, now, tick, true);
    SelectSplits(e.entries, now, tick);
    SelectKeepsOrder(e.entries, now, tick, false);
    SelectKeepsOrder(e.entries, now, tick, true);
    ConcatSnoc(e.drained, out);
    IdsAppend(Concat(e.drained), out);
    var n := Do(e, Drain(tick, now));
    assert n.entries == kept && n.drained == e.drained + [out];
    forall i | 0 <= i < |kept| ensures kept[i].id < e.nextId {
      SelectMembers(e.entries, now, tick, false, kept[i]);
      assert kept[i] in kept;
    }
  }

  lemma RemoveKeepsOrder<D>(entries: seq<Parked<D>>, i: nat)
    requires i < |entries| && Increasing(Ids(entries))
    ensures Increasing(Ids(entries[..i] + entries[i + 1..]))
  {
    var n := entries[..i] + entries[i + 1..];
    forall a, b | 0 <= a < b < |n| ensures Ids(n)[a] < Ids(n)[b] {
      var a', b' := if a < i then a else a + 1, if b < i then b else b + 1;
      assert Ids(entries)[a'] < Ids(entries)[b'];
      assert n[a] == entries[a'] && n[b] == entries[b'];
    }
  }

  lemma RemoveSplits<D>(entries: seq<Parked<D>>, i: nat, others: seq<Parked<D>>)
    requires i < |entries|
    ensures multiset(Ids(entries[..i] + entries[i + 1..])) + multiset(Ids(others + [entries[i]]))
         == multiset(Ids(entries)) + multiset(Ids(others))
  {
    hide Ids;
    var x, before, after := [entries[i]], entries[..i], entries[i + 1..];
    assert entries == before + (x + after);
    IdsAppend(before, x + after);
    IdsAppend(x, after);
    IdsAppend(before, after);
    IdsAppend(others, x);
  }

  lemma CancelKeeps<D>(e: Engine<D>, id: nat)
    requires Inv(e)
    ensures Inv(Do(e, Cancel(id)))
  {
    hide Ids, Increasing, UpTo, Concat;
    var i := Position(e.entries, id);
    if i < |e.entries| {
      RemoveKeepsOrder(e.entries, i);
      RemoveSplits(e.entries, i, e.cancelled);
      var n := Do(e, Cancel(id));
      assert Everywhere(n) == Everywhere(e) by {
        MultisetSwap(multiset(Ids(n.entries)), multiset(Ids(Concat(e.drained))), multiset(Ids(n.cancelled)),
                     multiset(Ids(e.entries)), multiset(Ids(e.cancelled)));
      }
    }
  }

  lemma MultisetSwap(a: multiset<nat>, b: multiset<nat>, c: multiset<nat>, x: multiset<nat>, z: multiset<nat>)
    requires a + c == x + z
    ensures a + b + c == x + b + z
  {
    assert a + b + c == (a + c) + b && x + b + z == (x + z) + b;
  }

  lemma {:induction false} RunKeeps<D>(e: Engine<D>, actions: seq<Action<D>>)
    requires Inv(e)
    ensures Inv(DoAll(e, actions))
    decreases |actions|
  {
    hide Inv, Do;
    if actions != [] {
      KeepsInv(e, actions[0]);
      RunKeeps(Do(e, actions[0]), actions[1..]);
    }
  }

  lemma {:induction false} UpToOnce(n: nat, id: nat)
    requires id < n
    ensures multiset(UpTo(n))[id] == 1
  {
    assert UpTo(n) == UpTo(n - 1) + [n - 1];
    if id < n - 1 { UpToOnce(n - 1, id); }
  }

  /** Over every run: each issued id is pending, drained or cancelled, in exactly one of these ways and exactly once. */
  lemma SuspensionsConserved<D>(actions: seq<Action<D>>, id: nat)
    requires id < DoAll(Fresh<D>(), actions).nextId
    ensures var e := DoAll(Fresh<D>(), actions);
      && multiset(Ids(e.entries))[id] + multiset(Ids(Concat(e.drained)))[id] + multiset(Ids(e.cancelled))[id] == 1
      && Increasing(Ids(e.entries))
      && forall k :: 0 <= k < |e.drained| ==> Increasing(Ids(e.drained[k]))
  {
    FreshIsFine<D>();
    RunKeeps(Fresh<D>(), actions);
    var e := DoAll(Fresh<D>(), actions);
    UpToOnce(e.nextId, id);
    assert Everywhere(e)[id] == 1;
  }

  /** Nothing drains early, and nothing that is due stays. */
  lemma DrainExact<D>(e: Engine<D>, tick: bool, now: nat, x: Parked<D>)
    ensures var n := Do(e, Drain(tick, now));
      && (x in n.drained[|e.drained|] <==> x in e.entries && Ready(x, now, tick))
      && (x in n.entries <==> x in e.entries && !Ready(x, now, tick))
  {
    SelectMembers(e.entries, now, tick, false, x);
    SelectMembers(e.entries, now, tick, true, x);
  }

  lemma NextSelected<D>(entries: seq<Parked<D>>, i: nat, now: nat, tick: bool, ready: bool)
    requires i < |entries|
    ensures Select(entries[i..], now, tick, ready) ==
            (if Ready(entries[i], now, tick) == ready then [entries[i]] else [])
            + Select(entries[i + 1..], now, tick, ready)
  {
    hide Ready;
    assert entries[i..][1..] == entries[i + 1..];
  }

  lemma NoneSelected<D>(now: nat, tick: bool)
    ensures forall ready :: Select<D>([], now, tick, ready) == []
  {
  }

  // ----- The engine object -----

  class WorkflowEngine<D> {
    var entries: seq<Parked<D>>
    var nextId: nat

    constructor ()
      ensures entries == [] && nextId == 0
    {
      entries, nextId := [], 0;
    }

    method SuspendDispatch(dispatch: D, wake: Wake, now: nat) returns (id: nat)
      modifies this
      ensures id == old(nextId) && nextId == id + 1
      ensures entries == old(entries) + [Parked(id, dispatch, now, wake)]
    {
      id := nextId;
      nextId := nextId + 1;
      entries := entries + [Parked(id, dispatch, now, wake)];
    }

    method DrainReady(tick: bool, now: nat) returns (ready: seq<Parked<D>>)
      modifies this`entries
      ensures ready == Select(old(entries), now, tick, true)
      ensures entries == Select(old(entries), now, tick, false)
    {
      hide Ready, Select;
      var keep: seq<Parked<D>> := [];
      ready := [];
      var i := 0;
      assert entries[0..] == entries;
      while i < |entries|
        invariant i <= |entries| && entries == old(entries)
        invariant ready + Select(entries[i..], now, tick, true) == Select(entries, now, tick, true)
        invariant keep + Select(entries[i..], now, tick, false) == Select(entries, now, tick, false)
      {
        NextSelected(entries, i, now, tick, true);
        NextSelected(entries, i, now, tick, false);
        if Ready(entries[i], now, tick) {
          ready := ready + [entries[i]];
        } else {
          keep := keep + [entries[i]];
        }
        i := i + 1;
      }
      assert entries[i..] == [] && keep + [] == keep && ready + [] == ready;
      NoneSelected<D>(now, tick);
      entries := keep;
    }

    method CancelSuspension(id: nat) returns (cancelled: Option<D>)
      modifies this`entries
      ensures var i := Position(old(entries), id);
        if i == |old(entries)| then cancelled == None && entries == old(entries)
        else cancelled == Some(old(entries)[i].dispatch) && entries == old(entries)[..i] + old(entries)[i + 1..]
    {
      var pos := Position(entries, id);
      if pos == |entries| { return None; }
      cancelled := Some(entries[pos].dispatch);
      entries := entries[..pos] + entries[pos + 1..];
    }
  }

  // ----- When an entry wakes -----

  /** Whether an entry leaves at this drain: at a tick, or once its time has passed since it was suspended. */
  ghost predicate Leaves<D>(e: Parked<D>, now: nat, tick: bool) {
    || (e.wake == Tick && tick)
    || exists d: nat :: e.wake == AfterDuration(d) && d <= now - e.since
  }

  /** A drain takes the entries whose time has come and keeps the others, whatever else waits with them. */
  lemma WakesExactly<D>(entries: seq<Parked<D>>, now: nat, tick: bool, e: Parked<D>)
    requires e in entries
    ensures e in Select(entries, now, tick, true) <==> Leaves(e, now, tick)
    ensures e in Select(entries, now, tick, false) <==> !Leaves(e, now, tick)
  {
    hide Select;
    SelectMembers(entries, now, tick, true, e);
    SelectMembers(entries, now, tick, false, e);
    if e.wake.AfterDuration? { assert e.wake == AfterDuration(e.wake.d); }
  }

  /** No drain among the actions comes when the entry is due. */
  ghost predicate NoneDue<D>(x: Parked<D>, actions: seq<Action<D>>) {
    forall i :: 0 <= i < |actions| && actions[i].Drain? ==> !Leaves(x, actions[i].now, actions[i].tick)
  }

  lemma NoneDueCons<D>(x: Parked<D>, actions: seq<Action<D>>)
    requires actions != []
    ensures NoneDue(x, actions) <==>
            (actions[0].Drain? ==> !Leaves(x, actions[0].now, actions[0].tick)) && NoneDue(x, actions[1..])
  {
    hide Leaves;
    assert forall i :: 0 < i < |actions| ==> actions[i] == actions[1..][i - 1];
    assert forall i :: 0 <= i < |actions[1..]| ==> actions[1..][i] == actions[i + 1];
  }

  /** What one action does to an entry that is not cancelled by it. */
  lemma StaysUnlessDue<D>(e: Engine<D>, a: Action<D>, x: Parked<D>)
    requires Inv(e) && x.id < e.nextId && a != Cancel(x.id)
    ensures x in Do(e, a).entries <==> x in e.entries && (a.Drain? ==> !Leaves(x, a.now, a.tick))
    ensures e.nextId <= Do(e, a).nextId
  {
    hide Inv, Select, Leaves;
    match a {
      case Suspend(dispatch, wake, at) =>
      case Drain(tick, now) =>
        SelectMembers(e.entries, now, tick, false, x);
        if x in e.entries { WakesExactly(e.entries, now, tick, x); }
      case Cancel(id) =>
        var i := Position(e.entries, id);
        if i < |e.entries| { OnlyThatOne(e.entries, i, x); }
    }
  }

  lemma OnlyThatOne<D>(entries: seq<Parked<D>>, i: nat, x: Parked<D>)
    requires i < |entries| && x.id != entries[i].id
    ensures x in entries[..i] + entries[i + 1..] <==> x in entries
  {
    assert entries == entries[..i] + ([entries[i]] + entries[i + 1..]);
  }

  lemma {:induction false} PendingUnlessDue<D>(e: Engine<D>, actions: seq<Action<D>>, x: Parked<D>)
    requires Inv(e) && x.id < e.nextId && Cancel(x.id) !in actions
    ensures x in DoAll(e, actions).entries <==> x in e.entries && NoneDue(x, actions)
    decreases |actions|
  {
    hide Inv, Do, Leaves, NoneDue;
    if actions == [] {
      NothingDue(x);
    } else {
      var a := actions[0];
      assert a in actions;
      NoneDueCons(x, actions);
      StaysUnlessDue(e, a, x);
      KeepsInv(e, a);
      PendingUnlessDue(Do(e, a), actions[1..], x);
    }
  }

  lemma NothingDue<D>(x: Parked<D>)
    ensures NoneDue(x, [])
  {
  }

  lemma KeepsInv<D>(e: Engine<D>, a: Action<D>)
    requires Inv(e)
    ensures Inv(Do(e, a))
  {
    hide Inv, Do;
    match a {
      case Suspend(d, w, at) => SuspendKeeps(e, d, w, at);
      case Drain(tick, now) => DrainKeeps(e, tick, now);
      case Cancel(id) => CancelKeeps(e, id);
    }
  }

  /**
   In every run a suspended dispatch that nobody cancels is parked, as it was given and at the time it was
   given, until the first drain at which it is due, and leaves at that one: at any tick if it waits for
   one, and otherwise once its duration has passed since it was suspended.
   */
  lemma WaitsUntilDue<D>(
    before: seq<Action<D>>, dispatch: D, wake: Wake, at: nat, later: seq<Action<D>>)
    requires Cancel(DoAll(Fresh<D>(), before).nextId) !in later
    ensures var e := DoAll(Fresh<D>(), before);
      var x := Parked(e.nextId, dispatch, at, wake);
      x in DoAll(Do(e, Suspend(dispatch, wake, at)), later).entries <==> NoneDue(x, later)
  {
    hide DoAll, Inv, Leaves, NoneDue;
    FreshIsFine<D>();
    RunKeeps(Fresh<D>(), before);
    var e := DoAll(Fresh<D>(), before);
    SuspendKeeps(e, dispatch, wake, at);
    PendingUnlessDue(Do(e, Suspend(dispatch, wake, at)), later, Parked(e.nextId, dispatch, at, wake));
  }

  lemma FreshIsFine<D>()
    ensures Inv(Fresh<D>())
  {
    assert Ids(Fresh<D>().entries) == [] && UpTo(0) == [];
  }
}
