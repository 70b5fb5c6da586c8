/**
 The delta chain of one broker: what it means for its records to form an unforked chain, and how a
 reader rebuilds an overlay from nothing but the trace by following the back links.
 */
module Chains {
  import opened Basics
  import opened Json
  import opened Traces
  import opened Dispatching

  /** A record together with the overlay it was computed from, in the order the snapshot lock was taken. */
  datatype Link = Link(rec: Record, overlay: Json)

  ghost predicate LinkedTo(l: Link, prev: Link) {
    l.rec.from == Some(prev.rec.id) && l.rec.change == Diff(Compute(prev.overlay, l.overlay))
  }

  /** The first record carries the whole overlay, each later one the delta from its predecessor; ids do not repeat. */
  ghost predicate Chain(broker: string, c: seq<Link>) {
    && (forall i :: 0 <= i < |c| ==> c[i].rec.broker == broker)
    && (c != [] ==> c[0].rec.from.None? && c[0].rec.change == Full(c[0].overlay))
    && (forall i :: 0 < i < |c| ==> LinkedTo(c[i], c[i - 1]))
    && (forall i, j :: 0 <= i < j < |c| ==> c[i].rec.id != c[j].rec.id)
  }

  function Recs(c: seq<Link>): seq<Record> {
    seq(|c|, i requires 0 <= i < |c| => c[i].rec)
  }

  /** No two records of a chain continue the same predecessor. */
  lemma Unforked(broker: string, c: seq<Link>, i: nat, j: nat)
    requires Chain(broker, c) && i < j < |c|
    ensures c[i].rec.from != c[j].rec.from
  {
    assert LinkedTo(c[j], c[j - 1]);
    if i > 0 { assert LinkedTo(c[i], c[i - 1]); }
  }

  // ----- The reader's side -----

  function Lookup(trace: seq<Record>, id: nat): (r: Option<Record>)
    ensures r.Some? ==> r.value in trace && r.value.id == id
    ensures r.None? ==> forall rec :: rec in trace ==> rec.id != id
  {
    if trace == [] then None
    else if trace[0].id == id then Some(trace[0])
    else Lookup(trace[1..], id)
  }

  /** The records reached from `id` by the back links, oldest first; `steps` bounds the walk. */
  function Walk(steps: nat, trace: seq<Record>, id: nat): seq<Record> {
    if steps == 0 then []
    else
      match Lookup(trace, id)
      case None => []
      case Some(rec) => (if rec.from.Some? then Walk(steps - 1, trace, rec.from.value) else []) + [rec]
  }

  /** Fold the deltas over the full first overlay. */
  function Replay(recs: seq<Record>): Json {
    if recs == [] then Null
    else
      match recs[|recs| - 1].change
      case Full(overlay) => overlay
      case Diff(delta) => Apply(Replay(recs[..|recs| - 1]), delta)
  }

  /** No step up to `i` is one whose delta also means something else. */
  ghost predicate Unambiguous(c: seq<Link>, i: nat)
    requires i < |c|
  {
    forall j :: 0 < j <= i ==> !Ambiguous(c[j - 1].overlay, c[j].overlay)
  }

  lemma {:induction false} ReplayChain(broker: string, c: seq<Link>, i: nat)
    requires Chain(broker, c) && i < |c| && Unambiguous(c, i)
    ensures Replay(Recs(c)[..i + 1]) == c[i].overlay
  {
    var part := Recs(c)[..i + 1];
    assert part[|part| - 1] == c[i].rec;
    if i > 0 {
      assert LinkedTo(c[i], c[i - 1]);
      assert part[..i] == Recs(c)[..i];
      ReplayChain(broker, c, i - 1);
      ApplyInvertsCompute(c[i - 1].overlay, c[i].overlay);
    }
  }

  /** The first ambiguous step is exactly where the replay goes wrong. */
  lemma ReplayBreaksAtAmbiguity(broker: string, c: seq<Link>, i: nat)
    requires Chain(broker, c) && 0 < i < |c| && Unambiguous(c, i - 1)
    ensures Replay(Recs(c)[..i + 1]) == c[i].overlay <==> !Ambiguous(c[i - 1].overlay, c[i].overlay)
  {
    var part := Recs(c)[..i + 1];
    assert part[|part| - 1] == c[i].rec && part[..i] == Recs(c)[..i];
    assert LinkedTo(c[i], c[i - 1]);
    ReplayChain(broker, c, i - 1);
    ApplyInvertsCompute(c[i - 1].overlay, c[i].overlay);
  }

  /** Every record of the chain is in the trace, and ids in the trace are not ambiguous. */
  ghost predicate Written(trace: seq<Record>, c: seq<Link>) {
    && (forall i :: 0 <= i < |c| ==> c[i].rec in trace)
    && (forall r, r' :: r in trace && r' in trace && r.id == r'.id ==> r == r')
  }

  lemma {:induction false} WalkChain(broker: string, trace: seq<Record>, c: seq<Link>, i: nat, steps: nat)
    requires Chain(broker, c) && Written(trace, c) && i < |c| && steps > i
    ensures Walk(steps, trace, c[i].rec.id) == Recs(c)[..i + 1]
  {
    assert c[i].rec in trace;
    assert Lookup(trace, c[i].rec.id) == Some(c[i].rec);
    assert Recs(c)[..i + 1] == Recs(c)[..i] + [c[i].rec];
    if i > 0 {
      assert LinkedTo(c[i], c[i - 1]);
      WalkChain(broker, trace, c, i - 1, steps - 1);
    }
  }

  /** From the trace alone, the overlay behind any record of the chain can be rebuilt. */
  lemma OverlayRecovered(broker: string, trace: seq<Record>, c: seq<Link>, i: nat)
    requires Chain(broker, c) && Written(trace, c) && i < |c| && Unambiguous(c, i)
    ensures Replay(Walk(|c|, trace, c[i].rec.id)) == c[i].overlay
  {
    WalkChain(broker, trace, c, i, |c|);
    ReplayChain(broker, c, i);
  }
}
