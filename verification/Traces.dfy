/**
 Snapshot deltas. The trace stores, for each dispatch, only what changed in the broker's
 overlay since the broker's previous record; the promise is that `Apply` undoes `Compute`.
 */
module Traces {
  import opened Basics
  import opened Json

  const ROOT := "__root__"

  datatype Change = Change(from: Json, to: Json)

  datatype SnapshotDelta = SnapshotDelta(
    added: map<string, Json>,
    removed: set<string>,
    changed: map<string, Change>)

  function Compute(prior: Json, current: Json): SnapshotDelta {
    if prior.Obj? && current.Obj? then
      var p, c := prior.fields, current.fields;
      SnapshotDelta(
        map k | k in c && k !in p :: c[k],
        set k | k in p && k !in c,
        map k | k in c && k in p && p[k] != c[k] :: Change(p[k], c[k]))
    else
      SnapshotDelta(map[ROOT := current], {}, map[])
  }

  /** A delta that can only stand for "the whole value became this non-object". */
  predicate ReplacesRoot(d: SnapshotDelta) {
    d.removed == {} && d.changed == map[] && d.added.Keys == {ROOT} && !d.added[ROOT].Obj?
  }

  function Apply(prior: Json, d: SnapshotDelta): Json {
    if prior.Obj? && !ReplacesRoot(d) then
      Obj((prior.fields - d.removed) + d.added + (map k | k in d.changed :: d.changed[k].to))
    else if ROOT in d.added then d.added[ROOT]
    else prior
  }

  /** The one kind of step whose delta also describes another step: an object gains just `__root__`. */
  predicate Ambiguous(prior: Json, current: Json) {
    && prior.Obj? && current.Obj?
    && ROOT !in prior.fields && ROOT in current.fields
    && !current.fields[ROOT].Obj?
    && current.fields == prior.fields[ROOT := current.fields[ROOT]]
  }

  lemma ApplyInvertsCompute(prior: Json, current: Json)
    ensures Apply(prior, Compute(prior, current)) == current <==> !Ambiguous(prior, current)
  {
    if prior.Obj? && current.Obj? {
      var d := Compute(prior, current);
      var p, c := prior.fields, current.fields;
      if ReplacesRoot(d) {
        assert ROOT in d.added;
        assert forall k :: k in p ==> k in c && p[k] == c[k] by {
          forall k | k in p ensures k in c && p[k] == c[k] {
            assert k !in d.removed && k !in d.changed;
          }
        }
        assert forall k :: k in c && k !in p ==> k in d.added;
        assert c == p[ROOT := c[ROOT]];
      } else {
        var back := (p - d.removed) + d.added + (map k | k in d.changed :: d.changed[k].to);
        assert back.Keys == c.Keys;
        assert back == c;
        if Ambiguous(prior, current) { AmbiguousDelta(prior, current); }
      }
    }
  }

  lemma AmbiguousDelta(prior: Json, current: Json)
    requires Ambiguous(prior, current)
    ensures Compute(prior, current) == SnapshotDelta(map[ROOT := current.fields[ROOT]], {}, map[])
  {
    var d := Compute(prior, current);
    assert d.added == map[ROOT := current.fields[ROOT]];
    assert d.removed == {};
    assert d.changed == map[];
  }

  /** On an ambiguous step no decoder whatsoever can undo `Compute`: two values share the delta. */
  lemma NoDecoderForAmbiguous(prior: Json, current: Json, decode: (Json, SnapshotDelta) -> Json)
    requires Ambiguous(prior, current)
    ensures var other := current.fields[ROOT];
            !(decode(prior, Compute(prior, current)) == current && decode(prior, Compute(prior, other)) == other)
  {
    AmbiguousDelta(prior, current);
  }

  // ----- Backwards -----

  /** What a delta says of the value before it: added keys go, and changed ones get their old values back. */
  function Revert(current: Json, d: SnapshotDelta): Json {
    if current.Obj? then Obj((current.fields - d.added.Keys) + (map k | k in d.changed :: d.changed[k].from))
    else current
  }

  /** The step removes nothing, and both values are objects. */
  predicate OnlyGains(prior: Json, current: Json) {
    prior.Obj? && current.Obj? && forall k :: k in prior.fields ==> k in current.fields
  }

  /** Backwards the delta leads to the value before whenever no key was removed. */
  lemma RevertUndoes(prior: Json, current: Json)
    requires OnlyGains(prior, current)
    ensures Revert(current, Compute(prior, current)) == prior
  {
    var d := Compute(prior, current);
    var back := (current.fields - d.added.Keys) + (map k | k in d.changed :: d.changed[k].from);
    assert back.Keys == prior.fields.Keys;
    assert back == prior.fields;
  }

  /** And exactly then: what was removed, or was no object, is not in the delta, so another value has the same one. */
  lemma RemovedIsLost(prior: Json, current: Json) returns (other: Json)
    requires !OnlyGains(prior, current)
    ensures other != prior && Compute(other, current) == Compute(prior, current)
  {
    if !prior.Obj? {
      other := if prior == Null then Bool(true) else Null;
    } else if !current.Obj? {
      other := Null;
    } else {
      var k :| k in prior.fields && k !in current.fields;
      var v := if prior.fields[k] == Null then Bool(true) else Null;
      other := Obj(prior.fields[k := v]);
      assert other.fields[k] != prior.fields[k];
      var d, d' := Compute(prior, current), Compute(other, current);
      assert d.added == d'.added && d.removed == d'.removed && d.changed == d'.changed;
    }
  }

  ghost predicate NoDuplicates<T>(s: seq<T>) {
    forall i, j :: 0 <= i < j < |s| ==> s[i] != s[j]
  }

  /** The delta as the source fills it in: two passes over the keys, one entry at a time. */
  method ComputeDelta(prior: Json, current: Json)
    returns (added: map<string, Json>, removed: seq<string>, changed: map<string, Change>)
    ensures added == Compute(prior, current).added
    ensures changed == Compute(prior, current).changed
    ensures forall k :: k in removed <==> k in Compute(prior, current).removed
    ensures NoDuplicates(removed)
  {
    added, removed, changed := map[], [], map[];
    if !(prior.Obj? && current.Obj?) {
      added := map[ROOT := current];
      return;
    }
    var p, c := prior.fields, current.fields;
    var todo := c.Keys;
    while todo != {}
      invariant todo <= c.Keys
      invariant forall k :: k in added <==> k in c && k !in todo && k !in p
      invariant forall k :: k in added ==> added[k] == c[k]
      invariant forall k :: k in changed <==> k in c && k !in todo && k in p && p[k] != c[k]
      invariant forall k :: k in changed ==> changed[k] == Change(p[k], c[k])
      decreases todo
    {
      var key :| key in todo;
      todo := todo - {key};
      if key !in p {
        added := added[key := c[key]];
      } else if p[key] != c[key] {
        changed := changed[key := Change(p[key], c[key])];
      }
    }
    assert added == Compute(prior, current).added;
    assert changed == Compute(prior, current).changed;
    todo := p.Keys;
    while todo != {}
      invariant todo <= p.Keys
      invariant forall k :: k in removed <==> k in p && k !in todo && k !in c
      invariant NoDuplicates(removed)
      decreases todo
    {
      var key :| key in todo;
      todo := todo - {key};
      if key !in c {
        removed := removed + [key];
      }
    }
  }
}
