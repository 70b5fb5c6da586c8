/** Catalog validation: what a broker's catalog must satisfy before its pipelines may run. */
module Catalogs {
  import opened Basics
  import opened Pipelines

  datatype CrossBrokerPolicy = Reject | Allow

  datatype CatalogError =
    | WrongPrefix(id: string)
    | DuplicateId(id: string)
    | CrossBroker(caller: string, callee: string)
    | BypassNeedsGovernance(id: string)

  predicate Owned(id: string, broker: string) {
    broker + "/" <= id
  }

  /** The ids of a broker are those that go on after its own id and a slash, even if with nothing. */
  lemma OwnedExactly(id: string, broker: string)
    ensures Owned(id, broker) <==> exists name :: id == broker + "/" + name
  {
    if Owned(id, broker) { assert id == broker + "/" + id[|broker| + 1..]; }
    if name :| id == broker + "/" + name { assert id[..|broker| + 1] == broker + "/"; }
  }

  /** `r` is the first of `calls` that leaves the broker. */
  ghost predicate FirstForeign(calls: seq<string>, broker: string, r: Option<string>) {
    match r
    case None => forall i :: 0 <= i < |calls| ==> Owned(calls[i], broker)
    case Some(x) => exists i :: 0 <= i < |calls| && IsFirstForeign(calls, broker, i) && calls[i] == x
  }

  ghost predicate IsFirstForeign(calls: seq<string>, broker: string, i: nat)
    requires i < |calls|
  {
    !Owned(calls[i], broker) && forall j :: 0 <= j < i ==> Owned(calls[j], broker)
  }

  lemma FirstOfBoth(a: seq<string>, b: seq<string>, broker: string, x: Option<string>, y: Option<string>)
    requires FirstForeign(a, broker, x) && FirstForeign(b, broker, y)
    ensures FirstForeign(a + b, broker, if x.Some? then x else y)
  {
    var all := a + b;
    if x.Some? {
      var i :| 0 <= i < |a| && IsFirstForeign(a, broker, i) && a[i] == x.value;
      assert IsFirstForeign(all, broker, i) && all[i] == x.value;
    } else if y.Some? {
      var i :| 0 <= i < |b| && IsFirstForeign(b, broker, i) && b[i] == y.value;
      assert IsFirstForeign(all, broker, |a| + i) && all[|a| + i] == y.value;
    }
  }

  /** The first reference, in step order, that leaves the broker. */
  function StepEscape(s: Step, broker: string): (r: Option<string>)
    ensures r.None? <==> forall ref :: ref in StepRefs(s) ==> Owned(ref, broker)
    ensures FirstForeign(StepCalls(s), broker, r)
  {
    match s
    case Leaf(_) => None
    case SubPipeline(sub, _) =>
      assert !Owned(sub, broker) ==> IsFirstForeign(StepCalls(s), broker, 0);
      if Owned(sub, broker) then None else Some(sub)
    case Guard(_, inner) => StepEscape(inner, broker)
    case Branch(_, t, f) =>
      var inTrue := StepEscape(t, broker);
      FirstOfBoth(StepCalls(t), StepCalls(f), broker, inTrue, StepEscape(f, broker));
      if inTrue.Some? then inTrue else StepEscape(f, broker)
  }

  function Escape(steps: seq<Step>, broker: string): (r: Option<string>)
    ensures r.None? <==> forall ref :: ref in Refs(steps) ==> Owned(ref, broker)
    ensures FirstForeign(Calls(steps), broker, r)
  {
    if steps == [] then None
    else
      var here := StepEscape(steps[0], broker);
      FirstOfBoth(StepCalls(steps[0]), Calls(steps[1..]), broker, here, Escape(steps[1..], broker));
      if here.Some? then here else Escape(steps[1..], broker)
  }

  /** One pipeline on its own: the prefix, reference and bypass rules. */
  ghost predicate Lawful(p: Pipeline, broker: string, policy: CrossBrokerPolicy) {
    && Owned(p.id, broker)
    && (policy.Reject? ==> forall ref :: ref in Refs(p.steps) ==> Owned(ref, broker))
    && (p.bypassesKillSwitch ==> p.auditClass.Governance?)
  }

  ghost predicate DistinctIds(catalog: seq<Pipeline>) {
    forall i, j :: 0 <= i < j < |catalog| ==> catalog[i].id != catalog[j].id
  }

  /** What acceptance means, said without reference to the order of the checks. */
  ghost predicate Accepted(catalog: seq<Pipeline>, broker: string, policy: CrossBrokerPolicy) {
    && (forall p :: p in catalog ==> Lawful(p, broker, policy))
    && DistinctIds(catalog)
  }

  ghost predicate SeenBefore(catalog: seq<Pipeline>, i: nat)
    requires i < |catalog|
  {
    exists j :: 0 <= j < i && catalog[j].id == catalog[i].id
  }

  /** `e` is the first complaint, in the order of the rules, about the pipeline at `i`. */
  ghost predicate Blames(catalog: seq<Pipeline>, broker: string, policy: CrossBrokerPolicy, e: CatalogError, i: nat)
    requires i < |catalog|
  {
    var p := catalog[i];
    var stays := policy.Reject? ==> forall ref :: ref in Refs(p.steps) ==> Owned(ref, broker);
    match e
    case WrongPrefix(id) => id == p.id && !Owned(id, broker)
    case DuplicateId(id) => id == p.id && Owned(id, broker) && SeenBefore(catalog, i)
    case CrossBroker(caller, callee) =>
      && caller == p.id && Owned(caller, broker) && !SeenBefore(catalog, i)
      && policy.Reject? && FirstForeign(Calls(p.steps), broker, Some(callee))
    case BypassNeedsGovernance(id) =>
      && id == p.id && Owned(id, broker) && !SeenBefore(catalog, i) && stays
      && p.bypassesKillSwitch && !p.auditClass.Governance?
  }

  /** `e` is the complaint about the first pipeline that is not acceptable after those before it. */
  ghost predicate BlamesFirst(catalog: seq<Pipeline>, broker: string, policy: CrossBrokerPolicy, e: CatalogError) {
    exists i: nat :: i < |catalog| && Accepted(catalog[..i], broker, policy) && Blames(catalog, broker, policy, e, i)
  }

  method ValidateCatalog(catalog: seq<Pipeline>, broker: string, policy: CrossBrokerPolicy)
    returns (fault: Option<CatalogError>)
    ensures fault.None? <==> Accepted(catalog, broker, policy)
    ensures fault.Some? ==> BlamesFirst(catalog, broker, policy, fault.value)
  {
    var seenIds: set<string> := {};
    var i := 0;
    while i < |catalog|
      invariant i <= |catalog|
      invariant forall id :: id in seenIds <==> exists j :: 0 <= j < i && catalog[j].id == id
      invariant Accepted(catalog[..i], broker, policy)
    {
      var p := catalog[i];
      assert p in catalog;
      if !Owned(p.id, broker) {
        return Some(WrongPrefix(p.id));
      }
      if p.id in seenIds {
        ghost var j :| 0 <= j < i && catalog[j].id == p.id;
        assert !DistinctIds(catalog);
        return Some(DuplicateId(p.id));
      }
      seenIds := seenIds + {p.id};
      if policy == Reject {
        var escape := Escape(p.steps, broker);
        if escape.Some? {
          assert !Lawful(p, broker, policy);
          return Some(CrossBroker(p.id, escape.value));
        }
      }
      if p.bypassesKillSwitch && !p.auditClass.Governance? {
        assert !Lawful(p, broker, policy);
        return Some(BypassNeedsGovernance(p.id));
      }
      assert catalog[..i + 1] == catalog[..i] + [p];
      i := i + 1;
    }
    assert catalog[..i] == catalog;
    return None;
  }
}
