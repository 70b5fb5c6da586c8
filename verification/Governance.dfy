/** The governance composer: budget counter, kill switch and the ordered subgate list, updated in place. */
module Governance {
  import opened Basics
  import opened Json
  import opened Pipelines
  import opened Dispatching

  /** Re-registering a name replaces its subgate where it stands; a new name goes last. */
  function Registered<S>(gates: seq<Gate<S>>, g: Gate<S>): (r: seq<Gate<S>>) {
    if gates == [] then [g]
    else if gates[0].name == g.name then [g] + gates[1..]
    else [gates[0]] + Registered(gates[1..], g)
  }

  ghost function Names<S>(gates: seq<Gate<S>>): (names: seq<string>)
    ensures |names| == |gates|
    ensures forall i :: 0 <= i < |gates| ==> names[i] == gates[i].name
  {
    if gates == [] then [] else [gates[0].name] + Names(gates[1..])
  }

  ghost predicate Distinct(names: seq<string>) {
    names == [] || (names[0] !in names[1..] && Distinct(names[1..]))
  }

  /** Registration keeps names distinct and in their order, and afterwards the new subgate is the one of its name. */
  lemma {:induction false} RegistrationKeepsOrder<S>(gates: seq<Gate<S>>, g: Gate<S>)
    requires Distinct(Names(gates))
    ensures Names(Registered(gates, g)) == if g.name in Names(gates) then Names(gates) else Names(gates) + [g.name]
    ensures Distinct(Names(Registered(gates, g)))
    ensures g in Registered(gates, g)
    ensures forall h :: h in Registered(gates, g) && h.name == g.name ==> h == g
  {
    if gates != [] {
      var rest := gates[1..];
      assert Names(gates)[1..] == Names(rest);
      var r := Registered(gates, g);
      if gates[0].name == g.name {
        assert r[1..] == rest;
        assert forall i :: 0 <= i < |rest| ==> Names(rest)[i] != g.name;
      } else {
        RegistrationKeepsOrder(rest, g);
        assert r[1..] == Registered(rest, g);
        assert Names(r) == [gates[0].name] + Names(Registered(rest, g));
      }
    }
  }

  /** Where the first subgate of this name stands decides what registration does. */
  lemma {:induction false} RegisteredAt<S>(gates: seq<Gate<S>>, g: Gate<S>, i: nat)
    requires i <= |gates| && (forall j :: 0 <= j < i ==> gates[j].name != g.name)
    requires i < |gates| ==> gates[i].name == g.name
    ensures Registered(gates, g) == if i < |gates| then gates[i := g] else gates + [g]
  {
    if i > 0 {
      RegisteredAt(gates[1..], g, i - 1);
      assert gates == [gates[0]] + gates[1..];
    } else if gates != [] {
      assert gates[0 := g] == [g] + gates[1..];
    }
  }

  class GovernanceComposer<!S> {
    var used: nat
    const ceiling: nat
    var armed: bool
    var gates: seq<Gate<S>>

    constructor (ceiling: nat)
      ensures this.ceiling == ceiling && used == 0 && !armed && gates == []
    {
      this.ceiling := ceiling;
      used, armed, gates := 0, false, [];
    }

    method RegisterPreDispatchSubgate(g: Gate<S>) returns (replaced: bool)
      modifies this`gates
      ensures gates == Registered(old(gates), g)
      ensures replaced <==> exists h :: h in old(gates) && h.name == g.name
    {
      var i := 0;
      while i < |gates| && gates[i].name != g.name
        invariant i <= |gates| && gates == old(gates)
        invariant forall j :: 0 <= j < i ==> gates[j].name != g.name
      {
        i := i + 1;
      }
      RegisteredAt(gates, g, i);
      replaced := i < |gates|;
      if replaced {
        gates := gates[i := g];
      } else {
        gates := gates + [g];
      }
    }

    /** Budget, then kill switch unless bypassed, then the subgates in order up to the first refusal. */
    method PreDispatchChecksFor(p: Pipeline, params: ParamMap, host: S) returns (host': S, refusal: Option<Refusal>)
      ensures refusal == (if BudgetCheck(used, ceiling).Some? then BudgetCheck(used, ceiling)
                          else if KillCheck(p, armed).Some? then KillCheck(p, armed)
                          else GateCheck(gates, p, params, host).1)
      ensures host' == if BudgetCheck(used, ceiling).Some? || KillCheck(p, armed).Some? then host
                       else GateCheck(gates, p, params, host).0
    {
      host' := host;
      refusal := BudgetCheck(used, ceiling);
      if refusal.Some? { return; }
      if !p.bypassesKillSwitch {
        refusal := KillCheck(p, armed);
        if refusal.Some? { return; }
      }
      var i := 0;
      while i < |gates|
        invariant i <= |gates|
        invariant GateCheck(gates, p, params, host) == GateCheck(gates[i..], p, params, host')
      {
        assert gates[i..][1..] == gates[i + 1..];
        var (next, verdict) := gates[i].check(p, params, host');
        host' := next;
        if verdict.Some? {
          return host', Some(Subgate(gates[i].name, verdict.value));
        }
        i := i + 1;
      }
      refusal := None;
    }

    method RecordDispatch()
      modifies this`used
      ensures used == old(used) + 1
    {
      used := used + 1;
    }

    method SetArmed(on: bool)
      modifies this`armed
      ensures armed == on
    {
      armed := on;
    }
  }
}
