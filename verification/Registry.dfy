/**
 The broker registry. Catalogs are checked when a broker registers; afterwards the cluster-wide catalog
 answers a lookup the same way in whatever order the hash map lists the brokers, because an id's first
 segment names its owner. Ids without a slash suffice; exactly, no id may continue another after a slash.
 */
module Registry {
  import opened Basics
  import opened Json
  import opened Pipelines
  import opened Catalogs

  datatype Role = Sense | InnateAbility | Embodiment

  datatype RegistryError =
    | BrokerNotDeclared(id: string)
    | DuplicateBrokerId(id: string)
    | RoleSetMismatch(id: string)
    | UnknownRole(id: string, role: string)
    | CatalogViolation(id: string, why: CatalogError)
    | BrokerNotRegistered(id: string)

  function ParseRole(name: string): Option<Role> {
    match name
    case "sense" => Some(Sense)
    case "innate-ability" => Some(InnateAbility)
    case "embodiment" => Some(Embodiment)
    case _ => None
  }

  /** How a manifest writes a role. */
  function RoleName(role: Role): string {
    match role
    case Sense => "sense"
    case InnateAbility => "innate-ability"
    case Embodiment => "embodiment"
  }

  lemma RoleNamesExactly(name: string, role: Role)
    ensures ParseRole(name) == Some(role) <==> name == RoleName(role)
  {
  }

  /** Role names are read back as the roles they were written for; one unknown name refuses the list. */
  lemma {:induction false} RolesReadBack(names: seq<string>, roles: seq<Role>)
    ensures ParseRoles(names) == Ok(roles) <==>
            |names| == |roles| && forall i :: 0 <= i < |names| ==> names[i] == RoleName(roles[i])
    decreases |names|
  {
    hide ParseRole, RoleName;
    if names != [] {
      var first := ParseRole(names[0]);
      if roles != [] {
        RoleNamesExactly(names[0], roles[0]);
        RolesReadBack(names[1..], roles[1..]);
        assert roles == [roles[0]] + roles[1..];
      }
      if first.Some? && ParseRoles(names[1..]).Ok? {
        assert ([first.value] + ParseRoles(names[1..]).value)[1..] == ParseRoles(names[1..]).value;
      }
    }
  }

  /** Manifest role names in order, or the first one that is unknown. */
  function ParseRoles(names: seq<string>): Result<seq<Role>, string> {
    if names == [] then Ok([])
    else
      match ParseRole(names[0])
      case None => Err(names[0])
      case Some(role) =>
        Prepend([role], ParseRoles(names[1..]))
  }

  function Prepend(front: seq<Role>, parsed: Result<seq<Role>, string>): Result<seq<Role>, string> {
    match parsed
    case Err(bad) => Err(bad)
    case Ok(rest) => Ok(front + rest)
  }

  lemma PrependSnoc(front: seq<Role>, role: Role, parsed: Result<seq<Role>, string>)
    ensures Prepend(front + [role], parsed) == Prepend(front, Prepend([role], parsed))
  {
    if parsed.Ok? { assert (front + [role]) + parsed.value == front + ([role] + parsed.value); }
  }

  type CatalogMap = map<string, seq<Pipeline>>

  /** The catalogs of the listed brokers, one after the other. */
  function Flatten(catalogs: CatalogMap, order: seq<string>): seq<Pipeline>
    requires forall i :: 0 <= i < |order| ==> order[i] in catalogs
  {
    if order == [] then []
    else catalogs[order[0]] + Flatten(catalogs, order[1..])
  }

  /** An order in which the map may list its keys. */
  ghost predicate Lists(catalogs: CatalogMap, order: seq<string>) {
    && (forall i :: 0 <= i < |order| ==> order[i] in catalogs)
    && (forall b :: b in catalogs ==> b in order)
    && (forall i, j :: 0 <= i < j < |order| ==> order[i] != order[j])
  }

  /** Every catalog was accepted for its broker, and broker ids contain no slash. */
  ghost predicate Owned(catalogs: CatalogMap) {
    forall b :: b in catalogs ==> '/' !in b && Accepted(catalogs[b], b, Allow)
  }

  lemma IdNamesOwner(catalogs: CatalogMap, b: string, p: Pipeline)
    requires Owned(catalogs) && b in catalogs && p in catalogs[b]
    ensures BeforeSlash(p.id) == b
  {
    assert Lawful(p, b, Allow);
    PrefixNamesOwner(b, p.id);
  }

  lemma {:induction false} FindAppend(a: seq<Pipeline>, b: seq<Pipeline>, pid: string)
    ensures Find(a + b, pid) == if Find(a, pid).Some? then Find(a, pid) else Find(b, pid)
  {
    if a == [] {
      assert a + b == b;
    } else {
      assert (a + b)[1..] == a[1..] + b;
      FindAppend(a[1..], b, pid);
    }
  }

  /** Lookup in the cluster catalog is lookup in the owner's catalog. */
  lemma {:induction false} FindAsksTheOwner(catalogs: CatalogMap, order: seq<string>, pid: string)
    requires Owned(catalogs) && forall i :: 0 <= i < |order| ==> order[i] in catalogs
    ensures Find(Flatten(catalogs, order), pid) ==
            if BeforeSlash(pid) in order then Find(catalogs[BeforeSlash(pid)], pid) else None
  {
    if order != [] {
      var b, rest := order[0], order[1..];
      FindAppend(catalogs[b], Flatten(catalogs, rest), pid);
      FindAsksTheOwner(catalogs, rest, pid);
      var here := Find(catalogs[b], pid);
      if here.Some? { IdNamesOwner(catalogs, b, here.value); }
      assert BeforeSlash(pid) in order <==> BeforeSlash(pid) == b || BeforeSlash(pid) in rest;
    }
  }

  /** So the answer does not depend on the order of iteration. */
  lemma LookupIgnoresOrder(catalogs: CatalogMap, one: seq<string>, two: seq<string>, pid: string)
    requires Owned(catalogs) && Lists(catalogs, one) && Lists(catalogs, two)
    ensures Find(Flatten(catalogs, one), pid) == Find(Flatten(catalogs, two), pid)
  {
    FindAsksTheOwner(catalogs, one, pid);
    FindAsksTheOwner(catalogs, two, pid);
    var b := BeforeSlash(pid);
    assert b in one <==> b in catalogs by { MembersAreKeys(catalogs, one, b); }
    assert b in two <==> b in catalogs by { MembersAreKeys(catalogs, two, b); }
  }

  lemma MembersAreKeys(catalogs: CatalogMap, order: seq<string>, b: string)
    requires Lists(catalogs, order)
    ensures b in order <==> b in catalogs
  {
  }

  lemma {:induction false} FlattenMembers(catalogs: CatalogMap, order: seq<string>, p: Pipeline)
    requires forall i :: 0 <= i < |order| ==> order[i] in catalogs
    ensures p in Flatten(catalogs, order) <==> exists b :: b in order && b in catalogs && p in catalogs[b]
  {
    if order != [] {
      FlattenMembers(catalogs, order[1..], p);
      assert forall b :: b in order <==> b == order[0] || b in order[1..];
    }
  }

  /** Ids in the cluster catalog are globally unique. */
  lemma {:induction false} FullCatalogDistinct(catalogs: CatalogMap, order: seq<string>)
    requires Owned(catalogs)
    requires forall i :: 0 <= i < |order| ==> order[i] in catalogs
    requires forall i, j :: 0 <= i < j < |order| ==> order[i] != order[j]
    ensures DistinctIds(Flatten(catalogs, order))
  {
    if order != [] {
      var b, rest := order[0], order[1..];
      var mine, others := catalogs[b], Flatten(catalogs, rest);
      FullCatalogDistinct(catalogs, rest);
      assert Accepted(mine, b, Allow);
      var all := mine + others;
      forall i, j | 0 <= i < j < |all| ensures all[i].id != all[j].id {
        if i < |mine| && j >= |mine| {
          IdNamesOwner(catalogs, b, mine[i]);
          FlattenMembers(catalogs, rest, all[j]);
          assert others[j - |mine|] == all[j];
          var owner :| owner in rest && owner in catalogs && all[j] in catalogs[owner];
          IdNamesOwner(catalogs, owner, all[j]);
        } else if i >= |mine| {
          assert all[i] == others[i - |mine|] && all[j] == others[j - |mine|];
        }
      }
    }
  }

  // ----- Exactly which broker ids make the order irrelevant -----

  /** No id continues another one after a slash. */
  ghost predicate Separated(ids: set<string>) {
    forall a, b :: a in ids && b in ids ==> !(a + "/" <= b)
  }

  ghost predicate AllAccepted(catalogs: CatalogMap) {
    forall b :: b in catalogs ==> Accepted(catalogs[b], b, Allow)
  }

  /** Whatever accepted catalogs brokers with these ids register, no lookup depends on the order. */
  ghost predicate OrderNeverMatters(ids: set<string>) {
    forall catalogs: CatalogMap, one: seq<string>, two: seq<string>, pid: string ::
      catalogs.Keys <= ids && AllAccepted(catalogs) && Lists(catalogs, one) && Lists(catalogs, two) ==>
        Find(Flatten(catalogs, one), pid) == Find(Flatten(catalogs, two), pid)
  }

  lemma SharedIdClashes(a: string, b: string, id: string)
    requires a != b && Catalogs.Owned(id, a) && Catalogs.Owned(id, b)
    ensures a + "/" <= b || b + "/" <= a
  {
    var x, y := a + "/", b + "/";
    assert forall i :: 0 <= i < |a| ==> x[i] == a[i] == id[i];
    assert forall i :: 0 <= i < |b| ==> y[i] == b[i] == id[i];
    assert x[|a|] == '/' == id[|a|] && y[|b|] == '/' == id[|b|];
    assert |a| == |b| ==> a == b;
    assert |a| < |b| ==> b[..|a| + 1] == x;
    assert |b| < |a| ==> a[..|b| + 1] == y;
  }

  /** The one catalog that has the id answers, wherever it stands. */
  lemma {:induction false} OnlyOneAnswers(catalogs: CatalogMap, order: seq<string>, b: string, pid: string)
    requires Separated(catalogs.Keys) && AllAccepted(catalogs)
    requires (forall i :: 0 <= i < |order| ==> order[i] in catalogs) && b in order
    requires b in catalogs && Find(catalogs[b], pid).Some?
    ensures Find(Flatten(catalogs, order), pid) == Find(catalogs[b], pid)
  {
    var first, rest := order[0], order[1..];
    FindAppend(catalogs[first], Flatten(catalogs, rest), pid);
    if first != b {
      var there, here := Find(catalogs[b], pid), Find(catalogs[first], pid);
      assert Lawful(there.value, b, Allow);
      if here.Some? {
        assert Lawful(here.value, first, Allow);
        SharedIdClashes(first, b, pid);
      }
      OnlyOneAnswers(catalogs, rest, b, pid);
    }
  }

  lemma {:induction false} NobodyAnswers(catalogs: CatalogMap, order: seq<string>, pid: string)
    requires forall i :: 0 <= i < |order| ==> order[i] in catalogs
    requires forall b :: b in catalogs ==> Find(catalogs[b], pid).None?
    ensures Find(Flatten(catalogs, order), pid).None?
  {
    if order != [] {
      FindAppend(catalogs[order[0]], Flatten(catalogs, order[1..]), pid);
      NobodyAnswers(catalogs, order[1..], pid);
    }
  }

  lemma SeparatedSuffices(catalogs: CatalogMap, one: seq<string>, two: seq<string>, pid: string)
    requires Separated(catalogs.Keys) && AllAccepted(catalogs) && Lists(catalogs, one) && Lists(catalogs, two)
    ensures Find(Flatten(catalogs, one), pid) == Find(Flatten(catalogs, two), pid)
  {
    if b :| b in catalogs && Find(catalogs[b], pid).Some? {
      OnlyOneAnswers(catalogs, one, b, pid);
      OnlyOneAnswers(catalogs, two, b, pid);
    } else {
      NobodyAnswers(catalogs, one, pid);
      NobodyAnswers(catalogs, two, pid);
    }
  }

  function Marked(id: string, mark: AuditClass): Pipeline {
    Pipeline(id, Internal, mark, Null, [], [], false)
  }

  /** When one id continues another, both brokers can claim a pipeline id, and the order decides which answers. */
  lemma ContinuedIdMakesOrderMatter(a: string, b: string)
    requires a + "/" <= b
    ensures var x := b + "/x";
      var catalogs: CatalogMap := map[a := [Marked(x, Capability)], b := [Marked(x, MetaObservation)]];
      && AllAccepted(catalogs) && Lists(catalogs, [a, b]) && Lists(catalogs, [b, a])
      && Find(Flatten(catalogs, [a, b]), x) != Find(Flatten(catalogs, [b, a]), x)
  {
    var x := b + "/x";
    var catalogs: CatalogMap := map[a := [Marked(x, Capability)], b := [Marked(x, MetaObservation)]];
    var stem := a + "/";
    assert x[..|stem|] == b[..|stem|] == stem;
    assert x[..|b| + 1] == b + "/";
    var one, two: seq<string> := [a, b], [b, a];
    assert one[1..] == [b] && two[1..] == [a];
    assert Flatten(catalogs, one)[0] == Marked(x, Capability);
    assert Flatten(catalogs, two)[0] == Marked(x, MetaObservation);
  }

  lemma OrderNeverMattersExactly(ids: set<string>)
    ensures OrderNeverMatters(ids) <==> Separated(ids)
    ensures (forall b :: b in ids ==> '/' !in b) ==> Separated(ids)
  {
    if Separated(ids) {
      forall catalogs: CatalogMap, one: seq<string>, two: seq<string>, pid: string
        | catalogs.Keys <= ids && AllAccepted(catalogs) && Lists(catalogs, one) && Lists(catalogs, two)
        ensures Find(Flatten(catalogs, one), pid) == Find(Flatten(catalogs, two), pid)
      {
        SeparatedSuffices(catalogs, one, two, pid);
      }
    } else {
      var a, b :| a in ids && b in ids && a + "/" <= b;
      ContinuedIdMakesOrderMatter(a, b);
      assert (a + "/")[|a|] == '/' == b[|a|];
    }
  }

  class BrokerRegistry {
    const manifests: map<string, seq<string>>   // declared broker id -> role names
    var brokers: map<string, seq<Role>>
    var catalogs: CatalogMap

    /** Catalogs in the registry belong to registered brokers and were accepted for them. */
    ghost predicate Valid()
      reads this
    {
      catalogs.Keys <= brokers.Keys <= manifests.Keys && AllAccepted(catalogs)
    }

    constructor (manifests: map<string, seq<string>>)
      ensures Valid() && this.manifests == manifests && brokers == map[] && catalogs == map[]
    {
      this.manifests, brokers, catalogs := manifests, map[], map[];
    }

    /** Why a registration of `id` that did not succeed was refused. */
    function RefusalOf(id: string, brokers: map<string, seq<Role>>): RegistryError {
      if id !in manifests then BrokerNotDeclared(id)
      else if id in brokers then DuplicateBrokerId(id)
      else
        match ParseRoles(manifests[id])
        case Err(role) => UnknownRole(id, role)
        case Ok(_) => RoleSetMismatch(id)
    }

    method RoleSetOf(id: string) returns (r: Result<seq<Role>, string>)
      requires id in manifests
      ensures r == ParseRoles(manifests[id])
    {
      hide ParseRole;
      var names, i := manifests[id], 0;
      var roles: seq<Role> := [];
      assert names[0..] == names;
      assert ParseRoles(names).Ok? ==> roles + ParseRoles(names).value == ParseRoles(names).value;
      while i < |names|
        invariant i <= |names|
        invariant ParseRoles(names) == Prepend(roles, ParseRoles(names[i..]))
      {
        assert names[i..][1..] == names[i + 1..];
        var role := ParseRole(names[i]);
        if role.None? { return Err(names[i]); }
        PrependSnoc(roles, role.value, ParseRoles(names[i + 1..]));
        roles := roles + [role.value];
        i := i + 1;
      }
      assert roles + [] == roles;
      r := Ok(roles);
    }

    /** Succeeds exactly for a declared id, not yet registered, whose roles are the manifest's. */
    method Register(id: string, roles: seq<Role>) returns (error: Option<RegistryError>)
      requires Valid()
      modifies this`brokers
      ensures Valid()
      ensures error.None? <==> id in manifests && id !in old(brokers) && ParseRoles(manifests[id]) == Ok(roles)
      ensures brokers == if error.None? then old(brokers)[id := roles] else old(brokers)
      ensures error.Some? ==> error.value == RefusalOf(id, old(brokers))
      ensures id !in manifests ==> error == Some(BrokerNotDeclared(id))
      ensures id in manifests && id in old(brokers) ==> error == Some(DuplicateBrokerId(id))
      ensures id in manifests && id !in old(brokers) ==>
                match ParseRoles(manifests[id])
                case Err(role) => error == Some(UnknownRole(id, role))
                case Ok(declared) => declared != roles ==> error == Some(RoleSetMismatch(id))
    {
      if id !in manifests { return Some(BrokerNotDeclared(id)); }
      if id in brokers { return Some(DuplicateBrokerId(id)); }
      var declared := RoleSetOf(id);
      if declared.Err? { return Some(UnknownRole(id, declared.error)); }
      if declared.value != roles { return Some(RoleSetMismatch(id)); }
      brokers := brokers[id := roles];
      return None;
    }

    /** The catalog is checked first; a refused registration leaves no trace of it. */
    method RegisterWithCatalog(
      id: string, roles: seq<Role>, catalog: seq<Pipeline>) returns (error: Option<RegistryError>)
      requires Valid()
      modifies this`brokers, this`catalogs
      ensures Valid()
      ensures error.None? <==>
        && Accepted(catalog, id, Allow)
        && id in manifests && id !in old(brokers) && ParseRoles(manifests[id]) == Ok(roles)
      ensures catalogs == if error.None? then old(catalogs)[id := catalog] else old(catalogs)
      ensures brokers == if error.None? then old(brokers)[id := roles] else old(brokers)
      ensures error.Some? && Accepted(catalog, id, Allow) ==> error.value == RefusalOf(id, old(brokers))
      ensures !Accepted(catalog, id, Allow) ==>
                && error.value.CatalogViolation? && error.value.id == id
                && BlamesFirst(catalog, id, Allow, error.value.why)
    {
      var fault := ValidateCatalog(catalog, id, Allow);
      if fault.Some? { return Some(CatalogViolation(id, fault.value)); }
      error := Register(id, roles);
      if error.Some? { return; }
      catalogs := catalogs[id := catalog];
    }

    /** Every declared broker is registered, or one that is not. */
    method Validate() returns (error: Option<RegistryError>)
      ensures error.None? <==> manifests.Keys <= brokers.Keys
      ensures error.Some? ==>
          error.value.BrokerNotRegistered? && error.value.id in manifests && error.value.id !in brokers
    {
      var todo := manifests.Keys;
      while todo != {}
        invariant todo <= manifests.Keys
        invariant forall b :: b in manifests && b !in todo ==> b in brokers
        decreases todo
      {
        var b :| b in todo;
        if b !in brokers { return Some(BrokerNotRegistered(b)); }
        todo := todo - {b};
      }
      return None;
    }

    /**
     The cluster catalog, in whatever order the map lists its entries; without slashes in broker ids,
     owners answer.
     */
    method FullCatalog() returns (out: seq<Pipeline>, ghost order: seq<string>)
      requires Valid()
      ensures Lists(catalogs, order) && out == Flatten(catalogs, order)
      ensures (forall b :: b in catalogs ==> '/' !in b) ==>
                && DistinctIds(out)
                && forall pid :: Find(out, pid) ==
                     if BeforeSlash(pid) in catalogs then Find(catalogs[BeforeSlash(pid)], pid) else None
    {
      out, order := [], [];
      var todo := catalogs.Keys;
      while todo != {}
        invariant todo <= catalogs.Keys
        invariant forall b :: b in order <==> b in catalogs && b !in todo
        invariant forall i, j :: 0 <= i < j < |order| ==> order[i] != order[j]
        invariant forall i :: 0 <= i < |order| ==> order[i] in catalogs
        invariant out == Flatten(catalogs, order)
        decreases todo
      {
        var b :| b in todo;
        todo := todo - {b};
        FlattenSnoc(catalogs, order, b);
        out := out + catalogs[b];
        order := order + [b];
      }
      if forall b :: b in catalogs ==> '/' !in b {
        FullCatalogDistinct(catalogs, order);
        forall pid
          ensures Find(out, pid) ==
                  if BeforeSlash(pid) in catalogs then Find(catalogs[BeforeSlash(pid)], pid) else None
        {
          FindAsksTheOwner(catalogs, order, pid);
        }
      }
    }
  }

  lemma {:induction false} FlattenSnoc(catalogs: CatalogMap, order: seq<string>, b: string)
    requires b in catalogs && forall i :: 0 <= i < |order| ==> order[i] in catalogs
    ensures Flatten(catalogs, order + [b]) == Flatten(catalogs, order) + catalogs[b]
  {
    if order == [] {
      assert [b][1..] == [];
      assert order + [b] == [b];
    } else {
      assert (order + [b])[1..] == order[1..] + [b];
      FlattenSnoc(catalogs, order[1..], b);
    }
  }
}
