/**
 The append-only cold store: a byte file that consumers read from offsets. A reader that always
 resumes at the offset its last read returned gets every record exactly once and in order, provided
 no append falls between the moment a read takes the file length and the moment it reads the lines.
 */
module ColdStores {
  import opened Basics
  import opened TextLines

  function Encode(records: seq<string>): string {
    if records == [] then "" else records[0] + "\n" + Encode(records[1..])
  }

  /** What a record must be to survive a line-based reader. */
  predicate Storable(record: string) {
    '\n' !in record && (record != "" ==> record[|record| - 1] != '\r')
  }

  predicate AllStorable(records: seq<string>) {
    forall i :: 0 <= i < |records| ==> Storable(records[i])
  }

  /** A read whose length and contents were taken from `before` and `after`. */
  function ReadBetween(before: string, after: string, offset: nat): (nat, seq<string>)
    requires |before| <= |after|
  {
    if offset >= |before| then (|before|, []) else (|before|, Lines(after[offset..]))
  }

  function ReadFrom(file: string, offset: nat): (nat, seq<string>) {
    ReadBetween(file, file, offset)
  }

  lemma {:induction false} EncodeAppend(a: seq<string>, b: seq<string>)
    ensures Encode(a + b) == Encode(a) + Encode(b)
    ensures a != [] ==> |Encode(a)| > 0
  {
    if a == [] {
      assert a + b == b;
    } else {
      assert (a + b)[1..] == a[1..] + b;
      EncodeAppend(a[1..], b);
      assert Encode(a + b) == (a[0] + "\n") + (Encode(a[1..]) + Encode(b));
      assert Encode(a) == (a[0] + "\n") + Encode(a[1..]);
    }
  }

  lemma {:induction false} LinesOfEncoded(records: seq<string>)
    requires AllStorable(records)
    ensures Lines(Encode(records)) == records
  {
    hide Lines;
    if records == [] {
      NoLines();
    } else {
      assert Storable(records[0]);
      FirstLineOf(records[0], Encode(records[1..]));
      LinesOfEncoded(records[1..]);
    }
  }

  lemma NoLines()
    ensures Lines("") == []
  {
  }

  /** A record comes back as one line, unchanged, exactly when it is storable. */
  lemma StorableExact(record: string)
    ensures Lines(Encode([record])) == [record] <==> Storable(record)
  {
    var text := record + "\n";
    assert [record][1..] == [];
    assert Encode([record]) == text + "" == text;
    if '\n' !in record {
      FirstLineOf(record, "");
      assert record + "\n" + "" == text;
      assert Lines(text) == [DropCarriageReturn(record)];
    } else {
      var i := IndexOf(text, '\n');
      var k :| 0 <= k < |record| && record[k] == '\n';
      IndexOfAtMost(text, '\n', k);
      assert Lines(text)[0] == DropCarriageReturn(text[..i]);
      assert |Lines(text)[0]| < |record|;
    }
  }

  /** Reading from the offset some append returned yields exactly the later records. */
  lemma ReadAfterAppend(early: seq<string>, later: seq<string>)
    requires AllStorable(later)
    ensures ReadFrom(Encode(early + later), |Encode(early)|) == (|Encode(early + later)|, later)
  {
    EncodeAppend(early, later);
    EncodeAppend(later, []);
    LinesOfEncoded(later);
    assert Encode(early + later)[|Encode(early)|..] == Encode(later);
  }

  lemma ReadAll(records: seq<string>)
    requires AllStorable(records)
    ensures ReadFrom(Encode(records), 0) == (|Encode(records)|, records)
  {
    ReadAfterAppend([], records);
    assert [] + records == records;
  }

  // ----- A reader and writers over time -----

  /** `Read(during)`: the records appended between the read's two looks at the file. */
  datatype Action = Append(record: string) | Read(during: seq<string>)

  datatype System = System(appended: seq<string>, cursor: nat, delivered: seq<string>)

  function Do(s: System, a: Action): System {
    match a
    case Append(record) => s.(appended := s.appended + [record])
    case Read(during) =>
      EncodeAppend(s.appended, during);
      var (next, lines) := ReadBetween(Encode(s.appended), Encode(s.appended + during), s.cursor);
      System(s.appended + during, next, s.delivered + lines)
  }

  function DoAll(s: System, actions: seq<Action>): System
    decreases |actions|
  {
    if actions == [] then s else DoAll(Do(s, actions[0]), actions[1..])
  }

  /** The reader has been given exactly the first `k` records, and its cursor stands after them. */
  predicate InSync(s: System, k: nat) {
    k <= |s.appended| && s.delivered == s.appended[..k] && s.cursor == |Encode(s.appended[..k])|
  }

  predicate ActionStorable(a: Action) {
    match a
    case Append(record) => Storable(record)
    case Read(during) => AllStorable(during)
  }

  /** A read keeps the reader in sync exactly when nothing was appended meanwhile, or there was nothing to read. */
  lemma ReadInSyncExactly(s: System, k: nat, during: seq<string>)
    requires InSync(s, k) && AllStorable(s.appended) && AllStorable(during)
    ensures (exists m: nat :: InSync(Do(s, Read(during)), m)) <==> during == [] || k == |s.appended|
    ensures during == [] || k == |s.appended| ==> InSync(Do(s, Read(during)), |s.appended|)
  {
    hide Lines;
    var early, rest := s.appended[..k], s.appended[k..];
    var e := Do(s, Read(during));
    assert s.appended == early + rest;
    assert s.appended + during == early + (rest + during);
    EncodeAppend(early, rest);
    EncodeAppend(early, rest + during);
    EncodeAppend(rest, during);
    EncodeAppend(s.appended, during);
    assert e.appended[..|s.appended|] == s.appended;
    if rest == [] {
      assert early == s.appended;
      assert InSync(e, |s.appended|);
    } else {
      LinesOfEncoded(rest + during);
      assert Encode(s.appended + during)[s.cursor..] == Encode(rest + during);
      assert e.delivered == early + (rest + during) == e.appended;
      if during == [] {
        assert InSync(e, |s.appended|);
      } else {
        forall m: nat ensures !InSync(e, m) {
          if m < |e.appended| { assert |e.appended[..m]| < |e.delivered|; }
          if m == |e.appended| {
            assert e.appended[..m] == e.appended;
            EncodeAppend(during, []);
          }
        }
      }
    }
  }

  /** Runs whose reads are not overlapped by appends. */
  predicate Undisturbed(actions: seq<Action>) {
    forall i :: 0 <= i < |actions| ==> ActionStorable(actions[i]) && (actions[i].Read? ==> actions[i].during == [])
  }

  lemma {:induction false} RunInSync(s: System, k: nat, actions: seq<Action>) returns (m: nat)
    requires InSync(s, k) && AllStorable(s.appended) && Undisturbed(actions)
    ensures InSync(DoAll(s, actions), m) && AllStorable(DoAll(s, actions).appended)
    ensures actions != [] && actions[|actions| - 1].Read? ==> m == |DoAll(s, actions).appended|
    decreases |actions|
  {
    hide Encode, ReadBetween;
    if actions == [] {
      m := k;
    } else {
      var a := actions[0];
      assert ActionStorable(a);
      var next := Do(s, a);
      var k' := k;
      if a.Read? {
        ReadInSyncExactly(s, k, a.during);
        assert s.appended + [] == s.appended;
        k' := |s.appended|;
      } else {
        assert next.appended[..k] == s.appended[..k];
      }
      m := RunInSync(next, k', actions[1..]);
    }
  }

  /**
   Exactly once and in order: what a reader that began at offset zero has got is always a prefix of
   what was appended, and all of it after a read.
   */
  lemma ExactlyOnceInOrder(start: System, actions: seq<Action>)
    requires start.cursor == 0 && start.delivered == [] && AllStorable(start.appended) && Undisturbed(actions)
    ensures var s := DoAll(start, actions);
      && s.delivered <= s.appended
      && (actions != [] && actions[|actions| - 1].Read? ==> s.delivered == s.appended)
  {
    assert InSync(start, 0);
    var m := RunInSync(start, 0, actions);
    var s := DoAll(start, actions);
    assert s.appended[..|s.appended|] == s.appended;
  }

  // ----- The store object -----

  function NonEmpty(lines: seq<string>): nat {
    if lines == [] then 0 else (if lines[0] != "" then 1 else 0) + NonEmpty(lines[1..])
  }

  class JsonlColdStore {
    var file: string
    ghost var records: seq<string>

    ghost predicate Valid()
      reads this
    {
      file == Encode(records)
    }

    constructor ()
      ensures Valid() && records == []
    {
      file, records := "", [];
    }

    method Append(record: string) returns (offset: nat)
      requires Valid()
      modifies this
      ensures Valid() && records == old(records) + [record]
      ensures offset == |Encode(records)|
    {
      EncodeAppend(records, [record]);
      assert [record][1..] == [];
      assert Encode([record]) == record + "\n";
      file := file + record + "\n";
      records := records + [record];
      offset := |file|;
    }

    method ReadRecordsFrom(offset: nat) returns (next: nat, lines: seq<string>)
      requires Valid()
      ensures (next, lines) == ReadFrom(Encode(records), offset)
    {
      next := |file|;
      if offset >= next { return next, []; }
      lines := Lines(file[offset..]);
    }

    /** The diagnostic count of the lines that are not empty; for storable records, of the records that are not. */
    method Len() returns (n: nat)
      requires Valid()
      ensures n == NonEmpty(ReadFrom(Encode(records), 0).1)
      ensures AllStorable(records) ==> n == NonEmpty(records)
    {
      hide Lines, Encode, ReadFrom, ReadBetween;
      var _, lines := ReadRecordsFrom(0);
      if AllStorable(records) { ReadAll(records); }
      n := 0;
      var i := 0;
      while i < |lines|
        invariant i <= |lines| && n + NonEmpty(lines[i..]) == NonEmpty(lines)
      {
        assert lines[i..][1..] == lines[i + 1..];
        if lines[i] != "" { n := n + 1; }
        i := i + 1;
      }
    }
  }
}
