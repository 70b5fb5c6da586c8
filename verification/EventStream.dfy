/**
 The client's incremental Server-Sent-Events framer: bytes arrive in arbitrary chunks, events are cut
 at blank lines, and the `data:` lines of each event are put back together. It covers the part of
 sections 9.2.5 and 9.2.6 of the WHATWG HTML Living Standard that the transport uses. Bytes and
 decoded characters are both modelled as `char`; a line feed byte never occurs inside another character.
 */
module EventStream {
  import opened Basics
  import opened TextLines

  // ----- Framing -----

  /** A blank line begins here: two line feeds in a row. */
  predicate BreakAt(s: string, i: nat) {
    i + 1 < |s| && s[i] == '\n' && s[i + 1] == '\n'
  }

  /** Position of the first `\n\n`, or the length when there is none. */
  function FindDoubleNewline(buf: string): (i: nat)
    ensures i <= |buf|
    ensures forall j :: 0 <= j < i ==> !BreakAt(buf, j)
    ensures i < |buf| ==> BreakAt(buf, i)
  {
    if buf == "" || BreakAt(buf, 0) then 0
    else
      assert forall j :: 0 < j < |buf| ==> BreakAt(buf, j) == BreakAt(buf[1..], j - 1);
      1 + FindDoubleNewline(buf[1..])
  }

  /** All complete events of a buffer, and what is left of it. */
  function Split(buf: string): (seq<string>, string)
    decreases |buf|
  {
    var i := FindDoubleNewline(buf);
    if i == |buf| then ([], buf)
    else
      var (events, rest) := Split(buf[i + 2..]);
      ([buf[..i]] + events, rest)
  }

  lemma {:induction false} FindAppend(a: string, b: string)
    requires FindDoubleNewline(a) < |a|
    ensures FindDoubleNewline(a + b) == FindDoubleNewline(a)
  {
    if !BreakAt(a, 0) {
      assert (a + b)[1..] == a[1..] + b;
      FindAppend(a[1..], b);
    }
  }

  /** Cutting events early, as soon as they are complete, changes nothing. */
  lemma {:induction false} SplitAppend(a: string, b: string)
    ensures var (events, rest) := Split(a);
      var (more, left) := Split(rest + b);
      Split(a + b) == (events + more, left)
    decreases |a|
  {
    hide FindDoubleNewline;
    var i := FindDoubleNewline(a);
    if i < |a| {
      FindAppend(a, b);
      assert (a + b)[..i] == a[..i];
      assert (a + b)[i + 2..] == a[i + 2..] + b;
      SplitAppend(a[i + 2..], b);
      var (events, rest) := Split(a[i + 2..]);
      var (more, left) := Split(rest + b);
      assert [a[..i]] + (events + more) == ([a[..i]] + events) + more;
    } else {
      assert [] + Split(a + b).0 == Split(a + b).0;
    }
  }

  /** What the byte stream yields: data, or a read error that leaves the buffer alone. */
  datatype Chunk = Data(bytes: string) | Failed

  datatype Item = Event(text: string) | ReadError

  function Items(events: seq<string>): seq<Item> {
    seq(|events|, i requires 0 <= i < |events| => Event(events[i]))
  }

  function Feed(buf: string, c: Chunk): (seq<Item>, string) {
    match c
    case Failed => ([ReadError], buf)
    case Data(bytes) =>
      var (events, rest) := Split(buf + bytes);
      (Items(events), rest)
  }

  function FeedAll(buf: string, chunks: seq<Chunk>): (seq<Item>, string)
    decreases |chunks|
  {
    if chunks == [] then ([], buf)
    else
      var (now, rest) := Feed(buf, chunks[0]);
      var (later, left) := FeedAll(rest, chunks[1..]);
      (now + later, left)
  }

  function Joined(chunks: seq<Chunk>): string {
    if chunks == [] then ""
    else (if chunks[0].Data? then chunks[0].bytes else "") + Joined(chunks[1..])
  }

  /** The events among the items, read errors left out. */
  function Texts(items: seq<Item>): seq<string> {
    if items == [] then []
    else (if items[0].Event? then [items[0].text] else []) + Texts(items[1..])
  }

  lemma {:induction false} TextsAppend(a: seq<Item>, b: seq<Item>)
    ensures Texts(a + b) == Texts(a) + Texts(b)
  {
    if a == [] {
      assert a + b == b;
    } else {
      assert (a + b)[1..] == a[1..] + b;
      TextsAppend(a[1..], b);
    }
  }

  lemma {:induction false} TextsOfItems(events: seq<string>)
    ensures Texts(Items(events)) == events
  {
    if events != [] {
      assert Items(events)[1..] == Items(events[1..]);
      TextsOfItems(events[1..]);
    }
  }

  /**
   However the bytes are cut into chunks, and whatever read errors come between them, the events and
   the leftover are those of the whole.
   */
  lemma {:induction false} ChunkingIsIrrelevant(buf: string, chunks: seq<Chunk>)
    requires Split(buf) == ([], buf)
    ensures var (items, left) := FeedAll(buf, chunks);
      (Texts(items), left) == Split(buf + Joined(chunks))
    decreases |chunks|
  {
    hide Split;
    if chunks == [] {
      assert buf + "" == buf;
    } else {
      var bytes := if chunks[0].Data? then chunks[0].bytes else "";
      var (now, rest) := Feed(buf, chunks[0]);
      var (later, left) := FeedAll(rest, chunks[1..]);
      assert buf + Joined(chunks) == (buf + bytes) + Joined(chunks[1..]);
      SplitAppend(buf + bytes, Joined(chunks[1..]));
      if chunks[0].Data? {
        TextsOfItems(Split(buf + bytes).0);
        LeftoverIsSplit(buf + bytes);
      } else {
        assert buf + bytes == buf;
      }
      ChunkingIsIrrelevant(rest, chunks[1..]);
      TextsAppend(now, later);
      assert chunks[0].Failed? ==> Texts(now) == [] by { if chunks[0].Failed? { assert now[1..] == []; } }
    }
  }

  lemma {:induction false} LeftoverIsSplit(buf: string)
    ensures var rest := Split(buf).1; Split(rest) == ([], rest)
    decreases |buf|
  {
    hide FindDoubleNewline;
    var i := FindDoubleNewline(buf);
    if i < |buf| { LeftoverIsSplit(buf[i + 2..]); }
  }

  // ----- One event -----

  const FIELD := "data:"

  /** The data collected so far, extended by one line of the event. */
  function AddLine(data: string, line: string): string {
    if FIELD <= line then (if data == "" then "" else data + "\n") + TrimStart(line[|FIELD|..]) else data
  }

  function Collect(data: string, lines: seq<string>): string
    decreases |lines|
  {
    if lines == [] then data else Collect(AddLine(data, lines[0]), lines[1..])
  }

  /** The payload of an event, or nothing when it carries no data. */
  function Parse(text: string): Option<string> {
    var data := Collect("", Lines(text));
    if data == "" then None else Some(data)
  }

  // ----- Printing -----

  predicate Clean(line: string) {
    line != "" && !IsSpace(line[0]) && '\n' !in line && '\r' !in line
  }

  predicate CleanEvent(lines: seq<string>) {
    lines != [] && forall i :: 0 <= i < |lines| ==> Clean(lines[i])
  }

  function Join(lines: seq<string>): string {
    if lines == [] then ""
    else if |lines| == 1 then lines[0]
    else lines[0] + "\n" + Join(lines[1..])
  }

  function Field(line: string): string { FIELD + " " + line }

  /** The text of an event up to, not including, its blank line. */
  function Block(lines: seq<string>): string {
    if lines == [] then ""
    else if |lines| == 1 then Field(lines[0])
    else Field(lines[0]) + "\n" + Block(lines[1..])
  }

  function Stream(events: seq<seq<string>>): string {
    if events == [] then "" else Block(events[0]) + "\n\n" + Stream(events[1..])
  }

  lemma FieldParsed(data: string, line: string)
    requires line != "" && !IsSpace(line[0])
    ensures AddLine(data, Field(line)) == (if data == "" then "" else data + "\n") + line
  {
    assert Field(line)[..|FIELD|] == FIELD;
    assert Field(line)[|FIELD|..] == " " + line;
    assert (" " + line)[1..] == line;
    assert TrimStart(" " + line) == TrimStart(line);
  }

  lemma FieldIsOneLine(line: string)
    requires Clean(line)
    ensures '\n' !in Field(line) && '\r' !in Field(line) && Field(line) != ""
  {
    assert '\n' !in FIELD + " " && '\r' !in FIELD + " ";
  }

  lemma NothingToDrop(line: string)
    requires '\r' !in line
    ensures DropCarriageReturn(line) == line
  {
  }

  lemma NotBlank(line: string)
    requires Clean(line)
    ensures line != "" && !IsSpace(line[0])
  {
  }

  lemma CollectOne(data: string, line: string, rest: seq<string>)
    ensures Collect(data, [line] + rest) == Collect(AddLine(data, line), rest)
    ensures Collect(data, [line]) == Collect(AddLine(data, line), [])
    ensures Collect(AddLine(data, line), []) == AddLine(data, line)
  {
    assert ([line] + rest)[1..] == rest;
    var only: seq<string> := [line];
    assert only[1..] == [];
  }

  lemma {:induction false} BlockCollected(data: string, lines: seq<string>)
    requires CleanEvent(lines)
    ensures Block(lines) != ""
    ensures Collect(data, Lines(Block(lines))) == (if data == "" then "" else data + "\n") + Join(lines)
    decreases |lines|
  {
    hide Lines, Clean, AddLine, Collect, Field;
    var line := lines[0];
    NotBlank(line);
    FieldIsOneLine(line);
    FieldParsed(data, line);
    var data' := AddLine(data, Field(line));
    if |lines| == 1 {
      OnlyLine(Field(line));
      CollectOne(data, Field(line), []);
    } else {
      BlockCollected(data', lines[1..]);
      var rest := Block(lines[1..]);
      FirstLineOf(Field(line), rest);
      NothingToDrop(Field(line));
      CollectOne(data, Field(line), Lines(rest));
    }
  }

  /** Reading back what was printed. */
  lemma ParseBlock(lines: seq<string>)
    requires CleanEvent(lines)
    ensures Parse(Block(lines)) == Some(Join(lines))
  {
    hide Lines, Block, Collect, Join;
    BlockCollected("", lines);
    assert "" + Join(lines) == Join(lines);
    JoinNotEmpty(lines);
  }

  lemma JoinNotEmpty(lines: seq<string>)
    requires CleanEvent(lines)
    ensures Join(lines) != ""
  {
    NotBlank(lines[0]);
  }

  /** A single line comes back unchanged exactly when it is not empty and does not begin with white space. */
  lemma OneLineExact(line: string)
    requires '\n' !in line
    ensures Parse(Block([line])) == Some(line) <==> line != "" && !IsSpace(line[0])
  {
    var text := Field(line);
    assert '\n' !in FIELD + " ";
    OnlyLine(text);
    assert text[..|FIELD|] == FIELD;
    assert text[|FIELD|..] == " " + line;
    assert (" " + line)[1..] == line;
    assert TrimStart(" " + line) == TrimStart(line);
    var only: seq<string> := [text];
    assert only[1..] == [];
    assert Collect("", only) == Collect(TrimStart(line), []);
    TrimmedStart(line);
  }

  lemma NoEarlierBreak(text: string, rest: string, k: nat)
    requires k < |text| && text[|text| - 1] != '\n' && !BreakAt(text, k)
    ensures !BreakAt(text + rest, k)
  {
    var whole := text + rest;
    assert whole[k] == text[k];
    if k + 1 < |text| { assert whole[k + 1] == text[k + 1]; }
  }

  /** After a text without a blank line, the first blank line is the one that follows it. */
  lemma NoBreakInside(text: string, tail: string)
    requires text != "" && text[|text| - 1] != '\n'
    requires forall i :: 0 <= i < |text| ==> !BreakAt(text, i)
    ensures FindDoubleNewline(text + ("\n\n" + tail)) == |text|
  {
    hide FindDoubleNewline, BreakAt;
    var rest := "\n\n" + tail;
    forall k | 0 <= k < |text| ensures !BreakAt(text + rest, k) { NoEarlierBreak(text, rest, k); }
    BreakFollows(text, tail);
  }

  lemma BreakFollows(text: string, tail: string)
    ensures BreakAt(text + ("\n\n" + tail), |text|)
  {
  }

  /** A block contains no blank line and neither begins nor ends with a line feed. */
  lemma {:induction false} BlockHasNoBreak(lines: seq<string>)
    requires CleanEvent(lines)
    ensures var b := Block(lines);
      && b != "" && b[0] != '\n' && b[|b| - 1] != '\n'
      && forall i :: 0 <= i < |b| ==> !BreakAt(b, i)
  {
    var head := Field(lines[0]);
    assert Clean(lines[0]);
    FieldIsOneLine(lines[0]);
    assert head[0] == FIELD[0];
    assert head[|head| - 1] in head;
    if |lines| > 1 {
      BlockHasNoBreak(lines[1..]);
      var rest := Block(lines[1..]);
      var b := Block(lines);
      assert b == head + "\n" + rest;
      forall i | 0 <= i < |b| ensures !BreakAt(b, i) {
        if i < |head| {
          assert b[i] == head[i] && head[i] in head;
        } else if i == |head| {
          assert b[i + 1] == rest[0];
        } else {
          assert b[i] == rest[i - |head| - 1] && !BreakAt(rest, i - |head| - 1);
          assert i + 1 < |b| ==> b[i + 1] == rest[i - |head|];
        }
      }
      assert b[|b| - 1] == rest[|rest| - 1];
    } else {
      forall i | 0 <= i < |head| ensures !BreakAt(head, i) { assert head[i] in head; }
    }
  }

  function Blocks(events: seq<seq<string>>): seq<string>
  {
    if events == [] then [] else [Block(events[0])] + Blocks(events[1..])
  }

  predicate Printable(events: seq<seq<string>>) {
    events == [] || (CleanEvent(events[0]) && Printable(events[1..]))
  }

  lemma {:induction false} StreamSplit(events: seq<seq<string>>)
    requires Printable(events)
    ensures Split(Stream(events)) == (Blocks(events), "")
    decreases |events|
  {
    hide FindDoubleNewline, Block;
    if events == [] {
      assert FindDoubleNewline("") == 0;
    } else {
      var b, tail := Block(events[0]), Stream(events[1..]);
      BlockHasNoBreak(events[0]);
      NoBreakInside(b, tail);
      var whole := Stream(events);
      assert whole == b + ("\n\n" + tail);
      assert whole[..|b|] == b;
      assert whole[|b| + 2..] == tail;
      StreamSplit(events[1..]);
    }
  }

  function ParseAll(texts: seq<string>): seq<Option<string>> {
    if texts == [] then [] else [Parse(texts[0])] + ParseAll(texts[1..])
  }

  function Payloads(events: seq<seq<string>>): seq<Option<string>>
  {
    if events == [] then [] else [Some(Join(events[0]))] + Payloads(events[1..])
  }

  lemma {:induction false} BlocksParsed(events: seq<seq<string>>)
    requires Printable(events)
    ensures ParseAll(Blocks(events)) == Payloads(events)
    decreases |events|
  {
    hide Parse, Block, Join;
    if events != [] {
      ParseBlock(events[0]);
      BlocksParsed(events[1..]);
      assert Blocks(events)[1..] == Blocks(events[1..]);
    }
  }

  /** End to end: printed events arrive exactly and in order, however the network cuts the stream. */
  lemma StreamRoundTrip(events: seq<seq<string>>, chunks: seq<Chunk>)
    requires Printable(events) && Joined(chunks) == Stream(events)
    ensures var (items, left) := FeedAll("", chunks); ParseAll(Texts(items)) == Payloads(events) && left == ""
  {
    hide Split, FeedAll, Parse;
    assert Split("") == ([], "") by { EmptySplit(); }
    ChunkingIsIrrelevant("", chunks);
    assert "" + Joined(chunks) == Joined(chunks);
    StreamSplit(events);
    BlocksParsed(events);
  }

  lemma EmptySplit()
    ensures Split("") == ([], "")
  {
  }

  // ----- The framer and the event parser as they run -----

  lemma SplitStep(buf: string)
    ensures var i := FindDoubleNewline(buf);
      Split(buf) == if i == |buf| then ([], buf) else ([buf[..i]] + Split(buf[i + 2..]).0, Split(buf[i + 2..]).1)
  {
    hide FindDoubleNewline;
  }

  lemma Regroup(events: seq<string>, event: string, more: seq<string>)
    ensures events + ([event] + more) == (events + [event]) + more
    ensures events + [] == events
  {
  }

  class Framer {
    var buf: string

    constructor ()
      ensures buf == ""
    {
      buf := "";
    }

    method Scan(c: Chunk) returns (items: seq<Item>)
      modifies this
      ensures (items, buf) == Feed(old(buf), c)
    {
      if c.Failed? { return [ReadError]; }
      buf := buf + c.bytes;
      hide Split, FindDoubleNewline;
      var events: seq<string> := [];
      ghost var whole := buf;
      assert events + Split(buf).0 == Split(buf).0;
      while FindDoubleNewline(buf) < |buf|
        invariant Split(whole) == (events + Split(buf).0, Split(buf).1)
        decreases |buf|
      {
        var pos := FindDoubleNewline(buf);
        SplitStep(buf);
        Regroup(events, buf[..pos], Split(buf[pos + 2..]).0);
        events := events + [buf[..pos]];
        buf := buf[pos + 2..];
      }
      SplitStep(buf);
      Regroup(events, buf, []);
      items := Items(events);
    }
  }

  datatype SseError = EmptyEvent | BadJson

  /** `decode` is the JSON decoder of the envelope inside the payload. */
  method ParseSseEvent<E>(text: string, decode: string -> Option<E>) returns (r: Result<E, SseError>)
    ensures r == match Parse(text) {
      case None => Err(EmptyEvent)
      case Some(data) => if decode(data).Some? then Ok(decode(data).value) else Err(BadJson)
    }
  {
    var data := "";
    var lines := Lines(text);
    var i := 0;
    while i < |lines|
      invariant i <= |lines|
      invariant Collect(data, lines[i..]) == Collect("", lines)
    {
      assert lines[i..][1..] == lines[i + 1..];
      var line := lines[i];
      if FIELD <= line {
        if data != "" { data := data + "\n"; }
        data := data + TrimStart(line[|FIELD|..]);
      }
      i := i + 1;
    }
    if data == "" { return Err(EmptyEvent); }
    var envelope := decode(data);
    return if envelope.Some? then Ok(envelope.value) else Err(BadJson);
  }

  // ----- Other lines -----

  /** The lines that carry data. */
  function DataLines(lines: seq<string>): seq<string> {
    if lines == [] then []
    else if FIELD <= lines[0] then [lines[0]] + DataLines(lines[1..])
    else DataLines(lines[1..])
  }

  /** Comments, event names, ids and whatever else an event may have make no difference to its payload. */
  lemma {:induction false} OtherLinesIgnored(data: string, lines: seq<string>)
    ensures Collect(data, lines) == Collect(data, DataLines(lines))
    decreases |lines|
  {
    hide AddLine;
    if lines != [] {
      var line := lines[0];
      OtherLinesIgnored(AddLine(data, line), lines[1..]);
      if FIELD <= line {
        assert DataLines(lines)[1..] == DataLines(lines[1..]);
      } else {
        NotData(data, line);
      }
    }
  }

  lemma NotData(data: string, line: string)
    requires !(FIELD <= line)
    ensures AddLine(data, line) == data
  {
  }

  /** A line of data adds its text without the white space in front, on a line of its own after what came before. */
  lemma DataAdded(data: string, text: string)
    ensures AddLine(data, FIELD + text) == if data == "" then TrimStart(text) else data + "\n" + TrimStart(text)
  {
    assert (FIELD + text)[|FIELD|..] == text;
    assert FIELD <= FIELD + text;
  }
}
