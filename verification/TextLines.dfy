/** Lines and white space, as the readers of the system treat them. */
module TextLines {
  import opened Basics

  function DropCarriageReturn(s: string): string {
    if s != "" && s[|s| - 1] == '\r' then s[..|s| - 1] else s
  }

  /** The lines of a text; a line that a line feed ends loses one carriage return before it. */
  function Lines(text: string): seq<string>
    decreases |text|
  {
    if text == "" then []
    else
      var i := IndexOf(text, '\n');
      if i == |text| then [text] else [DropCarriageReturn(text[..i])] + Lines(text[i + 1..])
  }

  lemma FirstLineOf(head: string, tail: string)
    requires '\n' !in head
    ensures Lines(head + "\n" + tail) == [DropCarriageReturn(head)] + Lines(tail)
  {
    var text := head + "\n" + tail;
    assert text[..|head|] == head;
    IndexOfIs(text, '\n', |head|);
    assert text[|head| + 1..] == tail;
  }

  lemma OnlyLine(line: string)
    requires '\n' !in line && line != ""
    ensures Lines(line) == [line]
  {
    assert IndexOf(line, '\n') == |line|;
  }

  // ----- White space -----

  /** The white space that trimming removes. */
  predicate IsSpace(c: char) {
    || c == ' ' || ('\t' <= c <= '\r')
    || c == '\U{85}' || c == '\U{A0}' || c == '\U{1680}' || ('\U{2000}' <= c <= '\U{200A}')
    || c == '\U{2028}' || c == '\U{2029}' || c == '\U{202F}' || c == '\U{205F}' || c == '\U{3000}'
  }

  /** The characters with the Unicode property White_Space. */
  const WHITE_SPACE := "\t\n\U{B}\U{C}\r \U{85}\U{A0}\U{1680}" + EN_SPACES + "\U{2028}\U{2029}\U{202F}\U{205F}\U{3000}"

  const EN_SPACES := "\U{2000}\U{2001}\U{2002}\U{2003}\U{2004}\U{2005}\U{2006}\U{2007}\U{2008}\U{2009}\U{200A}"

  lemma SpacesExactly(c: char)
    ensures IsSpace(c) <==> c in WHITE_SPACE
  {
  }

  function TrimStart(s: string): string {
    if s != "" && IsSpace(s[0]) then TrimStart(s[1..]) else s
  }

  lemma {:induction false} TrimmedStart(s: string)
    ensures |TrimStart(s)| <= |s|
    ensures TrimStart(s) == s <==> s == "" || !IsSpace(s[0])
  {
    if s != "" && IsSpace(s[0]) { TrimmedStart(s[1..]); }
  }
}
