/**
 Frame placeholders. `Substitute` is a single-pass tokenizer followed by an expansion of each
 token; the character-level scanner is proved to compute it.
 */
module Frames {
  import opened Basics

  /** Operator-declared values, already in the text form the substitution inserts. */
  type Frame = map<string, string>

  const MARK := "frame."

  datatype Token = Plain(c: char) | Braced(body: string) | Unclosed(rest: string)

  /** The first token of a non-empty text. */
  function First(s: string): (t: Token)
    requires s != ""
    ensures 0 < |Show(t)| <= |s|
    ensures Show(t) == s[..|Show(t)|]
  {
    if s[0] != '{' then Plain(s[0])
    else
      var i := IndexOf(s, '}');
      if i < |s| then
        assert s[..i + 1] == "{" + s[1..i] + "}";
        Braced(s[1..i])
      else Unclosed(s[1..])
  }

  function Tokenize(s: string): (ts: seq<Token>)
    decreases |s|
  {
    if s == "" then [] else [First(s)] + Tokenize(s[|Show(First(s))|..])
  }

  function Show(t: Token): string {
    match t
    case Plain(c) => [c]
    case Braced(body) => "{" + body + "}"
    case Unclosed(rest) => "{" + rest
  }

  predicate Known(frame: Frame, body: string) {
    MARK <= body && body[|MARK|..] in frame
  }

  function Expand(frame: Frame, t: Token): string {
    if t.Braced? && Known(frame, t.body) then frame[t.body[|MARK|..]] else Show(t)
  }

  function ExpandAll(frame: Frame, ts: seq<Token>): string {
    if ts == [] then "" else Expand(frame, ts[0]) + ExpandAll(frame, ts[1..])
  }

  function Substitute(frame: Frame, s: string): string {
    ExpandAll(frame, Tokenize(s))
  }

  /** No brace of `s` is left open. */
  predicate Closed(s: string) {
    forall t :: t in Tokenize(s) ==> !t.Unclosed?
  }

  lemma {:induction false} ExpandAllAppend(frame: Frame, a: seq<Token>, b: seq<Token>)
    ensures ExpandAll(frame, a + b) == ExpandAll(frame, a) + ExpandAll(frame, b)
  {
    if a == [] {
      assert a + b == b;
    } else {
      assert (a + b)[1..] == a[1..] + b;
      ExpandAllAppend(frame, a[1..], b);
    }
  }

  lemma FirstAppend(a: string, b: string)
    requires a != "" && !First(a).Unclosed?
    ensures First(a + b) == First(a)
  {
    if a[0] == '{' {
      var i := IndexOf(a, '}');
      assert (a + b)[..i] == a[..i];
      IndexOfIs(a + b, '}', i);
      assert (a + b)[1..i] == a[1..i];
    }
  }

  lemma TokenizeStep(s: string)
    requires s != ""
    ensures Tokenize(s)[0] == First(s)
    ensures Tokenize(s)[1..] == Tokenize(s[|Show(First(s))|..])
  {
  }

  lemma TokenizeCons(s: string)
    requires s != ""
    ensures Tokenize(s) == [First(s)] + Tokenize(s[|Show(First(s))|..])
  {
    hide First, Show;
    TokenizeStep(s);
    assert Tokenize(s) == [Tokenize(s)[0]] + Tokenize(s)[1..];
  }

  lemma EmptyTokens()
    ensures Tokenize("") == []
  {
  }

  lemma {:induction false} TokenizeAppend(a: string, b: string)
    requires Closed(a)
    ensures Tokenize(a + b) == Tokenize(a) + Tokenize(b)
    decreases |a|
  {
    hide First, IndexOf, Show, Tokenize;
    if a == "" {
      EmptyTokens();
      assert a + b == b && [] + Tokenize(b) == Tokenize(b);
    } else {
      TokenizeCons(a);
      var n := |Show(First(a))|;
      var rest := a[n..];
      assert Tokenize(a)[0] == First(a);
      assert forall t :: t in Tokenize(rest) ==> t in Tokenize(a);
      FirstAppend(a, b);
      assert (a + b)[n..] == rest + b;
      TokenizeAppend(rest, b);
      TokenizeCons(a + b);
    }
  }

  /** The empty frame changes nothing, whatever the braces look like. */
  lemma {:induction false} EmptyFrameIsIdentity(s: string)
    ensures Substitute(map[], s) == s
    decreases |s|
  {
    hide First, IndexOf, Show;
    if s != "" {
      TokenizeStep(s);
      var n := |Show(First(s))|;
      EmptyFrameIsIdentity(s[n..]);
      assert s == s[..n] + s[n..];
    }
  }

  /** Substitution distributes over concatenation when the left part leaves no brace open. */
  lemma SubstituteAppend(frame: Frame, a: string, b: string)
    requires Closed(a)
    ensures Substitute(frame, a + b) == Substitute(frame, a) + Substitute(frame, b)
  {
    TokenizeAppend(a, b);
    ExpandAllAppend(frame, Tokenize(a), Tokenize(b));
  }

  /**
   A placeholder in context: a known frame key is replaced by its value, which is inserted as it
   stands even when it contains braces, and any other placeholder is kept for the next stage.
   */
  lemma SubstituteAround(frame: Frame, a: string, body: string, b: string)
    requires Closed(a) && '}' !in body
    ensures Substitute(frame, a + (Show(Braced(body)) + b))
         == Substitute(frame, a)
          + ((if Known(frame, body) then frame[body[|MARK|..]] else Show(Braced(body)))
          + Substitute(frame, b))
  {
    var hole := Show(Braced(body));
    FirstOfHole(body, b);
    TokenizeStep(hole + b);
    assert (hole + b)[|hole|..] == b;
    SubstituteAppend(frame, a, hole + b);
  }

  lemma FirstOfHole(body: string, b: string)
    requires '}' !in body
    ensures First(Show(Braced(body)) + b) == Braced(body)
  {
    var s := Show(Braced(body)) + b;
    var i := 1 + |body|;
    assert s[..i] == "{" + body;
    assert s[i] == '}';
    IndexOfIs(s, '}', i);
    assert s[1..i] == body;
  }

  /** What the scanner knows once it has read `buf` after a brace at `p` and stopped at `q`. */
  ghost predicate Scanned(s: string, p: nat, buf: string, closed: bool, q: nat) {
    && q <= |s| && p + 1 + |buf| <= |s|
    && s[p] == '{' && '}' !in buf && s[p + 1..p + 1 + |buf|] == buf
    && (if closed then q == p + |buf| + 2 && s[q - 1] == '}' else q == p + |buf| + 1 && q == |s|)
  }

  lemma BraceScanned(frame: Frame, s: string, p: nat, buf: string, closed: bool, q: nat)
    requires Scanned(s, p, buf, closed, q)
    ensures Substitute(frame, s[p..])
         == Expand(frame, if closed then Braced(buf) else Unclosed(buf)) + Substitute(frame, s[q..])
  {
    var tail, i := s[p..], 1 + |buf|;
    var t := if closed then Braced(buf) else Unclosed(buf);
    assert First(tail) == t by {
      assert tail[1..i] == buf;
      assert tail[..i] == ['{'] + buf;
      if closed {
        IndexOfIs(tail, '}', i);
      } else {
        assert tail == tail[..i];
      }
    }
    assert tail[|Show(t)|..] == s[q..];
    TokenizeStep(tail);
  }

  lemma PlainScanned(frame: Frame, s: string, p: nat)
    requires p < |s| && s[p] != '{'
    ensures Substitute(frame, s[p..]) == [s[p]] + Substitute(frame, s[p + 1..])
  {
    TokenizeStep(s[p..]);
    assert s[p..][1..] == s[p + 1..];
  }

  /** The inner loop: read on from `start` to the first closing brace, or to the end when there is none. */
  method ReadBraces(s: string, start: nat) returns (buf: string, foundClose: bool, pos: nat)
    requires 0 < start <= |s| && s[start - 1] == '{'
    ensures Scanned(s, start - 1, buf, foundClose, pos) && start <= pos
  {
    buf, foundClose, pos := "", false, start;
    while pos < |s|
      invariant start + |buf| == pos <= |s|
      invariant buf == s[start..pos] && '}' !in buf && !foundClose
    {
      if s[pos] == '}' {
        pos := pos + 1;
        foundClose := true;
        break;
      }
      buf := buf + [s[pos]];
      pos := pos + 1;
    }
  }

  /** The scanner: one character at a time. */
  method SubstitutePlaceholders(frame: Frame, s: string) returns (out: string)
    ensures out == Substitute(frame, s)
  {
    hide Substitute, Expand, Show, Scanned;
    out := "";
    var pos := 0;
    assert s[0..] == s;
    while pos < |s|
      invariant pos <= |s|
      invariant out + Substitute(frame, s[pos..]) == Substitute(frame, s)
      decreases |s| - pos
    {
      var c := s[pos];
      var piece, next := [c], pos + 1;
      if c == '{' {
        var buf, foundClose;
        buf, foundClose, next := ReadBraces(s, pos + 1);
        ScannedInside(s, pos, buf, foundClose, next);
        BraceScanned(frame, s, pos, buf, foundClose, next);
        ExpandCases(frame, buf);
        if foundClose {
          if MARK <= buf && buf[|MARK|..] in frame {
            piece := frame[buf[|MARK|..]];
          } else {
            piece := ['{'] + buf + ['}'];
          }
        } else {
          piece := ['{'] + buf;
        }
      } else {
        PlainScanned(frame, s, pos);
      }
      Emit(out, piece, Substitute(frame, s[next..]));
      out := out + piece;
      pos := next;
    }
    NothingLeft(frame, s[pos..]);
  }

  lemma Emit(out: string, piece: string, rest: string)
    ensures (out + piece) + rest == out + (piece + rest)
  {
  }

  lemma ScannedInside(s: string, p: nat, buf: string, closed: bool, q: nat)
    requires Scanned(s, p, buf, closed, q)
    ensures q <= |s|
  {
  }

  lemma ExpandCases(frame: Frame, buf: string)
    ensures Expand(frame, Braced(buf)) ==
            if MARK <= buf && buf[|MARK|..] in frame then frame[buf[|MARK|..]] else ['{'] + buf + ['}']
    ensures Expand(frame, Unclosed(buf)) == ['{'] + buf
  {
  }

  lemma NothingLeft(frame: Frame, s: string)
    requires s == ""
    ensures Substitute(frame, s) == ""
  {
  }
}
