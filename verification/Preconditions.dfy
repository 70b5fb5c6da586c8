/**
 The precondition language after substitution: a text is a path, or a path compared with a literal.
 Paths compose, and the two comparisons are each other's negation.
 */
module Preconditions {
  import opened Basics
  import opened Json
  import opened TextLines

  // ----- Paths -----

  /** The parts between the dots; empty parts are skipped. */
  function Segments(path: string): seq<string>
    decreases |path|
  {
    if path == "" then []
    else
      var i := IndexOf(path, '.');
      (if i == 0 then [] else [path[..i]]) + if i < |path| then Segments(path[i + 1..]) else []
  }

  predicate AllDigits(s: string) {
    forall i :: 0 <= i < |s| ==> '0' <= s[i] <= '9'
  }

  function Decimal(digits: string): nat
    requires AllDigits(digits)
  {
    if digits == "" then 0
    else
      var n := |digits| - 1;
      10 * Decimal(digits[..n]) + (digits[n] as int - '0' as int)
  }

  const WORD := 0x1_0000_0000_0000_0000

  /** A machine-word index, with an optional plus sign. */
  function ParseIndex(segment: string): Option<nat> {
    var digits := if segment != "" && segment[0] == '+' then segment[1..] else segment;
    if digits == "" || !AllDigits(digits) then None
    else if Decimal(digits) < WORD then Some(Decimal(digits))
    else None
  }

  /** A segment that reads as a number only ever indexes an array, never an object. */
  function Descend(value: Json, segment: string): Option<Json> {
    match ParseIndex(segment)
    case Some(i) => if value.Arr? && i < |value.items| then Some(value.items[i]) else None
    case None => Get(value, segment)
  }

  function Lookup(value: Json, segments: seq<string>): Option<Json> {
    if segments == [] then Some(value)
    else
      match Descend(value, segments[0])
      case None => None
      case Some(inner) => Lookup(inner, segments[1..])
  }

  method LookupPath(value: Json, path: string) returns (found: Option<Json>)
    ensures found == Lookup(value, Segments(path))
  {
    hide Descend, Segments;
    var current, segments, i := value, Segments(path), 0;
    assert segments[0..] == segments;
    while i < |segments|
      invariant i <= |segments|
      invariant Lookup(current, segments[i..]) == Lookup(value, segments)
    {
      assert segments[i..][1..] == segments[i + 1..];
      var next := Descend(current, segments[i]);
      if next.None? { return None; }
      current := next.value;
      i := i + 1;
    }
    return Some(current);
  }

  function Part(p: string): seq<string> { if p == "" then [] else [p] }

  lemma FirstSegment(p: string, rest: string)
    requires '.' !in p
    ensures Segments(p + "." + rest) == Part(p) + Segments(rest)
    ensures Segments(p) == Part(p)
  {
    var s := p + "." + rest;
    assert s[..|p|] == p && s[|p| + 1..] == rest;
    IndexOfIs(s, '.', |p|);
    assert p[..|p|] == p;
    assert IndexOf(p, '.') == |p|;
  }

  lemma {:induction false} SegmentsOfJoined(p: string, q: string)
    ensures Segments(p + "." + q) == Segments(p) + Segments(q)
    decreases |p|
  {
    hide Segments;
    var i := IndexOf(p, '.');
    if i < |p| {
      var head, tail := p[..i], p[i + 1..];
      assert p == head + "." + tail;
      assert p + "." + q == head + "." + (tail + "." + q);
      FirstSegment(head, tail);
      FirstSegment(head, tail + "." + q);
      SegmentsOfJoined(tail, q);
    } else {
      assert p[..i] == p;
      FirstSegment(p, q);
    }
  }

  lemma {:induction false} LookupInTwo(value: Json, a: seq<string>, b: seq<string>)
    ensures Lookup(value, a + b) == match Lookup(value, a) { case None => None case Some(inner) => Lookup(inner, b) }
    decreases |a|
  {
    hide Descend;
    if a == [] {
      assert a + b == b;
    } else {
      assert (a + b)[1..] == a[1..] + b;
      var next := Descend(value, a[0]);
      if next.Some? { LookupInTwo(next.value, a[1..], b); }
    }
  }

  /** Joining two paths with a dot looks the second one up in what the first one finds. */
  lemma PathsCompose(value: Json, p: string, q: string)
    ensures Lookup(value, Segments(p + "." + q)) ==
            match Lookup(value, Segments(p)) { case None => None case Some(inner) => Lookup(inner, Segments(q)) }
  {
    SegmentsOfJoined(p, q);
    LookupInTwo(value, Segments(p), Segments(q));
  }

  // ----- The comparison -----

  /** Before and after the first occurrence of `sep`. */
  function SplitOnce(s: string, sep: string): (r: Option<(string, string)>)
    requires sep != ""
    ensures r.Some? ==> s == r.value.0 + sep + r.value.1
  {
    if s == "" then None
    else if sep <= s then Some(("", s[|sep|..]))
    else
      match SplitOnce(s[1..], sep)
      case None => None
      case Some((before, after)) => Some(([s[0]] + before, after))
  }

  function TrimEnd(s: string): string {
    if s != "" && IsSpace(s[|s| - 1]) then TrimEnd(s[..|s| - 1]) else s
  }

  function Trim(s: string): string { TrimEnd(TrimStart(s)) }

  /** `show` is the JSON printer, which numbers, arrays and objects are compared through. */
  predicate ValuesEqual(show: Json -> string, lhs: Json, literal: string) {
    match lhs
    case Str(text) => text == literal
    case Bool(flag) => literal == if flag then "true" else "false"
    case Null => literal == "null"
    case _ => show(lhs) == literal
  }

  /** The verdict on a text in which everything has been substituted. */
  predicate Decide(show: Json -> string, overlay: Json, resolved: string) {
    var differs, equals := SplitOnce(resolved, "!="), SplitOnce(resolved, "=");
    if differs.Some? then
      var lhs := Lookup(overlay, Segments(Trim(differs.value.0)));
      lhs.None? || !ValuesEqual(show, lhs.value, Trim(differs.value.1))
    else if equals.Some? then
      var lhs := Lookup(overlay, Segments(Trim(equals.value.0)));
      lhs.Some? && ValuesEqual(show, lhs.value, Trim(equals.value.1))
    else Lookup(overlay, Segments(Trim(resolved))).Some?
  }

  lemma {:induction false} SplitHere(before: string, sep: string, after: string)
    requires (sep == "=" || sep == "!=") && '=' !in before
    ensures SplitOnce(before + sep + after, sep) == Some((before, after))
  {
    var s := before + sep + after;
    if before == "" {
      assert s == sep + after && s[|sep|..] == after;
    } else {
      assert s[0] == before[0] && s[1..] == before[1..] + sep + after;
      SplitHere(before[1..], sep, after);
      assert [s[0]] + before[1..] == before;
    }
  }

  lemma {:induction false} NowhereToSplit(s: string)
    requires forall i :: 0 <= i < |s| - 1 ==> !(s[i] == '!' && s[i + 1] == '=')
    ensures SplitOnce(s, "!=").None?
  {
    if s != "" {
      assert "!="[0] == '!' && "!="[1] == '=';
      NowhereToSplit(s[1..]);
    }
  }

  lemma NoInequality(path: string, literal: string)
    requires '=' !in path && '=' !in literal && (path != "" ==> path[|path| - 1] != '!')
    ensures SplitOnce(path + "=" + literal, "!=").None?
  {
    var s := path + "=" + literal;
    forall i | 0 <= i < |s| - 1 ensures !(s[i] == '!' && s[i + 1] == '=') {
      if i + 1 < |path| { assert s[i + 1] == path[i + 1] && path[i + 1] in path; }
      if i >= |path| { assert s[i + 1] == literal[i - |path|] && literal[i - |path|] in literal; }
    }
    NowhereToSplit(s);
  }

  /**
   Unequal is the negation of equal, a missing path being unequal to everything, provided neither side
   brings an operator along.
   */
  lemma UnequalNegatesEqual(show: Json -> string, overlay: Json, path: string, literal: string)
    requires '=' !in path && '=' !in literal && (path != "" ==> path[|path| - 1] != '!')
    ensures Decide(show, overlay, path + "!=" + literal) <==> !Decide(show, overlay, path + "=" + literal)
    ensures Lookup(overlay, Segments(Trim(path))).None? ==> Decide(show, overlay, path + "!=" + literal)
  {
    hide Lookup, Segments, Trim, ValuesEqual, SplitOnce;
    SplitHere(path, "!=", literal);
    SplitHere(path, "=", literal);
    NoInequality(path, literal);
  }

  // ----- What a precondition says of the overlay -----

  /**
   An equation is true exactly when its path finds something, and that is the literal: a string by its
   text, a boolean and null by their names, and everything else as it is printed. White space around
   path and literal does not count.
   */
  lemma EquationExactly(show: Json -> string, overlay: Json, path: string, literal: string)
    requires '=' !in path && '=' !in literal && (path != "" ==> path[|path| - 1] != '!')
    ensures Decide(show, overlay, path + "=" + literal) <==>
            match Lookup(overlay, Segments(Trim(path)))
            case None => false
            case Some(Str(text)) => text == Trim(literal)
            case Some(Bool(true)) => Trim(literal) == "true"
            case Some(Bool(false)) => Trim(literal) == "false"
            case Some(Null) => Trim(literal) == "null"
            case Some(v) => show(v) == Trim(literal)
  {
    hide Lookup, Segments, Trim, SplitOnce;
    NoInequality(path, literal);
    SplitHere(path, "=", literal);
  }

  /** A bare path is true exactly when it finds something. */
  lemma BarePathExactly(show: Json -> string, overlay: Json, path: string)
    requires '=' !in path
    ensures Decide(show, overlay, path) <==> Lookup(overlay, Segments(Trim(path))).Some?
  {
    hide Lookup, Segments, Trim, SplitOnce, ValuesEqual;
    forall i | 0 <= i < |path| - 1 ensures !(path[i] == '!' && path[i + 1] == '=') { assert path[i + 1] in path; }
    NowhereToSplit(path);
    NoSeparator(path);
  }

  predicate Blank(s: string) { forall i :: 0 <= i < |s| ==> IsSpace(s[i]) }

  predicate Tight(s: string) { s != "" ==> !IsSpace(s[0]) && !IsSpace(s[|s| - 1]) }

  lemma {:induction false} StartTrimmed(a: string, s: string)
    requires Blank(a) && (s != "" ==> !IsSpace(s[0]))
    ensures TrimStart(a + s) == s
  {
    if a == "" {
      assert a + s == s;
    } else {
      assert (a + s)[1..] == a[1..] + s && (a + s)[0] == a[0];
      StartTrimmed(a[1..], s);
    }
  }

  lemma {:induction false} EndTrimmed(s: string, b: string)
    requires Blank(b) && (s != "" ==> !IsSpace(s[|s| - 1]))
    ensures TrimEnd(s + b) == s
  {
    if b == "" {
      assert s + b == s;
    } else {
      var n := |b| - 1;
      assert (s + b)[..|s + b| - 1] == s + b[..n] && (s + b)[|s + b| - 1] == b[n];
      EndTrimmed(s, b[..n]);
    }
  }

  lemma {:induction false} AllBlank(s: string)
    requires Blank(s)
    ensures TrimStart(s) == ""
  {
    if s != "" { AllBlank(s[1..]); }
  }

  lemma NothingToTrim()
    ensures TrimEnd("") == ""
  {
  }

  /** Trimming removes exactly the white space around. */
  lemma TrimExactly(a: string, s: string, b: string)
    requires Blank(a) && Blank(b) && Tight(s)
    ensures Trim(a + s + b) == s
  {
    hide TrimStart, TrimEnd, IsSpace;
    if s == "" {
      assert a + s + b == a + b;
      AllBlank(a + b);
      NothingToTrim();
    } else {
      assert a + s + b == a + (s + b) && (s + b)[0] == s[0];
      StartTrimmed(a, s + b);
      EndTrimmed(s, b);
    }
  }

  // ----- Numbers in paths -----

  /** How a number is written. */
  function Digits(n: nat): (s: string)
    ensures AllDigits(s) && s != ""
  {
    (if n < 10 then "" else Digits(n / 10)) + [('0' as int + n % 10) as char]
  }

  lemma {:induction false} DecimalOfDigits(n: nat)
    ensures Decimal(Digits(n)) == n
    decreases n
  {
    var s := Digits(n);
    var front := if n < 10 then "" else Digits(n / 10);
    assert s[..|s| - 1] == front;
    if n >= 10 { DecimalOfDigits(n / 10); }
  }

  /**
   A number picks the element of an array that stands there, and an object is never asked for it, unless
   the number does not fit a machine word: then it is the name of a field.
   */
  lemma NumberIndexes(value: Json, n: nat)
    ensures Descend(value, Digits(n)) ==
            if n >= WORD then Get(value, Digits(n))
            else if value.Arr? && n < |value.items| then Some(value.items[n]) else None
  {
    hide Digits, Decimal;
    DecimalOfDigits(n);
    assert Digits(n)[0] != '+';
  }

  /** A word that is no number and has nothing in it to split at. */
  predicate Word(s: string) {
    s != "" && forall c :: c in s ==> !IsSpace(c) && c != '=' && c != '.' && c != '+' && !('0' <= c <= '9')
  }

  lemma WordIsNoIndex(s: string)
    requires Word(s)
    ensures ParseIndex(s).None?
  {
    assert s[0] in s;
    assert !('0' <= s[0] <= '9');
  }

  lemma WordIsWhole(s: string)
    requires Word(s)
    ensures SplitOnce(s, "!=").None? && SplitOnce(s, "=").None? && Trim(s) == s && Segments(s) == [s]
  {
    hide SplitOnce, Trim, Segments;
    forall i | 0 <= i < |s| - 1 ensures !(s[i] == '!' && s[i + 1] == '=') { assert s[i + 1] in s; }
    NowhereToSplit(s);
    NoSeparator(s);
    assert s[0] in s && s[|s| - 1] in s;
    Untrimmed(s);
    FirstSegment(s, "");
  }

  /** A bare word is true exactly of values that have a field of that name. */
  lemma OneWord(show: Json -> string, overlay: Json, word: string)
    requires Word(word)
    ensures Decide(show, overlay, word) <==> Get(overlay, word).Some?
  {
    hide Word, SplitOnce, Trim, Segments, ParseIndex, ValuesEqual;
    WordIsWhole(word);
    WordIsNoIndex(word);
    LookupOne(overlay, word);
  }

  lemma LookupOne(value: Json, segment: string)
    ensures Lookup(value, [segment]) == Descend(value, segment)
  {
    hide Descend;
    var one := [segment];
    assert one[1..] == [];
    var next := Descend(value, segment);
    if next.Some? { assert Lookup(next.value, one[1..]) == Some(next.value); }
  }

  lemma {:induction false} NoSeparator(s: string)
    requires '=' !in s
    ensures SplitOnce(s, "=").None?
  {
    if s != "" {
      assert s[0] in s && "="[0] == '=';
      NoSeparator(s[1..]);
    }
  }

  lemma Untrimmed(s: string)
    requires s != "" && !IsSpace(s[0]) && !IsSpace(s[|s| - 1])
    ensures Trim(s) == s
  {
  }
}
