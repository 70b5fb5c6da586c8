/**
 Parameter placeholders. The source replaces one parameter after the other, in key order, in a text in
 which frame placeholders have already been replaced. That is one simultaneous pass over the
 placeholders of the text exactly when no inserted value is scanned again by a later replacement.
 */
module Placeholders {
  import opened Basics
  import opened Frames

  // ----- Parameter substitution, key by key -----

  /** A parameter and the text it is replaced by. */
  datatype Binding = Binding(key: string, text: string)

  function Slot(key: string): string { "{" + key + "}" }

  /** Every occurrence of `pat`, left to right and not overlapping, becomes `text`. */
  function Replace(s: string, pat: string, text: string): string
    requires pat != ""
    decreases |s|
  {
    if s == "" then ""
    else if pat <= s then text + Replace(s[|pat|..], pat, text)
    else [s[0]] + Replace(s[1..], pat, text)
  }

  function SubstituteParams(params: seq<Binding>, s: string): string
    decreases |params|
  {
    if params == [] then s else SubstituteParams(params[1..], Replace(s, Slot(params[0].key), params[0].text))
  }

  method SubstituteEach(params: seq<Binding>, expression: string) returns (result: string)
    ensures result == SubstituteParams(params, expression)
  {
    result := expression;
    var i := 0;
    assert params[0..] == params;
    while i < |params|
      invariant i <= |params|
      invariant SubstituteParams(params[i..], result) == SubstituteParams(params, expression)
    {
      assert params[i..][1..] == params[i + 1..];
      result := Replace(result, Slot(params[i].key), params[i].text);
      i := i + 1;
    }
  }

  // ----- The simultaneous pass -----

  /** What goes into the braces around each body. */
  type Filling = map<string, string>

  function Fill(m: Filling, t: Token): string {
    if t.Braced? && t.body in m then m[t.body] else Show(t)
  }

  function FillAll(m: Filling, ts: seq<Token>): string {
    if ts == [] then "" else Fill(m, ts[0]) + FillAll(m, ts[1..])
  }

  /** Of two bindings of one key the first one counts. */
  function Merge(params: seq<Binding>): Filling {
    if params == [] then map[] else Merge(params[1..]) + map[params[0].key := params[0].text]
  }

  function FrameFilling(frame: Frame): Filling {
    map body | body in set k | k in frame :: MARK + k :: frame[body[|MARK|..]]
  }

  /** No braces inside braces. */
  predicate Flat(ts: seq<Token>) {
    forall i :: 0 <= i < |ts| && ts[i].Braced? ==> '{' !in ts[i].body
  }

  function Plains(s: string): seq<Token> {
    if s == "" then [] else [Plain(s[0])] + Plains(s[1..])
  }

  lemma FirstShape(s: string)
    requires s != ""
    ensures First(s).Braced? ==> '}' !in First(s).body
    ensures First(s).Unclosed? ==> '}' !in s && Show(First(s)) == s
    ensures First(s).Plain? ==> First(s).c != '{'
  {
    if s[0] == '{' {
      var i := IndexOf(s, '}');
      assert i < |s| ==> s[..i][1..] == s[1..i];
      assert i == |s| ==> s[..i] == s && "{" + s[1..] == s;
    }
  }

  /** The text is the token it begins with and the rest. */
  lemma FirstThenRest(s: string) returns (t: Token, rest: string)
    requires s != ""
    ensures t == First(s) && s == Show(t) + rest && Tokenize(s) == [t] + Tokenize(rest) && |rest| < |s|
    ensures t.Braced? ==> '}' !in t.body
    ensures t.Unclosed? ==> rest == "" && '}' !in s
    ensures t.Plain? ==> t.c != '{'
  {
    hide First, Tokenize, Show;
    t, rest := First(s), s[|Show(First(s))|..];
    TokenizeCons(s);
    FirstShape(s);
    assert s == s[..|Show(t)|] + rest;
  }

  lemma {:induction false} PlainsFirst(v: string, s: string)
    requires '{' !in v
    ensures Tokenize(v + s) == Plains(v) + Tokenize(s)
  {
    hide Tokenize;
    if v == "" {
      assert v + s == s;
    } else {
      PlainsFirst(v[1..], s);
      assert (v + s)[1..] == v[1..] + s;
      assert First(v + s) == Plain(v[0]);
      TokenizeCons(v + s);
    }
  }

  lemma FillCons(n: Filling, t: Token, ts: seq<Token>)
    ensures FillAll(n, [t] + ts) == Fill(n, t) + FillAll(n, ts)
  {
    assert ([t] + ts)[1..] == ts;
  }

  lemma PlainsStep(v: string, ts: seq<Token>)
    ensures Plains(v) + ts == if v == "" then ts else [Plain(v[0])] + (Plains(v[1..]) + ts)
  {
    if v != "" { assert Plains(v) == [Plain(v[0])] + Plains(v[1..]); }
  }

  lemma {:induction false} FillPlains(n: Filling, v: string, ts: seq<Token>)
    ensures FillAll(n, Plains(v) + ts) == v + FillAll(n, ts)
  {
    hide FillAll, Plains;
    PlainsStep(v, ts);
    if v != "" {
      FillPlains(n, v[1..], ts);
      FillCons(n, Plain(v[0]), Plains(v[1..]) + ts);
      assert v == [v[0]] + v[1..];
    }
  }

  // ----- Where a replacement can strike -----

  /** Some suffix of `u` is where an occurrence of `pat` lies or could begin. */
  predicate Touches(u: string, pat: string) {
    exists p :: 0 <= p < |u| && Meets(u[p..], pat)
  }

  predicate Meets(a: string, b: string) { a <= b || b <= a }

  predicate Contains(s: string, pat: string) {
    exists p :: 0 <= p <= |s| && pat <= s[p..]
  }

  lemma {:induction false} SkipUnmatched(u: string, rest: string, pat: string, text: string)
    requires pat != "" && forall p :: 0 <= p < |u| ==> !(pat <= (u + rest)[p..])
    ensures Replace(u + rest, pat, text) == u + Replace(rest, pat, text)
  {
    var s := u + rest;
    if u == "" {
      assert s == rest;
    } else {
      assert s[0..] == s;
      assert s[1..] == u[1..] + rest;
      forall p | 0 <= p < |u[1..]| ensures !(pat <= (u[1..] + rest)[p..]) {
        assert (u[1..] + rest)[p..] == s[p + 1..];
      }
      SkipUnmatched(u[1..], rest, pat, text);
    }
  }

  lemma PrefixOfSum(pat: string, x: string, rest: string)
    requires pat <= x + rest
    ensures Meets(x, pat)
  {
    var s := x + rest;
    if |pat| <= |x| {
      assert forall k :: 0 <= k < |pat| ==> pat[k] == s[k] == x[k];
    } else {
      assert forall k :: 0 <= k < |x| ==> x[k] == s[k] == pat[k];
    }
  }

  lemma SkipUntouched(u: string, rest: string, pat: string, text: string)
    requires pat != "" && !Touches(u, pat)
    ensures Replace(u + rest, pat, text) == u + Replace(rest, pat, text)
  {
    forall p | 0 <= p < |u| ensures !(pat <= (u + rest)[p..]) {
      assert (u + rest)[p..] == u[p..] + rest;
      assert !Meets(u[p..], pat);
      if pat <= u[p..] + rest { PrefixOfSum(pat, u[p..], rest); }
    }
    SkipUnmatched(u, rest, pat, text);
  }

  lemma SkipText(u: string, rest: string, pat: string, text: string)
    requires pat != "" && pat[0] == '{' && '{' !in u
    ensures Replace(u + rest, pat, text) == u + Replace(rest, pat, text)
  {
    forall p | 0 <= p < |u| ensures !(pat <= (u + rest)[p..]) {
      assert (u + rest)[p..][0] == u[p] && u[p] in u;
    }
    SkipUnmatched(u, rest, pat, text);
  }

  lemma ReplaceIdle(s: string, pat: string, text: string)
    requires pat != "" && !Contains(s, pat)
    ensures Replace(s, pat, text) == s
  {
    assert s + "" == s;
    SkipUnmatched(s, "", pat, text);
  }

  lemma {:induction false} ReplaceByItself(s: string, pat: string)
    requires pat != ""
    ensures Replace(s, pat, pat) == s
    decreases |s|
  {
    if s != "" {
      if pat <= s {
        ReplaceByItself(s[|pat|..], pat);
        assert pat + s[|pat|..] == s;
      } else {
        ReplaceByItself(s[1..], pat);
      }
    }
  }

  lemma {:induction false} ReplaceLength(s: string, pat: string, text: string)
    requires pat != ""
    ensures |text| <= |pat| ==> |Replace(s, pat, text)| <= |s|
    ensures |text| >= |pat| ==> |Replace(s, pat, text)| >= |s|
    decreases |s|
  {
    if s != "" {
      if pat <= s { ReplaceLength(s[|pat|..], pat, text); } else { ReplaceLength(s[1..], pat, text); }
    }
  }

  /** Replacing an occurrence by something else never ends up with the text it began with. */
  lemma {:induction false} ReplaceChanges(s: string, pat: string, text: string)
    requires pat != "" && text != pat && Contains(s, pat)
    ensures Replace(s, pat, text) != s
    decreases |s|
  {
    var p :| 0 <= p <= |s| && pat <= s[p..];
    if pat <= s {
      var rest := s[|pat|..];
      ReplaceLength(rest, pat, text);
      var r := text + Replace(rest, pat, text);
      assert s == pat + rest;
      if |text| == |pat| { assert r[..|pat|] == text && s[..|pat|] == pat; }
    } else {
      assert s[0..] == s;
      assert s[1..][p - 1..] == s[p..];
      assert Contains(s[1..], pat);
      ReplaceChanges(s[1..], pat, text);
      assert Replace(s, pat, text)[1..] == Replace(s[1..], pat, text);
    }
  }

  // ----- Replacing one slot is filling it -----

  lemma NotPrefix(pat: string, s: string, i: nat)
    requires i < |pat| && pat[i] !in s
    ensures !(pat <= s)
  {
    if |pat| <= |s| { assert s[i] in s; }
  }

  lemma {:induction false} NothingCloses(s: string, key: string, text: string)
    requires '}' !in s
    ensures Replace(s, Slot(key), text) == s
  {
    if s != "" {
      NotPrefix(Slot(key), s, |key| + 1);
      NothingCloses(s[1..], key, text);
    }
  }

  lemma SlotMatches(key: string, body: string, rest: string)
    requires '}' !in key && '}' !in body
    ensures Slot(key) <= Slot(body) + rest <==> key == body
  {
    var pat, s := Slot(key), Slot(body) + rest;
    if pat <= s {
      assert s[..|key| + 1] == pat[..|key| + 1] == "{" + key;
      assert s[..|body| + 1] == "{" + body;
      IndexOfIs(s, '}', |key| + 1);
      IndexOfIs(s, '}', |body| + 1);
      assert s[1..|key| + 1] == key && s[1..|body| + 1] == body;
    }
  }

  /** One token at the front, for a text without braces inside braces. */
  lemma ReplaceFirst(t: Token, rest: string, key: string, text: string)
    requires '}' !in key && !t.Unclosed?
    requires (t.Plain? ==> t.c != '{') && (t.Braced? ==> '}' !in t.body && '{' !in t.body)
    ensures Replace(Show(t) + rest, Slot(key), text) == Fill(map[key := text], t) + Replace(rest, Slot(key), text)
  {
    var pat, s := Slot(key), Show(t) + rest;
    match t {
      case Plain(c) => SkipText([c], rest, pat, text);
      case Braced(body) =>
        SlotMatches(key, body, rest);
        assert Show(t) == Slot(body);
        if key == body {
          assert s[|pat|..] == rest;
        } else {
          SkipSlot(body, rest, pat, text);
        }
    }
  }

  lemma SkipSlot(body: string, rest: string, pat: string, text: string)
    requires pat != "" && pat[0] == '{' && '{' !in body && !(pat <= Slot(body) + rest)
    ensures Replace(Slot(body) + rest, pat, text) == Slot(body) + Replace(rest, pat, text)
  {
    var s, u := Slot(body) + rest, body + "}";
    assert s[0] == '{' && s[1..] == u + rest;
    SkipText(u, rest, pat, text);
    assert ['{'] + (u + Replace(rest, pat, text)) == Slot(body) + Replace(rest, pat, text);
  }

  // ----- No value is scanned again: one pass -----

  predicate BraceFree(s: string) { '{' !in s && '}' !in s }

  /** Parameter names are distinct, and can be written as placeholders. */
  predicate Named(params: seq<Binding>) {
    && (forall i :: 0 <= i < |params| ==> BraceFree(params[i].key))
    && (forall i, j :: 0 <= i < j < |params| ==> params[i].key != params[j].key)
  }

  /** A parameter whose value is its own placeholder replaces nothing. */
  predicate Effective(b: Binding) { b.text != Slot(b.key) }

  /** A replacement of `b` cannot strike in or across the end of `u`. */
  predicate Spares(b: Binding, u: string) {
    Effective(b) ==> !Touches(u, Slot(b.key))
  }

  /** No parameter strikes in a value put in by `m`, or by an earlier parameter that `m` does not shadow. */
  ghost predicate Undisturbed(m: Filling, params: seq<Binding>) {
    && (forall body, j :: body in m && BraceFree(body) && 0 <= j < |params| ==> Spares(params[j], m[body]))
    && (forall i, j :: 0 <= i < j < |params| && params[i].key !in m ==> Spares(params[j], params[i].text))
  }

  lemma {:induction false} ReplaceFilled(m: Filling, s: string, b: Binding)
    requires Flat(Tokenize(s)) && BraceFree(b.key)
    requires forall body :: body in m && BraceFree(body) ==> !Touches(m[body], Slot(b.key))
    ensures Replace(FillAll(m, Tokenize(s)), Slot(b.key), b.text) == FillAll(map[b.key := b.text] + m, Tokenize(s))
    decreases |s|
  {
    hide Tokenize, First, Replace, Show, Touches;
    if s == "" {
      EmptyTokens();
      NothingCloses(s, b.key, b.text);
    } else {
      var t, rest := FirstThenRest(s);
      var ts := Tokenize(s);
      assert ts[0] == t && ts[1..] == Tokenize(rest);
      FlatTail(ts);
      ReplaceFilled(m, rest, b);
      var out := FillAll(m, Tokenize(rest));
      if t.Unclosed? {
        EmptyTokens();
        NothingCloses(s, b.key, b.text);
        assert out == "" && FillAll(map[b.key := b.text] + m, Tokenize(rest)) == "";
        assert FillAll(m, ts) == s;
      } else if t.Braced? && t.body in m {
        SkipUntouched(m[t.body], out, Slot(b.key), b.text);
      } else {
        ReplaceFirst(t, out, b.key, b.text);
      }
    }
  }

  lemma FlatTail(ts: seq<Token>)
    requires ts != [] && Flat(ts)
    ensures Flat(ts[1..]) && (ts[0].Braced? ==> '{' !in ts[0].body)
  {
    assert forall i :: 0 <= i < |ts[1..]| ==> ts[1..][i] == ts[i + 1];
  }

  lemma {:induction false} OwnSlot(m: Filling, key: string, ts: seq<Token>)
    ensures FillAll(map[key := Slot(key)] + m, ts) == FillAll(m, ts)
  {
    if ts != [] { OwnSlot(m, key, ts[1..]); }
  }

  /** Parameter by parameter is the same as all at once, earlier insertions winning. */
  lemma {:induction false} SubstituteFilled(m: Filling, params: seq<Binding>, s: string)
    requires Flat(Tokenize(s)) && Named(params) && Undisturbed(m, params)
    ensures SubstituteParams(params, FillAll(m, Tokenize(s))) == FillAll(Merge(params) + m, Tokenize(s))
    decreases |params|
  {
    hide Tokenize, Replace, FillAll, Flat, Touches;
    if params == [] {
      assert Merge(params) + m == m;
    } else {
      var b, rest := params[0], params[1..];
      var one: Filling := map[b.key := b.text];
      var m' := one + m;
      if Effective(b) {
        forall body | body in m && BraceFree(body) ensures !Touches(m[body], Slot(b.key)) {
          assert Spares(params[0], m[body]);
        }
        ReplaceFilled(m, s, b);
      } else {
        ReplaceByItself(FillAll(m, Tokenize(s)), Slot(b.key));
        OwnSlot(m, b.key, Tokenize(s));
      }
      StillUndisturbed(m, params);
      SubstituteFilled(m', rest, s);
      assert Merge(params) + m == Merge(rest) + m';
    }
  }

  lemma StillUndisturbed(m: Filling, params: seq<Binding>)
    requires params != [] && Named(params) && Undisturbed(m, params)
    ensures Named(params[1..]) && Undisturbed(map[params[0].key := params[0].text] + m, params[1..])
  {
    hide Spares, BraceFree;
    var rest, m' := params[1..], map[params[0].key := params[0].text] + m;
    forall body, j | body in m' && BraceFree(body) && 0 <= j < |rest| ensures Spares(rest[j], m'[body]) {
      assert rest[j] == params[j + 1];
      if body in m { assert Spares(params[j + 1], m[body]); } else { assert Spares(params[j + 1], params[0].text); }
    }
    forall i, j | 0 <= i < j < |rest| && rest[i].key !in m' ensures Spares(rest[j], rest[i].text) {
      assert rest[i] == params[i + 1] && rest[j] == params[j + 1];
    }
  }

  // ----- A value that is scanned again: not one pass -----

  lemma SlotFilled(m: Filling, q: string, c: string)
    requires BraceFree(q) && '{' !in c
    ensures Flat(Tokenize(Slot(q) + c))
    ensures FillAll(m, Tokenize(Slot(q) + c)) == (if q in m then m[q] else Slot(q)) + c
  {
    hide Tokenize, First;
    var s, t := Slot(q) + c, Braced(q);
    FirstOfHole(q, c);
    assert Show(t) == Slot(q);
    TokenizeCons(s);
    assert s[|Show(t)|..] == c;
    EmptyTokens();
    PlainsFirst(c, "");
    assert c + "" == c && Plains(c) + [] == Plains(c);
    FillCons(m, t, Plains(c));
    FillPlains(m, c, []);
    assert c + FillAll(m, []) == c;
    PlainsArePlain(c);
    var ts := [t] + Plains(c);
    assert forall i :: 0 < i < |ts| ==> ts[i] == Plains(c)[i - 1];
  }

  lemma {:induction false} PlainsArePlain(c: string)
    ensures |Plains(c)| == |c| && forall i :: 0 <= i < |c| ==> Plains(c)[i].Plain?
  {
    if c != "" { PlainsArePlain(c[1..]); }
  }

  /** Other parameters leave a lone placeholder alone. */
  lemma {:induction false} OthersPass(params: seq<Binding>, q: string, c: string)
    requires Named(params) && BraceFree(q) && '{' !in c && forall i :: 0 <= i < |params| ==> params[i].key != q
    ensures SubstituteParams(params, Slot(q) + c) == Slot(q) + c
    decreases |params|
  {
    hide Tokenize, Replace, FillAll;
    if params != [] {
      var b := params[0];
      SlotReplaced(b, q, c);
      OthersPass(params[1..], q, c);
    }
  }

  lemma SlotReplaced(b: Binding, q: string, c: string)
    requires BraceFree(b.key) && BraceFree(q) && '{' !in c
    ensures Replace(Slot(q) + c, Slot(b.key), b.text) == (if q == b.key then b.text else Slot(q)) + c
  {
    hide Tokenize, Replace, FillAll;
    SlotFilled(map[], q, c);
    SlotFilled(map[b.key := b.text], q, c);
    var none: Filling := map[];
    ReplaceFilled(none, Slot(q) + c, b);
    assert map[b.key := b.text] + none == map[b.key := b.text];
  }

  lemma {:induction false} SubstituteParamsAppend(a: seq<Binding>, b: seq<Binding>, s: string)
    ensures SubstituteParams(a + b, s) == SubstituteParams(b, SubstituteParams(a, s))
    decreases |a|
  {
    hide Replace;
    if a == [] {
      assert a + b == b;
    } else {
      assert (a + b)[1..] == a[1..] + b;
      SubstituteParamsAppend(a[1..], b, Replace(s, Slot(a[0].key), a[0].text));
    }
  }

  /** Some parameter is the first to change a text that contains an effective one's placeholder. */
  lemma {:induction false} FirstChange(params: seq<Binding>, j: nat, t: string) returns (n: nat)
    requires j < |params| && Effective(params[j]) && Contains(t, Slot(params[j].key))
    ensures n <= |params| && SubstituteParams(params[..n], t) != t
    decreases |params|
  {
    hide Replace, Contains;
    var b := params[0];
    if Effective(b) && Contains(t, Slot(b.key)) {
      n := 1;
      ReplaceChanges(t, Slot(b.key), b.text);
      assert params[..1] == [b];
      JustOne(b, t);
    } else {
      if Effective(b) { ReplaceIdle(t, Slot(b.key), b.text); } else { ReplaceByItself(t, Slot(b.key)); }
      var k := FirstChange(params[1..], j - 1, t);
      n := k + 1;
      assert params[..n][1..] == params[1..][..k];
    }
  }

  lemma JustOne(b: Binding, t: string)
    ensures SubstituteParams([b], t) == Replace(t, Slot(b.key), b.text)
  {
    hide Replace;
    assert [b][1..] == [];
  }

  /** The characters that complete a placeholder begun at the end of `u`, if any. */
  lemma Completion(u: string, key: string) returns (c: string)
    requires BraceFree(key) && Touches(u, Slot(key))
    ensures '{' !in c && Contains(u + c, Slot(key))
  {
    var pat := Slot(key);
    var p :| 0 <= p < |u| && Meets(u[p..], pat);
    var tail := u[p..];
    if pat <= tail {
      c := "";
      assert (u + c)[p..] == tail;
    } else {
      c := pat[|tail|..];
      assert pat == tail + c;
      assert (u + c)[p..] == pat;
      forall k | 0 <= k < |c| ensures c[k] != '{' {
        assert c[k] == pat[|tail| + k];
        assert |tail| + k <= |key| ==> c[k] == key[|tail| + k - 1] && c[k] in key;
      }
    }
  }

  // ----- Both stages -----

  lemma {:induction false} FrameIsFilling(frame: Frame, ts: seq<Token>)
    ensures ExpandAll(frame, ts) == FillAll(FrameFilling(frame), ts)
  {
    if ts != [] {
      FrameIsFilling(frame, ts[1..]);
      var t := ts[0];
      if t.Braced? {
        if t.body in FrameFilling(frame) {
          var k :| k in frame && t.body == MARK + k;
          assert t.body[|MARK|..] == k;
        }
        if Known(frame, t.body) { assert t.body == MARK + t.body[|MARK|..]; }
      }
    }
  }

  /**
   At no point, after whichever parameter, has a value been scanned again: every text is what one pass
   over its placeholders makes of it.
   */
  ghost predicate OnePassThroughout(frame: Frame, params: seq<Binding>) {
    forall n: nat, s: string :: n <= |params| && Flat(Tokenize(s)) ==> OnePassSoFar(frame, params, n, s)
  }

  predicate OnePassSoFar(frame: Frame, params: seq<Binding>, n: nat, s: string)
    requires n <= |params|
  {
    SubstituteParams(params[..n], Substitute(frame, s))
      == FillAll(Merge(params[..n]) + FrameFilling(frame), Tokenize(s))
  }

  /**
   What a caller can check: frame values against the parameters, and each parameter's value against the
   later ones.
   */
  ghost predicate NeverRescanned(frame: Frame, params: seq<Binding>) {
    Undisturbed(FrameFilling(frame), params)
  }

  /**
   Both stages together are one pass: frame values where the frame knows the key, else parameters, else
   the placeholder itself.
   */
  lemma TwoStagesAreOnePass(frame: Frame, params: seq<Binding>, n: nat, s: string)
    requires Named(params) && NeverRescanned(frame, params) && n <= |params| && Flat(Tokenize(s))
    ensures OnePassSoFar(frame, params, n, s)
  {
    hide Tokenize, Flat, FillAll, Spares;
    var m, part := FrameFilling(frame), params[..n];
    assert Named(part) && Undisturbed(m, part) by {
      assert forall i :: 0 <= i < n ==> part[i] == params[i];
    }
    FrameIsFilling(frame, Tokenize(s));
    SubstituteFilled(m, part, s);
  }

  lemma {:induction false} MergeHas(params: seq<Binding>, i: nat)
    requires i < |params| && forall j, k :: 0 <= j < k < |params| ==> params[j].key != params[k].key
    ensures params[i].key in Merge(params) && Merge(params)[params[i].key] == params[i].text
  {
    if i > 0 { MergeHas(params[1..], i - 1); }
  }

  /** A later parameter that strikes in an earlier one's value shows, on the earlier one's own placeholder. */
  lemma ParamRescanned(frame: Frame, params: seq<Binding>, i: nat, j: nat) returns (n: nat, s: string)
    requires Named(params) && i < j < |params| && params[i].key !in FrameFilling(frame)
    requires !Spares(params[j], params[i].text)
    ensures n <= |params| && Flat(Tokenize(s)) && !OnePassSoFar(frame, params, n, s)
  {
    hide Tokenize, Flat, FillAll, Touches, Replace, Merge;
    var m, q, u := FrameFilling(frame), params[i].key, params[i].text;
    var later := params[i + 1..];
    assert later[j - i - 1] == params[j];
    var c := Completion(u, params[j].key);
    s := Slot(q) + c;
    var k := FirstChange(later, j - i - 1, u + c);
    n := i + 1 + k;
    SlotFilled(m, q, c);
    FrameIsFilling(frame, Tokenize(s));
    assert params[..n] == params[..i] + ([params[i]] + later[..k]);
    SubstituteParamsAppend(params[..i], [params[i]] + later[..k], s);
    SubstituteParamsAppend([params[i]], later[..k], s);
    OthersPass(params[..i], q, c);
    JustOne(params[i], s);
    SlotReplaced(params[i], q, c);
    assert params[..n][i] == params[i];
    MergeHas(params[..n], i);
    SlotFilled(Merge(params[..n]) + m, q, c);
  }

  lemma FrameRescanned(frame: Frame, params: seq<Binding>, key: string, j: nat) returns (n: nat, s: string)
    requires Named(params) && j < |params| && key in FrameFilling(frame) && BraceFree(key)
    requires !Spares(params[j], FrameFilling(frame)[key])
    ensures n <= |params| && Flat(Tokenize(s)) && !OnePassSoFar(frame, params, n, s)
  {
    hide Tokenize, Flat, FillAll, Touches, Replace, Merge;
    var m := FrameFilling(frame);
    var c := Completion(m[key], params[j].key);
    s := Slot(key) + c;
    n := FirstChange(params, j, m[key] + c);
    SlotFilled(m, key, c);
    FrameIsFilling(frame, Tokenize(s));
    SlotFilled(Merge(params[..n]) + m, key, c);
  }

  /**
   Exactly: substitution is one pass throughout, on all texts without nested braces, if and only if no
   value can be scanned again.
   */
  lemma OnePassExactly(frame: Frame, params: seq<Binding>)
    requires Named(params)
    ensures OnePassThroughout(frame, params) <==> NeverRescanned(frame, params)
  {
    hide OnePassSoFar, Spares, Tokenize, Flat, FrameFilling, Named;
    var m := FrameFilling(frame);
    if NeverRescanned(frame, params) {
      forall n: nat, s: string | n <= |params| && Flat(Tokenize(s)) ensures OnePassSoFar(frame, params, n, s) {
        TwoStagesAreOnePass(frame, params, n, s);
      }
    } else if body, j :| body in m && BraceFree(body) && 0 <= j < |params| && !Spares(params[j], m[body]) {
      var n, s := FrameRescanned(frame, params, body, j);
    } else {
      var i, j :| 0 <= i < j < |params| && params[i].key !in m && !Spares(params[j], params[i].text);
      var n, s := ParamRescanned(frame, params, i, j);
    }
  }

  // ----- Which texts -----

  /** On a text, one pass is what all harmless parameters amount to if and only if no braces nest in it. */
  lemma TextExactly(s: string)
    ensures (forall params :: Named(params) && NeverRescanned(map[], params) ==>
               SubstituteParams(params, s) == FillAll(Merge(params), Tokenize(s)))
            <==> Flat(Tokenize(s))
  {
    hide FillAll, Tokenize, Undisturbed, Merge;
    if Flat(Tokenize(s)) {
      forall params | Named(params) && NeverRescanned(map[], params)
        ensures SubstituteParams(params, s) == FillAll(Merge(params), Tokenize(s))
      {
        ParamsAllAtOnce(params, s);
      }
    } else {
      var i :| 0 <= i < |Tokenize(s)| && Tokenize(s)[i].Braced? && '{' in Tokenize(s)[i].body;
      var y := NestedKey(s, i);
      var b := Binding(y, "");
      AloneIsHarmless(b);
      JustOne(b, s);
      MergeOne(b);
    }
  }

  lemma MergeOne(b: Binding)
    ensures Merge([b]) == map[b.key := b.text]
  {
    assert [b][1..] == [];
  }

  lemma AloneIsHarmless(b: Binding)
    requires BraceFree(b.key)
    ensures Named([b]) && NeverRescanned(map[], [b])
  {
    assert FrameFilling(map[]) == map[];
  }

  lemma ParamsAllAtOnce(params: seq<Binding>, s: string)
    requires Named(params) && NeverRescanned(map[], params) && Flat(Tokenize(s))
    ensures SubstituteParams(params, s) == FillAll(Merge(params), Tokenize(s))
  {
    hide FillAll, Tokenize, Undisturbed, Flat;
    TwoStagesAreOnePass(map[], params, |params|, s);
    assert params[..|params|] == params;
    assert FrameFilling(map[]) == map[];
    assert Merge(params) + map[] == Merge(params);
    EmptyFrameIsIdentity(s);
  }

  function LastBrace(body: string): (i: nat)
    requires '{' in body
    ensures i < |body| && body[i] == '{' && '{' !in body[i + 1..]
  {
    var n := |body| - 1;
    if body[n] == '{' then n
    else
      assert body == body[..n] + [body[n]];
      var i := LastBrace(body[..n]);
      assert body[i + 1..] == body[..n][i + 1..] + [body[n]];
      i
  }

  /** Erasing a key never erases fewer characters than one pass would. */
  lemma {:induction false} ErasedLength(s: string, y: string)
    requires BraceFree(y)
    ensures |Replace(s, Slot(y), "")| <= |FillAll(map[y := ""], Tokenize(s))|
    decreases |s|
  {
    hide Tokenize, First, Replace, FillAll;
    if s == "" {
      EmptyTokens();
      NothingCloses(s, y, "");
    } else {
      var t, rest := FirstThenRest(s);
      FillCons(map[y := ""], t, Tokenize(rest));
      ErasedLength(rest, y);
      ErasedFirst(t, rest, y);
    }
  }

  /** The part of a nested token after its last open brace. */
  predicate EndsIn(t: Token, y: string) {
    t.Braced? && '{' in t.body && t.body[LastBrace(t.body) + 1..] == y
  }

  lemma ErasedFirst(t: Token, rest: string, y: string)
    requires BraceFree(y) && (t.Plain? ==> t.c != '{') && (t.Braced? ==> '}' !in t.body)
    requires t.Unclosed? ==> rest == "" && '}' !in Show(t)
    ensures |Replace(Show(t) + rest, Slot(y), "")|
            == |Fill(map[y := ""], t)| + |Replace(rest, Slot(y), "")| - if EndsIn(t, y) then |Slot(y)| else 0
  {
    hide Replace;
    if t.Unclosed? {
      assert Show(t) + rest == Show(t);
      NothingCloses(Show(t), y, "");
      NothingCloses(rest, y, "");
    } else if t.Braced? && '{' in t.body {
      NestedFirst(t.body, rest, y);
    } else {
      ReplaceFirst(t, rest, y, "");
    }
  }

  lemma CutAt(body: string, i: nat, rest: string)
    requires i < |body| && body[i] == '{'
    ensures Show(Braced(body)) + rest == ("{" + body[..i]) + (Slot(body[i + 1..]) + rest)
    ensures |Show(Braced(body))| == |"{" + body[..i]| + |Slot(body[i + 1..])|
  {
    var a, z := body[..i], body[i + 1..];
    assert body == a + (['{'] + z);
    Rebracketed(a, z, rest);
  }

  lemma Rebracketed(a: string, z: string, rest: string)
    ensures ("{" + (a + (['{'] + z)) + "}") + rest == ("{" + a) + (("{" + z + "}") + rest)
  {
  }

  lemma NestedFirst(body: string, rest: string, y: string)
    requires BraceFree(y) && '}' !in body && '{' in body
    ensures var z := body[LastBrace(body) + 1..];
      |Replace(Show(Braced(body)) + rest, Slot(y), "")| == |Show(Braced(body))| + |Replace(rest, Slot(y), "")|
        - if z == y then |Slot(y)| else 0
  {
    hide Replace, LastBrace, Show, Slot;
    var i := LastBrace(body);
    var u, z := "{" + body[..i], body[i + 1..];
    CutAt(body, i, rest);
    SkipNested(u, z, rest, y);
  }

  lemma SkipNested(u: string, z: string, rest: string, y: string)
    requires BraceFree(y) && BraceFree(z) && '}' !in u
    ensures |Replace(u + (Slot(z) + rest), Slot(y), "")| == |u| + |Slot(z)| + |Replace(rest, Slot(y), "")|
        - if z == y then |Slot(y)| else 0
  {
    hide Replace;
    var tail := Slot(z) + rest;
    forall p | 0 <= p < |u| ensures !(Slot(y) <= (u + tail)[p..]) { NoSlotAcross(u, z, rest, y, p); }
    SkipUnmatched(u, tail, Slot(y), "");
    assert Show(Braced(z)) == Slot(z);
    ReplaceFirst(Braced(z), rest, y, "");
  }

  /** A placeholder that begins in `u` would have to run across the brace that follows. */
  lemma NoSlotAcross(u: string, z: string, rest: string, y: string, p: nat)
    requires BraceFree(y) && '}' !in u && '}' !in z && p < |u|
    ensures !(Slot(y) <= (u + (Slot(z) + rest))[p..])
  {
    var pat, s := Slot(y), (u + (Slot(z) + rest))[p..];
    var k := |u| - p;
    assert s[k] == '{';
    assert k >= 1;
    if |pat| > k {
      if k <= |y| { assert pat[k] == y[k - 1] && y[k - 1] in y; } else { assert pat[k] == '}'; }
    } else {
      assert s[|pat| - 1] == u[p + |pat| - 1] && u[p + |pat| - 1] in u;
      assert pat[|pat| - 1] == '}';
    }
  }

  /** A nested token names a key whose erasure shows. */
  lemma {:induction false} NestedKey(s: string, i: nat) returns (y: string)
    requires i < |Tokenize(s)| && Tokenize(s)[i].Braced? && '{' in Tokenize(s)[i].body
    ensures BraceFree(y) && Replace(s, Slot(y), "") != FillAll(map[y := ""], Tokenize(s))
    ensures y == Tokenize(s)[i].body[LastBrace(Tokenize(s)[i].body) + 1..]
    ensures |Replace(s, Slot(y), "")| < |FillAll(map[y := ""], Tokenize(s))|
    decreases |s|
  {
    hide Tokenize, First, Replace, FillAll;
    if s == "" { EmptyTokens(); }
    var t, rest := FirstThenRest(s);
    var ts := Tokenize(s);
    assert ts[1..] == Tokenize(rest);
    if i == 0 {
      y := t.body[LastBrace(t.body) + 1..];
      assert forall c :: c in y ==> c in t.body;
      ErasedLength(rest, y);
    } else {
      assert ts[i] == Tokenize(rest)[i - 1];
      y := NestedKey(rest, i - 1);
    }
    FillCons(map[y := ""], t, Tokenize(rest));
    ErasedFirst(t, rest, y);
  }

  // ----- Witnesses -----

  /** Strings in the order in which the parameter map lists its keys. */
  predicate Less(a: string, b: string) {
    b != "" && (a == "" || a[0] < b[0] || (a[0] == b[0] && Less(a[1..], b[1..])))
  }

  predicate InKeyOrder(params: seq<Binding>) {
    forall i, j :: 0 <= i < j < |params| ==> Less(params[i].key, params[j].key)
  }

  /** In key order, a value that spells a later placeholder is scanned again, and one pass is not what comes out. */
  lemma RescannedInKeyOrder()
    ensures var params := [Binding("a", "{b}"), Binding("b", "x")];
      && InKeyOrder(params) && Named(params) && !NeverRescanned(map[], params)
      && SubstituteParams(params, "{a}") == "x"
      && FillAll(Merge(params), Tokenize("{a}")) == "{b}"
  {
    hide Replace, Tokenize, FillAll, Merge;
    var a, b := Binding("a", "{b}"), Binding("b", "x");
    var params := [a, b];
    var text := "{a}";
    assert text == Slot("a") + "" && Slot("b") == "{b}" + "" == "{b}";
    TwoParams(a, b, text);
    SlotReplaced(a, "a", "");
    SlotReplaced(b, "b", "");
    MergeHas(params, 0);
    SlotFilled(Merge(params), "a", "");
    assert !Spares(params[1], params[0].text) by {
      assert "{b}"[0..] == "{b}" && Meets("{b}"[0..], Slot("b"));
      assert Slot("b") != "x" by { assert |Slot("b")| == 3; }
    }
    assert FrameFilling(map[]) == map[];
  }

  /** On the first parameter's own placeholder, one pass yields its value. */
  lemma OwnPlaceholder(params: seq<Binding>, n: nat)
    requires Named(params) && 0 < n <= |params|
    ensures OnePassSoFar(map[], params, n, Slot(params[0].key)) <==>
            SubstituteParams(params[..n], Slot(params[0].key)) == params[0].text
  {
    hide Replace, Tokenize, FillAll, Merge, First, Slot;
    var part, s := params[..n], Slot(params[0].key);
    EmptyFrameIsIdentity(s);
    assert FrameFilling(map[]) == map[];
    assert part[0] == params[0];
    MergeHas(part, 0);
    SlotFilled(Merge(part) + map[], params[0].key, "");
    assert s + "" == s && params[0].text + "" == params[0].text;
  }

  const A := Binding("a", "{b}{c}")
  const B := Binding("b", "")
  const C := Binding("c", "{b}{c}")

  lemma Spoiled()
    ensures SubstituteParams([A, B], "{a}") == "{c}"
  {
    hide Replace, Tokenize, First;
    var text := "{a}";
    assert text == Slot("a") + "" && "{b}{c}" + "" == "{b}{c}" && Slot("c") + "" == "{c}";
    assert Show(Braced("b")) + "{c}" == "{b}{c}" && "" + "{c}" == "{c}";
    TwoParams(A, B, text);
    SlotReplaced(A, "a", "");
    ReplaceFirst(Braced("b"), "{c}", "b", "");
    SlotReplaced(B, "c", "");
  }

  lemma Restored()
    ensures SubstituteParams([A, B, C], "{a}") == "{b}{c}"
  {
    hide Replace, Tokenize, First;
    assert [A, B, C] == [A, B] + [C];
    SubstituteParamsAppend([A, B], [C], "{a}");
    Spoiled();
    JustOne(C, "{c}");
    SlotReplaced(C, "c", "");
    assert Slot("c") + "" == "{c}" && "{b}{c}" + "" == "{b}{c}";
  }

  /** Later replacements can happen to restore what an earlier one spoiled, so the last text alone does not tell. */
  lemma SpoiledAndRestored()
    ensures InKeyOrder([A, B, C]) && Named([A, B, C])
    ensures OnePassSoFar(map[], [A, B, C], 3, "{a}") && !OnePassSoFar(map[], [A, B, C], 2, "{a}")
  {
    hide Replace, Tokenize, FillAll, Merge, First, OnePassSoFar, SubstituteParams;
    var params := [A, B, C];
    assert Slot("a") == "{a}" && params[..3] == params && params[..2] == [A, B];
    Spoiled();
    Restored();
    OwnPlaceholder(params, 2);
    OwnPlaceholder(params, 3);
  }

  lemma TwoParams(a: Binding, b: Binding, s: string)
    ensures SubstituteParams([a, b], s) == Replace(Replace(s, Slot(a.key), a.text), Slot(b.key), b.text)
  {
    hide Replace;
    var both, last: seq<Binding> := [a, b], [b];
    var next := Replace(s, Slot(a.key), a.text);
    assert both[1..] == last && last[1..] == [];
    assert SubstituteParams(last, next) == SubstituteParams([], Replace(next, Slot(b.key), b.text));
    assert SubstituteParams(both, s) == SubstituteParams(last, next);
  }
}
