/**
 The text that substitution ends with. A value put in for a placeholder may be taken apart by a later
 parameter and put together again by another, so whether the result is that of one pass is decided by
 what comes out of each value at the end: of the value alone, and of the value followed by what would
 complete the placeholder it leaves open.
 */
module FinalTexts {
  import opened Basics
  import opened Frames
  import opened Placeholders

  // ----- Open ends -----

  /** The placeholder a text begins at its end without closing it, from its brace on. */
  function Tail(s: string): string {
    if s == "" then ""
    else if s[0] == '{' && BraceFree(s[1..]) then s
    else Tail(s[1..])
  }

  /** The text leaves a placeholder open that could become the one of `key`. */
  predicate Begins(u: string, key: string) {
    Tail(u) != "" && Tail(u) < Slot(key)
  }

  /** What would complete it. */
  function Rest(u: string, key: string): string
    requires Begins(u, key)
  {
    Slot(key)[|Tail(u)|..]
  }

  lemma {:induction false} TailShape(s: string) returns (front: string)
    requires Tail(s) != ""
    ensures s == front + Tail(s) && Tail(s)[0] == '{' && BraceFree(Tail(s)[1..])
  {
    if s[0] == '{' && BraceFree(s[1..]) {
      front := "";
    } else {
      var f := TailShape(s[1..]);
      front := [s[0]] + f;
    }
  }

  lemma {:induction false} TailAt(s: string, p: nat)
    requires p < |s| && s[p] == '{' && BraceFree(s[p + 1..])
    ensures Tail(s) == s[p..]
  {
    if p > 0 {
      assert s[1..][p - 1] == '{' && s[1..][p..] == s[p + 1..] && s[1..][p - 1..] == s[p..];
      TailAt(s[1..], p - 1);
      assert s[1..][p - 1] in s[1..];
    }
  }

  lemma TailEnds(s: string)
    requires Tail(s) != ""
    ensures s != "" && s[|s| - 1] != '}'
  {
    var front := TailShape(s);
    var t := Tail(s);
    assert s[|s| - 1] == t[|t| - 1];
    assert |t| > 1 ==> t[|t| - 1] == t[1..][|t| - 2] && t[1..][|t| - 2] in t[1..];
  }

  lemma ClosedEnd(s: string)
    requires s != "" && s[|s| - 1] == '}'
    ensures Tail(s) == ""
  {
    hide Tail;
    if Tail(s) != "" { TailEnds(s); }
  }

  /** Inside a placeholder no other begins, and it closes at its end only. */
  lemma SlotInside(key: string)
    requires BraceFree(key)
    ensures forall k :: 0 < k < |Slot(key)| ==> Slot(key)[k] != '{'
    ensures forall k :: 0 <= k < |Slot(key)| - 1 ==> Slot(key)[k] != '}'
  {
    var pat := Slot(key);
    forall k | 0 < k < |pat| - 1 ensures pat[k] != '{' && pat[k] != '}' {
      assert pat[k] == key[k - 1] && key[k - 1] in key;
    }
  }

  lemma RestShape(u: string, key: string)
    requires BraceFree(key) && Begins(u, key)
    ensures var c := Rest(u, key);
      && c != "" && '{' !in c && c[|c| - 1] == '}' && Slot(key) == Tail(u) + c
      && forall k :: 0 <= k < |c| - 1 ==> c[k] != '}'
  {
    hide Tail;
    SlotInside(key);
    var n := |Tail(u)|;
    assert forall k :: 0 <= k < |Rest(u, key)| ==> Rest(u, key)[k] == Slot(key)[n + k];
  }

  // ----- Replacing in two texts side by side -----

  /** An occurrence of `pat` begins in `x` and ends in `y`. */
  predicate Straddles(x: string, y: string, pat: string) {
    exists p :: 0 <= p < |x| && |x| - p < |pat| && pat <= (x + y)[p..]
  }

  lemma {:induction false} ReplaceSum(x: string, y: string, pat: string, text: string)
    requires pat != "" && !Straddles(x, y, pat)
    ensures Replace(x + y, pat, text) == Replace(x, pat, text) + Replace(y, pat, text)
    decreases |x|
  {
    hide Straddles;
    if x == "" {
      assert x + y == y;
    } else {
      NotAcross(x, y, pat);
      var n := if pat <= x then |pat| else 1;
      assert (x + y)[n..] == x[n..] + y && (x + y)[0] == x[0];
      if Straddles(x[n..], y, pat) { StraddlesBefore(x, n, y, pat); }
      ReplaceSum(x[n..], y, pat, text);
    }
  }

  lemma NotAcross(x: string, y: string, pat: string)
    requires x != "" && !Straddles(x, y, pat)
    ensures pat <= x + y <==> pat <= x
  {
    assert (x + y)[0..] == x + y;
    if |pat| <= |x| { assert (x + y)[..|pat|] == x[..|pat|]; }
  }

  lemma StraddlesBefore(x: string, n: nat, y: string, pat: string)
    requires n <= |x| && Straddles(x[n..], y, pat)
    ensures Straddles(x, y, pat)
  {
    var p :| 0 <= p < |x[n..]| && |x[n..]| - p < |pat| && pat <= (x[n..] + y)[p..];
    assert (x + y)[n + p..] == (x[n..] + y)[p..];
  }

  lemma SplitPrefix(a: string, y: string, pat: string)
    requires |a| < |pat| && pat <= a + y
    ensures a == pat[..|a|] && pat[|a|..] <= y
  {
    var s := a + y;
    assert pat == s[..|pat|];
    assert s[..|pat|] == a + y[..|pat| - |a|];
  }

  lemma StraddleCompletes(x: string, y: string, key: string)
    requires BraceFree(key) && Straddles(x, y, Slot(key))
    ensures Begins(x, key) && Rest(x, key) <= y
  {
    hide Tail;
    var pat := Slot(key);
    var p :| 0 <= p < |x| && |x| - p < |pat| && pat <= (x + y)[p..];
    var a := x[p..];
    assert (x + y)[p..] == a + y;
    SplitPrefix(a, y, pat);
    assert a == ['{'] + key[..|a| - 1];
    assert x[p + 1..] == key[..|a| - 1];
    TailAt(x, p);
  }

  /** Unless the second text completes what the first leaves open, each is replaced for itself. */
  lemma ReplaceApart(x: string, y: string, b: Binding)
    requires BraceFree(b.key) && !(Begins(x, b.key) && Rest(x, b.key) <= y)
    ensures Replace(x + y, Slot(b.key), b.text) == Replace(x, Slot(b.key), b.text) + Replace(y, Slot(b.key), b.text)
  {
    hide Begins, Replace, Straddles;
    if Straddles(x, y, Slot(b.key)) { StraddleCompletes(x, y, b.key); }
    ReplaceSum(x, y, Slot(b.key), b.text);
  }

  /** No placeholder goes on across a brace that opens. */
  lemma BraceApart(x: string, y: string, key: string)
    requires BraceFree(key) && y != "" && y[0] == '{'
    ensures !Straddles(x, y, Slot(key))
  {
    var pat := Slot(key);
    SlotInside(key);
    forall p | 0 <= p < |x| && |x| - p < |pat| ensures !(pat <= (x + y)[p..]) {
      var k := |x| - p;
      assert (x + y)[p..][k] == '{';
      assert pat[k] != '{';
    }
  }

  /** An open end stays as it is. */
  lemma TailStays(s: string, b: Binding)
    requires BraceFree(b.key) && Tail(s) != ""
    ensures Tail(Replace(s, Slot(b.key), b.text)) == Tail(s)
  {
    hide Replace, Tail, Straddles;
    var pat, t := Slot(b.key), Tail(s);
    var front := TailShape(s);
    BraceApart(front, t, b.key);
    ReplaceSum(front, t, pat, b.text);
    assert '}' !in t by { assert t == [t[0]] + t[1..]; }
    NothingCloses(t, b.key, b.text);
    var r := Replace(front, pat, b.text);
    assert (r + t)[|r|..] == t && (r + t)[|r| + 1..] == t[1..];
    TailAt(r + t, |r|);
  }

  lemma {:induction false} TailStaysThroughout(s: string, params: seq<Binding>)
    requires Named(params) && Tail(s) != ""
    ensures Tail(SubstituteParams(params, s)) == Tail(s)
    decreases |params|
  {
    hide Replace, Tail;
    if params != [] {
      TailStays(s, params[0]);
      TailStaysThroughout(Replace(s, Slot(params[0].key), params[0].text), params[1..]);
    }
  }

  // ----- A value that is whole in the end -----

  /** After the later parameters the value is what it was, alone and with each completion of its open end. */
  ghost predicate Survives(u: string, later: seq<Binding>) {
    Becomes(u, u, later)
  }

  /** The later parameters turn `x` into `z`, alone and with each completion of the open end they share. */
  ghost predicate Becomes(x: string, z: string, later: seq<Binding>) {
    && SubstituteParams(later, x) == z && Tail(x) == Tail(z)
    && forall j :: 0 <= j < |later| && Begins(x, later[j].key) ==>
         SubstituteParams(later, x + Rest(x, later[j].key)) == z + Rest(x, later[j].key)
  }

  lemma {:induction false} TextPasses(c: string, y: string, params: seq<Binding>)
    requires '{' !in c
    ensures SubstituteParams(params, c + y) == c + SubstituteParams(params, y)
    decreases |params|
  {
    hide Replace;
    if params != [] {
      var b := params[0];
      SkipText(c, y, Slot(b.key), b.text);
      TextPasses(c, Replace(y, Slot(b.key), b.text), params[1..]);
    }
  }

  lemma BecomesNext(x: string, z: string, later: seq<Binding>)
    requires later != [] && Named(later) && Becomes(x, z, later)
    ensures Becomes(Replace(x, Slot(later[0].key), later[0].text), z, later[1..])
  {
    hide Replace, Tail;
    var b, rest := later[0], later[1..];
    var x' := Replace(x, Slot(b.key), b.text);
    if Tail(x') != "" { TailStaysThroughout(x', rest); }
    if Tail(x) != "" { TailStays(x, b); }
    forall j | 0 <= j < |rest| && Begins(x', rest[j].key)
      ensures SubstituteParams(rest, x' + Rest(x', rest[j].key)) == z + Rest(x', rest[j].key)
    {
      var key := rest[j].key;
      assert later[j + 1].key == key && Begins(x, key);
      var c := Rest(x, key);
      RestShape(x, key);
      if Begins(x, b.key) && Rest(x, b.key) <= c { SameSlot(x, b.key, key); }
      ReplaceApart(x, c, b);
      NoSlotIn(c, b);
    }
  }

  lemma NoSlotIn(c: string, b: Binding)
    requires '{' !in c
    ensures Replace(c, Slot(b.key), b.text) == c
  {
    assert c + "" == c && Replace("", Slot(b.key), b.text) == "";
    SkipText(c, "", Slot(b.key), b.text);
  }

  /** Completions end at their one closing brace, so none goes on where another ends. */
  lemma SameSlot(x: string, a: string, b: string)
    requires BraceFree(a) && BraceFree(b) && Begins(x, a) && Begins(x, b) && Rest(x, a) <= Rest(x, b)
    ensures a == b
  {
    hide Tail, Begins, Rest;
    var c, d := Rest(x, a), Rest(x, b);
    RestShape(x, a);
    RestShape(x, b);
    assert c[|c| - 1] == d[|c| - 1];
    assert c == d && Slot(a) == Slot(b);
    assert a == Slot(a)[1..|Slot(a)| - 1] && b == Slot(b)[1..|Slot(b)| - 1];
  }

  /** What survives does so before every text. */
  lemma {:induction false} PassedOver(x: string, z: string, later: seq<Binding>, y: string)
    requires Named(later) && Becomes(x, z, later)
    ensures SubstituteParams(later, x + y) == z + SubstituteParams(later, y)
    decreases |later|, |y|
  {
    hide Replace, Tail, Begins, Rest;
    if later != [] {
      var b := later[0];
      if Begins(x, b.key) && Rest(x, b.key) <= y {
        var c := Rest(x, b.key);
        var y' := y[|c|..];
        RestShape(x, b.key);
        assert y == c + y' && x + y == (x + c) + y' && z + y == (z + c) + y';
        ClosedEnd(x + c);
        ClosedEnd(z + c);
        Whole(x + c, z + c, later);
        PassedOver(x + c, z + c, later, y');
        TextPasses(c, y', later);
        assert (z + c) + SubstituteParams(later, y') == z + (c + SubstituteParams(later, y'));
      } else {
        ReplaceApart(x, y, b);
        BecomesNext(x, z, later);
        PassedOver(Replace(x, Slot(b.key), b.text), z, later[1..], Replace(y, Slot(b.key), b.text));
      }
    }
  }

  lemma Whole(x: string, z: string, later: seq<Binding>)
    requires SubstituteParams(later, x) == z && Tail(x) == "" && Tail(z) == ""
    ensures Becomes(x, z, later)
  {
  }

  /** Placeholders of other names are passed over, whatever follows. */
  lemma {:induction false} SlotPasses(params: seq<Binding>, q: string, y: string)
    requires Named(params) && BraceFree(q) && forall i :: 0 <= i < |params| ==> params[i].key != q
    ensures SubstituteParams(params, Slot(q) + y) == Slot(q) + SubstituteParams(params, y)
    decreases |params|
  {
    hide Replace;
    if params != [] {
      var b := params[0];
      assert Show(Braced(q)) == Slot(q);
      ReplaceFirst(Braced(q), y, b.key, b.text);
      SlotPasses(params[1..], q, Replace(y, Slot(b.key), b.text));
    }
  }

  /** The placeholder of parameter `i` becomes its value, which the later parameters then meet. */
  lemma SlotBecomes(params: seq<Binding>, i: nat, y: string)
    requires Named(params) && i < |params|
    ensures SubstituteParams(params, Slot(params[i].key) + y)
         == SubstituteParams(params[i + 1..], params[i].text + SubstituteParams(params[..i + 1], y))
  {
    hide Replace;
    var b, before, after := params[i], params[..i], params[i + 1..];
    assert params == before + ([b] + after) && params[..i + 1] == before + [b];
    var y' := SubstituteParams(before, y);
    SlotPasses(before, b.key, y);
    assert Show(Braced(b.key)) == Slot(b.key);
    ReplaceFirst(Braced(b.key), y', b.key, b.text);
    SubstituteParamsAppend(before, [b] + after, Slot(b.key) + y);
    SubstituteParamsAppend([b], after, Slot(b.key) + y');
    SubstituteParamsAppend(before, [b], y);
    JustOne(b, y');
    JustOne(b, Slot(b.key) + y');
  }

  // ----- The result is that of one pass -----

  ghost predicate AllSurvive(frame: Frame, params: seq<Binding>) {
    var m := FrameFilling(frame);
    && (forall body :: body in m && BraceFree(body) ==> Survives(m[body], params))
    && (forall i :: 0 <= i < |params| && params[i].key !in m ==> Survives(params[i].text, params[i + 1..]))
  }

  ghost predicate OnePassInTheEnd(frame: Frame, params: seq<Binding>) {
    forall s :: Flat(Tokenize(s)) ==> OnePassSoFar(frame, params, |params|, s)
  }

  function OnePass(frame: Frame, params: seq<Binding>, s: string): string {
    FillAll(Merge(params) + FrameFilling(frame), Tokenize(s))
  }

  lemma {:induction false} MergeLacks(params: seq<Binding>, key: string)
    ensures key in Merge(params) <==> exists i :: 0 <= i < |params| && params[i].key == key
  {
    if params != [] {
      MergeLacks(params[1..], key);
      assert forall i :: 0 <= i < |params[1..]| ==> params[1..][i] == params[i + 1];
    }
  }

  /** One token at the front. */
  lemma FrontFilled(frame: Frame, params: seq<Binding>, t: Token, y: string)
    requires Named(params) && AllSurvive(frame, params)
    requires !t.Unclosed? && (t.Plain? ==> t.c != '{') && (t.Braced? ==> BraceFree(t.body))
    ensures SubstituteParams(params, Fill(FrameFilling(frame), t) + y)
         == Fill(Merge(params) + FrameFilling(frame), t) + SubstituteParams(params, y)
  {
    hide FrameFilling, Merge, Becomes, SubstituteParams, BraceFree;
    var m := FrameFilling(frame);
    match t {
      case Plain(c) => TextPasses([c], y, params);
      case Braced(body) =>
        assert Show(t) == Slot(body);
        MergeLacks(params, body);
        if body in m {
          PassedOver(m[body], m[body], params, y);
        } else if i :| 0 <= i < |params| && params[i].key == body {
          NamedParts(params, i);
          MergeHas(params, i);
          SlotBecomes(params, i, y);
          var z := SubstituteParams(params[..i + 1], y);
          PassedOver(params[i].text, params[i].text, params[i + 1..], z);
          assert params == params[..i + 1] + params[i + 1..];
          SubstituteParamsAppend(params[..i + 1], params[i + 1..], y);
        } else {
          SlotPasses(params, body, y);
        }
    }
  }

  lemma NamedParts(params: seq<Binding>, i: nat)
    requires Named(params) && i < |params|
    ensures Named(params[i + 1..])
  {
  }

  lemma {:induction false} AllFilled(frame: Frame, params: seq<Binding>, s: string)
    requires Named(params) && AllSurvive(frame, params) && Flat(Tokenize(s))
    ensures SubstituteParams(params, FillAll(FrameFilling(frame), Tokenize(s))) == OnePass(frame, params, s)
    decreases |s|
  {
    hide Tokenize, First, FrameFilling, Merge, AllSurvive, SubstituteParams, Fill, Show;
    var m := FrameFilling(frame);
    var n := Merge(params) + m;
    if s == "" {
      EmptyTokens();
      NothingToPass(params);
    } else {
      var t, rest := FirstThenRest(s);
      var ts := Tokenize(s);
      assert ts[0] == t && ts[1..] == Tokenize(rest);
      FlatTail(ts);
      AllFilled(frame, params, rest);
      FillCons(m, t, Tokenize(rest));
      FillCons(n, t, Tokenize(rest));
      if t.Unclosed? {
        EmptyTokens();
        OpenEnd(m, n, t, s, params);
      } else {
        FrontFilled(frame, params, t, FillAll(m, Tokenize(rest)));
      }
    }
  }

  lemma {:induction false} NothingToPass(params: seq<Binding>)
    ensures SubstituteParams(params, "") == ""
  {
    if params != [] { NothingToPass(params[1..]); }
  }

  /** A text whose brace is never closed stays as it is. */
  lemma OpenEnd(m: Filling, n: Filling, t: Token, s: string, params: seq<Binding>)
    requires t.Unclosed? && s == Show(t) + "" && '}' !in s
    ensures SubstituteParams(params, Fill(m, t) + "") == Fill(n, t) + ""
  {
    UnclosedStays(params, s);
  }

  lemma {:induction false} UnclosedStays(params: seq<Binding>, s: string)
    requires '}' !in s
    ensures SubstituteParams(params, s) == s
    decreases |params|
  {
    hide Replace;
    if params != [] {
      NothingCloses(s, params[0].key, params[0].text);
      UnclosedStays(params[1..], s);
    }
  }

  /** What one pass makes of a placeholder and a text without one is that value and the text. */
  lemma Probe(frame: Frame, params: seq<Binding>, q: string, c: string)
    requires OnePassInTheEnd(frame, params) && BraceFree(q) && '{' !in c
    ensures var m := FrameFilling(frame);
      var n := Merge(params) + m;
      SubstituteParams(params, (if q in m then m[q] else Slot(q)) + c) == (if q in n then n[q] else Slot(q)) + c
  {
    hide Tokenize, FillAll, FrameFilling, Merge, SubstituteParams;
    var s := Slot(q) + c;
    SlotFilled(FrameFilling(frame), q, c);
    SlotFilled(Merge(params) + FrameFilling(frame), q, c);
    FrameIsFilling(frame, Tokenize(s));
    assert OnePassSoFar(frame, params, |params|, s);
    assert params[..|params|] == params;
  }

  lemma FrameValueSurvives(frame: Frame, params: seq<Binding>, body: string)
    requires Named(params) && OnePassInTheEnd(frame, params) && body in FrameFilling(frame) && BraceFree(body)
    ensures Survives(FrameFilling(frame)[body], params)
  {
    hide FrameFilling, Merge, SubstituteParams, OnePassInTheEnd, Begins, Rest;
    var u := FrameFilling(frame)[body];
    Probe(frame, params, body, "");
    assert u + "" == u;
    forall j | 0 <= j < |params| && Begins(u, params[j].key)
      ensures SubstituteParams(params, u + Rest(u, params[j].key)) == u + Rest(u, params[j].key)
    {
      RestShape(u, params[j].key);
      Probe(frame, params, body, Rest(u, params[j].key));
    }
  }

  /** What follows the value of parameter `i` has no placeholder in it. */
  lemma ParamProbe(frame: Frame, params: seq<Binding>, i: nat, c: string)
    requires Named(params) && OnePassInTheEnd(frame, params) && i < |params|
    requires params[i].key !in FrameFilling(frame) && '{' !in c
    ensures SubstituteParams(params[i + 1..], params[i].text + c) == params[i].text + c
  {
    hide FrameFilling, Merge, SubstituteParams, OnePassInTheEnd;
    Probe(frame, params, params[i].key, c);
    MergeHas(params, i);
    SlotBecomes(params, i, c);
    assert c + "" == c;
    TextPasses(c, "", params[..i + 1]);
    NothingToPass(params[..i + 1]);
  }

  lemma ParamValueSurvives(frame: Frame, params: seq<Binding>, i: nat)
    requires Named(params) && OnePassInTheEnd(frame, params) && i < |params| && params[i].key !in FrameFilling(frame)
    ensures Survives(params[i].text, params[i + 1..])
  {
    hide FrameFilling, SubstituteParams, OnePassInTheEnd, Begins, Rest;
    var u, later := params[i].text, params[i + 1..];
    ParamProbe(frame, params, i, "");
    assert u + "" == u;
    forall j | 0 <= j < |later| && Begins(u, later[j].key)
      ensures SubstituteParams(later, u + Rest(u, later[j].key)) == u + Rest(u, later[j].key)
    {
      assert later[j] == params[i + 1 + j];
      RestShape(u, later[j].key);
      ParamProbe(frame, params, i, Rest(u, later[j].key));
    }
  }

  /**
   Exactly: what comes out is one pass over the placeholders, for every text without nested braces, if
   and only if each inserted value that no other shadows survives the later parameters, alone and with
   each completion of the placeholder it leaves open.
   */
  lemma OnePassInTheEndExactly(frame: Frame, params: seq<Binding>)
    requires Named(params)
    ensures OnePassInTheEnd(frame, params) <==> AllSurvive(frame, params)
  {
    hide Named, Survives, Flat, Tokenize, FillAll, FrameFilling, Merge;
    if AllSurvive(frame, params) {
      forall s | Flat(Tokenize(s)) ensures OnePassSoFar(frame, params, |params|, s) {
        AllFilled(frame, params, s);
        FrameIsFilling(frame, Tokenize(s));
        assert params[..|params|] == params;
      }
    }
    if OnePassInTheEnd(frame, params) {
      forall body | body in FrameFilling(frame) && BraceFree(body) ensures Survives(FrameFilling(frame)[body], params) {
        FrameValueSurvives(frame, params, body);
      }
      forall i | 0 <= i < |params| && params[i].key !in FrameFilling(frame)
        ensures Survives(params[i].text, params[i + 1..])
      {
        ParamValueSurvives(frame, params, i);
      }
    }
  }
}
