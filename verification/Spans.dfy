/**
 The diagnostics layer: spans with a mapped name leave one ledger entry when they close. The entries
 form a forest: an entry's depth is the number of parent links to its root, however many unmapped
 spans lie in between, and every child is in the ledger before its parent.
 */
module Spans {
  import opened Basics

  datatype Kind = Scoring | Test | Cargo | McpDispatch | A2aPost | A2aSse | DashboardRoute | Build | DiagSynthesis

  datatype SpanOutcome = Succeeded | Failed | TimedOut | Cancelled

  datatype Field = Field(name: string, text: string)

  function OutcomeNamed(text: string): Option<SpanOutcome> {
    match text
    case "ok" => Some(Succeeded)
    case "err" => Some(Failed)
    case "timeout" => Some(TimedOut)
    case "cancelled" => Some(Cancelled)
    case _ => None
  }

  /** The outcome after visiting some text fields: the last recognised one counts, unknown ones change nothing. */
  function Visited(outcome: SpanOutcome, fields: seq<Field>): SpanOutcome {
    if fields == [] then outcome
    else
      var last := fields[|fields| - 1];
      if last.name == "outcome" && OutcomeNamed(last.text).Some? then OutcomeNamed(last.text).value
      else Visited(outcome, fields[..|fields| - 1])
  }

  function KindForSpanName(name: string): Option<Kind> {
    match name
    case "score.pipeline.run" => Some(Scoring)
    case "test.run" => Some(Test)
    case "cargo.invoke" => Some(Cargo)
    case "mcp.sensory" => Some(McpDispatch)
    case "a2a.post" => Some(A2aPost)
    case "a2a.sse" => Some(A2aSse)
    case "dashboard.route" => Some(DashboardRoute)
    case "build" => Some(Build)
    case "diag.synthesis" => Some(DiagSynthesis)
    case _ => None
  }

  /** How the ledger writes an outcome. */
  function OutcomeText(outcome: SpanOutcome): string {
    match outcome
    case Succeeded => "ok"
    case Failed => "err"
    case TimedOut => "timeout"
    case Cancelled => "cancelled"
  }

  /** The span name of each kind of entry. */
  function SpanName(kind: Kind): string {
    match kind
    case Scoring => "score.pipeline.run"
    case Test => "test.run"
    case Cargo => "cargo.invoke"
    case McpDispatch => "mcp.sensory"
    case A2aPost => "a2a.post"
    case A2aSse => "a2a.sse"
    case DashboardRoute => "dashboard.route"
    case Build => "build"
    case DiagSynthesis => "diag.synthesis"
  }

  /** A text is read as an outcome exactly if it is how that outcome is written. */
  lemma OutcomeReadBack(text: string, outcome: SpanOutcome)
    ensures OutcomeNamed(text) == Some(outcome) <==> text == OutcomeText(outcome)
  {
  }

  lemma KindReadBack(name: string, kind: Kind)
    ensures KindForSpanName(name) == Some(kind) <==> name == SpanName(kind)
  {
  }

  /** An outcome text that is not recognised leaves a span at ok if and only if it was at ok. */
  lemma UnknownOutcomeExactly(before: SpanOutcome, fields: seq<Field>, text: string)
    requires OutcomeNamed(text).None?
    ensures Visited(before, fields + [Field("outcome", text)]) == Succeeded <==> Visited(before, fields) == Succeeded
  {
    assert (fields + [Field("outcome", text)])[..|fields|] == fields;
  }

  /** It does not fall back to ok. */
  lemma UnknownOutcomeDoesNotReset()
    ensures Visited(Succeeded, [Field("outcome", "err"), Field("outcome", "bogus")]) == Failed
  {
    var fields, one := [Field("outcome", "err"), Field("outcome", "bogus")], [Field("outcome", "err")];
    assert fields[..1] == one && one[..0] == [];
    assert Visited(Succeeded, one) == Failed;
  }

  /** What a mapped span carries from its creation to its close. */
  datatype SpanData = SpanData(eventId: nat, kind: Kind, outcome: SpanOutcome, parentEvent: Option<nat>)

  datatype Span = Span(parent: Option<nat>, data: Option<SpanData>, open: bool)

  datatype Entry = Entry(eventId: nat, kind: Kind, outcome: SpanOutcome, depth: nat, parentEvent: Option<nat>)

  datatype Layer = Layer(spans: seq<Span>, ledger: seq<Entry>, nextEvent: nat)

  datatype Action =
    | NewSpan(name: string, parent: Option<nat>, fields: seq<Field>)
    | Record(id: nat, fields: seq<Field>)
    | Close(id: nat)

  predicate WellParented(spans: seq<Span>) {
    forall i :: 0 <= i < |spans| && spans[i].parent.Some? ==> spans[i].parent.value < i
  }

  /** The nearest mapped span at or above `p`. */
  function NearestMapped(spans: seq<Span>, p: Option<nat>): (r: Option<nat>)
    requires WellParented(spans) && (p.Some? ==> p.value < |spans|)
    ensures r.Some? ==> p.Some? && r.value <= p.value && spans[r.value].data.Some?
    decreases if p.Some? then p.value + 1 else 0
  {
    if p.None? then None
    else if spans[p.value].data.Some? then p
    else NearestMapped(spans, spans[p.value].parent)
  }

  /** How many mapped spans there are at or above `p`. */
  function CountMapped(spans: seq<Span>, p: Option<nat>): nat
    requires WellParented(spans) && (p.Some? ==> p.value < |spans|)
    decreases if p.Some? then p.value + 1 else 0
  {
    if p.None? then 0
    else (if spans[p.value].data.Some? then 1 else 0) + CountMapped(spans, spans[p.value].parent)
  }

  predicate HasOpenChild(spans: seq<Span>, id: nat) {
    exists c :: 0 <= c < |spans| && spans[c].parent == Some(id) && spans[c].open
  }

  /** An action that the registry allows: parents are open, and a span closes after its children. */
  predicate Allowed(l: Layer, a: Action) {
    match a
    case NewSpan(_, parent, _) => parent.Some? ==> parent.value < |l.spans| && l.spans[parent.value].open
    case Record(id, _) => id < |l.spans| && l.spans[id].open
    case Close(id) => id < |l.spans| && l.spans[id].open && !HasOpenChild(l.spans, id)
  }

  function Do(l: Layer, a: Action): Layer
    requires WellParented(l.spans) && Allowed(l, a)
  {
    match a
    case NewSpan(name, parent, fields) =>
      var kind := KindForSpanName(name);
      if kind.None? then l.(spans := l.spans + [Span(parent, None, true)])
      else
        var above := NearestMapped(l.spans, parent);
        var data := SpanData(l.nextEvent, kind.value, Visited(Succeeded, fields),
                             if above.Some? then Some(l.spans[above.value].data.value.eventId) else None);
        l.(spans := l.spans + [Span(parent, Some(data), true)], nextEvent := l.nextEvent + 1)
    case Record(id, fields) =>
      if l.spans[id].data.None? then l
      else
        var d := l.spans[id].data.value;
        l.(spans := l.spans[id := l.spans[id].(data := Some(d.(outcome := Visited(d.outcome, fields))))])
    case Close(id) =>
      var s := l.spans[id];
      var closed := l.(spans := l.spans[id := s.(open := false)]);
      if s.data.None? then closed
      else
        var d := s.data.value;
        var entry := Entry(d.eventId, d.kind, d.outcome, CountMapped(l.spans, s.parent), d.parentEvent);
        closed.(ledger := l.ledger + [entry])
  }

  /** Recording an outcome text that is not recognised leaves an open span at ok if and only if it was at ok. */
  lemma UnknownRecordExactly(l: Layer, id: nat, text: string)
    requires WellParented(l.spans) && Allowed(l, Record(id, [Field("outcome", text)]))
    requires l.spans[id].data.Some? && OutcomeNamed(text).None?
    ensures var n := Do(l, Record(id, [Field("outcome", text)]));
      n.spans[id].data.Some? &&
      (n.spans[id].data.value.outcome == Succeeded <==> l.spans[id].data.value.outcome == Succeeded)
  {
    assert [] + [Field("outcome", text)] == [Field("outcome", text)];
    UnknownOutcomeExactly(l.spans[id].data.value.outcome, [], text);
  }

  // ----- Invariant -----

  ghost predicate SpanOk(l: Layer, i: nat)
    requires WellParented(l.spans) && i < |l.spans|
  {
    var s := l.spans[i];
    && (s.open && s.parent.Some? ==> l.spans[s.parent.value].open)
    && (s.data.Some? ==>
          && s.data.value.eventId < l.nextEvent
          && var above := NearestMapped(l.spans, s.parent);
             s.data.value.parentEvent == if above.Some? then Some(l.spans[above.value].data.value.eventId) else None)
  }

  /** The parent of the entry at `i` is a later entry one level up, or a span of that level still open. */
  ghost predicate EntryOk(l: Layer, i: nat)
    requires WellParented(l.spans) && i < |l.ledger|
  {
    var e := l.ledger[i];
    && e.eventId < l.nextEvent
    && (e.parentEvent.None? <==> e.depth == 0)
    && (e.parentEvent.Some? ==> Above(l, i, e.parentEvent.value, e.depth - 1))
  }

  ghost predicate Above(l: Layer, i: nat, id: nat, depth: int)
    requires WellParented(l.spans)
  {
    || (exists j :: i < j < |l.ledger| && l.ledger[j].eventId == id && l.ledger[j].depth == depth)
    || StillOpen(l, id, depth)
  }

  ghost predicate StillOpen(l: Layer, id: nat, depth: int)
    requires WellParented(l.spans)
  {
    exists s :: 0 <= s < |l.spans| && OpenAs(l, s, id, depth)
  }

  predicate OpenAs(l: Layer, s: nat, id: nat, depth: int)
    requires WellParented(l.spans) && s < |l.spans|
  {
    l.spans[s].open && l.spans[s].data.Some? && l.spans[s].data.value.eventId == id
      && CountMapped(l.spans, l.spans[s].parent) == depth
  }

  ghost predicate Inv(l: Layer) {
    && WellParented(l.spans)
    && (forall i :: 0 <= i < |l.spans| ==> SpanOk(l, i))
    && (forall i :: 0 <= i < |l.ledger| ==> EntryOk(l, i))
    // event ids are drawn once
    && (forall i, j :: 0 <= i < j < |l.spans| && l.spans[i].data.Some? && l.spans[j].data.Some? ==>
          l.spans[i].data.value.eventId < l.spans[j].data.value.eventId)
    // and each is logged at most once, when its span closes
    && (forall i :: 0 <= i < |l.ledger| ==> ClosedAs(l.spans, l.ledger[i].eventId))
    && (forall i, j :: 0 <= i < j < |l.ledger| ==> l.ledger[i].eventId != l.ledger[j].eventId)
  }

  ghost predicate ClosedAs(spans: seq<Span>, id: nat) {
    exists s :: 0 <= s < |spans| && !spans[s].open && spans[s].data.Some? && spans[s].data.value.eventId == id
  }

  /** `b` has the shape of `a` on the first `|a|` spans: same parents, same event ids. */
  ghost predicate SameShape(a: seq<Span>, b: seq<Span>) {
    |a| <= |b| && forall i :: 0 <= i < |a| ==>
      && b[i].parent == a[i].parent && b[i].data.Some? == a[i].data.Some?
      && (a[i].data.Some? ==>
            && b[i].data.value.eventId == a[i].data.value.eventId
            && b[i].data.value.parentEvent == a[i].data.value.parentEvent)
  }

  lemma {:induction false} ShapeDetermines(a: seq<Span>, b: seq<Span>, p: Option<nat>)
    requires WellParented(a) && WellParented(b) && SameShape(a, b) && (p.Some? ==> p.value < |a|)
    ensures NearestMapped(b, p) == NearestMapped(a, p)
    ensures CountMapped(b, p) == CountMapped(a, p)
    decreases if p.Some? then p.value + 1 else 0
  {
    if p.Some? { ShapeDetermines(a, b, a[p.value].parent); }
  }

  /** The nearest mapped ancestor is exactly one level up, and open if we are. */
  lemma {:induction false} NearestIsOneUp(l: Layer, p: Option<nat>)
    requires Inv(l) && (p.Some? ==> p.value < |l.spans|)
    ensures var a := NearestMapped(l.spans, p);
      && (a.None? <==> CountMapped(l.spans, p) == 0)
      && (a.Some? ==> CountMapped(l.spans, p) == CountMapped(l.spans, l.spans[a.value].parent) + 1)
      && (a.Some? && l.spans[p.value].open ==> l.spans[a.value].open)
    decreases if p.Some? then p.value + 1 else 0
  {
    if p.Some? && l.spans[p.value].data.None? {
      assert SpanOk(l, p.value);
      NearestIsOneUp(l, l.spans[p.value].parent);
    }
  }

  /** Entries keep their parents when spans only gain company or detail, and none closes. */
  lemma EntriesStay(l: Layer, n: Layer)
    requires Inv(l) && WellParented(n.spans) && SameShape(l.spans, n.spans)
    requires n.ledger == l.ledger && l.nextEvent <= n.nextEvent
    requires forall s :: 0 <= s < |l.spans| && l.spans[s].open ==> n.spans[s].open
    ensures forall i :: 0 <= i < |n.ledger| ==> EntryOk(n, i)
  {
    forall i | 0 <= i < |n.ledger| ensures EntryOk(n, i) {
      assert EntryOk(l, i);
      var e := l.ledger[i];
      if e.parentEvent.Some? && StillOpen(l, e.parentEvent.value, e.depth - 1) {
        var s :| 0 <= s < |l.spans| && OpenAs(l, s, e.parentEvent.value, e.depth - 1);
        ShapeDetermines(l.spans, n.spans, l.spans[s].parent);
        assert OpenAs(n, s, e.parentEvent.value, e.depth - 1);
      }
    }
  }

  lemma SpansStay(l: Layer, n: Layer, i: nat)
    requires Inv(l) && WellParented(n.spans) && SameShape(l.spans, n.spans) && l.nextEvent <= n.nextEvent
    requires i < |l.spans|
    requires n.spans[i].open ==> l.spans[i].open
    requires l.spans[i].parent.Some? && n.spans[i].open ==> n.spans[l.spans[i].parent.value].open
    ensures SpanOk(n, i)
  {
    assert SpanOk(l, i);
    ShapeDetermines(l.spans, n.spans, l.spans[i].parent);
  }

  lemma LoggedStays(l: Layer, n: Layer)
    requires Inv(l) && SameShape(l.spans, n.spans)
    requires forall s :: 0 <= s < |l.spans| && n.spans[s].open ==> l.spans[s].open
    ensures forall i :: 0 <= i < |l.ledger| ==> ClosedAs(n.spans, l.ledger[i].eventId)
  {
    forall i | 0 <= i < |l.ledger| ensures ClosedAs(n.spans, l.ledger[i].eventId) {
      assert ClosedAs(l.spans, l.ledger[i].eventId);
      var s :| 0 <= s < |l.spans| && !l.spans[s].open && l.spans[s].data.Some?
        && l.spans[s].data.value.eventId == l.ledger[i].eventId;
      assert !n.spans[s].open;
    }
  }

  lemma NewSpanKeeps(l: Layer, name: string, parent: Option<nat>, fields: seq<Field>)
    requires Inv(l) && Allowed(l, NewSpan(name, parent, fields))
    ensures Inv(Do(l, NewSpan(name, parent, fields)))
  {
    var n := Do(l, NewSpan(name, parent, fields));
    EntriesStay(l, n);
    LoggedStays(l, n);
    ShapeDetermines(l.spans, n.spans, parent);
    forall i | 0 <= i < |n.spans| ensures SpanOk(n, i) {
      if i < |l.spans| {
        assert SpanOk(l, i);
        SpansStay(l, n, i);
      }
    }
    forall i, j | 0 <= i < j < |n.spans| && n.spans[i].data.Some? && n.spans[j].data.Some?
      ensures n.spans[i].data.value.eventId < n.spans[j].data.value.eventId
    {
      assert SpanOk(l, i);
    }
  }

  lemma RecordKeeps(l: Layer, id: nat, fields: seq<Field>)
    requires Inv(l) && Allowed(l, Record(id, fields))
    ensures Inv(Do(l, Record(id, fields)))
  {
    var n := Do(l, Record(id, fields));
    EntriesStay(l, n);
    LoggedStays(l, n);
    forall i | 0 <= i < |n.spans| ensures SpanOk(n, i) {
      assert SpanOk(l, i);
      SpansStay(l, n, i);
    }
  }

  lemma SpansAfterClose(l: Layer, id: nat, i: nat)
    requires Inv(l) && Allowed(l, Close(id)) && i < |l.spans|
    ensures SpanOk(Do(l, Close(id)), i)
  {
    hide NearestMapped, CountMapped, EntryOk, ClosedAs;
    assert SpanOk(l, i);
    assert l.spans[i].parent == Some(id) && l.spans[i].open ==> HasOpenChild(l.spans, id);
    SpansStay(l, Do(l, Close(id)), i);
  }

  lemma LogAfterClose(l: Layer, id: nat)
    requires Inv(l) && Allowed(l, Close(id))
    ensures var ledger := Do(l, Close(id)).ledger;
      && (forall i :: 0 <= i < |ledger| ==> ClosedAs(Do(l, Close(id)).spans, ledger[i].eventId))
      && (forall i, j :: 0 <= i < j < |ledger| ==> ledger[i].eventId != ledger[j].eventId)
  {
    hide NearestMapped, CountMapped, SpanOk, EntryOk, HasOpenChild;
    var n := Do(l, Close(id));
    LoggedStays(l, n);
    assert l.spans[id].data.Some? ==> !n.spans[id].open && ClosedAs(n.spans, l.spans[id].data.value.eventId);
  }

  lemma CloseKeeps(l: Layer, id: nat)
    requires Inv(l) && Allowed(l, Close(id))
    ensures Inv(Do(l, Close(id)))
  {
    hide SpanOk, EntryOk, ClosedAs, HasOpenChild;
    var n := Do(l, Close(id));
    LogAfterClose(l, id);
    forall i | 0 <= i < |n.spans| ensures SpanOk(n, i) { SpansAfterClose(l, id, i); }
    forall i | 0 <= i < |n.ledger| ensures EntryOk(n, i) {
      if i < |l.ledger| { OldEntryAfterClose(l, id, i); } else { NewEntry(l, id); }
    }
  }

  /** An entry whose parent just closed now finds it in the ledger. */
  lemma OldEntryAfterClose(l: Layer, id: nat, i: nat)
    requires Inv(l) && Allowed(l, Close(id)) && i < |l.ledger|
    ensures EntryOk(Do(l, Close(id)), i)
  {
    hide Inv, CountMapped, NearestMapped, ClosedAs, HasOpenChild;
    EntryHolds(l, i);
    var n := Do(l, Close(id));
    var e := l.ledger[i];
    if e.parentEvent.Some? {
      if StillOpen(l, e.parentEvent.value, e.depth - 1) {
        var s :| 0 <= s < |l.spans| && OpenAs(l, s, e.parentEvent.value, e.depth - 1);
        if s == id {
          assert n.ledger[|l.ledger|].eventId == e.parentEvent.value && n.ledger[|l.ledger|].depth == e.depth - 1;
        } else {
          ShapeDetermines(l.spans, n.spans, l.spans[s].parent);
          assert OpenAs(n, s, e.parentEvent.value, e.depth - 1);
        }
      } else {
        var j :| i < j < |l.ledger| && l.ledger[j].eventId == e.parentEvent.value && l.ledger[j].depth == e.depth - 1;
        assert n.ledger[j] == l.ledger[j];
      }
    }
  }

  lemma EntryHolds(l: Layer, i: nat)
    requires Inv(l) && i < |l.ledger|
    ensures WellParented(l.spans) && EntryOk(l, i)
  {
  }

  /** The entry just written: its parent is the nearest mapped ancestor, which is still open. */
  lemma NewEntry(l: Layer, id: nat)
    requires Inv(l) && Allowed(l, Close(id)) && l.spans[id].data.Some?
    ensures EntryOk(Do(l, Close(id)), |l.ledger|)
  {
    var n := Do(l, Close(id));
    var parent := l.spans[id].parent;
    assert SpanOk(l, id);
    NearestIsOneUp(l, parent);
    var above := NearestMapped(l.spans, parent);
    if above.Some? {
      var a := above.value;
      ShapeDetermines(l.spans, n.spans, l.spans[a].parent);
      assert OpenAs(n, a, l.spans[a].data.value.eventId, CountMapped(l.spans, parent) - 1);
    }
  }

  predicate AllowedAll(l: Layer, actions: seq<Action>)
    requires WellParented(l.spans)
    decreases |actions|
  {
    actions == [] || (Allowed(l, actions[0]) && WellParented(Do(l, actions[0]).spans)
      && AllowedAll(Do(l, actions[0]), actions[1..]))
  }

  function DoAll(l: Layer, actions: seq<Action>): Layer
    requires WellParented(l.spans) && AllowedAll(l, actions)
    decreases |actions|
  {
    if actions == [] then l else DoAll(Do(l, actions[0]), actions[1..])
  }

  lemma {:induction false} RunKeeps(l: Layer, actions: seq<Action>)
    requires Inv(l) && AllowedAll(l, actions)
    ensures Inv(DoAll(l, actions))
    decreases |actions|
  {
    if actions != [] {
      ActionKeeps(l, actions[0]);
      RunKeeps(Do(l, actions[0]), actions[1..]);
    }
  }

  predicate AllClosed(l: Layer) {
    forall i :: 0 <= i < |l.spans| ==> !l.spans[i].open
  }

  /** `path` climbs parent links from entry to entry, each one later in the ledger than the last. */
  ghost predicate Climb(ledger: seq<Entry>, path: seq<nat>) {
    && (forall k :: 0 <= k < |path| ==> path[k] < |ledger|)
    && (forall k :: 0 <= k < |path| - 1 ==>
          path[k] < path[k + 1] && ledger[path[k]].parentEvent == Some(ledger[path[k + 1]].eventId))
  }

  lemma ParentEntry(l: Layer, i: nat) returns (j: nat)
    requires Inv(l) && AllClosed(l) && i < |l.ledger|
    ensures var e := l.ledger[i];
      if e.depth == 0 then e.parentEvent.None?
      else
        && e.parentEvent.Some? && i < j < |l.ledger|
        && l.ledger[j].eventId == e.parentEvent.value && l.ledger[j].depth == e.depth - 1
  {
    hide Inv, CountMapped;
    EntryHolds(l, i);
    var e := l.ledger[i];
    j := 0;
    if e.depth > 0 {
      j :| i < j < |l.ledger| && l.ledger[j].eventId == e.parentEvent.value && l.ledger[j].depth == e.depth - 1;
    }
  }

  lemma {:induction false} ClimbToRoot(l: Layer, i: nat) returns (path: seq<nat>)
    requires Inv(l) && AllClosed(l) && i < |l.ledger|
    ensures Climb(l.ledger, path) && |path| == l.ledger[i].depth + 1 && path[0] == i
    ensures l.ledger[path[|path| - 1]].parentEvent.None?
    decreases l.ledger[i].depth
  {
    hide Inv, EntryOk, AllClosed;
    var e := l.ledger[i];
    var j := ParentEntry(l, i);
    if e.depth == 0 {
      path := [i];
    } else {
      var rest := ClimbToRoot(l, j);
      path := [i] + rest;
      forall k | 0 <= k < |path| - 1
        ensures path[k] < path[k + 1] && l.ledger[path[k]].parentEvent == Some(l.ledger[path[k + 1]].eventId)
      {
        if k > 0 { assert path[k] == rest[k - 1] && path[k + 1] == rest[k]; }
      }
    }
  }

  predicate Fresh(l: Layer) { l.spans == [] && l.ledger == [] }

  /**
   Over every run that ends with all spans closed: exactly `depth` parent links lead from any entry to
   a root, always forward in the ledger.
   */
  lemma LedgerIsAForest(l: Layer, actions: seq<Action>, i: nat) returns (path: seq<nat>)
    requires Fresh(l) && AllowedAll(l, actions) && AllClosed(DoAll(l, actions)) && i < |DoAll(l, actions).ledger|
    ensures var ledger := DoAll(l, actions).ledger;
      && Climb(ledger, path) && |path| == ledger[i].depth + 1 && path[0] == i
      && ledger[path[|path| - 1]].parentEvent.None?
    ensures var ledger := DoAll(l, actions).ledger;
      forall j, k :: 0 <= j < k < |ledger| ==> ledger[j].eventId != ledger[k].eventId
  {
    RunKeeps(l, actions);
    path := ClimbToRoot(DoAll(l, actions), i);
  }

  // ----- What an entry says -----

  lemma {:induction false} VisitedAppend(outcome: SpanOutcome, a: seq<Field>, b: seq<Field>)
    ensures Visited(outcome, a + b) == Visited(Visited(outcome, a), b)
    decreases |b|
  {
    if b == [] {
      assert a + b == a;
    } else {
      var n := |b| - 1;
      assert (a + b)[..|a + b| - 1] == a + b[..n] && (a + b)[|a + b| - 1] == b[n];
      VisitedAppend(outcome, a, b[..n]);
    }
  }

  /** The fields recorded on a span, in order. */
  function FieldsFor(actions: seq<Action>, id: nat): seq<Field> {
    if actions == [] then []
    else
      (if actions[0].Record? && actions[0].id == id then actions[0].fields else []) + FieldsFor(actions[1..], id)
  }

  /** The entry that closing a mapped span leaves. */
  function EntryFor(spans: seq<Span>, s: nat): Entry
    requires WellParented(spans) && s < |spans| && spans[s].data.Some?
  {
    var d := spans[s].data.value;
    Entry(d.eventId, d.kind, d.outcome, CountMapped(spans, spans[s].parent), d.parentEvent)
  }

  /** An action on other spans leaves a span alone; a record on it updates its outcome. */
  lemma OneSpan(l: Layer, a: Action, s: nat)
    requires Inv(l) && Allowed(l, a) && s < |l.spans| && l.spans[s].data.Some? && a != Close(s)
    ensures var n := Do(l, a);
      && WellParented(n.spans) && s < |n.spans| && n.spans[s].data.Some? && n.spans[s].open == l.spans[s].open
      && EntryFor(n.spans, s) ==
         EntryFor(l.spans, s).(outcome := Visited(l.spans[s].data.value.outcome, FieldsFor([a], s)))
  {
    hide CountMapped, NearestMapped, SpanOk, EntryOk, ClosedAs, HasOpenChild;
    var n := Do(l, a);
    var none: seq<Field> := [];
    assert [a][1..] == [] && FieldsFor([a][1..], s) == [];
    assert FieldsFor([a], s) == if a.Record? && a.id == s then a.fields else none by {
      if a.Record? { assert a.fields + none == a.fields; }
    }
    ShapeDetermines(l.spans, n.spans, l.spans[s].parent);
  }

  lemma {:induction false} SpanStory(l: Layer, actions: seq<Action>, s: nat)
    requires Inv(l) && AllowedAll(l, actions) && s < |l.spans| && l.spans[s].data.Some? && Close(s) !in actions
    ensures var n := DoAll(l, actions);
      && Inv(n) && s < |n.spans| && n.spans[s].data.Some? && n.spans[s].open == l.spans[s].open
      && EntryFor(n.spans, s) ==
         EntryFor(l.spans, s).(outcome := Visited(l.spans[s].data.value.outcome, FieldsFor(actions, s)))
    decreases |actions|
  {
    hide Inv, Do, CountMapped, Visited;
    if actions == [] {
      NothingVisited(l.spans[s].data.value.outcome);
      InvParts(l);
    } else {
      var a := actions[0];
      InvParts(l);
      OneSpan(l, a, s);
      ActionKeeps(l, a);
      SpanStory(Do(l, a), actions[1..], s);
      VisitedAppend(l.spans[s].data.value.outcome, FieldsFor([a], s), FieldsFor(actions[1..], s));
      FirstFields(actions, s);
    }
  }

  lemma FirstFields(actions: seq<Action>, s: nat)
    requires actions != []
    ensures FieldsFor(actions, s) == FieldsFor([actions[0]], s) + FieldsFor(actions[1..], s)
  {
    var one := [actions[0]];
    var none: seq<Field> := [];
    assert one[1..] == [] && FieldsFor(one[1..], s) == none;
    assert forall f: seq<Field> :: f + none == f;
  }

  lemma NothingVisited(outcome: SpanOutcome)
    ensures Visited(outcome, []) == outcome
  {
  }

  lemma InvParts(l: Layer)
    requires Inv(l)
    ensures WellParented(l.spans)
  {
  }

  lemma ActionKeeps(l: Layer, a: Action)
    requires Inv(l) && Allowed(l, a)
    ensures Inv(Do(l, a))
  {
    match a {
      case NewSpan(name, parent, fields) => NewSpanKeeps(l, name, parent, fields);
      case Record(id, fields) => RecordKeeps(l, id, fields);
      case Close(id) => CloseKeeps(l, id);
    }
  }

  lemma {:induction false} LedgerGrows(l: Layer, actions: seq<Action>)
    requires Inv(l) && AllowedAll(l, actions)
    ensures l.ledger <= DoAll(l, actions).ledger
    decreases |actions|
  {
    hide Inv;
    if actions != [] {
      InvParts(l);
      ActionKeeps(l, actions[0]);
      LedgerGrows(Do(l, actions[0]), actions[1..]);
    }
  }

  /**
   A span of a mapped name is open from its creation, and whatever happens until it closes and afterwards,
   closing it leaves an entry of its kind, with the outcome that its fields at creation and all it has
   recorded since amount to, at the depth of the mapped spans it was created beneath.
   */
  lemma LoggedAsItWent(
    l: Layer, name: string, parent: Option<nat>, fields: seq<Field>, middle: seq<Action>, after: seq<Action>)
    requires Inv(l) && Allowed(l, NewSpan(name, parent, fields)) && KindForSpanName(name).Some?
    ensures Inv(Do(l, NewSpan(name, parent, fields)))
    ensures Allowed(Do(l, NewSpan(name, parent, fields)), Close(|l.spans|))
    ensures var s, born := |l.spans|, Do(l, NewSpan(name, parent, fields));
      AllowedAll(born, middle) && Close(s) !in middle ==>
        var m := DoAll(born, middle);
        WellParented(m.spans) && Allowed(m, Close(s)) && AllowedAll(Do(m, Close(s)), after) ==>
          var above := NearestMapped(l.spans, parent);
          Entry(l.nextEvent, KindForSpanName(name).value, Visited(Succeeded, fields + FieldsFor(middle, s)),
                CountMapped(l.spans, parent),
                if above.Some? then Some(l.spans[above.value].data.value.eventId) else None)
          in DoAll(Do(m, Close(s)), after).ledger
  {
    hide Inv, CountMapped, NearestMapped, Visited, KindForSpanName;
    var a, s := NewSpan(name, parent, fields), |l.spans|;
    InvParts(l);
    ActionKeeps(l, a);
    var born := Do(l, a);
    BornOpen(l, name, parent, fields);
    if AllowedAll(born, middle) && Close(s) !in middle {
      SpanStory(born, middle, s);
      var m := DoAll(born, middle);
      InvParts(m);
      if Allowed(m, Close(s)) && AllowedAll(Do(m, Close(s)), after) {
        ActionKeeps(m, Close(s));
        LedgerGrows(Do(m, Close(s)), after);
        VisitedAppend(Succeeded, fields, FieldsFor(middle, s));
        assert Do(m, Close(s)).ledger[|m.ledger|] == EntryFor(m.spans, s);
      }
    }
  }

  lemma BornOpen(l: Layer, name: string, parent: Option<nat>, fields: seq<Field>)
    requires Inv(l) && Allowed(l, NewSpan(name, parent, fields)) && KindForSpanName(name).Some?
    ensures var n, s := Do(l, NewSpan(name, parent, fields)), |l.spans|;
      var above := NearestMapped(l.spans, parent);
      && WellParented(n.spans) && |n.spans| == s + 1 && Allowed(n, Close(s)) && n.spans[s].data.Some?
      && EntryFor(n.spans, s) ==
         Entry(l.nextEvent, KindForSpanName(name).value, Visited(Succeeded, fields), CountMapped(l.spans, parent),
               if above.Some? then Some(l.spans[above.value].data.value.eventId) else None)
  {
    hide Visited, KindForSpanName, SpanOk, EntryOk, ClosedAs;
    var n := Do(l, NewSpan(name, parent, fields));
    ShapeDetermines(l.spans, n.spans, parent);
  }

  // ----- The layer as it runs -----

  class DiagnosticsLayer {
    var spans: seq<Span>
    var ledger: seq<Entry>
    var nextEvent: nat

    constructor ()
      ensures State() == Layer([], [], 0)
    {
      spans, ledger, nextEvent := [], [], 0;
    }

    function State(): Layer
      reads this
    {
      Layer(spans, ledger, nextEvent)
    }

    /** The id to report as parent: climb until an ancestor carries data. */
    method ParentEvent(parent: Option<nat>) returns (event: Option<nat>)
      requires WellParented(spans) && (parent.Some? ==> parent.value < |spans|)
      ensures var above := NearestMapped(spans, parent);
        event == if above.Some? then Some(spans[above.value].data.value.eventId) else None
    {
      var p: Option<nat> := parent;
      while p.Some? && spans[p.value].data.None?
        invariant p.Some? ==> p.value < |spans|
        invariant NearestMapped(spans, p) == NearestMapped(spans, parent)
        decreases if p.Some? then p.value + 1 else 0
      {
        p := spans[p.value].parent;
      }
      assert p.Some? ==> NearestMapped(spans, parent) == p;
      event := if p.Some? then Some(spans[p.value].data.value.eventId) else None;
    }

    method DepthBelow(parent: Option<nat>) returns (depth: nat)
      requires WellParented(spans) && (parent.Some? ==> parent.value < |spans|)
      ensures depth == CountMapped(spans, parent)
    {
      var p: Option<nat> := parent;
      depth := 0;
      while p.Some?
        invariant p.Some? ==> p.value < |spans|
        invariant depth + CountMapped(spans, p) == CountMapped(spans, parent)
        decreases if p.Some? then p.value + 1 else 0
      {
        if spans[p.value].data.Some? { depth := depth + 1; }
        p := spans[p.value].parent;
      }
    }

    method VisitFields(before: SpanOutcome, fields: seq<Field>) returns (outcome: SpanOutcome)
      ensures outcome == Visited(before, fields)
    {
      outcome := before;
      var i := 0;
      while i < |fields|
        invariant i <= |fields| && outcome == Visited(before, fields[..i])
      {
        assert fields[..i + 1][..i] == fields[..i];
        if fields[i].name == "outcome" {
          var named := OutcomeNamed(fields[i].text);
          if named.Some? { outcome := named.value; }
        }
        i := i + 1;
      }
      assert fields[..i] == fields;
    }

    method OnNewSpan(name: string, parent: Option<nat>, fields: seq<Field>)
      requires WellParented(spans) && Allowed(State(), NewSpan(name, parent, fields))
      modifies this
      ensures State() == Do(old(State()), NewSpan(name, parent, fields))
    {
      var kind := KindForSpanName(name);
      if kind.None? {
        spans := spans + [Span(parent, None, true)];
        return;
      }
      var above := ParentEvent(parent);
      var outcome := VisitFields(Succeeded, fields);
      spans := spans + [Span(parent, Some(SpanData(nextEvent, kind.value, outcome, above)), true)];
      nextEvent := nextEvent + 1;
    }

    method OnRecord(id: nat, fields: seq<Field>)
      requires WellParented(spans) && Allowed(State(), Record(id, fields))
      modifies this`spans
      ensures State() == Do(old(State()), Record(id, fields))
    {
      var s := spans[id];
      if s.data.None? { return; }
      var outcome := VisitFields(s.data.value.outcome, fields);
      spans := spans[id := s.(data := Some(s.data.value.(outcome := outcome)))];
    }

    method OnClose(id: nat)
      requires WellParented(spans) && Allowed(State(), Close(id))
      modifies this`spans, this`ledger
      ensures State() == Do(old(State()), Close(id))
    {
      var s := spans[id];
      if s.data.Some? {
        var depth := DepthBelow(s.parent);
        var d := s.data.value;
        ledger := ledger + [Entry(d.eventId, d.kind, d.outcome, depth, d.parentEvent)];
      }
      spans := spans[id := s.(open := false)];
    }
  }
}
