/** A message on its way to the client: parsed anew as its text arrives, given ids, sent as deltas and put together again. */
module ChatStream {
  import opened Words
  import opened Json
  import opened Streaming
  import opened Mapper
  import opened MapperRuns
  import PyJson
  import PyJsonStream

  // ---------- what grows ----------

  /** All calls but the last stay as they are; the last may get longer, and more may follow. Identifiers are another matter. */
  predicate CallsGrow(a: seq<ToolCall>, b: seq<ToolCall>) {
    && |a| <= |b|
    && forall i :: 0 <= i < |a| ==>
         if i < |a| - 1 then a[i].name == b[i].name && a[i].arguments == b[i].arguments
         else a[i].name <= b[i].name && a[i].arguments <= b[i].arguments
  }

  predicate Growing(s: State, t: State) {
    s.reasoning <= t.reasoning && s.content <= t.content && CallsGrow(s.calls, t.calls)
  }

  /** What the parser hands out in a state. */
  function MessageOf(st: State): Message {
    var r := Finish(st);
    Message(r.reasoning, r.content, r.calls)
  }

  lemma {:induction false} GrowingTransitive(r: State, s: State, t: State)
    requires Growing(r, s) && Growing(s, t)
    ensures Growing(r, t)
  {
  }

  lemma {:induction false} GrowingShown(s: State, t: State)
    requires Growing(s, t) && Flush(s) == s && Flush(t) == t
    ensures GrowsUpToIds(MessageOf(s), MessageOf(t))
  {
    hide Flush;
    if !AllBlank(s.reasoning) {
      var i :| 0 <= i < |s.reasoning| && s.reasoning[i] !in {' ', '\n', '\r', '\t'};
      assert t.reasoning[i] == s.reasoning[i];
    }
    hide AllBlank;
    hide CallsGrow;
    SameCallsGrow(MessageOf(s), MessageOf(t));
  }

  lemma {:induction false} SameCallsGrow(a: Message, b: Message)
    requires CallsGrow(a.toolCalls, b.toolCalls) && a.reasoning <= b.reasoning && a.content <= b.content
    ensures GrowsUpToIds(a, b)
  {
  }

  // ---------- an event of which only the beginning has arrived ----------

  function Cut(e: Event, k: nat): Event
    requires k <= |e.text|
  {
    e.(text := e.text[..k])
  }

  /** Names arrive whole; so does a value that would take back what it wrote. */
  predicate Cuttable(e: Event) {
    || e.tag in {ReasoningTag, ContentTag, ToolArgs, ToolId, ArgStringValue}
    || (e.tag == ArgValue && PyJsonStream.Steady(e.text, false, PyJson.Outside))
  }

  /** The first `k` characters of the event can have arrived in state `st`: of a string that has begun, not none. */
  predicate Arrived(st: State, e: Event, k: nat) {
    && k <= |e.text|
    && (k == |e.text| || (Cuttable(e) && (e.tag == ArgStringValue && st.quotePending ==> k > 0)))
  }

  /** However much of the event has arrived, the message has grown, and it grows on as more arrives. */
  ghost predicate StepGrows(st: State, e: Event)
    requires StateValid(st)
  {
    forall k: nat, m: nat :: k <= m && Arrived(st, e, k) && Arrived(st, e, m) ==>
      Growing(st, Step(st, Cut(e, k))) && Growing(Step(st, Cut(e, k)), Step(st, Cut(e, m)))
  }

  ghost predicate GrowsAlong(st: State, events: seq<Event>)
    requires StateValid(st)
    decreases |events|
  {
    events != [] ==>
      StepGrows(st, events[0]) && StateValid(Step(st, events[0])) && GrowsAlong(Step(st, events[0]), events[1..])
  }

  lemma {:induction false} AlongConcat(st: State, a: seq<Event>, b: seq<Event>)
    requires StateValid(st) && GrowsAlong(st, a) && GrowsAlong(RunEvents(st, a), b)
    ensures GrowsAlong(st, a + b)
    decreases |a|
  {
    hide Step, StateValid, StepGrows;
    if a == [] {
      assert a + b == b;
    } else {
      assert (a + b)[1..] == a[1..] + b;
      AlongConcat(Step(st, a[0]), a[1..], b);
    }
  }

  lemma {:induction false} AlongOne(st: State, e: Event)
    requires StateValid(st) && StepGrows(st, e)
    ensures GrowsAlong(st, [e])
  {
    hide Step, StateValid, StepGrows;
    StepKeepsValid(st, e);
    assert [e][1..] == [];
  }

  // ---------- inside a call ----------

  lemma {:induction false} TrimmedGrows(text: string, k: nat, m: nat)
    requires k <= m <= |text|
    ensures TrimTrailing(text[..k]) <= TrimTrailing(text[..m])
  {
    TrimTrailingIs(text[..k]);
    TrimTrailingIs(text[..m]);
    hide TrimTrailing;
    var a, b := TrimTrailing(text[..k]), TrimTrailing(text[..m]);
    if a != [] {
      assert text[..m][|a| - 1] == text[..k][|a| - 1] == a[|a| - 1];
    }
    assert a == text[..|a|] && b == text[..|b|];
  }

  /** Two cuts of a text: the shorter and what has arrived since. */
  lemma {:induction false} CutTwice(text: string, k: nat, m: nat)
    requires k <= m <= |text|
    ensures text[..m] == text[..k] + text[k..m]
  {
  }

  lemma {:induction false} StringGrows(text: string, k: nat, m: nat, quote: bool)
    requires k <= m <= |text| && (quote ==> k > 0 || m == 0)
    ensures ValueText(text[..k], true, quote).0 <= ValueText(text[..m], true, quote).0
  {
    CutTwice(text, k, m);
    EscapeConcat(text[..k], text[k..m]);
    hide Escape;
    var open := if quote then "" else "\"";
    if k > 0 {
      assert open + Escape(text[..m]) == (open + Escape(text[..k])) + Escape(text[k..m]);
    }
  }

  lemma {:induction false} ValueGrows(text: string, k: nat, m: nat, quote: bool)
    requires k <= m <= |text| && (k == m || PyJsonStream.Steady(text, false, PyJson.Outside))
    ensures ValueText(text[..k], false, quote).0 <= ValueText(text[..m], false, quote).0
  {
    hide PyJson.Translate, PyJsonStream.Steady, PyJsonStream.StopOf, PyJsonStream.GoesOn;
    if k < m {
      CutTwice(text, k, m);
      PyJsonStream.SteadyGrows(text, k, m);
    }
    PyJson.TranslateNothing(false, PyJson.Outside);
  }

  lemma {:induction false} SamePrefix(w: string, a: string, b: string)
    requires a <= b
    ensures w + a <= w + b
  {
    PyJsonStream.SamePrefix(w, a, b);
  }

  /** The arguments shown grow with each character of the event. */
  lemma {:induction false} ShownGrowsWithin(w: Writer, st: State, e: Event, k: nat, m: nat)
    requires Writes(w, e) && k <= m && Arrived(st, e, k) && Arrived(st, e, m) && st.quotePending == w.quote
    ensures Writes(w, Cut(e, k)) && Writes(w, Cut(e, m))
    ensures Shown(w.text) <= Shown(Write(w, Cut(e, k)).text) <= Shown(Write(w, Cut(e, m)).text)
  {
    hide Escape, Dump, TrimName, TrimTrailing, Unquoted, PyJsonStream.Steady, ValueText;
    WriteGrows(w, Cut(e, k));
    if k == m {
    } else if e.tag == ArgStringValue {
      StringGrows(e.text, k, m, w.quote);
      SamePrefix(w.text, ValueText(e.text[..k], true, w.quote).0, ValueText(e.text[..m], true, w.quote).0);
    } else if e.tag == ArgValue {
      ValueGrows(e.text, k, m, w.quote);
      SamePrefix(w.text, ValueText(e.text[..k], false, w.quote).0, ValueText(e.text[..m], false, w.quote).0);
    } else if e.tag == ToolArgs {
      TrimmedGrows(e.text, k, m);
      TrimmedOpens(e.text[..k]);
      TrimmedOpens(e.text[..m]);
    }
  }

  lemma {:induction false} TextsGrow(st: State, e: Event, k: nat, m: nat)
    requires StateValid(st) && k <= m <= |e.text|
    ensures var s, t := Step(st, Cut(e, k)), Step(st, Cut(e, m));
            st.reasoning <= s.reasoning <= t.reasoning && st.content <= s.content <= t.content
  {
    StepTexts(st, Cut(e, k));
    StepTexts(st, Cut(e, m));
    hide Step, StateValid;
    CutTwice(e.text, k, m);
    SamePrefix(st.reasoning, e.text[..k], e.text[..m]);
    SamePrefix(st.content, e.text[..k], e.text[..m]);
  }

  lemma {:induction false} LastGrows(calls: seq<ToolCall>, a: ToolCall, b: ToolCall)
    requires a.name <= b.name && a.arguments <= b.arguments
    ensures CallsGrow(calls + [a], calls + [b])
  {
  }

  lemma {:induction false} InsideGrows(st: State, before: State, name: Option<string>, w: Writer, e: Event)
    requires StateValid(st) && Inside(st, before, name, w) && Writes(w, e)
    ensures StepGrows(st, e)
  {
    hide Step, StateValid, Write, Writes, Arrived, CallsGrow, Shown;
    assert st.quotePending == w.quote;
    forall k: nat, m: nat | k <= m && Arrived(st, e, k) && Arrived(st, e, m)
      ensures k <= m <= |e.text| && Growing(st, Step(st, Cut(e, k))) && Growing(Step(st, Cut(e, k)), Step(st, Cut(e, m)))
    {
      ArrivedWithin(st, e, m);
      ShownGrowsWithin(w, st, e, k, m);
      TextsGrow(st, e, k, m);
      StepInside(st, before, name, w, Cut(e, k));
      StepInside(st, before, name, w, Cut(e, m));
      InsideCalls(st, Step(st, Cut(e, k)), before, name, w, Write(w, Cut(e, k)));
      InsideCalls(Step(st, Cut(e, k)), Step(st, Cut(e, m)), before, name, Write(w, Cut(e, k)), Write(w, Cut(e, m)));
    }
  }

  lemma {:induction false} ArrivedWithin(st: State, e: Event, k: nat)
    requires Arrived(st, e, k)
    ensures k <= |e.text|
  {
  }

  lemma {:induction false} InsideCalls(s: State, t: State, before: State, name: Option<string>, w: Writer, v: Writer)
    requires Inside(s, before, name, w) && Inside(t, before, name, v) && Shown(w.text) <= Shown(v.text)
    ensures CallsGrow(s.calls, t.calls)
  {
    hide Shown;
    if name.Some? {
      LastGrows(before.calls, ToolCall(name.value, Shown(w.text), w.id), ToolCall(name.value, Shown(v.text), v.id));
    }
  }

  lemma {:induction false} AlongInside(st: State, before: State, name: Option<string>, w: Writer, events: seq<Event>)
    requires StateValid(st) && Inside(st, before, name, w) && WritesAll(w, events)
    ensures GrowsAlong(st, events)
    decreases |events|
  {
    hide Step, StateValid, Inside, Write, Writes, StepGrows;
    if events != [] {
      InsideGrows(st, before, name, w, events[0]);
      StepInside(st, before, name, w, events[0]);
      StepKeepsValid(st, events[0]);
      AlongInside(Step(st, events[0]), before, name, Write(w, events[0]), events[1..]);
    }
  }

  // ---------- the events around it ----------

  /** An event that is not cut grows the message when it does so as a whole. */
  lemma {:induction false} WholeStepGrows(st: State, e: Event)
    requires StateValid(st) && !Cuttable(e) && Growing(st, Step(st, e))
    ensures StepGrows(st, e)
  {
    hide Step, StateValid, Cuttable, CallsGrow;
    assert e.text[..|e.text|] == e.text && Cut(e, |e.text|) == e;
    SameGrows(Step(st, e).calls);
  }

  lemma {:induction false} SameGrows(calls: seq<ToolCall>)
    ensures CallsGrow(calls, calls)
  {
  }

  lemma {:induction false} OpenGrows(st: State)
    requires StateValid(st)
    ensures StepGrows(st, Event(ToolOpen, ""))
  {
    OpenInside(st);
    StepTexts(st, Event(ToolOpen, ""));
    SameGrows(st.calls);
    hide Step, StateValid, CallsGrow;
    WholeStepGrows(st, Event(ToolOpen, ""));
  }

  lemma {:induction false} NameGrows(st: State, before: State, w: Writer, nameText: string)
    requires StateValid(st) && Inside(st, before, None, w) && TrimTrailing(nameText) != ""
    ensures StepGrows(st, Event(ToolName, nameText))
  {
    var e := Event(ToolName, nameText);
    NameInside(st, before, w, nameText);
    StepTexts(st, e);
    hide Step, StateValid, TrimTrailing;
    assert CallsGrow(st.calls, Step(st, e).calls);
    WholeStepGrows(st, e);
  }

  lemma {:induction false} CloseGrows(st: State, before: State, name: string, w: Writer)
    requires StateValid(st) && Inside(st, before, Some(name), w)
    ensures StepGrows(st, Event(ToolClose, ""))
  {
    var e := Event(ToolClose, "");
    CloseInside(st, before, name, w);
    StepTexts(st, e);
    var quoted := Shown(w.text) + (if w.quote then "\"" else "");
    ClosedLonger(quoted);
    hide Step, StateValid, Closed, Shown, CallsGrow;
    LastGrows(before.calls, ToolCall(name, Shown(w.text), w.id), FinalCall(name, w));
    WholeStepGrows(st, e);
  }

  lemma {:induction false} EnclosedGrows(st: State, before: seq<Event>, nameText: string, after: seq<Event>)
    requires StateValid(st) && WritesAll(BLANK, before + after) && TrimTrailing(nameText) != ""
    ensures GrowsAlong(st, Enclosed(before, nameText, after))
  {
    hide Step, StateValid, Inside, TrimTrailing, StepGrows, GrowsAlong, WriteAll, WritesAll, RunEvents;
    var open, name, close := [Event(ToolOpen, "")], [Event(ToolName, nameText)], [Event(ToolClose, "")];
    WriteConcat(BLANK, before, after);
    var w := WriteAll(BLANK, before);
    OpenGrows(st);
    AlongOne(st, open[0]);
    OpenInside(st);
    RunOne(st, open[0]);
    AlongInside(RunEvents(st, open), st, None, BLANK, before);
    AlongConcat(st, open, before);
    UpToName(st, before);
    var st1 := RunEvents(st, open + before);
    RunConcat(st, open, before);
    NameGrows(st1, st, w, nameText);
    AlongOne(st1, name[0]);
    AlongConcat(st, open + before, name);
    NameInside(st1, st, w, nameText);
    RunOne(st1, name[0]);
    RunConcat(st, open + before, name);
    AlongInside(RunEvents(st1, name), st, Some(TrimTrailing(nameText)), w, after);
    AlongConcat(st, open + before + name, after);
    FromName(st, before, nameText, after);
    var st2 := RunEvents(st, open + before + name + after);
    CloseGrows(st2, st, TrimTrailing(nameText), WriteAll(BLANK, before + after));
    AlongOne(st2, close[0]);
    AlongConcat(st, open + before + name + after, close);
  }

  lemma {:induction false} PlainTextGrows(st: State, e: Event)
    requires StateValid(st) && e.tag in {ReasoningTag, ContentTag}
    ensures StepGrows(st, e)
  {
    forall k: nat, m: nat | k <= m && Arrived(st, e, k) && Arrived(st, e, m)
      ensures k <= m <= |e.text| && Growing(st, Step(st, Cut(e, k))) && Growing(Step(st, Cut(e, k)), Step(st, Cut(e, m)))
    {
      TextsGrow(st, e, k, m);
      SameGrows(st.calls);
      hide StepCall, CallsGrow;
    }
  }

  lemma {:induction false} PartGrows(st: State, p: Part)
    requires StateValid(st) && PartFormed(p)
    ensures GrowsAlong(st, PartEvents(p))
  {
    hide Step, StateValid, StepGrows, GrowsAlong, WritesAll, WriteAll, TrimTrailing, InnerEvents, BodyFormed;
    match p
    case Thought(text) =>
      PlainTextGrows(st, Event(ReasoningTag, text));
      AlongOne(st, Event(ReasoningTag, text));
    case Spoken(text) =>
      PlainTextGrows(st, Event(ContentTag, text));
      AlongOne(st, Event(ContentTag, text));
    case Called(c) =>
      WriteInner(c);
      var inner, n := InnerEvents(c), c.eventsBeforeName;
      assert inner[..n] + inner[n..] == inner;
      EnclosedGrows(st, inner[..n], c.nameText, inner[n..]);
  }

  lemma {:induction false} PartsGrow(st: State, parts: seq<Part>)
    requires StateValid(st) && PartsFormed(parts)
    ensures GrowsAlong(st, PartsEvents(parts))
    decreases |parts|
  {
    hide Step, StateValid, StepGrows, PartEvents, PartFormed;
    if parts != [] {
      var p, rest := parts[0], parts[1..];
      assert PartFormed(p);
      PartGrows(st, p);
      PartsGrow(RunEvents(st, PartEvents(p)), rest);
      assert PartsEvents(parts) == PartEvents(p) + PartsEvents(rest);
      AlongConcat(st, PartEvents(p), PartsEvents(rest));
    }
  }

  // ---------- snapshots of a message ----------

  /** What a fresh mapper makes of the events. */
  function Parsed(events: seq<Event>): (st: State)
    ensures StateValid(st)
  {
    RunEvents(INITIAL, events)
  }

  /** So many events have arrived whole, and so many characters of the next one. */
  datatype Moment = Moment(events: nat, chars: nat)

  predicate Happens(events: seq<Event>, at: Moment) {
    at.events < |events| && Arrived(Parsed(events[..at.events]), events[at.events], at.chars)
  }

  predicate NotAfter(a: Moment, b: Moment) { a.events < b.events || (a.events == b.events && a.chars <= b.chars) }

  function EventsAt(events: seq<Event>, at: Moment): seq<Event>
    requires at.events < |events| && at.chars <= |events[at.events].text|
  {
    events[..at.events] + [Cut(events[at.events], at.chars)]
  }

  function Snapshot(events: seq<Event>, at: Moment): Message
    requires Happens(events, at)
  {
    MessageOf(Parsed(EventsAt(events, at)))
  }

  lemma {:induction false} StateAt(st: State, events: seq<Event>, at: Moment)
    requires StateValid(st) && at.events < |events| && at.chars <= |events[at.events].text|
    ensures RunEvents(st, EventsAt(events, at)) == Step(RunEvents(st, events[..at.events]), Cut(events[at.events], at.chars))
  {
    hide Step, StateValid;
    RunConcat(st, events[..at.events], [Cut(events[at.events], at.chars)]);
    RunOne(RunEvents(st, events[..at.events]), Cut(events[at.events], at.chars));
  }

  lemma {:induction false} GrowsAt(st: State, events: seq<Event>, j: nat)
    requires StateValid(st) && GrowsAlong(st, events) && j < |events|
    ensures StepGrows(RunEvents(st, events[..j]), events[j])
    decreases j
  {
    hide Step, StateValid, StepGrows;
    if j == 0 {
      assert events[..0] == [];
    } else {
      assert events[..j][1..] == events[1..][..j - 1] && events[..j][0] == events[0];
      GrowsAt(Step(st, events[0]), events[1..], j - 1);
    }
  }

  lemma {:induction false} WholeEvents(st: State, events: seq<Event>, j: nat)
    requires StateValid(st) && GrowsAlong(st, events) && j < |events|
    ensures var e := events[j];
            Arrived(RunEvents(st, events[..j]), e, |e.text|) && Step(RunEvents(st, events[..j]), Cut(e, |e.text|)) == RunEvents(st, events[..j + 1])
    ensures Growing(RunEvents(st, events[..j]), RunEvents(st, events[..j + 1]))
  {
    hide Step, StateValid, RunEvents, CallsGrow, Growing, GrowsAlong, Cuttable;
    var e := events[j];
    assert e.text[..|e.text|] == e.text && Cut(e, |e.text|) == e;
    assert events[..j + 1] == EventsAt(events, Moment(j, |e.text|));
    StateAt(st, events, Moment(j, |e.text|));
    GrowsAt(st, events, j);
  }

  lemma {:induction false} GrowsBetween(st: State, events: seq<Event>, i: nat, j: nat)
    requires StateValid(st) && GrowsAlong(st, events) && i <= j <= |events|
    ensures Growing(RunEvents(st, events[..i]), RunEvents(st, events[..j]))
    decreases j - i
  {
    hide Step, StateValid, RunEvents, CallsGrow, GrowsAlong;
    if i == j {
      SameGrows(RunEvents(st, events[..i]).calls);
    } else {
      GrowsBetween(st, events, i, j - 1);
      WholeEvents(st, events, j - 1);
      GrowingTransitive(RunEvents(st, events[..i]), RunEvents(st, events[..j - 1]), RunEvents(st, events[..j]));
    }
  }

  /** Any two moments, in the middle of an event or not: the later snapshot has grown from the earlier one. */
  lemma {:induction false} SnapshotsGrow(events: seq<Event>, a: Moment, b: Moment)
    requires StateValid(INITIAL) && GrowsAlong(INITIAL, events)
    requires Happens(events, a) && Happens(events, b) && NotAfter(a, b)
    ensures GrowsUpToIds(Snapshot(events, a), Snapshot(events, b))
  {
    hide Step, StateValid, RunEvents, CallsGrow, GrowsAlong, GrowsUpToIds, MessageOf, Flush, Growing;
    var s, t := Parsed(events[..a.events]), Parsed(events[..b.events]);
    var e, f := events[a.events], events[b.events];
    var sa, tb := Step(s, Cut(e, a.chars)), Step(t, Cut(f, b.chars));
    StateAt(INITIAL, events, a);
    StateAt(INITIAL, events, b);
    GrowsAt(INITIAL, events, a.events);
    GrowsAt(INITIAL, events, b.events);
    if a.events < b.events {
      WholeEvents(INITIAL, events, a.events);
      var s' := RunEvents(INITIAL, events[..a.events + 1]);
      GrowsBetween(INITIAL, events, a.events + 1, b.events);
      GrowingTransitive(sa, s', t);
      GrowingTransitive(sa, t, tb);
    }
    FlushNeverFires(INITIAL, EventsAt(events, a));
    FlushNeverFires(INITIAL, EventsAt(events, b));
    GrowingShown(sa, tb);
  }

  // ---------- from the parser to the client ----------

  const EMPTY: Message := Message("", "", [])

  predicate InTurn(events: seq<Event>, moments: seq<Moment>) {
    && (forall i :: 0 <= i < |moments| ==> Happens(events, moments[i]))
    && (forall i :: 0 < i < |moments| ==> NotAfter(moments[i - 1], moments[i]))
  }

  /** What the parser hands out at each moment, after the empty message it starts from. */
  function Snapshots(events: seq<Event>, moments: seq<Moment>): seq<Message>
    requires InTurn(events, moments)
  {
    [EMPTY] + seq(|moments|, i requires 0 <= i < |moments| => Snapshot(events, moments[i]))
  }

  lemma {:induction false} EachGrows(events: seq<Event>, moments: seq<Moment>, j: nat)
    requires StateValid(INITIAL) && GrowsAlong(INITIAL, events) && InTurn(events, moments) && 0 < j <= |moments|
    ensures GrowsUpToIds(Snapshots(events, moments)[j - 1], Snapshots(events, moments)[j])
  {
    hide StateValid, GrowsAlong, GrowsUpToIds, Snapshot, Happens;
    if j == 1 {
      EmptyGrows(Snapshots(events, moments)[1]);
    } else {
      assert NotAfter(moments[j - 2], moments[j - 1]);
      SnapshotsGrow(events, moments[j - 2], moments[j - 1]);
    }
  }

  /**
   * A message of any parts, looked at as often as one likes while it arrives, in the
   * middle of a text or an argument: no delta throws, and a client that starts with
   * nothing and folds the deltas ends with what was parsed last.
   */
  lemma {:induction false} MessageReachesClient(parts: seq<Part>, moments: seq<Moment>, generate: nat -> string)
    requires PartsFormed(parts) && InTurn(PartsEvents(parts), moments)
    ensures var sent := Stamped(Snapshots(PartsEvents(parts), moments), [], generate, 0);
            |sent| == |moments| + 1 && sent[0] == EMPTY && Replay(EMPTY, sent) == Some(sent[|moments|])
  {
    var events := PartsEvents(parts);
    assert StateValid(INITIAL);
    PartsGrow(INITIAL, parts);
    hide StateValid, PartsEvents, PartFormed, InTurn, Stamped, GrowsUpToIds, Replay, Snapshot, GrowsAlong;
    var messages := Snapshots(events, moments);
    forall j | 0 < j < |messages| ensures GrowsUpToIds(messages[j - 1], messages[j]) {
      EachGrows(events, moments, j);
    }
    StampedStreamReconstruction(messages, [], generate, 0);
    StampedEmpty(messages, generate);
  }

  lemma {:induction false} EmptyGrows(m: Message)
    ensures GrowsUpToIds(EMPTY, m)
  {
  }

  /** The server passes over a message that is still empty; there would be nothing to send. */
  lemma {:induction false} EmptyIsPassedOver(held: Message)
    requires GrowsUpToIds(held, EMPTY)
    ensures held == EMPTY && Diffs(held, EMPTY) == Done([])
  {
    assert held.toolCalls == [];
    NothingToSend(EMPTY);
    hide Diffs;
  }

  lemma {:induction false} StampedEmpty(messages: seq<Message>, generate: nat -> string)
    requires messages != [] && messages[0] == EMPTY
    ensures |Stamped(messages, [], generate, 0)| == |messages| && Stamped(messages, [], generate, 0)[0] == EMPTY
  {
  }

  /** When the last event has arrived whole. */
  function LastMoment(events: seq<Event>): Moment
    requires events != []
  {
    Moment(|events| - 1, |events[|events| - 1].text|)
  }

  lemma {:induction false} AllArrived(events: seq<Event>)
    requires events != []
    ensures Happens(events, LastMoment(events)) && Snapshot(events, LastMoment(events)) == MessageOf(Parsed(events))
  {
    hide MessageOf, Parsed, Cuttable;
    var e := events[|events| - 1];
    assert e.text[..|e.text|] == e.text && Cut(e, |e.text|) == e;
    assert EventsAt(events, LastMoment(events)) == events;
  }

  predicate SameUpToIds(a: seq<ToolCall>, b: seq<ToolCall>) {
    |a| == |b| && forall i :: 0 <= i < |a| ==> a[i] == b[i].(id := a[i].id)
  }

  /** Looked at once more when it is complete, the message is what the client ends with: its reasoning, its content and its calls. */
  lemma {:induction false} WholeMessageReachesClient(parts: seq<Part>, moments: seq<Moment>, generate: nat -> string)
    requires PartsFormed(parts) && PartsEvents(parts) != []
    requires InTurn(PartsEvents(parts), moments) && moments != [] && moments[|moments| - 1] == LastMoment(PartsEvents(parts))
    ensures var held := Replay(EMPTY, Stamped(Snapshots(PartsEvents(parts), moments), [], generate, 0));
            && held.Some? && held.value.reasoning == NotBlank(Thoughts(parts)) && held.value.content == Speech(parts)
            && SameUpToIds(held.value.toolCalls, Calls(parts))
  {
    var events := PartsEvents(parts);
    hide StateValid, PartsEvents, PartFormed, Happens, Stamped, Replay, Finish, RunEvents, NotBlank, Snapshot, NotAfter;
    MessageReachesClient(parts, moments, generate);
    AllArrived(events);
    MessageResult(parts);
    var messages, n := Snapshots(events, moments), |moments|;
    assert messages[n] == Snapshot(events, LastMoment(events));
    StampedShape(messages, [], generate, 0, n);
    forall i: nat | i < |messages[n].toolCalls|
      ensures var id := Stamped(messages, [], generate, 0)[n].toolCalls[i].id;
              Stamped(messages, [], generate, 0)[n].toolCalls[i] == messages[n].toolCalls[i].(id := id)
    {
      StampedMatchesCache(messages, [], generate, 0, n, i);
    }
  }

  // ---------- a value that takes back what it wrote ----------

  /** A call whose only argument has arrived up to here. */
  function CallSoFar(text: string): seq<Event> {
    [Event(ToolOpen, "")] + [] + [Event(ToolName, "f")] + [Event(ArgOpen, ""), Event(ArgName, "x"), Event(ArgValue, text)]
  }

  lemma {:induction false} ValueWrites(text: string)
    ensures var events := [Event(ArgOpen, ""), Event(ArgName, "x"), Event(ArgValue, text)];
            && WritesAll(BLANK, events)
            && WriteAll(BLANK, events) == Writer("{\"x\":" + PyJson.Translate(text, false, PyJson.Outside), 1, false, "")
  {
    var key, value := [Event(ArgOpen, ""), Event(ArgName, "x")], [Event(ArgValue, text)];
    KeyWrite();
    hide *;
    assert key + value == [Event(ArgOpen, ""), Event(ArgName, "x"), Event(ArgValue, text)];
    WriteConcat(BLANK, key, value);
    WriteOneValue(Writer("{\"x\":", 1, false, ""), text);
  }

  lemma {:induction false} ShownSoFar(text: string)
    ensures MessageOf(Parsed(CallSoFar(text))).toolCalls ==
            [ToolCall("f", "{\"x\":" + PyJson.Translate(text, false, PyJson.Outside), "")]
  {
    assert TrimTrailing("f") == "f" && StateValid(INITIAL) && PendingUnnamed(INITIAL);
    hide Step, StateValid, TrimTrailing, WriteAll, WritesAll, RunEvents, PyJson.Translate, Flush, AllBlank, PendingUnnamed;
    var after := [Event(ArgOpen, ""), Event(ArgName, "x"), Event(ArgValue, text)];
    ValueWrites(text);
    assert [] + after == after;
    FromName(INITIAL, [], "f", after);
    FlushNeverFires(INITIAL, CallSoFar(text));
    var shown := "{\"x\":" + PyJson.Translate(text, false, PyJson.Outside);
    assert Shown(shown) == shown;
    assert INITIAL.calls + [ToolCall("f", shown, "")] == [ToolCall("f", shown, "")];
  }

  lemma {:induction false} QuoteTranslated()
    ensures PyJson.Translate("'\\", false, PyJson.Outside) == "\"\\"
    ensures PyJson.Translate("'\\''", false, PyJson.Outside) == "\"'\""
  {
    var a, b := "'\\", "'\\''";
    assert a[1..] == "\\" && "\\"[1..] == "";
    assert PyJson.Translate("\\", false, PyJson.InSingle) == "\\" + PyJson.Translate("", false, PyJson.InSingle);
    assert b[1..] == "\\''" && "\\''"[2..] == "'" && "'"[1..] == "";
    assert PyJson.Translate("'", false, PyJson.InSingle) == "\"" + PyJson.Translate("", false, PyJson.Outside);
    assert PyJson.Translate("\\''", false, PyJson.InSingle) == "'" + PyJson.Translate("'", false, PyJson.InSingle);
  }

  /**
   * Why such a value must arrive whole: of the string '\'' first the quote and the
   * backslash arrive, then the rest. What was sent is taken back, and the deltas throw.
   */
  lemma {:induction false} EscapedQuoteThrows()
    ensures var early, late := MessageOf(Parsed(CallSoFar("'\\"))), MessageOf(Parsed(CallSoFar("'\\''")));
            && early.toolCalls == [ToolCall("f", "{\"x\":\"\\", "")]
            && late.toolCalls == [ToolCall("f", "{\"x\":\"'\"", "")]
            && Diffs(early, late).Thrown?
  {
    ShownSoFar("'\\");
    ShownSoFar("'\\''");
    QuoteTranslated();
    var early, late := MessageOf(Parsed(CallSoFar("'\\"))), MessageOf(Parsed(CallSoFar("'\\''")));
    hide MessageOf, Parsed, CallSoFar, PyJson.Translate, Diffs;
    var a, b := "{\"x\":\"\\", "{\"x\":\"'\"";
    assert "{\"x\":" + "\"\\" == a && "{\"x\":" + "\"'\"" == b;
    assert a[6] == '\\' && b[6] == '\'' && |a| == 7;
    assert Unrelated(a, b);
    ThrowsExactly(early, late);
  }
}
