/** What whole runs of tool-call events add up to. */
module MapperRuns {
  import opened Words
  import opened Json
  import opened Streaming
  import opened Mapper
  import PyJson
  import PyJsonMeaning

  // ---------- calls as events ----------

  /**
   * An argument: a string, arriving in one or more chunks, any other value in Python
   * spelling, or no value, be it white space, the empty text or no event at all.
   */
  datatype Arg =
    | StringArg(name: string, chunks: seq<string>)
    | ValueArg(name: string, value: PyJson.Slot)
    | BlankArg(name: string, gap: Option<string>)

  /** What a call passes: its arguments one by one, perhaps inside one enclosing event, or all of them as one text. */
  datatype Body =
    | Tagged(wrapper: Option<string>, args: seq<Arg>)
    | Whole(text: string)

  /** A call, perhaps with an identifier, and how many of the events inside it precede the identifier and the name. */
  datatype Call = Call(nameText: string, id: Option<string>, body: Body, eventsBeforeId: nat, eventsBeforeName: nat)

  function ChunkEvents(chunks: seq<string>): seq<Event> {
    if chunks == [] then [] else [Event(ArgStringValue, chunks[0])] + ChunkEvents(chunks[1..])
  }

  function ValueEvents(a: Arg): seq<Event> {
    match a
    case StringArg(_, chunks) => ChunkEvents(chunks)
    case ValueArg(_, value) => [Event(ArgValue, PyJson.SlotText(value, PyJson.Python))]
    case BlankArg(_, gap) => if gap.None? then [] else [Event(ArgValue, gap.value)]
  }

  function ArgEvents(a: Arg): seq<Event> {
    [Event(ArgOpen, ""), Event(ArgName, a.name)] + ValueEvents(a) + [Event(ArgClose, "")]
  }

  function ArgsEvents(args: seq<Arg>): seq<Event> {
    if args == [] then [] else ArgsEvents(args[..|args| - 1]) + ArgEvents(args[|args| - 1])
  }

  function BodyEvents(b: Body): seq<Event> {
    match b
    case Tagged(wrapper, args) =>
      if wrapper.None? then ArgsEvents(args) else [Event(ToolArgs, wrapper.value)] + ArgsEvents(args)
    case Whole(text) => [Event(ToolArgs, text)]
  }

  function InnerEvents(c: Call): seq<Event>
    requires c.id.Some? ==> c.eventsBeforeId <= |BodyEvents(c.body)|
  {
    var events := BodyEvents(c.body);
    if c.id.None? then events else events[..c.eventsBeforeId] + [Event(ToolId, c.id.value)] + events[c.eventsBeforeId..]
  }

  function Enclosed(before: seq<Event>, nameText: string, after: seq<Event>): seq<Event> {
    [Event(ToolOpen, "")] + before + [Event(ToolName, nameText)] + after + [Event(ToolClose, "")]
  }

  predicate Placed(c: Call) {
    && (c.id.Some? ==> c.eventsBeforeId <= |BodyEvents(c.body)|)
    && c.eventsBeforeName <= |InnerEvents(c)|
  }

  function CallEvents(c: Call): seq<Event>
    requires Placed(c)
  {
    Enclosed(InnerEvents(c)[..c.eventsBeforeName], c.nameText, InnerEvents(c)[c.eventsBeforeName..])
  }

  function Concat(chunks: seq<string>): string {
    if chunks == [] then "" else chunks[0] + Concat(chunks[1..])
  }

  /** Only the first chunk of a string may be empty. */
  predicate ChunksFormed(chunks: seq<string>) {
    chunks != [] && forall i :: 0 < i < |chunks| ==> chunks[i] != ""
  }

  predicate ArgFormed(a: Arg) {
    match a
    case StringArg(_, chunks) => ChunksFormed(chunks)
    case ValueArg(_, value) => PyJson.SlotFormed(value)
    case BlankArg(_, gap) => gap.Some? ==> AllSpace(gap.value)
  }

  predicate ArgsFormed(args: seq<Arg>) { forall i :: 0 <= i < |args| ==> ArgFormed(args[i]) }

  /** Text that is taken for the whole arguments. */
  predicate OpensObject(text: string) { text != "" && text[0] == '{' }

  predicate BodyFormed(b: Body) {
    b.Tagged? ==> ArgsFormed(b.args) && (b.wrapper.Some? ==> !OpensObject(b.wrapper.value))
  }

  predicate CallFormed(c: Call) {
    Placed(c) && TrimTrailing(c.nameText) != "" && BodyFormed(c.body)
  }

  // ---------- the text of a call ----------

  function ArgValueText(a: Arg): string {
    match a
    case StringArg(_, chunks) => Dump(Concat(chunks))
    case ValueArg(_, value) => PyJson.SlotText(value, PyJson.JsonLike)
    case BlankArg(_, gap) => if gap.None? then "" else gap.value
  }

  function ArgText(a: Arg): string { Dump(TrimName(a.name)) + ":" + ArgValueText(a) }

  function ArgsText(args: seq<Arg>): string {
    if args == [] then ""
    else if |args| == 1 then ArgText(args[0])
    else ArgsText(args[..|args| - 1]) + "," + ArgText(args[|args| - 1])
  }

  function ArgumentsOf(args: seq<Arg>): string { "{" + ArgsText(args) + "}" }

  /** A closing brace for each that is open. */
  function Closed(text: string): string { text + Braces(ScanAll(SCAN_START, text).depth) }

  function BodyArguments(b: Body): string {
    match b
    case Tagged(_, args) => ArgumentsOf(args)
    case Whole(text) => if OpensObject(text) then Closed(TrimTrailing(text)) else "{}"
  }

  function IdOf(c: Call): string { if c.id.None? then "" else Unquoted(TrimTrailing(c.id.value)) }

  function ToolCallOf(c: Call): ToolCall { ToolCall(TrimTrailing(c.nameText), BodyArguments(c.body), IdOf(c)) }

  lemma {:induction false} Assoc(a: string, b: string, c: string)
    ensures (a + b) + c == a + (b + c)
  {
  }

  // ---------- writing arguments, named or not ----------

  /** Argument text so far, number of arguments, whether a closing quote is owed, and the identifier. */
  datatype Writer = Writer(text: string, count: nat, quote: bool, id: string)

  /** An event inside a call with its place: a value or its end after some text, all the arguments before any. */
  predicate Writes(w: Writer, e: Event) {
    && e.tag !in {ToolOpen, ToolName, ToolClose}
    && (w.text == "" ==> e.tag !in {ArgValue, ArgStringValue, ArgClose})
    && (w.text != "" && e.tag == ToolArgs ==> !OpensObject(e.text))
  }

  function Shown(text: string): string { if text == "" then "{" else text }

  function Write(w: Writer, e: Event): Writer {
    if e.tag == ArgOpen then w.(quote := false)
    else if e.tag == ArgName then
      w.(text := Shown(w.text) + ((if w.count > 0 then "," else "") + Dump(TrimName(e.text)) + ":"), count := w.count + 1)
    else if e.tag == ArgClose then
      if w.quote then w.(text := w.text + "\"", quote := false) else w
    else if e.tag == ArgValue || e.tag == ArgStringValue then
      var (text, owed) := ValueText(e.text, e.tag == ArgStringValue, w.quote);
      w.(text := w.text + text, quote := owed)
    else if e.tag == ToolArgs then
      if OpensObject(e.text) then w.(text := TrimTrailing(e.text)) else w
    else if e.tag == ToolId then w.(id := Unquoted(TrimTrailing(e.text)))
    else w
  }

  /** The state inside a call whose argument text is `w.text`: in the buffer, or shown once it has a name. */
  predicate Inside(st: State, before: State, name: Option<string>, w: Writer) {
    && st.argCount == w.count && st.quotePending == w.quote
    && if name.None?
       then st.calls == before.calls && st.pending == Some(NO_CALL.(id := w.id)) && st.cursor == AtPending && st.buffer == w.text
       else st.calls == before.calls + [ToolCall(name.value, Shown(w.text), w.id)] && st.pending == None &&
            st.cursor == AtLast && st.buffer == "" && name.value != ""
  }

  lemma {:induction false} ArgsInside(st: State, before: State, name: Option<string>, w: Writer, e: Event)
    requires Inside(st, before, name, w) && StateValid(st) && e.tag == ToolArgs
    ensures Inside(Step(st, e), before, name, Write(w, e))
  {
    TrimmedOpens(e.text);
    hide TrimTrailing;
    if name.Some? {
      var n := |before.calls|;
      assert st.calls[n] == ToolCall(name.value, Shown(w.text), w.id);
      assert forall c: ToolCall :: st.calls[n := c] == before.calls + [c];
    }
  }

  lemma {:induction false} BufferedInside(st: State, before: State, w: Writer, e: Event)
    requires Inside(st, before, None, w) && Writes(w, e) && StateValid(st) && e.tag != ToolArgs
    ensures Inside(Step(st, e), before, None, Write(w, e))
  {
    hide Dump, TrimName, TrimTrailing, Unquoted, ValueText, StepName, StepClose;
  }

  lemma {:induction false} NamedInside(st: State, before: State, name: string, w: Writer, e: Event)
    requires Inside(st, before, Some(name), w) && Writes(w, e) && StateValid(st) && e.tag != ToolArgs
    ensures Inside(Step(st, e), before, Some(name), Write(w, e))
  {
    hide Dump, TrimName, TrimTrailing, Unquoted, ValueText, StepName, StepClose;
    var n := |before.calls|;
    assert st.calls[n] == ToolCall(name, Shown(w.text), w.id);
    assert forall c: ToolCall :: st.calls[n := c] == before.calls + [c];
  }

  /** Each event writes the same text whether or not the call is named yet. */
  lemma {:induction false} StepInside(st: State, before: State, name: Option<string>, w: Writer, e: Event)
    requires Inside(st, before, name, w) && Writes(w, e) && StateValid(st)
    ensures Inside(Step(st, e), before, name, Write(w, e))
  {
    hide Inside, Step, Write, Writes, StateValid;
    if e.tag == ToolArgs { ArgsInside(st, before, name, w, e); }
    else if name.None? { BufferedInside(st, before, w, e); }
    else { NamedInside(st, before, name.value, w, e); }
  }

  function WriteAll(w: Writer, events: seq<Event>): Writer
    decreases |events|
  {
    if events == [] then w else WriteAll(Write(w, events[0]), events[1..])
  }

  predicate WritesAll(w: Writer, events: seq<Event>)
    decreases |events|
  {
    events == [] || (Writes(w, events[0]) && WritesAll(Write(w, events[0]), events[1..]))
  }

  lemma {:induction false} RunInside(st: State, before: State, name: Option<string>, w: Writer, events: seq<Event>)
    requires Inside(st, before, name, w) && WritesAll(w, events) && StateValid(st)
    ensures Inside(RunEvents(st, events), before, name, WriteAll(w, events))
    decreases |events|
  {
    hide Step, Write, Writes, Inside, StateValid;
    if events != [] {
      StepInside(st, before, name, w, events[0]);
      StepKeepsValid(st, events[0]);
      RunInside(Step(st, events[0]), before, name, Write(w, events[0]), events[1..]);
    }
  }

  lemma {:induction false} WriteConcat(w: Writer, a: seq<Event>, b: seq<Event>)
    ensures WriteAll(w, a + b) == WriteAll(WriteAll(w, a), b)
    ensures WritesAll(w, a + b) <==> WritesAll(w, a) && WritesAll(WriteAll(w, a), b)
    decreases |a|
  {
    hide Write, Writes;
    if a == [] {
      assert a + b == b;
    } else {
      assert (a + b)[1..] == a[1..] + b;
      WriteConcat(Write(w, a[0]), a[1..], b);
    }
  }

  /** What is shown only ever grows at its end. */
  lemma {:induction false} ShownGrows(w: Writer, events: seq<Event>)
    requires WritesAll(w, events)
    ensures Shown(w.text) <= Shown(WriteAll(w, events).text)
    decreases |events|
  {
    hide Write, Writes;
    if events != [] {
      WriteGrows(w, events[0]);
      ShownGrows(Write(w, events[0]), events[1..]);
    }
  }

  lemma {:induction false} WriteGrows(w: Writer, e: Event)
    requires Writes(w, e)
    ensures Shown(w.text) <= Shown(Write(w, e).text)
  {
    TrimmedOpens(e.text);
    hide ValueText, Dump, TrimName, TrimTrailing, Unquoted;
  }

  // ---------- what the argument events write ----------

  /** One quote opens the string at its first chunk; a later empty chunk would open another. */
  function ChunksText(chunks: seq<string>, quote: bool): string {
    if chunks == [] then "" else
      (if chunks[0] == "" then "\"" else (if quote then "" else "\"") + Escape(chunks[0])) + ChunksText(chunks[1..], true)
  }

  lemma {:induction false} WriteChunk(w: Writer, chunk: string)
    requires w.text != ""
    ensures Writes(w, Event(ArgStringValue, chunk))
    ensures Write(w, Event(ArgStringValue, chunk)) ==
            w.(text := w.text + (if chunk == "" then "\"" else (if w.quote then "" else "\"") + Escape(chunk)), quote := true)
  {
    hide Escape;
  }

  lemma {:induction false} WriteChunks(w: Writer, chunks: seq<string>)
    requires w.text != ""
    ensures WritesAll(w, ChunkEvents(chunks))
    ensures WriteAll(w, ChunkEvents(chunks)) ==
            w.(text := w.text + ChunksText(chunks, w.quote), quote := w.quote || chunks != [])
    decreases |chunks|
  {
    hide Escape, Write, Writes;
    if chunks == [] {
      assert w.text + "" == w.text;
    } else {
      var e := Event(ArgStringValue, chunks[0]);
      WriteChunk(w, chunks[0]);
      assert ChunkEvents(chunks)[1..] == ChunkEvents(chunks[1..]);
      WriteChunks(Write(w, e), chunks[1..]);
      var t := if chunks[0] == "" then "\"" else (if w.quote then "" else "\"") + Escape(chunks[0]);
      Assoc(w.text, t, ChunksText(chunks[1..], true));
    }
  }

  function LaterEmpty(chunks: seq<string>): nat {
    if chunks == [] then 0 else (if chunks[0] == "" then 1 else 0) + LaterEmpty(chunks[1..])
  }

  lemma {:induction false} LaterChunksText(chunks: seq<string>)
    ensures |ChunksText(chunks, true)| == |Escape(Concat(chunks))| + LaterEmpty(chunks)
    ensures LaterEmpty(chunks) == 0 ==> ChunksText(chunks, true) == Escape(Concat(chunks))
    ensures LaterEmpty(chunks) == 0 <==> forall i :: 0 <= i < |chunks| ==> chunks[i] != ""
  {
    if chunks != [] {
      LaterChunksText(chunks[1..]);
      EscapeConcat(chunks[0], Concat(chunks[1..]));
      assert chunks[0] == "" ==> Escape(chunks[0]) == "";
      assert "" + Escape(chunks[0]) == Escape(chunks[0]);
      assert (forall i :: 0 <= i < |chunks| ==> chunks[i] != "") <==>
             chunks[0] != "" && forall i :: 0 <= i < |chunks[1..]| ==> chunks[1..][i] != "";
    }
  }

  lemma {:induction false} FirstChunkText(chunks: seq<string>)
    requires chunks != []
    ensures ChunksText(chunks, false) == "\"" + Escape(chunks[0]) + ChunksText(chunks[1..], true)
    ensures Escape(Concat(chunks)) == Escape(chunks[0]) + Escape(Concat(chunks[1..]))
  {
    EscapeConcat(chunks[0], Concat(chunks[1..]));
    assert chunks[0] == "" ==> Escape(chunks[0]) == "" && "\"" + "" == "\"";
  }

  /** The chunks of a string add up to its JSON text exactly when no chunk after the first is empty. */
  lemma {:induction false} StringTextExact(chunks: seq<string>)
    requires chunks != []
    ensures ChunksText(chunks, false) + "\"" == Dump(Concat(chunks)) <==> ChunksFormed(chunks)
  {
    var rest := chunks[1..];
    LaterChunksText(rest);
    FirstChunkText(chunks);
    assert ChunksFormed(chunks) <==> forall i :: 0 <= i < |rest| ==> rest[i] != "" by {
      assert forall i :: 0 < i < |chunks| ==> chunks[i] == rest[i - 1];
    }
    hide Escape, ChunksText, Concat, LaterEmpty, ChunksFormed, Dump;
    var first, tail := Escape(chunks[0]), Escape(Concat(rest));
    DumpLength(Concat(chunks));
    if LaterEmpty(rest) == 0 {
      QuoteBoth(first, tail);
      DumpIs(Concat(chunks));
    }
  }

  lemma {:induction false} DumpLength(s: string)
    ensures |Dump(s)| == |Escape(s)| + 2
  {
    hide Escape;
  }

  lemma {:induction false} DumpIs(s: string)
    ensures Dump(s) == "\"" + Escape(s) + "\""
  {
  }

  lemma {:induction false} QuoteBoth(first: string, tail: string)
    ensures "\"" + first + tail + "\"" == "\"" + (first + tail) + "\""
  {
  }

  lemma {:induction false} TwoEvents(w: Writer, a: Event, b: Event)
    ensures WriteAll(w, [a, b]) == Write(Write(w, a), b)
    ensures WritesAll(w, [a, b]) <==> Writes(w, a) && Writes(Write(w, a), b)
    ensures WriteAll(w, [a]) == Write(w, a) && (WritesAll(w, [a]) <==> Writes(w, a))
  {
    hide Write, Writes;
    assert [a, b][1..] == [b] && [b][1..] == [] && [a][1..] == [];
    assert WriteAll(Write(w, a), [b]) == WriteAll(Write(Write(w, a), b), []);
    assert WritesAll(Write(w, a), [b]) <==> Writes(Write(w, a), b) && WritesAll(Write(Write(w, a), b), []);
  }

  function Separator(w: Writer): string { if w.count > 0 then "," else "" }

  lemma {:induction false} WriteValue(w: Writer, a: Arg)
    requires w.text != "" && !w.quote && ArgFormed(a)
    ensures WritesAll(w, ValueEvents(a))
    ensures Write(WriteAll(w, ValueEvents(a)), Event(ArgClose, "")) == w.(text := w.text + ArgValueText(a))
    ensures WriteAll(w, ValueEvents(a)).text != ""
  {
    match a
    case StringArg(_, chunks) =>
      WriteChunks(w, chunks);
      StringTextExact(chunks);
      hide Dump, ChunksText;
      assert (w.text + ChunksText(chunks, false)) + "\"" == w.text + (ChunksText(chunks, false) + "\"");
    case ValueArg(_, value) =>
      PyJson.TranslateWhole(value);
      WriteOneValue(w, PyJson.SlotText(value, PyJson.Python));
    case BlankArg(_, gap) =>
      if gap.Some? {
        PyJson.TranslateGap(gap.value);
        WriteOneValue(w, gap.value);
      } else {
        assert w.text + "" == w.text;
      }
  }

  lemma {:induction false} WriteOneValue(w: Writer, text: string)
    requires w.text != "" && !w.quote
    ensures WritesAll(w, [Event(ArgValue, text)])
    ensures WriteAll(w, [Event(ArgValue, text)]) == w.(text := w.text + PyJson.Translate(text, false, PyJson.Outside))
  {
    hide PyJson.Translate;
    PyJson.TranslateNothing(false, PyJson.Outside);
    TwoEvents(w, Event(ArgValue, text), Event(ArgValue, text));
  }

  lemma {:induction false} WriteName(w: Writer, name: string)
    ensures var events := [Event(ArgOpen, ""), Event(ArgName, name)];
            && WritesAll(w, events)
            && WriteAll(w, events) == Writer(Shown(w.text) + (Separator(w) + Dump(TrimName(name)) + ":"), w.count + 1, false, w.id)
  {
    hide Dump, TrimName;
    TwoEvents(w, Event(ArgOpen, ""), Event(ArgName, name));
  }

  lemma {:induction false} CloseWrites(w: Writer)
    requires w.text != ""
    ensures WritesAll(w, [Event(ArgClose, "")]) && WriteAll(w, [Event(ArgClose, "")]) == Write(w, Event(ArgClose, ""))
  {
    TwoEvents(w, Event(ArgClose, ""), Event(ArgClose, ""));
  }

  /** The events of one argument append its text. */
  lemma {:induction false} WriteArg(w: Writer, a: Arg)
    requires ArgFormed(a)
    ensures WritesAll(w, ArgEvents(a))
    ensures WriteAll(w, ArgEvents(a)) == Writer(Shown(w.text) + (Separator(w) + ArgText(a)), w.count + 1, false, w.id)
  {
    hide Dump, ArgFormed, ArgValueText, ValueEvents, TrimName, Write, Writes, WriteAll, WritesAll;
    var head, close := [Event(ArgOpen, ""), Event(ArgName, a.name)], Event(ArgClose, "");
    WriteName(w, a.name);
    var w1 := WriteAll(w, head);
    WriteValue(w1, a);
    CloseWrites(WriteAll(w1, ValueEvents(a)));
    WriteConcat(w, head, ValueEvents(a));
    WriteConcat(w, head + ValueEvents(a), [close]);
    var key := Dump(TrimName(a.name)) + ":";
    assert (Shown(w.text) + (Separator(w) + Dump(TrimName(a.name)) + ":")) + ArgValueText(a) ==
           Shown(w.text) + (Separator(w) + (key + ArgValueText(a)));
  }

  const BLANK: Writer := Writer("", 0, false, "")

  /** The events of all arguments write an opening brace and the joined arguments. */
  lemma {:induction false} WriteArgs(args: seq<Arg>)
    requires ArgsFormed(args)
    ensures WritesAll(BLANK, ArgsEvents(args))
    ensures var w := WriteAll(BLANK, ArgsEvents(args));
            w.count == |args| && !w.quote && w.id == "" && Shown(w.text) == "{" + ArgsText(args)
  {
    hide ArgFormed, ArgText, ArgEvents, Writes, Write;
    if args == [] {
      assert "{" + "" == "{";
    } else {
      var init, last := args[..|args| - 1], args[|args| - 1];
      WriteArgs(init);
      var w := WriteAll(BLANK, ArgsEvents(init));
      WriteArg(w, last);
      WriteConcat(BLANK, ArgsEvents(init), ArgEvents(last));
      if |args| == 1 {
        assert "" + ArgText(last) == ArgText(last);
        assert Shown(w.text) + ("" + ArgText(last)) == "{" + ArgText(last);
      } else {
        assert ("{" + ArgsText(init)) + ("," + ArgText(last)) == "{" + (ArgsText(init) + "," + ArgText(last));
      }
    }
  }

  /** What is shown of a call before it is closed. */
  function BodyText(b: Body): string {
    match b
    case Tagged(_, args) => "{" + ArgsText(args)
    case Whole(text) => if OpensObject(text) then TrimTrailing(text) else "{"
  }

  lemma {:induction false} WriteWrapper(text: string, events: seq<Event>)
    requires !OpensObject(text)
    ensures WritesAll(BLANK, [Event(ToolArgs, text)] + events) <==> WritesAll(BLANK, events)
    ensures WriteAll(BLANK, [Event(ToolArgs, text)] + events) == WriteAll(BLANK, events)
  {
    var e := Event(ToolArgs, text);
    assert Write(BLANK, e) == BLANK && Writes(BLANK, e);
    hide Write, Writes;
    assert ([e] + events)[1..] == events;
  }

  lemma {:induction false} WriteWhole(text: string)
    ensures var e := Event(ToolArgs, text);
            && WritesAll(BLANK, [e])
            && WriteAll(BLANK, [e]) == if OpensObject(text) then BLANK.(text := TrimTrailing(text)) else BLANK
  {
    var e := Event(ToolArgs, text);
    TwoEvents(BLANK, e, e);
    hide WriteAll, WritesAll, TrimTrailing;
  }

  lemma {:induction false} WriteBody(b: Body)
    requires BodyFormed(b)
    ensures WritesAll(BLANK, BodyEvents(b))
    ensures var w := WriteAll(BLANK, BodyEvents(b)); !w.quote && w.id == "" && Shown(w.text) == BodyText(b)
  {
    hide WriteAll, WritesAll, ArgsEvents, ArgsText, ArgFormed, TrimTrailing;
    match b
    case Tagged(wrapper, args) =>
      WriteArgs(args);
      if wrapper.Some? { WriteWrapper(wrapper.value, ArgsEvents(args)); }
    case Whole(text) =>
      TrimmedOpens(text);
      WriteWhole(text);
  }

  lemma {:induction false} TrimmedOpens(text: string)
    ensures TrimTrailing(text) <= text
    ensures OpensObject(text) <==> OpensObject(TrimTrailing(text))
    decreases |text|
  {
    if text != "" && IsCSpace(text[|text| - 1]) { TrimmedOpens(text[..|text| - 1]); }
  }

  // ---------- the identifier ----------

  predicate NoId(events: seq<Event>) { forall i :: 0 <= i < |events| ==> events[i].tag != ToolId }

  /** The identifier is written apart from the arguments. */
  lemma {:induction false} IdApart(w: Writer, id: string, events: seq<Event>)
    requires NoId(events)
    ensures WritesAll(w.(id := id), events) <==> WritesAll(w, events)
    ensures WriteAll(w.(id := id), events) == WriteAll(w, events).(id := id)
    decreases |events|
  {
    hide Dump, TrimName, TrimTrailing, Unquoted, ValueText, OpensObject;
    if events != [] {
      assert Write(w.(id := id), events[0]) == Write(w, events[0]).(id := id);
      IdApart(Write(w, events[0]), id, events[1..]);
    }
  }

  lemma {:induction false} IdInserted(a: seq<Event>, text: string, b: seq<Event>)
    requires NoId(b) && WritesAll(BLANK, a + b)
    ensures WritesAll(BLANK, a + [Event(ToolId, text)] + b)
    ensures WriteAll(BLANK, a + [Event(ToolId, text)] + b) == WriteAll(BLANK, a + b).(id := Unquoted(TrimTrailing(text)))
  {
    hide WriteAll, WritesAll, TrimTrailing, Unquoted;
    var e, w := Event(ToolId, text), WriteAll(BLANK, a);
    assert Writes(w, e) && Write(w, e) == w.(id := Unquoted(TrimTrailing(text)));
    WriteConcat(BLANK, a, b);
    WriteConcat(BLANK, a, [e]);
    WriteConcat(BLANK, a + [e], b);
    TwoEvents(w, e, e);
    IdApart(w, Unquoted(TrimTrailing(text)), b);
  }

  lemma {:induction false} PlainArgsEvents(args: seq<Arg>)
    ensures forall i :: 0 <= i < |ArgsEvents(args)| ==> ArgTag(ArgsEvents(args)[i])
  {
    if args != [] {
      PlainArgsEvents(args[..|args| - 1]);
      var a := args[|args| - 1];
      if a.StringArg? { PlainChunks(a.chunks); }
    }
  }

  predicate ArgTag(e: Event) { e.tag in {ArgOpen, ArgName, ArgValue, ArgStringValue, ArgClose} }

  lemma {:induction false} PlainChunks(chunks: seq<string>)
    ensures forall i :: 0 <= i < |ChunkEvents(chunks)| ==> ArgTag(ChunkEvents(chunks)[i])
  {
    if chunks != [] { PlainChunks(chunks[1..]); }
  }

  lemma {:induction false} BodyTags(b: Body)
    ensures forall i :: 0 <= i < |BodyEvents(b)| ==> ArgTag(BodyEvents(b)[i]) || BodyEvents(b)[i].tag == ToolArgs
  {
    if b.Tagged? { PlainArgsEvents(b.args); }
    hide ArgTag, ArgsEvents;
  }

  /** The events inside a call write its arguments and its identifier, and no reasoning or content. */
  lemma {:induction false} WriteInner(c: Call)
    requires CallFormed(c)
    ensures WritesAll(BLANK, InnerEvents(c))
    ensures var w := WriteAll(BLANK, InnerEvents(c)); !w.quote && w.id == IdOf(c) && Shown(w.text) == BodyText(c.body)
    ensures forall i :: 0 <= i < |InnerEvents(c)| ==> InnerEvents(c)[i].tag !in {ReasoningTag, ContentTag}
  {
    hide WriteAll, WritesAll, BodyFormed, BodyText, BodyEvents, TrimTrailing, Unquoted;
    var events := BodyEvents(c.body);
    WriteBody(c.body);
    BodyTags(c.body);
    if c.id.Some? {
      assert events == events[..c.eventsBeforeId] + events[c.eventsBeforeId..];
      IdInserted(events[..c.eventsBeforeId], c.id.value, events[c.eventsBeforeId..]);
    }
  }

  // ---------- closing ----------

  lemma {:induction false} ArgBalanced(a: Arg)
    requires ArgFormed(a)
    ensures Balanced(ArgText(a))
  {
    hide Balanced, Dump;
    DumpIsBalanced(TrimName(a.name));
    PlainIsBalanced(":");
    BalancedConcat(Dump(TrimName(a.name)), ":");
    match a {
      case StringArg(_, chunks) => DumpIsBalanced(Concat(chunks));
      case ValueArg(_, value) => PyJsonMeaning.SlotBalanced(value);
      case BlankArg(_, gap) => PlainIsBalanced(if gap.None? then "" else gap.value);
    }
    BalancedConcat(Dump(TrimName(a.name)) + ":", ArgValueText(a));
  }

  lemma {:induction false} ArgsBalanced(args: seq<Arg>)
    requires ArgsFormed(args)
    ensures Balanced(ArgsText(args))
  {
    hide Balanced, ArgText, ArgFormed;
    if args == [] {
      PlainIsBalanced("");
    } else {
      var init, last := args[..|args| - 1], args[|args| - 1];
      ArgBalanced(last);
      if |args| > 1 {
        ArgsBalanced(init);
        PlainIsBalanced(",");
        BalancedConcat(ArgsText(init), ",");
        BalancedConcat(ArgsText(init) + ",", ArgText(last));
      }
    }
  }

  /** After the arguments exactly the opening brace is still open. */
  lemma {:induction false} OneBraceOpen(args: seq<Arg>)
    requires ArgsFormed(args)
    ensures ScanAll(SCAN_START, "{" + ArgsText(args)).depth == 1
  {
    hide ArgsText, ScanAll, ArgFormed;
    ArgsBalanced(args);
    ScanConcat(SCAN_START, "{", ArgsText(args));
    PyJsonMeaning.OneBrace(0);
  }

  lemma {:induction false} CloseNamed(st: State, name: string, text: string, id: string)
    requires StateValid(st) && st.cursor == AtLast && name != "" && st.pending == None
    requires st.calls[|st.calls| - 1] == ToolCall(name, text, id)
    ensures StepClose(st).calls ==
            st.calls[|st.calls| - 1 := ToolCall(name, Closed(text + (if st.quotePending then "\"" else "")), id)]
  {
    hide ScanAll, Braces;
    assert text + "" == text;
  }

  lemma {:induction false} CloseInside(st: State, before: State, name: string, w: Writer)
    requires Inside(st, before, Some(name), w) && StateValid(st)
    ensures Step(st, Event(ToolClose, "")).calls == before.calls + [FinalCall(name, w)]
  {
    hide Closed, StepClose, Step, Shown;
    StepIsClose(st);
    CloseNamed(st, name, Shown(w.text), w.id);
    LastReplaced(before.calls, ToolCall(name, Shown(w.text), w.id), FinalCall(name, w));
  }

  /** A call once closed: a quote that is owed, then a brace for each that is open. */
  function FinalCall(name: string, w: Writer): ToolCall {
    ToolCall(name, Closed(Shown(w.text) + (if w.quote then "\"" else "")), w.id)
  }

  lemma {:induction false} CloseBody(b: Body)
    requires BodyFormed(b)
    ensures Closed(BodyText(b)) == BodyArguments(b)
  {
    match b
    case Tagged(_, args) =>
      OneBraceOpen(args);
      OneBrace();
    case Whole(text) =>
      if !OpensObject(text) {
        PyJsonMeaning.OneBrace(0);
        OneBrace();
        assert "{" + "}" == "{}";
      }
  }

  lemma {:induction false} OneBrace()
    ensures Braces(1) == "}"
  {
    assert Braces(0) == "" && "" + "}" == "}";
  }

  lemma {:induction false} LastReplaced(calls: seq<ToolCall>, was: ToolCall, becomes: ToolCall)
    ensures (calls + [was])[|calls| := becomes] == calls + [becomes]
  {
  }

  lemma {:induction false} StepIsClose(st: State)
    requires StateValid(st) && st.cursor != Nowhere
    ensures Step(st, Event(ToolClose, "")) == StepClose(st)
  {
    hide StepClose, StepName, Dump, TrimName, ValueText;
  }

  // ---------- trimming, unquoting, closing ----------

  /** What is left is the text up to its last character that is no space, tab, feed or return. */
  lemma {:induction false} TrimTrailingIs(text: string)
    ensures var t := TrimTrailing(text);
            && t <= text && (t != "" ==> t[|t| - 1] as int !in {9, 10, 11, 12, 13, 32})
            && forall i :: |t| <= i < |text| ==> text[i] as int in {9, 10, 11, 12, 13, 32}
    decreases |text|
  {
    if text != "" && IsCSpace(text[|text| - 1]) {
      var init := text[..|text| - 1];
      TrimTrailingIs(init);
      assert forall i :: 0 <= i < |init| ==> init[i] == text[i];
    }
  }

  /** Of the spaces in front of a name only one goes. */
  lemma {:induction false} TrimNameIs(text: string)
    ensures TrimName(text) ==
            TrimTrailing(if text != "" && text[0] as int in {9, 10, 11, 12, 13, 32} then text[1..] else text)
  {
  }

  lemma {:induction false} UnquotedIs(text: string)
    ensures Unquoted("\"" + text + "\"") == text
    ensures (exists t :: text == "\"" + t + "\"") || Unquoted(text) == text
  {
    var quoted := "\"" + text + "\"";
    assert quoted[1..|quoted| - 1] == text;
    if |text| >= 2 && text[0] == '"' && text[|text| - 1] == '"' {
      assert text == "\"" + text[1..|text| - 1] + "\"";
    }
  }

  lemma {:induction false} BracesAre(n: nat)
    ensures |Braces(n)| == n && forall i :: 0 <= i < n ==> Braces(n)[i] == '}'
  {
    if n > 0 { BracesAre(n - 1); }
  }

  // ---------- main results ----------

  lemma {:induction false} OpenInside(st: State)
    requires StateValid(st)
    ensures Inside(Step(st, Event(ToolOpen, "")), st, None, BLANK) && StateValid(Step(st, Event(ToolOpen, "")))
  {
  }

  lemma {:induction false} NameInside(st: State, before: State, w: Writer, nameText: string)
    requires Inside(st, before, None, w) && StateValid(st) && TrimTrailing(nameText) != ""
    ensures Inside(Step(st, Event(ToolName, nameText)), before, Some(TrimTrailing(nameText)), w)
    ensures StateValid(Step(st, Event(ToolName, nameText)))
  {
    hide TrimTrailing;
  }

  /** The states while a call is read: up to its name, and from its name to before its close. */
  lemma {:induction false} UpToName(st: State, before: seq<Event>)
    requires StateValid(st) && WritesAll(BLANK, before)
    ensures Inside(RunEvents(st, [Event(ToolOpen, "")] + before), st, None, WriteAll(BLANK, before))
  {
    hide Step, Inside, StateValid, WriteAll, WritesAll;
    RunConcat(st, [Event(ToolOpen, "")], before);
    OpenInside(st);
    RunOne(st, Event(ToolOpen, ""));
    RunInside(Step(st, Event(ToolOpen, "")), st, None, BLANK, before);
  }

  lemma {:induction false} RunOne(st: State, e: Event)
    requires StateValid(st)
    ensures StateValid(Step(st, e)) && RunEvents(st, [e]) == Step(st, e)
  {
    hide Step, StateValid;
    StepKeepsValid(st, e);
    assert [e][1..] == [];
  }

  lemma {:induction false} FromName(st: State, before: seq<Event>, nameText: string, after: seq<Event>)
    requires StateValid(st) && WritesAll(BLANK, before + after) && TrimTrailing(nameText) != ""
    ensures Inside(RunEvents(st, [Event(ToolOpen, "")] + before + [Event(ToolName, nameText)] + after),
                   st, Some(TrimTrailing(nameText)), WriteAll(BLANK, before + after))
  {
    hide Step, Inside, StateValid, TrimTrailing, WriteAll, WritesAll;
    var open, name := [Event(ToolOpen, "")], Event(ToolName, nameText);
    WriteConcat(BLANK, before, after);
    var w := WriteAll(BLANK, before);
    UpToName(st, before);
    var st1 := RunEvents(st, open + before);
    NameInside(st1, st, w, nameText);
    RunOne(st1, name);
    RunConcat(st, open + before, [name]);
    RunConcat(st, open + before + [name], after);
    RunInside(Step(st1, name), st, Some(TrimTrailing(nameText)), w, after);
  }

  /** Whatever is written inside it, wherever its name falls: one call, closed, with what was written. */
  lemma {:induction false} EnclosedRun(st: State, before: seq<Event>, nameText: string, after: seq<Event>)
    requires StateValid(st) && WritesAll(BLANK, before + after) && TrimTrailing(nameText) != ""
    ensures RunEvents(st, Enclosed(before, nameText, after)).calls ==
            st.calls + [FinalCall(TrimTrailing(nameText), WriteAll(BLANK, before + after))]
  {
    hide Step, Inside, StateValid, TrimTrailing, WriteAll, WritesAll, RunEvents, FinalCall;
    FromName(st, before, nameText, after);
    var body := [Event(ToolOpen, "")] + before + [Event(ToolName, nameText)] + after;
    var st1 := RunEvents(st, body);
    CloseInside(st1, st, TrimTrailing(nameText), WriteAll(BLANK, before + after));
    RunConcat(st, body, [Event(ToolClose, "")]);
    RunOne(st1, Event(ToolClose, ""));
  }

  /**
   * However the mapper was left, and wherever the name and the identifier fall among the
   * other events, a run of call events adds exactly one call: its name, its identifier
   * and exactly its arguments, passed one by one or as one text.
   */
  lemma {:induction false} CallRun(st: State, c: Call)
    requires StateValid(st) && CallFormed(c)
    ensures var r := RunEvents(st, CallEvents(c));
            r.calls == st.calls + [ToolCallOf(c)] && r.reasoning == st.reasoning && r.content == st.content
  {
    hide StateValid, TrimTrailing, WriteAll, WritesAll, RunEvents, BodyFormed, BodyText, BodyArguments, IdOf, Closed, InnerEvents;
    var inner, p := InnerEvents(c), c.eventsBeforeName;
    assert inner[..p] + inner[p..] == inner;
    WriteInner(c);
    CloseBody(c.body);
    EnclosedRun(st, inner[..p], c.nameText, inner[p..]);
    var w := WriteAll(BLANK, inner);
    assert Shown(w.text) + "" == Shown(w.text);
    CallSilent(c);
    TextsRun(st, CallEvents(c));
    assert st.reasoning + "" == st.reasoning && st.content + "" == st.content;
  }

  /** A closed call stays the one that events are about: an identifier that comes late is still its own. */
  lemma {:induction false} LateId(st: State, c: Call, text: string)
    requires StateValid(st) && CallFormed(c)
    ensures RunEvents(st, CallEvents(c) + [Event(ToolId, text)]).calls ==
            st.calls + [ToolCallOf(c).(id := Unquoted(TrimTrailing(text)))]
  {
    hide StateValid, TrimTrailing, Unquoted, RunEvents, CallEvents, ToolCallOf, Step, Placed, BodyFormed;
    CallRun(st, c);
    CallLeftCurrent(st, c);
    var st1, e := RunEvents(st, CallEvents(c)), Event(ToolId, text);
    RunConcat(st, CallEvents(c), [e]);
    RunOne(st1, e);
    StepId(st1, text);
    LastReplaced(st.calls, ToolCallOf(c), ToolCallOf(c).(id := Unquoted(TrimTrailing(text))));
  }

  lemma {:induction false} StepId(st: State, text: string)
    requires StateValid(st) && st.cursor == AtLast
    ensures Step(st, Event(ToolId, text)).calls ==
            st.calls[|st.calls| - 1 := st.calls[|st.calls| - 1].(id := Unquoted(TrimTrailing(text)))]
  {
    hide TrimTrailing, Unquoted;
  }

  lemma {:induction false} CallLeftCurrent(st: State, c: Call)
    requires StateValid(st) && CallFormed(c)
    ensures RunEvents(st, CallEvents(c)).cursor == AtLast
  {
    hide StateValid, TrimTrailing, WriteAll, WritesAll, RunEvents, BodyFormed, InnerEvents, Step;
    var inner, p := InnerEvents(c), c.eventsBeforeName;
    assert inner[..p] + inner[p..] == inner;
    WriteInner(c);
    FromName(st, inner[..p], c.nameText, inner[p..]);
    var body := [Event(ToolOpen, "")] + inner[..p] + [Event(ToolName, c.nameText)] + inner[p..];
    var st1 := RunEvents(st, body);
    RunConcat(st, body, [Event(ToolClose, "")]);
    RunOne(st1, Event(ToolClose, ""));
    StepIsClose(st1);
    hide Closed, ScanAll, Braces;
  }

  /** Arguments that come as one text replace whatever was collected; any other text in their place changes nothing. */
  lemma {:induction false} WholeTextReplaces(st: State, text: string)
    requires StateValid(st) && st.cursor != Nowhere
    ensures var r := Step(st, Event(ToolArgs, text));
            if OpensObject(text) then StateValid(r) && Target(r) == TrimTrailing(text) else r == st
  {
    TrimmedOpens(text);
    hide TrimTrailing;
  }

  /** While a named call is being read, what is shown of it is a prefix of what it will be. */
  lemma {:induction false} PartialCallIsPrefix(st: State, c: Call, k: nat)
    requires StateValid(st) && CallFormed(c) && c.eventsBeforeName + 2 <= k < |CallEvents(c)|
    ensures var r := RunEvents(st, CallEvents(c)[..k]);
            && |r.calls| == |st.calls| + 1 && r.calls[..|st.calls|] == st.calls
            && var shown := r.calls[|st.calls|];
               shown.name == ToolCallOf(c).name && shown.arguments <= ToolCallOf(c).arguments
  {
    hide StateValid, TrimTrailing, WriteAll, WritesAll, RunEvents, BodyFormed, BodyText, BodyArguments, IdOf, Closed, InnerEvents;
    var inner, p, j := InnerEvents(c), c.eventsBeforeName, k - 2;
    assert CallEvents(c)[..k] == [Event(ToolOpen, "")] + inner[..p] + [Event(ToolName, c.nameText)] + inner[p..j];
    assert inner[..p] + inner[p..j] == inner[..j] && inner == inner[..j] + inner[j..];
    WriteInner(c);
    WriteConcat(BLANK, inner[..j], inner[j..]);
    FromName(st, inner[..p], c.nameText, inner[p..j]);
    ShownGrows(WriteAll(BLANK, inner[..j]), inner[j..]);
    CloseBody(c.body);
    ClosedLonger(BodyText(c.body));
  }

  /** The text of formed arguments, complete or cut before its last brace, closes to the same arguments. */
  lemma {:induction false} WholeKept(args: seq<Arg>)
    requires ArgsFormed(args)
    ensures Closed(ArgumentsOf(args)) == ArgumentsOf(args) && Closed("{" + ArgsText(args)) == ArgumentsOf(args)
  {
    hide ArgsText, ScanAll, ArgFormed;
    ArgsBalanced(args);
    OneBraceOpen(args);
    OneBrace();
    ScanConcat(SCAN_START, "{", ArgsText(args));
    ScanConcat(SCAN_START, "{" + ArgsText(args), "}");
    PyJsonMeaning.OneBrace(0);
    PyJsonMeaning.OneBrace(1);
    assert ScanAll(Scan(1, false, false), ArgsText(args)) == Scan(1, false, false);
    assert ScanAll(SCAN_START, ArgumentsOf(args)).depth == 0;
    assert ArgumentsOf(args) + "" == ArgumentsOf(args);
  }

  lemma {:induction false} ClosedLonger(text: string)
    ensures text <= Closed(text)
  {
    hide ScanAll, Braces;
  }

  // ---------- reasoning and content ----------

  function TextOf(tag: Tag, events: seq<Event>): string {
    if events == [] then "" else (if events[0].tag == tag then events[0].text else "") + TextOf(tag, events[1..])
  }

  /** Over every run, reasoning and content are each the texts of their own events in order. */
  lemma {:induction false} TextsRun(st: State, events: seq<Event>)
    requires StateValid(st)
    ensures RunEvents(st, events).reasoning == st.reasoning + TextOf(ReasoningTag, events)
    ensures RunEvents(st, events).content == st.content + TextOf(ContentTag, events)
    decreases |events|
  {
    hide StateValid;
    if events == [] {
      assert st.reasoning + "" == st.reasoning && st.content + "" == st.content;
    } else {
      StepKeepsValid(st, events[0]);
      StepTexts(st, events[0]);
      hide Step;
      var e, st1 := events[0], Step(st, events[0]);
      TextsRun(st1, events[1..]);
      Assoc(st.reasoning, if e.tag == ReasoningTag then e.text else "", TextOf(ReasoningTag, events[1..]));
      Assoc(st.content, if e.tag == ContentTag then e.text else "", TextOf(ContentTag, events[1..]));
    }
  }

  lemma {:induction false} StepTexts(st: State, e: Event)
    requires StateValid(st)
    ensures Step(st, e).reasoning == st.reasoning + (if e.tag == ReasoningTag then e.text else "")
    ensures Step(st, e).content == st.content + (if e.tag == ContentTag then e.text else "")
  {
    hide TrimTrailing, TrimName, Unquoted, Dump, ValueText, ScanAll, Braces;
    assert st.reasoning + "" == st.reasoning && st.content + "" == st.content;
  }

  lemma {:induction false} SilentText(tag: Tag, events: seq<Event>)
    requires forall i :: 0 <= i < |events| ==> events[i].tag != tag
    ensures TextOf(tag, events) == ""
  {
    if events != [] {
      SilentText(tag, events[1..]);
      assert "" + "" == "";
    }
  }

  lemma {:induction false} CallSilent(c: Call)
    requires CallFormed(c)
    ensures TextOf(ReasoningTag, CallEvents(c)) == "" && TextOf(ContentTag, CallEvents(c)) == ""
  {
    hide InnerEvents, TextOf, WritesAll, WriteAll, BodyFormed, BodyText, IdOf;
    WriteInner(c);
    SilentText(ReasoningTag, CallEvents(c));
    SilentText(ContentTag, CallEvents(c));
  }

  // ---------- a whole message ----------

  datatype Part = Thought(text: string) | Spoken(text: string) | Called(call: Call)

  predicate PartFormed(p: Part) { p.Called? ==> CallFormed(p.call) }

  function PartEvents(p: Part): seq<Event>
    requires PartFormed(p)
  {
    match p
    case Thought(text) => [Event(ReasoningTag, text)]
    case Spoken(text) => [Event(ContentTag, text)]
    case Called(call) => CallEvents(call)
  }

  predicate PartsFormed(parts: seq<Part>) { forall i :: 0 <= i < |parts| ==> PartFormed(parts[i]) }

  function PartsEvents(parts: seq<Part>): seq<Event>
    requires PartsFormed(parts)
  {
    if parts == [] then [] else
      assert PartFormed(parts[0]);
      PartEvents(parts[0]) + PartsEvents(parts[1..])
  }

  function Thoughts(parts: seq<Part>): string {
    if parts == [] then "" else (if parts[0].Thought? then parts[0].text else "") + Thoughts(parts[1..])
  }

  function Speech(parts: seq<Part>): string {
    if parts == [] then "" else (if parts[0].Spoken? then parts[0].text else "") + Speech(parts[1..])
  }

  function Calls(parts: seq<Part>): seq<ToolCall> {
    if parts == [] then [] else (if parts[0].Called? then [ToolCallOf(parts[0].call)] else []) + Calls(parts[1..])
  }

  lemma {:induction false} PartRun(st: State, p: Part)
    requires StateValid(st) && PartFormed(p)
    ensures var r := RunEvents(st, PartEvents(p));
            && r.calls == st.calls + (if p.Called? then [ToolCallOf(p.call)] else [])
            && r.reasoning == st.reasoning + (if p.Thought? then p.text else "")
            && r.content == st.content + (if p.Spoken? then p.text else "")
  {
    hide StateValid, CallEvents, ToolCallOf, CallFormed, RunEvents, StepCall;
    assert st.calls + [] == st.calls && st.reasoning + "" == st.reasoning && st.content + "" == st.content;
    match p
    case Thought(text) => RunOne(st, Event(ReasoningTag, text));
    case Spoken(text) => RunOne(st, Event(ContentTag, text));
    case Called(call) => CallRun(st, call);
  }

  /** A whole message: every call in order and nothing else, the reasoning and the content joined. */
  lemma {:induction false} MessageRun(st: State, parts: seq<Part>)
    requires StateValid(st) && PartsFormed(parts)
    ensures var r := RunEvents(st, PartsEvents(parts));
            && r.calls == st.calls + Calls(parts)
            && r.reasoning == st.reasoning + Thoughts(parts)
            && r.content == st.content + Speech(parts)
    decreases |parts|
  {
    hide StateValid, PartEvents, ToolCallOf, PartFormed, RunEvents;
    if parts == [] {
      assert st.calls + [] == st.calls && st.reasoning + "" == st.reasoning && st.content + "" == st.content;
      RunNothing(st);
    } else {
      var p, rest := parts[0], parts[1..];
      assert PartFormed(p);
      PartRun(st, p);
      var st1 := RunEvents(st, PartEvents(p));
      assert PartsEvents(parts) == PartEvents(p) + PartsEvents(rest);
      RunConcat(st, PartEvents(p), PartsEvents(rest));
      MessageRun(st1, rest);
      Assoc(st.reasoning, if p.Thought? then p.text else "", Thoughts(rest));
      Assoc(st.content, if p.Spoken? then p.text else "", Speech(rest));
      AssocCalls(st.calls, if p.Called? then [ToolCallOf(p.call)] else [], Calls(rest));
    }
  }

  lemma {:induction false} AssocCalls(a: seq<ToolCall>, b: seq<ToolCall>, c: seq<ToolCall>)
    ensures (a + b) + c == a + (b + c)
  {
  }

  lemma {:induction false} RunNothing(st: State)
    requires StateValid(st)
    ensures RunEvents(st, []) == st
  {
  }

  /** A text in which some character is no white space; otherwise nothing. */
  function NotBlank(text: string): string {
    if exists c :: c in text && c !in {' ', '\n', '\r', '\t'} then text else ""
  }

  lemma {:induction false} BlankOrNot(text: string)
    ensures NotBlank(text) == if text != "" && AllBlank(text) then "" else text
  {
    if i :| 0 <= i < |text| && text[i] !in {' ', '\n', '\r', '\t'} { assert text[i] in text; }
  }

  lemma {:induction false} FinishIs(st: State)
    requires Flush(st) == st
    ensures Finish(st) == st.(reasoning := NotBlank(st.reasoning))
  {
    BlankOrNot(st.reasoning);
    hide Flush, NotBlank, AllBlank;
  }

  /** What a fresh mapper makes of a whole message; reasoning that is only white space is dropped. */
  lemma {:induction false} MessageResult(parts: seq<Part>)
    requires PartsFormed(parts)
    ensures StateValid(INITIAL)
    ensures var r := Finish(RunEvents(INITIAL, PartsEvents(parts)));
            && r.calls == Calls(parts) && r.content == Speech(parts)
            && r.reasoning == NotBlank(Thoughts(parts))
  {
    hide *;
    FromNothing(Thoughts(parts), Speech(parts), Calls(parts));
    MessageRun(INITIAL, parts);
    FlushNeverFires(INITIAL, PartsEvents(parts));
    FinishIs(RunEvents(INITIAL, PartsEvents(parts)));
  }

  lemma {:induction false} FromNothing(thoughts: string, speech: string, calls: seq<ToolCall>)
    ensures StateValid(INITIAL) && PendingUnnamed(INITIAL)
    ensures INITIAL.reasoning + thoughts == thoughts && INITIAL.content + speech == speech && INITIAL.calls + calls == calls
  {
  }

  /** A pending call without a name, in front of which the calls are those of `before`. */
  predicate Unnamed(st: State, before: seq<ToolCall>) {
    st.calls == before && st.cursor == AtPending && st.pending.Some? && st.pending.value.name == ""
  }

  predicate NoOpenNameClose(events: seq<Event>) {
    forall i :: 0 <= i < |events| ==> events[i].tag !in {ToolOpen, ToolName, ToolClose}
  }

  lemma {:induction false} StaysUnnamed(st: State, before: seq<ToolCall>, events: seq<Event>)
    requires StateValid(st) && Unnamed(st, before) && NoOpenNameClose(events)
    ensures Unnamed(RunEvents(st, events), before)
    decreases |events|
  {
    hide StateValid;
    if events != [] {
      StepUnnamed(st, before, events[0]);
      StepKeepsValid(st, events[0]);
      hide Step;
      StaysUnnamed(Step(st, events[0]), before, events[1..]);
    }
  }

  lemma {:induction false} StepUnnamed(st: State, before: seq<ToolCall>, e: Event)
    requires StateValid(st) && Unnamed(st, before) && e.tag !in {ToolOpen, ToolName, ToolClose}
    ensures Unnamed(Step(st, e), before)
  {
    hide Dump, TrimName, TrimTrailing, Unquoted, ValueText;
  }

  lemma {:induction false} CloseUnnamed(st: State, before: seq<ToolCall>)
    requires StateValid(st) && Unnamed(st, before)
    ensures Step(st, Event(ToolClose, "")).calls == before
  {
    hide ScanAll, Braces, StepName, Dump, TrimName, ValueText;
  }

  /** A call that never gets a name leaves no trace in the result, whatever arrives between its open and its close. */
  lemma {:induction false} UnnamedCallDiscarded(st: State, events: seq<Event>)
    requires StateValid(st) && NoOpenNameClose(events)
    ensures RunEvents(st, [Event(ToolOpen, "")] + events + [Event(ToolClose, "")]).calls == st.calls
  {
    var open, close := Event(ToolOpen, ""), Event(ToolClose, "");
    assert Unnamed(Step(st, open), st.calls);
    hide Step, StateValid, Unnamed, NoOpenNameClose;
    RunOne(st, open);
    StaysUnnamed(Step(st, open), st.calls, events);
    RunConcat(st, [open], events);
    var st1 := RunEvents(st, [open] + events);
    RunConcat(st, [open] + events, [close]);
    RunOne(st1, close);
    CloseUnnamed(st1, st.calls);
  }

  // ---------- the arguments are JSON for what was passed ----------

  /** What JSON reads of an argument. */
  function ArgRead(a: Arg): Option<Json> {
    match a
    case StringArg(_, chunks) => Some(JStr(Concat(chunks)))
    case ValueArg(_, value) => PyJsonMeaning.ValueRead(value.value)
    case BlankArg(_, _) => None
  }

  function ArgsRead(args: seq<Arg>): Option<seq<(string, Json)>> {
    if args == [] then Some([]) else
      var v, rest := ArgRead(args[0]), ArgsRead(args[1..]);
      if v.None? || rest.None? then None else Some([(TrimName(args[0].name), v.value)] + rest.value)
  }

  predicate ArgSurvives(a: Arg) {
    match a
    case StringArg(_, _) => true
    case ValueArg(_, value) => PyJsonMeaning.Survives(value.value)
    case BlankArg(_, _) => false
  }

  /** What was passed; no value is the empty text. */
  function ArgMeaning(a: Arg): (string, Json) {
    (TrimName(a.name),
     match a
     case StringArg(_, chunks) => JStr(Concat(chunks))
     case ValueArg(_, value) => PyJson.Meaning(value.value)
     case BlankArg(_, _) => JStr(""))
  }

  function ArgMeanings(args: seq<Arg>): seq<(string, Json)> {
    if args == [] then [] else [ArgMeaning(args[0])] + ArgMeanings(args[1..])
  }

  lemma {:induction false} ReadDump(s: string, rest: string)
    ensures Dump(s) != "" && Dump(s)[0] == '"' && ReadString((Dump(s) + rest)[1..]) == Some((s, rest))
  {
    hide Escape, ReadString;
    assert (Dump(s) + rest)[1..] == Escape(s) + "\"" + rest;
    ReadEscaped(s, rest);
  }

  lemma {:induction false} ReadDumpValue(s: string, rest: string)
    ensures ReadValue(Dump(s) + rest) == Some((JStr(s), rest))
  {
    hide ReadString, Dump;
    ReadDump(s, rest);
    assert (Dump(s) + rest)[0] == '"';
  }

  lemma {:induction false} ReadDumpKey(s: string, tail: string)
    ensures ReadKey(Dump(s) + (":" + tail)) == Some((s, tail))
  {
    hide ReadString, Dump;
    ReadDump(s, ":" + tail);
    assert (Dump(s) + (":" + tail))[0] == '"';
    assert (":" + tail)[1..] == tail;
  }

  /** White space after a value, which the reader skips. */
  function ArgAfter(a: Arg): string { if a.ValueArg? then a.value.after else "" }

  lemma {:induction false} ReadArgValue(a: Arg, rest: string)
    requires ArgFormed(a) && rest != "" && rest[0] in {',', '}'}
    ensures ReadValue(ArgValueText(a) + rest) == PyJsonMeaning.With(ArgRead(a), ArgAfter(a) + rest)
    ensures AllSpace(ArgAfter(a))
  {
    assert rest[0] == ',' || rest[0] == '}';
    assert PyJsonMeaning.EndsToken(rest);
    hide ReadValue, Dump, PyJsonMeaning.EndsToken;
    assert "" + rest == rest;
    match a
    case StringArg(_, chunks) => ReadDumpValue(Concat(chunks), rest);
    case ValueArg(_, value) =>
      PyJsonMeaning.SlotGaps(value);
      hide PyJson.SlotText, PyJson.SlotFormed, PyJsonMeaning.ValueRead;
      PyJsonMeaning.ReadSlot(value, rest);
    case BlankArg(_, gap) =>
      assert rest == [rest[0]] + rest[1..];
      PyJsonMeaning.ReadTrailing(if gap.None? then "" else gap.value, rest[0], rest[1..]);
  }

  lemma {:induction false} ReadArg(a: Arg, rest: string)
    requires ArgFormed(a) && rest != "" && rest[0] in {',', '}'}
    ensures ReadKey(ArgText(a) + rest) == Some((TrimName(a.name), ArgValueText(a) + rest))
    ensures ReadValue(ArgValueText(a) + rest) == PyJsonMeaning.With(ArgRead(a), ArgAfter(a) + rest)
    ensures AllSpace(ArgAfter(a))
  {
    hide ReadValue, ReadKey, Dump, TrimName, ArgValueText, ArgRead, ArgAfter, ArgFormed;
    ReadArgValue(a, rest);
    assert ArgText(a) + rest == Dump(TrimName(a.name)) + (":" + (ArgValueText(a) + rest));
    ReadDumpKey(TrimName(a.name), ArgValueText(a) + rest);
  }

  /** Arguments joined from the front, as the reader takes them. */
  function JoinedText(args: seq<Arg>): string
    requires args != []
  {
    if |args| == 1 then ArgText(args[0]) else ArgText(args[0]) + ("," + JoinedText(args[1..]))
  }

  lemma {:induction false} JoinedIsArgsText(args: seq<Arg>)
    requires args != []
    ensures JoinedText(args) == ArgsText(args)
    decreases |args|
  {
    hide ArgText;
    if |args| == 2 {
      assert args[1..] == [args[1]] && args[..1] == [args[0]];
    } else if |args| > 2 {
      var n := |args| - 1;
      var init, rest := args[..n], args[1..];
      JoinedIsArgsText(rest);
      JoinedIsArgsText(init);
      JoinedIsArgsText(init[1..]);
      assert rest[..|rest| - 1] == init[1..] && rest[|rest| - 1] == args[n];
      assert ArgText(args[0]) + ("," + (ArgsText(init[1..]) + "," + ArgText(args[n]))) ==
             (ArgText(args[0]) + ("," + ArgsText(init[1..]))) + "," + ArgText(args[n]);
    }
  }

  lemma {:induction false} ReadJoined(args: seq<Arg>, rest: string)
    requires args != [] && forall i :: 0 <= i < |args| ==> ArgFormed(args[i])
    ensures ReadMembers(JoinedText(args) + ("}" + rest)) == PyJsonMeaning.With(ArgsRead(args), rest)
    decreases |args|
  {
    hide ReadMembers, ReadValue, ReadKey, ArgText, ArgValueText, ArgFormed, ArgRead, ArgAfter, TrimName;
    var a := args[0];
    var k, v := Some(TrimName(a.name)), ArgRead(a);
    if |args| == 1 {
      ReadArg(a, "}" + rest);
      PyJsonMeaning.ReadLastMember(ArgText(a) + ("}" + rest), k, ArgValueText(a) + ("}" + rest), v, ArgAfter(a), rest);
      assert args[1..] == [] && (v.Some? ==> [(k.value, v.value)] + [] == [(k.value, v.value)]);
    } else {
      var more := JoinedText(args[1..]) + ("}" + rest);
      assert JoinedText(args) + ("}" + rest) == ArgText(a) + ("," + more);
      ReadArg(a, "," + more);
      PyJsonMeaning.ReadNextMember(ArgText(a) + ("," + more), k, ArgValueText(a) + ("," + more), v, ArgAfter(a), more);
      ReadJoined(args[1..], rest);
    }
  }

  /** What a reader of JSON makes of the finished arguments. */
  lemma {:induction false} ArgumentsRead(args: seq<Arg>)
    requires ArgsFormed(args)
    ensures Parse(ArgumentsOf(args)) == if ArgsRead(args).None? then None else Some(JObj(ArgsRead(args).value))
  {
    hide ReadMembers, ReadValue, ArgFormed, ArgRead, TrimName, TrimTrailing;
    var s := ArgumentsOf(args);
    assert s + "" == s;
    if args == [] {
      assert s == "{" + ("" + ("}" + ""));
      PyJsonMeaning.ReadEmpty("", "");
    } else {
      JoinedIsArgsText(args);
      JoinedOpens(args);
      var inner := JoinedText(args) + ("}" + "");
      assert inner[0] == JoinedText(args)[0];
      PyJsonMeaning.NoSpace(inner);
      PyJsonMeaning.ReadObject(inner);
      ReadJoined(args, "");
      assert s == "{" + inner;
    }
  }

  lemma {:induction false} ArgExact(a: Arg)
    requires ArgFormed(a)
    ensures ArgRead(a) == Some(ArgMeaning(a).1) <==> ArgSurvives(a)
  {
    if a.ValueArg? {
      PyJsonMeaning.SlotGaps(a.value);
      hide PyJsonMeaning.ValueRead, PyJsonMeaning.Survives, PyJson.Meaning, PyJson.Formed;
      PyJsonMeaning.ValueExact(a.value.value);
    }
  }

  lemma {:induction false} ArgsExact(args: seq<Arg>)
    requires ArgsFormed(args)
    ensures ArgsRead(args) == Some(ArgMeanings(args)) <==> forall i :: 0 <= i < |args| ==> ArgSurvives(args[i])
  {
    hide ArgRead, ArgSurvives, ArgFormed;
    if args != [] {
      ArgExact(args[0]);
      ArgsExact(args[1..]);
      var v, rest := ArgRead(args[0]), ArgsRead(args[1..]);
      if v.Some? && rest.Some? {
        PyJsonMeaning.SameCons((TrimName(args[0].name), v.value), ArgMeaning(args[0]), rest.value, ArgMeanings(args[1..]));
      }
      assert (forall i :: 0 <= i < |args| ==> ArgSurvives(args[i])) <==>
             ArgSurvives(args[0]) && forall i :: 0 <= i < |args[1..]| ==> ArgSurvives(args[1..][i]);
    }
  }

  /** The finished arguments are the object of the names and values passed exactly when every value is there and survives. */
  lemma {:induction false} ArgumentsParse(args: seq<Arg>)
    requires ArgsFormed(args)
    ensures Parse(ArgumentsOf(args)) == Some(JObj(ArgMeanings(args))) <==> forall i :: 0 <= i < |args| ==> ArgSurvives(args[i])
  {
    hide Parse, ArgumentsOf, ArgsRead, ArgMeanings, ArgSurvives, ArgFormed, TrimTrailing;
    ArgumentsRead(args);
    ArgsExact(args);
  }

  lemma {:induction false} JoinedOpens(args: seq<Arg>)
    requires args != []
    ensures JoinedText(args) != "" && JoinedText(args)[0] == '"'
  {
  }

  // ---------- a string that is not spelled as JSON ----------

  lemma {:induction false} DumpPlain(c: char)
    requires EscapeChar(c) == [c]
    ensures Dump([c]) == ['"', c, '"'] && Escape([c]) == [c]
  {
    assert [c][1..] == "";
    assert Escape([c]) == [c] + "";
  }

  const OPENED_TWICE: string := "{\"x\":\"a\"\"}"

  lemma {:induction false} OpenedTwiceIsNotJson()
    ensures Parse(OPENED_TWICE).None?
  {
    DumpPlain('x');
    DumpPlain('a');
    hide ReadValue, ReadKey, ReadMembers, Dump, Escape;
    var tail := Dump("a") + "\"}";
    var inner := Dump("x") + (":" + tail);
    assert OPENED_TWICE == "{" + inner;
    PyJsonMeaning.NoSpace(inner);
    PyJsonMeaning.ReadObject(inner);
    ReadDumpKey("x", tail);
    ReadDumpValue("a", "\"}");
    NoMember(inner, tail);
  }

  lemma {:induction false} NoMember(s: string, tail: string)
    requires ReadKey(s) == Some(("x", tail)) && ReadValue(tail) == Some((JStr("a"), "\"}"))
    ensures ReadMembers(s).None?
  {
    hide ReadValue, ReadKey;
    assert SkipSpace("\"}") == "\"}";
  }

  /** The events of the string "a" in two chunks of which the second is empty. */
  const TWO_CHUNKS: Arg := StringArg("x", ["a", ""])

  lemma {:induction false} KeyWrite()
    ensures TrimName("x") == "x" && Dump("x") == "\"x\""
    ensures WritesAll(BLANK, [Event(ArgOpen, ""), Event(ArgName, "x")])
    ensures WriteAll(BLANK, [Event(ArgOpen, ""), Event(ArgName, "x")]) == Writer("{\"x\":", 1, false, "")
  {
    DumpPlain('x');
    hide Dump;
    TwoEvents(BLANK, Event(ArgOpen, ""), Event(ArgName, "x"));
  }

  lemma {:induction false} TwoChunksWrite()
    ensures var w, events := Writer("{\"x\":", 1, false, ""), ChunkEvents(["a", ""]);
            WritesAll(w, events) && WriteAll(w, events) == Writer("{\"x\":\"a\"", 1, true, "")
  {
    DumpPlain('a');
    hide Escape, Writes, Write;
    var w := Writer("{\"x\":", 1, false, "");
    assert ["a", ""][1..] == [""] && [""][1..] == [];
    assert ChunksText([""], true) == "\"" + "";
    assert ChunksText(["a", ""], false) == ("\"" + "a") + ("\"" + "");
    WriteChunks(w, ["a", ""]);
  }

  lemma {:induction false} ChunksWrite()
    ensures WritesAll(BLANK, ArgEvents(TWO_CHUNKS))
    ensures WriteAll(BLANK, ArgEvents(TWO_CHUNKS)) == Writer("{\"x\":\"a\"\"", 1, false, "")
  {
    KeyWrite();
    TwoChunksWrite();
    hide WriteAll, WritesAll, Dump, TrimName, ChunkEvents;
    var head, chunks, close := [Event(ArgOpen, ""), Event(ArgName, "x")], ChunkEvents(["a", ""]), Event(ArgClose, "");
    WriteConcat(BLANK, head, chunks);
    WriteConcat(BLANK, head + chunks, [close]);
    TwoEvents(Writer("{\"x\":\"a\"", 1, true, ""), close, close);
  }

  lemma {:induction false} TwoChunksRun()
    ensures var events := [Event(ToolOpen, "")] + [Event(ToolName, "f")] + ArgEvents(TWO_CHUNKS) + [Event(ToolClose, "")];
            RunEvents(INITIAL, events).calls == [ToolCall("f", OPENED_TWICE, "")]
  {
    assert TrimTrailing("f") == "f";
    assert StateValid(INITIAL);
    hide Step, Inside, StateValid, ScanAll, TrimTrailing, ArgEvents, Write, Writes, WriteAll, WritesAll, RunEvents;
    var open, name, inner, close := Event(ToolOpen, ""), Event(ToolName, "f"), ArgEvents(TWO_CHUNKS), Event(ToolClose, "");
    ChunksWrite();
    OpenInside(INITIAL);
    RunOne(INITIAL, open);
    NameInside(Step(INITIAL, open), INITIAL, BLANK, "f");
    var st := Step(Step(INITIAL, open), name);
    RunOne(Step(INITIAL, open), name);
    RunInside(st, INITIAL, Some("f"), BLANK, inner);
    RunConcat(INITIAL, [open], [name]);
    RunConcat(INITIAL, [open] + [name], inner);
    RunConcat(INITIAL, [open] + [name] + inner, [close]);
    RunOne(RunEvents(st, inner), close);
    CloseTwoChunks(RunEvents(st, inner));
  }

  /** An empty chunk that is not the first opens the string a second time, and the finished arguments are not JSON. */
  lemma {:induction false} EmptyChunkSpoils()
    ensures var events := [Event(ToolOpen, "")] + [Event(ToolName, "f")] + ArgEvents(TWO_CHUNKS) + [Event(ToolClose, "")];
            RunEvents(INITIAL, events).calls == [ToolCall("f", OPENED_TWICE, "")]
    ensures Parse(OPENED_TWICE).None?
    ensures "{" + ArgText(TWO_CHUNKS) + "}" == "{\"x\":\"a\"}"
  {
    hide RunEvents, CallEvents, ArgEvents, Parse, ArgText;
    TwoChunksRun();
    OpenedTwiceIsNotJson();
    TwoChunksText();
  }

  lemma {:induction false} TwoChunksText()
    ensures "{" + ArgText(TWO_CHUNKS) + "}" == "{\"x\":\"a\"}"
  {
    KeyWrite();
    DumpPlain('a');
    assert ["a", ""][1..] == [""] && [""][1..] == [];
    assert Concat([""]) == "" && Concat(["a", ""]) == "a" + "" == "a";
    hide Dump, TrimName, Concat;
  }

  lemma {:induction false} CloseTwoChunks(st: State)
    requires Inside(st, INITIAL, Some("f"), Writer("{\"x\":\"a\"\"", 1, false, "")) && StateValid(st)
    ensures Step(st, Event(ToolClose, "")).calls == [ToolCall("f", OPENED_TWICE, "")]
  {
    hide ScanAll, StepClose, Step;
    var text := "{\"x\":\"a\"\"";
    DepthOfOpenedTwice();
    StepIsClose(st);
    CloseNamed(st, "f", text, "");
    OneBrace();
    assert text + "" == text && text + "}" == OPENED_TWICE;
    assert Closed(text) == OPENED_TWICE;
  }

  lemma {:induction false} DepthOfOpenedTwice()
    ensures ScanAll(SCAN_START, "{\"x\":\"a\"\"").depth == 1
  {
    DumpPlain('x');
    DumpPlain('a');
    assert "\""[1..] == "" && ScanAll(Scan(1, false, false), "\"") == Scan(1, true, false);
    DumpIsBalanced("x");
    DumpIsBalanced("a");
    PlainIsBalanced(":");
    BalancedConcat(Dump("x"), ":");
    BalancedConcat(Dump("x") + ":", Dump("a"));
    var middle := Dump("x") + ":" + Dump("a");
    assert ScanAll(Scan(1, false, false), middle) == Scan(1, false, false);
    hide ScanAll, Balanced, Dump, Escape;
    assert "{\"x\":\"a\"\"" == ("{" + middle) + "\"";
    PyJsonMeaning.OneBrace(0);
    ScanConcat(SCAN_START, "{" + middle, "\"");
    ScanConcat(SCAN_START, "{", middle);
  }
}
