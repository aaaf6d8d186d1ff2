/**
 * From a stream of syntax-tree events to tool calls: arguments are collected in
 * a buffer until the call has a name, then appended to the call itself.
 */
module Mapper {
  import opened Words
  import opened Json
  import opened Streaming
  import PyJson

  datatype Tag =
    | ReasoningTag | ContentTag
    | ToolOpen | ToolClose | ToolName | ToolId | ToolArgs
    | ArgOpen | ArgClose | ArgName | ArgValue | ArgStringValue
    | OtherTag

  datatype Event = Event(tag: Tag, text: string)

  /** What `current_tool` points to: nothing, the pending call, or the last call of the result. */
  datatype Cursor = Nowhere | AtPending | AtLast

  datatype State = State(
    reasoning: string,
    content: string,
    calls: seq<ToolCall>,
    pending: Option<ToolCall>,
    cursor: Cursor,
    argCount: nat,
    buffer: string,
    quotePending: bool)

  const INITIAL: State := State("", "", [], None, Nowhere, 0, "", false)

  /** The pointer never dangles. */
  predicate StateValid(st: State) {
    && (st.cursor == AtPending <==> st.pending.Some?)
    && (st.cursor == AtLast ==> st.calls != [])
  }

  // ---------- texts ----------

  predicate IsCSpace(c: char) { c == ' ' || 9 <= c as int <= 13 }

  function TrimTrailing(s: string): string {
    if s != "" && IsCSpace(s[|s| - 1]) then TrimTrailing(s[..|s| - 1]) else s
  }

  /** Drop at most one leading space, then all trailing ones. */
  function TrimName(s: string): string {
    TrimTrailing(if s != "" && IsCSpace(s[0]) then s[1..] else s)
  }

  function Unquoted(s: string): string {
    if |s| >= 2 && s[0] == '"' && s[|s| - 1] == '"' then s[1..|s| - 1] else s
  }

  function Braces(n: int): string
    decreases n
  {
    if n <= 0 then "" else Braces(n - 1) + "}"
  }

  // ---------- one event ----------

  function Current(st: State): ToolCall
    requires st.cursor != Nowhere && StateValid(st)
  {
    if st.cursor == AtPending then st.pending.value else st.calls[|st.calls| - 1]
  }

  function SetCurrent(st: State, call: ToolCall): State
    requires st.cursor != Nowhere && StateValid(st)
  {
    if st.cursor == AtPending then st.(pending := Some(call)) else st.(calls := st.calls[|st.calls| - 1 := call])
  }

  /** Where argument text goes: the buffer until the call is named, then the call. */
  predicate Named(st: State)
    requires StateValid(st)
  {
    st.cursor != Nowhere && Current(st).name != ""
  }

  function Target(st: State): string
    requires StateValid(st)
  {
    if Named(st) then Current(st).arguments else st.buffer
  }

  function SetTarget(st: State, text: string): State
    requires StateValid(st)
  {
    if Named(st) then SetCurrent(st, Current(st).(arguments := text)) else st.(buffer := text)
  }

  function StepName(st: State, text: string): State
    requires StateValid(st) && st.cursor != Nowhere
  {
    var call := Current(st).(name := TrimTrailing(text));
    var filled := if st.buffer != "" then call.(arguments := st.buffer)
                  else if call.arguments == "" then call.(arguments := "{") else call;
    if st.pending.Some? then st.(calls := st.calls + [filled], pending := None, cursor := AtLast, buffer := "")
    else SetCurrent(st, filled).(buffer := "")
  }

  /** What a value adds, and whether a closing quote is owed afterwards. */
  function ValueText(text: string, isString: bool, quotePending: bool): (string, bool) {
    if isString then
      if text == "" then ("\"", true) else ((if quotePending then "" else "\"") + Escape(text), true)
    else (if text == "" then "" else PyJson.Translate(text, false, PyJson.Outside), quotePending)
  }

  function StepClose(st: State): State
    requires StateValid(st) && st.cursor != Nowhere
  {
    var call := Current(st);
    var flushed := if call.name == "" && st.buffer != "" then call.(arguments := st.buffer) else call;
    var buffer := if call.name == "" then "" else st.buffer;
    var quoted := if st.quotePending then flushed.(arguments := flushed.arguments + "\"") else flushed;
    var closed := quoted.(arguments := quoted.arguments + Braces(ScanAll(SCAN_START, quoted.arguments).depth));
    var st' := st.(buffer := buffer, quotePending := false);
    if st.pending.Some? then
      st'.(calls := if closed.name != "" then st.calls + [closed] else st.calls, pending := None, cursor := Nowhere)
    else SetCurrent(st', closed)
  }

  /** An event that concerns the current call. */
  function StepCall(st: State, e: Event): State
    requires StateValid(st) && st.cursor != Nowhere
  {
    if e.tag == ToolId then SetCurrent(st, Current(st).(id := Unquoted(TrimTrailing(e.text))))
    else if e.tag == ToolName then StepName(st, e.text)
    else if e.tag == ToolArgs then
      var text := TrimTrailing(e.text);
      if text != "" && text[0] == '{' then SetTarget(st, text) else st
    else if e.tag == ArgName then
      var entry := (if st.argCount > 0 then "," else "") + Dump(TrimName(e.text)) + ":";
      var target := Target(st);
      SetTarget(st, (if target == "" then "{" else target) + entry).(argCount := st.argCount + 1)
    else if e.tag == ArgValue || e.tag == ArgStringValue then
      var (text, owed) := ValueText(e.text, e.tag == ArgStringValue, st.quotePending);
      SetTarget(st, Target(st) + text).(quotePending := owed)
    else if e.tag == ArgClose then
      if st.quotePending then SetTarget(st, Target(st) + "\"").(quotePending := false) else st
    else if e.tag == ToolClose then StepClose(st)
    else st
  }

  function Step(st: State, e: Event): State
    requires StateValid(st)
  {
    if e.tag == ReasoningTag then st.(reasoning := st.reasoning + e.text)
    else if e.tag == ContentTag then st.(content := st.content + e.text)
    else if e.tag == ToolOpen then
      st.(pending := Some(NO_CALL), cursor := AtPending, argCount := 0, buffer := "", quotePending := false)
    else if e.tag == ArgOpen then st.(quotePending := false)
    else if st.cursor == Nowhere then st
    else StepCall(st, e)
  }

  lemma {:induction false} StepKeepsValid(st: State, e: Event)
    requires StateValid(st)
    ensures StateValid(Step(st, e))
  {
    hide TrimTrailing, TrimName, Unquoted, Braces, Dump, ValueText, ScanAll;
  }

  /** A call waits only as long as it has no name. */
  predicate PendingUnnamed(st: State) { st.pending.Some? ==> st.pending.value.name == "" }

  lemma {:induction false} StepKeepsUnnamed(st: State, e: Event)
    requires StateValid(st) && PendingUnnamed(st)
    ensures StateValid(Step(st, e)) && PendingUnnamed(Step(st, e))
  {
    StepKeepsValid(st, e);
    hide TrimTrailing, TrimName, Unquoted, Braces, Dump, ValueText, ScanAll;
  }

  function RunEvents(st: State, events: seq<Event>): (r: State)
    requires StateValid(st)
    ensures StateValid(r)
    decreases |events|
  {
    if events == [] then st else
      StepKeepsValid(st, events[0]);
      RunEvents(Step(st, events[0]), events[1..])
  }

  lemma {:induction false} RunConcat(st: State, a: seq<Event>, b: seq<Event>)
    requires StateValid(st)
    ensures RunEvents(st, a + b) == RunEvents(RunEvents(st, a), b)
    decreases |a|
  {
    hide Step, StateValid;
    if a == [] {
      assert a + b == b;
    } else {
      StepKeepsValid(st, a[0]);
      assert (a + b)[1..] == a[1..] + b;
      RunConcat(Step(st, a[0]), a[1..], b);
    }
  }

  // ---------- the mapper object ----------

  predicate AllBlank(s: string) {
    forall i :: 0 <= i < |s| ==> s[i] == ' ' || s[i] == '\n' || s[i] == '\r' || s[i] == '\t'
  }

  /** A pending call that has a name is moved to the result. */
  function Flush(st: State): State {
    if st.pending.Some? && st.pending.value.name != "" then
      var call := if st.buffer != "" then st.pending.value.(arguments := st.buffer) else st.pending.value;
      var quoted := if st.quotePending && call.arguments != "" then call.(arguments := call.arguments + "\"") else call;
      st.(calls := st.calls + [quoted], pending := None, cursor := Nowhere)
    else st
  }

  /** What from_ast does after the last event: flush, and drop blank reasoning. */
  function Finish(st: State): State {
    var st' := Flush(st);
    if st'.reasoning != "" && AllBlank(st'.reasoning) then st'.(reasoning := "") else st'
  }

  /** Over every run, the flush finds nothing to move: an unfinished call is shown as soon as it is named. */
  lemma {:induction false} FlushNeverFires(st: State, events: seq<Event>)
    requires StateValid(st) && PendingUnnamed(st)
    ensures Flush(RunEvents(st, events)) == RunEvents(st, events)
    ensures PendingUnnamed(RunEvents(st, events))
    decreases |events|
  {
    hide Step;
    if events != [] {
      StepKeepsUnnamed(st, events[0]);
      FlushNeverFires(Step(st, events[0]), events[1..]);
    }
  }

  /** One closing brace for each that is open. */
  method CloseBraces(text: string, depth: int) returns (closed: string)
    ensures closed == text + Braces(depth)
  {
    closed := text;
    var d := depth;
    assert text + "" == text;
    while d > 0
      invariant d <= depth || d <= 0
      invariant closed == text + Braces(depth - (if d > 0 then d else if depth > 0 then 0 else depth))
    {
      assert text + (Braces(depth - d) + "}") == (text + Braces(depth - d)) + "}";
      closed := closed + "}";
      d := d - 1;
    }
  }

  method IsBlank(text: string) returns (blank: bool)
    ensures blank <==> AllBlank(text)
  {
    var i := 0;
    while i < |text|
      invariant 0 <= i <= |text| && AllBlank(text[..i])
    {
      var c := text[i];
      if c != ' ' && c != '\n' && c != '\r' && c != '\t' {
        return false;
      }
      i := i + 1;
    }
    assert text[..i] == text;
    blank := true;
  }

  class PegMapper {
    var reasoning: string
    var content: string
    var calls: seq<ToolCall>
    var pending: Option<ToolCall>
    var cursor: Cursor
    var argCount: nat
    var buffer: string
    var quotePending: bool

    ghost function Now(): State
      reads this
    {
      State(reasoning, content, calls, pending, cursor, argCount, buffer, quotePending)
    }

    ghost predicate Valid() reads this { StateValid(Now()) }

    constructor ()
      ensures Now() == INITIAL && Valid()
    {
      reasoning, content, calls, pending := "", "", [], None;
      cursor, argCount, buffer, quotePending := Nowhere, 0, "", false;
    }

    function CurrentTool(): ToolCall
      reads this
      requires Valid() && cursor != Nowhere
    {
      if cursor == AtPending then pending.value else calls[|calls| - 1]
    }

    method UpdateTool(call: ToolCall)
      requires Valid() && cursor != Nowhere
      modifies this`calls, this`pending
      ensures Now() == SetCurrent(old(Now()), call) && Valid()
    {
      if cursor == AtPending {
        pending := Some(call);
      } else {
        calls := calls[|calls| - 1 := call];
      }
    }

    /** `args_target() = text`. */
    method WriteArgs(text: string)
      requires Valid()
      modifies this`calls, this`pending, this`buffer
      ensures Now() == SetTarget(old(Now()), text) && Valid()
    {
      if cursor != Nowhere && CurrentTool().name != "" {
        UpdateTool(CurrentTool().(arguments := text));
      } else {
        buffer := text;
      }
    }

    method TakeName(text: string)
      requires Valid() && cursor != Nowhere
      modifies this
      ensures Now() == StepName(old(Now()), text) && Valid()
    {
      hide TrimTrailing;
      var call := CurrentTool().(name := TrimTrailing(text));
      if buffer != "" {
        call := call.(arguments := buffer);
        buffer := "";
      } else if call.arguments == "" {
        call := call.(arguments := "{");
      }
      if pending.Some? {
        calls := calls + [call];
        pending := None;
        cursor := AtLast;
      } else {
        calls := calls[|calls| - 1 := call];
      }
    }

    method CloseTool()
      requires Valid() && cursor != Nowhere
      modifies this
      ensures Now() == StepClose(old(Now())) && Valid()
    {
      hide ScanAll, Braces;
      var call := CurrentTool();
      if call.name == "" && buffer != "" {
        call := call.(arguments := buffer);
        buffer := "";
      }
      if quotePending {
        call := call.(arguments := call.arguments + "\"");
        quotePending := false;
      }
      var depth := BraceDepth(call.arguments);
      var closed := CloseBraces(call.arguments, depth);
      call := call.(arguments := closed);
      if pending.Some? {
        if call.name != "" {
          calls := calls + [call];
        }
        pending := None;
        cursor := Nowhere;
      } else {
        calls := calls[|calls| - 1 := call];
      }
    }

    method AddValue(text: string, isString: bool)
      requires Valid() && cursor != Nowhere
      modifies this
      ensures var (added, owed) := ValueText(text, isString, old(quotePending));
              Now() == SetTarget(old(Now()), Target(old(Now())) + added).(quotePending := owed) && Valid()
    {
      hide Escape;
      var added := "";
      if text == "" && isString {
        added := "\"";
        quotePending := true;
      } else if text != "" && isString {
        if !quotePending {
          added := "\"";
          quotePending := true;
        }
        added := added + Escape(text);
      } else if text != "" {
        added := PyJson.NormalizeQuotes(text);
      }
      var target := if cursor != Nowhere && CurrentTool().name != "" then CurrentTool().arguments else buffer;
      WriteArgs(target + added);
    }

    /** An event that concerns the current call. */
    method MapCall(e: Event)
      requires Valid() && cursor != Nowhere
      modifies this
      ensures Now() == StepCall(old(Now()), e) && Valid()
    {
      hide TrimTrailing, TrimName, Unquoted, Dump, ValueText, StepName, StepClose;
      if e.tag == ToolId {
        UpdateTool(CurrentTool().(id := Unquoted(TrimTrailing(e.text))));
      } else if e.tag == ToolName {
        TakeName(e.text);
      } else if e.tag == ToolArgs {
        var text := TrimTrailing(e.text);
        if text != "" && text[0] == '{' {
          WriteArgs(text);
        }
      } else if e.tag == ArgName {
        var entry := (if argCount > 0 then "," else "") + Dump(TrimName(e.text)) + ":";
        argCount := argCount + 1;
        var target := if CurrentTool().name != "" then CurrentTool().arguments else buffer;
        WriteArgs((if target == "" then "{" else target) + entry);
      } else if e.tag == ArgValue {
        AddValue(e.text, false);
      } else if e.tag == ArgStringValue {
        AddValue(e.text, true);
      } else if e.tag == ArgClose {
        if quotePending {
          var target := if CurrentTool().name != "" then CurrentTool().arguments else buffer;
          WriteArgs(target + "\"");
          quotePending := false;
        }
      } else if e.tag == ToolClose {
        CloseTool();
      }
    }

    method Map(e: Event)
      requires Valid()
      modifies this
      ensures Now() == Step(old(Now()), e) && Valid()
    {
      hide StepCall;
      if e.tag == ReasoningTag {
        reasoning := reasoning + e.text;
      } else if e.tag == ContentTag {
        content := content + e.text;
      } else if e.tag == ToolOpen {
        pending := Some(NO_CALL);
        cursor := AtPending;
        argCount := 0;
        buffer := "";
        quotePending := false;
      } else if e.tag == ArgOpen {
        quotePending := false;
      } else if cursor != Nowhere {
        MapCall(e);
      }
    }

    /** A call that has a name but was never shown. */
    method FlushPending()
      requires Valid()
      modifies this
      ensures Now() == Flush(old(Now())) && Valid()
    {
      if pending.Some? && pending.value.name != "" {
        var call := pending.value;
        if buffer != "" {
          call := call.(arguments := buffer);
        }
        if quotePending && call.arguments != "" {
          call := call.(arguments := call.arguments + "\"");
        }
        calls := calls + [call];
        pending := None;
        cursor := Nowhere;
      }
    }

    method FromAst(events: seq<Event>)
      requires Valid()
      modifies this
      ensures Now() == Finish(RunEvents(old(Now()), events)) && Valid()
    {
      hide Step, Flush, AllBlank;
      var i := 0;
      ghost var start := Now();
      assert events[0..] == events;
      while i < |events|
        invariant 0 <= i <= |events| && Valid()
        invariant RunEvents(start, events) == RunEvents(Now(), events[i..])
      {
        assert events[i..][1..] == events[i + 1..];
        Map(events[i]);
        i := i + 1;
      }
      assert events[i..] == [];
      FlushPending();
      if reasoning != "" {
        var blank := IsBlank(reasoning);
        if blank {
          reasoning := "";
        }
      }
    }
  }
}
