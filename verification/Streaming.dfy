/**
 * Streaming a growing chat message as deltas: computing them, folding them back,
 * and keeping tool-call ids stable.
 */
module Streaming {
  import opened Words

  datatype ToolCall = ToolCall(name: string, arguments: string, id: string)

  /** The parts of a message that are streamed. */
  datatype Message = Message(reasoning: string, content: string, toolCalls: seq<ToolCall>)

  const NO_CALL: ToolCall := ToolCall("", "", "")

  /** One delta; `index` None stands for the npos of the source. */
  datatype Delta = Delta(reasoning: string, content: string, index: Option<nat>, call: ToolCall)

  /** The two ways compute_diffs throws, besides a text that is not extended. */
  datatype Outcome<T> = Done(value: T) | Thrown

  // ---------- computing deltas ----------

  /** What `current` adds to `last`; nothing if it took something away. */
  function StringDiff(last: string, current: string): Outcome<string> {
    if last == "" then Done(current)
    else if !(last <= current) then (if current <= last then Done("") else Thrown)
    else Done(current[|last|..])
  }

  /** The delta of the last tool call already seen. */
  function CallDelta(idx: nat, prev: ToolCall, next: ToolCall): Outcome<seq<Delta>> {
    if prev.name != next.name && prev.name != "" && next.name != "" && !(prev.name <= next.name) then Thrown
    else
      var args := StringDiff(prev.arguments, next.arguments);
      if args.Thrown? then Thrown
      else if args.value != "" || prev.id != next.id || prev.name != next.name then
        var call := if prev.id != next.id || prev.name != next.name
                    then ToolCall(next.name, args.value, next.id)
                    else ToolCall("", args.value, "");
        Done([Delta("", "", Some(idx), call)])
      else Done([])
  }

  function NewCalls(calls: seq<ToolCall>, from: nat): (r: seq<Delta>)
    requires from <= |calls|
  {
    seq(|calls| - from, i requires 0 <= i < |calls| - from => Delta("", "", Some(from + i), calls[from + i]))
  }

  function TextDeltas(prev: Message, next: Message): Outcome<seq<Delta>> {
    var r := StringDiff(prev.reasoning, next.reasoning);
    var c := StringDiff(prev.content, next.content);
    if (prev.reasoning != next.reasoning && r.Thrown?) || (prev.content != next.content && c.Thrown?) then Thrown
    else Done((if prev.reasoning != next.reasoning then [Delta(r.value, "", None, NO_CALL)] else []) +
              (if prev.content != next.content then [Delta("", c.value, None, NO_CALL)] else []))
  }

  function LastCallDeltas(prev: Message, next: Message): Outcome<seq<Delta>>
    requires |prev.toolCalls| <= |next.toolCalls|
  {
    if prev.toolCalls == [] then Done([]) else
      var idx := |prev.toolCalls| - 1;
      CallDelta(idx, prev.toolCalls[idx], next.toolCalls[idx])
  }

  function Diffs(prev: Message, next: Message): Outcome<seq<Delta>> {
    var text := TextDeltas(prev, next);
    if text.Thrown? || |next.toolCalls| < |prev.toolCalls| then Thrown else
      var last := LastCallDeltas(prev, next);
      if last.Thrown? then Thrown
      else Done(text.value + last.value + NewCalls(next.toolCalls, |prev.toolCalls|))
  }

  lemma {:induction false} OneMoreCall(calls: seq<ToolCall>, from: nat, call: ToolCall)
    requires from <= |calls|
    ensures NewCalls(calls + [call], from) == NewCalls(calls, from) + [Delta("", "", Some(|calls|), call)]
    ensures from == |calls| ==> NewCalls(calls, from) == []
  {
  }

  /** The same, growing one list of deltas. */
  method ComputeDiffs(prev: Message, next: Message) returns (r: Outcome<seq<Delta>>)
    ensures r == Diffs(prev, next)
  {
    hide CallDelta, StringDiff, NewCalls;
    var diffs: seq<Delta> := [];
    if prev.reasoning != next.reasoning {
      var d := StringDiff(prev.reasoning, next.reasoning);
      if d.Thrown? {
        return Thrown;
      }
      diffs := diffs + [Delta(d.value, "", None, NO_CALL)];
    }
    if prev.content != next.content {
      var d := StringDiff(prev.content, next.content);
      if d.Thrown? {
        return Thrown;
      }
      diffs := diffs + [Delta("", d.value, None, NO_CALL)];
    }
    assert diffs == TextDeltas(prev, next).value;
    if |next.toolCalls| < |prev.toolCalls| {
      return Thrown;
    }
    if prev.toolCalls != [] {
      var idx := |prev.toolCalls| - 1;
      var d := CallDelta(idx, prev.toolCalls[idx], next.toolCalls[idx]);
      if d.Thrown? {
        return Thrown;
      }
      diffs := diffs + d.value;
    }
    assert diffs == TextDeltas(prev, next).value + LastCallDeltas(prev, next).value;
    hide TextDeltas, LastCallDeltas;
    ghost var head := diffs;
    var idx := |prev.toolCalls|;
    OneMoreCall(next.toolCalls[..idx], idx, NO_CALL);
    while idx < |next.toolCalls|
      invariant |prev.toolCalls| <= idx <= |next.toolCalls|
      invariant diffs == head + NewCalls(next.toolCalls[..idx], |prev.toolCalls|)
    {
      OneMoreCall(next.toolCalls[..idx], |prev.toolCalls|, next.toolCalls[idx]);
      assert next.toolCalls[..idx] + [next.toolCalls[idx]] == next.toolCalls[..idx + 1];
      diffs := diffs + [Delta("", "", Some(idx), next.toolCalls[idx])];
      idx := idx + 1;
    }
    assert next.toolCalls[..idx] == next.toolCalls;
    assert diffs == head + NewCalls(next.toolCalls, |prev.toolCalls|);
    r := Done(diffs);
  }

  // ---------- accumulating deltas ----------

  function Padded(calls: seq<ToolCall>, n: nat): (r: seq<ToolCall>)
    ensures |r| >= n && calls <= r
    ensures |calls| >= n ==> r == calls
    decreases n - |calls|
  {
    if |calls| >= n then calls else Padded(calls + [NO_CALL], n)
  }

  function Merge(call: ToolCall, delta: ToolCall): ToolCall {
    ToolCall(if delta.name != "" then delta.name else call.name,
             call.arguments + delta.arguments,
             if delta.id != "" then delta.id else call.id)
  }

  /** How a client folds one delta into what it has. */
  function Accumulate(m: Message, d: Delta): Message {
    var text := m.(reasoning := m.reasoning + d.reasoning, content := m.content + d.content);
    if d.index.None? then text else
      var calls := Padded(m.toolCalls, d.index.value + 1);
      text.(toolCalls := calls[d.index.value := Merge(calls[d.index.value], d.call)])
  }

  function AccumulateAll(m: Message, deltas: seq<Delta>): Message
    decreases |deltas|
  {
    if deltas == [] then m else AccumulateAll(Accumulate(m, deltas[0]), deltas[1..])
  }

  lemma {:induction false} AccumulateConcat(m: Message, a: seq<Delta>, b: seq<Delta>)
    ensures AccumulateAll(m, a + b) == AccumulateAll(AccumulateAll(m, a), b)
    decreases |a|
  {
    hide Accumulate;
    if a == [] {
      assert a + b == b;
    } else {
      assert (a + b)[1..] == a[1..] + b;
      AccumulateConcat(Accumulate(m, a[0]), a[1..], b);
    }
  }

  /** A call accumulated from nothing by its own delta is the call. */
  lemma {:induction false} NewCallsRebuild(m: Message, calls: seq<ToolCall>, from: nat)
    requires from <= |calls| && m.toolCalls == calls[..from]
    ensures AccumulateAll(m, NewCalls(calls, from)) == m.(toolCalls := calls)
    decreases |calls| - from
  {
    if from == |calls| {
      assert calls[..from] == calls;
    } else {
      var deltas := NewCalls(calls, from);
      var m' := Accumulate(m, deltas[0]);
      assert Padded(m.toolCalls, from + 1) == m.toolCalls + [NO_CALL];
      assert Merge(NO_CALL, calls[from]) == calls[from];
      assert m.reasoning + "" == m.reasoning && m.content + "" == m.content;
      assert m'.toolCalls == calls[..from + 1];
      assert deltas[1..] == NewCalls(calls, from + 1);
      NewCallsRebuild(m', calls, from + 1);
    }
  }

  // ---------- when the deltas rebuild the message ----------

  /** The last call already seen may get longer arguments, a longer name and another id. */
  predicate CallGrows(prev: ToolCall, next: ToolCall) {
    && prev.arguments <= next.arguments
    && prev.name <= next.name
    && (next.id == prev.id || next.id != "")
  }

  /** Texts grow by prefix, earlier calls are frozen, the last one grows, more may follow. */
  predicate Grows(prev: Message, next: Message) {
    && prev.reasoning <= next.reasoning
    && prev.content <= next.content
    && |prev.toolCalls| <= |next.toolCalls|
    && (prev.toolCalls != [] ==>
          var last := |prev.toolCalls| - 1;
          prev.toolCalls[..last] == next.toolCalls[..last] && CallGrows(prev.toolCalls[last], next.toolCalls[last]))
  }

  /** compute_diffs does not throw and a client holding `prev` ends up with `next`. */
  predicate Rebuilds(prev: Message, next: Message) {
    Diffs(prev, next).Done? && AccumulateAll(prev, Diffs(prev, next).value) == next
  }

  function TextAdded(last: string, current: string): string {
    if last <= current then current[|last|..] else ""
  }

  lemma {:induction false} DiffAdds(last: string, current: string)
    ensures StringDiff(last, current).Done? <==> last <= current || current <= last
    ensures StringDiff(last, current).Done? ==> StringDiff(last, current).value == TextAdded(last, current)
    ensures last + TextAdded(last, current) == (if last <= current then current else last)
  {
  }

  /** Folding the text deltas leaves the calls alone and reaches the longer text. */
  lemma {:induction false} TextRebuilds(prev: Message, next: Message)
    requires TextDeltas(prev, next).Done?
    ensures AccumulateAll(prev, TextDeltas(prev, next).value) ==
            prev.(reasoning := prev.reasoning + TextAdded(prev.reasoning, next.reasoning),
                  content := prev.content + TextAdded(prev.content, next.content))
  {
    DiffAdds(prev.reasoning, next.reasoning);
    DiffAdds(prev.content, next.content);
    hide StringDiff, TextAdded;
    var r, c := TextAdded(prev.reasoning, next.reasoning), TextAdded(prev.content, next.content);
    var deltas := TextDeltas(prev, next).value;
    var dr := if prev.reasoning != next.reasoning then [Delta(r, "", None, NO_CALL)] else [];
    var dc := if prev.content != next.content then [Delta("", c, None, NO_CALL)] else [];
    assert deltas == dr + dc;
    AccumulateConcat(prev, dr, dc);
    Unchanged(prev.reasoning, next.reasoning);
    Unchanged(prev.content, next.content);
    OneTextDelta(prev, r, "");
    OneTextDelta(AccumulateAll(prev, dr), "", c);
    assert prev.reasoning + "" == prev.reasoning && prev.content + "" == prev.content;
  }

  lemma {:induction false} Unchanged(last: string, current: string)
    ensures last == current ==> last + TextAdded(last, current) == last
  {
  }

  lemma {:induction false} OneTextDelta(m: Message, r: string, c: string)
    ensures AccumulateAll(m, [Delta(r, c, None, NO_CALL)]) == m.(reasoning := m.reasoning + r, content := m.content + c)
    ensures AccumulateAll(m, []) == m
    ensures m.reasoning + "" == m.reasoning && m.content + "" == m.content
  {
    assert [Delta(r, c, None, NO_CALL)][1..] == [];
  }

  /** What the client's last call becomes. */
  function CallAfter(prev: ToolCall, next: ToolCall): ToolCall {
    ToolCall(if next.name != "" then next.name else prev.name,
             prev.arguments + TextAdded(prev.arguments, next.arguments),
             if next.id != "" then next.id else prev.id)
  }

  lemma {:induction false} CallRebuilds(m: Message, idx: nat, prev: ToolCall, next: ToolCall)
    requires idx < |m.toolCalls| && m.toolCalls[idx] == prev && CallDelta(idx, prev, next).Done?
    ensures AccumulateAll(m, CallDelta(idx, prev, next).value) == m.(toolCalls := m.toolCalls[idx := CallAfter(prev, next)])
  {
    DiffAdds(prev.arguments, next.arguments);
    hide StringDiff;
    var deltas := CallDelta(idx, prev, next).value;
    assert m.reasoning + "" == m.reasoning && m.content + "" == m.content;
    if deltas == [] {
      assert prev.arguments + "" == prev.arguments;
      assert m.toolCalls[idx := prev] == m.toolCalls;
    } else {
      assert deltas[1..] == [];
      assert Padded(m.toolCalls, idx + 1) == m.toolCalls;
    }
  }

  /** The message a client holds after folding the deltas, in full. */
  function After(prev: Message, next: Message): Message
    requires |prev.toolCalls| <= |next.toolCalls|
  {
    var n := |prev.toolCalls|;
    var seen := if n == 0 then [] else prev.toolCalls[n - 1 := CallAfter(prev.toolCalls[n - 1], next.toolCalls[n - 1])];
    Message(prev.reasoning + TextAdded(prev.reasoning, next.reasoning),
            prev.content + TextAdded(prev.content, next.content),
            seen + next.toolCalls[n..])
  }

  lemma {:induction false} DeltasReach(prev: Message, next: Message)
    requires Diffs(prev, next).Done?
    ensures AccumulateAll(prev, Diffs(prev, next).value) == After(prev, next)
  {
    hide TextDeltas, CallDelta, CallAfter, TextAdded, NewCalls, Accumulate;
    var n := |prev.toolCalls|;
    var text, last, added := TextDeltas(prev, next).value, LastCallDeltas(prev, next).value, NewCalls(next.toolCalls, n);
    AccumulateConcat(prev, text + last, added);
    AccumulateConcat(prev, text, last);
    TextRebuilds(prev, next);
    var m := AccumulateAll(prev, text);
    if n > 0 {
      CallRebuilds(m, n - 1, prev.toolCalls[n - 1], next.toolCalls[n - 1]);
    }
    var m' := AccumulateAll(m, last);
    var all := m'.toolCalls + next.toolCalls[n..];
    assert all[..n] == m'.toolCalls && all[n..] == next.toolCalls[n..];
    assert NewCalls(all, n) == added by { SameNewCalls(all, next.toolCalls, n); }
    NewCallsRebuild(m', all, n);
  }

  lemma {:induction false} SameNewCalls(a: seq<ToolCall>, b: seq<ToolCall>, from: nat)
    requires from <= |a| && from <= |b| && a[from..] == b[from..]
    ensures NewCalls(a, from) == NewCalls(b, from)
  {
    assert |a| == |b|;
    assert forall i :: 0 <= i < |a| - from ==> a[from + i] == a[from..][i] && b[from + i] == b[from..][i];
  }

  lemma {:induction false} CallAfterExact(prev: ToolCall, next: ToolCall)
    requires CallDelta(0, prev, next).Done?
    ensures CallAfter(prev, next) == next <==> CallGrows(prev, next)
  {
    DiffAdds(prev.arguments, next.arguments);
  }

  lemma {:induction false} NoThrowWhenGrowing(prev: Message, next: Message)
    requires Grows(prev, next)
    ensures Diffs(prev, next).Done?
  {
    DiffAdds(prev.reasoning, next.reasoning);
    DiffAdds(prev.content, next.content);
    if prev.toolCalls != [] {
      var last := |prev.toolCalls| - 1;
      DiffAdds(prev.toolCalls[last].arguments, next.toolCalls[last].arguments);
    }
  }

  /** compute_diffs works and its deltas rebuild the message exactly when the message grew. */
  lemma {:induction false} RebuildsIffGrows(prev: Message, next: Message)
    ensures Rebuilds(prev, next) <==> Grows(prev, next)
  {
    if Grows(prev, next) { NoThrowWhenGrowing(prev, next); }
    if Diffs(prev, next).Done? {
      DeltasReach(prev, next);
      DiffAdds(prev.reasoning, next.reasoning);
      DiffAdds(prev.content, next.content);
      hide TextAdded, StringDiff, TextDeltas, AccumulateAll, NewCalls;
      CallsExact(prev, next);
    }
  }

  lemma {:induction false} CallsExact(prev: Message, next: Message)
    requires Diffs(prev, next).Done?
    ensures After(prev, next).toolCalls == next.toolCalls <==>
            (prev.toolCalls != [] ==>
               var last := |prev.toolCalls| - 1;
               prev.toolCalls[..last] == next.toolCalls[..last] && CallGrows(prev.toolCalls[last], next.toolCalls[last]))
  {
    var n := |prev.toolCalls|;
    var calls := After(prev, next).toolCalls;
    if n > 0 {
      CallAfterExact(prev.toolCalls[n - 1], next.toolCalls[n - 1]);
      hide CallAfter, CallGrows, TextDeltas, CallDelta;
      assert calls[..n - 1] == prev.toolCalls[..n - 1];
      assert calls[n..] == next.toolCalls[n..];
      assert calls == calls[..n - 1] + [calls[n - 1]] + calls[n..];
      assert next.toolCalls == next.toolCalls[..n - 1] + [next.toolCalls[n - 1]] + next.toolCalls[n..];
    }
  }

  // ---------- whole streams ----------

  predicate GrowsThroughout(messages: seq<Message>) {
    forall i :: 0 < i < |messages| ==> Grows(messages[i - 1], messages[i])
  }

  /** Fold the deltas between consecutive messages; None once compute_diffs throws. */
  function Replay(held: Message, messages: seq<Message>): Option<Message>
    requires messages != []
    decreases |messages|
  {
    if |messages| == 1 then Some(held) else
      var d := Diffs(messages[0], messages[1]);
      if d.Thrown? then None else Replay(AccumulateAll(held, d.value), messages[1..])
  }

  /** Over any growing stream a client that starts with the first message ends with the last. */
  lemma {:induction false} StreamReconstruction(messages: seq<Message>)
    requires messages != [] && GrowsThroughout(messages)
    ensures Replay(messages[0], messages) == Some(messages[|messages| - 1])
    decreases |messages|
  {
    hide Diffs, AccumulateAll, Grows;
    if |messages| > 1 {
      assert Grows(messages[0], messages[1]);
      RebuildsIffGrows(messages[0], messages[1]);
      var rest := messages[1..];
      forall i | 0 < i < |rest| ensures Grows(rest[i - 1], rest[i]) {
        assert Grows(messages[i], messages[i + 1]);
      }
      StreamReconstruction(rest);
    }
  }

  // ---------- what is sent ----------

  /** Neither text continues the other. */
  predicate Unrelated(a: string, b: string) { !(a <= b) && !(b <= a) }

  /** Exactly when no delta can say what changed. */
  lemma {:induction false} ThrowsExactly(prev: Message, next: Message)
    ensures Diffs(prev, next).Thrown? <==>
            || Unrelated(prev.reasoning, next.reasoning) || Unrelated(prev.content, next.content)
            || |next.toolCalls| < |prev.toolCalls|
            || (prev.toolCalls != [] &&
                var (p, n) := (prev.toolCalls[|prev.toolCalls| - 1], next.toolCalls[|prev.toolCalls| - 1]);
                Unrelated(p.arguments, n.arguments) || (p.name != "" && n.name != "" && !(p.name <= n.name)))
  {
    DiffThrows(prev.reasoning, next.reasoning);
    DiffThrows(prev.content, next.content);
    if prev.toolCalls != [] && |prev.toolCalls| <= |next.toolCalls| {
      var idx := |prev.toolCalls| - 1;
      CallThrows(idx, prev.toolCalls[idx], next.toolCalls[idx]);
    }
    hide StringDiff, NewCalls, CallDelta;
  }

  lemma {:induction false} CallThrows(idx: nat, p: ToolCall, n: ToolCall)
    ensures CallDelta(idx, p, n).Thrown? <==>
            Unrelated(p.arguments, n.arguments) || (p.name != "" && n.name != "" && !(p.name <= n.name))
  {
    DiffThrows(p.arguments, n.arguments);
    assert p.name == n.name ==> p.name <= n.name;
    hide StringDiff;
  }

  lemma {:induction false} DiffThrows(last: string, current: string)
    ensures StringDiff(last, current).Thrown? <==> Unrelated(last, current)
    ensures last == current ==> StringDiff(last, current) == Done("")
  {
    assert "" <= current && current[|current|..] == "";
  }

  /** A text or a call, never both. */
  predicate OneThing(d: Delta) {
    if d.index.Some? then d.reasoning == "" && d.content == ""
    else d.call == NO_CALL && (d.reasoning == "" || d.content == "")
  }

  /** A name and an id are sent again only together and only when one of them changed. */
  predicate CallDeltaOf(d: Delta, prev: Message, next: Message) {
    d.index.Some? ==>
      && |prev.toolCalls| <= d.index.value + 1 && d.index.value < |next.toolCalls|
      && var n := next.toolCalls[d.index.value];
         if d.index.value >= |prev.toolCalls| then d.call == n
         else
           var p := prev.toolCalls[d.index.value];
           if p.name == n.name && p.id == n.id then d.call.name == "" && d.call.id == "" && d.call.arguments != ""
           else d.call.name == n.name && d.call.id == n.id
  }

  function Ones(b: bool): nat { if b then 1 else 0 }

  predicate CallChanged(prev: Message, next: Message)
    requires |prev.toolCalls| <= |next.toolCalls|
  {
    prev.toolCalls != [] &&
    var (p, n) := (prev.toolCalls[|prev.toolCalls| - 1], next.toolCalls[|prev.toolCalls| - 1]);
    p.name != n.name || p.id != n.id || !(n.arguments <= p.arguments)
  }

  /** Each delta says one thing, and there is one for each text that changed, for the last call if it did, and for each new call. */
  lemma {:induction false} DeltasSay(prev: Message, next: Message)
    requires Diffs(prev, next).Done?
    ensures |prev.toolCalls| <= |next.toolCalls|
    ensures var d := Diffs(prev, next).value;
            && (forall k :: 0 <= k < |d| ==> OneThing(d[k]) && CallDeltaOf(d[k], prev, next))
            && |d| == Ones(prev.reasoning != next.reasoning) + Ones(prev.content != next.content) +
                      Ones(CallChanged(prev, next)) + (|next.toolCalls| - |prev.toolCalls|)
  {
    hide CallDeltaOf, CallDelta, StringDiff, NewCalls, CallChanged;
    TextDeltasSay(prev, next);
    LastCallSays(prev, next);
    NewCallsSay(prev, next);
  }

  lemma {:induction false} TextDeltasSay(prev: Message, next: Message)
    requires TextDeltas(prev, next).Done?
    ensures var d := TextDeltas(prev, next).value;
            && |d| == Ones(prev.reasoning != next.reasoning) + Ones(prev.content != next.content)
            && forall k :: 0 <= k < |d| ==> OneThing(d[k]) && CallDeltaOf(d[k], prev, next)
  {
    hide StringDiff;
  }

  lemma {:induction false} LastCallSays(prev: Message, next: Message)
    requires |prev.toolCalls| <= |next.toolCalls| && LastCallDeltas(prev, next).Done?
    ensures var d := LastCallDeltas(prev, next).value;
            && |d| == Ones(CallChanged(prev, next))
            && forall k :: 0 <= k < |d| ==> OneThing(d[k]) && CallDeltaOf(d[k], prev, next)
  {
  }

  lemma {:induction false} NewCallsSay(prev: Message, next: Message)
    requires |prev.toolCalls| <= |next.toolCalls|
    ensures var d := NewCalls(next.toolCalls, |prev.toolCalls|);
            && |d| == |next.toolCalls| - |prev.toolCalls|
            && forall k :: 0 <= k < |d| ==> OneThing(d[k]) && CallDeltaOf(d[k], prev, next)
  {
  }

  /** A message that did not change sends nothing. */
  lemma {:induction false} NothingToSend(m: Message)
    ensures Diffs(m, m) == Done([])
  {
    DiffThrows(m.reasoning, m.reasoning);
    DiffThrows(m.content, m.content);
    if m.toolCalls != [] { SameCall(|m.toolCalls| - 1, m.toolCalls[|m.toolCalls| - 1]); }
    hide StringDiff, CallDelta;
    assert NewCalls(m.toolCalls, |m.toolCalls|) == [];
    assert TextDeltas(m, m).value == [];
    assert LastCallDeltas(m, m).value == [];
  }

  lemma {:induction false} SameCall(idx: nat, call: ToolCall)
    ensures CallDelta(idx, call, call) == Done([])
  {
    DiffThrows(call.arguments, call.arguments);
    hide StringDiff;
  }

  // ---------- stable tool-call ids ----------

  /** The ids after one more message has been given ids; `generate(k)` is the k-th generated id. */
  function ExtendCache(cache: seq<string>, calls: seq<ToolCall>, generate: nat -> string, used: nat): (r: (seq<string>, nat))
    ensures cache <= r.0 && |calls| <= |r.0|
    ensures r.1 >= used
    decreases |calls| - |cache|
  {
    if |calls| <= |cache| then (cache, used)
    else
      var id := calls[|cache|].id;
      if id == "" then ExtendCache(cache + [generate(used)], calls, generate, used + 1)
      else ExtendCache(cache + [id], calls, generate, used)
  }

  function WithIds(calls: seq<ToolCall>, ids: seq<string>): (r: seq<ToolCall>)
    requires |calls| <= |ids|
    ensures |r| == |calls|
  {
    seq(|calls|, i requires 0 <= i < |calls| => calls[i].(id := ids[i]))
  }

  /** A source of generated ids. */
  class IdSource {
    const stream: nat -> string
    var used: nat

    constructor (stream: nat -> string)
      ensures this.stream == stream && used == 0
    {
      this.stream := stream;
      used := 0;
    }

    method Next() returns (id: string)
      modifies this
      ensures id == stream(old(used)) && used == old(used) + 1
    {
      id := stream(used);
      used := used + 1;
    }
  }

  /** The tool calls of a message and the ids given out so far, both updated in place. */
  class CallIds {
    var toolCalls: seq<ToolCall>
    var cache: seq<string>

    constructor (toolCalls: seq<ToolCall>, cache: seq<string>)
      ensures this.toolCalls == toolCalls && this.cache == cache
    {
      this.toolCalls, this.cache := toolCalls, cache;
    }

    method SetToolCallIds(source: IdSource)
      modifies this, source
      ensures (cache, source.used) == ExtendCache(old(cache), old(toolCalls), source.stream, old(source.used))
      ensures toolCalls == WithIds(old(toolCalls), cache)
    {
      ghost var calls, goal := toolCalls, ExtendCache(cache, toolCalls, source.stream, source.used);
      var i := 0;
      while i < |toolCalls|
        invariant 0 <= i <= |calls| == |toolCalls|
        invariant i <= |cache| && (i < |cache| || |cache| == i)
        invariant |cache| > |old(cache)| ==> |cache| == i
        invariant ExtendCache(cache, calls, source.stream, source.used) == goal
        invariant forall j :: 0 <= j < |calls| ==> toolCalls[j] == if j < i then calls[j].(id := cache[j]) else calls[j]
      {
        if |cache| <= i {
          var id := toolCalls[i].id;
          if id == "" {
            id := source.Next();
          }
          cache := cache + [id];
        }
        toolCalls := toolCalls[i := toolCalls[i].(id := cache[i])];
        i := i + 1;
      }
    }
  }

  /** Give ids to each message of a stream in turn, with one cache. */
  function Stamped(messages: seq<Message>, cache: seq<string>, generate: nat -> string, used: nat): (r: seq<Message>)
    ensures |r| == |messages|
    decreases |messages|
  {
    if messages == [] then [] else
      var (ids, used') := ExtendCache(cache, messages[0].toolCalls, generate, used);
      [messages[0].(toolCalls := WithIds(messages[0].toolCalls, ids))] + Stamped(messages[1..], ids, generate, used')
  }

  lemma {:induction false} StampedMatchesCache(messages: seq<Message>, cache: seq<string>, generate: nat -> string, used: nat, j: nat, i: nat)
    requires j < |messages| && i < |messages[j].toolCalls|
    ensures |Stamped(messages, cache, generate, used)[j].toolCalls| == |messages[j].toolCalls|
    ensures Stamped(messages, cache, generate, used)[j] == messages[j].(toolCalls := Stamped(messages, cache, generate, used)[j].toolCalls)
    ensures var c := Stamped(messages, cache, generate, used)[j].toolCalls[i]; c == messages[j].toolCalls[i].(id := c.id)
    ensures i < |cache| ==> Stamped(messages, cache, generate, used)[j].toolCalls[i].id == cache[i]
    decreases |messages|
  {
    var (ids, used') := ExtendCache(cache, messages[0].toolCalls, generate, used);
    if j > 0 { StampedMatchesCache(messages[1..], ids, generate, used', j - 1, i); }
  }

  function Larger(a: nat, b: nat): nat { if a < b then b else a }

  function Smaller(a: nat, b: nat): nat { if a < b then a else b }

  /** How many of the calls from one index to another come without an id. */
  function Missing(calls: seq<ToolCall>, from: nat, upTo: nat): nat
    requires from <= upTo <= |calls|
  {
    if from == upTo then 0 else Missing(calls, from, upTo - 1) + Ones(calls[upTo - 1].id == "")
  }

  /** An index keeps the id it has; a new one takes the id its call came with, or else the next generated one. */
  function IdGiven(cache: seq<string>, calls: seq<ToolCall>, generate: nat -> string, used: nat, i: nat): string
    requires i < |calls|
  {
    var n := |cache|;
    if n > i then cache[i]
    else if calls[i].id != "" then calls[i].id
    else generate(used + Missing(calls, n, i))
  }

  lemma {:induction false} MissingFirst(calls: seq<ToolCall>, from: nat, upTo: nat)
    requires from < upTo <= |calls|
    ensures Missing(calls, from, upTo) == Ones(calls[from].id == "") + Missing(calls, from + 1, upTo)
    decreases upTo
  {
    if upTo > from + 1 { MissingFirst(calls, from, upTo - 1); }
  }

  lemma {:induction false} CacheExtended(cache: seq<string>, calls: seq<ToolCall>, generate: nat -> string, used: nat)
    ensures var (ids, used') := ExtendCache(cache, calls, generate, used);
            && |ids| == Larger(|cache|, |calls|)
            && used' == used + Missing(calls, Smaller(|cache|, |calls|), |calls|)
            && forall i: nat :: i < |calls| ==> ids[i] == IdGiven(cache, calls, generate, used, i)
    decreases |calls| - |cache|
  {
    if |cache| < |calls| {
      var n, id := |cache|, calls[|cache|].id;
      var cache', used' := cache + [if id == "" then generate(used) else id], used + Ones(id == "");
      CacheExtended(cache', calls, generate, used');
      MissingFirst(calls, n, |calls|);
      forall i: nat | i < |calls| ensures ExtendCache(cache, calls, generate, used).0[i] == IdGiven(cache, calls, generate, used, i) {
        assert ExtendCache(cache, calls, generate, used).0[i] == IdGiven(cache', calls, generate, used', i);
        if i > n { MissingFirst(calls, n, i); }
      }
    }
  }

  /** What the calls of a message are sent with. */
  lemma {:induction false} StampedIds(messages: seq<Message>, cache: seq<string>, generate: nat -> string, used: nat, i: nat)
    requires messages != [] && i < |messages[0].toolCalls|
    ensures |Stamped(messages, cache, generate, used)[0].toolCalls| == |messages[0].toolCalls|
    ensures Stamped(messages, cache, generate, used)[0].toolCalls[i].id == IdGiven(cache, messages[0].toolCalls, generate, used, i)
  {
    CacheExtended(cache, messages[0].toolCalls, generate, used);
    hide ExtendCache, IdGiven;
  }

  /** Once an index has an id, every later message of the stream has it there. */
  lemma {:induction false} IdsStayFixed(messages: seq<Message>, cache: seq<string>, generate: nat -> string, used: nat, j: nat, k: nat, i: nat)
    requires j <= k < |messages| && i < |messages[j].toolCalls| && i < |messages[k].toolCalls|
    ensures |Stamped(messages, cache, generate, used)[j].toolCalls| == |messages[j].toolCalls|
    ensures |Stamped(messages, cache, generate, used)[k].toolCalls| == |messages[k].toolCalls|
    ensures Stamped(messages, cache, generate, used)[j].toolCalls[i].id == Stamped(messages, cache, generate, used)[k].toolCalls[i].id
    decreases |messages|
  {
    StampedMatchesCache(messages, cache, generate, used, j, i);
    StampedMatchesCache(messages, cache, generate, used, k, i);
    var (ids, used') := ExtendCache(cache, messages[0].toolCalls, generate, used);
    if j > 0 {
      IdsStayFixed(messages[1..], ids, generate, used', j - 1, k - 1, i);
    } else if k > 0 {
      StampedMatchesCache(messages[1..], ids, generate, used', k - 1, i);
    }
  }

  /** Growth of everything but the ids, which the parser may add or change at will. */
  predicate GrowsUpToIds(prev: Message, next: Message) {
    && prev.reasoning <= next.reasoning
    && prev.content <= next.content
    && |prev.toolCalls| <= |next.toolCalls|
    && forall i :: 0 <= i < |prev.toolCalls| ==>
         var (p, n) := (prev.toolCalls[i], next.toolCalls[i]);
         if i < |prev.toolCalls| - 1 then p.name == n.name && p.arguments == n.arguments
         else p.name <= n.name && p.arguments <= n.arguments
  }

  lemma {:induction false} StampedGrows(messages: seq<Message>, cache: seq<string>, generate: nat -> string, used: nat, j: nat)
    requires j + 1 < |messages| && GrowsUpToIds(messages[j], messages[j + 1])
    ensures Grows(Stamped(messages, cache, generate, used)[j], Stamped(messages, cache, generate, used)[j + 1])
  {
    var s := Stamped(messages, cache, generate, used);
    var a, b := s[j].toolCalls, s[j + 1].toolCalls;
    StampedShape(messages, cache, generate, used, j);
    StampedShape(messages, cache, generate, used, j + 1);
    hide Stamped;
    forall i: nat | i < |a|
      ensures a[i].id == b[i].id
      ensures a[i] == messages[j].toolCalls[i].(id := a[i].id) && b[i] == messages[j + 1].toolCalls[i].(id := b[i].id)
    {
      StampedMatchesCache(messages, cache, generate, used, j, i);
      StampedMatchesCache(messages, cache, generate, used, j + 1, i);
      IdsStayFixed(messages, cache, generate, used, j, j + 1, i);
    }
  }

  lemma {:induction false} StampedShape(messages: seq<Message>, cache: seq<string>, generate: nat -> string, used: nat, j: nat)
    requires j < |messages|
    ensures var s := Stamped(messages, cache, generate, used)[j];
            s.reasoning == messages[j].reasoning && s.content == messages[j].content && |s.toolCalls| == |messages[j].toolCalls|
    decreases |messages|
  {
    var (ids, used') := ExtendCache(cache, messages[0].toolCalls, generate, used);
    if j > 0 { StampedShape(messages[1..], ids, generate, used', j - 1); }
  }

  /**
   * The server's pipeline: give ids, diff, send, fold. Whatever the parser does
   * with ids, if the rest grows the client ends with the last message sent.
   */
  lemma {:induction false} StampedStreamReconstruction(messages: seq<Message>, cache: seq<string>, generate: nat -> string, used: nat)
    requires messages != [] && forall j :: 0 < j < |messages| ==> GrowsUpToIds(messages[j - 1], messages[j])
    ensures var sent := Stamped(messages, cache, generate, used);
            Replay(sent[0], sent) == Some(sent[|sent| - 1])
  {
    hide Stamped, GrowsUpToIds, Grows;
    var sent := Stamped(messages, cache, generate, used);
    forall j | 0 < j < |sent| ensures Grows(sent[j - 1], sent[j]) {
      StampedGrows(messages, cache, generate, used, j - 1);
    }
    StreamReconstruction(sent);
  }
}
