/** The translated text, read as JSON, means what the Python text meant. */
module PyJsonMeaning {
  import opened Words
  import opened Json
  import opened PyJson

  // ---------- what JSON reads from the translation ----------

  function CodeOf(digits: string): (n: nat)
    ensures n < 0x1_0000
  {
    if FourDigits(digits) then FourHex(digits).value else 0
  }

  /** The items of a translated literal as JSON reads them: a surrogate only together with its partner. */
  function LitRead(double: bool, items: seq<Item>): Option<string>
    decreases |items|
  {
    if items == [] then Some("") else
      match items[0]
      case Raw(c) => if c < ' ' then None else Prepend(c, LitRead(double, items[1..]))
      case Esc(e) =>
        if e == '\'' then (if double then None else Prepend(e, LitRead(double, items[1..])))
        else if SimpleEscape(e).None? then None
        else Prepend(SimpleEscape(e).value, LitRead(double, items[1..]))
      case Uni(digits) =>
        var n := CodeOf(digits);
        if !IsSurrogate(n) then Prepend(n as char, LitRead(double, items[1..]))
        else if IsHigh(n) && |items| > 1 && items[1].Uni? && IsLow(CodeOf(items[1].digits)) then
          Prepend(Astral(n, CodeOf(items[1].digits)), LitRead(double, items[2..]))
        else None
  }

  function Prepend(c: char, rest: Option<string>): Option<string> {
    if rest.None? then None else Some([c] + rest.value)
  }

  function ValueRead(v: Py): Option<Json>
  {
    match v
    case PyNum(text) => if IsNumber(text) then Some(JNum(text)) else None
    case PyBool(b) => Some(JBool(b))
    case PyNone => Some(JNull)
    case PyStr(lit) => var s := LitRead(lit.double, lit.items); if s.None? then None else Some(JStr(s.value))
    case PyList(items, trailing, _) =>
      var r := ItemsRead(items);
      if trailing || r.None? then None else Some(JArr(r.value))
    case PyDict(entries, trailing, _) =>
      var r := EntriesRead(entries);
      if trailing || r.None? then None else Some(JObj(r.value))
  }

  function ItemsRead(items: seq<Slot>): Option<seq<Json>>
  {
    if items == [] then Some([]) else
      var v, rest := ValueRead(items[0].value), ItemsRead(items[1..]);
      if v.None? || rest.None? then None else Some([v.value] + rest.value)
  }

  function EntryRead(e: Entry): Option<(string, Json)>
  {
    var k, v := LitRead(e.key.double, e.key.items), ValueRead(e.value.value);
    if k.None? || v.None? then None else Some((k.value, v.value))
  }

  function EntriesRead(entries: seq<Entry>): Option<seq<(string, Json)>>
  {
    if entries == [] then Some([]) else
      var e, rest := EntryRead(entries[0]), EntriesRead(entries[1..]);
      if e.None? || rest.None? then None else Some([e.value] + rest.value)
  }

  // ---------- literals ----------

  function With<T>(v: Option<T>, rest: string): Option<(T, string)> {
    if v.None? then None else Some((v.value, rest))
  }

  lemma {:induction false} ReadShort(double: bool, item: Item, tail: string)
    requires ItemFormed(double, item) && !item.Uni?
    ensures var t := ItemText(double, item, JsonLike);
            t != "" && t[0] != '"' &&
            ReadChar(t + tail) ==
            match item
            case Raw(c) => if c < ' ' then None else Some((c, tail))
            case Esc(e) =>
              if e == '\'' then (if double then None else Some((e, tail)))
              else if SimpleEscape(e).None? then None else Some((SimpleEscape(e).value, tail))
            case Uni(_) => None
  {
    var t := ItemText(double, item, JsonLike);
    var s := t + tail;
    assert s[|t|..] == tail && s[0] == t[0] && (|t| == 2 ==> s[1] == t[1]);
  }

  lemma {:induction false} CodeOfUni(digits: string, tail: string)
    requires FourDigits(digits)
    ensures var s := ("\\u" + digits) + tail;
            Code(s) == FourHex(digits) && s[6..] == tail && s[0] == '\\' && s[1] == 'u' && |s| >= 6
  {
    var s := ("\\u" + digits) + tail;
    assert s[2..][0] == digits[0] && s[2..][1] == digits[1] && s[2..][2] == digits[2] && s[2..][3] == digits[3];
  }

  /** A `\u` escape stands next in a translated body only where the next item is one. */
  lemma {:induction false} CodeOfBody(double: bool, items: seq<Item>, rest: string)
    requires forall i :: 0 <= i < |items| ==> ItemFormed(double, items[i])
    ensures Code(BodyText(double, items, JsonLike) + ("\"" + rest)) ==
            if items != [] && items[0].Uni? then Some(CodeOf(items[0].digits)) else None
  {
    var end := "\"" + rest;
    var s := BodyText(double, items, JsonLike) + end;
    if items == [] {
      assert s == end;
    } else {
      var t, js := ItemText(double, items[0], JsonLike), BodyText(double, items[1..], JsonLike);
      assert s == t + (js + end);
      if items[0].Uni? {
        CodeOfUni(items[0].digits, js + end);
      } else {
        assert s[0] == t[0] && (|t| == 2 ==> s[1] == t[1]);
      }
    }
  }

  lemma {:induction false} ReadSurrogate(digits: string, tail: string)
    requires FourDigits(digits)
    ensures var n, s := CodeOf(digits), ("\\u" + digits) + tail;
            ReadChar(s) ==
            if !IsSurrogate(n) then Some((n as char, tail))
            else if IsHigh(n) && Code(tail).Some? && IsLow(Code(tail).value) then Some((Astral(n, Code(tail).value), tail[6..]))
            else None
  {
    CodeOfUni(digits, tail);
    var s := ("\\u" + digits) + tail;
    if |tail| >= 6 { assert s[12..] == tail[6..]; }
  }

  lemma {:induction false} ReadOn(s: string, c: char, tail: string)
    requires s != "" && s[0] != '"' && ReadChar(s) == Some((c, tail))
    ensures ReadString(s) == var rest := ReadString(tail);
                             if rest.None? then None else Some(([c] + rest.value.0, rest.value.1))
  {
    hide ReadChar;
  }

  lemma {:induction false} ReadNoMore(s: string)
    requires s != "" && s[0] != '"' && ReadChar(s).None?
    ensures ReadString(s).None?
  {
    hide ReadChar;
  }

  lemma {:induction false} ReadBody(double: bool, items: seq<Item>, rest: string)
    requires forall i :: 0 <= i < |items| ==> ItemFormed(double, items[i])
    ensures ReadString(BodyText(double, items, JsonLike) + ("\"" + rest)) == With(LitRead(double, items), rest)
    decreases |items|
  {
    hide ReadChar, ItemText, ItemFormed, Code, FourHex, SimpleEscape;
    var end := "\"" + rest;
    if items == [] {
      assert "" + end == end && end[1..] == rest;
    } else if items[0].Uni? {
      ReadUni(double, items, rest);
    } else {
      var j, js := ItemText(double, items[0], JsonLike), BodyText(double, items[1..], JsonLike);
      var s := j + (js + end);
      assert (j + js) + end == s;
      ReadShort(double, items[0], js + end);
      ReadBody(double, items[1..], rest);
      hide ReadString, BodyText;
      assert s[0] == j[0];
      if ReadChar(s).Some? { ReadOn(s, ReadChar(s).value.0, js + end); } else { ReadNoMore(s); }
    }
  }

  lemma {:induction false} UniDigits(double: bool, items: seq<Item>, i: nat)
    requires (forall k :: 0 <= k < |items| ==> ItemFormed(double, items[k])) && i < |items| && items[i].Uni?
    ensures FourDigits(items[i].digits)
  {
    assert ItemFormed(double, items[i]);
  }

  /** A surrogate pair, two items and one character. */
  lemma {:induction false} ReadPair(double: bool, items: seq<Item>, rest: string)
    requires |items| > 1 && items[0].Uni? && items[1].Uni? && FourDigits(items[0].digits) && FourDigits(items[1].digits)
    requires IsHigh(CodeOf(items[0].digits)) && IsLow(CodeOf(items[1].digits))
    ensures var s := BodyText(double, items, JsonLike) + ("\"" + rest);
            && s != "" && s[0] == '\\'
            && ReadChar(s) == Some((Astral(CodeOf(items[0].digits), CodeOf(items[1].digits)),
                                    BodyText(double, items[2..], JsonLike) + ("\"" + rest)))
  {
    hide ReadChar, Code, FourHex, Astral, FourDigits, CodeOf;
    var end, js2 := "\"" + rest, BodyText(double, items[2..], JsonLike);
    assert items[1..][1..] == items[2..] && items[1..][0] == items[1];
    var tail := ("\\u" + items[1].digits) + (js2 + end);
    assert BodyText(double, items, JsonLike) + end == ("\\u" + items[0].digits) + tail;
    CodeOfUni(items[1].digits, js2 + end);
    ReadSurrogate(items[0].digits, tail);
    CodeIs(items[1].digits);
  }

  lemma {:induction false} CodeIs(digits: string)
    requires FourDigits(digits)
    ensures FourHex(digits) == Some(CodeOf(digits))
  {
  }

  lemma {:induction false} ReadUni(double: bool, items: seq<Item>, rest: string)
    requires forall i :: 0 <= i < |items| ==> ItemFormed(double, items[i])
    requires items != [] && items[0].Uni?
    ensures ReadString(BodyText(double, items, JsonLike) + ("\"" + rest)) == With(LitRead(double, items), rest)
    decreases |items|, 0
  {
    hide ReadChar, Code, FourHex, ReadString, Astral, ItemFormed, FourDigits, CodeOf;
    var end := "\"" + rest;
    var digits, js := items[0].digits, BodyText(double, items[1..], JsonLike);
    var s := ("\\u" + digits) + (js + end);
    assert BodyText(double, items, JsonLike) + end == s && s != "" && s[0] == '\\';
    UniDigits(double, items, 0);
    var n := CodeOf(digits);
    if IsHigh(n) && |items| > 1 && items[1].Uni? && IsLow(CodeOf(items[1].digits)) {
      UniDigits(double, items, 1);
      ReadPair(double, items, rest);
      ReadBody(double, items[2..], rest);
      ReadOn(s, Astral(n, CodeOf(items[1].digits)), BodyText(double, items[2..], JsonLike) + end);
    } else {
      ReadSurrogate(digits, js + end);
      CodeOfBody(double, items[1..], rest);
      if !IsSurrogate(n) {
        ReadBody(double, items[1..], rest);
        ReadOn(s, n as char, js + end);
      } else {
        if |items| > 1 { assert items[1..][0] == items[1]; }
        ReadNoMore(s);
      }
    }
  }

  lemma {:induction false} ReadLit(lit: Lit, rest: string)
    requires LitFormed(lit)
    ensures LitText(lit, JsonLike) != "" && LitText(lit, JsonLike)[0] == '"'
    ensures ReadString((LitText(lit, JsonLike) + rest)[1..]) == With(LitRead(lit.double, lit.items), rest)
  {
    hide ReadString, BodyText, ItemFormed, LitRead;
    ReadBody(lit.double, lit.items, rest);
    assert (LitText(lit, JsonLike) + rest)[1..] == BodyText(lit.double, lit.items, JsonLike) + ("\"" + rest);
  }

  // ---------- values ----------

  predicate EndsToken(rest: string) { rest == "" || !IsTokenChar(rest[0]) }

  lemma {:induction false} TokenRunExact(text: string, rest: string)
    requires EndsToken(rest) && forall i :: 0 <= i < |text| ==> IsTokenChar(text[i])
    ensures TokenRun(text + rest) == |text|
  {
    if text == "" {
      assert text + rest == rest;
    } else {
      assert (text + rest)[1..] == text[1..] + rest;
      TokenRunExact(text[1..], rest);
    }
  }

  lemma {:induction false} ReadNum(text: string, rest: string)
    requires NumFormed(text) && EndsToken(rest)
    ensures ReadValue(text + rest) == With(if IsNumber(text) then Some(JNum(text)) else None, rest)
  {
    hide IsNumber;
    TokenRunExact(text, rest);
    var s := text + rest;
    assert s[0] == text[0] && IsTokenChar(text[0]);
    assert s[..|text|] == text && s[|text|..] == rest;
  }

  lemma {:induction false} ReadKeyword(token: string, rest: string)
    requires token in {"null", "true", "false"}
    ensures ReadValue(token + rest) ==
            Some((if token == "null" then JNull else JBool(token == "true"), rest))
  {
    var s := token + rest;
    assert s[|token|..] == rest && s[0] == token[0] && token <= s;
  }

  lemma {:induction false} ReadStr(lit: Lit, rest: string)
    requires LitFormed(lit)
    ensures ReadValue(LitText(lit, JsonLike) + rest) == With(ValueRead(PyStr(lit)), rest)
  {
    hide ReadString, LitText, LitRead;
    ReadLit(lit, rest);
    assert (LitText(lit, JsonLike) + rest)[0] == '"';
  }

  /** A value opens with neither white space nor a closing mark. */
  lemma {:induction false} Opening(v: Py)
    requires Formed(v)
    ensures var t := Text(v, JsonLike);
            t != "" && !IsSpace(t[0]) && t[0] != ']' && t[0] != '}'
  {
  }

  lemma {:induction false} NoSpace(s: string)
    requires s != "" && !IsSpace(s[0])
    ensures SkipSpace(s) == s
  {
  }

  lemma {:induction false} OpeningSlot(s: Slot, rest: string)
    requires SlotFormed(s)
    ensures var t := SkipSpace(SlotText(s, JsonLike) + rest); t != "" && t[0] != ']' && t[0] != '}'
  {
    Opening(s.value);
    hide Text, Formed;
    SkipGap(s.before, Text(s.value, JsonLike) + s.after + rest);
    NoSpace(Text(s.value, JsonLike) + s.after + rest);
    assert SlotText(s, JsonLike) + rest == s.before + (Text(s.value, JsonLike) + s.after + rest);
  }

  lemma {:induction false} OpeningEntry(e: Entry, rest: string)
    requires EntryFormed(e)
    ensures var t := SkipSpace(EntryText(e, JsonLike) + rest); t != "" && t[0] != ']' && t[0] != '}'
  {
    hide SlotText, SlotFormed;
    var more := LitText(e.key, JsonLike) + (e.gap + (":" + SlotText(e.value, JsonLike)));
    SkipGap(e.before, more + rest);
    NoSpace(more + rest);
    assert EntryText(e, JsonLike) + rest == e.before + (more + rest);
  }

  /** An array whose inside starts with something. */
  lemma {:induction false} ReadArray(inner: string)
    requires var t := SkipSpace(inner); t != "" && t[0] != ']'
    ensures ReadValue("[" + inner) ==
            var items := ReadItems(inner);
            if items.None? then None else Some((JArr(items.value.0), items.value.1))
  {
    hide ReadItems, ReadMembers, ReadString, TokenRun;
    var s := "[" + inner;
    assert s[0] == '[' && s[1..] == inner;
    NoSpace(s);
  }

  lemma {:induction false} ReadObject(inner: string)
    requires var t := SkipSpace(inner); t != "" && t[0] != '}'
    ensures ReadValue("{" + inner) ==
            var members := ReadMembers(inner);
            if members.None? then None else Some((JObj(members.value.0), members.value.1))
  {
    hide ReadItems, ReadMembers, ReadString, TokenRun;
    var s := "{" + inner;
    assert s[0] == '{' && s[1..] == inner;
    NoSpace(s);
  }

  lemma {:induction false} ReadEmpty(gap: string, rest: string)
    requires AllSpace(gap)
    ensures ReadValue("[" + (gap + ("]" + rest))) == Some((JArr([]), rest))
    ensures ReadValue("{" + (gap + ("}" + rest))) == Some((JObj([]), rest))
  {
    var a, o := "[" + (gap + ("]" + rest)), "{" + (gap + ("}" + rest));
    SkipGap(gap, "]" + rest);
    SkipGap(gap, "}" + rest);
    NoSpace("]" + rest);
    NoSpace("}" + rest);
    hide ReadItems, ReadMembers;
    assert a[0] == '[' && a[1..] == gap + ("]" + rest) && ("]" + rest)[1..] == rest;
    assert o[0] == '{' && o[1..] == gap + ("}" + rest) && ("}" + rest)[1..] == rest;
  }

  /** Nothing is read where a mark stands in place of a value. */
  lemma {:induction false} ReadTrailing(gap: string, close: char, rest: string)
    requires AllSpace(gap) && close in {']', '}', ','}
    ensures ReadItems(gap + ([close] + rest)).None? && ReadMembers(gap + ([close] + rest)).None?
    ensures ReadValue(gap + ([close] + rest)).None?
  {
    SkipGap(gap, [close] + rest);
    NoSpace([close] + rest);
  }

  lemma {:induction false} SpaceEnds(gap: string, rest: string)
    requires AllSpace(gap) && EndsToken(rest)
    ensures EndsToken(gap + rest)
  {
    if gap != "" { assert (gap + rest)[0] == gap[0]; }
  }

  /** Reading the JSON spelling of a value gives what was said to be read of it. */
  lemma {:induction false} ReadText(v: Py, rest: string)
    requires Formed(v) && EndsToken(rest)
    ensures ReadValue(Text(v, JsonLike) + rest) == With(ValueRead(v), rest)
    decreases v, 1
  {
    hide ReadValue, LitText, LitRead, LitFormed, NumFormed, IsNumber, ItemsText, EntriesText, SlotFormed, EntryFormed;
    match v
    case PyNum(text) => ReadNum(text, rest);
    case PyBool(b) => ReadKeyword(if b then "true" else "false", rest);
    case PyNone => ReadKeyword("null", rest);
    case PyStr(lit) => ReadStr(lit, rest);
    case PyList(items, trailing, gap) =>
      if items != [] { ReadItemsText(items, trailing, gap, rest); }
      ReadList(items, trailing, gap, rest);
    case PyDict(entries, trailing, gap) =>
      if entries != [] { ReadEntriesText(entries, trailing, gap, rest); }
      ReadDict(entries, trailing, gap, rest);
  }

  lemma {:induction false} ListText(items: seq<Slot>, trailing: bool, gap: string, rest: string)
    ensures var end := Ending(items == [], trailing, gap) + "]";
            Text(PyList(items, trailing, gap), JsonLike) + rest == "[" + (ItemsText(items, JsonLike) + (end + rest))
  {
    hide ItemsText;
  }

  lemma {:induction false} DictText(entries: seq<Entry>, trailing: bool, gap: string, rest: string)
    ensures var end := Ending(entries == [], trailing, gap) + "}";
            Text(PyDict(entries, trailing, gap), JsonLike) + rest == "{" + (EntriesText(entries, JsonLike) + (end + rest))
  {
    hide EntriesText;
  }

  lemma {:induction false} ReadList(items: seq<Slot>, trailing: bool, gap: string, rest: string)
    requires AllSpace(gap) && (items != [] ==> SlotFormed(items[0])) && (trailing ==> items != [])
    requires items != [] ==> ReadItems(ItemsText(items, JsonLike) + ((Ending(false, trailing, gap) + "]") + rest)) ==
                             if trailing then None else With(ItemsRead(items), rest)
    ensures var v := PyList(items, trailing, gap); ReadValue(Text(v, JsonLike) + rest) == With(ValueRead(v), rest)
  {
    hide ReadValue, ReadItems, ItemsText, ItemsRead, SlotFormed, Text, SkipSpace, AllSpace;
    ListText(items, trailing, gap, rest);
    if items == [] {
      NoItems();
      ReadEmpty(gap, rest);
      assert "" + ((gap + "]") + rest) == gap + ("]" + rest);
    } else {
      var end := Ending(false, trailing, gap) + "]";
      OpeningItems(items, end + rest);
      ReadArray(ItemsText(items, JsonLike) + (end + rest));
    }
  }

  lemma {:induction false} ReadDict(entries: seq<Entry>, trailing: bool, gap: string, rest: string)
    requires AllSpace(gap) && (entries != [] ==> EntryFormed(entries[0])) && (trailing ==> entries != [])
    requires entries != [] ==> ReadMembers(EntriesText(entries, JsonLike) + ((Ending(false, trailing, gap) + "}") + rest)) ==
                               if trailing then None else With(EntriesRead(entries), rest)
    ensures var v := PyDict(entries, trailing, gap); ReadValue(Text(v, JsonLike) + rest) == With(ValueRead(v), rest)
  {
    hide ReadValue, ReadMembers, EntriesText, EntriesRead, EntryFormed, Text, SkipSpace, AllSpace;
    DictText(entries, trailing, gap, rest);
    if entries == [] {
      NoItems();
      ReadEmpty(gap, rest);
      assert "" + ((gap + "}") + rest) == gap + ("}" + rest);
    } else {
      var end := Ending(false, trailing, gap) + "}";
      OpeningEntries(entries, end + rest);
      ReadObject(EntriesText(entries, JsonLike) + (end + rest));
    }
  }

  lemma {:induction false} NoItems()
    ensures ItemsText([], JsonLike) == "" && EntriesText([], JsonLike) == ""
    ensures ItemsRead([]) == Some([]) && EntriesRead([]) == Some([])
  {
  }

  lemma {:induction false} OpeningItems(items: seq<Slot>, rest: string)
    requires items != [] && SlotFormed(items[0])
    ensures var t := SkipSpace(ItemsText(items, JsonLike) + rest); t != "" && t[0] != ']'
  {
    var more := if |items| == 1 then rest else ("," + ItemsText(items[1..], JsonLike)) + rest;
    OpeningSlot(items[0], more);
    hide SlotText, SlotFormed;
    assert ItemsText(items, JsonLike) + rest == SlotText(items[0], JsonLike) + more;
  }

  lemma {:induction false} OpeningEntries(entries: seq<Entry>, rest: string)
    requires entries != [] && EntryFormed(entries[0])
    ensures var t := SkipSpace(EntriesText(entries, JsonLike) + rest); t != "" && t[0] != '}'
  {
    var more := if |entries| == 1 then rest else ("," + EntriesText(entries[1..], JsonLike)) + rest;
    OpeningEntry(entries[0], more);
    hide EntryText, EntryFormed;
    assert EntriesText(entries, JsonLike) + rest == EntryText(entries[0], JsonLike) + more;
  }

  lemma {:induction false} ReadSlot(s: Slot, rest: string)
    requires SlotFormed(s) && EndsToken(rest)
    ensures ReadValue(SlotText(s, JsonLike) + rest) == With(ValueRead(s.value), s.after + rest)
    decreases s, 0
  {
    hide ReadValue, Text, ValueRead, Formed;
    var t := Text(s.value, JsonLike);
    SpaceEnds(s.after, rest);
    ReadText(s.value, s.after + rest);
    ReadValueAfterGap(s.before, t + (s.after + rest));
    assert SlotText(s, JsonLike) + rest == s.before + (t + (s.after + rest));
  }

  /** The last item of an array, when `v` was read of it. */
  lemma {:induction false} ReadLastItem(s: string, v: Option<Json>, gap: string, rest: string)
    requires AllSpace(gap) && ReadValue(s) == With(v, gap + ("]" + rest))
    ensures ReadItems(s) == if v.None? then None else Some(([v.value], rest))
  {
    hide ReadValue;
    SkipGap(gap, "]" + rest);
    NoSpace("]" + rest);
    assert ("]" + rest)[1..] == rest;
  }

  lemma {:induction false} ReadNextItem(s: string, v: Option<Json>, gap: string, more: string)
    requires AllSpace(gap) && ReadValue(s) == With(v, gap + ("," + more))
    ensures ReadItems(s) ==
            var items := ReadItems(more);
            if v.None? || items.None? then None else Some(([v.value] + items.value.0, items.value.1))
  {
    hide ReadValue;
    SkipGap(gap, "," + more);
    NoSpace("," + more);
    assert ("," + more)[1..] == more;
  }

  lemma {:induction false} EndingText(trailing: bool, gap: string, close: string, rest: string)
    ensures (Ending(false, trailing, gap) + close) + rest == if trailing then "," + (gap + (close + rest)) else close + rest
  {
  }

  /** The only item left, with or without a comma after it. */
  lemma {:induction false} ReadOneItem(s: Slot, trailing: bool, gap: string, rest: string)
    requires SlotFormed(s) && AllSpace(gap)
    ensures ReadItems(SlotText(s, JsonLike) + ((Ending(false, trailing, gap) + "]") + rest)) ==
            if trailing || ValueRead(s.value).None? then None else Some(([ValueRead(s.value).value], rest))
    decreases s, 1
  {
    SlotGaps(s);
    hide ReadValue, ReadItems, SlotText, SlotFormed, ValueRead, AllSpace, Formed, Ending;
    EndingText(trailing, gap, "]", rest);
    var end := if trailing then "," + (gap + ("]" + rest)) else "]" + rest;
    ReadSlot(s, end);
    if trailing {
      ReadTrailing(gap, ']', rest);
      ReadNextItem(SlotText(s, JsonLike) + end, ValueRead(s.value), s.after, gap + ("]" + rest));
    } else {
      ReadLastItem(SlotText(s, JsonLike) + end, ValueRead(s.value), s.after, rest);
    }
  }

  lemma {:induction false} ReadItemsText(items: seq<Slot>, trailing: bool, gap: string, rest: string)
    requires items != [] && (forall i :: 0 <= i < |items| ==> SlotFormed(items[i])) && AllSpace(gap)
    ensures ReadItems(ItemsText(items, JsonLike) + ((Ending(false, trailing, gap) + "]") + rest)) ==
            if trailing then None else With(ItemsRead(items), rest)
    decreases items, 0
  {
    SlotGaps(items[0]);
    hide ReadValue, ReadItems, SlotText, SlotFormed, ValueRead, AllSpace, Formed, Ending;
    var v := ValueRead(items[0].value);
    if |items| == 1 {
      assert items[1..] == [] && (v.Some? ==> [v.value] + [] == [v.value]);
      ReadOneItem(items[0], trailing, gap, rest);
    } else {
      var first := SlotText(items[0], JsonLike);
      var more := ItemsText(items[1..], JsonLike) + ((Ending(false, trailing, gap) + "]") + rest);
      assert ItemsText(items, JsonLike) + ((Ending(false, trailing, gap) + "]") + rest) == first + ("," + more);
      ReadSlot(items[0], "," + more);
      ReadNextItem(first + ("," + more), v, items[0].after, more);
      ReadItemsText(items[1..], trailing, gap, rest);
    }
  }

  lemma {:induction false} SlotGaps(s: Slot)
    requires SlotFormed(s)
    ensures AllSpace(s.before) && AllSpace(s.after) && Formed(s.value)
  {
  }

  lemma {:induction false} ReadEntryKey(key: Lit, gap: string, tail: string)
    requires LitFormed(key) && AllSpace(gap)
    ensures ReadKey(LitText(key, JsonLike) + (gap + (":" + tail))) == With(LitRead(key.double, key.items), tail)
  {
    hide ReadString, LitText, LitRead;
    ReadLit(key, gap + (":" + tail));
    var s := LitText(key, JsonLike) + (gap + (":" + tail));
    assert s[0] == '"';
    NoSpace(s);
    SkipGap(gap, ":" + tail);
    NoSpace(":" + tail);
    assert (":" + tail)[1..] == tail;
  }

  lemma {:induction false} EntryGaps(e: Entry)
    requires EntryFormed(e)
    ensures AllSpace(e.before) && LitFormed(e.key) && AllSpace(e.gap) && SlotFormed(e.value) && AllSpace(e.value.after)
  {
  }

  /** A member up to what follows its value. */
  lemma {:induction false} ReadEntry(e: Entry, rest: string)
    requires EntryFormed(e) && EndsToken(rest)
    ensures ReadKey(EntryText(e, JsonLike) + rest) == With(LitRead(e.key.double, e.key.items), SlotText(e.value, JsonLike) + rest)
    ensures ReadValue(SlotText(e.value, JsonLike) + rest) == With(ValueRead(e.value.value), e.value.after + rest)
    decreases e, 0
  {
    EntryGaps(e);
    hide ReadValue, ReadKey, SlotText, SlotFormed, EntryFormed, AllSpace, EndsToken, EntryText, With, LitRead, ValueRead;
    ReadSlot(e.value, rest);
    ReadEntryName(e, rest);
  }

  lemma {:induction false} ReadEntryName(e: Entry, rest: string)
    requires AllSpace(e.before) && LitFormed(e.key) && AllSpace(e.gap)
    ensures ReadKey(EntryText(e, JsonLike) + rest) == With(LitRead(e.key.double, e.key.items), SlotText(e.value, JsonLike) + rest)
  {
    hide ReadKey, SlotText, LitText, LitFormed, LitRead, AllSpace, With;
    var tail := SlotText(e.value, JsonLike) + rest;
    var s := LitText(e.key, JsonLike) + (e.gap + (":" + tail));
    ReadEntryKey(e.key, e.gap, tail);
    ReadMembersAfterGap(e.before, s);
    assert EntryText(e, JsonLike) + rest == e.before + s;
  }

  /** The last member of an object, when `v` was read of its value. */
  lemma {:induction false} ReadLastMember(s: string, k: Option<string>, tail: string, v: Option<Json>, gap: string, rest: string)
    requires AllSpace(gap) && ReadKey(s) == With(k, tail) && ReadValue(tail) == With(v, gap + ("}" + rest))
    ensures ReadMembers(s) == if k.None? || v.None? then None else Some(([(k.value, v.value)], rest))
  {
    hide ReadValue, ReadKey;
    SkipGap(gap, "}" + rest);
    NoSpace("}" + rest);
    assert ("}" + rest)[1..] == rest;
  }

  lemma {:induction false} ReadNextMember(s: string, k: Option<string>, tail: string, v: Option<Json>, gap: string, more: string)
    requires AllSpace(gap) && ReadKey(s) == With(k, tail) && ReadValue(tail) == With(v, gap + ("," + more))
    ensures ReadMembers(s) ==
            var members := ReadMembers(more);
            if k.None? || v.None? || members.None? then None
            else Some(([(k.value, v.value)] + members.value.0, members.value.1))
  {
    hide ReadValue, ReadKey;
    SkipGap(gap, "," + more);
    NoSpace("," + more);
    assert ("," + more)[1..] == more;
  }

  lemma {:induction false} ReadOneEntry(e: Entry, trailing: bool, gap: string, rest: string)
    requires EntryFormed(e) && AllSpace(gap)
    ensures ReadMembers(EntryText(e, JsonLike) + ((Ending(false, trailing, gap) + "}") + rest)) ==
            if trailing || EntryRead(e).None? then None else Some(([EntryRead(e).value], rest))
    decreases e, 1
  {
    EntryGaps(e);
    hide ReadValue, ReadMembers, ReadKey, EntryText, EntryFormed, ValueRead, LitRead, LitFormed, SlotText, SlotFormed, AllSpace, Ending;
    EndingText(trailing, gap, "}", rest);
    var end := if trailing then "," + (gap + ("}" + rest)) else "}" + rest;
    var k, v := LitRead(e.key.double, e.key.items), ValueRead(e.value.value);
    ReadEntry(e, end);
    if trailing {
      ReadTrailing(gap, '}', rest);
      ReadNextMember(EntryText(e, JsonLike) + end, k, SlotText(e.value, JsonLike) + end, v, e.value.after, gap + ("}" + rest));
    } else {
      ReadLastMember(EntryText(e, JsonLike) + end, k, SlotText(e.value, JsonLike) + end, v, e.value.after, rest);
    }
  }

  lemma {:induction false} ReadEntriesText(entries: seq<Entry>, trailing: bool, gap: string, rest: string)
    requires entries != [] && (forall i :: 0 <= i < |entries| ==> EntryFormed(entries[i])) && AllSpace(gap)
    ensures ReadMembers(EntriesText(entries, JsonLike) + ((Ending(false, trailing, gap) + "}") + rest)) ==
            if trailing then None else With(EntriesRead(entries), rest)
    decreases entries, 0
  {
    var e := entries[0];
    EntryGaps(e);
    hide ReadValue, ReadMembers, ReadKey, EntryText, EntryFormed, ValueRead, LitRead, LitFormed, SlotText, SlotFormed, AllSpace, Ending;
    if |entries| == 1 {
      assert entries[1..] == [] && (EntryRead(e).Some? ==> [EntryRead(e).value] + [] == [EntryRead(e).value]);
      ReadOneEntry(e, trailing, gap, rest);
    } else {
      var first, k, v := EntryText(e, JsonLike), LitRead(e.key.double, e.key.items), ValueRead(e.value.value);
      var more := EntriesText(entries[1..], JsonLike) + ((Ending(false, trailing, gap) + "}") + rest);
      assert EntriesText(entries, JsonLike) + ((Ending(false, trailing, gap) + "}") + rest) == first + ("," + more);
      ReadEntry(e, "," + more);
      ReadNextMember(first + ("," + more), k, SlotText(e.value, JsonLike) + ("," + more), v, e.value.after, more);
      ReadEntriesText(entries[1..], trailing, gap, rest);
    }
  }

  // ---------- which values survive ----------

  /** An escape that JSON reads as Python does, or a character that JSON takes bare. */
  predicate ItemSurvives(double: bool, item: Item) {
    match item
    case Raw(c) => c >= ' '
    case Esc(e) => if e == '\'' then !double else e != '/' && SimpleEscape(e).Some?
    case Uni(digits) => !IsSurrogate(CodeOf(digits))
  }

  predicate LitSurvives(lit: Lit) {
    forall i :: 0 <= i < |lit.items| ==> ItemSurvives(lit.double, lit.items[i])
  }

  predicate EntrySurvives(e: Entry) { LitSurvives(e.key) && Survives(e.value.value) }

  /** Every literal survives, every number is written as JSON writes it, and no comma trails. */
  predicate Survives(v: Py) {
    match v
    case PyNum(text) => IsNumber(text)
    case PyStr(lit) => LitSurvives(lit)
    case PyList(items, trailing, _) => !trailing && forall i :: 0 <= i < |items| ==> Survives(items[i].value)
    case PyDict(entries, trailing, _) => !trailing && forall i :: 0 <= i < |entries| ==> EntrySurvives(entries[i])
    case _ => true
  }

  predicate AllSurvive(double: bool, items: seq<Item>) {
    forall i :: 0 <= i < |items| ==> ItemSurvives(double, items[i])
  }

  lemma {:induction false} AllSurviveCons(double: bool, items: seq<Item>)
    requires items != []
    ensures AllSurvive(double, items) <==> ItemSurvives(double, items[0]) && AllSurvive(double, items[1..])
  {
    hide ItemSurvives;
    if ItemSurvives(double, items[0]) && AllSurvive(double, items[1..]) {
      forall i | 0 <= i < |items| ensures ItemSurvives(double, items[i]) {
        if i > 0 { assert items[1..][i - 1] == items[i]; }
      }
    }
    if AllSurvive(double, items) {
      forall i | 0 <= i < |items| - 1 ensures ItemSurvives(double, items[1..][i]) { assert items[1..][i] == items[i + 1]; }
    }
  }

  lemma {:induction false} SecondString(items: seq<Item>)
    requires |items| > 1
    ensures LitString(items) == ItemString(items[0]) + (ItemString(items[1]) + LitString(items[2..]))
  {
    assert items[1..][0] == items[1] && items[1..][1..] == items[2..];
  }

  /** Of items that survive JSON reads what Python means. */
  lemma {:induction false} LitReadSame(double: bool, items: seq<Item>)
    requires (forall i :: 0 <= i < |items| ==> ItemFormed(double, items[i])) && AllSurvive(double, items)
    ensures LitRead(double, items) == Some(LitString(items))
  {
    if items != [] {
      AllSurviveCons(double, items);
      assert ItemFormed(double, items[0]);
      LitReadSame(double, items[1..]);
      hide FourHex, Astral, AllSurvive;
    }
  }

  /** What JSON reads is never longer than what Python means, and shorter where an item does not survive. */
  lemma {:induction false} LitReadShort(double: bool, items: seq<Item>)
    requires forall i :: 0 <= i < |items| ==> ItemFormed(double, items[i])
    ensures var r := LitRead(double, items);
            r.Some? ==> |r.value| <= |LitString(items)| && (|r.value| == |LitString(items)| ==> AllSurvive(double, items))
    decreases |items|
  {
    if items != [] {
      hide AllSurvive;
      AllSurviveCons(double, items);
      assert ItemFormed(double, items[0]);
      LitReadShort(double, items[1..]);
      if items[0].Uni? && |items| > 1 && items[1].Uni? && IsHigh(CodeOf(items[0].digits)) {
        assert ItemFormed(double, items[1]);
        LitReadShort(double, items[2..]);
        SecondString(items);
      }
      hide FourHex, Astral;
    }
  }

  lemma {:induction false} LitExact(lit: Lit)
    requires LitFormed(lit)
    ensures LitRead(lit.double, lit.items) == Some(LitString(lit.items)) <==> LitSurvives(lit)
  {
    LitReadShort(lit.double, lit.items);
    if LitSurvives(lit) { LitReadSame(lit.double, lit.items); }
  }

  lemma {:induction false} SameCons<T>(a: T, b: T, s: seq<T>, t: seq<T>)
    ensures [a] + s == [b] + t <==> a == b && s == t
  {
    assert ([a] + s)[0] == a && ([b] + t)[0] == b && ([a] + s)[1..] == s && ([b] + t)[1..] == t;
  }

  /** What is read is what was meant exactly of the values that survive. */
  lemma {:induction false} ValueExact(v: Py)
    requires Formed(v)
    ensures ValueRead(v) == Some(Meaning(v)) <==> Survives(v)
    decreases v, 1
  {
    hide LitRead, LitString, LitSurvives, LitFormed, NumFormed, IsNumber, SlotFormed, EntryFormed, EntrySurvives, ItemsRead, EntriesRead,
         Meanings, EntryMeanings;
    match v
    case PyNum(_) =>
    case PyStr(lit) => LitExact(lit);
    case PyList(items, _, _) => ItemsExact(items);
    case PyDict(entries, _, _) => EntriesExact(entries);
    case _ =>
  }

  lemma {:induction false} ItemsExact(items: seq<Slot>)
    requires forall i :: 0 <= i < |items| ==> SlotFormed(items[i])
    ensures ItemsRead(items) == Some(Meanings(items)) <==> forall i :: 0 <= i < |items| ==> Survives(items[i].value)
    decreases items, 0
  {
    if items != [] {
      SlotGaps(items[0]);
      ValueExact(items[0].value);
      ItemsExact(items[1..]);
      hide ValueRead, Survives, Meaning, SlotFormed;
      var v, rest := ValueRead(items[0].value), ItemsRead(items[1..]);
      if v.Some? && rest.Some? { SameCons(v.value, Meaning(items[0].value), rest.value, Meanings(items[1..])); }
      assert (forall i :: 0 <= i < |items| ==> Survives(items[i].value)) <==>
             Survives(items[0].value) && forall i :: 0 <= i < |items[1..]| ==> Survives(items[1..][i].value);
    }
  }

  lemma {:induction false} EntryExact(e: Entry)
    requires EntryFormed(e)
    ensures EntryRead(e) == Some(EntryMeaning(e)) <==> EntrySurvives(e)
    decreases e, 0
  {
    EntryGaps(e);
    SlotGaps(e.value);
    LitExact(e.key);
    ValueExact(e.value.value);
    hide LitRead, LitString, LitSurvives, ValueRead, Survives, Meaning;
  }

  lemma {:induction false} EntriesExact(entries: seq<Entry>)
    requires forall i :: 0 <= i < |entries| ==> EntryFormed(entries[i])
    ensures EntriesRead(entries) == Some(EntryMeanings(entries)) <==> forall i :: 0 <= i < |entries| ==> EntrySurvives(entries[i])
    decreases entries, 0
  {
    if entries != [] {
      EntryExact(entries[0]);
      EntriesExact(entries[1..]);
      hide EntryRead, EntrySurvives, EntryMeaning, EntryFormed;
      var e, rest := EntryRead(entries[0]), EntriesRead(entries[1..]);
      if e.Some? && rest.Some? { SameCons(e.value, EntryMeaning(entries[0]), rest.value, EntryMeanings(entries[1..])); }
      assert (forall i :: 0 <= i < |entries| ==> EntrySurvives(entries[i])) <==>
             EntrySurvives(entries[0]) && forall i :: 0 <= i < |entries[1..]| ==> EntrySurvives(entries[1..][i]);
    }
  }

  // ---------- main results ----------

  /** What a reader of JSON makes of the translated text of any value, however quoted, escaped and spaced. */
  lemma {:induction false} TranslationReads(s: Slot)
    requires SlotFormed(s)
    ensures Parse(Translate(SlotText(s, Python), false, Outside)) == ValueRead(s.value)
  {
    SlotGaps(s);
    hide SlotText, ReadValue, Translate, ValueRead, SlotFormed, Formed;
    TranslateWhole(s);
    ReadSlot(s, "");
    assert SlotText(s, JsonLike) + "" == SlotText(s, JsonLike);
    SkipGap(s.after, "");
  }

  /** The translated text is a JSON text of the value exactly when the value survives. */
  lemma {:induction false} TranslationPreservesValue(s: Slot)
    requires SlotFormed(s)
    ensures Parse(Translate(SlotText(s, Python), false, Outside)) == Some(Meaning(s.value)) <==> Survives(s.value)
  {
    SlotGaps(s);
    hide SlotText, Translate, Parse, Survives, Meaning, ValueRead, SlotFormed, Formed;
    TranslationReads(s);
    ValueExact(s.value);
  }

  /** Single quotes, printable characters, the escapes both languages share, and numbers as JSON writes them. */
  predicate SharedItem(item: Item) {
    match item
    case Raw(c) => c >= ' '
    case Esc(e) => e in {'\\', '\'', '"', 'n', 't', 'r', 'b', 'f'}
    case Uni(_) => false
  }

  predicate SingleQuoted(lit: Lit) { !lit.double && forall i :: 0 <= i < |lit.items| ==> SharedItem(lit.items[i]) }

  predicate SingleQuotedOnly(v: Py) {
    match v
    case PyNum(text) => IsNumber(text)
    case PyStr(lit) => SingleQuoted(lit)
    case PyList(items, trailing, _) => !trailing && forall i :: 0 <= i < |items| ==> SingleQuotedOnly(items[i].value)
    case PyDict(entries, trailing, _) =>
      !trailing && forall i :: 0 <= i < |entries| ==> SingleQuoted(entries[i].key) && SingleQuotedOnly(entries[i].value.value)
    case _ => true
  }

  lemma {:induction false} SingleQuotedSurvives(v: Py)
    requires SingleQuotedOnly(v)
    ensures Survives(v)
  {
    match v
    case PyStr(_) =>
    case PyList(items, _, _) =>
      forall i | 0 <= i < |items| ensures Survives(items[i].value) { SingleQuotedSurvives(items[i].value); }
    case PyDict(entries, _, _) =>
      forall i | 0 <= i < |entries| ensures EntrySurvives(entries[i]) {
        SingleQuotedSurvives(entries[i].value.value);
      }
    case _ =>
  }

  /** Such values are always preserved. */
  lemma {:induction false} SingleQuotedPreserved(s: Slot)
    requires SlotFormed(s) && SingleQuotedOnly(s.value)
    ensures Parse(Translate(SlotText(s, Python), false, Outside)) == Some(Meaning(s.value))
  {
    hide SlotText, Translate, Parse, Survives, Meaning, SlotFormed;
    SingleQuotedSurvives(s.value);
    TranslationPreservesValue(s);
  }

  // ---------- values that do not survive ----------

  function OneItem(double: bool, item: Item): Slot { Slot("", PyStr(Lit(double, [item])), "") }

  lemma {:induction false} SpellOneItem(double: bool, item: Item, text: string)
    requires text == [Quote(double)] + ItemText(double, item, Python) + [Quote(double)]
    ensures SlotText(OneItem(double, item), Python) == text
  {
    var t := ItemText(double, item, Python);
    assert [item][1..] == [];
    assert BodyText(double, [item], Python) == t + BodyText(double, [], Python) == t;
    hide ItemText;
    assert LitText(Lit(double, [item]), Python) == text;
    assert text + "" == text && "" + text == text;
  }

  /** What JSON reads of a literal of one escape. */
  lemma {:induction false} ReadOneEscape(double: bool, e: char)
    requires e != 'u' && (e == '\'' ==> double)
    ensures LitRead(double, [Esc(e)]) == if e != '\'' && SimpleEscape(e).Some? then Some([SimpleEscape(e).value]) else None
  {
    assert [Esc(e)][1..] == [] && LitRead(double, []) == Some("");
    var c := SimpleEscape(e);
    assert c.Some? ==> [c.value] + "" == [c.value];
  }

  /** Escapes that JSON lacks: an apostrophe between double quotes, and a bell. */
  lemma {:induction false} ApostropheSpoilt()
    ensures Parse(Translate("\"\\'\"", false, Outside)).None?
  {
    hide Translate, Parse, SlotText, LitRead;
    SpellOneItem(true, Esc('\''), "\"\\'\"");
    ReadOneEscape(true, '\'');
    TranslationReads(OneItem(true, Esc('\'')));
  }

  lemma {:induction false} BellSpoilt()
    ensures Parse(Translate("'\\a'", false, Outside)).None?
  {
    hide Translate, Parse, SlotText, LitRead;
    SpellOneItem(false, Esc('a'), "'\\a'");
    ReadOneEscape(false, 'a');
    TranslationReads(OneItem(false, Esc('a')));
  }

  /** An escape that both languages have and that means two characters in one of them, one in the other. */
  lemma {:induction false} SlashChanged()
    ensures Parse(Translate("'\\/'", false, Outside)) == Some(JStr("/"))
    ensures Meaning(OneItem(false, Esc('/')).value) == JStr("\\/")
  {
    assert [Esc('/')][1..] == [] && LitString([Esc('/')]) == "\\/" + "";
    hide Translate, Parse, SlotText, LitRead, LitString, ItemString;
    SpellOneItem(false, Esc('/'), "'\\/'");
    ReadOneEscape(false, '/');
    TranslationReads(OneItem(false, Esc('/')));
  }

  /** Numbers and commas that JSON does not allow. */
  lemma {:induction false} NumbersSpoilt()
    ensures Parse(Translate(".5", false, Outside)).None?
    ensures Parse(Translate("[1,]", false, Outside)).None?
  {
    var half, list := Slot("", PyNum(".5"), ""), Slot("", PyList([Slot("", PyNum("1"), "")], true, ""), "");
    assert SlotText(half, Python) == ".5" && SlotText(list, Python) == "[1,]";
    TranslationReads(half);
    TranslationReads(list);
    hide Translate, Parse;
    assert DigitRun(".5") == 0;
  }

  // ---------- braces of a translated value ----------

  lemma {:induction false} ScanDigits(digits: string, depth: int)
    requires forall i :: 0 <= i < |digits| ==> HexValue(digits[i]).Some?
    ensures ScanAll(Scan(depth, true, false), digits) == Scan(depth, true, false)
  {
    if digits != "" { ScanDigits(digits[1..], depth); }
  }

  lemma {:induction false} ScanItemText(double: bool, item: Item, depth: int)
    requires ItemFormed(double, item)
    ensures ScanAll(Scan(depth, true, false), ItemText(double, item, JsonLike)) == Scan(depth, true, false)
  {
    var t := ItemText(double, item, JsonLike);
    if item.Uni? {
      ScanConcat(Scan(depth, true, false), "\\u", item.digits);
      ScanTwo(Scan(depth, true, false), "\\u");
      ScanDigits(item.digits, depth);
    } else if |t| == 2 {
      ScanTwo(Scan(depth, true, false), t);
    } else {
      assert t[1..] == "";
    }
  }

  lemma {:induction false} ScanBodyText(double: bool, items: seq<Item>, depth: int)
    requires forall i :: 0 <= i < |items| ==> ItemFormed(double, items[i])
    ensures ScanAll(Scan(depth, true, false), BodyText(double, items, JsonLike)) == Scan(depth, true, false)
  {
    hide ItemText, ItemFormed;
    if items != [] {
      ScanConcat(Scan(depth, true, false), ItemText(double, items[0], JsonLike), BodyText(double, items[1..], JsonLike));
      ScanItemText(double, items[0], depth);
      ScanBodyText(double, items[1..], depth);
    }
  }

  lemma {:induction false} LitBalanced(lit: Lit)
    requires LitFormed(lit)
    ensures Balanced(LitText(lit, JsonLike))
  {
    var body := BodyText(lit.double, lit.items, JsonLike);
    assert LitText(lit, JsonLike) == "\"" + body + "\"";
    hide LitText, ScanAll;
    forall depth: int ensures ScanAll(Scan(depth, false, false), LitText(lit, JsonLike)) == Scan(depth, false, false) {
      QuotedScan(depth, body);
      ScanBodyText(lit.double, lit.items, depth);
    }
  }

  lemma {:induction false} BracedBalanced(inner: string)
    requires Balanced(inner)
    ensures Balanced("{" + inner + "}")
  {
    hide ScanAll;
    forall depth: int ensures ScanAll(Scan(depth, false, false), "{" + inner + "}") == Scan(depth, false, false) {
      ScanConcat(Scan(depth, false, false), "{" + inner, "}");
      ScanConcat(Scan(depth, false, false), "{", inner);
      OneBrace(depth);
      OneBrace(depth + 1);
    }
  }

  lemma {:induction false} OneBrace(depth: int)
    ensures ScanAll(Scan(depth, false, false), "{") == Scan(depth + 1, false, false)
    ensures ScanAll(Scan(depth, false, false), "}") == Scan(depth - 1, false, false)
  {
    assert "{"[1..] == "" && "}"[1..] == "";
  }

  /** The translated spelling of a value opens no brace it does not close. */
  lemma {:induction false} ValueBalanced(v: Py)
    requires Formed(v)
    ensures Balanced(Text(v, JsonLike))
    decreases v, 1
  {
    hide Balanced, LitText, LitFormed, ItemsText, EntriesText, SlotFormed, EntryFormed;
    match v
    case PyNum(text) => PlainIsBalanced(text);
    case PyBool(b) => PlainIsBalanced(if b then "true" else "false");
    case PyNone => PlainIsBalanced("null");
    case PyStr(lit) => LitBalanced(lit);
    case PyList(items, trailing, gap) =>
      var end := Ending(items == [], trailing, gap) + "]";
      ItemsBalanced(items);
      PlainIsBalanced("[");
      PlainIsBalanced(end);
      BalancedConcat(ItemsText(items, JsonLike), end);
      BalancedConcat("[", ItemsText(items, JsonLike) + end);
    case PyDict(entries, trailing, gap) =>
      var end := Ending(entries == [], trailing, gap);
      var inner := EntriesText(entries, JsonLike);
      EntriesBalanced(entries);
      PlainIsBalanced(end);
      BalancedConcat(inner, end);
      BracedBalanced(inner + end);
      assert "{" + (inner + end) + "}" == "{" + (inner + (end + "}"));
  }

  lemma {:induction false} SlotBalanced(s: Slot)
    requires SlotFormed(s)
    ensures Balanced(SlotText(s, JsonLike))
    decreases s, 0
  {
    ValueBalanced(s.value);
    hide Balanced, Text, Formed;
    PlainIsBalanced(s.before);
    PlainIsBalanced(s.after);
    BalancedConcat(Text(s.value, JsonLike), s.after);
    BalancedConcat(s.before, Text(s.value, JsonLike) + s.after);
  }

  lemma {:induction false} ItemsBalanced(items: seq<Slot>)
    requires forall i :: 0 <= i < |items| ==> SlotFormed(items[i])
    ensures Balanced(ItemsText(items, JsonLike))
    decreases items, 0
  {
    hide Balanced, SlotText, SlotFormed;
    if items == [] {
      PlainIsBalanced("");
    } else {
      SlotBalanced(items[0]);
      if |items| > 1 {
        ItemsBalanced(items[1..]);
        PlainIsBalanced(",");
        BalancedConcat(",", ItemsText(items[1..], JsonLike));
        BalancedConcat(SlotText(items[0], JsonLike), "," + ItemsText(items[1..], JsonLike));
      }
    }
  }

  lemma {:induction false} EntryBalanced(e: Entry)
    requires EntryFormed(e)
    ensures Balanced(EntryText(e, JsonLike))
    decreases e, 0
  {
    EntryGaps(e);
    LitBalanced(e.key);
    SlotBalanced(e.value);
    hide Balanced, SlotText, SlotFormed, LitText, LitFormed;
    PlainIsBalanced(e.before);
    PlainIsBalanced(e.gap);
    PlainIsBalanced(":");
    var value := SlotText(e.value, JsonLike);
    BalancedConcat(":", value);
    BalancedConcat(e.gap, ":" + value);
    BalancedConcat(LitText(e.key, JsonLike), e.gap + (":" + value));
    BalancedConcat(e.before, LitText(e.key, JsonLike) + (e.gap + (":" + value)));
  }

  lemma {:induction false} EntriesBalanced(entries: seq<Entry>)
    requires forall i :: 0 <= i < |entries| ==> EntryFormed(entries[i])
    ensures Balanced(EntriesText(entries, JsonLike))
    decreases entries, 0
  {
    hide Balanced, EntryText, EntryFormed;
    if entries == [] {
      PlainIsBalanced("");
    } else {
      EntryBalanced(entries[0]);
      if |entries| > 1 {
        EntriesBalanced(entries[1..]);
        PlainIsBalanced(",");
        BalancedConcat(",", EntriesText(entries[1..], JsonLike));
        BalancedConcat(EntryText(entries[0], JsonLike), "," + EntriesText(entries[1..], JsonLike));
      }
    }
  }
}
