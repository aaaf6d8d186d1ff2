/** Turning Python-style literals into JSON text without parsing them. */
module PyJson {
  import opened Words
  import opened Json

  // ---------- the translator ----------

  datatype Mode = Outside | InSingle | InDouble

  predicate IsWordChar(c: char) {
    '0' <= c <= '9' || 'a' <= c <= 'z' || 'A' <= c <= 'Z' || c == '_'
  }

  function WordRun(s: string): (n: nat)
    ensures n <= |s|
  {
    if s != "" && IsWordChar(s[0]) then 1 + WordRun(s[1..]) else 0
  }

  function Least(a: nat, b: nat): nat { if a < b then a else b }

  /** The JSON spelling of a Python literal, or of as much of it as has arrived. */
  function Literal(token: string): Option<string> {
    if token <= "True" then Some("true"[..Least(|token|, 4)])
    else if token <= "False" then Some("false"[..Least(|token|, 5)])
    else if token <= "None" then Some("null"[..Least(|token|, 4)])
    else None
  }

  /** `afterWord` says whether the character before `s` is a word character. */
  function Translate(s: string, afterWord: bool, mode: Mode): string
    decreases |s|
  {
    if s == "" then "" else
      var c := s[0];
      if c == '\\' && |s| > 1 then
        var next := s[1];
        match mode
        case InSingle =>
          (if next == '\'' then "'" else if next == '"' then "\\\"" else [c, next]) +
          Translate(s[2..], IsWordChar(next), mode)
        case InDouble => [c, next] + Translate(s[2..], IsWordChar(next), mode)
        case Outside => [c] + Translate(s[1..], false, mode)
      else if c == '"' then
        if mode == InSingle then "\\\"" + Translate(s[1..], false, mode)
        else [c] + Translate(s[1..], false, if mode == InDouble then Outside else InDouble)
      else if c == '\'' then
        if mode == InDouble then [c] + Translate(s[1..], false, mode)
        else "\"" + Translate(s[1..], false, if mode == InSingle then Outside else InSingle)
      else if mode == Outside && (c == 'T' || c == 'F' || c == 'N') && !afterWord then
        var n := WordRun(s);
        var js := Literal(s[..n]);
        if js.Some? then js.value + Translate(s[n..], true, mode)
        else [c] + Translate(s[1..], true, mode)
      else [c] + Translate(s[1..], IsWordChar(c), mode)
  }

  function ModeOf(inSingle: bool, inDouble: bool): Mode {
    if inSingle then InSingle else if inDouble then InDouble else Outside
  }

  predicate WordBefore(input: string, i: nat)
    requires i <= |input|
  {
    i > 0 && IsWordChar(input[i - 1])
  }

  /** The rest of the translation, from position `i`. */
  ghost function RestOf(input: string, i: nat, inSingle: bool, inDouble: bool): string
    requires i <= |input|
  {
    Translate(input[i..], WordBefore(input, i), ModeOf(inSingle, inDouble))
  }

  lemma {:induction false} WordRunIsWord(s: string, k: nat)
    requires k < WordRun(s)
    ensures IsWordChar(s[k])
  {
    if k > 0 { WordRunIsWord(s[1..], k - 1); }
  }

  lemma {:induction false} WordStarts(s: string)
    requires s != "" && IsWordChar(s[0])
    ensures WordRun(s) > 0
  {
  }

  method WordLength(input: string, i: nat) returns (n: nat)
    requires i <= |input|
    ensures n == WordRun(input[i..])
  {
    n := 0;
    while i + n < |input| && IsWordChar(input[i + n])
      invariant i + n <= |input|
      invariant WordRun(input[i..]) == n + WordRun(input[i + n..])
    {
      assert input[i + n..][1..] == input[i + n + 1..];
      n := n + 1;
    }
  }

  /** One turn of the loop: how much input it takes and what it writes. */
  method Turn(input: string, i: nat, inSingle: bool, inDouble: bool)
    returns (next: nat, written: string, inSingle': bool, inDouble': bool)
    requires i < |input| && !(inSingle && inDouble)
    ensures i < next <= |input| && !(inSingle' && inDouble')
    ensures RestOf(input, i, inSingle, inDouble) == written + RestOf(input, next, inSingle', inDouble')
  {
    hide Literal, WordRun;
    inSingle', inDouble', next := inSingle, inDouble, i + 1;
    ghost var s := input[i..];
    var c := input[i];
    written := [c];
    assert s[1..] == input[i + 1..];
    if c == '\\' && i + 1 < |input| {
      var escaped := input[i + 1];
      assert s[2..] == input[i + 2..];
      if inSingle {
        next := i + 2;
        if escaped == '\'' {
          written := "'";
        } else if escaped == '"' {
          written := "\\\"";
        } else {
          written := [c, escaped];
        }
      } else if inDouble {
        next := i + 2;
        written := [c, escaped];
      }
    } else if c == '"' {
      if inSingle {
        written := "\\\"";
      } else {
        inDouble' := !inDouble;
      }
    } else if c == '\'' {
      if inDouble {
      } else if inSingle {
        inSingle' := false;
        written := "\"";
      } else {
        inSingle' := true;
        written := "\"";
      }
    } else if !inSingle && !inDouble && (c == 'T' || c == 'F' || c == 'N') &&
              (i == 0 || !IsWordChar(input[i - 1])) {
      var n := WordLength(input, i);
      WordStarts(s);
      var js := Literal(input[i..i + n]);
      assert s[..n] == input[i..i + n] && s[n..] == input[i + n..];
      if js.Some? {
        WordRunIsWord(s, n - 1);
        assert input[i + n - 1] == s[n - 1];
        next := i + n;
        written := js.value;
      }
    }
  }

  method NormalizeQuotes(input: string) returns (result: string)
    ensures result == Translate(input, false, Outside)
  {
    hide Translate;
    result := "";
    var inSingle, inDouble := false, false;
    var i := 0;
    assert input[0..] == input;
    while i < |input|
      invariant 0 <= i <= |input| && !(inSingle && inDouble)
      invariant result + RestOf(input, i, inSingle, inDouble) == Translate(input, false, Outside)
    {
      var next, written, inSingle', inDouble' := Turn(input, i, inSingle, inDouble);
      ghost var rest := RestOf(input, next, inSingle', inDouble');
      assert result + (written + rest) == (result + written) + rest;
      result := result + written;
      i, inSingle, inDouble := next, inSingle', inDouble';
    }
    TranslateNothing(WordBefore(input, i), ModeOf(inSingle, inDouble));
    assert input[i..] == "";
    assert result + "" == result;
  }

  lemma {:induction false} TranslateNothing(afterWord: bool, mode: Mode)
    ensures Translate("", afterWord, mode) == ""
  {
  }

  // ---------- Python values ----------

  /** One element of a string literal as written: a character, a backslash and a character, or `\u` and four digits. */
  datatype Item = Raw(c: char) | Esc(e: char) | Uni(digits: string)

  datatype Lit = Lit(double: bool, items: seq<Item>)

  /** A value with the white space around it. */
  datatype Slot = Slot(before: string, value: Py, after: string)

  datatype Entry = Entry(before: string, key: Lit, gap: string, value: Slot)

  /** `gap` is the white space of an empty list or dict, or after a comma that trails the last element. */
  datatype Py =
    | PyNum(text: string)
    | PyBool(b: bool)
    | PyNone
    | PyStr(lit: Lit)
    | PyList(items: seq<Slot>, trailing: bool, gap: string)
    | PyDict(entries: seq<Entry>, trailing: bool, gap: string)

  function Quote(double: bool): char { if double then '"' else '\'' }

  predicate FourDigits(digits: string) { |digits| == 4 && FourHex(digits).Some? }

  /** Only `\u` needs digits to follow; the quote that ends the literal and the backslash are not written bare. */
  predicate ItemFormed(double: bool, item: Item) {
    match item
    case Raw(c) => c != '\\' && c != Quote(double)
    case Esc(e) => e != 'u'
    case Uni(digits) => FourDigits(digits)
  }

  predicate LitFormed(lit: Lit) {
    forall i :: 0 <= i < |lit.items| ==> ItemFormed(lit.double, lit.items[i])
  }

  predicate StartsLiteral(c: char) { c == 'T' || c == 'F' || c == 'N' }

  /** Decimal, hexadecimal, octal, binary, imaginary, with underscores, with or without digits around the point. */
  predicate NumFormed(text: string) {
    && text != "" && (IsDigit(text[0]) || text[0] in {'-', '+', '.'})
    && (forall i :: 0 <= i < |text| ==> IsTokenChar(text[i]))
    && (forall i :: 0 < i < |text| && StartsLiteral(text[i]) ==> IsWordChar(text[i - 1]))
  }

  predicate SlotFormed(s: Slot) { AllSpace(s.before) && Formed(s.value) && AllSpace(s.after) }

  predicate EntryFormed(e: Entry) { AllSpace(e.before) && LitFormed(e.key) && AllSpace(e.gap) && SlotFormed(e.value) }

  predicate Formed(v: Py) {
    match v
    case PyNum(text) => NumFormed(text)
    case PyStr(lit) => LitFormed(lit)
    case PyList(items, trailing, gap) =>
      AllSpace(gap) && (trailing ==> items != []) && forall i :: 0 <= i < |items| ==> SlotFormed(items[i])
    case PyDict(entries, trailing, gap) =>
      AllSpace(gap) && (trailing ==> entries != []) && forall i :: 0 <= i < |entries| ==> EntryFormed(entries[i])
    case _ => true
  }

  /**
   * What an item stands for in Python, where a backslash that starts no escape stays.
   * Of the escapes longer than two characters only `\u` has a counterpart in JSON;
   * the others, and surrogates, which are no characters, are kept as written.
   */
  function ItemString(item: Item): string {
    match item
    case Raw(c) => [c]
    case Esc(e) =>
      if e == '\n' then ""
      else if e == '\'' then "'"
      else if e == 'a' then [7 as char]
      else if e == 'v' then [11 as char]
      else if e != '/' && SimpleEscape(e).Some? then [SimpleEscape(e).value]
      else ['\\', e]
    case Uni(digits) =>
      if FourDigits(digits) && !IsSurrogate(FourHex(digits).value) then [FourHex(digits).value as char] else "\\u" + digits
  }

  function LitString(items: seq<Item>): string {
    if items == [] then "" else ItemString(items[0]) + LitString(items[1..])
  }

  /** The value, as JSON has it. */
  function Meaning(v: Py): Json {
    match v
    case PyNum(text) => JNum(text)
    case PyBool(b) => JBool(b)
    case PyNone => JNull
    case PyStr(lit) => JStr(LitString(lit.items))
    case PyList(items, _, _) => JArr(Meanings(items))
    case PyDict(entries, _, _) => JObj(EntryMeanings(entries))
  }

  function Meanings(items: seq<Slot>): seq<Json> {
    if items == [] then [] else [Meaning(items[0].value)] + Meanings(items[1..])
  }

  function EntryMeaning(e: Entry): (string, Json) { (LitString(e.key.items), Meaning(e.value.value)) }

  function EntryMeanings(entries: seq<Entry>): seq<(string, Json)> {
    if entries == [] then [] else [EntryMeaning(entries[0])] + EntryMeanings(entries[1..])
  }

  // ---------- spelling values in both languages ----------

  datatype Language = Python | JsonLike

  function ItemText(double: bool, item: Item, lang: Language): string {
    match item
    case Raw(c) => if lang == JsonLike && !double && c == '"' then "\\\"" else [c]
    case Esc(e) => if lang == JsonLike && !double && e == '\'' then "'" else ['\\', e]
    case Uni(digits) => "\\u" + digits
  }

  function BodyText(double: bool, items: seq<Item>, lang: Language): string {
    if items == [] then "" else ItemText(double, items[0], lang) + BodyText(double, items[1..], lang)
  }

  function LitText(lit: Lit, lang: Language): string {
    var q := if lang == JsonLike then '"' else Quote(lit.double);
    [q] + BodyText(lit.double, lit.items, lang) + [q]
  }

  function Text(v: Py, lang: Language): string {
    match v
    case PyNum(text) => text
    case PyBool(b) =>
      if lang == Python then (if b then "True" else "False") else (if b then "true" else "false")
    case PyNone => if lang == Python then "None" else "null"
    case PyStr(lit) => LitText(lit, lang)
    case PyList(items, trailing, gap) => "[" + (ItemsText(items, lang) + (Ending(items == [], trailing, gap) + "]"))
    case PyDict(entries, trailing, gap) => "{" + (EntriesText(entries, lang) + (Ending(entries == [], trailing, gap) + "}"))
  }

  function Ending(empty: bool, trailing: bool, gap: string): string {
    if empty then gap else if trailing then "," + gap else ""
  }

  function SlotText(s: Slot, lang: Language): string { s.before + (Text(s.value, lang) + s.after) }

  function ItemsText(items: seq<Slot>, lang: Language): string {
    if items == [] then ""
    else if |items| == 1 then SlotText(items[0], lang)
    else SlotText(items[0], lang) + ("," + ItemsText(items[1..], lang))
  }

  function EntryText(e: Entry, lang: Language): string {
    e.before + (LitText(e.key, lang) + (e.gap + (":" + SlotText(e.value, lang))))
  }

  function EntriesText(entries: seq<Entry>, lang: Language): string {
    if entries == [] then ""
    else if |entries| == 1 then EntryText(entries[0], lang)
    else EntryText(entries[0], lang) + ("," + EntriesText(entries[1..], lang))
  }

  // ---------- translating maps one spelling to the other ----------

  /** What follows does not continue a word. */
  predicate Breaks(rest: string) { rest == "" || !IsWordChar(rest[0]) }

  function ModeIn(double: bool): Mode { if double then InDouble else InSingle }

  lemma {:induction false} TranslateQuotes(double: bool, rest: string, afterWord: bool)
    ensures Translate([Quote(double)] + rest, afterWord, Outside) == "\"" + Translate(rest, false, ModeIn(double))
    ensures Translate([Quote(double)] + rest, afterWord, ModeIn(double)) == "\"" + Translate(rest, false, Outside)
  {
    var s := [Quote(double)] + rest;
    assert s[0] == Quote(double) && s[1..] == rest;
  }

  /** Inside a literal, what the item does to the word flag does not matter. */
  lemma {:induction false} FlagIrrelevantInside(s: string, a: bool, b: bool, double: bool)
    ensures Translate(s, a, ModeIn(double)) == Translate(s, b, ModeIn(double))
  {
  }

  lemma {:induction false} TranslateShort(double: bool, item: Item, tail: string)
    requires ItemFormed(double, item) && !item.Uni?
    ensures Translate(ItemText(double, item, Python) + tail, false, ModeIn(double)) ==
            ItemText(double, item, JsonLike) + Translate(tail, false, ModeIn(double))
  {
    var t := ItemText(double, item, Python);
    var s := t + tail;
    assert s[|t|..] == tail && s[0] == t[0] && (|t| == 2 ==> s[1] == t[1]);
    FlagIrrelevantInside(tail, IsWordChar(t[|t| - 1]), false, double);
  }

  lemma {:induction false} TranslateDigit(double: bool, c: char, tail: string)
    requires HexValue(c).Some?
    ensures Translate([c] + tail, false, ModeIn(double)) == [c] + Translate(tail, false, ModeIn(double))
  {
    assert ([c] + tail)[1..] == tail;
    FlagIrrelevantInside(tail, IsWordChar(c), false, double);
  }

  lemma {:induction false} TranslateDigits(double: bool, digits: string, tail: string)
    requires forall i :: 0 <= i < |digits| ==> HexValue(digits[i]).Some?
    ensures Translate(digits + tail, false, ModeIn(double)) == digits + Translate(tail, false, ModeIn(double))
  {
    hide Translate, HexValue;
    if digits == "" {
      assert digits + tail == tail;
    } else {
      assert digits + tail == [digits[0]] + (digits[1..] + tail) && digits == [digits[0]] + digits[1..];
      TranslateDigit(double, digits[0], digits[1..] + tail);
      TranslateDigits(double, digits[1..], tail);
      var x := Translate(tail, false, ModeIn(double));
      assert [digits[0]] + (digits[1..] + x) == ([digits[0]] + digits[1..]) + x;
    }
  }

  lemma {:induction false} TranslateItem(double: bool, item: Item, tail: string)
    requires ItemFormed(double, item)
    ensures Translate(ItemText(double, item, Python) + tail, false, ModeIn(double)) ==
            ItemText(double, item, JsonLike) + Translate(tail, false, ModeIn(double))
  {
    if item.Uni? {
      TranslateUniHead(double, item.digits + tail);
      TranslateDigits(double, item.digits, tail);
      hide Translate, FourHex;
      assert ("\\u" + item.digits) + tail == "\\u" + (item.digits + tail);
    } else {
      TranslateShort(double, item, tail);
    }
  }

  lemma {:induction false} TranslateUniHead(double: bool, tail: string)
    ensures Translate("\\u" + tail, false, ModeIn(double)) == "\\u" + Translate(tail, false, ModeIn(double))
  {
    var s := "\\u" + tail;
    assert s[2..] == tail;
    FlagIrrelevantInside(tail, true, false, double);
  }

  lemma {:induction false} TranslateBody(double: bool, items: seq<Item>, rest: string)
    requires forall i :: 0 <= i < |items| ==> ItemFormed(double, items[i])
    ensures Translate(BodyText(double, items, Python) + ([Quote(double)] + rest), false, ModeIn(double)) ==
            BodyText(double, items, JsonLike) + ("\"" + Translate(rest, false, Outside))
  {
    hide Translate, ItemText, ModeIn, ItemFormed;
    var x := "\"" + Translate(rest, false, Outside);
    var end := [Quote(double)] + rest;
    if items == [] {
      assert "" + end == end && "" + x == x;
      TranslateQuotes(double, rest, false);
    } else {
      var t, j := ItemText(double, items[0], Python), ItemText(double, items[0], JsonLike);
      var body, js := BodyText(double, items[1..], Python), BodyText(double, items[1..], JsonLike);
      assert (t + body) + end == t + (body + end);
      assert (j + js) + x == j + (js + x);
      TranslateItem(double, items[0], body + end);
      TranslateBody(double, items[1..], rest);
    }
  }

  /** In front of `rest`, the text `py` becomes `js`. */
  ghost predicate Carries(py: string, js: string, rest: string) {
    Translate(py + rest, false, Outside) == js + Translate(rest, false, Outside)
  }

  lemma {:induction false} Both(py0: string, js0: string, py1: string, js1: string, rest: string)
    requires Carries(py0, js0, py1 + rest) && Carries(py1, js1, rest)
    ensures Carries(py0 + py1, js0 + js1, rest)
  {
    hide Translate;
    assert (py0 + py1) + rest == py0 + (py1 + rest);
    var x := Translate(rest, false, Outside);
    assert js0 + (js1 + x) == (js0 + js1) + x;
  }

  lemma {:induction false} TranslateLit(lit: Lit, rest: string)
    requires LitFormed(lit)
    ensures Carries(LitText(lit, Python), LitText(lit, JsonLike), rest)
  {
    hide Translate, BodyText, ItemFormed;
    var q := [Quote(lit.double)];
    var body, js := BodyText(lit.double, lit.items, Python), BodyText(lit.double, lit.items, JsonLike);
    var x := Translate(rest, false, Outside);
    TranslateQuotes(lit.double, body + (q + rest), false);
    TranslateBody(lit.double, lit.items, rest);
    assert LitText(lit, Python) + rest == q + (body + (q + rest));
    assert LitText(lit, JsonLike) + x == "\"" + (js + ("\"" + x));
  }

  /** White space and marks pass through, and end a word. */
  predicate Mark(c: char) { IsSpace(c) || c in {'[', ']', '{', '}', ',', ':'} }

  lemma {:induction false} TranslateMark(c: char, rest: string)
    requires Mark(c)
    ensures Carries([c], [c], rest)
  {
    assert ([c] + rest)[1..] == rest;
  }

  lemma {:induction false} TranslateMarks(p: string, rest: string)
    requires forall i :: 0 <= i < |p| ==> Mark(p[i])
    ensures Carries(p, p, rest)
  {
    hide Translate;
    if p == "" {
      assert p + rest == rest && "" + Translate(rest, false, Outside) == Translate(rest, false, Outside);
    } else {
      TranslateMark(p[0], p[1..] + rest);
      TranslateMarks(p[1..], rest);
      Both([p[0]], [p[0]], p[1..], p[1..], rest);
      assert p == [p[0]] + p[1..];
    }
  }

  lemma {:induction false} TranslateGap(gap: string)
    requires AllSpace(gap)
    ensures Translate(gap, false, Outside) == gap
  {
    TranslateMarks(gap, "");
    assert gap + "" == gap;
  }

  lemma {:induction false} AfterWordIrrelevant(rest: string, a: bool, b: bool)
    requires Breaks(rest)
    ensures Translate(rest, a, Outside) == Translate(rest, b, Outside)
  {
  }

  lemma {:induction false} WordRunExact(token: string, rest: string)
    requires Breaks(rest) && forall i :: 0 <= i < |token| ==> IsWordChar(token[i])
    ensures WordRun(token + rest) == |token|
  {
    if token == "" {
      assert token + rest == rest;
    } else {
      assert (token + rest)[1..] == token[1..] + rest;
      WordRunExact(token[1..], rest);
    }
  }

  lemma {:induction false} Keywords()
    ensures Literal("True") == Some("true") && Literal("False") == Some("false") && Literal("None") == Some("null")
  {
    assert "true"[..4] == "true" && "false"[..5] == "false" && "null"[..4] == "null";
    assert "False"[0] != "True"[0] && "None"[0] != "True"[0] && "None"[0] != "False"[0];
  }

  lemma {:induction false} TranslateKeyword(token: string, rest: string)
    requires token in {"True", "False", "None"} && Breaks(rest)
    ensures Carries(token, if token == "True" then "true" else if token == "False" then "false" else "null", rest)
  {
    Keywords();
    hide Literal;
    var s := token + rest;
    WordRunExact(token, rest);
    assert s[..|token|] == token && s[|token|..] == rest && s[0] == token[0];
    AfterWordIrrelevant(rest, true, false);
  }

  lemma {:induction false} TranslateTokenChar(c: char, rest: string, afterWord: bool)
    requires IsTokenChar(c) && (StartsLiteral(c) ==> afterWord)
    ensures Translate([c] + rest, afterWord, Outside) == [c] + Translate(rest, IsWordChar(c), Outside)
  {
    assert ([c] + rest)[1..] == rest;
  }

  /** The characters of a number pass through, as none of them can start a literal. */
  lemma {:induction false} TranslateTail(text: string, rest: string, afterWord: bool)
    requires Breaks(rest) && (text == "" ==> !afterWord) && forall i :: 0 <= i < |text| ==> IsTokenChar(text[i])
    requires text != "" && StartsLiteral(text[0]) ==> afterWord
    requires forall i :: 0 < i < |text| && StartsLiteral(text[i]) ==> IsWordChar(text[i - 1])
    ensures Translate(text + rest, afterWord, Outside) == text + Translate(rest, false, Outside)
    decreases |text|
  {
    hide Translate, IsTokenChar, StartsLiteral, IsWordChar;
    if text == "" {
      assert text + rest == rest;
    } else {
      var next := IsWordChar(text[0]);
      assert text + rest == [text[0]] + (text[1..] + rest) && text == [text[0]] + text[1..];
      TranslateTokenChar(text[0], text[1..] + rest, afterWord);
      if |text| == 1 {
        assert text[1..] + rest == rest;
        AfterWordIrrelevant(rest, next, false);
      } else {
        assert forall i :: 0 <= i < |text| - 1 ==> text[1..][i] == text[i + 1];
        TranslateTail(text[1..], rest, next);
      }
      var x := Translate(rest, false, Outside);
      assert [text[0]] + (text[1..] + x) == ([text[0]] + text[1..]) + x;
    }
  }

  lemma {:induction false} TranslateNum(text: string, rest: string)
    requires NumFormed(text) && Breaks(rest)
    ensures Carries(text, text, rest)
  {
    assert !StartsLiteral(text[0]);
    TranslateTail(text, rest, false);
  }

  lemma {:induction false} SpaceIsMarks(gap: string, mark: string)
    requires AllSpace(gap) && mark in {"", "[", "]", "{", "}", ",", ":"}
    ensures forall i :: 0 <= i < |gap| ==> Mark(gap[i])
    ensures forall i :: 0 <= i < |mark + gap| ==> Mark((mark + gap)[i])
    ensures forall i :: 0 <= i < |gap + mark| ==> Mark((gap + mark)[i])
  {
  }

  lemma {:induction false} MarksBreak(p: string, rest: string)
    requires (forall i :: 0 <= i < |p| ==> Mark(p[i])) && (p == "" ==> Breaks(rest))
    ensures Breaks(p + rest)
  {
    if p != "" { assert (p + rest)[0] == p[0]; }
  }

  /** Translating the Python spelling of a value yields the JSON spelling, in any context. */
  lemma {:induction false} TranslateValue(v: Py, rest: string)
    requires Formed(v) && Breaks(rest)
    ensures Carries(Text(v, Python), Text(v, JsonLike), rest)
    decreases v, 1
  {
    hide Carries, LitText, LitFormed, NumFormed, ItemsText, EntriesText;
    match v
    case PyNum(text) => TranslateNum(text, rest);
    case PyBool(b) => TranslateKeyword(if b then "True" else "False", rest);
    case PyNone => TranslateKeyword("None", rest);
    case PyStr(lit) => TranslateLit(lit, rest);
    case PyList(items, trailing, gap) =>
      EndingMarks(items == [], trailing, gap, "]", rest);
      var end := Ending(items == [], trailing, gap) + "]";
      TranslateMarks(end, rest);
      TranslateItems(items, end + rest);
      Enclosed("[", ItemsText(items, Python), ItemsText(items, JsonLike), end, rest);
    case PyDict(entries, trailing, gap) =>
      EndingMarks(entries == [], trailing, gap, "}", rest);
      var end := Ending(entries == [], trailing, gap) + "}";
      TranslateMarks(end, rest);
      TranslateEntries(entries, end + rest);
      Enclosed("{", EntriesText(entries, Python), EntriesText(entries, JsonLike), end, rest);
  }

  lemma {:induction false} EndingMarks(empty: bool, trailing: bool, gap: string, close: string, rest: string)
    requires AllSpace(gap) && close in {"]", "}"}
    ensures var end := Ending(empty, trailing, gap) + close;
            (forall i :: 0 <= i < |end| ==> Mark(end[i])) && end != "" && Breaks(end + rest)
  {
    var end := Ending(empty, trailing, gap) + close;
    MarksBreak(end, rest);
  }

  lemma {:induction false} Enclosed(open: string, py: string, js: string, end: string, rest: string)
    requires open in {"[", "{"} && Carries(py, js, end + rest) && Carries(end, end, rest)
    ensures Carries(open + (py + end), open + (js + end), rest)
  {
    hide Carries;
    Both(py, js, end, end, rest);
    TranslateMarks(open, (py + end) + rest);
    Both(open, open, py + end, js + end, rest);
  }

  lemma {:induction false} TranslateSlot(s: Slot, rest: string)
    requires SlotFormed(s) && Breaks(rest)
    ensures Carries(SlotText(s, Python), SlotText(s, JsonLike), rest)
    decreases s, 0
  {
    hide Carries, Text, Formed;
    SpaceIsMarks(s.before, "");
    SpaceIsMarks(s.after, "");
    var py, js := Text(s.value, Python), Text(s.value, JsonLike);
    MarksBreak(s.after, rest);
    TranslateValue(s.value, s.after + rest);
    TranslateMarks(s.after, rest);
    Both(py, js, s.after, s.after, rest);
    TranslateMarks(s.before, (py + s.after) + rest);
    Both(s.before, s.before, py + s.after, js + s.after, rest);
  }

  lemma {:induction false} TranslateItems(items: seq<Slot>, rest: string)
    requires (forall i :: 0 <= i < |items| ==> SlotFormed(items[i])) && Breaks(rest)
    ensures Carries(ItemsText(items, Python), ItemsText(items, JsonLike), rest)
    decreases items, 0
  {
    hide Carries, SlotText, SlotFormed;
    if items == [] {
      TranslateMarks("", rest);
    } else if |items| == 1 {
      TranslateSlot(items[0], rest);
    } else {
      var py, js := ItemsText(items[1..], Python), ItemsText(items[1..], JsonLike);
      TranslateItems(items[1..], rest);
      TranslateMarks(",", py + rest);
      Both(",", ",", py, js, rest);
      assert ("," + py) + rest == "," + (py + rest);
      MarksBreak(",", py + rest);
      TranslateSlot(items[0], ("," + py) + rest);
      Both(SlotText(items[0], Python), SlotText(items[0], JsonLike), "," + py, "," + js, rest);
    }
  }

  lemma {:induction false} TranslateEntry(e: Entry, rest: string)
    requires EntryFormed(e) && Breaks(rest)
    ensures Carries(EntryText(e, Python), EntryText(e, JsonLike), rest)
    decreases e, 0
  {
    hide Carries, SlotText, SlotFormed, LitText, LitFormed;
    SpaceIsMarks(e.before, "");
    SpaceIsMarks(e.gap, "");
    var py, js := SlotText(e.value, Python), SlotText(e.value, JsonLike);
    TranslateSlot(e.value, rest);
    TranslateMarks(":", py + rest);
    Both(":", ":", py, js, rest);
    TranslateMarks(e.gap, (":" + py) + rest);
    Both(e.gap, e.gap, ":" + py, ":" + js, rest);
    TranslateLit(e.key, (e.gap + (":" + py)) + rest);
    Both(LitText(e.key, Python), LitText(e.key, JsonLike), e.gap + (":" + py), e.gap + (":" + js), rest);
    TranslateMarks(e.before, (LitText(e.key, Python) + (e.gap + (":" + py))) + rest);
    Both(e.before, e.before, LitText(e.key, Python) + (e.gap + (":" + py)), LitText(e.key, JsonLike) + (e.gap + (":" + js)), rest);
  }

  lemma {:induction false} TranslateEntries(entries: seq<Entry>, rest: string)
    requires (forall i :: 0 <= i < |entries| ==> EntryFormed(entries[i])) && Breaks(rest)
    ensures Carries(EntriesText(entries, Python), EntriesText(entries, JsonLike), rest)
    decreases entries, 0
  {
    hide Carries, EntryText, EntryFormed;
    if entries == [] {
      TranslateMarks("", rest);
    } else if |entries| == 1 {
      TranslateEntry(entries[0], rest);
    } else {
      var py, js := EntriesText(entries[1..], Python), EntriesText(entries[1..], JsonLike);
      TranslateEntries(entries[1..], rest);
      TranslateMarks(",", py + rest);
      Both(",", ",", py, js, rest);
      assert ("," + py) + rest == "," + (py + rest);
      MarksBreak(",", py + rest);
      TranslateEntry(entries[0], ("," + py) + rest);
      Both(EntryText(entries[0], Python), EntryText(entries[0], JsonLike), "," + py, "," + js, rest);
    }
  }

  /** So a value by itself is translated from one spelling to the other. */
  lemma {:induction false} TranslateWhole(s: Slot)
    requires SlotFormed(s)
    ensures Translate(SlotText(s, Python), false, Outside) == SlotText(s, JsonLike)
  {
    hide SlotText, Translate, SlotFormed;
    TranslateSlot(s, "");
    TranslateNothing(false, Outside);
    assert SlotText(s, Python) + "" == SlotText(s, Python);
    assert SlotText(s, JsonLike) + "" == SlotText(s, JsonLike);
  }
}
