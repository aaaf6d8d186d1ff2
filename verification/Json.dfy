/**
 * JSON texts (RFC 8259): a reader for them, the string escaping of dump(), and
 * the brace scanner that the tool-call mapper runs over unfinished texts.
 */
module Json {
  import opened Words

  datatype Json =
    | JNull
    | JBool(b: bool)
    | JNum(text: string)
    | JStr(s: string)
    | JArr(items: seq<Json>)
    | JObj(members: seq<(string, Json)>)

  // ---------- strings, section 7 ----------

  function HexDigit(n: nat): char
    requires n < 16
  {
    if n < 10 then '0' + n as char else 'a' + (n - 10) as char
  }

  function HexValue(c: char): (r: Option<nat>)
    ensures r.Some? ==> r.value < 16
  {
    if '0' <= c <= '9' then Some((c as int - '0' as int) as nat)
    else if 'a' <= c <= 'f' then Some((c as int - 'a' as int + 10) as nat)
    else if 'A' <= c <= 'F' then Some((c as int - 'A' as int + 10) as nat)
    else None
  }

  /** How dump() writes one character inside a string. */
  function EscapeChar(c: char): string {
    if c == '"' then "\\\""
    else if c == '\\' then "\\\\"
    else if c == '\n' then "\\n"
    else if c == '\t' then "\\t"
    else if c == '\r' then "\\r"
    else if c as int == 8 then "\\b"
    else if c as int == 12 then "\\f"
    else if c < ' ' then "\\u00" + [HexDigit(c as int / 16), HexDigit(c as int % 16)]
    else [c]
  }

  /** The inside of the JSON string for `s`. */
  function Escape(s: string): string {
    if s == "" then "" else EscapeChar(s[0]) + Escape(s[1..])
  }

  /** dump() of a string value. */
  function Dump(s: string): string { "\"" + Escape(s) + "\"" }

  lemma {:induction false} EscapeConcat(a: string, b: string)
    ensures Escape(a + b) == Escape(a) + Escape(b)
  {
    if a == "" {
      assert a + b == b;
    } else {
      assert (a + b)[1..] == a[1..] + b;
      EscapeConcat(a[1..], b);
    }
  }

  /** The two-character escapes. */
  function SimpleEscape(e: char): Option<char> {
    if e == '"' || e == '\\' || e == '/' then Some(e)
    else if e == 'b' then Some(8 as char)
    else if e == 'f' then Some(12 as char)
    else if e == 'n' then Some('\n')
    else if e == 'r' then Some('\r')
    else if e == 't' then Some('\t')
    else None
  }

  function FourHex(s: string): (r: Option<nat>)
    requires |s| >= 4
    ensures r.Some? ==> r.value < 0x1_0000
  {
    var (a, b, c, d) := (HexValue(s[0]), HexValue(s[1]), HexValue(s[2]), HexValue(s[3]));
    if a.Some? && b.Some? && c.Some? && d.Some?
    then Some(a.value * 4096 + b.value * 256 + c.value * 16 + d.value) else None
  }

  /** The code that `\uXXXX` at the front of `s` stands for. */
  function Code(s: string): (r: Option<nat>)
    ensures r.Some? ==> |s| >= 6 && r.value < 0x1_0000
  {
    if |s| >= 6 && s[0] == '\\' && s[1] == 'u' then FourHex(s[2..]) else None
  }

  predicate IsHigh(code: nat) { 0xD800 <= code < 0xDC00 }

  predicate IsLow(code: nat) { 0xDC00 <= code < 0xE000 }

  predicate IsSurrogate(code: nat) { IsHigh(code) || IsLow(code) }

  /** The character a surrogate pair stands for. */
  function Astral(high: nat, low: nat): char
    requires IsHigh(high) && IsLow(low)
  {
    (0x1_0000 + (high - 0xD800) * 0x400 + (low - 0xDC00)) as char
  }

  /** One character of a string and what follows it. A surrogate must have its partner. */
  function ReadChar(s: string): (r: Option<(char, string)>)
    ensures r.Some? ==> |r.value.1| < |s|
  {
    if s == "" || s[0] < ' ' || s[0] == '"' then None
    else if s[0] != '\\' then Some((s[0], s[1..]))
    else if |s| < 2 then None
    else if SimpleEscape(s[1]).Some? then Some((SimpleEscape(s[1]).value, s[2..]))
    else
      match Code(s)
      case None => None
      case Some(n) =>
        if !IsSurrogate(n) then Some((n as char, s[6..]))
        else
          var low := Code(s[6..]);
          if IsHigh(n) && low.Some? && IsLow(low.value) then Some((Astral(n, low.value), s[12..])) else None
  }

  /** The rest of a string, up to its closing quote, and what follows it. */
  function ReadString(s: string): (r: Option<(string, string)>)
    ensures r.Some? ==> |r.value.1| < |s|
    decreases |s|
  {
    if s != "" && s[0] == '"' then Some(("", s[1..])) else
      var c := ReadChar(s);
      if c.None? then None else
        var rest := ReadString(c.value.1);
        if rest.None? then None else Some(([c.value.0] + rest.value.0, rest.value.1))
  }

  lemma {:induction false} HexRoundTrip(n: nat)
    requires n < 16
    ensures HexValue(HexDigit(n)) == Some(n)
  {
  }

  predicate LowerHex(s: string) { forall i :: 0 <= i < |s| ==> !('A' <= s[i] <= 'F') }

  /** Of all spellings of a character this is the shortest, and the only one of that length without capital digits. */
  lemma {:induction false} ShortestSpelling(c: char, t: string)
    requires ReadChar(t) == Some((c, ""))
    ensures |EscapeChar(c)| <= |t|
    ensures |t| == |EscapeChar(c)| && (c < ' ' ==> LowerHex(t)) ==> t == EscapeChar(c)
  {
    if t[0] != '\\' {
      assert t == [t[0]] + t[1..];
    } else if SimpleEscape(t[1]).Some? {
      assert t == [t[0], t[1]] + t[2..];
    } else if Code(t).Some? && !IsSurrogate(Code(t).value) {
      assert t == t[..6] + t[6..];
      if |EscapeChar(c)| == 6 && LowerHex(t) { LowerDigits(t, c); }
    }
  }

  lemma {:induction false} LowerDigits(t: string, c: char)
    requires |t| == 6 && Code(t) == Some(c as int) && c < ' ' && LowerHex(t)
    ensures t == "\\u00" + [HexDigit(c as int / 16), HexDigit(c as int % 16)]
  {
    var h := t[2..];
    assert h[0] == t[2] && h[1] == t[3] && h[2] == t[4] && h[3] == t[5];
    var a, b, d, e := HexValue(h[0]).value, HexValue(h[1]).value, HexValue(h[2]).value, HexValue(h[3]).value;
    assert a == 0 && b == 0;
    assert c as int / 16 == d && c as int % 16 == e;
    LowerDigit(h[0]);
    LowerDigit(h[1]);
    LowerDigit(h[2]);
    LowerDigit(h[3]);
  }

  lemma {:induction false} LowerDigit(c: char)
    requires HexValue(c).Some? && !('A' <= c <= 'F')
    ensures HexDigit(HexValue(c).value) == c
  {
  }

  lemma {:induction false} ReadEscapedChar(c: char, rest: string)
    ensures ReadChar(EscapeChar(c) + rest) == Some((c, rest))
    ensures EscapeChar(c) != "" && EscapeChar(c)[0] != '"'
  {
    var s := EscapeChar(c) + rest;
    assert s[|EscapeChar(c)|..] == rest;
    if |EscapeChar(c)| == 6 {
      var n := c as int;
      HexRoundTrip(n / 16);
      HexRoundTrip(n % 16);
      assert s[0] == '\\' && s[1] == 'u' && s[2..][0] == '0' && s[2..][1] == '0';
      assert s[2..][2] == HexDigit(n / 16) && s[2..][3] == HexDigit(n % 16);
      assert FourHex(s[2..]) == Some(n);
      assert n as char == c;
    }
  }

  /** Reading back what dump() wrote gives the string. */
  lemma {:induction false} ReadEscaped(s: string, rest: string)
    ensures ReadString(Escape(s) + "\"" + rest) == Some((s, rest))
  {
    hide ReadChar, EscapeChar;
    if s == "" {
      assert (Escape(s) + "\"" + rest)[1..] == rest;
    } else {
      var tail := Escape(s[1..]) + "\"" + rest;
      assert Escape(s) + "\"" + rest == EscapeChar(s[0]) + tail;
      ReadEscapedChar(s[0], tail);
      ReadEscaped(s[1..], rest);
      assert [s[0]] + s[1..] == s;
    }
  }

  // ---------- values ----------

  predicate IsSpace(c: char) { c == ' ' || c == '\n' || c == '\r' || c == '\t' }

  function SkipSpace(s: string): (r: string)
    ensures |r| <= |s|
  {
    if s != "" && IsSpace(s[0]) then SkipSpace(s[1..]) else s
  }

  // numbers, section 6

  predicate IsDigit(c: char) { '0' <= c <= '9' }

  function DigitRun(s: string): (n: nat)
    ensures n <= |s|
  {
    if s != "" && IsDigit(s[0]) then 1 + DigitRun(s[1..]) else 0
  }

  predicate IsExponent(s: string) {
    s == "" ||
    ((s[0] == 'e' || s[0] == 'E') &&
     var t := if |s| > 1 && (s[1] == '+' || s[1] == '-') then s[2..] else s[1..];
     t != "" && DigitRun(t) == |t|)
  }

  predicate IsFraction(s: string) {
    if s != "" && s[0] == '.' then
      var n := DigitRun(s[1..]);
      n > 0 && IsExponent(s[1 + n..])
    else IsExponent(s)
  }

  predicate IsNumber(s: string) {
    var t := if s != "" && s[0] == '-' then s[1..] else s;
    var n := DigitRun(t);
    n > 0 && (n == 1 || t[0] != '0') && IsFraction(t[n..])
  }

  /** Characters that cannot follow a number without a break. */
  predicate IsTokenChar(c: char) {
    IsDigit(c) || 'a' <= c <= 'z' || 'A' <= c <= 'Z' || c == '_' || c == '-' || c == '+' || c == '.'
  }

  function TokenRun(s: string): (n: nat)
    ensures n <= |s|
  {
    if s != "" && IsTokenChar(s[0]) then 1 + TokenRun(s[1..]) else 0
  }

  /** A value at the front of `s`, and what follows it. Numbers are kept as written. */
  function ReadValue(s: string): (r: Option<(Json, string)>)
    ensures r.Some? ==> |r.value.1| < |s|
    decreases |s|, 2
  {
    var t := SkipSpace(s);
    if t == "" then None
    else if "null" <= t then Some((JNull, t[4..]))
    else if "true" <= t then Some((JBool(true), t[4..]))
    else if "false" <= t then Some((JBool(false), t[5..]))
    else if t[0] == '"' then
      var str := ReadString(t[1..]);
      if str.None? then None else Some((JStr(str.value.0), str.value.1))
    else if t[0] == '[' then
      var u := SkipSpace(t[1..]);
      if u != "" && u[0] == ']' then Some((JArr([]), u[1..])) else
        var items := ReadItems(t[1..]);
        if items.None? then None else Some((JArr(items.value.0), items.value.1))
    else if t[0] == '{' then
      var u := SkipSpace(t[1..]);
      if u != "" && u[0] == '}' then Some((JObj([]), u[1..])) else
        var members := ReadMembers(t[1..]);
        if members.None? then None else Some((JObj(members.value.0), members.value.1))
    else
      var n := TokenRun(t);
      if !IsNumber(t[..n]) then None else Some((JNum(t[..n]), t[n..]))
  }

  /** One or more array items up to the closing bracket. */
  function ReadItems(s: string): (r: Option<(seq<Json>, string)>)
    ensures r.Some? ==> |r.value.1| < |s|
    decreases |s|, 3
  {
    var v := ReadValue(s);
    if v.None? then None else
      var t := SkipSpace(v.value.1);
      if t == "" then None
      else if t[0] == ']' then Some(([v.value.0], t[1..]))
      else if t[0] == ',' then
        var more := ReadItems(t[1..]);
        if more.None? then None else Some(([v.value.0] + more.value.0, more.value.1))
      else None
  }

  /** `"name" :` at the front of `s`. */
  function ReadKey(s: string): (r: Option<(string, string)>)
    ensures r.Some? ==> |r.value.1| < |s|
  {
    var t := SkipSpace(s);
    if t == "" || t[0] != '"' then None else
      var name := ReadString(t[1..]);
      if name.None? then None else
        var u := SkipSpace(name.value.1);
        if u == "" || u[0] != ':' then None else Some((name.value.0, u[1..]))
  }

  /** One or more object members up to the closing brace. */
  function ReadMembers(s: string): (r: Option<(seq<(string, Json)>, string)>)
    ensures r.Some? ==> |r.value.1| < |s|
    decreases |s|, 3
  {
    var key := ReadKey(s);
    if key.None? then None else
      var v := ReadValue(key.value.1);
      if v.None? then None else
        var t := SkipSpace(v.value.1);
        if t == "" then None
        else if t[0] == '}' then Some(([(key.value.0, v.value.0)], t[1..]))
        else if t[0] == ',' then
          var more := ReadMembers(t[1..]);
          if more.None? then None else Some(([(key.value.0, v.value.0)] + more.value.0, more.value.1))
        else None
  }

  /** A whole JSON text. */
  function Parse(s: string): Option<Json> {
    var v := ReadValue(s);
    if v.None? || SkipSpace(v.value.1) != "" then None else Some(v.value.0)
  }

  // ---------- reading composed texts ----------

  predicate AllSpace(gap: string) { forall i :: 0 <= i < |gap| ==> IsSpace(gap[i]) }

  lemma {:induction false} SkipGap(gap: string, rest: string)
    requires AllSpace(gap)
    ensures SkipSpace(gap + rest) == SkipSpace(rest)
  {
    if gap == "" {
      assert gap + rest == rest;
    } else {
      assert (gap + rest)[1..] == gap[1..] + rest;
      SkipGap(gap[1..], rest);
    }
  }

  lemma {:induction false} ReadValueAfterGap(gap: string, rest: string)
    requires AllSpace(gap)
    ensures ReadValue(gap + rest) == ReadValue(rest)
  {
    SkipGap(gap, rest);
  }

  lemma {:induction false} ReadMembersAfterGap(gap: string, rest: string)
    requires AllSpace(gap)
    ensures ReadKey(gap + rest) == ReadKey(rest)
    ensures ReadMembers(gap + rest) == ReadMembers(rest)
  {
    SkipGap(gap, rest);
  }

  // ---------- the brace scanner ----------

  datatype Scan = Scan(depth: int, inString: bool, escaped: bool)

  const SCAN_START: Scan := Scan(0, false, false)

  function ScanChar(st: Scan, c: char): Scan {
    if st.escaped then st.(escaped := false)
    else if c == '\\' && st.inString then st.(escaped := true)
    else if c == '"' then st.(inString := !st.inString)
    else if !st.inString then
      if c == '{' then st.(depth := st.depth + 1) else if c == '}' then st.(depth := st.depth - 1) else st
    else st
  }

  function ScanAll(st: Scan, s: string): Scan
    decreases |s|
  {
    if s == "" then st else ScanAll(ScanChar(st, s[0]), s[1..])
  }

  lemma {:induction false} ScanConcat(st: Scan, a: string, b: string)
    ensures ScanAll(st, a + b) == ScanAll(ScanAll(st, a), b)
    decreases |a|
  {
    if a == "" {
      assert a + b == b;
    } else {
      assert (a + b)[1..] == a[1..] + b;
      ScanConcat(ScanChar(st, a[0]), a[1..], b);
    }
  }

  /** Braces left open, ignoring those inside strings. */
  method BraceDepth(s: string) returns (depth: int)
    ensures depth == ScanAll(SCAN_START, s).depth
  {
    depth := 0;
    var inString, escaped := false, false;
    var i := 0;
    while i < |s|
      invariant 0 <= i <= |s|
      invariant ScanAll(SCAN_START, s) == ScanAll(Scan(depth, inString, escaped), s[i..])
    {
      var c := s[i];
      assert s[i..][1..] == s[i + 1..];
      if escaped {
        escaped := false;
      } else if c == '\\' && inString {
        escaped := true;
      } else if c == '"' {
        inString := !inString;
      } else if !inString {
        if c == '{' {
          depth := depth + 1;
        } else if c == '}' {
          depth := depth - 1;
        }
      }
      i := i + 1;
    }
  }

  lemma {:induction false} ScanTwo(st: Scan, p: string)
    requires |p| == 2
    ensures ScanAll(st, p) == ScanChar(ScanChar(st, p[0]), p[1])
  {
    var st' := ScanChar(st, p[0]);
    assert ScanAll(st, p) == ScanAll(st', p[1..]);
    assert ScanAll(st', p[1..]) == ScanAll(ScanChar(st', p[1..][0]), p[1..][1..]);
    assert p[1..][1..] == "";
  }

  lemma {:induction false} ScanEscapedChar(depth: int, c: char)
    ensures ScanAll(Scan(depth, true, false), EscapeChar(c)) == Scan(depth, true, false)
  {
    var st, e := Scan(depth, true, false), EscapeChar(c);
    if |e| == 1 {
      assert e[1..] == "";
    } else if |e| == 2 {
      ScanTwo(st, e);
    } else {
      ScanConcat(st, "\\u00", e[4..]);
      assert e == "\\u00" + e[4..];
      ScanConcat(st, "\\u", "00");
      assert "\\u00" == "\\u" + "00";
      assert ScanAll(st, "\\u") == st;
      PlainPair(depth, "00");
      PlainPair(depth, e[4..]);
    }
  }

  lemma {:induction false} PlainPair(depth: int, p: string)
    requires |p| == 2 && p[0] != '\\' && p[1] != '\\' && p[0] != '"' && p[1] != '"'
    ensures ScanAll(Scan(depth, true, false), p) == Scan(depth, true, false)
  {
    ScanTwo(Scan(depth, true, false), p);
  }

  /** Escaped text neither ends its string nor counts as braces. */
  lemma {:induction false} ScanEscaped(depth: int, s: string)
    ensures ScanAll(Scan(depth, true, false), Escape(s)) == Scan(depth, true, false)
  {
    hide EscapeChar;
    if s != "" {
      ScanConcat(Scan(depth, true, false), EscapeChar(s[0]), Escape(s[1..]));
      ScanEscapedChar(depth, s[0]);
      ScanEscaped(depth, s[1..]);
    }
  }

  /** `s` leaves the scanner where it was. */
  ghost predicate Balanced(s: string) {
    forall depth: int :: ScanAll(Scan(depth, false, false), s) == Scan(depth, false, false)
  }

  lemma {:induction false} BalancedConcat(a: string, b: string)
    requires Balanced(a) && Balanced(b)
    ensures Balanced(a + b)
  {
    forall depth: int ensures ScanAll(Scan(depth, false, false), a + b) == Scan(depth, false, false) {
      ScanConcat(Scan(depth, false, false), a, b);
    }
  }

  lemma {:induction false} PlainIsBalanced(s: string)
    requires forall i :: 0 <= i < |s| ==> s[i] !in {'"', '{', '}'}
    ensures Balanced(s)
  {
    if s != "" { PlainIsBalanced(s[1..]); }
  }

  lemma {:induction false} DumpIsBalanced(s: string)
    ensures Balanced(Dump(s))
  {
    forall depth: int ensures ScanAll(Scan(depth, false, false), Dump(s)) == Scan(depth, false, false) {
      QuotedScan(depth, Escape(s));
      ScanEscaped(depth, s);
    }
  }

  lemma {:induction false} QuotedScan(depth: int, inner: string)
    ensures ScanAll(Scan(depth, false, false), "\"" + inner + "\"") ==
            ScanAll(ScanAll(Scan(depth, true, false), inner), "\"")
    ensures ScanAll(Scan(depth, true, false), "\"") == Scan(depth, false, false)
  {
    assert "\"" + inner + "\"" == "\"" + (inner + "\"");
    assert ("\"" + (inner + "\""))[1..] == inner + "\"";
    ScanConcat(Scan(depth, true, false), inner, "\"");
    assert "\""[1..] == "";
  }
}
