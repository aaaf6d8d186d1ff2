/** Translating a literal while it is still arriving: when what has been written so far stays as it is. */
module PyJsonStream {
  import opened Words
  import opened Json
  import opened PyJson

  // ---------- where the input stops ----------

  /** Whether the input stops after a backslash in a single-quoted string, or in a word that may become True, False or None. */
  datatype Stop = Plainly | Escaping | InWord(token: string)

  function StopOf(s: string, afterWord: bool, mode: Mode): Stop
    decreases |s|
  {
    if s == "" then Plainly else
      var c := s[0];
      if c == '\\' then
        if |s| == 1 then (if mode == InSingle then Escaping else Plainly)
        else if mode == Outside then StopOf(s[1..], false, mode)
        else StopOf(s[2..], IsWordChar(s[1]), mode)
      else if c == '"' && mode != InSingle then StopOf(s[1..], false, if mode == InDouble then Outside else InDouble)
      else if c == '\'' && mode != InDouble then StopOf(s[1..], false, if mode == InSingle then Outside else InSingle)
      else if mode == Outside && StartsLiteral(c) && !afterWord then
        var n := WordRun(s);
        if Literal(s[..n]).None? then StopOf(s[1..], true, mode)
        else if n == |s| then InWord(s)
        else StopOf(s[n..], true, mode)
      else StopOf(s[1..], IsWordChar(c), mode)
  }

  /** What arrives next neither turns an escaped quote into a plain one nor makes another word of the one begun. */
  predicate GoesOn(stop: Stop, more: string) {
    match stop
    case Plainly => true
    case Escaping => more == "" || more[0] != '\''
    case InWord(token) => Literal(token + more[..WordRun(more)]).Some?
  }

  /** The translation of `s` with `more` behind it begins with the translation of `s`. */
  ghost predicate Extends(s: string, more: string, afterWord: bool, mode: Mode) {
    Translate(s, afterWord, mode) <= Translate(s + more, afterWord, mode)
  }

  lemma {:induction false} SamePrefix(w: string, a: string, b: string)
    ensures w + a <= w + b <==> a <= b
  {
    assert (w + a)[|w|..] == a && (w + b)[|w|..] == b;
    if w + a <= w + b { assert (w + b)[..|w + a|][|w|..] == a && b[..|a|] == (w + b)[|w|..|w| + |a|]; }
    if a <= b { assert (w + b)[..|w + a|] == w + b[..|a|]; }
  }

  lemma {:induction false} WordRunGoesOn(s: string, more: string)
    ensures WordRun(s) < |s| ==> WordRun(s + more) == WordRun(s)
    ensures WordRun(s) == |s| ==> WordRun(s + more) == |s| + WordRun(more)
  {
    if s == "" {
      assert s + more == more;
    } else {
      assert (s + more)[1..] == s[1..] + more;
      WordRunGoesOn(s[1..], more);
    }
  }

  /** The three literals start with different letters, and a word keeps to the one it began. */
  lemma {:induction false} LiteralLonger(token: string, more: string)
    requires token != ""
    ensures Literal(token + more).Some? ==> Literal(token).Some? && Literal(token).value <= Literal(token + more).value
    ensures Literal(token).Some? ==> Literal(token).value != "" && token[0] in {'T', 'F', 'N'} && Literal(token).value[0] in {'t', 'f', 'n'}
  {
    var longer := token + more;
    assert longer[0] == token[0] && longer[..|token|] == token;
    assert "True"[0] == 'T' && "False"[0] == 'F' && "None"[0] == 'N';
    if longer <= "True" { assert token <= "True" && token[0] == "True"[0]; }
    if longer <= "False" { assert token <= "False" && token[0] == "False"[0]; }
    if longer <= "None" { assert token <= "None" && token[0] == "None"[0]; }
  }

  /** The part that the first turn of the loop takes, the same with and without what arrives later. */
  lemma {:induction false} ExtendsAt(s: string, more: string, afterWord: bool, mode: Mode, n: nat, w: string, afterWord': bool, mode': Mode)
    requires n <= |s|
    requires Translate(s, afterWord, mode) == w + Translate(s[n..], afterWord', mode')
    requires Translate(s + more, afterWord, mode) == w + Translate((s + more)[n..], afterWord', mode')
    ensures Extends(s, more, afterWord, mode) <==> Extends(s[n..], more, afterWord', mode')
  {
    hide Translate;
    assert (s + more)[n..] == s[n..] + more;
    SamePrefix(w, Translate(s[n..], afterWord', mode'), Translate(s[n..] + more, afterWord', mode'));
  }

  lemma {:induction false} AfterBackslash(more: string, mode: Mode, afterWord: bool)
    ensures Extends("\\", more, afterWord, mode) <==> mode != InSingle || more == "" || more[0] != '\''
  {
    var s := "\\";
    assert s[1..] == "" && Translate(s, afterWord, mode) == s + Translate("", IsWordChar('\\'), mode) == s;
    if more == "" {
      assert s + more == s;
    } else {
      var all := s + more;
      assert all[0] == '\\' && all[1] == more[0];
    }
  }

  lemma {:induction false} AfterToken(s: string, more: string, afterWord: bool)
    requires s != "" && WordRun(s) == |s| && StartsLiteral(s[0]) && !afterWord && Literal(s).Some?
    ensures Extends(s, more, afterWord, Outside) <==> GoesOn(InWord(s), more)
  {
    WordRunGoesOn(s, more);
    var n := |s| + WordRun(more);
    var all, token := s + more, s + more[..WordRun(more)];
    assert all[..n] == token && s[..|s|] == s && s[|s|..] == "" && all[0] == s[0] == token[0];
    LiteralLonger(s, more[..WordRun(more)]);
    LiteralLonger(s, "");
    LiteralLonger(token, "");
    assert s + "" == s && token + "" == token;
    hide Literal, WordRun;
    assert Translate(s, afterWord, Outside) == Literal(s).value + Translate("", true, Outside) == Literal(s).value;
    if Literal(token).Some? {
      assert Translate(all, afterWord, Outside) == Literal(token).value + Translate(all[n..], true, Outside);
    } else {
      assert Translate(all, afterWord, Outside) == [all[0]] + Translate(all[1..], true, Outside);
      assert Literal(s).value[0] != all[0];
    }
  }

  /** What a character writes that starts neither an escape nor a literal, and what it leaves behind. */
  function OneChar(c: char, mode: Mode): (string, bool, Mode) {
    if c == '"' then
      if mode == InSingle then ("\\\"", false, mode) else ([c], false, if mode == InDouble then Outside else InDouble)
    else if c == '\'' then
      if mode == InDouble then ([c], false, mode) else ("\"", false, if mode == InSingle then Outside else InSingle)
    else ([c], IsWordChar(c), mode)
  }

  /**
   * Exactly when is the translation of what has arrived so far a prefix of the
   * translation of it all: unless the input stops in an escaped quote or in a word
   * that becomes another one.
   */
  lemma {:induction false} GrowsExactly(s: string, more: string, afterWord: bool, mode: Mode)
    ensures Translate(s, afterWord, mode) <= Translate(s + more, afterWord, mode) <==> GoesOn(StopOf(s, afterWord, mode), more)
    decreases |s|
  {
    hide Translate, GoesOn, Literal, WordRun, OneChar;
    if s == "" {
      TranslateNothing(afterWord, mode);
      StoppedBefore(more, afterWord, mode);
    } else if s == "\\" {
      AfterBackslash(more, mode, afterWord);
      StoppedEscaping(more, afterWord, mode);
    } else if mode == Outside && StartsLiteral(s[0]) && !afterWord {
      WordGrows(s, more);
    } else if s[0] == '\\' && mode != Outside {
      GrowsExactly(s[2..], more, IsWordChar(s[1]), mode);
      EscapeGrows(s, more, afterWord, mode);
    } else {
      var (_, afterWord', mode') := OneChar(s[0], mode);
      GrowsExactly(s[1..], more, afterWord', mode');
      CharGrows(s, more, afterWord, mode);
    }
  }

  lemma {:induction false} StoppedBefore(more: string, afterWord: bool, mode: Mode)
    ensures GoesOn(StopOf("", afterWord, mode), more)
  {
  }

  lemma {:induction false} StoppedEscaping(more: string, afterWord: bool, mode: Mode)
    ensures GoesOn(StopOf("\\", afterWord, mode), more) <==> mode != InSingle || more == "" || more[0] != '\''
  {
  }

  lemma {:induction false} EscapeGrows(s: string, more: string, afterWord: bool, mode: Mode)
    requires |s| > 1 && s[0] == '\\' && mode != Outside
    ensures Extends(s, more, afterWord, mode) <==> Extends(s[2..], more, IsWordChar(s[1]), mode)
    ensures StopOf(s, afterWord, mode) == StopOf(s[2..], IsWordChar(s[1]), mode)
  {
    var c, all := s[0], s + more;
    assert all[0] == c && all[1] == s[1];
    hide Literal, WordRun;
    var w := if mode == InSingle && s[1] == '\'' then "'" else if mode == InSingle && s[1] == '"' then "\\\"" else [c, s[1]];
    ExtendsAt(s, more, afterWord, mode, 2, w, IsWordChar(s[1]), mode);
  }

  lemma {:induction false} StopOfChar(s: string, afterWord: bool, mode: Mode)
    requires s != "" && !(mode == Outside && StartsLiteral(s[0]) && !afterWord) && (s[0] == '\\' ==> mode == Outside)
    ensures var (_, afterWord', mode') := OneChar(s[0], mode);
            StopOf(s, afterWord, mode) == StopOf(s[1..], afterWord', mode')
  {
    hide Literal, WordRun;
  }

  lemma {:induction false} CharGrows(s: string, more: string, afterWord: bool, mode: Mode)
    requires s != "" && s != "\\" && !(mode == Outside && StartsLiteral(s[0]) && !afterWord) && (s[0] == '\\' ==> mode == Outside)
    ensures var (_, afterWord', mode') := OneChar(s[0], mode);
            && (Extends(s, more, afterWord, mode) <==> Extends(s[1..], more, afterWord', mode'))
            && StopOf(s, afterWord, mode) == StopOf(s[1..], afterWord', mode')
  {
    StopOfChar(s, afterWord, mode);
    hide Literal, WordRun, StopOf;
    var all := s + more;
    assert all[0] == s[0] && (|s| == 1 ==> s == [s[0]]);
    var (w, afterWord', mode') := OneChar(s[0], mode);
    ExtendsAt(s, more, afterWord, mode, 1, w, afterWord', mode');
  }

  lemma {:induction false} WordGrows(s: string, more: string)
    requires s != "" && StartsLiteral(s[0])
    ensures Extends(s, more, false, Outside) <==> GoesOn(StopOf(s, false, Outside), more)
    decreases |s|, 0
  {
    var n := WordRun(s);
    WordRunGoesOn(s, more);
    WordStarts(s);
    var all := s + more;
    assert all[..n] == s[..n] && all[0] == s[0];
    if Literal(s[..n]).Some? && n == |s| {
      assert s[..n] == s;
      AfterToken(s, more, false);
    } else if Literal(s[..n]).Some? {
      GrowsExactly(s[n..], more, true, Outside);
      hide GoesOn, Literal, WordRun;
      ExtendsAt(s, more, false, Outside, n, Literal(s[..n]).value, true, Outside);
    } else {
      GrowsExactly(s[1..], more, true, Outside);
      LiteralLonger(s[..n], all[n..WordRun(all)]);
      assert all[..WordRun(all)] == s[..n] + all[n..WordRun(all)];
      hide GoesOn, Literal, WordRun;
      ExtendsAt(s, more, false, Outside, 1, [s[0]], true, Outside);
    }
  }

  // ---------- inputs that never shrink ----------

  /** No single-quoted string has an escaped quote, and every word that could be a literal is the beginning of one. */
  predicate Steady(s: string, afterWord: bool, mode: Mode)
    decreases |s|
  {
    s == "" ||
    (var c := s[0];
     if c == '\\' && |s| > 1 && mode != Outside then
       !(mode == InSingle && s[1] == '\'') && Steady(s[2..], IsWordChar(s[1]), mode)
     else if mode == Outside && StartsLiteral(c) && !afterWord then
       var n := WordRun(s);
       n > 0 && Literal(s[..n]).Some? && Steady(s[n..], true, mode)
     else
       var (_, afterWord', mode') := OneChar(c, mode);
       Steady(s[1..], afterWord', mode'))
  }

  ghost predicate CutGoesOn(s: string, k: nat, afterWord: bool, mode: Mode)
    requires k <= |s|
  {
    GoesOn(StopOf(s[..k], afterWord, mode), s[k..])
  }

  lemma {:induction false} CutLater(s: string, k: nat, n: nat)
    requires n <= k <= |s|
    ensures s[n..][..k - n] == s[..k][n..] && s[n..][k - n..] == s[k..] && |s[n..]| == |s| - n
  {
  }

  lemma {:induction false} SteadyWordCut(s: string, k: nat)
    requires 0 < k <= WordRun(s) && StartsLiteral(s[0]) && Literal(s[..WordRun(s)]).Some?
    ensures CutGoesOn(s, k, false, Outside)
  {
    var n := WordRun(s);
    var a, b := s[..k], s[k..];
    WordOfPrefix(s, k);
    WordRunGoesOn(a, b);
    hide WordRun, Literal, IsWordChar;
    assert a + b == s && a + b[..n - k] == s[..n] && a[..k] == a;
    LiteralLonger(a, b[..n - k]);
    StopsInWord(a);
  }

  lemma {:induction false} StopsInWord(a: string)
    requires a != "" && WordRun(a) == |a| && StartsLiteral(a[0]) && Literal(a).Some?
    ensures StopOf(a, false, Outside) == InWord(a)
  {
    assert a[..|a|] == a;
    hide WordRun, Literal, IsWordChar;
  }

  lemma {:induction false} WordOfPrefix(s: string, k: nat)
    requires k <= |s|
    ensures WordRun(s[..k]) == Least(k, WordRun(s))
  {
    if k > 0 && IsWordChar(s[0]) {
      assert s[..k][1..] == s[1..][..k - 1];
      WordOfPrefix(s[1..], k - 1);
    }
  }

  lemma {:induction false} CutAfterEscape(s: string, k: nat, afterWord: bool, mode: Mode)
    requires 2 <= k <= |s| && s[0] == '\\' && mode != Outside
    ensures CutGoesOn(s, k, afterWord, mode) <==> CutGoesOn(s[2..], k - 2, IsWordChar(s[1]), mode)
  {
    CutLater(s, k, 2);
    assert s[..k][0] == s[0] && s[..k][1] == s[1];
    hide GoesOn;
  }

  lemma {:induction false} CutAfterWord(s: string, k: nat)
    requires 0 < WordRun(s) < k <= |s| && StartsLiteral(s[0]) && Literal(s[..WordRun(s)]).Some?
    ensures CutGoesOn(s, k, false, Outside) <==> CutGoesOn(s[WordRun(s)..], k - WordRun(s), true, Outside)
  {
    var n := WordRun(s);
    WordOfPrefix(s, k);
    CutLater(s, k, n);
    assert s[..k][0] == s[0] && s[..k][..n] == s[..n];
    hide GoesOn, Literal, WordRun;
  }

  lemma {:induction false} CutAfterChar(s: string, k: nat, afterWord: bool, mode: Mode)
    requires 0 < k <= |s| && !(mode == Outside && StartsLiteral(s[0]) && !afterWord)
    requires s[0] == '\\' ==> mode == Outside || |s| == 1
    ensures var (_, afterWord', mode') := OneChar(s[0], mode);
            CutGoesOn(s, k, afterWord, mode) <==> CutGoesOn(s[1..], k - 1, afterWord', mode')
  {
    hide GoesOn, StopOf;
    if s[0] == '\\' && mode != Outside {
      hide CutGoesOn;
      var (_, afterWord', mode') := OneChar(s[0], mode);
      CutEscaping(s, afterWord, mode);
      CutNothing(s[1..], afterWord', mode');
    } else {
      CutLater(s, k, 1);
      assert s[..k][0] == s[0];
      StopOfChar(s[..k], afterWord, mode);
    }
  }

  lemma {:induction false} CutEscaping(s: string, afterWord: bool, mode: Mode)
    requires s != "" && s[0] == '\\' && mode != Outside
    ensures CutGoesOn(s, 1, afterWord, mode) <==> !(mode == InSingle && |s| > 1 && s[1] == '\'')
  {
    assert s[..1] == "\\" && (|s| > 1 ==> s[1..][0] == s[1]);
  }

  lemma {:induction false} CutNothing(s: string, afterWord: bool, mode: Mode)
    ensures CutGoesOn(s, 0, afterWord, mode)
  {
    assert s[..0] == "";
  }

  lemma {:induction false} SteadyCuts(s: string, k: nat, afterWord: bool, mode: Mode)
    requires k <= |s| && Steady(s, afterWord, mode)
    ensures CutGoesOn(s, k, afterWord, mode)
    decreases k
  {
    hide CutGoesOn, Literal, WordRun;
    if k == 0 {
      CutNothing(s, afterWord, mode);
    } else if s[0] == '\\' && mode != Outside {
      if k == 1 {
        CutEscaping(s, afterWord, mode);
      } else {
        CutAfterEscape(s, k, afterWord, mode);
        SteadyCuts(s[2..], k - 2, IsWordChar(s[1]), mode);
      }
    } else if mode == Outside && StartsLiteral(s[0]) && !afterWord {
      if k <= WordRun(s) {
        SteadyWordCut(s, k);
      } else {
        CutAfterWord(s, k);
        SteadyCuts(s[WordRun(s)..], k - WordRun(s), true, mode);
      }
    } else {
      var (_, afterWord', mode') := OneChar(s[0], mode);
      CutAfterChar(s, k, afterWord, mode);
      SteadyCuts(s[1..], k - 1, afterWord', mode');
    }
  }

  /** Where the word that begins `s` is none of the literals, the input shrinks after its first letter. */
  lemma {:induction false} StrayWord(s: string)
    requires s != "" && StartsLiteral(s[0]) && Literal(s[..WordRun(s)]).None?
    ensures !CutGoesOn(s, 1, false, Outside)
  {
    var a, n := s[..1], WordRun(s);
    WordOfPrefix(s, 1);
    WordStarts(s);
    assert a == [s[0]] && a[..1] == a;
    assert a <= "True" || a <= "False" || a <= "None";
    WordRunGoesOn(a, s[1..]);
    assert a + s[1..] == s && a + s[1..][..n - 1] == s[..n];
  }

  /** Some cut of an input that is not steady makes it shrink. */
  lemma {:induction false} UnsteadyCut(s: string, afterWord: bool, mode: Mode) returns (k: nat)
    requires !Steady(s, afterWord, mode)
    ensures 0 < k <= |s| && !CutGoesOn(s, k, afterWord, mode)
    decreases |s|
  {
    hide Literal, WordRun;
    if s[0] == '\\' && |s| > 1 && mode != Outside {
      if mode == InSingle && s[1] == '\'' {
        k := 1;
        CutEscaping(s, afterWord, mode);
      } else {
        var j := UnsteadyCut(s[2..], IsWordChar(s[1]), mode);
        k := j + 2;
        CutAfterEscape(s, k, afterWord, mode);
      }
    } else if mode == Outside && StartsLiteral(s[0]) && !afterWord {
      var n := WordRun(s);
      WordStarts(s);
      if Literal(s[..n]).None? {
        k := 1;
        StrayWord(s);
      } else {
        var j := UnsteadyCut(s[n..], true, mode);
        k := j + n;
        CutAfterWord(s, k);
      }
    } else {
      var (_, afterWord', mode') := OneChar(s[0], mode);
      var j := UnsteadyCut(s[1..], afterWord', mode');
      k := j + 1;
      CutAfterChar(s, k, afterWord, mode);
    }
  }

  lemma {:induction false} WordGoesOnLess(token: string, w: string, more: string)
    requires Literal(token + (w + more)).Some?
    ensures Literal(token + w).Some?
  {
    assert token + (w + more) == (token + w) + more;
    if token + w != "" { LiteralLonger(token + w, more); }
  }

  lemma {:induction false} GoesOnLess(stop: Stop, more: string, m: nat)
    requires m <= |more| && GoesOn(stop, more)
    ensures GoesOn(stop, more[..m])
  {
    if stop.InWord? {
      WordOfPrefix(more, m);
      hide Literal, WordRun;
      var n, w := WordRun(more), Least(m, WordRun(more));
      assert more[..m][..w] == more[..w] && more[..n] == more[..w] + more[w..n];
      WordGoesOnLess(stop.token, more[..w], more[w..n]);
    }
  }

  /** A steady input only grows, from any cut to any later one. */
  lemma {:induction false} SteadyGrows(s: string, k: nat, m: nat)
    requires k <= m <= |s| && Steady(s, false, Outside)
    ensures Translate(s[..k], false, Outside) <= Translate(s[..m], false, Outside)
  {
    SteadyCuts(s, k, false, Outside);
    hide Translate, Steady, GoesOn, StopOf;
    GoesOnLess(StopOf(s[..k], false, Outside), s[k..], m - k);
    assert s[k..][..m - k] == s[k..m] && s[..k] + s[k..m] == s[..m];
    GrowsExactly(s[..k], s[k..m], false, Outside);
  }

  /**
   * What has been written stays as it is, wherever the input is cut while it arrives,
   * exactly when no single-quoted string has an escaped quote and no word begins like a
   * literal without being one.
   */
  lemma {:induction false} NeverShrinksExactly(s: string)
    ensures (forall k: nat :: k <= |s| ==> Translate(s[..k], false, Outside) <= Translate(s, false, Outside)) <==>
            Steady(s, false, Outside)
  {
    hide Translate, Steady, GoesOn, StopOf;
    forall k: nat | k <= |s|
      ensures Translate(s[..k], false, Outside) <= Translate(s, false, Outside) <==> CutGoesOn(s, k, false, Outside)
    {
      assert s[..k] + s[k..] == s;
      GrowsExactly(s[..k], s[k..], false, Outside);
    }
    if Steady(s, false, Outside) {
      forall k: nat | k <= |s| ensures CutGoesOn(s, k, false, Outside) { SteadyCuts(s, k, false, Outside); }
    } else {
      var k := UnsteadyCut(s, false, Outside);
    }
  }

  // ---------- formed values ----------

  predicate PlainItem(double: bool, item: Item) { double || item != Esc('\'') }

  predicate PlainLit(lit: Lit) { forall i :: 0 <= i < |lit.items| ==> PlainItem(lit.double, lit.items[i]) }

  predicate PlainEntry(e: Entry) { PlainLit(e.key) && PlainValue(e.value.value) }

  /** No string in it is single-quoted with an escaped quote. */
  predicate PlainValue(v: Py) {
    match v
    case PyStr(lit) => PlainLit(lit)
    case PyList(items, _, _) => forall i :: 0 <= i < |items| ==> PlainValue(items[i].value)
    case PyDict(entries, _, _) => forall i :: 0 <= i < |entries| ==> PlainEntry(entries[i])
    case _ => true
  }

  /** In front of `rest`, the text is steady exactly when it is `plain`. */
  ghost predicate Keeps(py: string, plain: bool, rest: string) {
    Steady(py + rest, false, Outside) <==> plain && Steady(rest, false, Outside)
  }

  lemma {:induction false} KeepsBoth(py0: string, plain0: bool, py1: string, plain1: bool, rest: string)
    requires Keeps(py0, plain0, py1 + rest) && Keeps(py1, plain1, rest)
    ensures Keeps(py0 + py1, plain0 && plain1, rest)
  {
    hide Steady;
    assert (py0 + py1) + rest == py0 + (py1 + rest);
  }

  lemma {:induction false} SteadyQuotes(double: bool, rest: string, afterWord: bool)
    ensures Steady([Quote(double)] + rest, afterWord, Outside) <==> Steady(rest, false, ModeIn(double))
    ensures Steady([Quote(double)] + rest, afterWord, ModeIn(double)) <==> Steady(rest, false, Outside)
  {
    var s := [Quote(double)] + rest;
    assert s[0] == Quote(double) && s[1..] == rest;
    hide Literal, WordRun;
  }

  lemma {:induction false} SteadyInside(s: string, a: bool, b: bool, double: bool)
    ensures Steady(s, a, ModeIn(double)) <==> Steady(s, b, ModeIn(double))
  {
    hide Literal, WordRun;
  }

  lemma {:induction false} SteadyShort(double: bool, item: Item, tail: string)
    requires ItemFormed(double, item) && !item.Uni?
    ensures Steady(ItemText(double, item, Python) + tail, false, ModeIn(double)) <==>
            PlainItem(double, item) && Steady(tail, false, ModeIn(double))
  {
    var t := ItemText(double, item, Python);
    var s := t + tail;
    assert s[|t|..] == tail && s[0] == t[0] && (|t| == 2 ==> s[1] == t[1]);
    SteadyInside(tail, IsWordChar(t[|t| - 1]), false, double);
    hide Literal, WordRun;
  }

  lemma {:induction false} SteadyDigits(double: bool, digits: string, tail: string)
    requires forall i :: 0 <= i < |digits| ==> HexValue(digits[i]).Some?
    ensures Steady(digits + tail, false, ModeIn(double)) <==> Steady(tail, false, ModeIn(double))
  {
    if digits == "" {
      assert digits + tail == tail;
    } else {
      SteadyDigit(double, digits[0], digits[1..] + tail);
      SteadyDigits(double, digits[1..], tail);
      hide Steady, HexValue;
      assert digits + tail == [digits[0]] + (digits[1..] + tail);
    }
  }

  lemma {:induction false} SteadyDigit(double: bool, c: char, tail: string)
    requires HexValue(c).Some?
    ensures Steady([c] + tail, false, ModeIn(double)) <==> Steady(tail, false, ModeIn(double))
  {
    assert ([c] + tail)[1..] == tail;
    SteadyInside(tail, IsWordChar(c), false, double);
    hide Literal, WordRun;
  }

  lemma {:induction false} SteadyUniHead(double: bool, tail: string)
    ensures Steady("\\u" + tail, false, ModeIn(double)) <==> Steady(tail, false, ModeIn(double))
  {
    assert ("\\u" + tail)[2..] == tail;
    SteadyInside(tail, true, false, double);
    hide Literal, WordRun;
  }

  lemma {:induction false} SteadyItem(double: bool, item: Item, tail: string)
    requires ItemFormed(double, item)
    ensures Steady(ItemText(double, item, Python) + tail, false, ModeIn(double)) <==>
            PlainItem(double, item) && Steady(tail, false, ModeIn(double))
  {
    if item.Uni? {
      SteadyUniHead(double, item.digits + tail);
      SteadyDigits(double, item.digits, tail);
      hide Steady, FourHex;
      assert ("\\u" + item.digits) + tail == "\\u" + (item.digits + tail);
    } else {
      SteadyShort(double, item, tail);
    }
  }

  lemma {:induction false} SteadyBody(double: bool, items: seq<Item>, rest: string)
    requires forall i :: 0 <= i < |items| ==> ItemFormed(double, items[i])
    ensures Steady(BodyText(double, items, Python) + ([Quote(double)] + rest), false, ModeIn(double)) <==>
            (forall i :: 0 <= i < |items| ==> PlainItem(double, items[i])) && Steady(rest, false, Outside)
  {
    hide Steady, ItemText, ModeIn, ItemFormed, PlainItem;
    var end := [Quote(double)] + rest;
    if items == [] {
      assert "" + end == end;
      SteadyQuotes(double, rest, false);
    } else {
      var t, body := ItemText(double, items[0], Python), BodyText(double, items[1..], Python);
      assert (t + body) + end == t + (body + end);
      SteadyItem(double, items[0], body + end);
      SteadyBody(double, items[1..], rest);
      assert (forall i :: 0 <= i < |items| ==> PlainItem(double, items[i])) <==>
             PlainItem(double, items[0]) && forall i :: 0 <= i < |items[1..]| ==> PlainItem(double, items[1..][i]);
    }
  }

  lemma {:induction false} SteadyLit(lit: Lit, rest: string)
    requires LitFormed(lit)
    ensures Keeps(LitText(lit, Python), PlainLit(lit), rest)
  {
    hide Steady, BodyText, ItemFormed, PlainItem;
    var q, body := [Quote(lit.double)], BodyText(lit.double, lit.items, Python);
    SteadyQuotes(lit.double, body + (q + rest), false);
    SteadyBody(lit.double, lit.items, rest);
    assert LitText(lit, Python) + rest == q + (body + (q + rest));
  }

  lemma {:induction false} SteadyMark(c: char, rest: string)
    requires Mark(c)
    ensures Keeps([c], true, rest)
  {
    assert ([c] + rest)[1..] == rest;
    hide Literal, WordRun;
  }

  lemma {:induction false} SteadyMarks(p: string, rest: string)
    requires forall i :: 0 <= i < |p| ==> Mark(p[i])
    ensures Keeps(p, true, rest)
  {
    hide Steady;
    if p == "" {
      assert p + rest == rest;
    } else {
      SteadyMark(p[0], p[1..] + rest);
      SteadyMarks(p[1..], rest);
      KeepsBoth([p[0]], true, p[1..], true, rest);
      assert p == [p[0]] + p[1..];
    }
  }

  lemma {:induction false} SteadyAfterWord(rest: string, a: bool, b: bool)
    requires Breaks(rest)
    ensures Steady(rest, a, Outside) <==> Steady(rest, b, Outside)
  {
  }

  lemma {:induction false} SteadyKeyword(token: string, rest: string)
    requires token in {"True", "False", "None"} && Breaks(rest)
    ensures Keeps(token, true, rest)
  {
    Keywords();
    hide Literal;
    var s := token + rest;
    WordRunExact(token, rest);
    assert s[..|token|] == token && s[|token|..] == rest && s[0] == token[0];
    SteadyAfterWord(rest, true, false);
  }

  lemma {:induction false} SteadyTokenChar(c: char, rest: string, afterWord: bool)
    requires IsTokenChar(c) && (StartsLiteral(c) ==> afterWord)
    ensures Steady([c] + rest, afterWord, Outside) <==> Steady(rest, IsWordChar(c), Outside)
  {
    assert ([c] + rest)[1..] == rest;
    hide Literal, WordRun;
  }

  lemma {:induction false} SteadyTail(text: string, rest: string, afterWord: bool)
    requires Breaks(rest) && (text == "" ==> !afterWord) && forall i :: 0 <= i < |text| ==> IsTokenChar(text[i])
    requires text != "" && StartsLiteral(text[0]) ==> afterWord
    requires forall i :: 0 < i < |text| && StartsLiteral(text[i]) ==> IsWordChar(text[i - 1])
    ensures Steady(text + rest, afterWord, Outside) <==> Steady(rest, false, Outside)
    decreases |text|
  {
    hide Steady, IsTokenChar, StartsLiteral, IsWordChar;
    if text == "" {
      assert text + rest == rest;
    } else {
      var next := IsWordChar(text[0]);
      assert text + rest == [text[0]] + (text[1..] + rest);
      SteadyTokenChar(text[0], text[1..] + rest, afterWord);
      if |text| == 1 {
        assert text[1..] + rest == rest;
        SteadyAfterWord(rest, next, false);
      } else {
        assert forall i :: 0 <= i < |text| - 1 ==> text[1..][i] == text[i + 1];
        SteadyTail(text[1..], rest, next);
      }
    }
  }

  lemma {:induction false} SteadyNum(text: string, rest: string)
    requires NumFormed(text) && Breaks(rest)
    ensures Keeps(text, true, rest)
  {
    assert !StartsLiteral(text[0]);
    SteadyTail(text, rest, false);
    hide Steady;
  }

  lemma {:induction false} SteadyValue(v: Py, rest: string)
    requires Formed(v) && Breaks(rest)
    ensures Keeps(Text(v, Python), PlainValue(v), rest)
    decreases v, 1
  {
    hide Keeps, LitText, LitFormed, NumFormed, ItemsText, EntriesText, PlainLit, PlainEntry;
    match v
    case PyNum(text) => SteadyNum(text, rest);
    case PyBool(b) => SteadyKeyword(if b then "True" else "False", rest);
    case PyNone => SteadyKeyword("None", rest);
    case PyStr(lit) => SteadyLit(lit, rest);
    case PyList(items, trailing, gap) =>
      EndingMarks(items == [], trailing, gap, "]", rest);
      var end := Ending(items == [], trailing, gap) + "]";
      SteadyMarks(end, rest);
      SteadyItems(items, end + rest);
      SteadyEnclosed("[", ItemsText(items, Python), PlainValue(v), end, rest);
    case PyDict(entries, trailing, gap) =>
      EndingMarks(entries == [], trailing, gap, "}", rest);
      var end := Ending(entries == [], trailing, gap) + "}";
      SteadyMarks(end, rest);
      SteadyEntries(entries, end + rest);
      SteadyEnclosed("{", EntriesText(entries, Python), PlainValue(v), end, rest);
  }

  lemma {:induction false} SteadyEnclosed(open: string, py: string, plain: bool, end: string, rest: string)
    requires open in {"[", "{"} && Keeps(py, plain, end + rest) && Keeps(end, true, rest)
    ensures Keeps(open + (py + end), plain, rest)
  {
    hide Keeps;
    KeepsBoth(py, plain, end, true, rest);
    SteadyMarks(open, (py + end) + rest);
    KeepsBoth(open, true, py + end, plain, rest);
  }

  lemma {:induction false} SteadySlot(s: Slot, rest: string)
    requires SlotFormed(s) && Breaks(rest)
    ensures Keeps(SlotText(s, Python), PlainValue(s.value), rest)
    decreases s, 0
  {
    hide Keeps, Text, Formed, PlainValue;
    SpaceIsMarks(s.before, "");
    SpaceIsMarks(s.after, "");
    var py, plain := Text(s.value, Python), PlainValue(s.value);
    MarksBreak(s.after, rest);
    SteadyValue(s.value, s.after + rest);
    SteadyMarks(s.after, rest);
    KeepsBoth(py, plain, s.after, true, rest);
    SteadyMarks(s.before, (py + s.after) + rest);
    KeepsBoth(s.before, true, py + s.after, plain, rest);
  }

  lemma {:induction false} SteadyItems(items: seq<Slot>, rest: string)
    requires (forall i :: 0 <= i < |items| ==> SlotFormed(items[i])) && Breaks(rest)
    ensures Keeps(ItemsText(items, Python), forall i :: 0 <= i < |items| ==> PlainValue(items[i].value), rest)
    decreases items, 0
  {
    hide Keeps, SlotText, SlotFormed, PlainValue;
    if items == [] {
      SteadyMarks("", rest);
    } else if |items| == 1 {
      SteadySlot(items[0], rest);
    } else {
      var py, plain := ItemsText(items[1..], Python), forall i :: 0 <= i < |items[1..]| ==> PlainValue(items[1..][i].value);
      SteadyItems(items[1..], rest);
      SteadyMarks(",", py + rest);
      KeepsBoth(",", true, py, plain, rest);
      assert ("," + py) + rest == "," + (py + rest);
      MarksBreak(",", py + rest);
      SteadySlot(items[0], ("," + py) + rest);
      KeepsBoth(SlotText(items[0], Python), PlainValue(items[0].value), "," + py, plain, rest);
      assert (forall i :: 0 <= i < |items| ==> PlainValue(items[i].value)) <==> PlainValue(items[0].value) && plain;
    }
  }

  lemma {:induction false} SteadyEntry(e: Entry, rest: string)
    requires EntryFormed(e) && Breaks(rest)
    ensures Keeps(EntryText(e, Python), PlainEntry(e), rest)
    decreases e, 0
  {
    hide Keeps, SlotText, SlotFormed, LitText, LitFormed, PlainLit, PlainValue;
    SpaceIsMarks(e.before, "");
    SpaceIsMarks(e.gap, "");
    var py, key, plain := SlotText(e.value, Python), LitText(e.key, Python), PlainValue(e.value.value);
    SteadySlot(e.value, rest);
    SteadyMarks(":", py + rest);
    KeepsBoth(":", true, py, plain, rest);
    SteadyMarks(e.gap, (":" + py) + rest);
    KeepsBoth(e.gap, true, ":" + py, plain, rest);
    SteadyLit(e.key, (e.gap + (":" + py)) + rest);
    KeepsBoth(key, PlainLit(e.key), e.gap + (":" + py), plain, rest);
    SteadyMarks(e.before, (key + (e.gap + (":" + py))) + rest);
    KeepsBoth(e.before, true, key + (e.gap + (":" + py)), PlainEntry(e), rest);
  }

  lemma {:induction false} SteadyEntries(entries: seq<Entry>, rest: string)
    requires (forall i :: 0 <= i < |entries| ==> EntryFormed(entries[i])) && Breaks(rest)
    ensures Keeps(EntriesText(entries, Python), forall i :: 0 <= i < |entries| ==> PlainEntry(entries[i]), rest)
    decreases entries, 0
  {
    hide Keeps, EntryText, EntryFormed, PlainEntry;
    if entries == [] {
      SteadyMarks("", rest);
    } else if |entries| == 1 {
      SteadyEntry(entries[0], rest);
    } else {
      var py, plain := EntriesText(entries[1..], Python), forall i :: 0 <= i < |entries[1..]| ==> PlainEntry(entries[1..][i]);
      SteadyEntries(entries[1..], rest);
      SteadyMarks(",", py + rest);
      KeepsBoth(",", true, py, plain, rest);
      assert ("," + py) + rest == "," + (py + rest);
      MarksBreak(",", py + rest);
      SteadyEntry(entries[0], ("," + py) + rest);
      KeepsBoth(EntryText(entries[0], Python), PlainEntry(entries[0]), "," + py, plain, rest);
      assert (forall i :: 0 <= i < |entries| ==> PlainEntry(entries[i])) <==> PlainEntry(entries[0]) && plain;
    }
  }

  /** A streamed value never takes back what was sent of it, exactly when no single-quoted string in it has an escaped quote. */
  lemma {:induction false} StreamedValue(s: Slot)
    requires SlotFormed(s)
    ensures var text := SlotText(s, Python);
            (forall k: nat :: k <= |text| ==> Translate(text[..k], false, Outside) <= SlotText(s, JsonLike)) <==> PlainValue(s.value)
  {
    hide SlotText, Translate, SlotFormed, PlainValue, Steady;
    var text := SlotText(s, Python);
    TranslateWhole(s);
    NeverShrinksExactly(text);
    SteadySlot(s, "");
    assert text + "" == text;
    assert Steady("", false, Outside) by { SteadyNothing(); }
  }

  lemma {:induction false} SteadyNothing()
    ensures Steady("", false, Outside)
  {
  }
}
