/** Cutting a token sequence into message spans at its role delimiters. */
module Spans {
  import opened Words

  datatype Role = UnknownRole | SystemRole | AssistantRole | UserRole | ToolRole

  datatype Span = Span(role: Role, pos: nat, len: nat)

  datatype Delimiter = Delimiter(role: Role, tokens: seq<int>)

  datatype Match = Match(role: Role, pos: nat)

  /** An entry of the skip map: a stretch of tokens that is not searched. */
  datatype Skip = Skip(first: nat, len: nat)

  /** Entries of a std::map come in ascending key order. */
  predicate IsSkipMap(skips: seq<Skip>) {
    forall i, j :: 0 <= i < j < |skips| ==> skips[i].first < skips[j].first
  }

  predicate MatchesAt(tokens: seq<int>, d: Delimiter, i: nat) {
    i + |d.tokens| <= |tokens| && tokens[i..i + |d.tokens|] == d.tokens
  }

  /** Role of the first delimiter, in list order, that matches at `i`. */
  function RoleAt(tokens: seq<int>, delimiters: seq<Delimiter>, i: nat): Option<Role> {
    if delimiters == [] then None
    else if MatchesAt(tokens, delimiters[0], i) then Some(delimiters[0].role)
    else RoleAt(tokens, delimiters[1..], i)
  }

  /** All matches from `i` on, when skips from `k` on are still ahead. */
  function Scan(tokens: seq<int>, delimiters: seq<Delimiter>, skips: seq<Skip>, i: nat, k: nat): seq<Match>
    requires k <= |skips|
    decreases (if i < |tokens| then |tokens| - i else 0) + |skips| - k
  {
    if i >= |tokens| then []
    else if k < |skips| && i == skips[k].first then Scan(tokens, delimiters, skips, i + skips[k].len, k + 1)
    else
      var role := RoleAt(tokens, delimiters, i);
      (if role.Some? then [Match(role.value, i)] else []) + Scan(tokens, delimiters, skips, i + 1, k)
  }

  function EndOf(matches: seq<Match>, i: nat, total: nat): nat
    requires i < |matches|
  {
    if i + 1 < |matches| then matches[i + 1].pos else total
  }

  predicate Ascending(matches: seq<Match>, from: nat, total: nat) {
    && (forall i :: 0 <= i < |matches| ==> from <= matches[i].pos < total)
    && (forall i, j :: 0 <= i < j < |matches| ==> matches[i].pos < matches[j].pos)
  }

  lemma {:induction false} ScanAscends(tokens: seq<int>, delimiters: seq<Delimiter>, skips: seq<Skip>, i: nat, k: nat)
    requires k <= |skips|
    ensures Ascending(Scan(tokens, delimiters, skips, i, k), i, |tokens|)
    decreases (if i < |tokens| then |tokens| - i else 0) + |skips| - k
  {
    hide RoleAt;
    if i < |tokens| {
      if k < |skips| && i == skips[k].first {
        ScanAscends(tokens, delimiters, skips, i + skips[k].len, k + 1);
      } else {
        ScanAscends(tokens, delimiters, skips, i + 1, k);
      }
    }
  }

  // ---------- the loops ----------

  method FindRole(tokens: seq<int>, delimiters: seq<Delimiter>, i: nat) returns (role: Option<Role>)
    ensures role == RoleAt(tokens, delimiters, i)
  {
    var j := 0;
    while j < |delimiters|
      invariant 0 <= j <= |delimiters|
      invariant RoleAt(tokens, delimiters, i) == RoleAt(tokens, delimiters[j..], i)
    {
      var d := delimiters[j];
      if i + |d.tokens| <= |tokens| && tokens[i..i + |d.tokens|] == d.tokens {
        return Some(d.role);
      }
      assert delimiters[j..][1..] == delimiters[j + 1..];
      j := j + 1;
    }
    role := None;
  }

  method FindMatches(tokens: seq<int>, delimiters: seq<Delimiter>, skips: seq<Skip>) returns (matches: seq<Match>)
    ensures matches == Scan(tokens, delimiters, skips, 0, 0)
  {
    hide RoleAt;
    matches := [];
    ghost var all := Scan(tokens, delimiters, skips, 0, 0);
    assert [] + all == all;
    var i: nat, k: nat := 0, 0;
    while i < |tokens|
      invariant 0 <= k <= |skips|
      invariant matches + Scan(tokens, delimiters, skips, i, k) == all
      decreases (if i < |tokens| then |tokens| - i else 0) + |skips| - k
    {
      if k < |skips| && i == skips[k].first {
        i := i + skips[k].len;
        k := k + 1;
      } else {
        ghost var rest := Scan(tokens, delimiters, skips, i + 1, k);
        var role := FindRole(tokens, delimiters, i);
        if role.Some? {
          assert matches + ([Match(role.value, i)] + rest) == (matches + [Match(role.value, i)]) + rest;
          matches := matches + [Match(role.value, i)];
        } else {
          assert [] + rest == rest;
        }
        i := i + 1;
      }
    }
    assert matches + [] == matches;
  }

  /** One span per match, each reaching to the next match or the end. */
  method Split(tokens: seq<int>, delimiters: seq<Delimiter>, skips: seq<Skip>) returns (spans: seq<Span>)
    requires IsSkipMap(skips)
    ensures spans == SpansOf(tokens, delimiters, skips)
  {
    hide Scan, RoleAt, IsSkipMap;
    var matches := FindMatches(tokens, delimiters, skips);
    ScanAscends(tokens, delimiters, skips, 0, 0);
    ghost var found := matches;
    matches := matches + [Match(UnknownRole, |tokens|)];
    spans := [];
    var i := 0;
    while i + 1 < |matches|
      invariant 0 <= i == |spans| <= |found|
      invariant forall j :: 0 <= j < i ==> spans[j] == SpansOf(tokens, delimiters, skips)[j]
    {
      assert matches[i] == found[i] && matches[i + 1].pos == EndOf(found, i, |tokens|);
      spans := spans + [Span(matches[i].role, matches[i].pos, matches[i + 1].pos - matches[i].pos)];
      i := i + 1;
    }
  }

  /** The span of each match, as a function. */
  function SpansOf(tokens: seq<int>, delimiters: seq<Delimiter>, skips: seq<Skip>): (spans: seq<Span>) {
    ScanAscends(tokens, delimiters, skips, 0, 0);
    var matches := Scan(tokens, delimiters, skips, 0, 0);
    seq(|matches|, j requires 0 <= j < |matches| =>
      Span(matches[j].role, matches[j].pos, EndOf(matches, j, |tokens|) - matches[j].pos))
  }

  /** Spans abut, none is empty, and the last one ends with the tokens. */
  ghost predicate Tiles(spans: seq<Span>, total: nat) {
    && (forall i :: 0 <= i < |spans| ==> spans[i].len > 0)
    && (forall i :: 0 <= i < |spans| - 1 ==> spans[i].pos + spans[i].len == spans[i + 1].pos)
    && (spans != [] ==> spans[|spans| - 1].pos + spans[|spans| - 1].len == total)
  }

  lemma {:induction false} SplitTiles(tokens: seq<int>, delimiters: seq<Delimiter>, skips: seq<Skip>)
    ensures Tiles(SpansOf(tokens, delimiters, skips), |tokens|)
  {
    hide Scan;
    ScanAscends(tokens, delimiters, skips, 0, 0);
  }

  // ---------- which positions start a span ----------

  /** No skip reaches into the next one. */
  predicate DisjointSkips(skips: seq<Skip>) {
    forall i, j :: 0 <= i < j < |skips| ==> skips[i].first + skips[i].len <= skips[j].first
  }

  predicate Skipped(skips: seq<Skip>, p: nat) {
    exists j :: 0 <= j < |skips| && skips[j].first <= p < skips[j].first + skips[j].len
  }

  lemma {:induction false} ScanFindsExactly(tokens: seq<int>, delimiters: seq<Delimiter>, skips: seq<Skip>, i: nat, k: nat, m: Match)
    requires IsSkipMap(skips) && DisjointSkips(skips) && k <= |skips|
    requires forall j :: 0 <= j < k ==> skips[j].first + skips[j].len <= i
    requires k < |skips| ==> i <= skips[k].first
    ensures m in Scan(tokens, delimiters, skips, i, k) <==>
            i <= m.pos < |tokens| && !Skipped(skips, m.pos) && RoleAt(tokens, delimiters, m.pos) == Some(m.role)
    decreases (if i < |tokens| then |tokens| - i else 0) + |skips| - k
  {
    hide RoleAt;
    if i < |tokens| {
      if k < |skips| && i == skips[k].first {
        if i <= m.pos < i + skips[k].len {
          assert Skipped(skips, m.pos);
        }
        ScanFindsExactly(tokens, delimiters, skips, i + skips[k].len, k + 1, m);
      } else {
        ScanFindsExactly(tokens, delimiters, skips, i + 1, k, m);
        if m.pos == i {
          forall j | 0 <= j < |skips| ensures !(skips[j].first <= i < skips[j].first + skips[j].len) {
            if j >= k { assert skips[k].first <= skips[j].first; }
          }
        }
        var rest := Scan(tokens, delimiters, skips, i + 1, k);
        var role := RoleAt(tokens, delimiters, i);
        assert m in Scan(tokens, delimiters, skips, i, k) <==> (role == Some(m.role) && m.pos == i) || m in rest;
      }
    }
  }

  /** How many skips come before the first one that starts inside the one before it. */
  function InEffect(skips: seq<Skip>): (n: nat)
    ensures n <= |skips| && (skips != [] ==> n > 0)
  {
    if |skips| <= 1 then |skips|
    else if skips[0].first + skips[0].len <= skips[1].first then 1 + InEffect(skips[1..])
    else 1
  }

  lemma {:induction false} InEffectIs(skips: seq<Skip>)
    ensures var n := InEffect(skips);
            && (forall k :: 0 < k < n ==> skips[k - 1].first + skips[k - 1].len <= skips[k].first)
            && (n < |skips| ==> skips[n - 1].first + skips[n - 1].len > skips[n].first)
  {
    if |skips| > 1 && skips[0].first + skips[0].len <= skips[1].first {
      InEffectIs(skips[1..]);
      var n := InEffect(skips[1..]);
      forall k | 0 < k < n + 1 ensures skips[k - 1].first + skips[k - 1].len <= skips[k].first {
        if k > 1 { assert skips[1..][k - 2] == skips[k - 1] && skips[1..][k - 1] == skips[k]; }
      }
    }
  }

  /** The scan compares its position with one skip at a time, so one that it has jumped over stops all later ones. */
  lemma {:induction false} ScanInEffect(tokens: seq<int>, delimiters: seq<Delimiter>, skips: seq<Skip>, i: nat, k: nat)
    requires k <= InEffect(skips)
    requires k < InEffect(skips) ==> i <= skips[k].first
    requires InEffect(skips) == k < |skips| ==> i > skips[k].first
    ensures Scan(tokens, delimiters, skips, i, k) == Scan(tokens, delimiters, skips[..InEffect(skips)], i, k)
    decreases (if i < |tokens| then |tokens| - i else 0) + |skips| - k
  {
    hide RoleAt;
    InEffectIs(skips);
    if i < |tokens| {
      if k < InEffect(skips) && i == skips[k].first {
        ScanInEffect(tokens, delimiters, skips, i + skips[k].len, k + 1);
      } else {
        ScanInEffect(tokens, delimiters, skips, i + 1, k);
      }
    }
  }

  lemma {:induction false} EffectiveAreDisjoint(skips: seq<Skip>)
    requires IsSkipMap(skips)
    ensures IsSkipMap(skips[..InEffect(skips)]) && DisjointSkips(skips[..InEffect(skips)])
  {
    InEffectIs(skips);
    var some := skips[..InEffect(skips)];
    forall i, j | 0 <= i < j < |some| ensures some[i].first + some[i].len <= some[j].first {
      assert skips[i + 1 - 1].first + skips[i + 1 - 1].len <= skips[i + 1].first;
      if i + 1 < j { assert skips[i + 1].first < skips[j].first; }
    }
  }

  /** The tokens of `d` stand at `i`. */
  predicate Reads(tokens: seq<int>, d: Delimiter, i: nat) {
    i + |d.tokens| <= |tokens| && forall k :: 0 <= k < |d.tokens| ==> tokens[i + k] == d.tokens[k]
  }

  /** Delimiter `n` stands at `i` and none before it in the list does. */
  predicate FirstToRead(tokens: seq<int>, delimiters: seq<Delimiter>, i: nat, n: nat) {
    n < |delimiters| && Reads(tokens, delimiters[n], i) && forall j :: 0 <= j < n ==> !Reads(tokens, delimiters[j], i)
  }

  lemma {:induction false} MatchesReads(tokens: seq<int>, d: Delimiter, i: nat)
    ensures MatchesAt(tokens, d, i) <==> Reads(tokens, d, i)
  {
    if MatchesAt(tokens, d, i) {
      forall k | 0 <= k < |d.tokens| ensures tokens[i + k] == d.tokens[k] {
        assert tokens[i..i + |d.tokens|][k] == d.tokens[k];
      }
    }
  }

  predicate NoneReads(tokens: seq<int>, delimiters: seq<Delimiter>, i: nat) {
    forall j :: 0 <= j < |delimiters| ==> !Reads(tokens, delimiters[j], i)
  }

  lemma {:induction false} NoneReadsCons(tokens: seq<int>, delimiters: seq<Delimiter>, i: nat)
    requires delimiters != []
    ensures NoneReads(tokens, delimiters, i) <==> !Reads(tokens, delimiters[0], i) && NoneReads(tokens, delimiters[1..], i)
  {
    hide Reads;
    var rest := delimiters[1..];
    if NoneReads(tokens, delimiters, i) {
      forall j | 0 <= j < |rest| ensures !Reads(tokens, rest[j], i) { assert rest[j] == delimiters[j + 1]; }
    }
    if !Reads(tokens, delimiters[0], i) && NoneReads(tokens, rest, i) {
      forall j | 0 <= j < |delimiters| ensures !Reads(tokens, delimiters[j], i) {
        if j > 0 { assert rest[j - 1] == delimiters[j]; }
      }
    }
  }

  lemma {:induction false} RoleAtIs(tokens: seq<int>, delimiters: seq<Delimiter>, i: nat, n: nat)
    ensures FirstToRead(tokens, delimiters, i, n) ==> RoleAt(tokens, delimiters, i) == Some(delimiters[n].role)
    ensures RoleAt(tokens, delimiters, i).None? <==> NoneReads(tokens, delimiters, i)
  {
    hide Reads, MatchesAt, NoneReads;
    if delimiters != [] {
      var rest := delimiters[1..];
      MatchesReads(tokens, delimiters[0], i);
      NoneReadsCons(tokens, delimiters, i);
      RoleAtIs(tokens, rest, i, if n > 0 then n - 1 else 0);
      if n > 0 && FirstToRead(tokens, delimiters, i, n) {
        assert rest[n - 1] == delimiters[n] && forall j :: 0 <= j < n - 1 ==> rest[j] == delimiters[j + 1];
        assert FirstToRead(tokens, rest, i, n - 1);
      }
    } else {
      assert NoneReads(tokens, delimiters, i) by { NoneOfNone(tokens, delimiters, i); }
    }
  }

  lemma {:induction false} NoneOfNone(tokens: seq<int>, delimiters: seq<Delimiter>, i: nat)
    requires delimiters == []
    ensures NoneReads(tokens, delimiters, i)
  {
  }

  /** Some delimiter is first, if any stands there. */
  lemma {:induction false} SomeIsFirst(tokens: seq<int>, delimiters: seq<Delimiter>, i: nat) returns (n: nat)
    requires !NoneReads(tokens, delimiters, i)
    ensures FirstToRead(tokens, delimiters, i, n)
  {
    n := 0;
    while !Reads(tokens, delimiters[n], i)
      invariant n < |delimiters| && forall j :: 0 <= j < n ==> !Reads(tokens, delimiters[j], i)
      decreases |delimiters| - n
    {
      n := n + 1;
    }
  }

  lemma {:induction false} RoleAtExactly(tokens: seq<int>, delimiters: seq<Delimiter>, i: nat, r: Role)
    ensures RoleAt(tokens, delimiters, i) == Some(r) <==>
            exists n: nat :: FirstToRead(tokens, delimiters, i, n) && delimiters[n].role == r
  {
    hide RoleAt, Reads;
    RoleAtIs(tokens, delimiters, i, 0);
    if RoleAt(tokens, delimiters, i).Some? {
      var n := SomeIsFirst(tokens, delimiters, i);
      RoleAtIs(tokens, delimiters, i, n);
    }
    if n: nat :| FirstToRead(tokens, delimiters, i, n) && delimiters[n].role == r {
      RoleAtIs(tokens, delimiters, i, n);
    }
  }

  /**
   * A span with role r starts at p exactly when p lies in no skip that takes effect
   * and the first delimiter to be read there, in list order, is one of r's.
   */
  lemma {:induction false} SpanStartsExactly(tokens: seq<int>, delimiters: seq<Delimiter>, skips: seq<Skip>, p: nat, r: Role)
    requires IsSkipMap(skips)
    ensures (exists s :: s in SpansOf(tokens, delimiters, skips) && s.pos == p && s.role == r) <==>
            && p < |tokens| && !Skipped(skips[..InEffect(skips)], p)
            && exists n: nat :: FirstToRead(tokens, delimiters, p, n) && delimiters[n].role == r
  {
    hide RoleAt, Scan, Skipped, FirstToRead;
    RoleAtExactly(tokens, delimiters, p, r);
    EffectiveAreDisjoint(skips);
    ScanInEffect(tokens, delimiters, skips, 0, 0);
    ScanFindsExactly(tokens, delimiters, skips[..InEffect(skips)], 0, 0, Match(r, p));
    SpansAreMatches(tokens, delimiters, skips, p, r);
  }

  lemma {:induction false} SpansAreMatches(tokens: seq<int>, delimiters: seq<Delimiter>, skips: seq<Skip>, p: nat, r: Role)
    ensures (exists s :: s in SpansOf(tokens, delimiters, skips) && s.pos == p && s.role == r) <==>
            Match(r, p) in Scan(tokens, delimiters, skips, 0, 0)
  {
    hide Scan;
    var matches := Scan(tokens, delimiters, skips, 0, 0);
    var spans := SpansOf(tokens, delimiters, skips);
    if Match(r, p) in matches {
      var j :| 0 <= j < |matches| && matches[j] == Match(r, p);
      assert spans[j] in spans;
    }
    if s :| s in spans && s.pos == p && s.role == r {
      var j :| 0 <= j < |spans| && spans[j] == s;
      assert matches[j] == Match(r, p);
    }
  }

  // ---------- queries ----------

  /** The (int32_t) cast of a position. */
  function ToInt32(x: int): (r: int)
    ensures -0x8000_0000 <= r < 0x8000_0000
    ensures (x - r) % TWO32 == 0
    ensures -0x8000_0000 <= x < 0x8000_0000 ==> r == x
  {
    (x + 0x8000_0000) % TWO32 - 0x8000_0000
  }

  method IsUserStart(spans: seq<Span>, pos: int) returns (found: bool)
    ensures found <==> exists i :: 0 <= i < |spans| && spans[i].role.UserRole? && pos == ToInt32(spans[i].pos)
  {
    var i := 0;
    while i < |spans|
      invariant 0 <= i <= |spans|
      invariant forall j :: 0 <= j < i ==> !(spans[j].role.UserRole? && pos == ToInt32(spans[j].pos))
    {
      if spans[i].role.UserRole? && pos == ToInt32(spans[i].pos) {
        return true;
      }
      i := i + 1;
    }
    return false;
  }

  /** `i` is the last user span. */
  predicate IsLastUser(spans: seq<Span>, i: nat) {
    i < |spans| && spans[i].role.UserRole? && forall j :: i < j < |spans| ==> !spans[j].role.UserRole?
  }

  predicate HasUser(spans: seq<Span>) {
    exists i :: 0 <= i < |spans| && spans[i].role.UserRole?
  }

  method LastUserMessagePos(spans: seq<Span>) returns (pos: int)
    ensures !HasUser(spans) ==> pos == -1
    ensures forall i: nat :: IsLastUser(spans, i) ==> pos == ToInt32(spans[i].pos)
  {
    var i := |spans|;
    while i > 0
      invariant 0 <= i <= |spans|
      invariant forall j :: i <= j < |spans| ==> !spans[j].role.UserRole?
    {
      i := i - 1;
      if spans[i].role.UserRole? {
        return ToInt32(spans[i].pos);
      }
    }
    return -1;
  }
}
