/** The turn table of a conversation, and the log-sparse anchor score over it. */
module Turns {
  import opened Words
  import opened Records
  import opened Spans

  // ---------- building the table ----------

  predicate SpanFits(s: Span, tokenCount: u64) {
    !s.role.UnknownRole? && s.pos + s.len <= tokenCount
  }

  /** Every span has a known role, lies within the tokens and starts after the one before it ends. */
  predicate SpansOrdered(spans: seq<Span>, tokenCount: u64) {
    && (forall i :: 0 <= i < |spans| ==> SpanFits(spans[i], tokenCount))
    && (forall i :: 0 < i < |spans| ==> spans[i - 1].pos + spans[i - 1].len <= spans[i].pos)
  }

  /** The user spans that do not start the conversation. */
  function LaterUsers(spans: seq<Span>): seq<Span> {
    if spans == [] then [] else
      var n := |spans| - 1;
      var init := LaterUsers(spans[..n]);
      if spans[n].role.UserRole? && spans[n].pos != 0 then init + [spans[n]] else init
  }

  lemma {:induction false} LaterUsersAre(spans: seq<Span>, s: Span)
    ensures s in LaterUsers(spans) <==> s in spans && s.role.UserRole? && s.pos != 0
  {
    if spans != [] {
      var n := |spans| - 1;
      assert spans == spans[..n] + [spans[n]];
      LaterUsersAre(spans[..n], s);
    }
  }

  /** Where the last user span at position 0 ends; 0 if there is none. */
  function FrontEnd(spans: seq<Span>): nat {
    if spans == [] then 0 else
      var s := spans[|spans| - 1];
      if s.role.UserRole? && s.pos == 0 then s.len else FrontEnd(spans[..|spans| - 1])
  }

  lemma {:induction false} FrontEndIs(spans: seq<Span>)
    ensures forall i :: 0 <= i < |spans| && AtFront(spans[i]) && (forall j :: i < j < |spans| ==> !AtFront(spans[j])) ==>
              FrontEnd(spans) == spans[i].len
    ensures (forall i :: 0 <= i < |spans| ==> !AtFront(spans[i])) ==> FrontEnd(spans) == 0
  {
    if spans != [] && !AtFront(spans[|spans| - 1]) {
      var init := spans[..|spans| - 1];
      FrontEndIs(init);
      assert forall i :: 0 <= i < |init| ==> init[i] == spans[i];
      hide AtFront;
    }
  }

  predicate AtFront(s: Span) { s.role.UserRole? && s.pos == 0 }

  predicate StrictlyLater(users: seq<Span>) {
    forall i :: 0 < i < |users| ==> users[i - 1].pos < users[i].pos
  }

  predicate Accepted(spans: seq<Span>, sourceKnown: bool, tokenCount: u64) {
    sourceKnown && spans != [] ==>
      && SpansOrdered(spans, tokenCount)
      && (HasUser(spans) ==> |LaterUsers(spans)| + 1 <= MAX_TURN_BOUNDARIES)
      && StrictlyLater(LaterUsers(spans))
  }

  /** `b` is turn number `ordinal` and covers the span `s`. */
  predicate Opens(b: Boundary, ordinal: nat, s: Span) {
    b.ordinal == ordinal && b.tokenPos == s.pos && b.tokenEnd == s.pos + s.len
  }

  /** Boundary 0 opens the conversation; boundary i is the i-th later user span. */
  predicate BoundariesOf(boundaries: seq<Boundary>, spans: seq<Span>) {
    var users := LaterUsers(spans);
    && |boundaries| == |users| + 1
    && boundaries[0].ordinal == 0 && boundaries[0].tokenPos == 0 && boundaries[0].tokenEnd == FrontEnd(spans)
    && forall i :: 1 <= i < |boundaries| ==> Opens(boundaries[i], i, users[i - 1])
  }

  const EMPTY_TABLE: TurnTable := TurnTable(TURN_TABLE_VERSION, SOURCE_UNAVAILABLE, 0, [])

  lemma {:induction false} HasUserSnoc(spans: seq<Span>, i: nat)
    requires i < |spans|
    ensures HasUser(spans[..i + 1]) <==> HasUser(spans[..i]) || spans[i].role.UserRole?
  {
    assert spans[..i + 1][i] == spans[i];
    assert forall j :: 0 <= j < i ==> spans[..i + 1][j] == spans[..i][j];
  }

  lemma {:induction false} LaterUsersSnoc(spans: seq<Span>, i: nat)
    requires i < |spans|
    ensures LaterUsers(spans[..i + 1]) ==
            if spans[i].role.UserRole? && spans[i].pos != 0 then LaterUsers(spans[..i]) + [spans[i]]
            else LaterUsers(spans[..i])
    ensures FrontEnd(spans[..i + 1]) ==
            if spans[i].role.UserRole? && spans[i].pos == 0 then spans[i].len else FrontEnd(spans[..i])
  {
    assert spans[..i + 1][..i] == spans[..i];
  }

  lemma {:induction false} LaterUsersGrow(spans: seq<Span>, i: nat)
    requires i <= |spans|
    ensures LaterUsers(spans[..i]) <= LaterUsers(spans)
    decreases |spans| - i
  {
    if i < |spans| {
      LaterUsersSnoc(spans, i);
      LaterUsersGrow(spans, i + 1);
    } else {
      assert spans[..i] == spans;
    }
  }

  lemma {:induction false} FrontEndFits(spans: seq<Span>, tokenCount: u64)
    requires forall i :: 0 <= i < |spans| ==> SpanFits(spans[i], tokenCount)
    ensures FrontEnd(spans) <= tokenCount
  {
    if spans != [] {
      assert SpanFits(spans[|spans| - 1], tokenCount);
      FrontEndFits(spans[..|spans| - 1], tokenCount);
    }
  }

  lemma {:induction false} NobodyYet(spans: seq<Span>)
    ensures !HasUser(spans[..0]) && LaterUsers(spans[..0]) == []
  {
  }

  lemma {:induction false} UserFound(spans: seq<Span>, i: nat)
    requires i < |spans| && spans[i].role.UserRole?
    ensures HasUser(spans)
  {
  }

  /** First pass: order, bounds and the boundary cap; counts the boundaries needed. */
  method CheckSpans(spans: seq<Span>, tokenCount: u64) returns (ok: bool, count: nat)
    ensures ok <==> SpansOrdered(spans, tokenCount) && (HasUser(spans) ==> |LaterUsers(spans)| + 1 <= MAX_TURN_BOUNDARIES)
    ensures ok ==> count == if HasUser(spans) then |LaterUsers(spans)| + 1 else 0
  {
    hide LaterUsers, FrontEnd, HasUser;
    NobodyYet(spans);
    var priorEnd := 0;
    count := 0;
    var i := 0;
    while i < |spans|
      invariant 0 <= i <= |spans|
      invariant forall j :: 0 <= j < i ==> SpanFits(spans[j], tokenCount)
      invariant forall j :: 0 < j < i ==> spans[j - 1].pos + spans[j - 1].len <= spans[j].pos
      invariant priorEnd == if i == 0 then 0 else spans[i - 1].pos + spans[i - 1].len
      invariant !HasUser(spans[..i]) ==> LaterUsers(spans[..i]) == []
      invariant count == if HasUser(spans[..i]) then |LaterUsers(spans[..i])| + 1 else 0
      invariant count <= MAX_TURN_BOUNDARIES
    {
      var s := spans[i];
      HasUserSnoc(spans, i);
      LaterUsersSnoc(spans, i);
      if s.role.UnknownRole? || s.pos > tokenCount || s.len > tokenCount - s.pos || s.pos < priorEnd {
        assert !SpanFits(s, tokenCount) || (i > 0 && s.pos < spans[i - 1].pos + spans[i - 1].len);
        return false, count;
      }
      priorEnd := s.pos + s.len;
      if s.role.UserRole? {
        if count == 0 {
          count := count + 1;
        }
        if s.pos != 0 {
          count := count + 1;
        }
        if count > MAX_TURN_BOUNDARIES {
          LaterUsersGrow(spans, i + 1);
          UserFound(spans, i);
          return false, count;
        }
      }
      i := i + 1;
    }
    assert spans[..i] == spans;
    ok := true;
  }

  /** One more user span that does not open the conversation is one more boundary. */
  lemma {:induction false} BoundaryAdded(boundaries: seq<Boundary>, spans: seq<Span>, i: nat, added: Boundary)
    requires i < |spans| && BoundariesOf(boundaries, spans[..i]) && StrictlyLater(LaterUsers(spans[..i]))
    requires spans[i].role.UserRole? && spans[i].pos != 0
    requires Opens(added, |boundaries|, spans[i])
    ensures BoundariesOf(boundaries + [added], spans[..i + 1])
    ensures StrictlyLater(LaterUsers(spans[..i + 1])) <==> boundaries[|boundaries| - 1].tokenPos < spans[i].pos
  {
    LaterUsersSnoc(spans, i);
    hide LaterUsers, FrontEnd;
    var users, users' := LaterUsers(spans[..i]), LaterUsers(spans[..i + 1]);
    var k := |users|;
    assert users' == users + [spans[i]];
    forall j | 1 <= j <= k + 1 ensures Opens((boundaries + [added])[j], j, users'[j - 1]) {
      if j <= k { assert Opens(boundaries[j], j, users[j - 1]); }
    }
    assert k > 0 ==> boundaries[k].tokenPos == users[k - 1].pos;
    LastStep(users, spans[i]);
  }

  lemma {:induction false} LastStep(users: seq<Span>, s: Span)
    requires StrictlyLater(users) && s.pos != 0
    ensures StrictlyLater(users + [s]) <==> (users == [] || users[|users| - 1].pos < s.pos)
  {
    var users', k := users + [s], |users|;
    if k > 0 && users[k - 1].pos >= s.pos {
      assert !(users'[k - 1].pos < users'[k].pos);
    }
  }

  lemma {:induction false} BoundariesKept(boundaries: seq<Boundary>, spans: seq<Span>, i: nat)
    requires i < |spans| && !spans[i].role.UserRole? && BoundariesOf(boundaries, spans[..i])
    ensures BoundariesOf(boundaries, spans[..i + 1]) && LaterUsers(spans[..i + 1]) == LaterUsers(spans[..i])
  {
    LaterUsersSnoc(spans, i);
    hide LaterUsers, FrontEnd;
  }

  lemma {:induction false} FrontMoved(boundaries: seq<Boundary>, spans: seq<Span>, i: nat, end: u64)
    requires i < |spans| && spans[i].role.UserRole? && spans[i].pos == 0 && end == spans[i].len
    requires BoundariesOf(boundaries, spans[..i])
    ensures BoundariesOf(boundaries[0 := boundaries[0].(tokenEnd := end)], spans[..i + 1])
    ensures LaterUsers(spans[..i + 1]) == LaterUsers(spans[..i])
  {
    LaterUsersSnoc(spans, i);
    hide LaterUsers, FrontEnd, Opens;
    var moved := boundaries[0 := boundaries[0].(tokenEnd := end)];
    forall j | 1 <= j < |moved| ensures Opens(moved[j], j, LaterUsers(spans[..i])[j - 1]) {
      assert moved[j] == boundaries[j];
    }
  }

  lemma {:induction false} PrefixNotLater(spans: seq<Span>, i: nat)
    requires i <= |spans| && !StrictlyLater(LaterUsers(spans[..i]))
    ensures !StrictlyLater(LaterUsers(spans))
  {
    LaterUsersGrow(spans, i);
    hide LaterUsers;
    var users, prefix := LaterUsers(spans), LaterUsers(spans[..i]);
    var k :| 0 < k < |prefix| && !(prefix[k - 1].pos < prefix[k].pos);
    assert users[k - 1] == prefix[k - 1] && users[k] == prefix[k];
  }

  /** Second pass: one boundary per user start. */
  method CollectBoundaries(spans: seq<Span>, tokenCount: u64) returns (ok: bool, boundaries: seq<Boundary>)
    requires SpansOrdered(spans, tokenCount) && |spans| < TWO64
    ensures ok <==> StrictlyLater(LaterUsers(spans))
    ensures ok ==> BoundariesOf(boundaries, spans)
  {
    boundaries := [Boundary(0, 0, 0)];
    assert spans[..0] == [];
    hide LaterUsers, FrontEnd, BoundariesOf, StrictlyLater, SpansOrdered;
    NothingCollected();
    var i := 0;
    while i < |spans|
      invariant 0 <= i <= |spans|
      invariant 1 <= |boundaries| <= i + 1
      invariant StrictlyLater(LaterUsers(spans[..i]))
      invariant BoundariesOf(boundaries, spans[..i])
    {
      var s := spans[i];
      OrderedSpanFits(spans, tokenCount, i);
      if !s.role.UserRole? {
        BoundariesKept(boundaries, spans, i);
      } else {
        var end: u64 := s.pos + s.len;
        if s.pos == 0 {
          FrontMoved(boundaries, spans, i, end);
          boundaries := boundaries[0 := boundaries[0].(tokenEnd := end)];
        } else {
          var added := Boundary(|boundaries|, s.pos, end);
          BoundaryAdded(boundaries, spans, i, added);
          if boundaries[|boundaries| - 1].tokenPos >= s.pos {
            PrefixNotLater(spans, i + 1);
            return false, boundaries;
          }
          boundaries := boundaries + [added];
        }
      }
      i := i + 1;
    }
    assert spans[..i] == spans;
    ok := true;
  }

  lemma {:induction false} OrderedSpanFits(spans: seq<Span>, tokenCount: u64, i: nat)
    requires SpansOrdered(spans, tokenCount) && i < |spans|
    ensures SpanFits(spans[i], tokenCount)
  {
  }

  lemma {:induction false} NothingCollected()
    ensures StrictlyLater(LaterUsers([])) && BoundariesOf([Boundary(0, 0, 0)], [])
  {
  }

  lemma {:induction false} BuiltTableValid(boundaries: seq<Boundary>, spans: seq<Span>, tokenCount: u64)
    requires SpansOrdered(spans, tokenCount) && StrictlyLater(LaterUsers(spans)) && BoundariesOf(boundaries, spans)
    ensures TurnTableValid(TurnTable(TURN_TABLE_VERSION, SOURCE_KNOWN, tokenCount, boundaries))
  {
    FrontEndFits(spans, tokenCount);
    var users := LaterUsers(spans);
    forall i | 0 <= i < |boundaries| ensures BoundaryValid(boundaries, tokenCount, i) {
      if i > 0 {
        LaterUsersAre(spans, users[i - 1]);
        assert SpanFits(users[i - 1], tokenCount);
        assert Opens(boundaries[i], i, users[i - 1]);
        if i > 1 {
          assert Opens(boundaries[i - 1], i - 1, users[i - 2]);
          assert users[i - 2].pos < users[i - 1].pos;
        }
      }
    }
  }

  /**
   * The table is refused exactly when the spans are disordered, too many or share
   * a user start; otherwise its boundaries are 0 and the later user starts.
   */
  method Build(spans: seq<Span>, sourceKnown: bool, tokenCount: u64) returns (ok: bool, out: TurnTable)
    requires |spans| < TWO64
    ensures ok <==> Accepted(spans, sourceKnown, tokenCount)
    ensures !ok ==> out == TurnTable(1, SOURCE_UNAVAILABLE, 0, [])
    ensures ok ==> TurnTableValid(out) && out.tokenCount == tokenCount
    ensures ok && (!sourceKnown || !HasUser(spans)) ==> out.source == SOURCE_UNAVAILABLE
    ensures ok && sourceKnown && HasUser(spans) ==> out.source == SOURCE_KNOWN && BoundariesOf(out.boundaries, spans)
  {
    hide TurnTableValid, BoundariesOf, SpansOrdered;
    out := EMPTY_TABLE;
    var built := EMPTY_TABLE.(tokenCount := tokenCount);
    UnavailableTableValid(tokenCount);
    if !sourceKnown || spans == [] {
      return true, built;
    }
    var checked, count := CheckSpans(spans, tokenCount);
    if !checked {
      return false, out;
    }
    if count == 0 {
      NoUsers(spans);
      return true, built;
    }
    var collected, boundaries := CollectBoundaries(spans, tokenCount);
    if !collected {
      return false, out;
    }
    built := built.(source := SOURCE_KNOWN, boundaries := boundaries);
    BuiltTableValid(boundaries, spans, tokenCount);
    if !TurnTableValid(built) {
      return false, out;
    }
    return true, built;
  }

  lemma {:induction false} UnavailableTableValid(tokenCount: u64)
    ensures TurnTableValid(EMPTY_TABLE.(tokenCount := tokenCount))
  {
  }

  lemma {:induction false} NoUsers(spans: seq<Span>)
    requires !HasUser(spans)
    ensures LaterUsers(spans) == []
  {
    if spans != [] {
      var n := |spans| - 1;
      assert !spans[n].role.UserRole?;
      assert forall i :: 0 <= i < n ==> spans[..n][i] == spans[i];
      NoUsers(spans[..n]);
    }
  }

  // ---------- from tokens to turns ----------

  predicate RolesKnown(delimiters: seq<Delimiter>) {
    forall d :: d in delimiters ==> !d.role.UnknownRole?
  }

  lemma {:induction false} RoleAtKnown(tokens: seq<int>, delimiters: seq<Delimiter>, i: nat)
    requires RolesKnown(delimiters)
    ensures RoleAt(tokens, delimiters, i) != Some(UnknownRole)
  {
    if delimiters != [] {
      assert delimiters[0] in delimiters;
      RoleAtKnown(tokens, delimiters[1..], i);
    }
  }

  lemma {:induction false} ScanRolesKnown(tokens: seq<int>, delimiters: seq<Delimiter>, skips: seq<Skip>, i: nat, k: nat)
    requires RolesKnown(delimiters) && k <= |skips|
    ensures forall m :: m in Scan(tokens, delimiters, skips, i, k) ==> !m.role.UnknownRole?
    decreases (if i < |tokens| then |tokens| - i else 0) + |skips| - k
  {
    hide RoleAt;
    if i < |tokens| {
      RoleAtKnown(tokens, delimiters, i);
      if k < |skips| && i == skips[k].first {
        ScanRolesKnown(tokens, delimiters, skips, i + skips[k].len, k + 1);
      } else {
        ScanRolesKnown(tokens, delimiters, skips, i + 1, k);
      }
    }
  }

  lemma {:induction false} LaterUsersAscend(spans: seq<Span>)
    requires forall i, j :: 0 <= i < j < |spans| ==> spans[i].pos < spans[j].pos
    ensures StrictlyLater(LaterUsers(spans))
  {
    if spans != [] {
      var n := |spans| - 1;
      LaterUsersAscend(spans[..n]);
      var users := LaterUsers(spans[..n]);
      if users != [] {
        LaterUsersAre(spans[..n], users[|users| - 1]);
      }
    }
  }

  /** Whatever Split produces, Build accepts, unless a role is unknown or there are too many turns. */
  lemma {:induction false} SplitIsAccepted(tokens: seq<int>, delimiters: seq<Delimiter>, skips: seq<Skip>)
    requires RolesKnown(delimiters) && |tokens| < TWO64
    requires |LaterUsers(SpansOf(tokens, delimiters, skips))| + 1 <= MAX_TURN_BOUNDARIES
    ensures Accepted(SpansOf(tokens, delimiters, skips), true, |tokens|)
  {
    hide Scan, LaterUsers;
    ScanAscends(tokens, delimiters, skips, 0, 0);
    ScanRolesKnown(tokens, delimiters, skips, 0, 0);
    LaterUsersAscend(SpansOf(tokens, delimiters, skips));
  }

  // ---------- mapping a frontier to a turn ----------

  /** The last boundary at or before the frontier. */
  predicate MapsTo(boundaries: seq<Boundary>, frontier: int, turn: nat) {
    && turn < |boundaries|
    && boundaries[turn].tokenPos <= frontier
    && (turn + 1 < |boundaries| ==> frontier < boundaries[turn + 1].tokenPos)
  }

  lemma {:induction false} BoundariesAscend(t: TurnTable, i: nat, j: nat)
    requires TurnTableValid(t) && i < j < |t.boundaries|
    ensures t.boundaries[i].tokenPos < t.boundaries[j].tokenPos
    decreases j
  {
    assert BoundaryValid(t.boundaries, t.tokenCount, j);
    if i < j - 1 { BoundariesAscend(t, i, j - 1); }
  }

  lemma {:induction false} MapsToUnique(t: TurnTable, frontier: u64, i: nat, j: nat)
    requires TurnTableValid(t) && MapsTo(t.boundaries, frontier, i) && MapsTo(t.boundaries, frontier, j)
    ensures i == j
  {
    if i + 1 < j { BoundariesAscend(t, i + 1, j); }
    if j + 1 < i { BoundariesAscend(t, j + 1, i); }
  }

  /** Each boundary's own position maps to it. */
  lemma {:induction false} BoundaryMapsToItself(t: TurnTable, i: nat)
    requires TurnTableValid(t) && i < |t.boundaries|
    ensures MapsTo(t.boundaries, t.boundaries[i].tokenPos, i)
  {
    if i + 1 < |t.boundaries| { BoundariesAscend(t, i, i + 1); }
  }

  lemma {:induction false} PosAtLeastIndex(spans: seq<Span>, i: nat)
    requires i < |spans| && (forall j, k :: 0 <= j < k < |spans| ==> spans[j].pos < spans[k].pos)
    ensures i <= spans[i].pos
  {
    if i > 0 { PosAtLeastIndex(spans, i - 1); }
  }

  /** The last boundary of a built table is where the last user message starts. */
  lemma {:induction false} LastUserIsLastLater(spans: seq<Span>, i: nat)
    requires IsLastUser(spans, i) && (forall j, k :: 0 <= j < k < |spans| ==> spans[j].pos < spans[k].pos)
    ensures spans[i].pos != 0 ==> LaterUsers(spans) != [] && LaterUsers(spans)[|LaterUsers(spans)| - 1] == spans[i]
    ensures spans[i].pos == 0 ==> LaterUsers(spans) == []
  {
    var n := |spans| - 1;
    if i < n {
      LastUserIsLastLater(spans[..n], i);
    } else if spans[i].pos == 0 {
      PosAtLeastIndex(spans, n);
    }
  }

  /**
   * End to end: in the table built from the spans of `tokens`, every user start
   * maps to a turn that begins exactly there, and the last turn begins at the
   * last user message.
   */
  lemma {:induction false} UserStartsAreTurns(tokens: seq<int>, delimiters: seq<Delimiter>, skips: seq<Skip>, t: TurnTable, i: nat)
    requires |tokens| < TWO64 && TurnTableValid(t) && BoundariesOf(t.boundaries, SpansOf(tokens, delimiters, skips))
    requires i < |SpansOf(tokens, delimiters, skips)| && SpansOf(tokens, delimiters, skips)[i].role.UserRole?
    ensures var spans := SpansOf(tokens, delimiters, skips);
            && (exists turn: nat :: MapsTo(t.boundaries, spans[i].pos, turn) && t.boundaries[turn].tokenPos == spans[i].pos)
            && (IsLastUser(spans, i) ==> t.boundaries[|t.boundaries| - 1].tokenPos == spans[i].pos)
  {
    ScanAscends(tokens, delimiters, skips, 0, 0);
    var spans := SpansOf(tokens, delimiters, skips);
    hide Scan, LaterUsers, SpansOf, TurnTableValid;
    SpansAscend(tokens, delimiters, skips);
    var users := LaterUsers(spans);
    var turn := 0;
    if spans[i].pos != 0 {
      LaterUsersAre(spans, spans[i]);
      var k :| 0 <= k < |users| && users[k] == spans[i];
      turn := k + 1;
    }
    BoundaryMapsToItself(t, turn);
    if IsLastUser(spans, i) {
      LastUserIsLastLater(spans, i);
    }
  }

  lemma {:induction false} SpansAscend(tokens: seq<int>, delimiters: seq<Delimiter>, skips: seq<Skip>)
    ensures var spans := SpansOf(tokens, delimiters, skips);
            && (forall j, k :: 0 <= j < k < |spans| ==> spans[j].pos < spans[k].pos)
            && (forall j :: 0 <= j < |spans| ==> spans[j].pos < |tokens|)
  {
    hide Scan;
    ScanAscends(tokens, delimiters, skips, 0, 0);
  }
}
