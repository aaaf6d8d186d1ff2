/** Scoring a frontier: mandatory anchors at both ends, between them ranks at power-of-two distances from the newest turn. */
module Score {
  import opened Words
  import opened Records
  import opened Spans
  import opened Turns

  /** The least k with 2^k >= value. */
  function CeilLog2(value: nat): (k: nat)
    ensures Pow2(k) >= value
    ensures k > 0 ==> Pow2(k - 1) < value
    decreases value
  {
    if value <= 1 then 0 else CeilLog2((value + 1) / 2) + 1
  }

  lemma {:induction false} CeilLog2Is(value: nat, k: nat)
    requires Pow2(k) >= value && (k > 0 ==> Pow2(k - 1) < value)
    ensures CeilLog2(value) == k
  {
    var c := CeilLog2(value);
    if c < k {
      Pow2Mono(c, k - 1);
    } else if k < c {
      Pow2Mono(k, c - 1);
    }
  }

  method ComputeCeilLog2(value: u64) returns (result: u64)
    ensures result == CeilLog2(value)
  {
    Pow2Words();
    result := 0;
    var power: u64 := 1;
    while power < value
      invariant 0 <= result < 64 && power == Pow2(result)
      invariant result > 0 ==> Pow2(result - 1) < value
      decreases value - power
    {
      Pow2Mono(result, 63);
      if power > U64_MAX / 2 {
        CeilLog2Is(value, 64);
        return 64;
      }
      power := power * 2;
      result := result + 1;
    }
    CeilLog2Is(value, result);
  }

  // ---------- anchor ranks ----------

  predicate Interior(n: nat, turn: nat) { 0 < turn < n }

  /** `turn` is 2^k turns before the newest turn n. */
  predicate AtDistance(n: nat, turn: nat, k: nat) { turn + Pow2(k) == n }

  /** `rank` is the anchor rank of an interior turn. */
  ghost predicate IsRank(n: nat, turn: nat, rank: nat)
    requires Interior(n, turn)
  {
    && (forall k :: AtDistance(n, turn, k) ==> rank + k == CeilLog2(n) + 1)
    && ((forall k :: !AtDistance(n, turn, k)) ==> rank == 0)
  }

  lemma {:induction false} DistanceIsUnique(n: nat, turn: nat, j: nat, k: nat)
    requires AtDistance(n, turn, j) && AtDistance(n, turn, k)
    ensures j == k
  {
    if j < k { Pow2Mono(j, k); }
    if k < j { Pow2Mono(k, j); }
  }

  lemma {:induction false} DistanceBelowLog(n: nat, turn: nat, k: nat)
    requires Interior(n, turn) && AtDistance(n, turn, k)
    ensures k < CeilLog2(n)
  {
    if k >= CeilLog2(n) { Pow2Mono(CeilLog2(n), k); }
  }

  /** A rank is nonzero exactly at a power-of-two distance. */
  lemma {:induction false} RankedIffPowerOfTwo(n: nat, turn: nat, rank: nat)
    requires Interior(n, turn) && IsRank(n, turn, rank)
    ensures rank > 0 <==> exists k :: AtDistance(n, turn, k)
    ensures rank <= CeilLog2(n) + 1
  {
    if k :| AtDistance(n, turn, k) {
      DistanceBelowLog(n, turn, k);
    }
  }

  /** The farther a ranked turn is from the newest, the lower its rank. */
  lemma {:induction false} RankFallsWithDistance(n: nat, near: nat, far: nat, nearRank: nat, farRank: nat)
    requires Interior(n, near) && Interior(n, far) && far < near
    requires IsRank(n, near, nearRank) && IsRank(n, far, farRank) && nearRank > 0 && farRank > 0
    ensures farRank < nearRank
  {
    RankedIffPowerOfTwo(n, near, nearRank);
    RankedIffPowerOfTwo(n, far, farRank);
    var j :| AtDistance(n, near, j);
    var k :| AtDistance(n, far, k);
    if k <= j { Pow2Mono(k, j); }
  }

  ghost function RankedTurns(n: nat): set<nat> {
    set turn: nat | turn < n && Interior(n, turn) && exists k :: AtDistance(n, turn, k)
  }

  ghost function RankedUpTo(n: nat, limit: nat): set<nat> {
    set turn: nat | turn < n && Interior(n, turn) && exists k: nat :: k < limit && AtDistance(n, turn, k)
  }

  lemma {:induction false} CountRankedUpTo(n: nat, limit: nat)
    requires n > 0 && limit <= CeilLog2(n)
    ensures |RankedUpTo(n, limit)| == limit
  {
    if limit == 0 {
      assert RankedUpTo(n, 0) == {};
    } else {
      var k := limit - 1;
      Pow2Mono(k, CeilLog2(n) - 1);
      CountRankedUpTo(n, k);
      var turn: nat := n - Pow2(k);
      assert AtDistance(n, turn, k);
      forall j: nat | j < k ensures !AtDistance(n, turn, j) {
        if AtDistance(n, turn, j) { DistanceIsUnique(n, turn, j, k); }
      }
      assert turn !in RankedUpTo(n, k);
      assert RankedUpTo(n, limit) == RankedUpTo(n, k) + {turn};
    }
  }

  /** Of the interior turns, exactly ceil(log2 n) are ranked. */
  lemma {:induction false} RankedTurnCount(n: nat)
    requires n > 0
    ensures |RankedTurns(n)| == CeilLog2(n)
  {
    CountRankedUpTo(n, CeilLog2(n));
    forall turn: nat, k: nat | Interior(n, turn) && AtDistance(n, turn, k) ensures k < CeilLog2(n) {
      DistanceBelowLog(n, turn, k);
    }
    forall turn: nat | turn in RankedTurns(n) ensures turn in RankedUpTo(n, CeilLog2(n)) {
      var k :| AtDistance(n, turn, k);
    }
    assert RankedTurns(n) == RankedUpTo(n, CeilLog2(n));
  }

  // ---------- the scorer ----------

  /** std::upper_bound on token positions: how many boundaries are at or before the frontier. */
  method UpperBound(t: TurnTable, frontier: u64) returns (upper: nat)
    requires TurnTableValid(t)
    ensures upper <= |t.boundaries|
    ensures forall i :: 0 <= i < upper ==> t.boundaries[i].tokenPos <= frontier
    ensures forall i :: upper <= i < |t.boundaries| ==> frontier < t.boundaries[i].tokenPos
  {
    hide TurnTableValid;
    var lo, hi := 0, |t.boundaries|;
    while lo < hi
      invariant 0 <= lo <= hi <= |t.boundaries|
      invariant forall i :: 0 <= i < lo ==> t.boundaries[i].tokenPos <= frontier
      invariant forall i :: hi <= i < |t.boundaries| ==> frontier < t.boundaries[i].tokenPos
    {
      var mid := (lo + hi) / 2;
      forall i: nat | i < |t.boundaries| && i != mid
        ensures if i < mid then t.boundaries[i].tokenPos < t.boundaries[mid].tokenPos
                else t.boundaries[mid].tokenPos < t.boundaries[i].tokenPos
      {
        if i < mid { BoundariesAscend(t, i, mid); } else { BoundariesAscend(t, mid, i); }
      }
      if frontier < t.boundaries[mid].tokenPos {
        hi := mid;
      } else {
        lo := mid + 1;
      }
    }
    upper := lo;
  }

  ghost predicate NoneBelow(n: nat, mapped: nat, k: nat) { forall j: nat :: j < k ==> !AtDistance(n, mapped, j) }

  lemma {:induction false} FoundAt(n: nat, mapped: nat, k: nat)
    requires Interior(n, mapped) && AtDistance(n, mapped, k) && k <= CeilLog2(n)
    ensures IsRank(n, mapped, CeilLog2(n) + 1 - k)
  {
    forall j | AtDistance(n, mapped, j) ensures j == k { DistanceIsUnique(n, mapped, j, k); }
  }

  lemma {:induction false} FoundNowhere(n: nat, mapped: nat, k: nat)
    requires Interior(n, mapped) && NoneBelow(n, mapped, k + 1)
    requires Pow2(k) >= n || k >= CeilLog2(n) || (k >= 63 && n < TWO64)
    ensures IsRank(n, mapped, 0)
  {
    NoneBeyond(n, mapped, k);
    hide CeilLog2, Pow2;
  }

  lemma {:induction false} LogFits(n: u64)
    ensures CeilLog2(n) <= 64
  {
    Pow2Words();
    if CeilLog2(n) > 64 { Pow2Mono(64, CeilLog2(n) - 1); }
  }

  lemma {:induction false} PowerFits(k: nat)
    requires k < 64
    ensures Pow2(k) < TWO64
  {
    Pow2Words();
    Pow2Mono(k, 63);
  }

  /** The rank of an interior turn, searching k = 0, 1, 2, ... */
  method AnchorRank(n: u64, mapped: u64) returns (rank: u64)
    requires Interior(n, mapped)
    ensures IsRank(n, mapped, rank)
  {
    hide Pow2, CeilLog2, IsRank;
    var kMax := ComputeCeilLog2(n);
    LogFits(n);
    var k: u64 := 0;
    while k <= kMax && k < 64
      invariant 0 <= k <= kMax + 1 && k <= 64 && NoneBelow(n, mapped, k)
    {
      PowerFits(k);
      var distance: u64 := Pow2(k);
      var index := if distance >= n then 0 else n - distance;
      if index == mapped {
        FoundAt(n, mapped, k);
        return kMax + 1 - k;
      }
      assert NoneBelow(n, mapped, k + 1);
      if index == 0 {
        FoundNowhere(n, mapped, k);
        return 0;
      }
      k := k + 1;
    }
    FoundNowhere(n, mapped, k - 1);
    rank := 0;
  }

  lemma {:induction false} NoneBeyond(n: nat, mapped: nat, k: nat)
    requires Interior(n, mapped)
    requires Pow2(k) >= n || k >= CeilLog2(n) || (k >= 63 && n < TWO64)
    requires forall j: nat :: j <= k ==> !AtDistance(n, mapped, j)
    ensures forall j :: !AtDistance(n, mapped, j)
  {
    Pow2Words();
    forall j | j > k ensures !AtDistance(n, mapped, j) {
      if k >= CeilLog2(n) { Pow2Mono(CeilLog2(n), j); }
      if Pow2(k) >= n { Pow2Mono(k, j); }
      if k >= 63 { Pow2Mono(64, j); }
    }
  }

  predicate Scorable(t: TurnTable, frontier: u64) {
    TurnTableValid(t) && t.source == SOURCE_KNOWN && frontier <= t.tokenCount
  }

  /** What a stamp says about a frontier that could be scored. */
  ghost predicate Scored(t: TurnTable, frontier: u64, s: Stamp) {
    && s.state == SCORE_KNOWN
    && MapsTo(t.boundaries, frontier, s.mappedTurnOrdinal)
    && var n := |t.boundaries| - 1;
       && (s.mandatoryAnchor <==> s.mappedTurnOrdinal == 0 || s.mappedTurnOrdinal == n)
       && (s.mandatoryAnchor ==> s.anchorRank == 0)
       && (!s.mandatoryAnchor ==> Interior(n, s.mappedTurnOrdinal) && IsRank(n, s.mappedTurnOrdinal, s.anchorRank))
  }

  method ScoreStamp(t: TurnTable, frontier: u64, stamp: Stamp) returns (ok: bool, out: Stamp)
    ensures ok <==> Scorable(t, frontier)
    ensures out == stamp.(state := out.state, mandatoryAnchor := out.mandatoryAnchor,
                          mappedTurnOrdinal := out.mappedTurnOrdinal, anchorRank := out.anchorRank)
    ensures !ok ==> out.state == SCORE_UNAVAILABLE && !out.mandatoryAnchor && out.mappedTurnOrdinal == 0 && out.anchorRank == 0
    ensures ok ==> Scored(t, frontier, out)
  {
    out := stamp.(state := SCORE_UNAVAILABLE, mandatoryAnchor := false, mappedTurnOrdinal := 0, anchorRank := 0);
    if !TurnTableValid(t) || t.source != SOURCE_KNOWN || frontier > t.tokenCount {
      return false, out;
    }
    OrdinalsFit(t);
    hide TurnTableValid, IsRank;
    var upper := UpperBound(t, frontier);
    assert upper > 0;
    var mapped: u64 := upper - 1;
    var n: u64 := |t.boundaries| - 1;
    out := out.(state := SCORE_KNOWN, mappedTurnOrdinal := mapped, mandatoryAnchor := mapped == 0 || mapped == n);
    if out.mandatoryAnchor {
      return true, out;
    }
    var rank := AnchorRank(n, mapped);
    out := out.(anchorRank := rank);
    ok := true;
  }

  lemma {:induction false} OrdinalsFit(t: TurnTable)
    requires TurnTableValid(t) && t.source == SOURCE_KNOWN
    ensures 0 < |t.boundaries| <= TWO64 && t.boundaries[0].tokenPos == 0
  {
    assert BoundaryValid(t.boundaries, t.tokenCount, |t.boundaries| - 1);
  }

  /** Scoring a stamp, whatever the frontier, leaves an artifact that may be recorded. */
  lemma {:induction false} ScoredArtifactValid(a: Artifact, frontier: u64, scored: Stamp)
    requires ArtifactValid(a) && a.stamp.coverageTokens <= a.turns.value.tokenCount
    requires Scorable(a.turns.value, frontier) && Scored(a.turns.value, frontier, scored)
    requires scored == a.stamp.(state := scored.state, mandatoryAnchor := scored.mandatoryAnchor,
                                mappedTurnOrdinal := scored.mappedTurnOrdinal, anchorRank := scored.anchorRank)
    ensures ArtifactValid(a.(stamp := scored))
  {
  }

  /** A user start scores to a turn beginning exactly there. */
  lemma {:induction false} BoundaryScoresToItself(t: TurnTable, i: nat, s: Stamp)
    requires TurnTableValid(t) && i < |t.boundaries| && Scored(t, t.boundaries[i].tokenPos, s)
    ensures s.mappedTurnOrdinal == i
  {
    BoundaryMapsToItself(t, i);
    MapsToUnique(t, t.boundaries[i].tokenPos, i, s.mappedTurnOrdinal);
  }

  /**
   * End to end: the turn that a user start scores to begins exactly there, and
   * the last user message is a mandatory anchor.
   */
  lemma {:induction false} UserStartScores(tokens: seq<int>, delimiters: seq<Delimiter>, skips: seq<Skip>, t: TurnTable, i: nat, s: Stamp)
    requires |tokens| < TWO64 && TurnTableValid(t) && BoundariesOf(t.boundaries, SpansOf(tokens, delimiters, skips))
    requires i < |SpansOf(tokens, delimiters, skips)| && SpansOf(tokens, delimiters, skips)[i].role.UserRole?
    requires SpansOf(tokens, delimiters, skips)[i].pos < TWO64 && Scored(t, SpansOf(tokens, delimiters, skips)[i].pos, s)
    ensures t.boundaries[s.mappedTurnOrdinal].tokenPos == SpansOf(tokens, delimiters, skips)[i].pos
    ensures IsLastUser(SpansOf(tokens, delimiters, skips), i) ==> s.mandatoryAnchor
  {
    UserStartsAreTurns(tokens, delimiters, skips, t, i);
    hide SpansOf, BoundariesOf, TurnTableValid, IsRank;
    var pos := SpansOf(tokens, delimiters, skips)[i].pos;
    var turn: nat :| MapsTo(t.boundaries, pos, turn) && t.boundaries[turn].tokenPos == pos;
    BoundaryScoresToItself(t, turn, s);
    if IsLastUser(SpansOf(tokens, delimiters, skips), i) {
      var n := |t.boundaries| - 1;
      if turn < n { BoundariesAscend(t, turn, n); }
    }
  }
}
