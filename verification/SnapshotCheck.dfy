/**
 * The snapshot check as the sidecar runs it: one pass collecting maxima and ids,
 * then sorting, scanning neighbours and binary search. It decides SnapshotValid.
 */
module SnapshotCheck {
  import opened Words
  import opened Records

  predicate Ascending(xs: seq<u64>) {
    forall i, j :: 0 <= i < j < |xs| ==> xs[i] <= xs[j]
  }

  function Insert(x: u64, xs: seq<u64>): (r: seq<u64>) {
    if xs == [] || x <= xs[0] then [x] + xs else [xs[0]] + Insert(x, xs[1..])
  }

  lemma {:induction false} InsertKeeps(x: u64, xs: seq<u64>)
    ensures multiset(Insert(x, xs)) == multiset(xs) + multiset{x}
  {
    if xs == [] || x <= xs[0] {
      assert [x] + xs == Insert(x, xs);
    } else {
      InsertKeeps(x, xs[1..]);
      assert xs == [xs[0]] + xs[1..];
    }
  }

  lemma {:induction false} InsertSorts(x: u64, xs: seq<u64>)
    requires Ascending(xs)
    ensures Ascending(Insert(x, xs))
    ensures multiset(Insert(x, xs)) == multiset(xs) + multiset{x}
  {
    InsertKeeps(x, xs);
    if xs != [] && xs[0] < x {
      InsertSorts(x, xs[1..]);
      var r := Insert(x, xs[1..]);
      hide Insert;
      forall i | 0 <= i < |r| ensures xs[0] <= r[i] {
        assert r[i] in multiset(r);
        assert r[i] == x || r[i] in xs[1..];
      }
    }
  }

  /** std::sort, as far as its callers can tell. */
  function Sort(xs: seq<u64>): (r: seq<u64>)
    ensures Ascending(r)
    ensures multiset(r) == multiset(xs)
  {
    if xs == [] then [] else
      var n := |xs| - 1;
      assert xs == xs[..n] + [xs[n]];
      InsertSorts(xs[n], Sort(xs[..n]));
      Insert(xs[n], Sort(xs[..n]))
  }

  lemma {:induction false} SortKeepsMembers(xs: seq<u64>, x: u64)
    ensures x in Sort(xs) <==> x in xs
  {
    assert x in multiset(Sort(xs)) <==> x in multiset(xs);
  }

  lemma {:induction false} DistinctByCount(xs: seq<u64>)
    ensures Distinct(xs) <==> forall x :: multiset(xs)[x] <= 1
  {
    if xs != [] {
      var n := |xs| - 1;
      var init, last := xs[..n], xs[n];
      assert xs == init + [last];
      DistinctByCount(init);
      if Distinct(xs) {
        assert Distinct(init) && last !in init;
        assert multiset(init)[last] == 0;
      }
      if forall x :: multiset(xs)[x] <= 1 {
        assert forall x :: multiset(init)[x] <= multiset(xs)[x];
        assert multiset(init)[last] == 0;
        assert forall i :: 0 <= i < n ==> init[i] in multiset(init);
      }
    }
  }

  lemma {:induction false} DistinctAfterSort(xs: seq<u64>)
    ensures Distinct(Sort(xs)) <==> Distinct(xs)
  {
    DistinctByCount(xs);
    DistinctByCount(Sort(xs));
  }

  lemma {:induction false} StrictlyAscending(xs: seq<u64>, i: nat, j: nat)
    requires forall k :: 0 < k < |xs| ==> xs[k - 1] < xs[k]
    requires i < j < |xs|
    ensures xs[i] < xs[j]
  {
    if i + 1 < j { StrictlyAscending(xs, i, j - 1); }
  }

  /** std::sort followed by std::adjacent_find: no two entries are equal. */
  method AllDistinct(xs: seq<u64>) returns (sorted: seq<u64>, ok: bool)
    ensures sorted == Sort(xs)
    ensures ok <==> Distinct(xs)
  {
    sorted := Sort(xs);
    DistinctAfterSort(xs);
    var k := 1;
    while k < |sorted|
      invariant 1 <= k
      invariant forall m :: 0 < m < k && m < |sorted| ==> sorted[m - 1] < sorted[m]
    {
      if sorted[k - 1] == sorted[k] {
        return sorted, false;
      }
      k := k + 1;
    }
    forall i, j | 0 <= i < j < |sorted| ensures sorted[i] != sorted[j] {
      StrictlyAscending(sorted, i, j);
    }
    ok := true;
  }

  method BinarySearch(xs: seq<u64>, x: u64) returns (found: bool)
    requires Ascending(xs)
    ensures found <==> x in xs
  {
    var lo, hi := 0, |xs|;
    while lo < hi
      invariant 0 <= lo <= hi <= |xs|
      invariant forall i :: 0 <= i < lo ==> xs[i] < x
      invariant forall i :: hi <= i < |xs| ==> x < xs[i]
    {
      var mid := (lo + hi) / 2;
      if xs[mid] < x {
        lo := mid + 1;
      } else if x < xs[mid] {
        hi := mid;
      } else {
        return true;
      }
    }
    return false;
  }

  function Max(a: u64, b: u64): u64 { if a < b then b else a }

  /** `m` is 0 or a member, and no member exceeds it. */
  ghost predicate IsMaximum(m: u64, xs: seq<u64>) {
    Bounded(xs, m) && (m == 0 || m in xs)
  }

  lemma {:induction false} MaximumSnoc(m: u64, xs: seq<u64>, x: u64)
    requires IsMaximum(m, xs)
    ensures IsMaximum(Max(m, x), xs + [x])
  {
    assert forall y :: y in xs ==> y in xs + [x];
    assert x in xs + [x];
  }

  lemma {:induction false} BoundByMaximum(m: u64, xs: seq<u64>, bound: u64)
    requires IsMaximum(m, xs)
    ensures m <= bound <==> Bounded(xs, bound)
  {
  }

  /** The ids of `pool` among the first lineages, and their maximum. */
  ghost predicate LineageTally(lineages: seq<Lineage>, ids: seq<seq<u64>>, maxLineage: PerPool, pool: u8)
    requires |ids| == 2 && pool < POOL_COUNT
  {
    ids[pool] == LineageIds(lineages, pool) && IsMaximum(maxLineage[pool], ids[pool])
  }

  /** First pass: every lineage valid; ids and their maximum per pool. */
  method ScanLineages(lineages: seq<Lineage>, epoch: u64)
    returns (ok: bool, ids: seq<seq<u64>>, maxLineage: PerPool)
    ensures |ids| == 2
    ensures ok <==> forall i :: 0 <= i < |lineages| ==> LineageValid(lineages[i], epoch)
    ensures ok ==> LineageTally(lineages, ids, maxLineage, 0) && LineageTally(lineages, ids, maxLineage, 1)
  {
    ids, maxLineage, ok := [[], []], [0, 0], true;
    var i := 0;
    while i < |lineages|
      invariant 0 <= i <= |lineages| && |ids| == 2
      invariant forall j :: 0 <= j < i ==> LineageValid(lineages[j], epoch)
      invariant LineageTally(lineages[..i], ids, maxLineage, 0)
      invariant LineageTally(lineages[..i], ids, maxLineage, 1)
    {
      var l := lineages[i];
      if !LineageValid(l, epoch) {
        return false, ids, maxLineage;
      }
      assert lineages[..i + 1][..i] == lineages[..i];
      MaximumSnoc(maxLineage[l.pool], ids[l.pool], l.lineageId);
      maxLineage := maxLineage[l.pool := Max(maxLineage[l.pool], l.lineageId)];
      ids := ids[l.pool := ids[l.pool] + [l.lineageId]];
      i := i + 1;
    }
    assert lineages[..i] == lineages;
  }

  ghost predicate ArtifactTally(artifacts: seq<Artifact>, ids: seq<seq<u64>>, maxStable: PerPool, maxRecency: PerPool, pool: u8)
    requires |ids| == 2 && pool < POOL_COUNT
  {
    && ids[pool] == StableIds(artifacts, pool)
    && IsMaximum(maxStable[pool], ids[pool])
    && IsMaximum(maxRecency[pool], RecencyOrdinals(artifacts, pool))
  }

  lemma {:induction false} TallyEmpty(pool: u8)
    requires pool < POOL_COUNT
    ensures ArtifactTally([], [[], []], [0, 0], [0, 0], pool)
  {
  }

  lemma {:induction false} TallySnoc(artifacts: seq<Artifact>, a: Artifact, ids: seq<seq<u64>>, maxStable: PerPool, maxRecency: PerPool, pool: u8)
    requires |ids| == 2 && pool < POOL_COUNT && a.stamp.pool < POOL_COUNT
    requires ArtifactTally(artifacts, ids, maxStable, maxRecency, pool)
    ensures var p := a.stamp.pool;
            ArtifactTally(artifacts + [a], ids[p := ids[p] + [a.stamp.stableId]],
                          maxStable[p := Max(maxStable[p], a.stamp.stableId)],
                          maxRecency[p := Max(maxRecency[p], a.stamp.recencyOrdinal)], pool)
  {
    assert (artifacts + [a])[..|artifacts|] == artifacts;
    if pool == a.stamp.pool {
      MaximumSnoc(maxStable[pool], ids[pool], a.stamp.stableId);
      MaximumSnoc(maxRecency[pool], RecencyOrdinals(artifacts, pool), a.stamp.recencyOrdinal);
    }
  }

  lemma {:induction false} ValidArtifactPool(a: Artifact)
    requires ArtifactValid(a)
    ensures a.stamp.pool < POOL_COUNT
  {
  }

  /** Second pass: every artifact valid and anchored; stable ids and maxima per pool. */
  method ScanArtifacts(artifacts: seq<Artifact>, lineages: seq<Lineage>, sorted: seq<seq<u64>>)
    returns (ok: bool, ids: seq<seq<u64>>, maxStable: PerPool, maxRecency: PerPool)
    requires |sorted| == 2
    requires sorted[0] == Sort(LineageIds(lineages, 0)) && sorted[1] == Sort(LineageIds(lineages, 1))
    ensures |ids| == 2
    ensures ok <==> forall i :: 0 <= i < |artifacts| ==> ArtifactAnchored(artifacts[i], lineages)
    ensures ok ==> ArtifactTally(artifacts, ids, maxStable, maxRecency, 0)
    ensures ok ==> ArtifactTally(artifacts, ids, maxStable, maxRecency, 1)
  {
    hide ArtifactValid, ArtifactTally, Sort, LineageIds;
    TallyEmpty(0);
    TallyEmpty(1);
    assert artifacts[..0] == [];
    ids, maxStable, maxRecency, ok := [[], []], [0, 0], [0, 0], true;
    var i := 0;
    while i < |artifacts|
      invariant 0 <= i <= |artifacts| && |ids| == 2
      invariant forall j :: 0 <= j < i ==> ArtifactAnchored(artifacts[j], lineages)
      invariant ArtifactTally(artifacts[..i], ids, maxStable, maxRecency, 0)
      invariant ArtifactTally(artifacts[..i], ids, maxStable, maxRecency, 1)
    {
      var a := artifacts[i];
      if !ArtifactValid(a) {
        return false, ids, maxStable, maxRecency;
      }
      ValidArtifactPool(a);
      var pool := a.stamp.pool;
      var found := BinarySearch(sorted[pool], a.stamp.lineageId);
      SortKeepsMembers(LineageIds(lineages, pool), a.stamp.lineageId);
      if !found {
        return false, ids, maxStable, maxRecency;
      }
      assert artifacts[..i + 1] == artifacts[..i] + [a];
      TallySnoc(artifacts[..i], a, ids, maxStable, maxRecency, 0);
      TallySnoc(artifacts[..i], a, ids, maxStable, maxRecency, 1);
      maxRecency := maxRecency[pool := Max(maxRecency[pool], a.stamp.recencyOrdinal)];
      maxStable := maxStable[pool := Max(maxStable[pool], a.stamp.stableId)];
      ids := ids[pool := ids[pool] + [a.stamp.stableId]];
      i := i + 1;
    }
    assert artifacts[..i] == artifacts;
  }

  /** Third pass, for one pool: high-water marks and unique stable ids. */
  method CheckPool(s: Snapshot, pool: u8, ids: seq<u64>, maxLineage: u64, maxStable: u64, maxRecency: u64) returns (ok: bool)
    requires pool < POOL_COUNT
    requires ids == StableIds(s.artifacts, pool) && Distinct(LineageIds(s.lineages, pool))
    requires IsMaximum(maxLineage, LineageIds(s.lineages, pool))
    requires IsMaximum(maxStable, ids) && IsMaximum(maxRecency, RecencyOrdinals(s.artifacts, pool))
    ensures ok <==> PoolConsistent(s, pool)
  {
    BoundByMaximum(maxRecency, RecencyOrdinals(s.artifacts, pool), s.recencyHighWater[pool]);
    BoundByMaximum(maxStable, ids, s.stableHighWater[pool]);
    BoundByMaximum(maxLineage, LineageIds(s.lineages, pool), s.lineageHighWater[pool]);
    if s.recencyHighWater[pool] < maxRecency ||
       s.stableHighWater[pool] < maxStable ||
       s.lineageHighWater[pool] < maxLineage ||
       s.recencyHighWater[pool] > MAX_POOL_COUNTER ||
       s.stableHighWater[pool] > MAX_POOL_COUNTER ||
       s.lineageHighWater[pool] > MAX_POOL_COUNTER {
      return false;
    }
    var _, unique := AllDistinct(ids);
    ok := unique;
  }

  /** The whole check decides validity. */
  method Check(s: Snapshot) returns (ok: bool)
    ensures ok <==> SnapshotValid(s)
  {
    hide ArtifactAnchored, LineageValid, Distinct, Bounded, IsMaximum, LineageIds, StableIds, RecencyOrdinals, Sort;
    if s.version != SIDECAR_VERSION || s.competitionEpoch == 0 ||
       |s.lineages| > MAX_LINEAGES || |s.artifacts| > MAX_ARTIFACTS {
      return false;
    }
    var lineagesOk, lineageIds, maxLineage := ScanLineages(s.lineages, s.competitionEpoch);
    if !lineagesOk {
      return false;
    }
    var sorted0, distinct0 := AllDistinct(lineageIds[0]);
    var sorted1, distinct1 := AllDistinct(lineageIds[1]);
    if !distinct0 || !distinct1 {
      return false;
    }
    var artifactsOk, ids, maxStable, maxRecency := ScanArtifacts(s.artifacts, s.lineages, [sorted0, sorted1]);
    if !artifactsOk {
      return false;
    }
    var pool0 := CheckPool(s, 0, ids[0], maxLineage[0], maxStable[0], maxRecency[0]);
    if !pool0 {
      return false;
    }
    ok := CheckPool(s, 1, ids[1], maxLineage[1], maxStable[1], maxRecency[1]);
  }
}
