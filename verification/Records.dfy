/** The records of the retention sidecar and what makes each of them valid. Enumerations are bytes, which may be out of range. */
module Records {
  import opened Words

  const SIDECAR_VERSION: u32 := 2
  const TURN_TABLE_VERSION: u32 := 1
  const MAX_POOL_COUNTER: u64 := 0x7FFF_FFFF_FFFF_FFFE
  const FREQUENCY_ONE: u64 := 0x10_0000
  const MAX_PRIOR_MILLI: u32 := 4000
  const MAX_TURN_BOUNDARIES: nat := 8192
  const MAX_ARTIFACTS: nat := 8192
  const MAX_LINEAGES: nat := 8192

  const SOURCE_KNOWN: u8 := 0
  const SOURCE_UNAVAILABLE: u8 := 1
  const SOURCE_COUNT: u8 := 2

  const POOL_COUNT: u8 := 2

  const KIND_COUNT: u8 := 3

  const SCORE_KNOWN: u8 := 0
  const SCORE_UNAVAILABLE: u8 := 1
  const SCORE_COUNT: u8 := 2

  const FREQUENCY_UNAVAILABLE: u8 := 0
  const FREQUENCY_PROBATION: u8 := 1
  const FREQUENCY_PROMOTED: u8 := 2
  const FREQUENCY_COUNT: u8 := 3

  /** One counter per pool. */
  type PerPool = s: seq<u64> | |s| == 2 witness [0, 0]

  datatype Lineage = Lineage(
    pool: u8,
    state: u8,
    lineageId: u64,
    reuseHits: u64,
    frequencyQ: u64,
    admissionEpoch: u64,
    frequencyEpoch: u64,
    lastCreditEpoch: u64,
    priorMilli: u32)

  datatype Boundary = Boundary(ordinal: u64, tokenPos: u64, tokenEnd: u64)

  datatype TurnTable = TurnTable(version: u32, source: u8, tokenCount: u64, boundaries: seq<Boundary>)

  datatype Stamp = Stamp(
    state: u8,
    pool: u8,
    softLeased: bool,
    mandatoryAnchor: bool,
    stableId: u64,
    lineageId: u64,
    recencyOrdinal: u64,
    mappedTurnOrdinal: u64,
    anchorRank: u64,
    coverageTokens: u64)

  datatype Artifact = Artifact(kind: u8, turns: Option<TurnTable>, stamp: Stamp)

  datatype Snapshot = Snapshot(
    version: u32,
    recencyHighWater: PerPool,
    stableHighWater: PerPool,
    lineageHighWater: PerPool,
    competitionEpoch: u64,
    lineages: seq<Lineage>,
    artifacts: seq<Artifact>)

  // ---------- validity of one record ----------

  predicate LineageValid(l: Lineage, competitionEpoch: u64) {
    && l.pool < POOL_COUNT
    && l.state < FREQUENCY_COUNT
    && 0 < l.lineageId <= MAX_POOL_COUNTER
    && 0 < l.priorMilli <= MAX_PRIOR_MILLI
    && 0 < l.admissionEpoch <= competitionEpoch
    && l.admissionEpoch <= l.frequencyEpoch <= competitionEpoch
    && (l.lastCreditEpoch != 0 ==> l.admissionEpoch <= l.lastCreditEpoch)
    && l.lastCreditEpoch <= competitionEpoch
    && (l.reuseHits == 0 <==> l.lastCreditEpoch == 0)
    && (if l.state == FREQUENCY_UNAVAILABLE
        then l.reuseHits == 0 && l.frequencyQ == 0 && l.lastCreditEpoch == 0
        else l.state != FREQUENCY_PROMOTED || l.reuseHits >= 2)
  }

  predicate BoundaryValid(boundaries: seq<Boundary>, tokenCount: u64, i: nat)
    requires i < |boundaries|
  {
    && boundaries[i].ordinal == i
    && boundaries[i].tokenPos <= boundaries[i].tokenEnd <= tokenCount
    && (i > 0 ==> boundaries[i - 1].tokenPos < boundaries[i].tokenPos)
  }

  predicate TurnTableValid(t: TurnTable) {
    && t.version == TURN_TABLE_VERSION
    && t.source < SOURCE_COUNT
    && if t.source == SOURCE_UNAVAILABLE then t.boundaries == [] else
         && t.boundaries != []
         && t.boundaries[0].ordinal == 0
         && t.boundaries[0].tokenPos == 0
         && forall i :: 0 <= i < |t.boundaries| ==> BoundaryValid(t.boundaries, t.tokenCount, i)
  }

  predicate StampValid(s: Stamp) {
    && s.state < SCORE_COUNT
    && s.pool < POOL_COUNT
    && 0 < s.stableId <= MAX_POOL_COUNTER
    && 0 < s.lineageId <= MAX_POOL_COUNTER
    && 0 < s.recencyOrdinal <= MAX_POOL_COUNTER
    && (s.state == SCORE_UNAVAILABLE ==>
          !s.mandatoryAnchor && s.mappedTurnOrdinal == 0 && s.anchorRank == 0)
  }

  predicate ArtifactValid(a: Artifact) {
    && a.kind < KIND_COUNT
    && a.turns.Some?
    && TurnTableValid(a.turns.value)
    && StampValid(a.stamp)
    && (a.stamp.state == SCORE_UNAVAILABLE ||
        ( && a.turns.value.source == SOURCE_KNOWN
          && a.stamp.coverageTokens <= a.turns.value.tokenCount
          && a.stamp.mappedTurnOrdinal < |a.turns.value.boundaries|))
  }

  // ---------- validity of a snapshot ----------

  function LineageIds(lineages: seq<Lineage>, pool: u8): seq<u64> {
    if lineages == [] then [] else
      var n := |lineages| - 1;
      var init := LineageIds(lineages[..n], pool);
      if lineages[n].pool == pool then init + [lineages[n].lineageId] else init
  }

  function StableIds(artifacts: seq<Artifact>, pool: u8): seq<u64> {
    if artifacts == [] then [] else
      var n := |artifacts| - 1;
      var init := StableIds(artifacts[..n], pool);
      if artifacts[n].stamp.pool == pool then init + [artifacts[n].stamp.stableId] else init
  }

  function RecencyOrdinals(artifacts: seq<Artifact>, pool: u8): seq<u64> {
    if artifacts == [] then [] else
      var n := |artifacts| - 1;
      var init := RecencyOrdinals(artifacts[..n], pool);
      if artifacts[n].stamp.pool == pool then init + [artifacts[n].stamp.recencyOrdinal] else init
  }

  predicate Distinct(xs: seq<u64>) {
    forall i, j :: 0 <= i < j < |xs| ==> xs[i] != xs[j]
  }

  predicate Bounded(xs: seq<u64>, bound: u64) {
    forall i :: 0 <= i < |xs| ==> xs[i] <= bound
  }

  /** Ids of a pool are unique and its high-water marks cover everything issued. */
  predicate PoolConsistent(s: Snapshot, pool: u8)
    requires pool < POOL_COUNT
  {
    && Distinct(LineageIds(s.lineages, pool))
    && Distinct(StableIds(s.artifacts, pool))
    && Bounded(RecencyOrdinals(s.artifacts, pool), s.recencyHighWater[pool])
    && Bounded(StableIds(s.artifacts, pool), s.stableHighWater[pool])
    && Bounded(LineageIds(s.lineages, pool), s.lineageHighWater[pool])
    && s.recencyHighWater[pool] <= MAX_POOL_COUNTER
    && s.stableHighWater[pool] <= MAX_POOL_COUNTER
    && s.lineageHighWater[pool] <= MAX_POOL_COUNTER
  }

  /** The artifact is valid and refers to a lineage of its own pool. */
  predicate ArtifactAnchored(a: Artifact, lineages: seq<Lineage>) {
    ArtifactValid(a) && a.stamp.lineageId in LineageIds(lineages, a.stamp.pool)
  }

  predicate SnapshotValid(s: Snapshot) {
    && s.version == SIDECAR_VERSION
    && s.competitionEpoch != 0
    && |s.lineages| <= MAX_LINEAGES
    && |s.artifacts| <= MAX_ARTIFACTS
    && (forall i :: 0 <= i < |s.lineages| ==> LineageValid(s.lineages[i], s.competitionEpoch))
    && (forall i :: 0 <= i < |s.artifacts| ==> ArtifactAnchored(s.artifacts[i], s.lineages))
    && PoolConsistent(s, 0)
    && PoolConsistent(s, 1)
  }

  lemma {:induction false} LineageIdListed(lineages: seq<Lineage>, i: nat)
    requires i < |lineages|
    ensures lineages[i].lineageId in LineageIds(lineages, lineages[i].pool)
  {
    var n := |lineages| - 1;
    if i < n {
      LineageIdListed(lineages[..n], i);
      assert lineages[..n][i] == lineages[i];
    }
  }

  lemma {:induction false} ArtifactIdsListed(artifacts: seq<Artifact>, i: nat)
    requires i < |artifacts|
    ensures artifacts[i].stamp.stableId in StableIds(artifacts, artifacts[i].stamp.pool)
    ensures artifacts[i].stamp.recencyOrdinal in RecencyOrdinals(artifacts, artifacts[i].stamp.pool)
  {
    var n := |artifacts| - 1;
    if i < n {
      ArtifactIdsListed(artifacts[..n], i);
      assert artifacts[..n][i] == artifacts[i];
    }
  }
}
