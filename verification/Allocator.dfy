/**
 * Issuing ids per pool, and importing the high-water marks of a snapshot after a
 * restart. Counters are values here; the class that updates them is at the end.
 */
module Allocator {
  import opened Words
  import opened Records
  import Codec
  import CodecTheorems
  import SnapshotCheck

  /** The next id to hand out, per pool, for each of the three kinds of id. */
  datatype Counters = Counters(recency: PerPool, stable: PerPool, lineage: PerPool)

  const INITIAL: Counters := Counters([1, 1], [1, 1], [1, 1])

  datatype Event =
    | Issue(pool: u8)
    | IssueLineage(pool: u8, competitionEpoch: u64)
    | Import(snapshot: Snapshot)

  datatype Grant =
    | StampGrant(pool: u8, recency: u64, stable: u64)
    | LineageGrant(pool: u8, lineageId: u64)

  predicate Issuable(next: u64) { 0 < next <= MAX_POOL_COUNTER }

  predicate CanIssue(c: Counters, pool: u8) {
    pool < POOL_COUNT && Issuable(c.recency[pool]) && Issuable(c.stable[pool])
  }

  predicate CanIssueLineage(c: Counters, pool: u8, competitionEpoch: u64) {
    pool < POOL_COUNT && competitionEpoch != 0 && Issuable(c.lineage[pool])
  }

  predicate BelowCeiling(marks: PerPool) { marks[0] < MAX_POOL_COUNTER && marks[1] < MAX_POOL_COUNTER }

  predicate CanImport(s: Snapshot) {
    && SnapshotValid(s)
    && BelowCeiling(s.recencyHighWater) && BelowCeiling(s.stableHighWater) && BelowCeiling(s.lineageHighWater)
  }

  function Larger(a: u64, b: u64): u64 { if a < b then b else a }

  /** Raise both counters above the marks. */
  function Raise(next: PerPool, marks: PerPool): PerPool
    requires BelowCeiling(marks)
  {
    [Larger(next[0], marks[0] + 1), Larger(next[1], marks[1] + 1)]
  }

  function Advance(next: PerPool, pool: u8): PerPool
    requires pool < POOL_COUNT && Issuable(next[pool])
  {
    next[pool := next[pool] + 1]
  }

  function Step(c: Counters, e: Event): Counters {
    match e
    case Issue(pool) =>
      if CanIssue(c, pool) then c.(recency := Advance(c.recency, pool), stable := Advance(c.stable, pool)) else c
    case IssueLineage(pool, epoch) =>
      if CanIssueLineage(c, pool, epoch) then c.(lineage := Advance(c.lineage, pool)) else c
    case Import(s) =>
      if CanImport(s)
      then Counters(Raise(c.recency, s.recencyHighWater), Raise(c.stable, s.stableHighWater), Raise(c.lineage, s.lineageHighWater))
      else c
  }

  function Granted(c: Counters, e: Event): seq<Grant> {
    match e
    case Issue(pool) => if CanIssue(c, pool) then [StampGrant(pool, c.recency[pool], c.stable[pool])] else []
    case IssueLineage(pool, epoch) =>
      if CanIssueLineage(c, pool, epoch) then [LineageGrant(pool, c.lineage[pool])] else []
    case Import(_) => []
  }

  function Run(c: Counters, events: seq<Event>): Counters
    decreases |events|
  {
    if events == [] then c else Run(Step(c, events[0]), events[1..])
  }

  function Grants(c: Counters, events: seq<Event>): seq<Grant>
    decreases |events|
  {
    if events == [] then [] else Granted(c, events[0]) + Grants(Step(c, events[0]), events[1..])
  }

  // ---------- freshness over every run ----------

  /** Both grants draw on the same counters. */
  predicate SameSource(g: Grant, h: Grant) {
    g.pool == h.pool && (g.StampGrant? <==> h.StampGrant?)
  }

  /** Every id in `g` is smaller than the corresponding id in `h`. */
  predicate Before(g: Grant, h: Grant)
    requires SameSource(g, h)
  {
    if g.StampGrant? then g.recency < h.recency && g.stable < h.stable else g.lineageId < h.lineageId
  }

  /** `g` was not yet handed out at `c`. */
  predicate AtLeast(c: Counters, g: Grant) {
    && g.pool < POOL_COUNT
    && if g.StampGrant?
       then c.recency[g.pool] <= g.recency <= MAX_POOL_COUNTER && c.stable[g.pool] <= g.stable <= MAX_POOL_COUNTER
            && 0 < g.recency && 0 < g.stable
       else c.lineage[g.pool] <= g.lineageId <= MAX_POOL_COUNTER && 0 < g.lineageId
  }

  /** `g` is already accounted for at `c`. */
  predicate Past(c: Counters, g: Grant) {
    && g.pool < POOL_COUNT
    && if g.StampGrant?
       then g.recency < c.recency[g.pool] && g.stable < c.stable[g.pool]
       else g.lineageId < c.lineage[g.pool]
  }

  predicate NotBehind(a: PerPool, b: PerPool) { a[0] <= b[0] && a[1] <= b[1] }

  predicate Grown(c: Counters, d: Counters) {
    NotBehind(c.recency, d.recency) && NotBehind(c.stable, d.stable) && NotBehind(c.lineage, d.lineage)
  }

  lemma {:induction false} StepGrows(c: Counters, e: Event)
    ensures Grown(c, Step(c, e))
    ensures forall g :: g in Granted(c, e) ==> AtLeast(c, g) && Past(Step(c, e), g)
  {
    hide SnapshotValid;
  }

  lemma {:induction false} RunGrows(c: Counters, events: seq<Event>)
    ensures Grown(c, Run(c, events))
    ensures forall g :: g in Grants(c, events) ==> AtLeast(c, g) && Past(Run(c, events), g)
    decreases |events|
  {
    hide Step, Granted;
    if events != [] {
      StepGrows(c, events[0]);
      RunGrows(Step(c, events[0]), events[1..]);
    }
  }

  /** Ids issued in a pool strictly increase, whatever is imported in between. */
  lemma {:induction false} IdsStrictlyIncrease(c: Counters, events: seq<Event>, i: nat, j: nat)
    requires i < j < |Grants(c, events)|
    requires SameSource(Grants(c, events)[i], Grants(c, events)[j])
    ensures Before(Grants(c, events)[i], Grants(c, events)[j])
    decreases |events|
  {
    hide Step;
    var now, next := Granted(c, events[0]), Step(c, events[0]);
    StepGrows(c, events[0]);
    RunGrows(next, events[1..]);
    var later := Grants(next, events[1..]);
    assert |now| <= 1;
    assert Grants(c, events)[j] == later[j - |now|];
    if i < |now| {
      assert Grants(c, events)[i] in now && later[j - |now|] in later;
    } else {
      IdsStrictlyIncrease(next, events[1..], i - |now|, j - |now|);
    }
  }

  // ---------- freshness across a restart ----------

  /** Some record of the snapshot carries an id of this grant. */
  ghost predicate Collides(g: Grant, s: Snapshot) {
    if g.StampGrant?
    then exists i :: 0 <= i < |s.artifacts| && s.artifacts[i].stamp.pool == g.pool &&
                     (s.artifacts[i].stamp.stableId == g.stable || s.artifacts[i].stamp.recencyOrdinal == g.recency)
    else (exists i :: 0 <= i < |s.lineages| && s.lineages[i].pool == g.pool && s.lineages[i].lineageId == g.lineageId) ||
         (exists i :: 0 <= i < |s.artifacts| && s.artifacts[i].stamp.pool == g.pool && s.artifacts[i].stamp.lineageId == g.lineageId)
  }

  lemma {:induction false} WithinBound(xs: seq<u64>, bound: u64, x: u64)
    requires Bounded(xs, bound) && x in xs
    ensures x <= bound
  {
  }

  lemma {:induction false} LineageIdBelowMark(s: Snapshot, i: nat)
    requires SnapshotValid(s) && i < |s.lineages|
    ensures var l := s.lineages[i]; l.pool < POOL_COUNT && l.lineageId <= s.lineageHighWater[l.pool]
  {
    var l := s.lineages[i];
    assert LineageValid(l, s.competitionEpoch);
    hide LineageValid, ArtifactAnchored, LineageIds, Bounded, Distinct;
    LineageIdListed(s.lineages, i);
    assert PoolConsistent(s, l.pool);
    WithinBound(LineageIds(s.lineages, l.pool), s.lineageHighWater[l.pool], l.lineageId);
  }

  lemma {:induction false} StampBelowMarks(s: Snapshot, i: nat)
    requires SnapshotValid(s) && i < |s.artifacts|
    ensures var t := s.artifacts[i].stamp;
            t.pool < POOL_COUNT && t.stableId <= s.stableHighWater[t.pool] &&
            t.recencyOrdinal <= s.recencyHighWater[t.pool] && t.lineageId <= s.lineageHighWater[t.pool]
  {
    var t := s.artifacts[i].stamp;
    assert ArtifactAnchored(s.artifacts[i], s.lineages);
    assert t.pool < POOL_COUNT;
    hide LineageValid, ArtifactValid, LineageIds, StableIds, RecencyOrdinals, Bounded, Distinct;
    ArtifactIdsListed(s.artifacts, i);
    assert PoolConsistent(s, t.pool);
    WithinBound(StableIds(s.artifacts, t.pool), s.stableHighWater[t.pool], t.stableId);
    WithinBound(RecencyOrdinals(s.artifacts, t.pool), s.recencyHighWater[t.pool], t.recencyOrdinal);
    WithinBound(LineageIds(s.lineages, t.pool), s.lineageHighWater[t.pool], t.lineageId);
  }

  lemma {:induction false} SnapshotIdsBelowMarks(s: Snapshot, i: nat)
    requires SnapshotValid(s)
    ensures i < |s.lineages| ==>
              var l := s.lineages[i]; l.pool < POOL_COUNT && l.lineageId <= s.lineageHighWater[l.pool]
    ensures i < |s.artifacts| ==>
              var t := s.artifacts[i].stamp;
              t.pool < POOL_COUNT && t.stableId <= s.stableHighWater[t.pool] &&
              t.recencyOrdinal <= s.recencyHighWater[t.pool] && t.lineageId <= s.lineageHighWater[t.pool]
  {
    hide SnapshotValid;
    if i < |s.lineages| { LineageIdBelowMark(s, i); }
    if i < |s.artifacts| { StampBelowMarks(s, i); }
  }

  /** After a successful import no id of the snapshot is ever issued again. */
  lemma {:induction false} FreshAfterImport(c: Counters, s: Snapshot, events: seq<Event>, g: Grant)
    requires CanImport(s)
    requires g in Grants(Step(c, Import(s)), events)
    ensures !Collides(g, s)
  {
    RunGrows(Step(c, Import(s)), events);
    hide SnapshotValid;
    forall i: nat | i < |s.artifacts|
      ensures g.StampGrant? && s.artifacts[i].stamp.pool == g.pool ==>
                s.artifacts[i].stamp.stableId < g.stable && s.artifacts[i].stamp.recencyOrdinal < g.recency
      ensures g.LineageGrant? && s.artifacts[i].stamp.pool == g.pool ==> s.artifacts[i].stamp.lineageId < g.lineageId
    {
      SnapshotIdsBelowMarks(s, i);
    }
    forall i: nat | i < |s.lineages|
      ensures g.LineageGrant? && s.lineages[i].pool == g.pool ==> s.lineages[i].lineageId < g.lineageId
    {
      SnapshotIdsBelowMarks(s, i);
    }
  }

  /** The same through the codec: write the snapshot, read it back, import it. */
  lemma {:induction false} FreshAfterRestore(hash: Codec.Hash, s: Snapshot, restored: Snapshot, c: Counters, events: seq<Event>, g: Grant)
    requires Codec.Encode(hash, s).Some? && CanImport(s)
    requires Codec.Decode(hash, Codec.Encode(hash, s).value) == Some(restored)
    requires g in Grants(Step(c, Import(restored)), events)
    ensures !Collides(g, s)
  {
    hide *;
    CodecTheorems.DecodeEncode(hash, s);
    FreshAfterImport(c, s, events, g);
  }

  /** The largest id handed out or imported so far in a pool, 0 if none. */
  function HighWater(next: PerPool, pool: u8): int { if pool < POOL_COUNT then next[pool] as int - 1 else 0 }

  /** The snapshot records the high-water marks of an allocator in state `c`. */
  predicate TakenFrom(s: Snapshot, c: Counters) {
    forall p: u8 :: p < POOL_COUNT ==>
      && s.recencyHighWater[p] == HighWater(c.recency, p)
      && s.stableHighWater[p] == HighWater(c.stable, p)
      && s.lineageHighWater[p] == HighWater(c.lineage, p)
  }

  /** The marks are at least every id granted on the way to `c`. */
  predicate Covers(c: Counters, g: Grant) {
    match g
    case StampGrant(pool, recency, stable) => recency <= HighWater(c.recency, pool) && stable <= HighWater(c.stable, pool)
    case LineageGrant(pool, id) => id <= HighWater(c.lineage, pool)
  }

  lemma {:induction false} HighWaterCovers(c: Counters, events: seq<Event>, g: Grant)
    requires g in Grants(c, events)
    ensures Covers(Run(c, events), g)
  {
    RunGrows(c, events);
  }

  /**
   * Whatever a process issued before its snapshot was taken, a process that
   * starts afresh and imports that snapshot issues strictly larger ids.
   */
  lemma {:induction false} RestartIssuesLarger(before: seq<Event>, s: Snapshot, after: seq<Event>, g: Grant, h: Grant)
    requires TakenFrom(s, Run(INITIAL, before)) && CanImport(s)
    requires g in Grants(INITIAL, before) && h in Grants(Step(INITIAL, Import(s)), after)
    requires SameSource(g, h)
    ensures Before(g, h)
  {
    hide SnapshotValid;
    RunGrows(INITIAL, before);
    RunGrows(Step(INITIAL, Import(s)), after);
    assert TakenFrom(s, Run(INITIAL, before));
  }

  // ---------- imports ----------

  lemma {:induction false} FailedImportChangesNothing(c: Counters, s: Snapshot)
    ensures Step(c, Import(s)) == c <==>
            !CanImport(s) ||
            forall p: u8 :: p < POOL_COUNT ==>
              s.recencyHighWater[p] < c.recency[p] && s.stableHighWater[p] < c.stable[p] && s.lineageHighWater[p] < c.lineage[p]
  {
    hide SnapshotValid;
    if CanImport(s) {
      assert c.recency == [c.recency[0], c.recency[1]];
      assert c.stable == [c.stable[0], c.stable[1]];
      assert c.lineage == [c.lineage[0], c.lineage[1]];
      var d := Step(c, Import(s));
      if d == c {
        assert d.recency[0] == c.recency[0] && d.recency[1] == c.recency[1];
        assert d.stable[0] == c.stable[0] && d.stable[1] == c.stable[1];
        assert d.lineage[0] == c.lineage[0] && d.lineage[1] == c.lineage[1];
      }
    }
  }

  lemma {:induction false} ImportsCommute(c: Counters, s: Snapshot, t: Snapshot)
    ensures Run(c, [Import(s), Import(t)]) == Run(c, [Import(t), Import(s)])
  {
    hide CanImport;
    assert [Import(s), Import(t)][1..] == [Import(t)] && [Import(t), Import(s)][1..] == [Import(s)];
    assert [Import(t)][1..] == [] && [Import(s)][1..] == [];
    if CanImport(s) && CanImport(t) { ImportBounds(s); ImportBounds(t); }
  }

  lemma {:induction false} ImportBounds(s: Snapshot)
    requires CanImport(s)
    ensures BelowCeiling(s.recencyHighWater) && BelowCeiling(s.stableHighWater) && BelowCeiling(s.lineageHighWater)
  {
  }

  lemma {:induction false} RaiseTwice(next: PerPool, marks: PerPool)
    requires BelowCeiling(marks)
    ensures Raise(Raise(next, marks), marks) == Raise(next, marks)
  {
  }

  lemma {:induction false} ImportIsIdempotent(c: Counters, s: Snapshot)
    ensures Run(c, [Import(s), Import(s)]) == Step(c, Import(s))
  {
    hide CanImport, Raise;
    assert [Import(s), Import(s)][1..] == [Import(s)] && [Import(s)][1..] == [];
    var once := Step(c, Import(s));
    assert Run(once, [Import(s)]) == Run(Step(once, Import(s)), []);
    if CanImport(s) {
      ImportBounds(s);
      RaiseTwice(c.recency, s.recencyHighWater);
      RaiseTwice(c.stable, s.stableHighWater);
      RaiseTwice(c.lineage, s.lineageHighWater);
    }
  }

  // ---------- the allocator object ----------

  predicate CountersValid(c: Counters) {
    forall p: u8 :: p < POOL_COUNT ==>
      0 < c.recency[p] <= MAX_POOL_COUNTER + 1 && 0 < c.stable[p] <= MAX_POOL_COUNTER + 1 &&
      0 < c.lineage[p] <= MAX_POOL_COUNTER + 1
  }

  /** No counter ever reaches 0 or wraps around. */
  lemma {:induction false} StepKeepsCountersValid(c: Counters, e: Event)
    requires CountersValid(c)
    ensures CountersValid(Step(c, e))
  {
    hide SnapshotValid;
  }

  /** A record for a lineage admitted now. */
  function AdmittedLineage(pool: u8, id: u64, competitionEpoch: u64): Lineage {
    Lineage(pool, FREQUENCY_PROBATION, id, 0, 0, competitionEpoch, competitionEpoch, 0, 1000)
  }

  /** The validity check that ends issue_lineage never refuses an id already taken. */
  lemma {:induction false} AdmittedLineageValid(c: Counters, pool: u8, competitionEpoch: u64)
    requires CanIssueLineage(c, pool, competitionEpoch)
    ensures LineageValid(AdmittedLineage(pool, c.lineage[pool], competitionEpoch), competitionEpoch)
  {
  }

  class IdAllocator {
    var nextRecency: PerPool
    var nextStable: PerPool
    var nextLineage: PerPool

    ghost function State(): Counters reads this { Counters(nextRecency, nextStable, nextLineage) }

    ghost predicate Valid() reads this { CountersValid(State()) }

    constructor ()
      ensures State() == INITIAL && Valid()
    {
      nextRecency, nextStable, nextLineage := [1, 1], [1, 1], [1, 1];
    }

    method IssueStamp(pool: u8, stamp: Stamp) returns (ok: bool, out: Stamp)
      requires Valid()
      modifies this
      ensures Valid()
      ensures State() == Step(old(State()), Issue(pool))
      ensures ok <==> CanIssue(old(State()), pool)
      ensures !ok ==> out == stamp
      ensures ok ==> Granted(old(State()), Issue(pool)) == [StampGrant(out.pool, out.recencyOrdinal, out.stableId)]
      ensures ok ==> out == stamp.(pool := out.pool, recencyOrdinal := out.recencyOrdinal, stableId := out.stableId)
    {
      StepKeepsCountersValid(State(), Issue(pool));
      if pool >= POOL_COUNT || nextRecency[pool] == 0 || nextStable[pool] == 0 ||
         nextRecency[pool] > MAX_POOL_COUNTER || nextStable[pool] > MAX_POOL_COUNTER {
        return false, stamp;
      }
      out := stamp.(pool := pool, recencyOrdinal := nextRecency[pool], stableId := nextStable[pool]);
      nextRecency := nextRecency[pool := nextRecency[pool] + 1];
      nextStable := nextStable[pool := nextStable[pool] + 1];
      ok := true;
    }

    method IssueLineageRecord(pool: u8, competitionEpoch: u64, lineage: Lineage) returns (ok: bool, out: Lineage)
      requires Valid()
      modifies this
      ensures Valid()
      ensures State() == Step(old(State()), IssueLineage(pool, competitionEpoch))
      ensures ok <==> CanIssueLineage(old(State()), pool, competitionEpoch)
      ensures !ok ==> out == lineage
      ensures ok ==> LineageValid(out, competitionEpoch)
      ensures ok ==> out == AdmittedLineage(pool, old(nextLineage)[pool], competitionEpoch)
    {
      StepKeepsCountersValid(State(), IssueLineage(pool, competitionEpoch));
      if pool >= POOL_COUNT || competitionEpoch == 0 ||
         nextLineage[pool] == 0 || nextLineage[pool] > MAX_POOL_COUNTER {
        return false, lineage;
      }
      AdmittedLineageValid(State(), pool, competitionEpoch);
      out := AdmittedLineage(pool, nextLineage[pool], competitionEpoch);
      nextLineage := nextLineage[pool := nextLineage[pool] + 1];
      ok := LineageValid(out, competitionEpoch);
    }

    method ImportSnapshot(imported: Snapshot) returns (ok: bool)
      requires Valid()
      modifies this
      ensures Valid()
      ensures State() == Step(old(State()), Import(imported))
      ensures ok <==> CanImport(imported)
    {
      hide SnapshotValid;
      StepKeepsCountersValid(State(), Import(imported));
      var valid := SnapshotCheck.Check(imported);
      if !valid {
        return false;
      }
      var i := 0;
      while i < 2
        invariant 0 <= i <= 2
        invariant forall j :: 0 <= j < i ==>
          imported.recencyHighWater[j] < MAX_POOL_COUNTER && imported.stableHighWater[j] < MAX_POOL_COUNTER &&
          imported.lineageHighWater[j] < MAX_POOL_COUNTER
      {
        if imported.recencyHighWater[i] >= MAX_POOL_COUNTER ||
           imported.stableHighWater[i] >= MAX_POOL_COUNTER ||
           imported.lineageHighWater[i] >= MAX_POOL_COUNTER {
          return false;
        }
        i := i + 1;
      }
      ghost var c := State();
      i := 0;
      while i < 2
        invariant 0 <= i <= 2
        invariant forall j :: 0 <= j < 2 ==>
          && nextRecency[j] == (if j < i then Raise(c.recency, imported.recencyHighWater)[j] else c.recency[j])
          && nextStable[j] == (if j < i then Raise(c.stable, imported.stableHighWater)[j] else c.stable[j])
          && nextLineage[j] == (if j < i then Raise(c.lineage, imported.lineageHighWater)[j] else c.lineage[j])
      {
        nextRecency := nextRecency[i := Larger(nextRecency[i], imported.recencyHighWater[i] + 1)];
        nextStable := nextStable[i := Larger(nextStable[i], imported.stableHighWater[i] + 1)];
        nextLineage := nextLineage[i := Larger(nextLineage[i], imported.lineageHighWater[i] + 1)];
        i := i + 1;
      }
      assert State() == Step(c, Import(imported));
      ok := true;
    }

    function RecencyHighWater(pool: u8): (mark: u64)
      reads this
      requires Valid()
      ensures mark == HighWater(State().recency, pool)
    {
      if pool < POOL_COUNT then nextRecency[pool] - 1 else 0
    }

    function StableHighWater(pool: u8): (mark: u64)
      reads this
      requires Valid()
      ensures mark == HighWater(State().stable, pool)
    {
      if pool < POOL_COUNT then nextStable[pool] - 1 else 0
    }

    function LineageHighWater(pool: u8): (mark: u64)
      reads this
      requires Valid()
      ensures mark == HighWater(State().lineage, pool)
    {
      if pool < POOL_COUNT then nextLineage[pool] - 1 else 0
    }
  }
}
