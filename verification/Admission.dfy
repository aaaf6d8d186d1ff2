/** What an allocator hands out, seen by the records that carry it: validity, frequency and quotes from admission on. */
module Admission {
  import opened Words
  import opened Records
  import opened Allocator
  import Frequency
  import Shadow

  // ---------- an admitted lineage ----------

  /** It is on probation, was never credited, and has the prior of 1000 thousandths. */
  lemma {:induction false} AdmittedIs(c: Counters, pool: u8, epoch: u64)
    requires CanIssueLineage(c, pool, epoch)
    ensures var l := AdmittedLineage(pool, c.lineage[pool], epoch);
            && Granted(c, IssueLineage(pool, epoch)) == [LineageGrant(l.pool, l.lineageId)]
            && l.pool == pool && l.state == FREQUENCY_PROBATION
            && l.reuseHits == l.frequencyQ == l.lastCreditEpoch == 0
            && l.admissionEpoch == l.frequencyEpoch == epoch && l.priorMilli == 1000
            && forall cfg :: Frequency.Fresh(l, epoch, cfg)
  {
  }

  /** At admission its signal is the prior alone, one unit of frequency. */
  lemma {:induction false} AdmissionQuote(c: Counters, pool: u8, epoch: u64, work: u64, marginal: u64, recency: u64, cfg: Frequency.Config)
    requires CanIssueLineage(c, pool, epoch) && Frequency.ConfigValid(cfg)
    ensures var l := AdmittedLineage(pool, c.lineage[pool], epoch);
            var q := Shadow.Quote(l, epoch, work, marginal, recency, cfg);
            && (q.Some? <==> marginal != 0 && recency != 0 && 0x10_0000 * work < TWO64)
            && (q.Some? ==> q.value.lostValueQ == 0x10_0000 * work && q.value.lineageId == c.lineage[pool])
  {
    AdmittedLineageValid(c, pool, epoch);
    var l := AdmittedLineage(pool, c.lineage[pool], epoch);
    hide LineageValid, Shadow.Quote, Shadow.Signal, Pow2;
    Shadow.QuoteExact(l, epoch, work, marginal, recency, cfg);
    Shadow.SignalIs(l, epoch, cfg.decayInterval, 0x10_0000);
    NoAge(0x10_0000, cfg.decayInterval);
    NoAge(0, cfg.decayInterval);
    if Shadow.Quote(l, epoch, work, marginal, recency, cfg).Some? {
      Shadow.QuoteFields(l, epoch, work, marginal, recency, cfg);
    }
  }

  lemma {:induction false} NoAge(q: nat, d: u64)
    requires d > 0
    ensures q / Pow2((0 as int) / d) == q
  {
    DivUnique(0, d, 0, 0);
    assert Pow2(0) == 1;
  }

  /**
   * From admission, while no decay interval has passed, the frequency is creditQ for
   * each epoch credited, up to the maximum.
   */
  lemma {:induction false} AdmittedEarns(c: Counters, pool: u8, epoch: u64, ops: seq<Frequency.Op>, cfg: Frequency.Config)
    requires CanIssueLineage(c, pool, epoch) && Frequency.ConfigValid(cfg) && Frequency.InOrder(epoch, ops)
    requires forall i :: 0 <= i < |ops| ==> ops[i].epoch < epoch + cfg.decayInterval
    ensures var r := Frequency.RunOps(AdmittedLineage(pool, c.lineage[pool], epoch), ops, cfg);
            && r.frequencyQ == Frequency.Smaller(cfg.maximumQ, |Frequency.CreditEpochs(ops)| * cfg.creditQ)
            && r.reuseHits == |Frequency.CreditEpochs(ops)|
  {
    AdmittedIs(c, pool, epoch);
    var l := AdmittedLineage(pool, c.lineage[pool], epoch);
    Frequency.RunOutcome(l, epoch, ops, cfg);
    Frequency.RunAdds(l, epoch, ops, cfg);
    assert Frequency.NewEpochs(ops, 0) == Frequency.CreditEpochs(ops) by {
      forall i | 0 <= i < |ops| ensures ops[i].epoch > 0 { Frequency.OpAfterFirst(ops, i, epoch); }
    }
  }

  // ---------- what is issued is valid ----------

  /** Ids are issued exactly when the stamp that carries them is valid. */
  lemma {:induction false} IssuedIffValid(c: Counters, pool: u8, stamp: Stamp)
    requires StampValid(stamp)
    ensures CanIssue(c, pool) <==>
            pool < POOL_COUNT && StampValid(stamp.(pool := pool, recencyOrdinal := c.recency[pool], stableId := c.stable[pool]))
  {
  }

  /** A lineage is issued exactly when the record that is admitted is valid. */
  lemma {:induction false} AdmittedIffValid(c: Counters, pool: u8, epoch: u64)
    ensures CanIssueLineage(c, pool, epoch) <==>
            pool < POOL_COUNT && LineageValid(AdmittedLineage(pool, c.lineage[pool], epoch), epoch)
  {
  }

  predicate Exhausted(next: int) { next > MAX_POOL_COUNTER }

  /** A valid snapshot is refused exactly when the ids after its marks would be exhausted somewhere. */
  lemma {:induction false} ImportedIffIdsLeft(s: Snapshot)
    ensures CanImport(s) <==>
            SnapshotValid(s) &&
            forall p: u8 :: p < POOL_COUNT ==>
              !Exhausted(s.recencyHighWater[p] + 1) && !Exhausted(s.stableHighWater[p] + 1) && !Exhausted(s.lineageHighWater[p] + 1)
  {
    hide SnapshotValid;
    if CanImport(s) { ImportBounds(s); }
  }

  /** So after a first import every pool can still issue, one above each mark. */
  lemma {:induction false} ImportLeavesIds(s: Snapshot, pool: u8, epoch: u64)
    requires CanImport(s) && pool < POOL_COUNT && epoch != 0
    ensures var c := Step(INITIAL, Import(s));
            && Granted(c, Issue(pool)) == [StampGrant(pool, s.recencyHighWater[pool] + 1, s.stableHighWater[pool] + 1)]
            && Granted(c, IssueLineage(pool, epoch)) == [LineageGrant(pool, s.lineageHighWater[pool] + 1)]
  {
    hide SnapshotValid;
    assert pool == 0 || pool == 1;
  }

  // ---------- the marks are reached ----------

  datatype Kind = Recency | Stable | LineageKind

  function Counter(c: Counters, kind: Kind): PerPool {
    match kind
    case Recency => c.recency
    case Stable => c.stable
    case LineageKind => c.lineage
  }

  function Mark(s: Snapshot, kind: Kind): PerPool {
    match kind
    case Recency => s.recencyHighWater
    case Stable => s.stableHighWater
    case LineageKind => s.lineageHighWater
  }

  /** The id is granted here, or is the mark of a snapshot imported here. */
  predicate Reaches(c: Counters, e: Event, kind: Kind, pool: u8, id: int)
    requires pool < POOL_COUNT
  {
    match e
    case Issue(p) =>
      CanIssue(c, p) && p == pool && ((kind.Recency? && c.recency[pool] == id) || (kind.Stable? && c.stable[pool] == id))
    case IssueLineage(p, epoch) => CanIssueLineage(c, p, epoch) && p == pool && kind.LineageKind? && c.lineage[pool] == id
    case Import(s) => CanImport(s) && Mark(s, kind)[pool] == id
  }

  predicate ReachedBy(c: Counters, events: seq<Event>, kind: Kind, pool: u8, id: int)
    requires pool < POOL_COUNT
    decreases |events|
  {
    events != [] && (Reaches(c, events[0], kind, pool, id) || ReachedBy(Step(c, events[0]), events[1..], kind, pool, id))
  }

  lemma {:induction false} StepReaches(c: Counters, e: Event, kind: Kind, pool: u8)
    requires pool < POOL_COUNT
    ensures var mark := HighWater(Counter(Step(c, e), kind), pool);
            mark == HighWater(Counter(c, kind), pool) || Reaches(c, e, kind, pool, mark)
  {
    hide SnapshotValid;
    assert pool == 0 || pool == 1;
  }

  /** A high-water mark is one that was there before the run, or an id granted or a mark imported on the way. */
  lemma {:induction false} MarkIsReached(c: Counters, events: seq<Event>, kind: Kind, pool: u8)
    requires pool < POOL_COUNT
    ensures var mark := HighWater(Counter(Run(c, events), kind), pool);
            mark == HighWater(Counter(c, kind), pool) || ReachedBy(c, events, kind, pool, mark)
    decreases |events|
  {
    hide Step, Reaches;
    if events != [] {
      StepReaches(c, events[0], kind, pool);
      MarkIsReached(Step(c, events[0]), events[1..], kind, pool);
    }
  }
}
