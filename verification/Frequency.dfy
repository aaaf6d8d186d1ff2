/** Lazily decayed reuse frequency of a lineage, credited once per competition epoch. */
module Frequency {
  import opened Words
  import opened Records

  datatype Config = Config(creditQ: u64, maximumQ: u64, decayInterval: u64, promotionHits: u32)

  predicate ConfigValid(cfg: Config) {
    cfg.creditQ != 0 && cfg.maximumQ >= cfg.creditQ && cfg.decayInterval != 0 && cfg.promotionHits >= 2
  }

  datatype CreditResult = Credited | Coalesced | Unavailable

  // ---------- one step ----------

  /** The shift as the code guards it: C++ does not define a shift by 64 or more. */
  function ShiftRight(q: u64, shifts: nat): (r: u64)
    ensures r == q / Pow2(shifts)
  {
    if shifts >= 64 then
      ShiftedOut(q, shifts);
      0
    else
      QuotientBound(q, Pow2(shifts));
      q / Pow2(shifts)
  }

  lemma {:induction false} ShiftedOut(q: u64, shifts: nat)
    requires shifts >= 64
    ensures q / Pow2(shifts) == 0
  {
    Pow2Words();
    Pow2Mono(64, shifts);
    DivUnique(q, Pow2(shifts), 0, q);
  }

  lemma {:induction false} QuotientBound(q: nat, d: nat)
    requires d >= 1
    ensures 0 <= q / d <= q
  {
    DivMono(q, q, d, 1);
  }

  /** normalize reports success only for a valid, available record. */
  predicate Normalizable(l: Lineage, epoch: u64, cfg: Config) {
    ConfigValid(cfg) && LineageValid(l, epoch) && l.state != FREQUENCY_UNAVAILABLE
  }

  function WholeIntervals(from: u64, to: u64, interval: u64): (shifts: nat)
    requires from <= to && interval > 0
    ensures from + shifts * interval <= to < from + (shifts + 1) * interval
  {
    (to - from) / interval
  }

  /** The record after normalizing at `epoch`. */
  function Normalized(l: Lineage, epoch: u64, cfg: Config): Lineage {
    if !ConfigValid(cfg) || !LineageValid(l, epoch) then l
    else if l.state == FREQUENCY_UNAVAILABLE then l.(frequencyEpoch := epoch)
    else
      var shifts := WholeIntervals(l.frequencyEpoch, epoch, cfg.decayInterval);
      l.(frequencyQ := ShiftRight(l.frequencyQ, shifts),
         frequencyEpoch := l.frequencyEpoch + shifts * cfg.decayInterval)
  }

  /** The test comes first, so the addition cannot wrap around, even if creditQ exceeds maximumQ. */
  function SaturatingCredit(q: u64, cfg: Config): u64 {
    var step := if cfg.creditQ < cfg.maximumQ then cfg.creditQ else cfg.maximumQ;
    if q > cfg.maximumQ - step then cfg.maximumQ else q + cfg.creditQ
  }

  /** The record after crediting at `epoch`, and what credit reports. */
  function CreditedRecord(l: Lineage, epoch: u64, cfg: Config): (Lineage, CreditResult) {
    var n := Normalized(l, epoch, cfg);
    if !Normalizable(l, epoch, cfg) then (n, Unavailable)
    else if n.lastCreditEpoch == epoch then (n, Coalesced)
    else
      var hits: u64 := if n.reuseHits != U64_MAX then n.reuseHits + 1 else n.reuseHits;
      (n.(frequencyQ := SaturatingCredit(n.frequencyQ, cfg),
          reuseHits := hits,
          lastCreditEpoch := epoch,
          state := if hits >= cfg.promotionHits then FREQUENCY_PROMOTED else n.state), Credited)
  }

  /** A lineage record held by reference, as the sidecar updates it. */
  class LineageCell {
    var record: Lineage

    constructor (record: Lineage)
      ensures this.record == record
    {
      this.record := record;
    }

    method Normalize(epoch: u64, cfg: Config) returns (ok: bool)
      modifies this
      ensures record == Normalized(old(record), epoch, cfg)
      ensures ok <==> Normalizable(old(record), epoch, cfg)
    {
      if !ConfigValid(cfg) || !LineageValid(record, epoch) {
        return false;
      }
      if record.state == FREQUENCY_UNAVAILABLE {
        record := record.(frequencyEpoch := epoch);
        return false;
      }
      var elapsed := epoch - record.frequencyEpoch;
      var shifts := elapsed / cfg.decayInterval;
      ghost var _ := WholeIntervals(record.frequencyEpoch, epoch, cfg.decayInterval);
      record := record.(frequencyQ := ShiftRight(record.frequencyQ, shifts));
      record := record.(frequencyEpoch := record.frequencyEpoch + shifts * cfg.decayInterval);
      ok := true;
    }

    method Credit(epoch: u64, cfg: Config) returns (result: CreditResult)
      modifies this
      ensures (record, result) == CreditedRecord(old(record), epoch, cfg)
    {
      hide LineageValid;
      var ok := Normalize(epoch, cfg);
      if !ok || record.state == FREQUENCY_UNAVAILABLE {
        return Unavailable;
      }
      if record.lastCreditEpoch == epoch {
        return Coalesced;
      }
      record := record.(frequencyQ := SaturatingCredit(record.frequencyQ, cfg));
      if record.reuseHits != U64_MAX {
        record := record.(reuseHits := record.reuseHits + 1);
      }
      record := record.(lastCreditEpoch := epoch);
      if record.reuseHits >= cfg.promotionHits {
        record := record.(state := FREQUENCY_PROMOTED);
      }
      result := Credited;
    }
  }

  // ---------- lazy decay does not depend on when it is observed ----------

  lemma {:induction false} ValidityIsMonotone(l: Lineage, e: u64, f: u64)
    requires e <= f && LineageValid(l, e)
    ensures LineageValid(l, f)
  {
  }

  lemma {:induction false} NormalizedValid(l: Lineage, epoch: u64, cfg: Config)
    ensures LineageValid(Normalized(l, epoch, cfg), epoch) <==> LineageValid(l, epoch)
    ensures Normalizable(Normalized(l, epoch, cfg), epoch, cfg) <==> Normalizable(l, epoch, cfg)
  {
    if Normalizable(l, epoch, cfg) {
      ghost var shifts := WholeIntervals(l.frequencyEpoch, epoch, cfg.decayInterval);
      assert shifts * cfg.decayInterval >= 0;
    }
  }

  lemma {:induction false} IntervalsAdd(from: u64, mid: u64, to: u64, interval: u64)
    requires from <= mid <= to && interval > 0
    ensures var s := WholeIntervals(from, mid, interval);
            from + s * interval < TWO64 &&
            WholeIntervals(from, to, interval) == s + WholeIntervals(from + s * interval, to, interval)
  {
    var s := WholeIntervals(from, mid, interval);
    var t := WholeIntervals(from + s * interval, to, interval);
    assert from + s * interval + t * interval == from + (s + t) * interval;
    DivUnique(to - from, interval, s + t, to - (from + (s + t) * interval));
  }

  /** Normalizing early and then at a later epoch is normalizing once at the later epoch. */
  lemma {:induction false} NormalizeTwice(l: Lineage, e: u64, f: u64, cfg: Config)
    requires e <= f
    ensures Normalized(Normalized(l, e, cfg), f, cfg) == Normalized(l, f, cfg)
  {
    hide LineageValid, WholeIntervals, ShiftRight;
    if ConfigValid(cfg) && LineageValid(l, e) {
      ValidityIsMonotone(l, e, f);
      NormalizedValid(l, e, cfg);
      ValidityIsMonotone(Normalized(l, e, cfg), e, f);
      ValidEpochs(l, e);
      if l.state != FREQUENCY_UNAVAILABLE {
        DecayTwice(l.frequencyQ, l.frequencyEpoch, e, f, cfg.decayInterval);
      }
    }
  }

  lemma {:induction false} ValidEpochs(l: Lineage, e: u64)
    requires LineageValid(l, e)
    ensures l.frequencyEpoch <= e
  {
  }

  lemma {:induction false} DecayTwice(q: u64, from: u64, e: u64, f: u64, interval: u64)
    requires from <= e <= f && interval > 0
    ensures var s := WholeIntervals(from, e, interval);
            && from + s * interval < TWO64
            && var t := WholeIntervals(from + s * interval, f, interval);
               var u := WholeIntervals(from, f, interval);
               && ShiftRight(ShiftRight(q, s), t) == ShiftRight(q, u)
               && from + s * interval + t * interval == from + u * interval
  {
    hide WholeIntervals;
    var s := WholeIntervals(from, e, interval);
    IntervalsAdd(from, e, f, interval);
    var t := WholeIntervals(from + s * interval, f, interval);
    ShiftShift(q, s, t);
    assert s * interval + t * interval == (s + t) * interval;
  }

  predicate NonDecreasing(epochs: seq<u64>) {
    forall i :: 0 < i < |epochs| ==> epochs[i - 1] <= epochs[i]
  }

  function NormalizeAll(l: Lineage, epochs: seq<u64>, cfg: Config): Lineage
    decreases |epochs|
  {
    if epochs == [] then l else NormalizeAll(Normalized(l, epochs[0], cfg), epochs[1..], cfg)
  }

  /** Any chain of observations ending at the same epoch gives the same record. */
  lemma {:induction false} DecayIsPathIndependent(l: Lineage, epochs: seq<u64>, cfg: Config)
    requires epochs != [] && NonDecreasing(epochs)
    ensures NormalizeAll(l, epochs, cfg) == Normalized(l, epochs[|epochs| - 1], cfg)
    decreases |epochs|
  {
    hide Normalized;
    var rest := epochs[1..];
    if rest != [] {
      forall i | 0 < i < |rest| ensures rest[i - 1] <= rest[i] {
        assert rest[i - 1] == epochs[i] && rest[i] == epochs[i + 1];
      }
      DecayIsPathIndependent(Normalized(l, epochs[0], cfg), rest, cfg);
      FirstIsLeast(epochs, |epochs| - 1);
      NormalizeTwice(l, epochs[0], epochs[|epochs| - 1], cfg);
    }
  }

  lemma {:induction false} FirstIsLeast(epochs: seq<u64>, i: nat)
    requires NonDecreasing(epochs) && i < |epochs|
    ensures epochs[0] <= epochs[i]
  {
    if i > 0 { FirstIsLeast(epochs, i - 1); }
  }

  // ---------- runs ----------

  datatype Op = Observe(epoch: u64) | Credit(epoch: u64)

  predicate InOrder(from: u64, ops: seq<Op>) {
    forall i :: 0 <= i < |ops| ==> from <= ops[i].epoch && (i > 0 ==> ops[i - 1].epoch <= ops[i].epoch)
  }

  lemma {:induction false} InOrderTail(from: u64, ops: seq<Op>)
    requires ops != [] && InOrder(from, ops)
    ensures InOrder(ops[0].epoch, ops[1..])
  {
    var rest := ops[1..];
    forall i | 0 <= i < |rest| ensures ops[0].epoch <= rest[i].epoch && (i > 0 ==> rest[i - 1].epoch <= rest[i].epoch) {
      assert rest[i] == ops[i + 1];
      OpAfterFirst(ops, i + 1, from);
    }
  }

  lemma {:induction false} OpAfterFirst(ops: seq<Op>, i: nat, from: u64)
    requires InOrder(from, ops) && i < |ops|
    ensures ops[0].epoch <= ops[i].epoch
  {
    if i > 0 { OpAfterFirst(ops, i - 1, from); }
  }

  function Apply(l: Lineage, op: Op, cfg: Config): Lineage {
    match op
    case Observe(e) => Normalized(l, e, cfg)
    case Credit(e) => CreditedRecord(l, e, cfg).0
  }

  function RunOps(l: Lineage, ops: seq<Op>, cfg: Config): Lineage
    decreases |ops|
  {
    if ops == [] then l else RunOps(Apply(l, ops[0], cfg), ops[1..], cfg)
  }

  function Results(l: Lineage, ops: seq<Op>, cfg: Config): seq<CreditResult>
    decreases |ops|
  {
    if ops == [] then [] else
      (if ops[0].Credit? then [CreditedRecord(l, ops[0].epoch, cfg).1] else []) +
      Results(Apply(l, ops[0], cfg), ops[1..], cfg)
  }

  function CreditsOnly(ops: seq<Op>): seq<Op> {
    if ops == [] then [] else (if ops[0].Credit? then [ops[0]] else []) + CreditsOnly(ops[1..])
  }

  /** No later query can tell the two records apart. */
  ghost predicate Indistinguishable(a: Lineage, b: Lineage, from: u64, cfg: Config) {
    forall e: u64 :: from <= e ==> Normalized(a, e, cfg) == Normalized(b, e, cfg)
  }

  lemma {:induction false} CreditSeesNormalized(a: Lineage, b: Lineage, e: u64, cfg: Config)
    requires Normalized(a, e, cfg) == Normalized(b, e, cfg)
    ensures CreditedRecord(a, e, cfg) == CreditedRecord(b, e, cfg)
  {
    hide Normalized, Normalizable;
    NormalizedValid(a, e, cfg);
    NormalizedValid(b, e, cfg);
  }

  /** Removing every observation from a run changes no credit and no later query. */
  lemma {:induction false} ObservationsAreInert(a: Lineage, b: Lineage, from: u64, ops: seq<Op>, cfg: Config)
    requires InOrder(from, ops) && Indistinguishable(a, b, from, cfg)
    ensures Results(a, ops, cfg) == Results(b, CreditsOnly(ops), cfg)
    ensures forall e: u64 :: from <= e && (forall i :: 0 <= i < |ops| ==> ops[i].epoch <= e) ==>
              Normalized(RunOps(a, ops, cfg), e, cfg) == Normalized(RunOps(b, CreditsOnly(ops), cfg), e, cfg)
    decreases |ops|
  {
    hide Normalized, CreditedRecord;
    if ops != [] {
      var e, rest := ops[0].epoch, ops[1..];
      InOrderTail(from, ops);
      var a' := Apply(a, ops[0], cfg);
      if ops[0].Observe? {
        forall f: u64 | e <= f ensures Normalized(a', f, cfg) == Normalized(b, f, cfg) {
          NormalizeTwice(a, e, f, cfg);
        }
        ObservationsAreInert(a', b, e, rest, cfg);
        assert CreditsOnly(ops) == CreditsOnly(rest);
      } else {
        CreditSeesNormalized(a, b, e, cfg);
        ObservationsAreInert(a', Apply(b, ops[0], cfg), e, rest, cfg);
        assert CreditsOnly(ops)[1..] == CreditsOnly(rest);
      }
      forall f: u64 | from <= f && (forall i :: 0 <= i < |ops| ==> ops[i].epoch <= f)
        ensures Normalized(RunOps(a, ops, cfg), f, cfg) == Normalized(RunOps(b, CreditsOnly(ops), cfg), f, cfg)
      {
        assert forall i :: 0 <= i < |rest| ==> rest[i] == ops[i + 1];
      }
    }
  }

  // ---------- what a run of credits adds up to ----------

  function CreditEpochs(ops: seq<Op>): set<u64> {
    set i | 0 <= i < |ops| && ops[i].Credit? :: ops[i].epoch
  }

  /**
   * The record at `epoch` after crediting exactly the epochs in `seen`. Since the
   * epochs are distinct and positive, `reuseHits` never reaches its saturation.
   */
  ghost predicate Tracks(l: Lineage, epoch: u64, seen: set<u64>, cfg: Config) {
    && LineageValid(l, epoch)
    && l.state != FREQUENCY_UNAVAILABLE
    && l.frequencyQ <= cfg.maximumQ
    && l.reuseHits == |seen|
    && l.reuseHits <= l.lastCreditEpoch
    && (forall e :: e in seen ==> 0 < e <= l.lastCreditEpoch)
    && (l.lastCreditEpoch != 0 ==> l.lastCreditEpoch in seen)
    && (l.state == FREQUENCY_PROMOTED <==> l.reuseHits >= cfg.promotionHits)
  }

  lemma {:induction false} ObservePreservesTracks(l: Lineage, epoch: u64, seen: set<u64>, cfg: Config, e: u64)
    requires ConfigValid(cfg) && Tracks(l, epoch, seen, cfg) && epoch <= e
    ensures Tracks(Normalized(l, e, cfg), e, seen, cfg)
  {
    ValidityIsMonotone(l, epoch, e);
    NormalizedValid(l, e, cfg);
    hide LineageValid;
    QuotientBound(l.frequencyQ, Pow2(WholeIntervals(l.frequencyEpoch, e, cfg.decayInterval)));
  }

  lemma {:induction false} CreditPreservesTracks(l: Lineage, epoch: u64, seen: set<u64>, cfg: Config, e: u64)
    requires ConfigValid(cfg) && Tracks(l, epoch, seen, cfg) && epoch <= e
    ensures Tracks(CreditedRecord(l, e, cfg).0, e, seen + {e}, cfg)
    ensures CreditedRecord(l, e, cfg).1 == if e in seen then Coalesced else Credited
  {
    ValidityIsMonotone(l, epoch, e);
    ObservePreservesTracks(l, epoch, seen, cfg, e);
    var n := Normalized(l, e, cfg);
    assert n.lastCreditEpoch == l.lastCreditEpoch <= e;
    hide Normalized;
    if e in seen {
      assert seen + {e} == seen;
    } else {
      assert |seen + {e}| == |seen| + 1;
    }
  }

  lemma {:induction false} RunTracks(l: Lineage, epoch: u64, seen: set<u64>, ops: seq<Op>, cfg: Config)
    requires ConfigValid(cfg) && Tracks(l, epoch, seen, cfg) && InOrder(epoch, ops)
    ensures Tracks(RunOps(l, ops, cfg), if ops == [] then epoch else ops[|ops| - 1].epoch, seen + CreditEpochs(ops), cfg)
    decreases |ops|
  {
    hide Tracks, Normalized, CreditedRecord;
    if ops == [] {
      assert seen + CreditEpochs(ops) == seen;
    } else {
      var e, rest := ops[0].epoch, ops[1..];
      InOrderTail(epoch, ops);
      var seen' := if ops[0].Credit? then seen + {e} else seen;
      if ops[0].Credit? {
        CreditPreservesTracks(l, epoch, seen, cfg, e);
      } else {
        ObservePreservesTracks(l, epoch, seen, cfg, e);
      }
      RunTracks(Apply(l, ops[0], cfg), e, seen', rest, cfg);
      assert seen' + CreditEpochs(rest) == seen + CreditEpochs(ops) by {
        forall x | x in CreditEpochs(ops) ensures x in seen' + CreditEpochs(rest) {
          var i :| 0 <= i < |ops| && ops[i].Credit? && ops[i].epoch == x;
          if i > 0 { assert rest[i - 1] == ops[i]; }
        }
        forall x | x in CreditEpochs(rest) ensures x in CreditEpochs(ops) {
          var i :| 0 <= i < |rest| && rest[i].Credit? && rest[i].epoch == x;
          assert ops[i + 1] == rest[i];
        }
        assert ops[0].Credit? ==> e in CreditEpochs(ops);
      }
    }
  }

  /** A record that has not been credited yet and is still on probation. */
  predicate Fresh(l: Lineage, epoch: u64, cfg: Config) {
    LineageValid(l, epoch) && l.state == FREQUENCY_PROBATION && l.reuseHits == 0 && l.frequencyQ <= cfg.maximumQ
  }

  /**
   * From a fresh record, after any run in epoch order: the record is valid, its
   * frequency is capped, its hits count the distinct credited epochs, and it is
   * promoted exactly when there are enough of them.
   */
  lemma {:induction false} RunOutcome(l: Lineage, epoch: u64, ops: seq<Op>, cfg: Config)
    requires ConfigValid(cfg) && Fresh(l, epoch, cfg) && InOrder(epoch, ops)
    ensures var r := RunOps(l, ops, cfg);
            && LineageValid(r, if ops == [] then epoch else ops[|ops| - 1].epoch)
            && r.frequencyQ <= cfg.maximumQ
            && r.reuseHits == |CreditEpochs(ops)|
            && (r.state == FREQUENCY_PROMOTED <==> |CreditEpochs(ops)| >= cfg.promotionHits)
            && (r.state == FREQUENCY_PROBATION <==> |CreditEpochs(ops)| < cfg.promotionHits)
  {
    RunTracks(l, epoch, {}, ops, cfg);
    assert {} + CreditEpochs(ops) == CreditEpochs(ops);
  }

  lemma {:induction false} CreditKeepsValidity(l: Lineage, epoch: u64, cfg: Config)
    requires Normalizable(l, epoch, cfg)
    ensures Normalizable(CreditedRecord(l, epoch, cfg).0, epoch, cfg)
  {
    NormalizedValid(l, epoch, cfg);
    hide Normalized;
  }

  lemma {:induction false} NothingLeftToDecay(q: u64, from: u64, epoch: u64, interval: u64)
    requires from <= epoch < from + interval
    ensures WholeIntervals(from, epoch, interval) == 0 && ShiftRight(q, 0) == q
  {
    DivUnique(epoch - from, interval, 0, epoch - from);
  }

  /** A second credit in the same epoch is coalesced and changes nothing, for any creditable record. */
  lemma {:induction false} RepeatCreditChangesNothing(l: Lineage, epoch: u64, cfg: Config)
    requires Normalizable(l, epoch, cfg)
    ensures CreditedRecord(CreditedRecord(l, epoch, cfg).0, epoch, cfg) == (CreditedRecord(l, epoch, cfg).0, Coalesced)
  {
    ValidEpochs(l, epoch);
    CreditKeepsValidity(l, epoch, cfg);
    hide LineageValid, WholeIntervals, ShiftRight, SaturatingCredit;
    var r := CreditedRecord(l, epoch, cfg).0;
    var shifts := WholeIntervals(l.frequencyEpoch, epoch, cfg.decayInterval);
    assert (shifts + 1) * cfg.decayInterval == shifts * cfg.decayInterval + cfg.decayInterval;
    assert r.frequencyEpoch == l.frequencyEpoch + shifts * cfg.decayInterval;
    NothingLeftToDecay(r.frequencyQ, r.frequencyEpoch, epoch, cfg.decayInterval);
  }

  // ---------- in plain arithmetic ----------

  /** Halved once for each whole interval, and the cursor left on the last boundary; nothing else changes. */
  lemma {:induction false} NormalizedIs(l: Lineage, epoch: u64, cfg: Config)
    requires Normalizable(l, epoch, cfg)
    ensures var r, d := Normalized(l, epoch, cfg), cfg.decayInterval;
            && l.frequencyEpoch <= epoch && d > 0
            && r == l.(frequencyQ := r.frequencyQ, frequencyEpoch := r.frequencyEpoch)
            && r.frequencyQ == l.frequencyQ / Pow2((epoch - l.frequencyEpoch) / d)
            && r.frequencyEpoch == epoch - (epoch - l.frequencyEpoch) % d
  {
  }

  /** A record that is not available only has its cursor moved, and an invalid one is left alone. */
  lemma {:induction false} NotNormalized(l: Lineage, epoch: u64, cfg: Config)
    requires !Normalizable(l, epoch, cfg)
    ensures Normalized(l, epoch, cfg) ==
            if ConfigValid(cfg) && LineageValid(l, epoch) then l.(frequencyEpoch := epoch) else l
  {
    hide LineageValid;
  }

  function Smaller(a: int, b: int): int { if a < b then a else b }

  /** The first credit of an epoch adds creditQ to the decayed frequency, up to the maximum, and one hit. */
  lemma {:induction false} CreditAdds(l: Lineage, epoch: u64, cfg: Config)
    requires Normalizable(l, epoch, cfg) && l.lastCreditEpoch != epoch
    ensures l.frequencyEpoch <= epoch && cfg.decayInterval > 0
    ensures var (r, result) := CreditedRecord(l, epoch, cfg);
            && result == Credited
            && r.frequencyQ == Smaller(cfg.maximumQ, l.frequencyQ / Pow2((epoch - l.frequencyEpoch) / cfg.decayInterval) + cfg.creditQ)
            && r.reuseHits == Smaller(U64_MAX, l.reuseHits as int + 1)
            && r.lastCreditEpoch == epoch
            && r.frequencyEpoch == epoch - (epoch - l.frequencyEpoch) % cfg.decayInterval
            && r.state == (if r.reuseHits >= cfg.promotionHits then FREQUENCY_PROMOTED else l.state)
            && r.pool == l.pool && r.lineageId == l.lineageId && r.admissionEpoch == l.admissionEpoch && r.priorMilli == l.priorMilli
  {
    NormalizedIs(l, epoch, cfg);
    hide LineageValid, Normalized, Pow2;
  }

  /** A later credit of the same epoch leaves the normalized record, and no credit reaches one that is not available. */
  lemma {:induction false} NothingCredited(l: Lineage, epoch: u64, cfg: Config)
    ensures Normalizable(l, epoch, cfg) && l.lastCreditEpoch == epoch ==>
              CreditedRecord(l, epoch, cfg) == (Normalized(l, epoch, cfg), Coalesced)
    ensures !Normalizable(l, epoch, cfg) ==> CreditedRecord(l, epoch, cfg) == (Normalized(l, epoch, cfg), Unavailable)
  {
    hide LineageValid, ConfigValid;
  }

  /** Credited epochs later than `last`. */
  function NewEpochs(ops: seq<Op>, last: u64): set<u64> { set e | e in CreditEpochs(ops) && e > last }

  lemma {:induction false} NewEpochsCons(ops: seq<Op>, last: u64)
    requires ops != [] && InOrder(last, ops)
    ensures var e, rest := ops[0].epoch, ops[1..];
            if ops[0].Credit? && e > last then NewEpochs(ops, last) == {e} + NewEpochs(rest, e) && e !in NewEpochs(rest, e)
            else NewEpochs(ops, last) == NewEpochs(rest, last)
  {
    var e, rest := ops[0].epoch, ops[1..];
    forall x ensures x in CreditEpochs(ops) <==> (ops[0].Credit? && x == e) || x in CreditEpochs(rest) {
      if x in CreditEpochs(ops) {
        var i :| 0 <= i < |ops| && ops[i].Credit? && ops[i].epoch == x;
        if i > 0 { assert rest[i - 1] == ops[i]; }
      }
      if x in CreditEpochs(rest) {
        var i :| 0 <= i < |rest| && rest[i].Credit? && rest[i].epoch == x;
        assert ops[i + 1] == rest[i];
      }
      if ops[0].Credit? && x == e { assert ops[0].epoch == x; }
    }
    forall x | x in CreditEpochs(rest) ensures x >= e {
      var i :| 0 <= i < |rest| && rest[i].Credit? && rest[i].epoch == x;
      OpAfterFirst(ops, i + 1, last);
    }
  }

  /** While no whole interval passes, each newly credited epoch adds creditQ, up to the maximum. */
  lemma {:induction false} RunAdds(l: Lineage, from: u64, ops: seq<Op>, cfg: Config)
    requires Normalizable(l, from, cfg) && InOrder(from, ops) && l.frequencyQ <= cfg.maximumQ
    requires forall i :: 0 <= i < |ops| ==> ops[i].epoch < l.frequencyEpoch + cfg.decayInterval
    ensures RunOps(l, ops, cfg).frequencyQ ==
            Smaller(cfg.maximumQ, l.frequencyQ + |NewEpochs(ops, l.lastCreditEpoch)| * cfg.creditQ)
    decreases |ops|
  {
    LastCreditBefore(l, from, cfg);
    if ops == [] {
      assert NewEpochs(ops, l.lastCreditEpoch) == {};
    } else {
      var e, rest := ops[0].epoch, ops[1..];
      assert ops[0].epoch < l.frequencyEpoch + cfg.decayInterval;
      LastFromCredit(l.lastCreditEpoch, from, ops);
      NewEpochsCount(ops, l.lastCreditEpoch);
      InOrderTail(from, ops);
      StillInside(l, from, ops[0], cfg);
      hide Normalizable, CreditedRecord, Normalized, CreditEpochs, NewEpochs, InOrder, Apply, Smaller;
      var r := Apply(l, ops[0], cfg);
      forall i | 0 <= i < |rest| ensures rest[i].epoch < r.frequencyEpoch + cfg.decayInterval { assert rest[i] == ops[i + 1]; }
      RunAdds(r, e, rest, cfg);
      if ops[0].Credit? && e > l.lastCreditEpoch {
        CapTwice(cfg.maximumQ, l.frequencyQ, cfg.creditQ, |NewEpochs(rest, e)|);
      }
    }
  }

  lemma {:induction false} CapTwice(cap: nat, q: nat, credit: nat, k: nat)
    ensures Smaller(cap, Smaller(cap, q + credit) + k * credit) == Smaller(cap, q + (1 + k) * credit)
  {
    assert (1 + k) * credit == credit + k * credit;
    MulMono(0, k, credit);
  }

  lemma {:induction false} NewEpochsCount(ops: seq<Op>, last: u64)
    requires ops != [] && InOrder(last, ops)
    ensures var e, rest := ops[0].epoch, ops[1..];
            if ops[0].Credit? && e > last then |NewEpochs(ops, last)| == 1 + |NewEpochs(rest, e)|
            else |NewEpochs(ops, last)| == |NewEpochs(rest, last)|
  {
    NewEpochsCons(ops, last);
    hide NewEpochs, InOrder;
  }

  lemma {:induction false} LastCreditBefore(l: Lineage, from: u64, cfg: Config)
    requires Normalizable(l, from, cfg)
    ensures l.lastCreditEpoch <= from && l.frequencyEpoch <= from && cfg.decayInterval > 0
  {
  }

  lemma {:induction false} LastFromCredit(last: u64, from: u64, ops: seq<Op>)
    requires last <= from && InOrder(from, ops)
    ensures InOrder(last, ops)
  {
  }

  /** One operation before the next boundary. */
  lemma {:induction false} StillInside(l: Lineage, from: u64, op: Op, cfg: Config)
    requires Normalizable(l, from, cfg) && from <= op.epoch < l.frequencyEpoch + cfg.decayInterval && l.frequencyQ <= cfg.maximumQ
    ensures var r := Apply(l, op, cfg);
            && Normalizable(r, op.epoch, cfg) && r.frequencyEpoch == l.frequencyEpoch && r.frequencyQ <= cfg.maximumQ
            && (if op.Credit? && op.epoch > l.lastCreditEpoch
                then r.frequencyQ == Smaller(cfg.maximumQ, l.frequencyQ + cfg.creditQ) && r.lastCreditEpoch == op.epoch
                else r.frequencyQ == l.frequencyQ && r.lastCreditEpoch == l.lastCreditEpoch)
  {
    ValidityIsMonotone(l, from, op.epoch);
    NormalizedValid(l, op.epoch, cfg);
    CreditKeepsValidity(l, op.epoch, cfg);
    NormalizedIs(l, op.epoch, cfg);
    LastCreditBefore(l, from, cfg);
    DivUnique(op.epoch - l.frequencyEpoch, cfg.decayInterval, 0, op.epoch - l.frequencyEpoch);
    assert l.frequencyQ / Pow2(0) == l.frequencyQ;
    if op.Credit? {
      if op.epoch > l.lastCreditEpoch { CreditAdds(l, op.epoch, cfg); } else { NothingCredited(l, op.epoch, cfg); }
    }
    hide LineageValid, Normalized, CreditedRecord, Pow2;
  }
}
