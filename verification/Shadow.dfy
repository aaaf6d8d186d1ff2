/** Quoting the value lost by evicting a lineage, and ordering quotes by exact density. */
module Shadow {
  import opened Words
  import opened Records
  import opened Frequency

  // ---------- 64 x 64 -> 128 bit product ----------

  datatype Product128 = Product128(hi: u64, lo: u64)

  /** Schoolbook product on 32-bit halves; every `%` is a wrap-around of C++ unsigned arithmetic. */
  function MultiplyU64(a: u64, b: u64): Product128 {
    var (a0, a1) := (a % TWO32, a / TWO32);
    var (b0, b1) := (b % TWO32, b / TWO32);
    var p0 := (a0 * b0) % TWO64;
    var p1 := (a0 * b1) % TWO64;
    var p2 := (a1 * b0) % TWO64;
    var p3 := (a1 * b1) % TWO64;
    var middle := ((p0 / TWO32) + p1 % TWO32 + p2 % TWO32) % TWO64;
    var hi := (p3 + p1 / TWO32 + p2 / TWO32 + middle / TWO32) % TWO64;
    var lo := BitOr((middle * TWO32) % TWO64, p0 % TWO32);
    JoinHalves(middle, p0);
    Product128(hi, lo)
  }

  lemma {:induction false} JoinHalves(middle: nat, p0: nat)
    ensures BitOr((middle * TWO32) % TWO64, p0 % TWO32) == (middle % TWO32) * TWO32 + p0 % TWO32
    ensures (middle % TWO32) * TWO32 + p0 % TWO32 < TWO64
  {
    hide BitOr, Pow2;
    Pow2Words();
    var q, r := middle / TWO32, middle % TWO32;
    DivUnique(middle * TWO32, TWO64, q, r * TWO32);
    BitOrDisjoint(r, p0 % TWO32, 32);
  }

  lemma {:induction false} HalvesProduct(a0: nat, a1: nat, b0: nat, b1: nat, w: nat)
    ensures (a1 * w + a0) * (b1 * w + b0) == a1 * b1 * (w * w) + (a0 * b1 + a1 * b0) * w + a0 * b0
  {
    var x, y := a1 * w, b1 * w;
    assert (x + a0) * (y + b0) == x * y + x * b0 + a0 * y + a0 * b0;
    assert x * y == a1 * b1 * (w * w);
    assert x * b0 == a1 * b0 * w && a0 * y == a0 * b1 * w;
  }

  lemma {:induction false} ProductBound(x: nat, y: nat, m: nat, n: nat)
    requires x < m && y < n
    ensures x * y <= (m - 1) * (n - 1)
  {
    MulMono(x, m - 1, y);
    MulMono(y, n - 1, m - 1);
  }

  /** No carry is lost: the two words are exactly the product. */
  lemma {:induction false} ProductExact(a: u64, b: u64)
    ensures MultiplyU64(a, b).hi * TWO64 + MultiplyU64(a, b).lo == a * b
  {
    var (a0, a1) := (a % TWO32, a / TWO32);
    var (b0, b1) := (b % TWO32, b / TWO32);
    var (p0, p1, p2, p3) := (a0 * b0, a0 * b1, a1 * b0, a1 * b1);
    ProductBound(a0, b0, TWO32, TWO32);
    ProductBound(a0, b1, TWO32, TWO32);
    ProductBound(a1, b0, TWO32, TWO32);
    ProductBound(a1, b1, TWO32, TWO32);
    ProductBound(a, b, TWO64, TWO64);
    Small(p0, TWO64);
    Small(p1, TWO64);
    Small(p2, TWO64);
    Small(p3, TWO64);
    SumOfProducts(a, b, p0, p1, p2, p3);
    Recombine(p0, p1, p2, p3, a * b);
  }

  lemma {:induction false} SumOfProducts(a: u64, b: u64, p0: nat, p1: nat, p2: nat, p3: nat)
    requires p0 == (a % TWO32) * (b % TWO32) && p1 == (a % TWO32) * (b / TWO32)
    requires p2 == (a / TWO32) * (b % TWO32) && p3 == (a / TWO32) * (b / TWO32)
    ensures a * b == p3 * (TWO32 * TWO32) + (p1 + p2) * TWO32 + p0
  {
    HalvesProduct(a % TWO32, a / TWO32, b % TWO32, b / TWO32, TWO32);
  }

  /** Adding the halves with their carries, where x + y * 2^32 stands for a 64-bit word. */
  lemma {:induction false} AddHalves(x0: nat, y0: nat, x1: nat, y1: nat, x2: nat, y2: nat, p3: nat, m0: nat, m1: nat)
    requires y0 + x1 + x2 == m1 * TWO32 + m0
    ensures (p3 + y1 + y2 + m1) * TWO64 + (m0 * TWO32 + x0) ==
            p3 * (TWO32 * TWO32) + ((y1 * TWO32 + x1) + (y2 * TWO32 + x2)) * TWO32 + (y0 * TWO32 + x0)
  {
  }

  lemma {:induction false} Recombine(p0: nat, p1: nat, p2: nat, p3: nat, product: nat)
    requires p0 < TWO64 && p1 < TWO64 && p2 < TWO64 && p3 < TWO64
    requires product == p3 * (TWO32 * TWO32) + (p1 + p2) * TWO32 + p0
    requires product < TWO64 * TWO64
    ensures var middle := ((p0 / TWO32) + p1 % TWO32 + p2 % TWO32) % TWO64;
            var hi := (p3 + p1 / TWO32 + p2 / TWO32 + middle / TWO32) % TWO64;
            var lo := BitOr((middle * TWO32) % TWO64, p0 % TWO32);
            hi * TWO64 + lo == product
  {
    hide BitOr;
    var (x0, y0) := (p0 % TWO32, p0 / TWO32);
    var (x1, y1) := (p1 % TWO32, p1 / TWO32);
    var (x2, y2) := (p2 % TWO32, p2 / TWO32);
    var middle := y0 + x1 + x2;
    assert middle < TWO64;
    Small(middle, TWO64);
    var (m0, m1) := (middle % TWO32, middle / TWO32);
    JoinHalves(middle, p0);
    AddHalves(x0, y0, x1, y1, x2, y2, p3, m0, m1);
    var hi, lo := p3 + y1 + y2 + m1, m0 * TWO32 + x0;
    assert hi * TWO64 + lo == product;
    Small(hi, TWO64);
  }

  lemma {:induction false} Small(x: nat, m: nat)
    requires x < m
    ensures x % m == x
  {
    DivUnique(x, m, 0, x);
  }

  function CompareProduct(a: Product128, b: Product128): int {
    if a.hi != b.hi then (if a.hi < b.hi then -1 else 1)
    else if a.lo != b.lo then (if a.lo < b.lo then -1 else 1)
    else 0
  }

  /** The comparison of 128-bit products is the comparison of the products. */
  lemma {:induction false} CompareProductExact(a: u64, b: u64, c: u64, d: u64)
    ensures CompareProduct(MultiplyU64(a, b), MultiplyU64(c, d)) ==
            if a * b < c * d then -1 else if a * b == c * d then 0 else 1
  {
    hide MultiplyU64;
    ProductExact(a, b);
    ProductExact(c, d);
  }

  // ---------- quotes ----------

  const SHADOW_KNOWN: u8 := 0

  datatype ShadowValue = ShadowValue(
    state: u8,
    frequencyState: u8,
    lineageId: u64,
    normalizedFrequencyQ: u64,
    lostValueQ: u64,
    marginalResource: u64,
    recencyOrdinal: u64)

  function RawPrior(priorMilli: u32): (q: u64)
    requires priorMilli <= MAX_PRIOR_MILLI
    ensures q <= 4 * FREQUENCY_ONE
  {
    FREQUENCY_ONE * priorMilli / 1000
  }

  /** The test made before multiplying. */
  predicate ProductOverflows(signal: u64, work: u64) { work != 0 && signal > U64_MAX / work }

  function WrappingProduct(a: u64, b: u64): u64 { (a * b) % TWO64 }

  /** The quote, or None where the source leaves `out` at its defaults and returns false. */
  function Quote(l: Lineage, epoch: u64, work: u64, marginal: u64, recency: u64, cfg: Config): Option<ShadowValue> {
    if marginal == 0 || recency == 0 || !Normalizable(l, epoch, cfg) then None else
      var n := Normalized(l, epoch, cfg);
      var priorShifts := WholeIntervals(l.admissionEpoch, epoch, cfg.decayInterval);
      var priorQ := ShiftRight(RawPrior(l.priorMilli), priorShifts);
      if n.frequencyQ > U64_MAX - priorQ then None else
        var signalQ: u64 := n.frequencyQ + priorQ;
        if ProductOverflows(signalQ, work) then None else
          Some(ShadowValue(SHADOW_KNOWN, n.state, n.lineageId, n.frequencyQ, WrappingProduct(signalQ, work), marginal, recency))
  }

  function Halved(q: nat, times: nat): nat {
    QuotientBound(q, Pow2(times));
    q / Pow2(times)
  }

  /** Decayed frequency plus decayed prior, as an unbounded integer. */
  ghost function Signal(l: Lineage, epoch: u64, interval: u64): nat
    requires interval > 0 && l.frequencyEpoch <= epoch && l.admissionEpoch <= epoch
  {
    Halved(l.frequencyQ, WholeIntervals(l.frequencyEpoch, epoch, interval)) +
    Halved(FREQUENCY_ONE * l.priorMilli / 1000, WholeIntervals(l.admissionEpoch, epoch, interval))
  }

  /** The test is exact, and what passes it does not wrap around. */
  lemma {:induction false} OverflowTest(signal: u64, work: u64)
    ensures ProductOverflows(signal, work) <==> signal * work >= TWO64
    ensures !ProductOverflows(signal, work) ==> WrappingProduct(signal, work) == signal * work
  {
    if work != 0 {
      var q := U64_MAX / work;
      assert U64_MAX == q * work + U64_MAX % work;
      if signal > q {
        MulMono(q + 1, signal, work);
      } else {
        MulMono(signal, q, work);
        Small(signal * work, TWO64);
      }
    }
  }

  lemma {:induction false} SignalParts(l: Lineage, epoch: u64, cfg: Config)
    requires Normalizable(l, epoch, cfg)
    ensures l.frequencyEpoch <= epoch && l.admissionEpoch <= epoch && l.priorMilli <= MAX_PRIOR_MILLI
    ensures Signal(l, epoch, cfg.decayInterval) ==
            Normalized(l, epoch, cfg).frequencyQ +
            ShiftRight(RawPrior(l.priorMilli), WholeIntervals(l.admissionEpoch, epoch, cfg.decayInterval))
  {
    hide WholeIntervals;
  }

  /** A quote succeeds exactly when nothing overflows, and then its lost value is exact. */
  lemma {:induction false} QuoteExact(l: Lineage, epoch: u64, work: u64, marginal: u64, recency: u64, cfg: Config)
    ensures Quote(l, epoch, work, marginal, recency, cfg).Some? <==>
            && marginal != 0 && recency != 0 && Normalizable(l, epoch, cfg)
            && Signal(l, epoch, cfg.decayInterval) < TWO64
            && Signal(l, epoch, cfg.decayInterval) * work < TWO64
    ensures Quote(l, epoch, work, marginal, recency, cfg).Some? ==>
            Quote(l, epoch, work, marginal, recency, cfg).value.lostValueQ == Signal(l, epoch, cfg.decayInterval) * work
  {
    if Normalizable(l, epoch, cfg) {
      SignalParts(l, epoch, cfg);
      var signal := Signal(l, epoch, cfg.decayInterval);
      if signal < TWO64 { OverflowTest(signal, work); }
    }
    NormalizablePrior(l, epoch, cfg);
    hide WholeIntervals, Normalized, ShiftRight, RawPrior, Signal, Normalizable, ProductOverflows, WrappingProduct;
  }

  /** The signal in plain arithmetic: frequency and prior, each halved once for each whole interval of its own age. */
  lemma {:induction false} SignalIs(l: Lineage, epoch: u64, d: u64, rawPrior: nat)
    requires d > 0 && l.frequencyEpoch <= epoch && l.admissionEpoch <= epoch
    requires rawPrior == FREQUENCY_ONE * l.priorMilli / 1000
    ensures Signal(l, epoch, d) ==
            l.frequencyQ / Pow2((epoch - l.frequencyEpoch) / d) + rawPrior / Pow2((epoch - l.admissionEpoch) / d)
  {
    HalvedOver(l.frequencyQ, l.frequencyEpoch, epoch, d);
    HalvedOver(rawPrior, l.admissionEpoch, epoch, d);
    hide Pow2, Halved, WholeIntervals;
  }

  lemma {:induction false} HalvedOver(q: nat, from: u64, to: u64, d: u64)
    requires d > 0 && from <= to
    ensures Halved(q, WholeIntervals(from, to, d)) == q / Pow2((to - from) / d)
  {
    hide Pow2;
  }

  /** Where each field of a quote comes from. */
  lemma {:induction false} QuoteFields(l: Lineage, epoch: u64, work: u64, marginal: u64, recency: u64, cfg: Config)
    requires Quote(l, epoch, work, marginal, recency, cfg).Some?
    ensures l.frequencyEpoch <= epoch && l.admissionEpoch <= epoch && cfg.decayInterval > 0
    ensures var q := Quote(l, epoch, work, marginal, recency, cfg).value;
            && q.state == SHADOW_KNOWN && q.frequencyState == l.state && q.lineageId == l.lineageId
            && q.normalizedFrequencyQ == l.frequencyQ / Pow2((epoch - l.frequencyEpoch) / cfg.decayInterval)
            && q.lostValueQ == Signal(l, epoch, cfg.decayInterval) * work
            && q.marginalResource == marginal != 0 && q.recencyOrdinal == recency != 0
  {
    QuoteExact(l, epoch, work, marginal, recency, cfg);
    NormalizablePrior(l, epoch, cfg);
    NormalizedIs(l, epoch, cfg);
    hide WholeIntervals, Normalized, ShiftRight, RawPrior, Signal, Normalizable, ProductOverflows, WrappingProduct, Pow2;
  }

  /** Normalizing first, at no later an epoch, does not change the quote. */
  lemma {:induction false} QuoteAfterNormalize(l: Lineage, e: u64, epoch: u64, work: u64, marginal: u64, recency: u64, cfg: Config)
    requires e <= epoch
    ensures Quote(Normalized(l, e, cfg), epoch, work, marginal, recency, cfg) ==
            Quote(l, epoch, work, marginal, recency, cfg)
  {
    var n := Normalized(l, e, cfg);
    NormalizeTwice(l, e, epoch, cfg);
    NormalizedValid(l, epoch, cfg);
    NormalizedValid(n, epoch, cfg);
    assert n.admissionEpoch == l.admissionEpoch && n.priorMilli == l.priorMilli;
    hide Normalized, Normalizable, LineageValid, WholeIntervals, ShiftRight;
    NormalizablePrior(l, epoch, cfg);
  }

  lemma {:induction false} NormalizablePrior(l: Lineage, epoch: u64, cfg: Config)
    ensures Normalizable(l, epoch, cfg) ==>
              l.priorMilli <= MAX_PRIOR_MILLI && cfg.decayInterval > 0 && l.admissionEpoch <= epoch && l.frequencyEpoch <= epoch
  {
  }

  lemma {:induction false} DecayOnlyFalls(q: nat, from: u64, e: u64, f: u64, interval: u64)
    requires from <= e <= f && interval > 0
    ensures Halved(q, WholeIntervals(from, f, interval)) <= Halved(q, WholeIntervals(from, e, interval))
  {
    var s, t := WholeIntervals(from, e, interval), WholeIntervals(from, f, interval);
    DivMono(e - from, f - from, interval, interval);
    Pow2Mono(s, t);
    DivMono(q, q, Pow2(t), Pow2(s));
  }

  /** For a fixed record a quote keeps succeeding as the epoch grows, and never rises. */
  lemma {:induction false} QuoteNeverRises(l: Lineage, e: u64, f: u64, work: u64, marginal: u64, recency: u64, cfg: Config)
    requires e <= f && Quote(l, e, work, marginal, recency, cfg).Some?
    ensures Quote(l, f, work, marginal, recency, cfg).Some?
    ensures Quote(l, f, work, marginal, recency, cfg).value.lostValueQ <=
            Quote(l, e, work, marginal, recency, cfg).value.lostValueQ
    ensures Quote(l, f, work, marginal, recency, cfg).value.normalizedFrequencyQ <=
            Quote(l, e, work, marginal, recency, cfg).value.normalizedFrequencyQ
  {
    QuoteExact(l, e, work, marginal, recency, cfg);
    QuoteExact(l, f, work, marginal, recency, cfg);
    ValidityIsMonotone(l, e, f);
    var d := cfg.decayInterval;
    DecayOnlyFalls(l.frequencyQ, l.frequencyEpoch, e, f, d);
    DecayOnlyFalls(FREQUENCY_ONE * l.priorMilli / 1000, l.admissionEpoch, e, f, d);
    hide LineageValid, WholeIntervals;
    MulMono(Signal(l, f, d), Signal(l, e, d), work);
  }

  // ---------- ordering ----------

  predicate Known(v: ShadowValue) { v.state == SHADOW_KNOWN && v.marginalResource != 0 }

  function ShadowCompare(a: ShadowValue, b: ShadowValue): int {
    if Known(a) != Known(b) then (if Known(a) then -1 else 1)
    else if !Known(a) then 0
    else
      var density := CompareProduct(MultiplyU64(a.lostValueQ, b.marginalResource), MultiplyU64(b.lostValueQ, a.marginalResource));
      if density != 0 then density
      else if a.recencyOrdinal != b.recencyOrdinal then (if a.recencyOrdinal < b.recencyOrdinal then -1 else 1)
      else if a.lineageId != b.lineageId then (if a.lineageId < b.lineageId then -1 else 1)
      else 0
  }

  /** Value lost per unit of resource, as a real number. */
  ghost function Density(v: ShadowValue): real
    requires v.marginalResource != 0
  {
    v.lostValueQ as real / v.marginalResource as real
  }

  lemma {:induction false} CrossMultiply(la: nat, ma: nat, lb: nat, mb: nat)
    requires ma > 0 && mb > 0
    ensures la as real / ma as real < lb as real / mb as real <==> la * mb < lb * ma
    ensures la as real / ma as real == lb as real / mb as real <==> la * mb == lb * ma
  {
    var (x, y) := (la as real / ma as real, lb as real / mb as real);
    var scale := ma as real * mb as real;
    assert x * ma as real == la as real && y * mb as real == lb as real;
    assert x * scale == (la * mb) as real && y * scale == (lb * ma) as real;
    ScaleOrder(x, y, scale);
  }

  lemma {:induction false} ScaleOrder(x: real, y: real, scale: real)
    requires scale > 0.0
    ensures x < y <==> x * scale < y * scale
    ensures x == y <==> x * scale == y * scale
  {
    assert (y - x) * scale == y * scale - x * scale;
  }

  /** The intended order: known before unknown, then density, then recency, then lineage. */
  ghost predicate PreferredVictim(a: ShadowValue, b: ShadowValue) {
    && Known(a)
    && (!Known(b) ||
        Density(a) < Density(b) ||
        (Density(a) == Density(b) &&
         (a.recencyOrdinal < b.recencyOrdinal || (a.recencyOrdinal == b.recencyOrdinal && a.lineageId < b.lineageId))))
  }

  /** The integer comparator decides the exact rational order. */
  lemma {:induction false} CompareAgreesWithDensity(a: ShadowValue, b: ShadowValue)
    ensures ShadowCompare(a, b) < 0 <==> PreferredVictim(a, b)
    ensures ShadowCompare(a, b) > 0 <==> PreferredVictim(b, a)
  {
    if Known(a) && Known(b) {
      CompareProductExact(a.lostValueQ, b.marginalResource, b.lostValueQ, a.marginalResource);
      hide MultiplyU64, CompareProduct;
      CrossMultiply(a.lostValueQ, a.marginalResource, b.lostValueQ, b.marginalResource);
      CrossMultiply(b.lostValueQ, b.marginalResource, a.lostValueQ, a.marginalResource);
    }
  }

  /** A strict weak order: what std::sort and std::min_element demand of a comparator. */
  lemma {:induction false} StrictWeakOrder(a: ShadowValue, b: ShadowValue, c: ShadowValue)
    ensures ShadowCompare(a, a) == 0
    ensures ShadowCompare(a, b) < 0 <==> ShadowCompare(b, a) > 0
    ensures ShadowCompare(a, b) < 0 && ShadowCompare(b, c) < 0 ==> ShadowCompare(a, c) < 0
    ensures ShadowCompare(a, b) == 0 && ShadowCompare(b, c) == 0 ==> ShadowCompare(a, c) == 0
  {
    CompareAgreesWithDensity(a, a);
    CompareAgreesWithDensity(a, b);
    CompareAgreesWithDensity(b, a);
    CompareAgreesWithDensity(b, c);
    CompareAgreesWithDensity(a, c);
    hide ShadowCompare, Density;
  }

  /** Zero means equal rank, which is less than equal quotes. */
  lemma {:induction false} ZeroMeansEqualRank(a: ShadowValue, b: ShadowValue)
    ensures ShadowCompare(a, b) == 0 <==>
            (!Known(a) && !Known(b)) ||
            (Known(a) && Known(b) && a.lostValueQ * b.marginalResource == b.lostValueQ * a.marginalResource &&
             a.recencyOrdinal == b.recencyOrdinal && a.lineageId == b.lineageId)
  {
    CompareProductExact(a.lostValueQ, b.marginalResource, b.lostValueQ, a.marginalResource);
    hide MultiplyU64, CompareProduct;
  }

  /** Against the header comment: quotes that differ can compare as zero. */
  lemma {:induction false} ZeroIsNotIdentity()
    ensures exists a, b :: Known(a) && Known(b) && a != b && ShadowCompare(a, b) == 0
  {
    var a := ShadowValue(SHADOW_KNOWN, FREQUENCY_PROBATION, 1, 0, 1, 1, 1);
    var b := a.(lostValueQ := 2, marginalResource := 2);
    ZeroMeansEqualRank(a, b);
    assert Known(a) && Known(b) && a != b && ShadowCompare(a, b) == 0;
  }

  // ---------- from candidates to their order ----------

  /** What is quoted: a lineage at an epoch, the work that keeping it avoids, what it costs, and when it was last used. */
  datatype Candidate = Candidate(lineage: Lineage, epoch: u64, work: u64, marginal: u64, recency: u64)

  function QuoteOf(c: Candidate, cfg: Config): Option<ShadowValue> {
    Quote(c.lineage, c.epoch, c.work, c.marginal, c.recency, cfg)
  }

  /** Work lost per unit of resource, as a rational number. */
  ghost function Worth(c: Candidate, d: u64): real
    requires d > 0 && c.lineage.frequencyEpoch <= c.epoch && c.lineage.admissionEpoch <= c.epoch && c.marginal != 0
  {
    (Signal(c.lineage, c.epoch, d) * c.work) as real / c.marginal as real
  }

  /** Of two candidates that can be quoted, the one that loses less work per resource goes first, then the less recent, then the older lineage. */
  lemma {:induction false} CandidatesOrdered(a: Candidate, b: Candidate, cfg: Config)
    requires QuoteOf(a, cfg).Some? && QuoteOf(b, cfg).Some?
    ensures cfg.decayInterval > 0 && a.marginal != 0 && b.marginal != 0
    ensures a.lineage.frequencyEpoch <= a.epoch && a.lineage.admissionEpoch <= a.epoch
    ensures b.lineage.frequencyEpoch <= b.epoch && b.lineage.admissionEpoch <= b.epoch
    ensures var x, y := Worth(a, cfg.decayInterval), Worth(b, cfg.decayInterval);
            ShadowCompare(QuoteOf(a, cfg).value, QuoteOf(b, cfg).value) < 0 <==>
            || x < y
            || (x == y && a.recency < b.recency)
            || (x == y && a.recency == b.recency && a.lineage.lineageId < b.lineage.lineageId)
  {
    QuoteFields(a.lineage, a.epoch, a.work, a.marginal, a.recency, cfg);
    QuoteFields(b.lineage, b.epoch, b.work, b.marginal, b.recency, cfg);
    hide Quote, ShadowCompare, Signal, Pow2;
    CompareAgreesWithDensity(QuoteOf(a, cfg).value, QuoteOf(b, cfg).value);
  }
}
