/** The binary form of a snapshot told by the offset of every field, as another reader of the file would have it. */
module WireFormat {
  import opened Words
  import opened Layout
  import opened Records
  import opened Codec

  // ---------- fields at their offsets ----------

  /** Byte `i` of a little-endian integer. */
  lemma {:induction false} LittleEndianByte(v: nat, width: nat, i: nat)
    requires i < width
    ensures LittleEndian(v, width)[i] == (v / Pow2(8 * i)) % 256
  {
    if i == 0 {
      assert Pow2(0) == 1 && v / 1 == v;
    } else {
      LittleEndianByte(v / 256, width - 1, i - 1);
      ByteShift(v, i);
      hide Pow2;
    }
  }

  /** The `width` bytes from `at` on, as a little-endian integer. */
  function Field(b: seq<u8>, at: nat, width: nat): nat
    requires at + width <= |b|
  {
    Value(b[at..at + width])
  }

  function Offset(widths: seq<nat>, k: nat): nat
    requires k <= |widths|
  {
    if k == 0 then 0 else Offset(widths, k - 1) + widths[k - 1]
  }

  lemma {:induction false} OffsetTail(widths: seq<nat>, k: nat)
    requires 0 < k <= |widths|
    ensures Offset(widths, k) == widths[0] + Offset(widths[1..], k - 1)
  {
    if k > 1 { OffsetTail(widths, k - 1); }
  }

  lemma {:induction false} FieldMoved(front: seq<u8>, b: seq<u8>, at: nat, width: nat)
    requires at + width <= |b|
    ensures Field(front + b, |front| + at, width) == Field(b, at, width)
    ensures at < |b| ==> (front + b)[|front| + at] == b[at]
  {
    hide Value;
    assert (front + b)[|front| + at..|front| + at + width] == b[at..at + width];
  }

  lemma {:induction false} FirstField(v: nat, width: nat, rest: seq<u8>)
    requires v < Limit(width)
    ensures Field(LittleEndian(v, width) + rest, 0, width) == v
  {
    ValueOfLittleEndian(v, width);
    hide Value, LittleEndian;
    assert (LittleEndian(v, width) + rest)[0..width] == LittleEndian(v, width);
  }

  lemma {:induction false} PutFirst(values: seq<nat>, widths: seq<nat>, rest: seq<u8>)
    requires Fits(values, widths) && values != []
    ensures Fits(values[1..], widths[1..]) && values[0] < Limit(widths[0])
    ensures PutAll(values, widths) + rest == LittleEndian(values[0], widths[0]) + (PutAll(values[1..], widths[1..]) + rest)
  {
    hide LittleEndian, Limit;
  }

  lemma {:induction false} FieldAt(values: seq<nat>, widths: seq<nat>, rest: seq<u8>, k: nat)
    requires Fits(values, widths) && k < |values|
    ensures var b := PutAll(values, widths) + rest;
            Offset(widths, k) + widths[k] <= |b| && Field(b, Offset(widths, k), widths[k]) == values[k]
  {
    hide LittleEndian, PutAll, Field, Limit;
    PutFirst(values, widths, rest);
    var tail := PutAll(values[1..], widths[1..]) + rest;
    if k == 0 {
      FirstField(values[0], widths[0], tail);
    } else {
      FieldAt(values[1..], widths[1..], rest, k - 1);
      OffsetTail(widths, k);
      FieldMoved(LittleEndian(values[0], widths[0]), tail, Offset(widths[1..], k - 1), widths[k]);
    }
  }

  lemma {:induction false} LineageOffsets()
    ensures Offset(LINEAGE, 0) == 0 && Offset(LINEAGE, 1) == 1 && Offset(LINEAGE, 2) == 2 && Offset(LINEAGE, 3) == 10
    ensures Offset(LINEAGE, 4) == 18 && Offset(LINEAGE, 5) == 26 && Offset(LINEAGE, 6) == 34 && Offset(LINEAGE, 7) == 42
    ensures Offset(LINEAGE, 8) == 50
  {
    assert Offset(LINEAGE, 4) == 18;
  }

  lemma {:induction false} ArtifactOffsets()
    ensures Offset(ARTIFACT, 0) == 0 && Offset(ARTIFACT, 1) == 1 && Offset(ARTIFACT, 2) == 2 && Offset(ARTIFACT, 3) == 3
    ensures Offset(ARTIFACT, 4) == 4 && Offset(ARTIFACT, 5) == 5 && Offset(ARTIFACT, 6) == 6 && Offset(ARTIFACT, 7) == 10
    ensures Offset(ARTIFACT, 8) == 18 && Offset(ARTIFACT, 9) == 26 && Offset(ARTIFACT, 10) == 34 && Offset(ARTIFACT, 11) == 42
    ensures Offset(ARTIFACT, 12) == 50 && Offset(ARTIFACT, 13) == 58 && Offset(ARTIFACT, 14) == 66
  {
    assert Offset(ARTIFACT, 4) == 4;
    assert Offset(ARTIFACT, 8) == 18;
    assert Offset(ARTIFACT, 12) == 50;
  }

  lemma {:induction false} PrefixOffsets()
    ensures Offset(PREFIX, 0) == 0 && Offset(PREFIX, 1) == 8 && Offset(PREFIX, 2) == 16 && Offset(PREFIX, 3) == 24
    ensures Offset(PREFIX, 4) == 32 && Offset(PREFIX, 5) == 40 && Offset(PREFIX, 6) == 48 && Offset(PREFIX, 7) == 56
  {
    assert Offset(PREFIX, 4) == 32;
  }

  // ---------- the records ----------

  predicate LineageAt(b: seq<u8>, at: nat, l: Lineage) {
    && at + 54 <= |b|
    && b[at] == l.pool && b[at + 1] == l.state
    && Field(b, at + 2, 8) == l.lineageId && Field(b, at + 10, 8) == l.reuseHits && Field(b, at + 18, 8) == l.frequencyQ
    && Field(b, at + 26, 8) == l.admissionEpoch && Field(b, at + 34, 8) == l.frequencyEpoch
    && Field(b, at + 42, 8) == l.lastCreditEpoch && Field(b, at + 50, 4) == l.priorMilli
  }

  predicate BoundaryAt(b: seq<u8>, at: nat, t: Boundary) {
    && at + 24 <= |b|
    && Field(b, at, 8) == t.ordinal && Field(b, at + 8, 8) == t.tokenPos && Field(b, at + 16, 8) == t.tokenEnd
  }

  predicate HeadAt(b: seq<u8>, at: nat, a: Artifact)
    requires a.turns.Some?
  {
    var t, s := a.turns.value, a.stamp;
    && at + 70 <= |b|
    && b[at] == a.kind && b[at + 1] == t.source && b[at + 2] == s.state && b[at + 3] == s.pool
    && (b[at + 4] == if s.softLeased then 1 else 0) && (b[at + 5] == if s.mandatoryAnchor then 1 else 0)
    && Field(b, at + 6, 4) == t.version && Field(b, at + 10, 8) == t.tokenCount && Field(b, at + 18, 8) == s.stableId
    && Field(b, at + 26, 8) == s.lineageId && Field(b, at + 34, 8) == s.recencyOrdinal
    && Field(b, at + 42, 8) == s.mappedTurnOrdinal && Field(b, at + 50, 8) == s.anchorRank
    && Field(b, at + 58, 8) == s.coverageTokens && Field(b, at + 66, 4) == |t.boundaries| % TWO32
  }

  /** The artifact and its boundaries, one after another. */
  predicate ArtifactAt(b: seq<u8>, at: nat, a: Artifact) {
    && a.turns.Some? && HeadAt(b, at, a)
    && forall i :: 0 <= i < |a.turns.value.boundaries| ==> BoundaryAt(b, at + 70 + 24 * i, a.turns.value.boundaries[i])
  }

  lemma {:induction false} OneByte(b: seq<u8>, at: nat)
    requires at < |b|
    ensures Field(b, at, 1) == b[at]
  {
    assert b[at..at + 1] == [b[at]] && [b[at]][1..] == [];
    assert Value([b[at]]) == b[at] + 256 * Value([]);
  }

  lemma {:induction false} At(b: seq<u8>, values: seq<nat>, widths: seq<nat>, rest: seq<u8>, k: nat, at: nat, width: nat)
    requires Fits(values, widths) && k < |values| && Offset(widths, k) == at && widths[k] == width
    requires b == PutAll(values, widths) + rest
    ensures at + width <= |b| && Field(b, at, width) == values[k]
    ensures width == 1 ==> b[at] == values[k]
  {
    FieldAt(values, widths, rest, k);
    hide PutAll, Fits, Offset, Field;
    if width == 1 { OneByte(b, at); }
  }

  lemma {:induction false} LineageLaidOut(l: Lineage, rest: seq<u8>)
    ensures |LineageBytes(l)| == 54 && LineageAt(LineageBytes(l) + rest, 0, l)
  {
    LayoutSizes();
    LineageFieldsFit(l);
    LineageOffsets();
    var v := LineageFields(l);
    var b := LineageBytes(l) + rest;
    hide Offset, Field, PutAll, Total, Fits;
    At(b, v, LINEAGE, rest, 0, 0, 1);
    At(b, v, LINEAGE, rest, 1, 1, 1);
    At(b, v, LINEAGE, rest, 2, 2, 8);
    At(b, v, LINEAGE, rest, 3, 10, 8);
    At(b, v, LINEAGE, rest, 4, 18, 8);
    At(b, v, LINEAGE, rest, 5, 26, 8);
    At(b, v, LINEAGE, rest, 6, 34, 8);
    At(b, v, LINEAGE, rest, 7, 42, 8);
    At(b, v, LINEAGE, rest, 8, 50, 4);
  }

  lemma {:induction false} BoundaryFits(t: Boundary)
    ensures Fits(BoundaryFields(t), BOUNDARY)
    ensures Offset(BOUNDARY, 0) == 0 && Offset(BOUNDARY, 1) == 8 && Offset(BOUNDARY, 2) == 16
  {
    Limits();
    hide Limit;
  }

  lemma {:induction false} BoundaryLaidOut(t: Boundary, rest: seq<u8>)
    ensures |BoundaryBytes(t)| == 24 && BoundaryAt(BoundaryBytes(t) + rest, 0, t)
  {
    hide Offset, Field, PutAll, Total, Fits;
    LayoutSizes();
    BoundaryFits(t);
    var v := BoundaryFields(t);
    var b := BoundaryBytes(t) + rest;
    At(b, v, BOUNDARY, rest, 0, 0, 8);
    At(b, v, BOUNDARY, rest, 1, 8, 8);
    At(b, v, BOUNDARY, rest, 2, 16, 8);
  }

  lemma {:induction false} FieldsOfHead(a: Artifact)
    requires a.turns.Some?
    ensures var v, t, s := ArtifactFields(a.kind, a.turns.value, a.stamp), a.turns.value, a.stamp;
            && |v| == 15 && v[0] == a.kind && v[1] == t.source && v[2] == s.state && v[3] == s.pool
            && v[4] == (if s.softLeased then 1 else 0) && v[5] == (if s.mandatoryAnchor then 1 else 0)
            && v[6] == t.version && v[7] == t.tokenCount && v[8] == s.stableId && v[9] == s.lineageId
            && v[10] == s.recencyOrdinal && v[11] == s.mappedTurnOrdinal && v[12] == s.anchorRank
            && v[13] == s.coverageTokens && v[14] == |t.boundaries| % TWO32
  {
  }

  lemma {:induction false} HeadLaidOut(a: Artifact, rest: seq<u8>)
    requires a.turns.Some?
    ensures var b := PutAll(ArtifactFields(a.kind, a.turns.value, a.stamp), ARTIFACT);
            |b| == 70 && HeadAt(b + rest, 0, a)
  {
    hide Offset, Field, PutAll, Total, Fits, ArtifactOf, ArtifactFields;
    LayoutSizes();
    ArtifactFieldsFit(a);
    ArtifactOffsets();
    FieldsOfHead(a);
    var v := ArtifactFields(a.kind, a.turns.value, a.stamp);
    var b := PutAll(v, ARTIFACT) + rest;
    At(b, v, ARTIFACT, rest, 0, 0, 1);
    At(b, v, ARTIFACT, rest, 1, 1, 1);
    At(b, v, ARTIFACT, rest, 2, 2, 1);
    At(b, v, ARTIFACT, rest, 3, 3, 1);
    At(b, v, ARTIFACT, rest, 4, 4, 1);
    At(b, v, ARTIFACT, rest, 5, 5, 1);
    At(b, v, ARTIFACT, rest, 6, 6, 4);
    At(b, v, ARTIFACT, rest, 7, 10, 8);
    At(b, v, ARTIFACT, rest, 8, 18, 8);
    At(b, v, ARTIFACT, rest, 9, 26, 8);
    At(b, v, ARTIFACT, rest, 10, 34, 8);
    At(b, v, ARTIFACT, rest, 11, 42, 8);
    At(b, v, ARTIFACT, rest, 12, 50, 8);
    At(b, v, ARTIFACT, rest, 13, 58, 8);
    At(b, v, ARTIFACT, rest, 14, 66, 4);
  }

  lemma {:induction false} PrefixFits(s: Snapshot)
    ensures Fits(PrefixFields(s), PREFIX)
  {
    Limits();
    hide Limit;
  }

  lemma {:induction false} PrefixLaidOut(s: Snapshot, rest: seq<u8>)
    ensures var b := PutAll(PrefixFields(s), PREFIX);
            |b| == 60 && PrefixAt(b + rest, s)
  {
    LayoutSizes();
    var v := PrefixFields(s);
    PrefixFits(s);
    PrefixOffsets();
    var b := PutAll(v, PREFIX) + rest;
    hide Offset, Field, PutAll, Total, Fits;
    At(b, v, PREFIX, rest, 0, 0, 8);
    At(b, v, PREFIX, rest, 1, 8, 8);
    At(b, v, PREFIX, rest, 2, 16, 8);
    At(b, v, PREFIX, rest, 3, 24, 8);
    At(b, v, PREFIX, rest, 4, 32, 8);
    At(b, v, PREFIX, rest, 5, 40, 8);
    At(b, v, PREFIX, rest, 6, 48, 8);
    At(b, v, PREFIX, rest, 7, 56, 4);
  }

  predicate PrefixAt(b: seq<u8>, s: Snapshot) {
    && 60 <= |b|
    && Field(b, 0, 8) == s.recencyHighWater[0] && Field(b, 8, 8) == s.recencyHighWater[1]
    && Field(b, 16, 8) == s.stableHighWater[0] && Field(b, 24, 8) == s.stableHighWater[1]
    && Field(b, 32, 8) == s.lineageHighWater[0] && Field(b, 40, 8) == s.lineageHighWater[1]
    && Field(b, 48, 8) == s.competitionEpoch && Field(b, 56, 4) == |s.lineages| % TWO32
  }

  // ---------- one record after another ----------

  lemma {:induction false} LineageMoved(front: seq<u8>, b: seq<u8>, at: nat, l: Lineage)
    requires LineageAt(b, at, l)
    ensures LineageAt(front + b, |front| + at, l)
  {
    FieldMoved(front, b, at, 1);
    FieldMoved(front, b, at + 1, 1);
    FieldMoved(front, b, at + 2, 8);
    FieldMoved(front, b, at + 10, 8);
    FieldMoved(front, b, at + 18, 8);
    FieldMoved(front, b, at + 26, 8);
    FieldMoved(front, b, at + 34, 8);
    FieldMoved(front, b, at + 42, 8);
    FieldMoved(front, b, at + 50, 4);
    hide Field;
  }

  lemma {:induction false} BoundaryMoved(front: seq<u8>, b: seq<u8>, at: nat, t: Boundary)
    requires BoundaryAt(b, at, t)
    ensures BoundaryAt(front + b, |front| + at, t)
  {
    FieldMoved(front, b, at, 8);
    FieldMoved(front, b, at + 8, 8);
    FieldMoved(front, b, at + 16, 8);
    hide Field;
  }

  lemma {:induction false} HeadMoved(front: seq<u8>, b: seq<u8>, at: nat, a: Artifact)
    requires a.turns.Some? && HeadAt(b, at, a)
    ensures HeadAt(front + b, |front| + at, a)
  {
    hide Field;
    BytesMoved(front, b, at, 6);
    FieldMoved(front, b, at + 6, 4);
    FieldMoved(front, b, at + 10, 8);
    FieldMoved(front, b, at + 18, 8);
    FieldMoved(front, b, at + 26, 8);
    FieldMoved(front, b, at + 34, 8);
    FieldMoved(front, b, at + 42, 8);
    FieldMoved(front, b, at + 50, 8);
    FieldMoved(front, b, at + 58, 8);
    FieldMoved(front, b, at + 66, 4);
  }

  lemma {:induction false} BytesMoved(front: seq<u8>, b: seq<u8>, at: nat, n: nat)
    requires at + n <= |b|
    ensures forall i :: at <= i < at + n ==> (front + b)[|front| + i] == b[i]
  {
  }

  lemma {:induction false} ArtifactMoved(front: seq<u8>, b: seq<u8>, at: nat, a: Artifact)
    requires ArtifactAt(b, at, a)
    ensures ArtifactAt(front + b, |front| + at, a)
  {
    HeadMoved(front, b, at, a);
    var bs := a.turns.value.boundaries;
    hide HeadAt, BoundaryAt;
    forall i | 0 <= i < |bs| ensures BoundaryAt(front + b, |front| + at + 70 + 24 * i, bs[i]) {
      BoundaryMoved(front, b, at + 70 + 24 * i, bs[i]);
      assert |front| + (at + 70 + 24 * i) == |front| + at + 70 + 24 * i;
    }
  }

  lemma {:induction false} LineagesLaidOut(ls: seq<Lineage>, rest: seq<u8>, i: nat)
    requires i < |ls|
    ensures LineageAt(LineagesBytes(ls) + rest, 54 * i, ls[i])
  {
    hide LineageBytes, LineageAt;
    var front, tail := LineageBytes(ls[0]), LineagesBytes(ls[1..]) + rest;
    assert LineagesBytes(ls) + rest == front + tail;
    LineageLaidOut(ls[0], tail);
    if i > 0 {
      LineagesLaidOut(ls[1..], rest, i - 1);
      LineageMoved(front, tail, 54 * (i - 1), ls[i]);
      assert |front| + 54 * (i - 1) == 54 * i;
    }
  }

  lemma {:induction false} BoundariesLaidOut(bs: seq<Boundary>, rest: seq<u8>, i: nat)
    requires i < |bs|
    ensures BoundaryAt(BoundariesBytes(bs) + rest, 24 * i, bs[i])
  {
    hide BoundaryBytes, BoundaryAt;
    var front, tail := BoundaryBytes(bs[0]), BoundariesBytes(bs[1..]) + rest;
    assert BoundariesBytes(bs) + rest == front + tail;
    BoundaryLaidOut(bs[0], tail);
    if i > 0 {
      BoundariesLaidOut(bs[1..], rest, i - 1);
      BoundaryMoved(front, tail, 24 * (i - 1), bs[i]);
      assert |front| + 24 * (i - 1) == 24 * i;
    }
  }

  lemma {:induction false} BoundariesSize(bs: seq<Boundary>)
    ensures |BoundariesBytes(bs)| == 24 * |bs|
  {
    if bs != [] {
      BoundaryLaidOut(bs[0], []);
      BoundariesSize(bs[1..]);
    }
  }

  function ArtifactSize(a: Artifact): nat
    requires a.turns.Some?
  {
    70 + 24 * |a.turns.value.boundaries|
  }

  lemma {:induction false} BoundariesBehind(head: seq<u8>, bs: seq<Boundary>, rest: seq<u8>, i: nat)
    requires i < |bs| && |head| == 70
    ensures BoundaryAt(head + (BoundariesBytes(bs) + rest), 70 + 24 * i, bs[i])
  {
    BoundariesLaidOut(bs, rest, i);
    hide BoundaryAt, BoundariesBytes;
    BoundaryMoved(head, BoundariesBytes(bs) + rest, 24 * i, bs[i]);
  }

  lemma {:induction false} Regroup(a: seq<u8>, b: seq<u8>, c: seq<u8>)
    ensures (a + b) + c == a + (b + c)
  {
  }

  lemma {:induction false} ArtifactLaidOut(a: Artifact, rest: seq<u8>)
    requires a.turns.Some?
    ensures |ArtifactBytes(a)| == ArtifactSize(a) && ArtifactAt(ArtifactBytes(a) + rest, 0, a)
  {
    var bs := a.turns.value.boundaries;
    var head, tail := PutAll(ArtifactFields(a.kind, a.turns.value, a.stamp), ARTIFACT), BoundariesBytes(bs);
    BoundariesSize(bs);
    HeadLaidOut(a, tail + rest);
    Regroup(head, tail, rest);
    assert ArtifactBytes(a) == head + tail;
    hide HeadAt, BoundaryAt, PutAll, BoundariesBytes, ArtifactFields, ArtifactBytes;
    forall i | 0 <= i < |bs| ensures BoundaryAt(head + (tail + rest), 0 + 70 + 24 * i, bs[i]) {
      BoundariesBehind(head, bs, rest, i);
      assert 0 + 70 + 24 * i == 70 + 24 * i;
    }
  }

  /** Where artifact number `i` starts, counted from the first. */
  function Start(artifacts: seq<Artifact>, i: nat): nat
    requires AllHaveTurns(artifacts) && i <= |artifacts|
  {
    if i == 0 then 0 else Start(artifacts, i - 1) + ArtifactSize(artifacts[i - 1])
  }

  lemma {:induction false} StartTail(artifacts: seq<Artifact>, i: nat)
    requires AllHaveTurns(artifacts) && 0 < i <= |artifacts|
    ensures Start(artifacts, i) == ArtifactSize(artifacts[0]) + Start(artifacts[1..], i - 1)
  {
    if i > 1 { StartTail(artifacts, i - 1); }
  }

  lemma {:induction false} ArtifactsLaidOut(artifacts: seq<Artifact>, i: nat)
    requires AllHaveTurns(artifacts) && i < |artifacts|
    ensures ArtifactAt(ArtifactsBytes(artifacts), Start(artifacts, i), artifacts[i])
  {
    hide ArtifactBytes, ArtifactAt, ArtifactSize;
    var front, tail := ArtifactBytes(artifacts[0]), ArtifactsBytes(artifacts[1..]);
    ArtifactLaidOut(artifacts[0], tail);
    if i > 0 {
      ArtifactsLaidOut(artifacts[1..], i - 1);
      StartTail(artifacts, i);
      ArtifactMoved(front, tail, Start(artifacts[1..], i - 1), artifacts[i]);
    }
  }

  lemma {:induction false} ArtifactsSize(artifacts: seq<Artifact>)
    requires AllHaveTurns(artifacts)
    ensures |ArtifactsBytes(artifacts)| == Start(artifacts, |artifacts|)
  {
    hide ArtifactBytes, ArtifactSize;
    if artifacts != [] {
      ArtifactLaidOut(artifacts[0], []);
      ArtifactsSize(artifacts[1..]);
      StartTail(artifacts, |artifacts|);
    }
  }

  // ---------- the whole file ----------

  /** High-water marks and epoch, the counted lineages, the counted artifacts, and nothing behind them. */
  predicate PayloadAt(b: seq<u8>, s: Snapshot)
    requires AllHaveTurns(s.artifacts)
  {
    var n := 60 + 54 * |s.lineages|;
    && |b| == n + 4 + Start(s.artifacts, |s.artifacts|)
    && PrefixAt(b, s)
    && LineagesAt(b, 60, s.lineages)
    && Field(b, n, 4) == |s.artifacts| % TWO32
    && ArtifactsAt(b, n + 4, s.artifacts)
  }

  predicate LineagesAt(b: seq<u8>, at: nat, ls: seq<Lineage>) {
    forall i :: 0 <= i < |ls| ==> LineageAt(b, at + 54 * i, ls[i])
  }

  predicate ArtifactsAt(b: seq<u8>, at: nat, artifacts: seq<Artifact>)
    requires AllHaveTurns(artifacts)
  {
    forall i :: 0 <= i < |artifacts| ==> ArtifactAt(b, at + Start(artifacts, i), artifacts[i])
  }

  lemma {:induction false} CountLaidOut(n: nat, rest: seq<u8>)
    ensures var b := PutAll([n % TWO32], COUNT); |b| == 4 && Field(b + rest, 0, 4) == n % TWO32
  {
    LayoutSizes();
    Limits();
    FieldAt([n % TWO32], COUNT, rest, 0);
  }

  lemma {:induction false} LineagesBehind(b: seq<u8>, prefix: seq<u8>, ls: seq<Lineage>, rest: seq<u8>)
    requires |prefix| == 60 && b == prefix + (LineagesBytes(ls) + rest)
    ensures LineagesAt(b, 60, ls)
  {
    hide LineageAt, LineagesBytes;
    forall i | 0 <= i < |ls| ensures LineageAt(b, 60 + 54 * i, ls[i]) {
      LineagesLaidOut(ls, rest, i);
      LineageMoved(prefix, LineagesBytes(ls) + rest, 54 * i, ls[i]);
    }
  }

  lemma {:induction false} CountBehind(b: seq<u8>, front: seq<u8>, n: nat, rest: seq<u8>)
    requires b == front + (PutAll([n % TWO32], COUNT) + rest)
    ensures |front| + 4 <= |b| && Field(b, |front|, 4) == n % TWO32
  {
    CountLaidOut(n, rest);
    hide PutAll, Field, Value, LittleEndian, Total;
    FieldMoved(front, PutAll([n % TWO32], COUNT) + rest, 0, 4);
  }

  lemma {:induction false} ArtifactsBehind(b: seq<u8>, front: seq<u8>, artifacts: seq<Artifact>)
    requires AllHaveTurns(artifacts) && b == front + ArtifactsBytes(artifacts)
    ensures |b| == |front| + Start(artifacts, |artifacts|)
    ensures ArtifactsAt(b, |front|, artifacts)
  {
    hide ArtifactAt, ArtifactsBytes, Start, AllHaveTurns;
    ArtifactsSize(artifacts);
    forall i | 0 <= i < |artifacts| ensures ArtifactAt(b, |front| + Start(artifacts, i), artifacts[i]) {
      ArtifactsLaidOut(artifacts, i);
      ArtifactMoved(front, ArtifactsBytes(artifacts), Start(artifacts, i), artifacts[i]);
    }
  }

  lemma {:induction false} PayloadGroups(s: Snapshot)
    requires AllHaveTurns(s.artifacts)
    ensures var prefix, lineages := PutAll(PrefixFields(s), PREFIX), LineagesBytes(s.lineages);
            var count, artifacts := PutAll([|s.artifacts| % TWO32], COUNT), ArtifactsBytes(s.artifacts);
            && Payload(s) == prefix + (lineages + (count + artifacts))
            && Payload(s) == (prefix + lineages) + (count + artifacts)
            && Payload(s) == ((prefix + lineages) + count) + artifacts
  {
    var prefix, lineages := PutAll(PrefixFields(s), PREFIX), LineagesBytes(s.lineages);
    var count, artifacts := PutAll([|s.artifacts| % TWO32], COUNT), ArtifactsBytes(s.artifacts);
    assert Payload(s) == prefix + (lineages + (count + artifacts));
    hide *;
    Regroup(prefix, lineages, count + artifacts);
    Regroup(prefix + lineages, count, artifacts);
  }

  lemma {:induction false} CountSize(n: nat)
    ensures |PutAll([n % TWO32], COUNT)| == 4
  {
    CountLaidOut(n, []);
  }

  lemma {:induction false} PayloadLaidOut(s: Snapshot)
    requires AllHaveTurns(s.artifacts)
    ensures PayloadAt(Payload(s), s)
  {
    hide Payload, PutAll, LineagesBytes, ArtifactsBytes, LineagesAt, ArtifactsAt, PrefixAt, Field, Start, AllHaveTurns;
    var prefix, lineages := PutAll(PrefixFields(s), PREFIX), LineagesBytes(s.lineages);
    var count, artifacts := PutAll([|s.artifacts| % TWO32], COUNT), ArtifactsBytes(s.artifacts);
    var b := Payload(s);
    PrefixLaidOut(s, lineages + (count + artifacts));
    CountSize(|s.artifacts|);
    PayloadGroups(s);
    LineagesLength(s.lineages);
    assert |prefix| == 60 && |prefix + lineages| == 60 + 54 * |s.lineages|;
    assert PrefixAt(b, s);
    LineagesBehind(b, prefix, s.lineages, count + artifacts);
    CountBehind(b, prefix + lineages, |s.artifacts|, artifacts);
    ArtifactsBehind(b, (prefix + lineages) + count, s.artifacts);
  }

  /** "R3SD", the version, the length of the file, the digest of what follows it, and the payload. */
  predicate FileAt(hash: Hash, b: seq<u8>, s: Snapshot)
    requires AllHaveTurns(s.artifacts)
  {
    && 48 <= |b|
    && b[..4] == [0x52, 0x33, 0x53, 0x44] && Field(b, 4, 4) == 2 && Field(b, 8, 8) == |b|
    && b[16..48] == hash(b[48..]) && PayloadAt(b[48..], s)
  }

  lemma {:induction false} EnvelopeFits(size: nat)
    requires size < TWO64
    ensures Fits([SIDECAR_MAGIC, SIDECAR_VERSION, size], ENVELOPE)
    ensures Offset(ENVELOPE, 1) == 4 && Offset(ENVELOPE, 2) == 8
  {
    Limits();
    hide Limit;
  }

  lemma {:induction false} StartsWithMagic(size: nat)
    ensures var b := PutAll([SIDECAR_MAGIC, SIDECAR_VERSION, size], ENVELOPE);
            |b| >= 4 && b[..4] == LittleEndian(SIDECAR_MAGIC, 4)
  {
    hide LittleEndian;
  }

  lemma {:induction false} EnvelopeLaidOut(size: nat, rest: seq<u8>)
    requires size < TWO64
    ensures var b := PutAll([SIDECAR_MAGIC, SIDECAR_VERSION, size], ENVELOPE);
            && |b| == 16 && b[..4] == [0x52, 0x33, 0x53, 0x44]
            && Field(b + rest, 4, 4) == 2 && Field(b + rest, 8, 8) == size
  {
    hide LittleEndian, Total, Field, PutAll, Offset, Fits;
    var v := [SIDECAR_MAGIC, SIDECAR_VERSION, size];
    var b := PutAll(v, ENVELOPE) + rest;
    LayoutSizes();
    EnvelopeFits(size);
    StartsWithMagic(size);
    Magic();
    At(b, v, ENVELOPE, rest, 1, 4, 4);
    At(b, v, ENVELOPE, rest, 2, 8, 8);
  }

  lemma {:induction false} Magic()
    ensures LittleEndian(SIDECAR_MAGIC, 4) == [0x52, 0x33, 0x53, 0x44]
  {
    assert LittleEndian(0x44533352, 4) == [0x52] + LittleEndian(0x445333, 3);
    assert LittleEndian(0x445333, 3) == [0x33] + LittleEndian(0x4453, 2);
    assert LittleEndian(0x4453, 2) == [0x53] + LittleEndian(0x44, 1);
  }

  /** Every byte of an encoded snapshot has its place. */
  lemma {:induction false} EncodedLaidOut(hash: Hash, s: Snapshot)
    requires Encode(hash, s).Some?
    ensures AllHaveTurns(s.artifacts) && FileAt(hash, Encode(hash, s).value, s)
  {
    hide PutAll, Payload, PayloadAt, Field;
    assert AllHaveTurns(s.artifacts) by {
      hide SnapshotValid;
      ValidHaveTurns(s);
    }
    hide SnapshotValid;
    var payload, b := Payload(s), Encode(hash, s).value;
    PayloadLaidOut(s);
    EnvelopeLaidOut(48 + |payload|, hash(payload) + payload);
    var head := PutAll([SIDECAR_MAGIC, SIDECAR_VERSION, 48 + |payload|], ENVELOPE);
    assert b == head + (hash(payload) + payload);
    assert b[..4] == head[..4] && b[16..48] == hash(payload) && b[48..] == payload;
  }

  lemma {:induction false} ValidHaveTurns(s: Snapshot)
    requires SnapshotValid(s)
    ensures AllHaveTurns(s.artifacts)
  {
    assert forall i :: 0 <= i < |s.artifacts| ==> ArtifactAnchored(s.artifacts[i], s.lineages);
  }
}
