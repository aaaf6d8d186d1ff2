/** Encoding and decoding a snapshot are inverse, and encoded sizes are predictable. */
module CodecTheorems {
  import opened Words
  import opened Layout
  import opened Records
  import opened Codec

  // ---------- sizes ----------

  function ArtifactSizes(artifacts: seq<Artifact>): nat
    requires AllHaveTurns(artifacts)
  {
    if artifacts == [] then 0 else
      ARTIFACT_FIXED_SIZE + |artifacts[0].turns.value.boundaries| * BOUNDARY_SIZE + ArtifactSizes(artifacts[1..])
  }

  lemma {:induction false} ArtifactsLength(artifacts: seq<Artifact>)
    requires AllHaveTurns(artifacts)
    ensures |ArtifactsBytes(artifacts)| == ArtifactSizes(artifacts)
  {
    if artifacts != [] {
      ArtifactLength(artifacts[0]);
      ArtifactsLength(artifacts[1..]);
    }
  }

  lemma {:induction false} OneArtifactSize(artifacts: seq<Artifact>, i: nat)
    requires AllHaveTurns(artifacts) && i < |artifacts|
    ensures |artifacts[i].turns.value.boundaries| * BOUNDARY_SIZE <= ArtifactSizes(artifacts)
  {
    if i > 0 { OneArtifactSize(artifacts[1..], i - 1); }
  }

  /** The exact length of the payload, over all lineages and boundaries. */
  lemma {:induction false} PayloadLength(s: Snapshot)
    requires AllHaveTurns(s.artifacts)
    ensures |Payload(s)| ==
            SNAPSHOT_PREFIX_SIZE + |s.lineages| * LINEAGE_FIXED_SIZE + ArtifactSizes(s.artifacts)
  {
    LayoutSizes();
    LineagesLength(s.lineages);
    ArtifactsLength(s.artifacts);
  }

  lemma {:induction false} ValidHasTurns(s: Snapshot)
    requires SnapshotValid(s)
    ensures AllHaveTurns(s.artifacts)
  {
    forall i | 0 <= i < |s.artifacts| ensures s.artifacts[i].turns.Some? {
      assert ArtifactAnchored(s.artifacts[i], s.lineages);
    }
  }

  /** A payload within the size cap cannot overflow a 32-bit boundary count. */
  lemma {:induction false} CountsFit(s: Snapshot)
    requires SnapshotValid(s) && AllHaveTurns(s.artifacts) && |Payload(s)| <= MAX_SIDECAR_BYTES - HEADER_SIZE
    ensures ArtifactsEncodable(s.artifacts)
  {
    hide Payload;
    PayloadLength(s);
    forall i | 0 <= i < |s.artifacts|
      ensures ArtifactValid(s.artifacts[i]) && |s.artifacts[i].turns.value.boundaries| < TWO32
    {
      assert ArtifactAnchored(s.artifacts[i], s.lineages);
      OneArtifactSize(s.artifacts, i);
    }
  }

  // ---------- payload ----------

  lemma {:induction false} PrefixFieldsFit(s: Snapshot)
    requires |s.lineages| <= MAX_LINEAGES && s.version == SIDECAR_VERSION
    ensures Fits(PrefixFields(s), PREFIX)
    ensures SnapshotOf(PrefixFields(s), s.lineages, s.artifacts) == s
  {
    Limits();
    assert s.recencyHighWater == [s.recencyHighWater[0], s.recencyHighWater[1]];
    assert s.stableHighWater == [s.stableHighWater[0], s.stableHighWater[1]];
    assert s.lineageHighWater == [s.lineageHighWater[0], s.lineageHighWater[1]];
  }

  lemma {:induction false} PrefixFieldsOf(v: seq<nat>, ls: seq<Lineage>, artifacts: seq<Artifact>)
    requires Fits(v, PREFIX) && |ls| == v[7]
    ensures PrefixFields(SnapshotOf(v, ls, artifacts)) == v
  {
    Limits();
  }

  function TailBytes(artifacts: seq<Artifact>): seq<u8>
    requires AllHaveTurns(artifacts)
  {
    PutAll([|artifacts| % TWO32], COUNT) + ArtifactsBytes(artifacts)
  }

  lemma {:induction false} CountOfBytes(n: nat, rest: seq<u8>)
    requires n < TWO32
    ensures Total(COUNT) == 4 && |PutAll([n], COUNT)| == 4
    ensures TakeAll(COUNT, PutAll([n], COUNT) + rest) == [n]
  {
    LayoutSizes();
    Limits();
    TakePut([n], COUNT, rest);
  }

  lemma {:induction false} BytesOfCount(b: seq<u8>)
    requires 4 <= |b|
    ensures Total(COUNT) == 4
    ensures TakeAll(COUNT, b)[0] < TWO32 && PutAll([TakeAll(COUNT, b)[0]], COUNT) == b[..4]
  {
    LayoutSizes();
    Limits();
    PutTake(COUNT, b);
    assert TakeAll(COUNT, b) == [TakeAll(COUNT, b)[0]];
  }

  lemma {:induction false} ParseTailBytes(s: Snapshot)
    requires SnapshotValid(s) && ArtifactsEncodable(s.artifacts) && AllHaveTurns(s.artifacts)
    requires Fits(PrefixFields(s), PREFIX)
    ensures ParseTail(PrefixFields(s), s.lineages, TailBytes(s.artifacts)) ==
            if AllWithinBoundaryCap(s.artifacts) then Some(s) else None
  {
    hide SnapshotValid, ArtifactsEncodable, AllWithinBoundaryCap, ParseArtifacts, ArtifactsBytes, PrefixFields, SnapshotOf,
         PutAll, TakeAll, Total, Fits, AllHaveTurns;
    var body := ArtifactsBytes(s.artifacts);
    ValidCounts(s);
    CountOfBytes(|s.artifacts|, body);
    assert TailBytes(s.artifacts)[4..] == body;
    assert body + [] == body;
    ParseArtifactsBytes(s.artifacts, []);
    PrefixFieldsFit(s);
  }

  lemma {:induction false} ValidCounts(s: Snapshot)
    requires SnapshotValid(s)
    ensures |s.artifacts| <= MAX_ARTIFACTS && s.version == SIDECAR_VERSION && |s.lineages| <= MAX_LINEAGES
    ensures forall i :: 0 <= i < |s.lineages| ==> LineageValid(s.lineages[i], s.competitionEpoch)
  {
  }

  lemma {:induction false} PayloadRoundTrip(s: Snapshot)
    requires SnapshotValid(s) && ArtifactsEncodable(s.artifacts) && AllHaveTurns(s.artifacts)
    ensures ParsePayload(Payload(s)) == if AllWithinBoundaryCap(s.artifacts) then Some(s) else None
  {
    hide SnapshotValid, ArtifactsEncodable, AllWithinBoundaryCap, ParseTail, TailBytes, ParseLineages, LineagesBytes,
         PutAll, TakeAll, Fits, Total, LineageValid;
    ValidCounts(s);
    var v, tail := PrefixFields(s), TailBytes(s.artifacts);
    var rest := LineagesBytes(s.lineages) + tail;
    var b := Payload(s);
    LayoutSizes();
    PrefixFieldsFit(s);
    assert b == PutAll(v, PREFIX) + rest by { TailIs(s.artifacts); }
    TakePut(v, PREFIX, rest);
    assert b[60..] == rest;
    ParseLineagesBytes(s.lineages, tail, s.competitionEpoch);
    LineagesLength(s.lineages);
    assert b[60 + |s.lineages| * LINEAGE_FIXED_SIZE..] == tail;
    ParseTailBytes(s);
  }

  lemma {:induction false} TailIs(artifacts: seq<Artifact>)
    requires AllHaveTurns(artifacts)
    ensures TailBytes(artifacts) == PutAll([|artifacts| % TWO32], COUNT) + ArtifactsBytes(artifacts)
  {
  }

  lemma {:induction false} TailBytesParsed(v: seq<nat>, ls: seq<Lineage>, b: seq<u8>)
    requires Fits(v, PREFIX) && ParseTail(v, ls, b).Some?
    ensures var s := ParseTail(v, ls, b).value;
            && SnapshotValid(s) && AllHaveTurns(s.artifacts) && AllWithinBoundaryCap(s.artifacts)
            && s == SnapshotOf(v, ls, s.artifacts)
            && TailBytes(s.artifacts) == b
  {
    hide SnapshotValid, ArtifactsEncodable, ParseArtifacts, ArtifactsBytes, AllWithinBoundaryCap, AllHaveTurns,
         PutAll, TakeAll, Total, Fits;
    BytesOfCount(b);
    var n := TakeAll(COUNT, b)[0];
    ArtifactsBytesParsed(b[4..], n);
    assert b[4..][..|b| - 4] == b[4..];
    assert b == b[..4] + b[4..];
  }

  lemma {:induction false} PrefixBounds(v: seq<nat>)
    requires Fits(v, PREFIX)
    ensures |v| == 8 && v[6] < TWO64
  {
    Limits();
  }

  lemma {:induction false} PayloadParsed(b: seq<u8>)
    requires ParsePayload(b).Some?
    ensures var s := ParsePayload(b).value;
            SnapshotValid(s) && AllHaveTurns(s.artifacts) && AllWithinBoundaryCap(s.artifacts) && Payload(s) == b
  {
    hide SnapshotValid, ParseLineages, LineagesBytes, PutAll, TakeAll, Fits, Total, ParseTail, TailBytes,
         AllWithinBoundaryCap, AllHaveTurns, PrefixFields;
    LayoutSizes();
    PutTake(PREFIX, b);
    var v := TakeAll(PREFIX, b);
    var s := ParsePayload(b).value;
    var k := 60 + v[7] * LINEAGE_FIXED_SIZE;
    PrefixBounds(v);
    var ls := ParseLineages(b[60..], v[7], v[6]).value;
    LineagesBytesParsed(b[60..], v[7], v[6]);
    TailBytesParsed(v, ls, b[k..]);
    PrefixFieldsOf(v, s.lineages, s.artifacts);
    TailIs(s.artifacts);
    assert b[60..][..v[7] * LINEAGE_FIXED_SIZE] == b[60..k];
    assert b == b[..60] + (b[60..k] + b[k..]);
  }

  // ---------- the envelope ----------

  lemma {:induction false} EnvelopeFits(size: nat)
    requires size < TWO64
    ensures Fits([SIDECAR_MAGIC, SIDECAR_VERSION, size], ENVELOPE)
  {
    Limits();
  }

  lemma {:induction false} EnvelopeOpens(hash: Hash, payload: seq<u8>)
    requires HEADER_SIZE + |payload| < TWO64
    ensures var b := Envelope(hash, payload);
            && |b| == HEADER_SIZE + |payload|
            && Total(ENVELOPE) <= |b|
            && TakeAll(ENVELOPE, b) == [SIDECAR_MAGIC, SIDECAR_VERSION, |b|]
            && b[16..48] == hash(payload)
            && b[48..] == payload
  {
    hide PutAll, TakeAll, Fits, Total;
    var v: seq<nat> := [SIDECAR_MAGIC, SIDECAR_VERSION, HEADER_SIZE + |payload|];
    EnvelopeFits(HEADER_SIZE + |payload|);
    LayoutSizes();
    TakePut(v, ENVELOPE, hash(payload) + payload);
  }

  lemma {:induction false} EnvelopeCloses(hash: Hash, b: seq<u8>)
    requires HEADER_SIZE <= |b| < TWO64 && Total(ENVELOPE) == 16
    requires TakeAll(ENVELOPE, b) == [SIDECAR_MAGIC, SIDECAR_VERSION, |b|] && hash(b[48..]) == b[16..48]
    ensures Envelope(hash, b[48..]) == b
  {
    hide TakeAll, PutAll, Fits;
    PutTake(ENVELOPE, b);
    assert b == b[..16] + (b[16..48] + b[48..]);
  }

  // ---------- main results ----------

  /**
   * Decoding what was encoded gives the snapshot back exactly when every turn
   * table respects the per-artifact boundary cap, and is refused otherwise.
   */
  lemma {:induction false} DecodeEncode(hash: Hash, s: Snapshot)
    requires Encode(hash, s).Some?
    ensures Decode(hash, Encode(hash, s).value) == if AllWithinBoundaryCap(s.artifacts) then Some(s) else None
  {
    hide SnapshotValid, AllWithinBoundaryCap, ParsePayload, Payload, TakeAll, Total, Envelope, AllHaveTurns;
    ValidHasTurns(s);
    var payload := Payload(s);
    CountsFit(s);
    EnvelopeOpens(hash, payload);
    PayloadRoundTrip(s);
    assert Encode(hash, s).value[HEADER_SIZE..] == payload;
  }

  /** Every accepted byte string is the encoding of what it decodes to. */
  lemma {:induction false} EncodeDecode(hash: Hash, b: seq<u8>)
    requires Decode(hash, b).Some?
    ensures Encode(hash, Decode(hash, b).value) == Some(b)
    ensures AllWithinBoundaryCap(Decode(hash, b).value.artifacts)
  {
    hide SnapshotValid, AllWithinBoundaryCap, ParsePayload, Payload, TakeAll, Total, Envelope, AllHaveTurns;
    LayoutSizes();
    PayloadParsed(b[HEADER_SIZE..]);
    EnvelopeCloses(hash, b);
  }

  /** So decode accepts exactly the encodings of capped snapshots, and encoding is injective on them. */
  lemma {:induction false} AcceptedExactly(hash: Hash, b: seq<u8>)
    ensures Decode(hash, b).Some? <==>
            exists s :: Encode(hash, s) == Some(b) && AllWithinBoundaryCap(s.artifacts)
  {
    hide Encode, Decode, AllWithinBoundaryCap;
    if Decode(hash, b).Some? {
      EncodeDecode(hash, b);
    }
    forall s | Encode(hash, s) == Some(b) && AllWithinBoundaryCap(s.artifacts) ensures Decode(hash, b) == Some(s) {
      DecodeEncode(hash, s);
    }
  }

  /**
   * A text that differs from an accepted one only after the envelope is accepted
   * exactly when its payload hashes to the same digest and can be read by itself.
   */
  lemma {:induction false} TamperedPayloadCollides(hash: Hash, a: seq<u8>, b: seq<u8>)
    requires Decode(hash, a).Some? && a != b
    requires HEADER_SIZE <= |b| && b[..HEADER_SIZE] == a[..HEADER_SIZE]
    ensures b[HEADER_SIZE..] != a[HEADER_SIZE..]
    ensures Decode(hash, b).Some? <==>
            |b| == |a| && hash(b[HEADER_SIZE..]) == hash(a[HEADER_SIZE..]) && ParsePayload(b[HEADER_SIZE..]).Some?
  {
    hide ParsePayload, TakeAll, Total;
    LayoutSizes();
    assert a == a[..HEADER_SIZE] + a[HEADER_SIZE..] && b == b[..HEADER_SIZE] + b[HEADER_SIZE..];
    SameEnvelope(a, b);
  }

  lemma {:induction false} SameEnvelope(a: seq<u8>, b: seq<u8>)
    requires HEADER_SIZE <= |a| && HEADER_SIZE <= |b| && b[..HEADER_SIZE] == a[..HEADER_SIZE] && Total(ENVELOPE) == 16
    ensures TakeAll(ENVELOPE, b) == TakeAll(ENVELOPE, a) && b[16..48] == a[16..48]
  {
    PutTake(ENVELOPE, a);
    PutTake(ENVELOPE, b);
    hide PutAll, TakeAll, Total;
    assert a[..16] == a[..HEADER_SIZE][..16] == b[..HEADER_SIZE][..16] == b[..16];
    assert a[16..48] == a[..HEADER_SIZE][16..48] == b[..HEADER_SIZE][16..48] == b[16..48];
    FrontDecides(a, b);
  }

  lemma {:induction false} FrontDecides(a: seq<u8>, b: seq<u8>)
    requires Total(ENVELOPE) == 16 && 16 <= |a| && 16 <= |b| && a[..16] == b[..16]
    ensures TakeAll(ENVELOPE, a) == TakeAll(ENVELOPE, b)
  {
    PutTake(ENVELOPE, a);
    TakePut(TakeAll(ENVELOPE, a), ENVELOPE, a[16..]);
    TakePut(TakeAll(ENVELOPE, a), ENVELOPE, b[16..]);
    hide PutAll, TakeAll, Total;
    assert a == a[..16] + a[16..] && b == a[..16] + b[16..];
  }

  // ---------- a snapshot that does not survive ----------

  /** One turn more than decode allows, each of one token. */
  const LONG_TABLE: TurnTable :=
    TurnTable(TURN_TABLE_VERSION, SOURCE_KNOWN, MAX_TURN_BOUNDARIES + 1,
              seq(MAX_TURN_BOUNDARIES + 1, i requires 0 <= i < MAX_TURN_BOUNDARIES + 1 => Boundary(i, i, i + 1)))

  const LONG_ARTIFACT: Artifact := Artifact(0, Some(LONG_TABLE), Stamp(SCORE_UNAVAILABLE, 0, false, false, 1, 1, 1, 0, 0, 0))

  const ONLY_LINEAGE: Lineage := Lineage(0, FREQUENCY_PROBATION, 1, 0, 0, 1, 1, 0, 1)

  const LONG_SNAPSHOT: Snapshot := Snapshot(SIDECAR_VERSION, [1, 0], [1, 0], [1, 0], 1, [ONLY_LINEAGE], [LONG_ARTIFACT])

  lemma {:induction false} LongArtifactValid()
    ensures ArtifactValid(LONG_ARTIFACT) && |LONG_TABLE.boundaries| == MAX_TURN_BOUNDARIES + 1
  {
    var bs := LONG_TABLE.boundaries;
    forall i | 0 <= i < |bs| ensures BoundaryValid(bs, LONG_TABLE.tokenCount, i) {
    }
  }

  lemma {:induction false} LongSnapshotValid()
    ensures SnapshotValid(LONG_SNAPSHOT) && !AllWithinBoundaryCap(LONG_SNAPSHOT.artifacts)
  {
    LongArtifactValid();
    hide ArtifactValid;
    var s := LONG_SNAPSHOT;
    assert LineageIds([ONLY_LINEAGE], 0) == LineageIds([], 0) + [1] by { assert [ONLY_LINEAGE][..0] == []; }
    assert LineageIds([ONLY_LINEAGE], 1) == LineageIds([], 1) by { assert [ONLY_LINEAGE][..0] == []; }
    assert [LONG_ARTIFACT][..0] == [];
    assert StableIds([LONG_ARTIFACT], 0) == StableIds([], 0) + [1] && StableIds([LONG_ARTIFACT], 1) == StableIds([], 1);
    assert RecencyOrdinals([LONG_ARTIFACT], 0) == RecencyOrdinals([], 0) + [1];
    assert RecencyOrdinals([LONG_ARTIFACT], 1) == RecencyOrdinals([], 1);
    assert !WithinBoundaryCap(s.artifacts[0]);
  }

  /** A valid snapshot that encodes, and whose encoding decode refuses. */
  lemma {:induction false} LongTableRefused(hash: Hash)
    ensures SnapshotValid(LONG_SNAPSHOT) && Encode(hash, LONG_SNAPSHOT).Some?
    ensures Decode(hash, Encode(hash, LONG_SNAPSHOT).value).None?
  {
    LongSnapshotValid();
    LongArtifactValid();
    hide SnapshotValid, ArtifactValid, AllWithinBoundaryCap, Encode, Decode;
    ValidHasTurns(LONG_SNAPSHOT);
    OneArtifact(LONG_SNAPSHOT, LONG_ARTIFACT);
    EncodedLength(hash, LONG_SNAPSHOT);
    DecodeEncode(hash, LONG_SNAPSHOT);
  }

  // ---------- size prediction ----------

  function ArtifactEncodedSize(a: Artifact): (r: Option<nat>)
  {
    if !ArtifactValid(a) || |a.turns.value.boundaries| > MAX_TURN_BOUNDARIES then None else
      var n := |a.turns.value.boundaries|;
      var fixed := HEADER_SIZE + SNAPSHOT_PREFIX_SIZE + LINEAGE_FIXED_SIZE + ARTIFACT_FIXED_SIZE;
      if n > (MAX_SIDECAR_BYTES - fixed) / BOUNDARY_SIZE then None else
        var size := fixed + n * BOUNDARY_SIZE;
        if size <= MAX_SIDECAR_BYTES then Some(size) else None
  }

  /** Encoding always succeeds with the length of the general formula, up to the cap. */
  lemma {:induction false} EncodedLength(hash: Hash, s: Snapshot)
    requires SnapshotValid(s) && AllHaveTurns(s.artifacts)
    ensures var n := HEADER_SIZE + SNAPSHOT_PREFIX_SIZE + |s.lineages| * LINEAGE_FIXED_SIZE + ArtifactSizes(s.artifacts);
            if n <= MAX_SIDECAR_BYTES then Encode(hash, s).Some? && |Encode(hash, s).value| == n
            else Encode(hash, s).None?
  {
    hide SnapshotValid, Payload, Envelope, ArtifactSizes, AllHaveTurns;
    PayloadLength(s);
    if |Payload(s)| <= MAX_SIDECAR_BYTES - HEADER_SIZE {
      EnvelopeOpens(hash, Payload(s));
    }
  }

  /** The predicted size of one artifact is the length encode produces for it beside one lineage. */
  lemma {:induction false} SizePredictionExact(hash: Hash, s: Snapshot, a: Artifact)
    requires SnapshotValid(s) && s.artifacts == [a] && |s.lineages| == 1 && WithinBoundaryCap(a)
    ensures Encode(hash, s).Some?
    ensures ArtifactEncodedSize(a) == Some(|Encode(hash, s).value|)
  {
    hide Encode, SnapshotValid, ArtifactSizes, ArtifactValid;
    ValidHasTurns(s);
    OneArtifact(s, a);
    EncodedLength(hash, s);
  }

  lemma {:induction false} OneArtifact(s: Snapshot, a: Artifact)
    requires SnapshotValid(s) && s.artifacts == [a] && AllHaveTurns(s.artifacts)
    ensures ArtifactValid(a)
    ensures ArtifactSizes(s.artifacts) == ARTIFACT_FIXED_SIZE + |a.turns.value.boundaries| * BOUNDARY_SIZE
  {
    assert ArtifactAnchored(s.artifacts[0], s.lineages);
    assert s.artifacts[1..] == [];
  }
}
