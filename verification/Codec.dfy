/**
 * The checksummed binary form of a snapshot. `Encode` and `Decode` say what the
 * format is; the theorems at the end say that they are inverse to each other.
 */
module Codec {
  import opened Words
  import opened Layout
  import opened Records

  const SIDECAR_MAGIC: u32 := 0x44533352
  const HEADER_SIZE: nat := 48
  const SNAPSHOT_PREFIX_SIZE: nat := 64
  const LINEAGE_FIXED_SIZE: nat := 54
  const ARTIFACT_FIXED_SIZE: nat := 70
  const BOUNDARY_SIZE: nat := 24
  const MAX_SIDECAR_BYTES: nat := 64 * 1024 * 1024

  /** A SHA-256 digest; the hash itself is a parameter of the codec. */
  type Digest = d: seq<u8> | |d| == 32 witness seq(32, _ => 0)
  type Hash = seq<u8> -> Digest

  // ---------- layouts ----------

  const ENVELOPE: seq<nat> := [4, 4, 8]
  const PREFIX: seq<nat> := [8, 8, 8, 8, 8, 8, 8, 4]
  const LINEAGE: seq<nat> := [1, 1, 8, 8, 8, 8, 8, 8, 4]
  const ARTIFACT: seq<nat> := [1, 1, 1, 1, 1, 1, 4, 8, 8, 8, 8, 8, 8, 8, 4]
  const BOUNDARY: seq<nat> := [8, 8, 8]
  const COUNT: seq<nat> := [4]

  lemma {:induction false} LayoutSizes()
    ensures Total(ENVELOPE) == 16
    ensures Total(PREFIX) == 60
    ensures Total(LINEAGE) == LINEAGE_FIXED_SIZE
    ensures Total(ARTIFACT) == ARTIFACT_FIXED_SIZE
    ensures Total(BOUNDARY) == BOUNDARY_SIZE
    ensures Total(COUNT) == 4
  {
    assert Total([8, 8, 8]) == 24;
    assert Total([8, 8, 8, 8, 4]) == 36;
    assert Total(PREFIX) == 60;
    assert Total([8, 8, 8, 8, 8, 8, 4]) == 52;
    assert Total(LINEAGE) == 54;
    assert Total([4, 8, 8, 8, 8, 8, 8, 8, 4]) == 64;
    assert Total(ARTIFACT) == 70;
  }

  function Flag(b: bool): u8 { if b then 1 else 0 }

  function LineageFields(l: Lineage): seq<nat> {
    [l.pool, l.state, l.lineageId, l.reuseHits, l.frequencyQ, l.admissionEpoch,
     l.frequencyEpoch, l.lastCreditEpoch, l.priorMilli]
  }

  function BoundaryFields(b: Boundary): seq<nat> { [b.ordinal, b.tokenPos, b.tokenEnd] }

  function ArtifactFields(kind: u8, t: TurnTable, s: Stamp): seq<nat> {
    [kind, t.source, s.state, s.pool, Flag(s.softLeased), Flag(s.mandatoryAnchor), t.version, t.tokenCount,
     s.stableId, s.lineageId, s.recencyOrdinal, s.mappedTurnOrdinal, s.anchorRank, s.coverageTokens,
     |t.boundaries| % TWO32]
  }

  function PrefixFields(s: Snapshot): seq<nat> {
    [s.recencyHighWater[0], s.recencyHighWater[1], s.stableHighWater[0], s.stableHighWater[1],
     s.lineageHighWater[0], s.lineageHighWater[1], s.competitionEpoch, |s.lineages| % TWO32]
  }

  // ---------- encoding ----------

  function LineageBytes(l: Lineage): seq<u8> { PutAll(LineageFields(l), LINEAGE) }

  function LineagesBytes(ls: seq<Lineage>): seq<u8> {
    if ls == [] then [] else LineageBytes(ls[0]) + LineagesBytes(ls[1..])
  }

  function BoundaryBytes(b: Boundary): seq<u8> { PutAll(BoundaryFields(b), BOUNDARY) }

  function BoundariesBytes(bs: seq<Boundary>): seq<u8> {
    if bs == [] then [] else BoundaryBytes(bs[0]) + BoundariesBytes(bs[1..])
  }

  function ArtifactBytes(a: Artifact): seq<u8>
    requires a.turns.Some?
  {
    PutAll(ArtifactFields(a.kind, a.turns.value, a.stamp), ARTIFACT) + BoundariesBytes(a.turns.value.boundaries)
  }

  predicate AllHaveTurns(artifacts: seq<Artifact>) {
    forall i :: 0 <= i < |artifacts| ==> artifacts[i].turns.Some?
  }

  function ArtifactsBytes(artifacts: seq<Artifact>): seq<u8>
    requires AllHaveTurns(artifacts)
  {
    if artifacts == [] then [] else ArtifactBytes(artifacts[0]) + ArtifactsBytes(artifacts[1..])
  }

  function Payload(s: Snapshot): seq<u8>
    requires AllHaveTurns(s.artifacts)
  {
    PutAll(PrefixFields(s), PREFIX) +
    (LineagesBytes(s.lineages) + (PutAll([|s.artifacts| % TWO32], COUNT) + ArtifactsBytes(s.artifacts)))
  }

  function Envelope(hash: Hash, payload: seq<u8>): seq<u8>
    requires HEADER_SIZE + |payload| < TWO64
  {
    PutAll([SIDECAR_MAGIC, SIDECAR_VERSION, HEADER_SIZE + |payload|], ENVELOPE) + (hash(payload) + payload)
  }

  function Encode(hash: Hash, s: Snapshot): Option<seq<u8>> {
    if !SnapshotValid(s) then None
    else
      assert AllHaveTurns(s.artifacts) by {
        assert forall i :: 0 <= i < |s.artifacts| ==> ArtifactAnchored(s.artifacts[i], s.lineages);
      }
      var payload := Payload(s);
      if |payload| <= MAX_SIDECAR_BYTES - HEADER_SIZE then Some(Envelope(hash, payload)) else None
  }

  // ---------- decoding ----------

  function LineageOf(v: seq<nat>): Lineage
    requires Fits(v, LINEAGE)
  {
    hide Limit;
    Limits();
    Lineage(v[0], v[1], v[2], v[3], v[4], v[5], v[6], v[7], v[8])
  }

  /** The lineage at the front of `b`, if there is a valid one. */
  function ParseLineage(b: seq<u8>, epoch: u64): (r: Option<Lineage>)
    ensures r.Some? ==> |b| >= LINEAGE_FIXED_SIZE && LineageValid(r.value, epoch)
  {
    LayoutSizes();
    if |b| < LINEAGE_FIXED_SIZE then None else
      PutTake(LINEAGE, b);
      var l := LineageOf(TakeAll(LINEAGE, b));
      if LineageValid(l, epoch) then Some(l) else None
  }

  function ParseLineages(b: seq<u8>, n: nat, epoch: u64): (r: Option<seq<Lineage>>)
    ensures r.Some? ==> |r.value| == n && n * LINEAGE_FIXED_SIZE <= |b|
  {
    hide ParseLineage;
    hide LineageValid;
    if n == 0 then Some([]) else
      var l := ParseLineage(b, epoch);
      if l.None? then None else
        var rest := ParseLineages(b[LINEAGE_FIXED_SIZE..], n - 1, epoch);
        if rest.None? then None else Some([l.value] + rest.value)
  }

  function BoundaryOf(v: seq<nat>): Boundary
    requires Fits(v, BOUNDARY)
  {
    Limits();
    Boundary(v[0], v[1], v[2])
  }

  function ParseBoundary(b: seq<u8>): Boundary
    requires BOUNDARY_SIZE <= |b|
  {
    LayoutSizes();
    PutTake(BOUNDARY, b);
    BoundaryOf(TakeAll(BOUNDARY, b))
  }

  function ParseBoundaries(b: seq<u8>, n: nat): (bs: seq<Boundary>)
    requires n * BOUNDARY_SIZE <= |b|
    ensures |bs| == n
  {
    if n == 0 then [] else [ParseBoundary(b)] + ParseBoundaries(b[BOUNDARY_SIZE..], n - 1)
  }

  /** Every enumeration byte and flag is in range and the boundary count is allowed. */
  predicate ArtifactHeadValid(v: seq<nat>)
    requires |v| == |ARTIFACT|
  {
    && v[0] < KIND_COUNT && v[1] < SOURCE_COUNT && v[2] < SCORE_COUNT && v[3] < POOL_COUNT
    && v[4] <= 1 && v[5] <= 1
    && v[14] <= MAX_TURN_BOUNDARIES
  }

  lemma {:induction false} ArtifactFieldBounds(v: seq<nat>)
    requires Fits(v, ARTIFACT)
    ensures |v| == 15
    ensures v[0] < 0x100 && v[1] < 0x100 && v[2] < 0x100 && v[3] < 0x100 && v[4] < 0x100 && v[5] < 0x100
    ensures v[6] < TWO32 && v[14] < TWO32
    ensures v[7] < TWO64 && v[8] < TWO64 && v[9] < TWO64 && v[10] < TWO64
    ensures v[11] < TWO64 && v[12] < TWO64 && v[13] < TWO64
  {
    Limits();
    hide Limit;
  }

  function ArtifactOf(v: seq<nat>, bs: seq<Boundary>): Artifact
    requires Fits(v, ARTIFACT)
  {
    ArtifactFieldBounds(v);
    Artifact(v[0], Some(TurnTable(v[6], v[1], v[7], bs)),
             Stamp(v[2], v[3], v[4] != 0, v[5] != 0, v[8], v[9], v[10], v[11], v[12], v[13]))
  }

  function ParseHead(b: seq<u8>): (v: seq<nat>)
    requires ARTIFACT_FIXED_SIZE <= |b|
    ensures Fits(v, ARTIFACT)
  {
    LayoutSizes();
    PutTake(ARTIFACT, b);
    TakeAll(ARTIFACT, b)
  }

  /** The artifact at the front of `b`, if there is a valid one, and the bytes it takes. */
  function ParseArtifact(b: seq<u8>): (r: Option<(Artifact, nat)>)
    ensures r.Some? ==> ARTIFACT_FIXED_SIZE <= r.value.1 <= |b| && ArtifactValid(r.value.0)
  {
    hide ParseHead;
    hide ArtifactOf;
    hide ArtifactValid;
    if |b| < ARTIFACT_FIXED_SIZE then None else
      var v := ParseHead(b);
      if !ArtifactHeadValid(v) then None else
        var rest := b[ARTIFACT_FIXED_SIZE..];
        if |rest| < v[14] * BOUNDARY_SIZE then None else
          var a := ArtifactOf(v, ParseBoundaries(rest, v[14]));
          if ArtifactValid(a) then Some((a, ARTIFACT_FIXED_SIZE + v[14] * BOUNDARY_SIZE)) else None
  }

  function ParseArtifacts(b: seq<u8>, n: nat): (r: Option<(seq<Artifact>, nat)>)
    ensures r.Some? ==> |r.value.0| == n && r.value.1 <= |b|
  {
    if n == 0 then Some(([], 0)) else
      var first := ParseArtifact(b);
      if first.None? then None else
        var rest := ParseArtifacts(b[first.value.1..], n - 1);
        if rest.None? then None else Some(([first.value.0] + rest.value.0, first.value.1 + rest.value.1))
  }

  function SnapshotOf(v: seq<nat>, ls: seq<Lineage>, artifacts: seq<Artifact>): Snapshot
    requires Fits(v, PREFIX)
  {
    hide Limit;
    Limits();
    Snapshot(SIDECAR_VERSION, [v[0], v[1]], [v[2], v[3]], [v[4], v[5]], v[6], ls, artifacts)
  }

  function ParseTail(v: seq<nat>, ls: seq<Lineage>, b: seq<u8>): Option<Snapshot>
    requires Fits(v, PREFIX)
  {
    LayoutSizes();
    if |b| < 4 then None else
      var n := TakeAll(COUNT, b)[0];
      if n > MAX_ARTIFACTS then None else
        var artifacts := ParseArtifacts(b[4..], n);
        if artifacts.None? || artifacts.value.1 != |b| - 4 then None else
          var s := SnapshotOf(v, ls, artifacts.value.0);
          if SnapshotValid(s) then Some(s) else None
  }

  function ParsePayload(b: seq<u8>): Option<Snapshot> {
    LayoutSizes();
    if |b| < 60 then None else
      PutTake(PREFIX, b);
      Limits();
      var v := TakeAll(PREFIX, b);
      if v[7] > MAX_LINEAGES then None else
        var ls := ParseLineages(b[60..], v[7], v[6]);
        if ls.None? then None else
          ParseTail(v, ls.value, b[60 + v[7] * LINEAGE_FIXED_SIZE..])
  }

  function Decode(hash: Hash, b: seq<u8>): Option<Snapshot> {
    if !(HEADER_SIZE <= |b| <= MAX_SIDECAR_BYTES) then None else
      LayoutSizes();
      var v := TakeAll(ENVELOPE, b);
      var payload := b[HEADER_SIZE..];
      if v != [SIDECAR_MAGIC, SIDECAR_VERSION, |b|] || hash(payload) != b[16..48] then None
      else ParsePayload(payload)
  }

  // ---------- lineages ----------

  lemma {:induction false} LineageFieldsFit(l: Lineage)
    ensures Fits(LineageFields(l), LINEAGE)
    ensures LineageOf(LineageFields(l)) == l
  {
    Limits();
  }

  lemma {:induction false} LineageFieldsOf(v: seq<nat>)
    requires Fits(v, LINEAGE)
    ensures LineageFields(LineageOf(v)) == v
  {
  }

  lemma {:induction false} ParseLineageBytes(l: Lineage, rest: seq<u8>, epoch: u64)
    ensures |LineageBytes(l)| == LINEAGE_FIXED_SIZE
    ensures ParseLineage(LineageBytes(l) + rest, epoch) == if LineageValid(l, epoch) then Some(l) else None
  {
    LayoutSizes();
    LineageFieldsFit(l);
    TakePut(LineageFields(l), LINEAGE, rest);
  }

  lemma {:induction false} LineageBytesParsed(b: seq<u8>, epoch: u64)
    requires ParseLineage(b, epoch).Some?
    ensures |b| >= LINEAGE_FIXED_SIZE
    ensures LineageBytes(ParseLineage(b, epoch).value) == b[..LINEAGE_FIXED_SIZE]
    ensures LineageValid(ParseLineage(b, epoch).value, epoch)
  {
    LayoutSizes();
    PutTake(LINEAGE, b);
    LineageFieldsOf(TakeAll(LINEAGE, b));
  }

  lemma {:induction false} LineagesLength(ls: seq<Lineage>)
    ensures |LineagesBytes(ls)| == |ls| * LINEAGE_FIXED_SIZE
  {
    if ls != [] {
      ParseLineageBytes(ls[0], [], 1);
      LineagesLength(ls[1..]);
    }
  }

  lemma {:induction false} ParseLineagesBytes(ls: seq<Lineage>, rest: seq<u8>, epoch: u64)
    requires forall i :: 0 <= i < |ls| ==> LineageValid(ls[i], epoch)
    ensures ParseLineages(LineagesBytes(ls) + rest, |ls|, epoch) == Some(ls)
  {
    hide ParseLineage, LineageBytes, LineageValid;
    if ls != [] {
      var tail := LineagesBytes(ls[1..]) + rest;
      var b := LineagesBytes(ls) + rest;
      assert b == LineageBytes(ls[0]) + tail;
      ParseLineageBytes(ls[0], tail, epoch);
      assert b[LINEAGE_FIXED_SIZE..] == tail;
      ParseLineagesBytes(ls[1..], rest, epoch);
      assert [ls[0]] + ls[1..] == ls;
    }
  }

  lemma {:induction false} LineagesBytesParsed(b: seq<u8>, n: nat, epoch: u64)
    requires ParseLineages(b, n, epoch).Some?
    ensures LineagesBytes(ParseLineages(b, n, epoch).value) == b[..n * LINEAGE_FIXED_SIZE]
  {
    hide ParseLineage, LineageBytes, LineageValid;
    if n > 0 {
      LineageBytesParsed(b, epoch);
      var b' := b[LINEAGE_FIXED_SIZE..];
      LineagesBytesParsed(b', n - 1, epoch);
      var ls := ParseLineages(b, n, epoch).value;
      assert ls[1..] == ParseLineages(b', n - 1, epoch).value;
      assert b[..LINEAGE_FIXED_SIZE] + b'[..(n - 1) * LINEAGE_FIXED_SIZE] == b[..n * LINEAGE_FIXED_SIZE];
    }
  }

  // ---------- boundaries ----------

  lemma {:induction false} BoundariesLength(bs: seq<Boundary>)
    ensures |BoundariesBytes(bs)| == |bs| * BOUNDARY_SIZE
  {
    LayoutSizes();
    if bs != [] { BoundariesLength(bs[1..]); }
  }

  lemma {:induction false} ParseBoundaryBytes(x: Boundary, rest: seq<u8>)
    ensures |BoundaryBytes(x)| == BOUNDARY_SIZE
    ensures ParseBoundary(BoundaryBytes(x) + rest) == x
  {
    hide Limit, TakeAll, PutAll, Total;
    LayoutSizes();
    Limits();
    TakePut(BoundaryFields(x), BOUNDARY, rest);
  }

  lemma {:induction false} BoundaryBytesParsed(b: seq<u8>)
    requires BOUNDARY_SIZE <= |b|
    ensures BoundaryBytes(ParseBoundary(b)) == b[..BOUNDARY_SIZE]
  {
    hide Limit, Total, TakeAll;
    LayoutSizes();
    PutTake(BOUNDARY, b);
    assert BoundaryFields(ParseBoundary(b)) == TakeAll(BOUNDARY, b);
  }

  lemma {:induction false} ParseBoundariesBytes(bs: seq<Boundary>, rest: seq<u8>)
    ensures |bs| * BOUNDARY_SIZE <= |BoundariesBytes(bs) + rest|
    ensures ParseBoundaries(BoundariesBytes(bs) + rest, |bs|) == bs
  {
    hide ParseBoundary, BoundaryBytes;
    BoundariesLength(bs);
    if bs != [] {
      var tail := BoundariesBytes(bs[1..]) + rest;
      var b := BoundariesBytes(bs) + rest;
      assert b == BoundaryBytes(bs[0]) + tail;
      ParseBoundaryBytes(bs[0], tail);
      assert b[BOUNDARY_SIZE..] == tail;
      ParseBoundariesBytes(bs[1..], rest);
      assert [bs[0]] + bs[1..] == bs;
    }
  }

  lemma {:induction false} BoundariesBytesParsed(b: seq<u8>, n: nat)
    requires n * BOUNDARY_SIZE <= |b|
    ensures BoundariesBytes(ParseBoundaries(b, n)) == b[..n * BOUNDARY_SIZE]
  {
    hide ParseBoundary, BoundaryBytes;
    if n > 0 {
      BoundaryBytesParsed(b);
      var b' := b[BOUNDARY_SIZE..];
      BoundariesBytesParsed(b', n - 1);
      var bs := ParseBoundaries(b, n);
      assert bs[1..] == ParseBoundaries(b', n - 1);
      assert b[..BOUNDARY_SIZE] + b'[..(n - 1) * BOUNDARY_SIZE] == b[..n * BOUNDARY_SIZE];
    }
  }

  // ---------- artifacts ----------

  /** decode refuses an artifact with more boundaries than this; valid() does not. */
  predicate WithinBoundaryCap(a: Artifact) {
    a.turns.Some? && |a.turns.value.boundaries| <= MAX_TURN_BOUNDARIES
  }

  lemma {:induction false} ArtifactLength(a: Artifact)
    requires a.turns.Some?
    ensures |ArtifactBytes(a)| == ARTIFACT_FIXED_SIZE + |a.turns.value.boundaries| * BOUNDARY_SIZE
  {
    LayoutSizes();
    BoundariesLength(a.turns.value.boundaries);
  }

  lemma {:induction false} ArtifactFieldsFit(a: Artifact)
    requires a.turns.Some?
    ensures Fits(ArtifactFields(a.kind, a.turns.value, a.stamp), ARTIFACT)
    ensures ArtifactOf(ArtifactFields(a.kind, a.turns.value, a.stamp), a.turns.value.boundaries) == a
  {
    Limits();
  }

  lemma {:induction false} ArtifactFieldsOf(v: seq<nat>, bs: seq<Boundary>)
    requires Fits(v, ARTIFACT) && ArtifactHeadValid(v) && |bs| == v[14]
    ensures var a := ArtifactOf(v, bs);
            a.turns.Some? && a.turns.value.boundaries == bs && WithinBoundaryCap(a) &&
            ArtifactFields(a.kind, a.turns.value, a.stamp) == v
  {
    hide Fits, Limit;
    ArtifactFieldBounds(v);
    assert v == [v[0], v[1], v[2], v[3], v[4], v[5], v[6], v[7], v[8], v[9], v[10], v[11], v[12], v[13], v[14]];
  }

  lemma {:induction false} HeadOfBytes(a: Artifact, rest: seq<u8>)
    requires a.turns.Some?
    ensures |ArtifactBytes(a) + rest| >= ARTIFACT_FIXED_SIZE
    ensures ParseHead(ArtifactBytes(a) + rest) == ArtifactFields(a.kind, a.turns.value, a.stamp)
    ensures (ArtifactBytes(a) + rest)[ARTIFACT_FIXED_SIZE..] == BoundariesBytes(a.turns.value.boundaries) + rest
  {
    hide ArtifactFields, Fits, PutAll, TakeAll, Total, BoundariesBytes;
    var v, tail := ArtifactFields(a.kind, a.turns.value, a.stamp), BoundariesBytes(a.turns.value.boundaries) + rest;
    LayoutSizes();
    ArtifactFieldsFit(a);
    assert ArtifactBytes(a) + rest == PutAll(v, ARTIFACT) + tail;
    TakePut(v, ARTIFACT, tail);
  }

  /** The only check of the head that a valid artifact can fail is the boundary cap. */
  lemma {:induction false} HeadCheck(a: Artifact)
    requires ArtifactValid(a) && |a.turns.value.boundaries| < TWO32
    ensures var v := ArtifactFields(a.kind, a.turns.value, a.stamp);
            |v| == |ARTIFACT| && v[14] == |a.turns.value.boundaries| && (ArtifactHeadValid(v) <==> WithinBoundaryCap(a))
  {
  }

  lemma {:induction false} ParseArtifactBytes(a: Artifact, rest: seq<u8>)
    requires ArtifactValid(a) && a.turns.Some? && |a.turns.value.boundaries| < TWO32
    ensures ParseArtifact(ArtifactBytes(a) + rest) ==
            if WithinBoundaryCap(a) then Some((a, |ArtifactBytes(a)|)) else None
  {
    hide ParseHead, ArtifactFields, ArtifactOf, ArtifactHeadValid, ArtifactValid, ArtifactBytes, Fits;
    HeadOfBytes(a, rest);
    HeadCheck(a);
    ArtifactFieldsFit(a);
    ParseBoundariesBytes(a.turns.value.boundaries, rest);
    ArtifactLength(a);
  }

  lemma {:induction false} ArtifactBytesParsed(b: seq<u8>)
    requires ParseArtifact(b).Some?
    ensures var (a, n) := ParseArtifact(b).value;
            ArtifactValid(a) && WithinBoundaryCap(a) && ArtifactBytes(a) == b[..n]
  {
    hide ArtifactFields, ArtifactHeadValid, ArtifactValid, ArtifactOf, Fits, WithinBoundaryCap, PutAll, TakeAll, Total, BoundariesBytes, ParseBoundaries;
    var v, rest := ParseHead(b), b[ARTIFACT_FIXED_SIZE..];
    var bs := ParseBoundaries(rest, v[14]);
    LayoutSizes();
    PutTake(ARTIFACT, b);
    BoundariesBytesParsed(rest, v[14]);
    ArtifactFieldsOf(v, bs);
    assert b[..ARTIFACT_FIXED_SIZE] + rest[..v[14] * BOUNDARY_SIZE] == b[..ParseArtifact(b).value.1];
  }

  predicate ArtifactsEncodable(artifacts: seq<Artifact>) {
    forall i :: 0 <= i < |artifacts| ==>
      ArtifactValid(artifacts[i]) && artifacts[i].turns.Some? && |artifacts[i].turns.value.boundaries| < TWO32
  }

  predicate AllWithinBoundaryCap(artifacts: seq<Artifact>) {
    forall i :: 0 <= i < |artifacts| ==> WithinBoundaryCap(artifacts[i])
  }

  lemma {:induction false} ParseArtifactsBytes(artifacts: seq<Artifact>, rest: seq<u8>)
    requires ArtifactsEncodable(artifacts)
    ensures AllHaveTurns(artifacts)
    ensures ParseArtifacts(ArtifactsBytes(artifacts) + rest, |artifacts|) ==
            if AllWithinBoundaryCap(artifacts) then Some((artifacts, |ArtifactsBytes(artifacts)|)) else None
  {
    hide ParseArtifact, ArtifactBytes, ArtifactValid;
    if artifacts != [] {
      var a, tail := artifacts[0], ArtifactsBytes(artifacts[1..]) + rest;
      var b := ArtifactsBytes(artifacts) + rest;
      assert b == ArtifactBytes(a) + tail;
      ParseArtifactBytes(a, tail);
      ParseArtifactsBytes(artifacts[1..], rest);
      assert b[|ArtifactBytes(a)|..] == tail;
      assert artifacts == [a] + artifacts[1..];
      assert AllWithinBoundaryCap(artifacts) <==> WithinBoundaryCap(a) && AllWithinBoundaryCap(artifacts[1..]);
    }
  }

  lemma {:induction false} ArtifactsBytesParsed(b: seq<u8>, n: nat)
    requires ParseArtifacts(b, n).Some?
    ensures var (artifacts, k) := ParseArtifacts(b, n).value;
            ArtifactsEncodable(artifacts) && AllWithinBoundaryCap(artifacts) &&
            AllHaveTurns(artifacts) && ArtifactsBytes(artifacts) == b[..k]
  {
    hide ParseArtifact, ArtifactBytes, ArtifactValid;
    if n > 0 {
      ArtifactBytesParsed(b);
      var (a, k0) := ParseArtifact(b).value;
      ArtifactsBytesParsed(b[k0..], n - 1);
      var (artifacts, k) := ParseArtifacts(b, n).value;
      var (rest, k1) := ParseArtifacts(b[k0..], n - 1).value;
      assert artifacts[1..] == rest;
      assert b[..k0] + b[k0..][..k1] == b[..k];
    }
  }
}
