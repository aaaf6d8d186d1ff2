/** The codec as it runs: buffers grown field by field, a cursor that only moves forward. */
module Sidecar {
  import opened Words
  import opened Layout
  import opened Records
  import opened Codec
  import CodecTheorems
  import SnapshotCheck

  // ---------- encoding ----------

  lemma {:induction false} LineagesSnoc(ls: seq<Lineage>, l: Lineage)
    ensures LineagesBytes(ls + [l]) == LineagesBytes(ls) + LineageBytes(l)
  {
    hide LineageBytes;
    if ls == [] {
      assert ls + [l] == [l] && [l][1..] == [];
    } else {
      assert (ls + [l])[1..] == ls[1..] + [l];
      LineagesSnoc(ls[1..], l);
    }
  }

  lemma {:induction false} BoundariesSnoc(bs: seq<Boundary>, x: Boundary)
    ensures BoundariesBytes(bs + [x]) == BoundariesBytes(bs) + BoundaryBytes(x)
  {
    hide BoundaryBytes;
    if bs == [] {
      assert bs + [x] == [x] && [x][1..] == [];
    } else {
      assert (bs + [x])[1..] == bs[1..] + [x];
      BoundariesSnoc(bs[1..], x);
    }
  }

  lemma {:induction false} ArtifactsSnoc(artifacts: seq<Artifact>, a: Artifact)
    requires AllHaveTurns(artifacts) && a.turns.Some?
    ensures AllHaveTurns(artifacts + [a])
    ensures ArtifactsBytes(artifacts + [a]) == ArtifactsBytes(artifacts) + ArtifactBytes(a)
  {
    hide ArtifactBytes;
    if artifacts == [] {
      assert artifacts + [a] == [a] && [a][1..] == [];
    } else {
      assert (artifacts + [a])[1..] == artifacts[1..] + [a];
      ArtifactsSnoc(artifacts[1..], a);
    }
  }

  method PutLineages(out: seq<u8>, ls: seq<Lineage>) returns (r: seq<u8>)
    ensures r == out + LineagesBytes(ls)
  {
    r := out;
    var i := 0;
    assert LineagesBytes(ls[..0]) == [];
    hide LineagesBytes, LineageFields;
    while i < |ls|
      invariant 0 <= i <= |ls|
      invariant r == out + LineagesBytes(ls[..i])
    {
      assert ls[..i + 1] == ls[..i] + [ls[i]];
      LineagesSnoc(ls[..i], ls[i]);
      r := PutFields(r, LineageFields(ls[i]), LINEAGE);
      i := i + 1;
    }
    assert ls[..i] == ls;
  }

  method PutArtifact(out: seq<u8>, a: Artifact) returns (r: seq<u8>)
    requires a.turns.Some?
    ensures r == out + ArtifactBytes(a)
  {
    hide PutAll, Total;
    var bs := a.turns.value.boundaries;
    r := PutFields(out, ArtifactFields(a.kind, a.turns.value, a.stamp), ARTIFACT);
    ghost var head := r;
    var i := 0;
    while i < |bs|
      invariant 0 <= i <= |bs|
      invariant r == head + BoundariesBytes(bs[..i])
    {
      assert bs[..i + 1] == bs[..i] + [bs[i]];
      BoundariesSnoc(bs[..i], bs[i]);
      r := PutFields(r, BoundaryFields(bs[i]), BOUNDARY);
      i := i + 1;
    }
    assert bs[..i] == bs;
  }

  method EncodePayload(s: Snapshot) returns (payload: Option<seq<u8>>)
    ensures payload.Some? <==> AllHaveTurns(s.artifacts) && |Payload(s)| <= MAX_SIDECAR_BYTES - HEADER_SIZE
    ensures payload.Some? ==> payload.value == Payload(s)
  {
    hide PutAll, Total, PrefixFields, LineagesBytes, ArtifactBytes;
    var out := PutFields([], PrefixFieldsOf(s), PREFIX);
    out := PutLineages(out, s.lineages);
    out := PutFields(out, [|s.artifacts| % TWO32], COUNT);
    ghost var head := out;
    var i := 0;
    while i < |s.artifacts|
      invariant 0 <= i <= |s.artifacts|
      invariant AllHaveTurns(s.artifacts[..i])
      invariant out == head + ArtifactsBytes(s.artifacts[..i])
    {
      var a := s.artifacts[i];
      if a.turns.None? {
        return None;
      }
      assert s.artifacts[..i + 1] == s.artifacts[..i] + [a];
      ArtifactsSnoc(s.artifacts[..i], a);
      out := PutArtifact(out, a);
      i := i + 1;
    }
    assert s.artifacts[..i] == s.artifacts;
    assert out == Payload(s);
    payload := if |out| <= MAX_SIDECAR_BYTES - HEADER_SIZE then Some(out) else None;
  }

  function PrefixFieldsOf(s: Snapshot): (v: seq<nat>)
    ensures |v| == |PREFIX| && v == PrefixFields(s)
  {
    PrefixFields(s)
  }

  method EncodeSnapshot(hash: Hash, s: Snapshot) returns (r: Option<seq<u8>>)
    ensures r == Encode(hash, s)
  {
    hide SnapshotValid, Payload, PutAll, Total;
    var ok := SnapshotCheck.Check(s);
    if !ok {
      return None;
    }
    CodecTheorems.ValidHasTurns(s);
    var payload := EncodePayload(s);
    if payload.None? {
      return None;
    }
    var digest := hash(payload.value);
    var encoded := PutFields([], [SIDECAR_MAGIC, SIDECAR_VERSION, HEADER_SIZE + |payload.value|], ENVELOPE);
    encoded := encoded + digest;
    encoded := encoded + payload.value;
    assert encoded == Envelope(hash, payload.value);
    r := Some(encoded);
  }

  // ---------- decoding ----------

  method DecodeLineage(input: Reader, epoch: u64) returns (r: Option<Lineage>)
    requires input.Valid()
    modifies input
    ensures input.Valid()
    ensures r == ParseLineage(input.data[old(input.pos)..], epoch)
    ensures r.Some? ==> input.pos == old(input.pos) + LINEAGE_FIXED_SIZE
  {
    hide LineageValid, TakeAll, Total, LineageOf, Fits;
    LayoutSizes();
    var v := input.Fields(LINEAGE);
    if v.None? {
      return None;
    }
    PutTake(LINEAGE, input.data[old(input.pos)..]);
    var l := LineageOf(v.value);
    r := if LineageValid(l, epoch) then Some(l) else None;
  }

  /** Parsing `n` lineages of `b` amounts to `ls` followed by parsing `m` lineages of `b'`. */
  ghost predicate LineagesSoFar(b: seq<u8>, n: nat, ls: seq<Lineage>, b': seq<u8>, m: nat, epoch: u64) {
    var whole, rest := ParseLineages(b, n, epoch), ParseLineages(b', m, epoch);
    (whole.Some? <==> rest.Some?) && (whole.Some? ==> whole.value == ls + rest.value)
  }

  method DecodeLineages(input: Reader, n: nat, epoch: u64) returns (r: Option<seq<Lineage>>)
    requires input.Valid()
    modifies input
    ensures input.Valid()
    ensures r == ParseLineages(input.data[old(input.pos)..], n, epoch)
    ensures r.Some? ==> input.pos == old(input.pos) + n * LINEAGE_FIXED_SIZE
  {
    hide ParseLineage, LineageValid;
    ghost var start := input.pos;
    var ls: seq<Lineage> := [];
    var i := 0;
    while i < n
      invariant 0 <= i <= n && input.Valid()
      invariant input.pos == start + i * LINEAGE_FIXED_SIZE
      invariant LineagesSoFar(input.data[start..], n, ls, input.data[input.pos..], n - i, epoch)
    {
      ghost var b := input.data[input.pos..];
      var l := DecodeLineage(input, epoch);
      if l.None? {
        return None;
      }
      assert b[LINEAGE_FIXED_SIZE..] == input.data[input.pos..];
      ghost var rest := ParseLineages(input.data[input.pos..], n - i - 1, epoch);
      assert rest.Some? ==> ls + ([l.value] + rest.value) == (ls + [l.value]) + rest.value;
      ls := ls + [l.value];
      i := i + 1;
    }
    assert ls + [] == ls;
    r := Some(ls);
  }

  lemma {:induction false} ParseOneBoundary(b: seq<u8>, n: nat)
    requires 0 < n && n * BOUNDARY_SIZE <= |b|
    ensures Fits(TakeAll(BOUNDARY, b), BOUNDARY)
    ensures ParseBoundaries(b, n) == [BoundaryOf(TakeAll(BOUNDARY, b))] + ParseBoundaries(b[BOUNDARY_SIZE..], n - 1)
  {
    LayoutSizes();
    PutTake(BOUNDARY, b);
    hide TakeAll, Fits, BoundaryOf;
  }

  method DecodeBoundaries(input: Reader, n: nat) returns (r: Option<seq<Boundary>>)
    requires input.Valid()
    modifies input
    ensures input.Valid()
    ensures r.Some? <==> old(input.pos) + n * BOUNDARY_SIZE <= |input.data|
    ensures r.Some? ==> input.pos == old(input.pos) + n * BOUNDARY_SIZE
    ensures r.Some? ==> r.value == ParseBoundaries(input.data[old(input.pos)..], n)
  {
    hide TakeAll, Total, Fits, BoundaryOf;
    LayoutSizes();
    ghost var start := input.pos;
    var bs: seq<Boundary> := [];
    var i := 0;
    while i < n
      invariant 0 <= i <= n && input.Valid() && |bs| == i
      invariant input.pos == start + i * BOUNDARY_SIZE
      invariant start + n * BOUNDARY_SIZE <= |input.data| ==>
                ParseBoundaries(input.data[start..], n) == bs + ParseBoundaries(input.data[input.pos..], n - i)
    {
      ghost var b := input.data[input.pos..];
      var v := input.Fields(BOUNDARY);
      if v.None? {
        return None;
      }
      PutTake(BOUNDARY, b);
      if start + n * BOUNDARY_SIZE <= |input.data| { ParseOneBoundary(b, n - i); }
      assert b[BOUNDARY_SIZE..] == input.data[input.pos..];
      bs := bs + [BoundaryOf(v.value)];
      i := i + 1;
    }
    r := Some(bs);
  }

  method DecodeArtifact(input: Reader) returns (r: Option<Artifact>)
    requires input.Valid()
    modifies input
    ensures input.Valid()
    ensures var p := ParseArtifact(input.data[old(input.pos)..]);
            if p.None? then r.None? else r == Some(p.value.0) && input.pos == old(input.pos) + p.value.1
  {
    hide TakeAll, Total, Fits, ArtifactOf, ArtifactValid, ParseBoundaries;
    LayoutSizes();
    ghost var b := input.data[input.pos..];
    var v := input.Fields(ARTIFACT);
    if v.None? {
      return None;
    }
    PutTake(ARTIFACT, b);
    if !ArtifactHeadValid(v.value) {
      return None;
    }
    assert input.data[input.pos..] == b[ARTIFACT_FIXED_SIZE..];
    var bs := DecodeBoundaries(input, v.value[14]);
    if bs.None? {
      return None;
    }
    var a := ArtifactOf(v.value, bs.value);
    r := if ArtifactValid(a) then Some(a) else None;
  }

  /** Parsing `n` artifacts of `b` amounts to `done`, taking `k` bytes, followed by parsing `m` of `b'`. */
  ghost predicate ArtifactsSoFar(b: seq<u8>, n: nat, done: seq<Artifact>, k: nat, b': seq<u8>, m: nat) {
    var whole, rest := ParseArtifacts(b, n), ParseArtifacts(b', m);
    && (whole.Some? <==> rest.Some?)
    && (whole.Some? ==> whole.value.0 == done + rest.value.0 && whole.value.1 == k + rest.value.1)
  }

  lemma {:induction false} ArtifactsStart(b: seq<u8>, n: nat)
    ensures ArtifactsSoFar(b, n, [], 0, b, n)
  {
  }

  lemma {:induction false} ArtifactsEnd(b: seq<u8>, n: nat, done: seq<Artifact>, k: nat, b': seq<u8>)
    requires ArtifactsSoFar(b, n, done, k, b', 0)
    ensures ParseArtifacts(b, n) == Some((done, k))
  {
    assert done + [] == done;
  }

  lemma {:induction false} ArtifactsStep(b: seq<u8>, n: nat, done: seq<Artifact>, k: nat, b': seq<u8>, m: nat)
    requires ArtifactsSoFar(b, n, done, k, b', m) && m > 0
    ensures var p := ParseArtifact(b');
            if p.None? then ParseArtifacts(b, n).None?
            else ArtifactsSoFar(b, n, done + [p.value.0], k + p.value.1, b'[p.value.1..], m - 1)
  {
    hide ParseArtifact;
    var p := ParseArtifact(b');
    if p.Some? {
      var rest := ParseArtifacts(b'[p.value.1..], m - 1);
      assert rest.Some? ==> done + ([p.value.0] + rest.value.0) == (done + [p.value.0]) + rest.value.0;
    }
  }

  method DecodeArtifacts(input: Reader, n: nat) returns (r: Option<seq<Artifact>>)
    requires input.Valid()
    modifies input
    ensures input.Valid()
    ensures var p := ParseArtifacts(input.data[old(input.pos)..], n);
            if p.None? then r.None? else r == Some(p.value.0) && input.pos == old(input.pos) + p.value.1
  {
    hide ParseArtifact, ArtifactsSoFar, ParseArtifacts;
    ghost var start := input.pos;
    var artifacts: seq<Artifact> := [];
    ArtifactsStart(input.data[start..], n);
    var i := 0;
    while i < n
      invariant 0 <= i <= n && input.Valid() && start <= input.pos
      invariant ArtifactsSoFar(input.data[start..], n, artifacts, input.pos - start, input.data[input.pos..], n - i)
    {
      ghost var b, before := input.data[input.pos..], input.pos;
      ArtifactsStep(input.data[start..], n, artifacts, before - start, b, n - i);
      var a := DecodeArtifact(input);
      if a.None? {
        return None;
      }
      assert b[input.pos - before..] == input.data[input.pos..];
      artifacts := artifacts + [a.value];
      i := i + 1;
    }
    ArtifactsEnd(input.data[start..], n, artifacts, input.pos - start, input.data[input.pos..]);
    r := Some(artifacts);
  }

  /** What a failed decode leaves behind: nothing of what was there before. */
  const CLEARED: Snapshot := Snapshot(0, [0, 0], [0, 0], [0, 0], 0, [], [])

  method DecodePayload(payload: seq<u8>) returns (r: Option<Snapshot>)
    ensures r == ParsePayload(payload)
  {
    hide SnapshotValid, TakeAll, Total, Fits, SnapshotOf, ParseLineages, ParseArtifacts;
    LayoutSizes();
    var input := new Reader(payload);
    assert payload[0..] == payload;
    var v := input.Fields(PREFIX);
    if v.None? {
      return None;
    }
    PutTake(PREFIX, payload);
    if v.value[7] > MAX_LINEAGES {
      return None;
    }
    PrefixEpoch(v.value);
    var ls := DecodeLineages(input, v.value[7], v.value[6]);
    if ls.None? {
      return None;
    }
    ghost var tail := payload[input.pos..];
    var n := input.Fields(COUNT);
    if n.None? || n.value[0] > MAX_ARTIFACTS {
      return None;
    }
    assert tail[4..] == payload[input.pos..];
    var artifacts := DecodeArtifacts(input, n.value[0]);
    if artifacts.None? || input.pos != |payload| {
      return None;
    }
    var s := SnapshotOf(v.value, ls.value, artifacts.value);
    var ok := SnapshotCheck.Check(s);
    r := if ok then Some(s) else None;
  }

  lemma {:induction false} PrefixEpoch(v: seq<nat>)
    requires Fits(v, PREFIX)
    ensures v[6] < TWO64
  {
    Limits();
  }

  method DecodeSnapshot(hash: Hash, data: seq<u8>) returns (ok: bool, out: Snapshot)
    ensures ok <==> Decode(hash, data).Some?
    ensures ok ==> out == Decode(hash, data).value
    ensures !ok ==> out == Snapshot(0, [0, 0], [0, 0], [0, 0], 0, [], [])
  {
    hide TakeAll, Total, ParsePayload;
    out := CLEARED;
    if |data| < HEADER_SIZE || |data| > MAX_SIDECAR_BYTES {
      return false, out;
    }
    LayoutSizes();
    var header := new Reader(data);
    assert data[0..] == data;
    var v := header.Fields(ENVELOPE);
    var expected := header.Bytes(32);
    if v.None? || expected.None? || v.value != [SIDECAR_MAGIC, SIDECAR_VERSION, |data|] {
      return false, out;
    }
    if hash(data[HEADER_SIZE..]) != expected.value {
      return false, out;
    }
    var decoded := DecodePayload(data[HEADER_SIZE..]);
    if decoded.None? {
      return false, out;
    }
    return true, decoded.value;
  }
}
