/**
 * Packing three-bit indices into bytes: the turbo4 bit string, and the turbo3 planes
 * of low and high bits.
 *
 * What bytes hold is said bit by bit, lowest first; packers that OR fields into
 * cleared bytes and unpackers that shift and mask are measured against it.
 */
module Packing {

  function BitOf(x: bv8, k: nat): bool
    requires k < 8
  {
    match k
    case 0 => x & 1 != 0
    case 1 => x & 2 != 0
    case 2 => x & 4 != 0
    case 3 => x & 8 != 0
    case 4 => x & 16 != 0
    case 5 => x & 32 != 0
    case 6 => x & 64 != 0
    case _ => x & 128 != 0
  }

  lemma {:induction false} OrShifted(q: bv8, v: bv8, p: nat, k: nat)
    requires p < 8 && k < 8
    ensures BitOf(q | ((v & 7) << p), k) <==> BitOf(q, k) || (p <= k < p + 3 && BitOf(v, k - p))
  {
    if p < 4 { OrShiftedLow(q, v, p, k); } else if p == 4 {} else if p == 5 {} else if p == 6 {} else {}
  }

  lemma {:induction false} OrShiftedLow(q: bv8, v: bv8, p: nat, k: nat)
    requires p < 4 && k < 8
    ensures BitOf(q | ((v & 7) << p), k) <==> BitOf(q, k) || (p <= k < p + 3 && BitOf(v, k - p))
  {
    if p == 0 {} else if p == 1 {} else if p == 2 {} else {}
  }

  lemma {:induction false} OrCarried(q: bv8, v: bv8, p: nat, k: nat)
    requires 5 < p < 8 && k < 8
    ensures BitOf(q | ((v & 7) >> (8 - p)), k) <==> BitOf(q, k) || (k < p - 5 && BitOf(v, k + 8 - p))
  {
    if p == 6 {} else {}
  }

  lemma {:induction false} OrLow(q: bv8, v: bv8, p: nat, k: nat)
    requires p in {0, 2, 4, 6} && k < 8
    ensures BitOf(q | ((v & 3) << p), k) <==> BitOf(q, k) || (p <= k < p + 2 && BitOf(v, k - p))
  {
    if p == 0 {} else if p == 2 {} else if p == 4 {} else {}
  }

  lemma {:induction false} OrFlag(q: bv8, p: nat, k: nat)
    requires p < 8 && k < 8
    ensures BitOf(q | (1 << p), k) <==> BitOf(q, k) || k == p
  {
    if p == 0 {} else if p == 1 {} else if p == 2 {} else if p == 3 {} else if p == 4 {} else if p == 5 {} else if p == 6 {} else {}
  }

  // ---------- bytes as a bit string ----------

  predicate HoldsBit(q: bv8, from: nat, bits: seq<bool>, k: nat)
    requires k < 8
  {
    BitOf(q, k) <==> from + k < |bits| && bits[from + k]
  }

  /** The byte q holds the bits from position `from` on, and zeros past their end. */
  predicate HoldsByte(q: bv8, from: nat, bits: seq<bool>) {
    forall k :: 0 <= k < 8 ==> HoldsBit(q, from, bits, k)
  }

  /** The bytes, lowest bit first, spell the bit string and are zero past its end. */
  predicate Holds(bytes: seq<bv8>, bits: seq<bool>) {
    && |bits| <= 8 * |bytes|
    && forall b :: 0 <= b < |bytes| ==> HoldsByte(bytes[b], 8 * b, bits)
  }

  /** A bit string determines the bytes that hold it. */
  lemma {:induction false} BytesDetermined(x: seq<bv8>, y: seq<bv8>, bits: seq<bool>)
    requires Holds(x, bits) && Holds(y, bits) && |x| == |y|
    ensures x == y
  {
    forall b | 0 <= b < |x| ensures x[b] == y[b] {
      assert HoldsByte(x[b], 8 * b, bits) && HoldsByte(y[b], 8 * b, bits);
      forall k | 0 <= k < 8 ensures BitOf(x[b], k) <==> BitOf(y[b], k) {
        assert HoldsBit(x[b], 8 * b, bits, k) && HoldsBit(y[b], 8 * b, bits, k);
      }
      SameBits(x[b], y[b]);
    }
  }

  lemma {:induction false} SameBits(x: bv8, y: bv8)
    requires forall k :: 0 <= k < 8 ==> (BitOf(x, k) <==> BitOf(y, k))
    ensures x == y
  {
    assert BitOf(x, 0) <==> BitOf(y, 0);
    assert BitOf(x, 1) <==> BitOf(y, 1);
    assert BitOf(x, 2) <==> BitOf(y, 2);
    assert BitOf(x, 3) <==> BitOf(y, 3);
    assert BitOf(x, 4) <==> BitOf(y, 4);
    assert BitOf(x, 5) <==> BitOf(y, 5);
    assert BitOf(x, 6) <==> BitOf(y, 6);
    assert BitOf(x, 7) <==> BitOf(y, 7);
  }

  /** All three bits of each index, one after another. */
  function ThreeBits(indices: seq<bv8>): (bits: seq<bool>)
    ensures |bits| == 3 * |indices|
  {
    if indices == [] then []
    else
      var v := indices[|indices| - 1];
      ThreeBits(indices[..|indices| - 1]) + [BitOf(v, 0), BitOf(v, 1), BitOf(v, 2)]
  }

  /** The two low bits of each index. */
  function LowBits(indices: seq<bv8>): (bits: seq<bool>)
    ensures |bits| == 2 * |indices|
  {
    if indices == [] then []
    else
      var v := indices[|indices| - 1];
      LowBits(indices[..|indices| - 1]) + [BitOf(v, 0), BitOf(v, 1)]
  }

  /** The high bit of each index. */
  function HighBits(indices: seq<bv8>): seq<bool> {
    seq(|indices|, j requires 0 <= j < |indices| => BitOf(indices[j], 2))
  }

  lemma {:induction false} ThreeBitsAt(indices: seq<bv8>, j: nat)
    requires j < |indices|
    ensures var bits := ThreeBits(indices);
            forall t :: 0 <= t < 3 ==> (bits[3 * j + t] <==> BitOf(indices[j], t))
  {
    if j < |indices| - 1 { ThreeBitsAt(indices[..|indices| - 1], j); }
  }

  lemma {:induction false} LowBitsAt(indices: seq<bv8>, j: nat)
    requires j < |indices|
    ensures var bits := LowBits(indices);
            forall t :: 0 <= t < 2 ==> (bits[2 * j + t] <==> BitOf(indices[j], t))
  {
    if j < |indices| - 1 { LowBitsAt(indices[..|indices| - 1], j); }
  }

  lemma {:induction false} Prefix(indices: seq<bv8>, j: nat)
    requires j < |indices|
    ensures ThreeBits(indices[..j + 1]) == ThreeBits(indices[..j]) + [BitOf(indices[j], 0), BitOf(indices[j], 1), BitOf(indices[j], 2)]
    ensures LowBits(indices[..j + 1]) == LowBits(indices[..j]) + [BitOf(indices[j], 0), BitOf(indices[j], 1)]
  {
    assert indices[..j + 1][..j] == indices[..j];
  }

  // ---------- writing ----------

  /** Bits past the end of the string are zero, so a byte beyond the new end still holds it. */
  lemma {:induction false} Untouched(q: bv8, from: nat, bits: seq<bool>, more: seq<bool>)
    requires HoldsByte(q, from, bits)
    requires from + 8 <= |bits| || |bits| + |more| <= from
    ensures HoldsByte(q, from, bits + more)
  {
    forall k | 0 <= k < 8 ensures HoldsBit(q, from, bits + more, k) {
      assert HoldsBit(q, from, bits, k);
    }
  }

  /** OR-ing the low three bits of v in at the end of the string. */
  lemma {:induction false} WriteThree(q: bv8, v: bv8, from: nat, bits: seq<bool>, p: nat)
    requires p < 8 && |bits| == from + p && HoldsByte(q, from, bits)
    ensures HoldsByte(q | ((v & 7) << p), from, bits + [BitOf(v, 0), BitOf(v, 1), BitOf(v, 2)])
  {
    var q', bits' := q | ((v & 7) << p), bits + [BitOf(v, 0), BitOf(v, 1), BitOf(v, 2)];
    forall k | 0 <= k < 8
      ensures HoldsBit(q', from, bits', k)
    {
      OrShifted(q, v, p, k);
      assert HoldsBit(q, from, bits, k);
    }
  }

  /** The rest of an index that runs over into the next byte. */
  lemma {:induction false} WriteCarried(q: bv8, v: bv8, from: nat, bits: seq<bool>, p: nat)
    requires 5 < p < 8 && |bits| + 8 == from + p && HoldsByte(q, from, bits)
    ensures HoldsByte(q | ((v & 7) >> (8 - p)), from, bits + [BitOf(v, 0), BitOf(v, 1), BitOf(v, 2)])
  {
    var q', bits' := q | ((v & 7) >> (8 - p)), bits + [BitOf(v, 0), BitOf(v, 1), BitOf(v, 2)];
    forall k | 0 <= k < 8
      ensures HoldsBit(q', from, bits', k)
    {
      OrCarried(q, v, p, k);
      assert HoldsBit(q, from, bits, k);
    }
  }

  lemma {:induction false} WriteLow(q: bv8, v: bv8, from: nat, bits: seq<bool>, p: nat)
    requires p in {0, 2, 4, 6} && |bits| == from + p && HoldsByte(q, from, bits)
    ensures HoldsByte(q | ((v & 3) << p), from, bits + [BitOf(v, 0), BitOf(v, 1)])
  {
    var q', bits' := q | ((v & 3) << p), bits + [BitOf(v, 0), BitOf(v, 1)];
    forall k | 0 <= k < 8
      ensures HoldsBit(q', from, bits', k)
    {
      OrLow(q, v, p, k);
      assert HoldsBit(q, from, bits, k);
    }
  }

  lemma {:induction false} WriteFlag(q: bv8, flag: bool, from: nat, bits: seq<bool>, p: nat)
    requires p < 8 && |bits| == from + p && HoldsByte(q, from, bits)
    ensures HoldsByte(if flag then q | (1 << p) else q, from, bits + [flag])
  {
    var q', bits' := (if flag then q | (1 << p) else q), bits + [flag];
    forall k | 0 <= k < 8
      ensures HoldsBit(q', from, bits', k)
    {
      OrFlag(q, p, k);
      assert HoldsBit(q, from, bits, k);
    }
  }

  method Clear(bytes: array<bv8>)
    modifies bytes
    ensures Holds(bytes[..], [])
  {
    var b := 0;
    while b < bytes.Length
      invariant 0 <= b <= bytes.Length
      invariant forall k :: 0 <= k < b ==> bytes[k] == 0
    {
      bytes[b] := 0;
      b := b + 1;
    }
  }

  function Three(v: bv8): seq<bool> { [BitOf(v, 0), BitOf(v, 1), BitOf(v, 2)] }

  /** One index OR-ed in, over two bytes where it straddles them. */
  lemma {:induction false} AppendThree(was: seq<bv8>, now: seq<bv8>, bits: seq<bool>, v: bv8, b: nat, p: nat)
    requires Holds(was, bits) && |bits| == 8 * b + p && p < 8 && |bits| + 3 <= 8 * |was|
    requires |now| == |was| && now[b] == was[b] | ((v & 7) << p)
    requires p > 5 ==> now[b + 1] == was[b + 1] | ((v & 7) >> (8 - p))
    requires forall i :: 0 <= i < |was| && i != b && !(p > 5 && i == b + 1) ==> now[i] == was[i]
    ensures Holds(now, bits + Three(v))
  {
    forall i | 0 <= i < |now| ensures HoldsByte(now[i], 8 * i, bits + Three(v)) {
      assert HoldsByte(was[i], 8 * i, bits);
      if i == b {
        WriteThree(was[i], v, 8 * i, bits, p);
      } else if p > 5 && i == b + 1 {
        WriteCarried(was[i], v, 8 * i, bits, p);
      } else {
        Untouched(was[i], 8 * i, bits, Three(v));
      }
    }
  }

  lemma {:induction false} AppendLow(was: seq<bv8>, bits: seq<bool>, v: bv8, b: nat, p: nat)
    requires Holds(was, bits) && |bits| == 8 * b + p && p in {0, 2, 4, 6} && b < |was|
    ensures Holds(was[b := was[b] | ((v & 3) << p)], bits + [BitOf(v, 0), BitOf(v, 1)])
  {
    var more, now := [BitOf(v, 0), BitOf(v, 1)], was[b := was[b] | ((v & 3) << p)];
    forall i | 0 <= i < |now| ensures HoldsByte(now[i], 8 * i, bits + more) {
      assert HoldsByte(was[i], 8 * i, bits);
      if i == b { WriteLow(was[i], v, 8 * i, bits, p); } else { Untouched(was[i], 8 * i, bits, more); }
    }
  }

  lemma {:induction false} AppendFlag(was: seq<bv8>, bits: seq<bool>, flag: bool, b: nat, p: nat)
    requires Holds(was, bits) && |bits| == 8 * b + p && p < 8 && b < |was|
    ensures Holds(was[b := if flag then was[b] | (1 << p) else was[b]], bits + [flag])
  {
    var now := was[b := if flag then was[b] | (1 << p) else was[b]];
    forall i | 0 <= i < |now| ensures HoldsByte(now[i], 8 * i, bits + [flag]) {
      assert HoldsByte(was[i], 8 * i, bits);
      if i == b { WriteFlag(was[i], flag, 8 * i, bits, p); } else { Untouched(was[i], 8 * i, bits, [flag]); }
    }
  }

  lemma {:induction false} Nothing(indices: seq<bv8>)
    ensures ThreeBits(indices[..0]) == [] && LowBits(indices[..0]) == [] && |HighBits(indices)| == |indices|
  {
  }

  /** Where element j lies when there are n, a multiple of eight. */
  lemma {:induction false} Place(j: nat, n: nat)
    requires j < n && n % 8 == 0
    ensures 3 * j + 3 <= 8 * (3 * n / 8) && j / 4 < n / 4 && j / 8 < n / 8
  {
    var m := n / 8;
    assert n == 8 * m && 3 * n / 8 == 3 * m && n / 4 == 2 * m;
  }

  lemma {:induction false} PlaceOfTwo(j: nat)
    ensures 2 * j == 8 * (j / 4) + j % 4 * 2 && j % 4 * 2 in {0, 2, 4, 6}
  {
    assert j == 4 * (j / 4) + j % 4;
  }

  lemma {:induction false} HighBitAt(indices: seq<bv8>, j: nat)
    requires j < |indices|
    ensures HighBits(indices)[j] <==> indices[j] & 4 != 0
  {
  }

  /** Flag j of a plane of flags. */
  method MarkFlag(signs: array<bv8>, flag: bool, j: nat, ghost bits: seq<bool>)
    requires |bits| == j && j / 8 < signs.Length && Holds(signs[..], bits)
    modifies signs
    ensures Holds(signs[..], bits + [flag])
  {
    hide Holds;
    ghost var was := signs[..];
    var b, p := j / 8, j % 8;
    if flag {
      signs[b] := signs[b] | (1 << p);
    }
    AppendFlag(was, bits, flag, b, p);
    assert signs[..] == was[b := if flag then was[b] | (1 << p) else was[b]];
  }

  /** The low bits of index j in a plane of low bits. */
  method MarkLow(qs: array<bv8>, v: bv8, j: nat, ghost bits: seq<bool>)
    requires |bits| == 2 * j && j / 4 < qs.Length && Holds(qs[..], bits)
    modifies qs
    ensures Holds(qs[..], bits + [BitOf(v, 0), BitOf(v, 1)])
  {
    hide Holds, BitOf;
    PlaceOfTwo(j);
    ghost var was := qs[..];
    var b, p := j / 4, j % 4 * 2;
    qs[b] := qs[b] | ((v & 3) << p);
    AppendLow(was, bits, v, b, p);
    assert qs[..] == was[b := was[b] | ((v & 3) << p)];
  }

  /** Index j in a string of three-bit indices. */
  method MarkThree(qs: array<bv8>, v: bv8, j: nat, ghost bits: seq<bool>)
    requires |bits| == 3 * j && 3 * j + 3 <= 8 * qs.Length && Holds(qs[..], bits)
    modifies qs
    ensures Holds(qs[..], bits + Three(v))
  {
    hide Holds, Three;
    LastByte(qs.Length, j);
    var b, p := j * 3 / 8, j * 3 % 8;
    ghost var was := qs[..];
    qs[b] := qs[b] | ((v & 7) << p);
    if p > 5 && b + 1 < qs.Length {
      qs[b + 1] := qs[b + 1] | ((v & 7) >> (8 - p));
    }
    AppendThree(was, qs[..], bits, v, b, p);
  }

  /** Block quantization to turbo4, given the nearest index and the sign of the residual of each element. */
  method QuantizeTurbo4(indices: seq<bv8>, positive: seq<bool>, qs: array<bv8>, signs: array<bv8>)
    requires |indices| == |positive| && |indices| % 8 == 0
    requires qs.Length == 3 * |indices| / 8 && signs.Length == |indices| / 8 && qs != signs
    modifies qs, signs
    ensures Holds(qs[..], ThreeBits(indices)) && Holds(signs[..], positive)
  {
    hide Holds, ThreeBits, LowBits, HighBits, BitOf;
    Clear(qs);
    Clear(signs);
    Nothing(indices);
    var j := 0;
    while j < |indices|
      invariant 0 <= j <= |indices|
      invariant Holds(qs[..], ThreeBits(indices[..j])) && Holds(signs[..], positive[..j])
    {
      Place(j, |indices|);
      MarkThree(qs, indices[j], j, ThreeBits(indices[..j]));
      Prefix(indices, j);
      MarkFlag(signs, positive[j], j, positive[..j]);
      assert positive[..j + 1] == positive[..j] + [positive[j]];
      j := j + 1;
    }
    assert indices[..j] == indices && positive[..j] == positive;
  }

  /** Block quantization to turbo3, given the nearest index of each element. */
  method QuantizeTurbo3(indices: seq<bv8>, qs: array<bv8>, signs: array<bv8>)
    requires |indices| % 8 == 0
    requires qs.Length == |indices| / 4 && signs.Length == |indices| / 8 && qs != signs
    modifies qs, signs
    ensures Holds(qs[..], LowBits(indices)) && Holds(signs[..], HighBits(indices))
  {
    hide Holds, ThreeBits, LowBits, HighBits, BitOf;
    Clear(qs);
    Clear(signs);
    Nothing(indices);
    var j := 0;
    while j < |indices|
      invariant 0 <= j <= |indices|
      invariant Holds(qs[..], LowBits(indices[..j])) && Holds(signs[..], HighBits(indices)[..j])
    {
      var v := indices[j];
      Place(j, |indices|);
      HighBitAt(indices, j);
      ghost var high := HighBits(indices);
      MarkLow(qs, v, j, LowBits(indices[..j]));
      Prefix(indices, j);
      MarkFlag(signs, v & 4 != 0, j, high[..j]);
      assert high[..j + 1] == high[..j] + [high[j]];
      j := j + 1;
    }
    assert indices[..j] == indices && HighBits(indices)[..j] == HighBits(indices);
  }

  // ---------- reading ----------

  /** The three bits from bit 3 j on, out of one byte or of two; both turbo4 kernels read them so. */
  function UnpackTurbo4(qs: seq<bv8>, j: nat): bv8
    requires j * 3 / 8 < |qs|
  {
    var b, p := j * 3 / 8, j * 3 % 8;
    var raw := qs[b] as bv16;
    var wide := if b + 1 < |qs| then raw | ((qs[b + 1] as bv16) << 8) else raw;
    ((wide >> p) & 7) as bv8
  }

  function UnpackTurbo3(qs: seq<bv8>, signs: seq<bv8>, j: nat): bv8
    requires j / 4 < |qs| && j / 8 < |signs|
  {
    var low2 := (qs[j / 4] >> (j % 4 * 2)) & 3;
    var hi1 := (signs[j / 8] >> (j % 8)) & 1;
    low2 | (hi1 << 2)
  }

  function SignBit(signs: seq<bv8>, j: nat): bool
    requires j / 8 < |signs|
  {
    signs[j / 8] & (1 << (j % 8)) != 0
  }

  /** The bits of a 16-bit window over two bytes. */
  lemma {:induction false} WindowBits(x: bv8, y: bv8, p: nat, t: nat)
    requires p < 8 && t < 3
    ensures var r := ((((x as bv16) | ((y as bv16) << 8)) >> p) & 7) as bv8;
            r < 8 && (BitOf(r, t) <==> if p + t < 8 then BitOf(x, p + t) else BitOf(y, p + t - 8))
  {
    if p == 0 {} else if p == 1 {} else if p == 2 {} else if p == 3 {} else if p == 4 {} else if p == 5 {} else if p == 6 {} else {}
  }

  lemma {:induction false} ByteBits(x: bv8, p: nat, t: nat)
    requires p <= 5 && t < 3
    ensures var r := (((x as bv16) >> p) & 7) as bv8; r < 8 && (BitOf(r, t) <==> BitOf(x, p + t))
  {
    if p == 0 {} else if p == 1 {} else if p == 2 {} else if p == 3 {} else if p == 4 {} else {}
  }

  lemma {:induction false} SameThree(x: bv8, v: bv8)
    requires x < 8 && forall t :: 0 <= t < 3 ==> (BitOf(x, t) <==> BitOf(v, t))
    ensures x == v & 7
  {
    assert (BitOf(x, 0) <==> BitOf(v, 0)) && (BitOf(x, 1) <==> BitOf(v, 1)) && (BitOf(x, 2) <==> BitOf(v, 2));
  }

  /** The bit at place i of a string that the bytes hold. */
  lemma {:induction false} HeldBit(bytes: seq<bv8>, bits: seq<bool>, i: nat, b: nat, k: nat)
    requires Holds(bytes, bits) && i < |bits| && k < 8 && i == 8 * b + k
    ensures b < |bytes| && (BitOf(bytes[b], k) <==> bits[i])
  {
    assert HoldsByte(bytes[b], 8 * b, bits);
    assert HoldsBit(bytes[b], 8 * b, bits, k);
  }

  lemma {:induction false} UnpackedBit(qs: seq<bv8>, j: nat, t: nat)
    requires 3 * j + 3 <= 8 * |qs| && t < 3
    ensures var b, p, r := j * 3 / 8, j * 3 % 8, UnpackTurbo4(qs, j);
            && r < 8
            && if p + t < 8 then BitOf(r, t) <==> BitOf(qs[b], p + t) else b + 1 < |qs| && (BitOf(r, t) <==> BitOf(qs[b + 1], p + t - 8))
  {
    hide BitOf;
    var b, p := j * 3 / 8, j * 3 % 8;
    LastByte(|qs|, j);
    if b + 1 < |qs| { WindowBits(qs[b], qs[b + 1], p, t); } else { ByteBits(qs[b], p, t); }
  }

  lemma {:induction false} LastByte(size: nat, j: nat)
    requires 3 * j + 3 <= 8 * size
    ensures 3 * j == 8 * (j * 3 / 8) + j * 3 % 8 && j * 3 / 8 < size
    ensures j * 3 / 8 + 1 == size ==> j * 3 % 8 <= 5
  {
  }

  /** Reading gives back the three bits of every index, those that straddle two bytes included. */
  lemma {:induction false} Turbo4RoundTrip(indices: seq<bv8>, qs: seq<bv8>, j: nat)
    requires Holds(qs, ThreeBits(indices)) && j < |indices|
    ensures j * 3 / 8 < |qs| && UnpackTurbo4(qs, j) == indices[j] & 7
    ensures indices[j] < 8 ==> UnpackTurbo4(qs, j) == indices[j]
  {
    var b, p, bits := j * 3 / 8, j * 3 % 8, ThreeBits(indices);
    ThreeBitsAt(indices, j);
    hide Holds, ThreeBits, BitOf, UnpackTurbo4;
    HeldBit(qs, bits, 3 * j, b, p);
    var r := UnpackTurbo4(qs, j);
    forall t | 0 <= t < 3 ensures r < 8 && (BitOf(r, t) <==> BitOf(indices[j], t)) {
      LastByte(|qs|, j);
      if p + t < 8 { HeldBit(qs, bits, 3 * j + t, b, p + t); } else { HeldBit(qs, bits, 3 * j + t, b + 1, p + t - 8); }
      UnpackedBit(qs, j, t);
    }
    SameThree(r, indices[j]);
    Small(indices[j]);
  }

  lemma {:induction false} Small(v: bv8)
    ensures v < 8 ==> v & 7 == v
  {
  }

  lemma {:induction false} LowWindow(x: bv8, p: nat, y: bv8, k: nat)
    requires p in {0, 2, 4, 6} && k < 8
    ensures var r := ((x >> p) & 3) | (((y >> k) & 1) << 2);
            r < 8 && (BitOf(r, 0) <==> BitOf(x, p)) && (BitOf(r, 1) <==> BitOf(x, p + 1)) && (BitOf(r, 2) <==> BitOf(y, k))
  {
    if p == 0 { HighWindow(y, k); } else if p == 2 { HighWindow(y, k); } else if p == 4 { HighWindow(y, k); } else { HighWindow(y, k); }
  }

  lemma {:induction false} HighWindow(y: bv8, k: nat)
    requires k < 8
    ensures (y >> k) & 1 == if BitOf(y, k) then 1 else 0
  {
    if k == 0 {} else if k == 1 {} else if k == 2 {} else if k == 3 {} else if k == 4 {} else if k == 5 {} else if k == 6 {} else {}
  }

  /** Split into low and high bits and put together again, every index is as it was. */
  lemma {:induction false} Turbo3RoundTrip(indices: seq<bv8>, qs: seq<bv8>, signs: seq<bv8>, j: nat)
    requires Holds(qs, LowBits(indices)) && Holds(signs, HighBits(indices)) && j < |indices|
    ensures j / 4 < |qs| && j / 8 < |signs| && UnpackTurbo3(qs, signs, j) == indices[j] & 7
    ensures indices[j] < 8 ==> UnpackTurbo3(qs, signs, j) == indices[j]
  {
    var p := j % 4 * 2;
    LowBitsAt(indices, j);
    var low := LowBits(indices);
    assert low[2 * j + 0] <==> BitOf(indices[j], 0);
    assert low[2 * j + 1] <==> BitOf(indices[j], 1);
    HeldBit(qs, low, 2 * j, j / 4, p);
    HeldBit(qs, low, 2 * j + 1, j / 4, p + 1);
    HeldBit(signs, HighBits(indices), j, j / 8, j % 8);
    LowWindow(qs[j / 4], p, signs[j / 8], j % 8);
    SameThree(UnpackTurbo3(qs, signs, j), indices[j]);
    Small(indices[j]);
  }

  /** The sign of every residual is read back. */
  lemma {:induction false} SignRoundTrip(positive: seq<bool>, signs: seq<bv8>, j: nat)
    requires Holds(signs, positive) && j < |positive|
    ensures j / 8 < |signs| && SignBit(signs, j) == positive[j]
  {
    HeldBit(signs, positive, j, j / 8, j % 8);
    FlagBit(signs[j / 8], j % 8);
  }

  lemma {:induction false} FlagBit(x: bv8, k: nat)
    requires k < 8
    ensures x & (1 << k) != 0 <==> BitOf(x, k)
  {
    if k == 0 {} else if k == 1 {} else if k == 2 {} else if k == 3 {} else if k == 4 {} else if k == 5 {} else if k == 6 {} else {}
  }
}
