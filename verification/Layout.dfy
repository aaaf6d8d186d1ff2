/**
 * Fixed-width little-endian integers, and records laid out as a table of field
 * widths: the byte format of the retention sidecar. Writing appends byte by byte;
 * reading moves a cursor that never passes the end.
 */
module Layout {
  import opened Words

  // ---------- one integer ----------

  /** The `width` low bytes of `v`, least significant first. */
  function LittleEndian(v: nat, width: nat): (b: seq<u8>)
    ensures |b| == width
  {
    if width == 0 then [] else [v % 256] + LittleEndian(v / 256, width - 1)
  }

  function Value(b: seq<u8>): nat {
    if b == [] then 0 else b[0] + 256 * Value(b[1..])
  }

  /** Integers below Limit(width) fit in `width` bytes. */
  function Limit(width: nat): nat { Pow2(8 * width) }

  lemma {:induction false} Limits()
    ensures Limit(1) == 0x100 && Limit(4) == TWO32 && Limit(8) == TWO64
  {
    Pow2Words();
  }

  lemma {:induction false} LimitStep(width: nat)
    ensures Limit(width + 1) == 256 * Limit(width)
  {
    Pow2Add(8, 8 * width);
    Pow2Words();
  }

  lemma {:induction false} ValueOfLittleEndian(v: nat, width: nat)
    requires v < Limit(width)
    ensures Value(LittleEndian(v, width)) == v
  {
    if width > 0 {
      LimitStep(width - 1);
      ValueOfLittleEndian(v / 256, width - 1);
      assert LittleEndian(v, width)[1..] == LittleEndian(v / 256, width - 1);
    }
  }

  lemma {:induction false} LittleEndianOfValue(b: seq<u8>)
    ensures Value(b) < Limit(|b|)
    ensures LittleEndian(Value(b), |b|) == b
  {
    if b != [] {
      LimitStep(|b| - 1);
      LittleEndianOfValue(b[1..]);
      assert Value(b) % 256 == b[0] && Value(b) / 256 == Value(b[1..]);
    }
  }

  lemma {:induction false} ValueSnoc(b: seq<u8>, x: u8)
    ensures Value(b + [x]) == Value(b) + x * Limit(|b|)
  {
    if b == [] {
      assert b + [x] == [x];
    } else {
      assert (b + [x])[1..] == b[1..] + [x];
      ValueSnoc(b[1..], x);
      LimitStep(|b| - 1);
      var w := Limit(|b| - 1);
      assert 256 * (x * w) == x * (256 * w);
    }
  }

  lemma {:induction false} LittleEndianSnoc(v: nat, width: nat)
    ensures LittleEndian(v, width + 1) == LittleEndian(v, width) + [(v / Limit(width)) % 256]
  {
    if width > 0 {
      LittleEndianSnoc(v / 256, width - 1);
      hide Pow2, LittleEndian;
      ByteShift(v, width);
      LittleEndianStep(v, width);
      LittleEndianStep(v, width + 1);
      var rest, last := LittleEndian(v / 256, width - 1), [(v / Limit(width)) % 256];
      assert [v % 256] + (rest + last) == ([v % 256] + rest) + last;
    }
  }

  lemma {:induction false} LittleEndianStep(v: nat, width: nat)
    requires width > 0
    ensures LittleEndian(v, width) == [v % 256] + LittleEndian(v / 256, width - 1)
  {
  }

  lemma {:induction false} ByteShift(v: nat, width: nat)
    requires width > 0
    ensures (v / 256) / Limit(width - 1) == v / Limit(width)
  {
    Pow2Words();
    ShiftShift(v, 8, 8 * (width - 1));
    hide Pow2;
    assert 8 + 8 * (width - 1) == 8 * width;
  }

  /** OR-ing byte `i` in at bit 8i extends the value read so far. */
  lemma {:induction false} OrInByte(raw: seq<u8>, i: nat)
    requires i < |raw|
    ensures BitOr(Value(raw[..i]), raw[i] * Pow2(8 * i)) == Value(raw[..i + 1])
  {
    LittleEndianOfValue(raw[..i]);
    assert raw[..i + 1] == raw[..i] + [raw[i]];
    ValueSnoc(raw[..i], raw[i]);
    BitOrDisjoint(raw[i], Value(raw[..i]), 8 * i);
  }

  // ---------- a record of integers ----------

  function Total(widths: seq<nat>): nat {
    if widths == [] then 0 else widths[0] + Total(widths[1..])
  }

  /** Every value fits its field. */
  ghost predicate Fits(values: seq<nat>, widths: seq<nat>) {
    |values| == |widths| && forall i :: 0 <= i < |values| ==> values[i] < Limit(widths[i])
  }

  function PutAll(values: seq<nat>, widths: seq<nat>): (b: seq<u8>)
    requires |values| == |widths|
    ensures |b| == Total(widths)
  {
    if values == [] then [] else LittleEndian(values[0], widths[0]) + PutAll(values[1..], widths[1..])
  }

  function TakeAll(widths: seq<nat>, b: seq<u8>): (values: seq<nat>)
    requires Total(widths) <= |b|
    ensures |values| == |widths|
  {
    if widths == [] then []
    else [Value(b[..widths[0]])] + TakeAll(widths[1..], b[widths[0]..])
  }

  lemma {:induction false} TakePut(values: seq<nat>, widths: seq<nat>, rest: seq<u8>)
    requires Fits(values, widths)
    ensures TakeAll(widths, PutAll(values, widths) + rest) == values
  {
    if values != [] {
      var head := LittleEndian(values[0], widths[0]);
      var tail := PutAll(values[1..], widths[1..]);
      var b := PutAll(values, widths) + rest;
      assert b == head + (tail + rest);
      assert b[..widths[0]] == head && b[widths[0]..] == tail + rest;
      ValueOfLittleEndian(values[0], widths[0]);
      TakePut(values[1..], widths[1..], rest);
    }
  }

  lemma {:induction false} PutTake(widths: seq<nat>, b: seq<u8>)
    requires Total(widths) <= |b|
    ensures Fits(TakeAll(widths, b), widths)
    ensures PutAll(TakeAll(widths, b), widths) == b[..Total(widths)]
  {
    if widths != [] {
      var w := widths[0];
      LittleEndianOfValue(b[..w]);
      PutTake(widths[1..], b[w..]);
      var values := TakeAll(widths, b);
      assert values[1..] == TakeAll(widths[1..], b[w..]);
      assert b[..w] + b[w..][..Total(widths[1..])] == b[..Total(widths)];
    }
  }

  lemma {:induction false} TotalSnoc(widths: seq<nat>, w: nat)
    ensures Total(widths + [w]) == Total(widths) + w
  {
    if widths == [] {
      assert widths + [w] == [w];
    } else {
      assert (widths + [w])[1..] == widths[1..] + [w];
      TotalSnoc(widths[1..], w);
    }
  }

  lemma {:induction false} TotalPrefix(widths: seq<nat>, k: nat)
    requires k <= |widths|
    ensures Total(widths[..k]) <= Total(widths)
  {
    if k > 0 {
      assert widths[..k][1..] == widths[1..][..k - 1];
      TotalPrefix(widths[1..], k - 1);
    }
  }

  lemma {:induction false} TakeSnoc(widths: seq<nat>, w: nat, b: seq<u8>)
    requires Total(widths) + w <= |b|
    ensures Total(widths + [w]) == Total(widths) + w
    ensures TakeAll(widths + [w], b) == TakeAll(widths, b) + [Value(b[Total(widths)..Total(widths) + w])]
  {
    hide Value;
    TotalSnoc(widths, w);
    if widths == [] {
      assert widths + [w] == [w];
      assert TakeAll([w][1..], b[w..]) == [];
    } else {
      assert (widths + [w])[1..] == widths[1..] + [w];
      TakeSnoc(widths[1..], w, b[widths[0]..]);
      assert (widths + [w])[0] == widths[0];
      var t := Total(widths[1..]);
      assert b[widths[0]..][t..t + w] == b[Total(widths)..Total(widths) + w];
    }
  }

  lemma {:induction false} PutSnoc(values: seq<nat>, widths: seq<nat>, v: nat, w: nat)
    requires |values| == |widths|
    ensures PutAll(values + [v], widths + [w]) == PutAll(values, widths) + LittleEndian(v, w)
  {
    if values == [] {
      assert values + [v] == [v] && widths + [w] == [w];
      assert PutAll([v][1..], [w][1..]) == [];
    } else {
      assert (values + [v])[1..] == values[1..] + [v] && (widths + [w])[1..] == widths[1..] + [w];
      PutSnoc(values[1..], widths[1..], v, w);
    }
  }

  // ---------- writing ----------

  /** Append `v` as a little-endian integer, byte by byte. */
  method PutInt(out: seq<u8>, v: nat, width: nat) returns (r: seq<u8>)
    ensures r == out + LittleEndian(v, width)
  {
    r := out;
    var i := 0;
    while i < width
      invariant 0 <= i <= width
      invariant r == out + LittleEndian(v, i)
    {
      LittleEndianSnoc(v, i);
      r := r + [(v / Limit(i)) % 256];
      i := i + 1;
    }
  }

  /** Append a record field by field. */
  method PutFields(out: seq<u8>, values: seq<nat>, widths: seq<nat>) returns (r: seq<u8>)
    requires |values| == |widths|
    ensures r == out + PutAll(values, widths)
  {
    r := out;
    var i := 0;
    while i < |values|
      invariant 0 <= i <= |values|
      invariant r == out + PutAll(values[..i], widths[..i])
    {
      assert values[..i + 1] == values[..i] + [values[i]] && widths[..i + 1] == widths[..i] + [widths[i]];
      PutSnoc(values[..i], widths[..i], values[i], widths[i]);
      r := PutInt(r, values[i], widths[i]);
      i := i + 1;
    }
    assert values[..i] == values && widths[..i] == widths;
  }

  // ---------- reading ----------

  /** Each byte OR-ed in at its place. */
  method Assemble(raw: seq<u8>) returns (value: nat)
    ensures value == Value(raw)
  {
    value := 0;
    var i := 0;
    assert Value(raw[..0]) == 0;
    hide Value, BitOr, Pow2;
    while i < |raw|
      invariant 0 <= i <= |raw|
      invariant value == Value(raw[..i])
    {
      OrInByte(raw, i);
      var byte: int := raw[i];
      value := BitOr(value, byte * Pow2(8 * i));
      i := i + 1;
    }
    assert raw[..i] == raw;
  }

  lemma {:induction false} Window(data: seq<u8>, start: nat, at: nat, width: nat)
    requires start + at + width <= |data|
    ensures data[start + at..start + at + width] == data[start..][at..at + width]
  {
  }

  /** A cursor over a byte buffer that never moves past its end. */
  class Reader {
    const data: seq<u8>
    var pos: nat

    ghost predicate Valid() reads this { pos <= |data| }

    constructor (data: seq<u8>)
      ensures Valid() && this.data == data && pos == 0
    {
      this.data := data;
      pos := 0;
    }

    method Bytes(n: nat) returns (r: Option<seq<u8>>)
      requires Valid()
      modifies this
      ensures Valid()
      ensures r.Some? <==> old(pos) + n <= |data|
      ensures r.Some? ==> pos == old(pos) + n && r.value == data[old(pos)..pos]
      ensures r.None? ==> pos == old(pos)
    {
      if n > |data| - pos {
        return None;
      }
      r := Some(data[pos..pos + n]);
      pos := pos + n;
    }

    /** Read `width` bytes as an integer. */
    method Int(width: nat) returns (r: Option<nat>)
      requires Valid()
      modifies this
      ensures Valid()
      ensures r.Some? <==> old(pos) + width <= |data|
      ensures r.Some? ==> pos == old(pos) + width && r.value == Value(data[old(pos)..pos])
      ensures r.None? ==> pos == old(pos)
    {
      var raw := Bytes(width);
      if raw.None? {
        return None;
      }
      var value := Assemble(raw.value);
      r := Some(value);
    }

    /** Read a record field by field, giving up at the first field that does not fit. */
    method Fields(widths: seq<nat>) returns (r: Option<seq<nat>>)
      requires Valid()
      modifies this
      ensures Valid()
      ensures r.Some? <==> old(pos) + Total(widths) <= |data|
      ensures r.Some? ==> pos == old(pos) + Total(widths) && r.value == TakeAll(widths, data[old(pos)..])
    {
      var values: seq<nat> := [];
      ghost var start, b := pos, data[pos..];
      var i := 0;
      assert Total(widths[..0]) == 0 && TakeAll(widths[..0], b) == [];
      hide Total, TakeAll, Value;
      while i < |widths|
        invariant 0 <= i <= |widths|
        invariant Valid() && pos == start + Total(widths[..i])
        invariant values == TakeAll(widths[..i], b)
      {
        assert widths[..i + 1] == widths[..i] + [widths[i]];
        TotalSnoc(widths[..i], widths[i]);
        TotalPrefix(widths, i + 1);
        var v := Int(widths[i]);
        if v.None? {
          return None;
        }
        TakeSnoc(widths[..i], widths[i], b);
        Window(data, start, Total(widths[..i]), widths[i]);
        values := values + [v.value];
        i := i + 1;
      }
      assert widths[..i] == widths;
      r := Some(values);
    }
  }
}
