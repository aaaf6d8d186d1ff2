/**
 * Machine words, powers of two and bitwise OR over the naturals.
 *
 * A word is an `int` within its range, so that arithmetic is exact and every
 * wrap-around is written where it happens. Shifts multiply and divide by powers of
 * two, and OR of parts that share no bit is their sum.
 */
module Words {

  const TWO32: int := 0x1_0000_0000
  const TWO64: int := 0x1_0000_0000_0000_0000

  type u8  = x: int | 0 <= x < 0x100
  type u32 = x: int | 0 <= x < 0x1_0000_0000
  type u64 = x: int | 0 <= x < 0x1_0000_0000_0000_0000

  const U64_MAX: u64 := 0xFFFF_FFFF_FFFF_FFFF

  datatype Option<+T> = None | Some(value: T)

  function Pow2(k: nat): (p: nat)
    ensures p >= 1
  {
    if k == 0 then 1 else 2 * Pow2(k - 1)
  }

  lemma {:induction false} Pow2Add(a: nat, b: nat)
    ensures Pow2(a + b) == Pow2(a) * Pow2(b)
  {
    if a > 0 {
      Pow2Add(a - 1, b);
      assert a + b - 1 == (a - 1) + b;
    }
  }

  lemma {:induction false} Pow2Mono(a: nat, b: nat)
    requires a <= b
    ensures Pow2(a) <= Pow2(b)
    ensures a < b ==> 2 * Pow2(a) <= Pow2(b)
  {
    if a < b { Pow2Mono(a, b - 1); }
  }

  lemma {:induction false} Pow2Words()
    ensures Pow2(8) == 0x100 && Pow2(16) == 0x1_0000
    ensures Pow2(32) == TWO32 && Pow2(64) == TWO64
  {
    assert Pow2(8) == 0x100;
    assert Pow2(16) == 0x1_0000;
    Pow2Add(16, 16);
    Pow2Add(32, 32);
  }

  lemma {:induction false} MulMono(x: int, y: int, z: int)
    requires x <= y && 0 <= z
    ensures x * z <= y * z
  {
  }

  lemma {:induction false} DivUnique(x: int, d: int, q: int, r: int)
    requires d > 0 && 0 <= r < d && x == q * d + r
    ensures x / d == q && x % d == r
  {
    var q', r' := x / d, x % d;
    assert x == q' * d + r';
    if q' > q {
      MulMono(q + 1, q', d);
    } else if q' < q {
      MulMono(q' + 1, q, d);
    }
  }

  lemma {:induction false} DivDiv(x: nat, a: nat, b: nat)
    requires a > 0 && b > 0
    ensures a * b > 0
    ensures (x / a) / b == x / (a * b)
    ensures x % (a * b) == a * ((x / a) % b) + x % a
  {
    var q, r := x / a, x % a;
    var q2, r2 := q / b, q % b;
    assert x == q * a + r && q == q2 * b + r2;
    assert x == (q2 * b + r2) * a + r;
    assert (q2 * b + r2) * a == q2 * (a * b) + r2 * a;
    assert r2 * a + r < a * b by {
      assert r2 + 1 <= b;
      assert (r2 + 1) * a <= b * a;
    }
    DivUnique(x, a * b, q2, r2 * a + r);
  }

  /** Shifting right twice shifts by the sum. */
  lemma {:induction false} ShiftShift(x: nat, a: nat, b: nat)
    ensures (x / Pow2(a)) / Pow2(b) == x / Pow2(a + b)
  {
    Pow2Add(a, b);
    DivDiv(x, Pow2(a), Pow2(b));
  }

  lemma {:induction false} DivMono(x: nat, y: nat, a: nat, b: nat)
    requires x <= y && 0 < b <= a
    ensures x / a <= y / b
  {
    var q, q' := x / a, y / b;
    assert x == q * a + x % a && y == q' * b + y % b;
    if q' < q {
      MulMono(q' + 1, q, b);
      MulMono(b, a, q);
    }
  }

  /** Bitwise OR, bit by bit. */
  function BitOr(a: nat, b: nat): (r: nat)
  {
    if a == 0 then b
    else if b == 0 then a
    else 2 * BitOr(a / 2, b / 2) + (if a % 2 == 1 || b % 2 == 1 then 1 else 0)
  }

  lemma {:induction false} BitOrCommutes(a: nat, b: nat)
    ensures BitOr(a, b) == BitOr(b, a)
  {
    if a != 0 && b != 0 { BitOrCommutes(a / 2, b / 2); }
  }

  /** OR-ing numbers whose bits do not overlap adds them. */
  lemma {:induction false} BitOrDisjoint(high: nat, low: nat, k: nat)
    requires low < Pow2(k)
    ensures BitOr(high * Pow2(k), low) == high * Pow2(k) + low
    ensures BitOr(low, high * Pow2(k)) == high * Pow2(k) + low
  {
    var a := high * Pow2(k);
    BitOrCommutes(a, low);
    if k > 0 {
      var h := high * Pow2(k - 1);
      Pow2Scale(high, k);
      assert a == 2 * h && low / 2 < Pow2(k - 1);
      BitOrDisjoint(high, low / 2, k - 1);
      hide BitOr, Pow2;
      BitOrEven(h, low);
    }
  }

  lemma {:induction false} Pow2Scale(x: int, k: nat)
    requires k > 0
    ensures x * Pow2(k) == 2 * (x * Pow2(k - 1))
  {
  }

  lemma {:induction false} BitOrEven(h: nat, low: nat)
    ensures BitOr(2 * h, low) == 2 * BitOr(h, low / 2) + low % 2
  {
    assert (2 * h) / 2 == h;
  }
}
