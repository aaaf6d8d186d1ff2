/**
 * Base64 as in sections 4 and 5 of RFC 4648.
 *
 * Octets and digits are regrouped through 24-bit numbers; the encoder's shifts and
 * masks and the decoder's two registers are proved to do the same. Which alphabet a
 * text is in may be found out from its first digit that only one of them has. Only
 * as many octets are stored as digits read allow, three for four, so a text can be
 * decoded onto itself.
 */
module Base64 {
  import opened Words

  datatype Alphabet = Auto | Standard | UrlSafe

  datatype Behavior = Moderate | Loose

  type Sextet = x: int | 0 <= x < 64

  const STANDARD_DIGITS: string := "ABCDEFGHIJKLMNOPQRSTUVWXYZabcdefghijklmnopqrstuvwxyz0123456789+/"
  const URL_DIGITS: string := "ABCDEFGHIJKLMNOPQRSTUVWXYZabcdefghijklmnopqrstuvwxyz0123456789-_"

  function Digits(alphabet: Alphabet): string {
    if alphabet == UrlSafe then URL_DIGITS else STANDARD_DIGITS
  }

  lemma {:induction false} DigitsLength(alphabet: Alphabet)
    ensures |Digits(alphabet)| == 64
  {
    assert |STANDARD_DIGITS| == 64;
    assert |URL_DIGITS| == 64;
  }

  function Digit(alphabet: Alphabet, v: Sextet): char {
    DigitsLength(alphabet);
    Digits(alphabet)[v]
  }

  /** A digit's value, and the alphabet in force after it. */
  datatype Reading = Reading(value: Sextet, alphabet: Alphabet)

  function Value(alphabet: Alphabet, c: char): Option<Reading> {
    if 'A' <= c <= 'Z' then Some(Reading(c as int - 'A' as int, alphabet))
    else if 'a' <= c <= 'z' then Some(Reading(c as int - 'a' as int + 26, alphabet))
    else if '0' <= c <= '9' then Some(Reading(c as int - '0' as int + 52, alphabet))
    else match alphabet
      case Standard =>
        if c == '+' then Some(Reading(62, alphabet)) else if c == '/' then Some(Reading(63, alphabet)) else None
      case UrlSafe =>
        if c == '-' then Some(Reading(62, alphabet)) else if c == '_' then Some(Reading(63, alphabet)) else None
      case Auto =>
        if c == '+' then Some(Reading(62, Standard))
        else if c == '/' then Some(Reading(63, Standard))
        else if c == '-' then Some(Reading(62, UrlSafe))
        else if c == '_' then Some(Reading(63, UrlSafe))
        else None
  }

  /** The character at each place of the tables, as the reader's ranges see it. */
  function DigitByRange(alphabet: Alphabet, v: Sextet): char {
    if v < 26 then (65 + v) as char
    else if v < 52 then (71 + v) as char
    else if v < 62 then (v - 4) as char
    else if alphabet == UrlSafe then (if v == 62 then '-' else '_')
    else (if v == 62 then '+' else '/')
  }

  lemma {:induction false} TableLow(v: Sextet)
    requires v < 26
    ensures STANDARD_DIGITS[v] == URL_DIGITS[v] == (65 + v) as char
  {
    assert STANDARD_DIGITS[v] == "ABCDEFGHIJKLMNOPQRSTUVWXYZ"[v];
    assert URL_DIGITS[v] == "ABCDEFGHIJKLMNOPQRSTUVWXYZ"[v];
  }

  lemma {:induction false} TableHigh(v: Sextet)
    requires 26 <= v < 52
    ensures STANDARD_DIGITS[v] == URL_DIGITS[v] == (71 + v) as char
  {
    assert STANDARD_DIGITS[v] == "abcdefghijklmnopqrstuvwxyz"[v - 26];
    assert URL_DIGITS[v] == "abcdefghijklmnopqrstuvwxyz"[v - 26];
  }

  lemma {:induction false} TableDigits(v: Sextet)
    requires 52 <= v < 62
    ensures STANDARD_DIGITS[v] == URL_DIGITS[v] == (v - 4) as char
  {
    assert STANDARD_DIGITS[v] == "0123456789"[v - 52];
    assert URL_DIGITS[v] == "0123456789"[v - 52];
  }

  lemma {:induction false} DigitIs(alphabet: Alphabet, v: Sextet)
    ensures Digit(alphabet, v) == DigitByRange(alphabet, v)
  {
    if v < 26 { TableLow(v); } else if v < 52 { TableHigh(v); } else if v < 62 { TableDigits(v); }
  }

  /** An alphabet accepts the digits of `written`: it is the same one, or is still to be found out. */
  predicate Reads(alphabet: Alphabet, written: Alphabet) {
    alphabet == Auto || written == alphabet
  }

  /** A digit's value is its place in the alphabet; only a digit of one alphabet alone settles a detection. */
  lemma {:induction false} ValueOfDigit(alphabet: Alphabet, written: Alphabet, v: Sextet)
    requires written != Auto
    ensures Value(alphabet, Digit(written, v)) ==
            if v < 62 then Some(Reading(v, alphabet))
            else if Reads(alphabet, written) then Some(Reading(v, written))
            else None
  {
    DigitIs(written, v);
  }

  /** Only the digit at place v has the value v. */
  lemma {:induction false} DigitOfValue(alphabet: Alphabet, c: char)
    requires alphabet != Auto && Value(alphabet, c).Some?
    ensures Digit(alphabet, Value(alphabet, c).value.value) == c
    ensures Value(alphabet, c).value.alphabet == alphabet
  {
    DigitIs(alphabet, Value(alphabet, c).value.value);
  }

  // ---------- regrouping eight-bit into six-bit ----------

  /** A group of 24 bits, from its three octets or its four sextets, and back. */
  function FromOctets(a: int, b: int, c: int): int { a * 65536 + b * 256 + c }

  function FromSextets(a: int, b: int, c: int, d: int): int { a * 262144 + b * 4096 + c * 64 + d }

  function SextetsOf(w: nat): (s: seq<Sextet>)
    requires w < 0x100_0000
    ensures |s| == 4
  {
    [w / 262144, w / 4096 % 64, w / 64 % 64, w % 64]
  }

  function OctetsOf(w: nat): (bytes: seq<u8>)
    requires w < 0x100_0000
    ensures |bytes| == 3
  {
    [w / 65536, w / 256 % 256, w % 256]
  }

  /** A 24-bit group is its digits to the base 64, and to the base 256. */
  lemma {:induction false} DigitsOfGroup(w: nat, s: Sextet, t: Sextet, u: Sextet, v: Sextet)
    requires w == FromSextets(s, t, u, v)
    ensures w < 0x100_0000 && SextetsOf(w) == [s, t, u, v]
  {
    DivUnique(w, 262144, s, t as int * 4096 + u as int * 64 + v);
    DivUnique(w, 4096, s as int * 64 + t, u as int * 64 + v);
    DivUnique(s as int * 64 + t, 64, s, t);
    DivUnique(w, 64, s as int * 4096 + t as int * 64 + u, v);
    DivUnique(s as int * 4096 + t as int * 64 + u, 64, s as int * 64 + t, u);
  }

  lemma {:induction false} BytesOfGroup(w: nat, x: u8, y: u8, z: u8)
    requires w == FromOctets(x, y, z)
    ensures w < 0x100_0000 && OctetsOf(w) == [x, y, z]
  {
    DivUnique(w, 65536, x, y as int * 256 + z);
    DivUnique(w, 256, x as int * 256 + y, z);
    DivUnique(x as int * 256 + y, 256, x, y);
  }

  lemma {:induction false} GroupOfOctets(a: u8, b: u8, c: u8)
    ensures 0 <= FromOctets(a, b, c) < 0x100_0000
    ensures SextetsOf(FromOctets(a, b, c)) == [a as int / 4, a as int % 4 * 16 + b as int / 16, b as int % 16 * 4 + c as int / 64, c as int % 64]
  {
    hide SextetsOf;
    DigitsOfGroup(FromOctets(a, b, c), a as int / 4, a as int % 4 * 16 + b as int / 16, b as int % 16 * 4 + c as int / 64, c as int % 64);
  }

  lemma {:induction false} GroupOfSextets(a: Sextet, b: Sextet, c: Sextet, d: Sextet)
    ensures 0 <= FromSextets(a, b, c, d) < 0x100_0000
    ensures OctetsOf(FromSextets(a, b, c, d)) == [Completed(a, b, 1), Completed(b, c, 2), Completed(c, d, 3)]
  {
    hide OctetsOf;
    BytesOfGroup(FromSextets(a, b, c, d), Completed(a, b, 1), Completed(b, c, 2), Completed(c, d, 3));
  }

  /** The octet that the sextet p completes when r sextets of the group came before it, `last` the latest of them. */
  function Completed(last: Sextet, p: Sextet, r: nat): u8
    requires 1 <= r <= 3
  {
    if r == 1 then last as int * 4 + p as int / 16
    else if r == 2 then last as int % 16 * 16 + p as int / 4
    else last as int % 4 * 64 + p as int
  }

  /** Three octets are four sextets; a last group of one or two octets is filled with zero bits and cut to the sextets it needs. */
  function Sextets(bytes: seq<u8>): (s: seq<Sextet>)
    ensures |s| == (4 * |bytes| + 2) / 3
  {
    if |bytes| == 0 then []
    else if |bytes| == 1 then
      GroupOfOctets(bytes[0], 0, 0);
      SextetsOf(FromOctets(bytes[0], 0, 0))[..2]
    else if |bytes| == 2 then
      GroupOfOctets(bytes[0], bytes[1], 0);
      SextetsOf(FromOctets(bytes[0], bytes[1], 0))[..3]
    else
      GroupOfOctets(bytes[0], bytes[1], bytes[2]);
      SextetsOf(FromOctets(bytes[0], bytes[1], bytes[2])) + Sextets(bytes[3..])
  }

  /** The whole octets that a run of sextets holds. */
  function Octets(s: seq<Sextet>): (bytes: seq<u8>)
    ensures |bytes| == 3 * |s| / 4
  {
    if |s| < 2 then []
    else if |s| == 2 then
      GroupOfSextets(s[0], s[1], 0, 0);
      OctetsOf(FromSextets(s[0], s[1], 0, 0))[..1]
    else if |s| == 3 then
      GroupOfSextets(s[0], s[1], s[2], 0);
      OctetsOf(FromSextets(s[0], s[1], s[2], 0))[..2]
    else
      GroupOfSextets(s[0], s[1], s[2], s[3]);
      OctetsOf(FromSextets(s[0], s[1], s[2], s[3])) + Octets(s[4..])
  }

  /** No sextet is left over and the bits after the last whole octet are zero. */
  predicate Whole(s: seq<Sextet>) {
    && |s| % 4 != 1
    && (|s| % 4 == 2 ==> s[|s| - 1] % 16 == 0)
    && (|s| % 4 == 3 ==> s[|s| - 1] % 4 == 0)
  }

  lemma {:induction false} FirstBack(a: int, b: int)
    requires 0 <= a < 0x100 && 0 <= b < 0x100
    ensures 0 <= a / 4 < 64 && 0 <= a % 4 * 16 + b / 16 < 64
    ensures Completed(a / 4, a % 4 * 16 + b / 16, 1) == a
    ensures b == 0 ==> (a % 4 * 16 + b / 16) % 16 == 0
  {
  }

  lemma {:induction false} MiddleBack(b: int, s: Sextet, c: int)
    requires 0 <= b < 0x100 && 0 <= c < 0x100 && s % 16 == b / 16
    ensures 0 <= b % 16 * 4 + c / 64 < 64
    ensures Completed(s, b % 16 * 4 + c / 64, 2) == b
    ensures c == 0 ==> (b % 16 * 4 + c / 64) % 4 == 0
    ensures b == 0 && c == 0 ==> b % 16 * 4 + c / 64 == 0
  {
  }

  lemma {:induction false} LastBack(s: Sextet, c: int)
    requires 0 <= c < 0x100 && s % 4 == c / 64
    ensures Completed(s, c % 64, 3) == c
  {
  }

  /** Three octets come back from their four sextets, and four sextets from their three octets. */
  lemma {:induction false} OctetsBack(a: u8, b: u8, c: u8)
    ensures 0 <= FromOctets(a, b, c) < 0x100_0000
    ensures var s := SextetsOf(FromOctets(a, b, c));
            && 0 <= FromSextets(s[0], s[1], s[2], s[3]) < 0x100_0000
            && OctetsOf(FromSextets(s[0], s[1], s[2], s[3])) == [a, b, c]
            && (c == 0 ==> s[2] % 4 == 0 && s[3] == 0 && (b == 0 ==> s[1] % 16 == 0 && s[2] == 0))
  {
    hide SextetsOf, OctetsOf, FromOctets, FromSextets, Completed;
    GroupOfOctets(a, b, c);
    var s := SextetsOf(FromOctets(a, b, c));
    GroupOfSextets(s[0], s[1], s[2], s[3]);
    FirstBack(a, b);
    MiddleBack(b, s[1], c);
    LastBack(s[2], c);
  }

  lemma {:induction false} SextetPairs(a: Sextet, b: Sextet, c: Sextet, d: Sextet)
    ensures var x, y, z := Completed(a, b, 1) as int, Completed(b, c, 2) as int, Completed(c, d, 3) as int;
            && x / 4 == a && x % 4 == b / 16 && y / 16 == b % 16 && y % 16 == c / 4 && z / 64 == c % 4 && z % 64 == d
            && x % 4 * 16 + y / 16 == b && y % 16 * 4 + z / 64 == c
            && (d == 0 && c % 4 == 0 ==> z == 0) && (c == 0 && b % 16 == 0 ==> y == 0)
  {
  }

  lemma {:induction false} SextetsBack(a: Sextet, b: Sextet, c: Sextet, d: Sextet)
    ensures 0 <= FromSextets(a, b, c, d) < 0x100_0000
    ensures var o := OctetsOf(FromSextets(a, b, c, d));
            && 0 <= FromOctets(o[0], o[1], o[2]) < 0x100_0000
            && SextetsOf(FromOctets(o[0], o[1], o[2])) == [a, b, c, d]
            && (d == 0 && c % 4 == 0 ==> o[2] == 0 && (c == 0 && b % 16 == 0 ==> o[1] == 0))
  {
    hide SextetsOf, OctetsOf, FromOctets, FromSextets, Completed;
    GroupOfSextets(a, b, c, d);
    var o := OctetsOf(FromSextets(a, b, c, d));
    GroupOfOctets(o[0], o[1], o[2]);
    SextetPairs(a, b, c, d);
  }

  lemma {:induction false} ShortOctets(bytes: seq<u8>)
    requires |bytes| < 3
    ensures Octets(Sextets(bytes)) == bytes && Whole(Sextets(bytes))
  {
    if |bytes| > 0 {
      OctetsBack(bytes[0], if |bytes| == 2 then bytes[1] else 0, 0);
      hide SextetsOf, OctetsOf, FromOctets, FromSextets;
    }
  }

  /** Filling with zero bits and cutting to whole octets gives the octets back. */
  lemma {:induction false} OctetsOfSextets(bytes: seq<u8>)
    ensures Octets(Sextets(bytes)) == bytes
    ensures Whole(Sextets(bytes))
  {
    if |bytes| < 3 {
      ShortOctets(bytes);
    } else {
      OctetsOfSextets(bytes[3..]);
      OctetsBack(bytes[0], bytes[1], bytes[2]);
      hide SextetsOf, OctetsOf, FromOctets, FromSextets;
      var head, rest := SextetsOf(FromOctets(bytes[0], bytes[1], bytes[2])), Sextets(bytes[3..]);
      OctetsOfGroup(head, rest);
      WholeTail(head, rest);
      assert Sextets(bytes) == head + rest;
      assert bytes == [bytes[0], bytes[1], bytes[2]] + bytes[3..];
    }
  }

  lemma {:induction false} OctetsOfGroup(head: seq<Sextet>, rest: seq<Sextet>)
    requires |head| == 4
    ensures 0 <= FromSextets(head[0], head[1], head[2], head[3]) < 0x100_0000
    ensures Octets(head + rest) == OctetsOf(FromSextets(head[0], head[1], head[2], head[3])) + Octets(rest)
  {
    GroupOfSextets(head[0], head[1], head[2], head[3]);
    hide OctetsOf, FromSextets;
    assert (head + rest)[4..] == rest;
  }

  lemma {:induction false} SextetsOfGroup(head: seq<u8>, rest: seq<u8>)
    requires |head| == 3
    ensures 0 <= FromOctets(head[0], head[1], head[2]) < 0x100_0000
    ensures Sextets(head + rest) == SextetsOf(FromOctets(head[0], head[1], head[2])) + Sextets(rest)
  {
    GroupOfOctets(head[0], head[1], head[2]);
    hide SextetsOf, FromOctets;
    assert (head + rest)[3..] == rest;
  }

  lemma {:induction false} WholeTail(head: seq<Sextet>, rest: seq<Sextet>)
    requires |head| == 4
    ensures Whole(head + rest) <==> Whole(rest)
  {
    assert rest != [] ==> (head + rest)[|head + rest| - 1] == rest[|rest| - 1];
  }

  lemma {:induction false} ShortSextets(s: seq<Sextet>)
    requires |s| < 4
    ensures Sextets(Octets(s)) == s <==> Whole(s)
  {
    if |s| > 1 {
      if Whole(s) {
        ShortWhole(s);
      } else {
        hide Whole, Octets, Sextets;
        OctetsOfSextets(Octets(s));
      }
    }
  }

  lemma {:induction false} ShortWhole(s: seq<Sextet>)
    requires 1 < |s| < 4 && Whole(s)
    ensures Sextets(Octets(s)) == s
  {
    hide SextetsOf, OctetsOf, FromOctets, FromSextets;
    var c := if |s| == 3 then s[2] else 0;
    SextetsBack(s[0], s[1], c, 0);
    assert Octets(s) == OctetsOf(FromSextets(s[0], s[1], c, 0))[..|s| - 1];
  }

  /** Octets lose nothing of exactly the sextets that are whole. */
  lemma {:induction false} SextetsOfOctets(s: seq<Sextet>)
    ensures Sextets(Octets(s)) == s <==> Whole(s)
  {
    if |s| < 4 {
      ShortSextets(s);
    } else {
      SextetsOfOctets(s[4..]);
      SextetsBack(s[0], s[1], s[2], s[3]);
      hide SextetsOf, OctetsOf, FromOctets, FromSextets, Whole, Octets, Sextets;
      var head, rest := s[..4], s[4..];
      assert s == head + rest;
      OctetsOfGroup(head, rest);
      SextetsOfGroup(OctetsOf(FromSextets(s[0], s[1], s[2], s[3])), Octets(rest));
      WholeTail(head, rest);
      SameTail(head, Sextets(Octets(rest)), rest);
    }
  }

  lemma {:induction false} SameTail<T>(head: seq<T>, a: seq<T>, b: seq<T>)
    ensures head + a == head + b <==> a == b
  {
    assert (head + a)[|head|..] == a && (head + b)[|head|..] == b;
  }

  function NextOctet(s: seq<Sextet>, p: Sextet): seq<u8> {
    if |s| % 4 == 0 then [] else [Completed(s[|s| - 1], p, |s| % 4)]
  }

  lemma {:induction false} NextInGroup(head: seq<Sextet>, rest: seq<Sextet>, p: Sextet)
    requires |head| == 4
    ensures NextOctet(head + rest, p) == NextOctet(rest, p)
  {
    assert |head + rest| % 4 == |rest| % 4;
    assert rest != [] ==> (head + rest)[|head + rest| - 1] == rest[|rest| - 1];
  }

  /** The octets of at most one group. */
  lemma {:induction false} OctetsOfFew(s: seq<Sextet>)
    requires |s| <= 4
    ensures |s| < 2 ==> Octets(s) == []
    ensures |s| >= 2 ==> Octets(s) == [Completed(s[0], s[1], 1)] + OctetsOfMore(s)
  {
    if |s| >= 2 {
      GroupOfSextets(s[0], s[1], if |s| > 2 then s[2] else 0, if |s| > 3 then s[3] else 0);
      hide OctetsOf, FromSextets, Completed;
      assert |s| == 4 ==> s[4..] == [];
    }
  }

  function OctetsOfMore(s: seq<Sextet>): seq<u8>
    requires 2 <= |s| <= 4
  {
    (if |s| > 2 then [Completed(s[1], s[2], 2)] else []) + (if |s| > 3 then [Completed(s[2], s[3], 3)] else [])
  }

  lemma {:induction false} ShortSnoc(s: seq<Sextet>, p: Sextet)
    requires |s| < 4
    ensures Octets(s + [p]) == Octets(s) + NextOctet(s, p)
  {
    hide Octets, Completed;
    OctetsOfFew(s);
    OctetsOfFew(s + [p]);
  }

  lemma {:induction false} GroupSnoc(head: seq<Sextet>, rest: seq<Sextet>, p: Sextet)
    requires |head| == 4 && Octets(rest + [p]) == Octets(rest) + NextOctet(rest, p)
    ensures Octets((head + rest) + [p]) == Octets(head + rest) + NextOctet(head + rest, p)
  {
    hide OctetsOf, FromSextets, Octets, NextOctet;
    OctetsOfGroup(head, rest);
    OctetsOfGroup(head, rest + [p]);
    NextInGroup(head, rest, p);
    assert (head + rest) + [p] == head + (rest + [p]);
  }

  /** One more sextet completes an octet unless it starts a group of four. */
  lemma {:induction false} OctetsSnoc(s: seq<Sextet>, p: Sextet)
    ensures Octets(s + [p]) == Octets(s) + NextOctet(s, p)
  {
    hide OctetsOf, FromSextets, Octets, NextOctet;
    if |s| >= 4 {
      OctetsSnoc(s[4..], p);
      assert s == s[..4] + s[4..];
      GroupSnoc(s[..4], s[4..], p);
    } else {
      ShortSnoc(s, p);
    }
  }

  // ---------- text ----------

  /** The digits of a run of sextets. */
  function Chars(s: seq<Sextet>, alphabet: Alphabet): string {
    seq(|s|, i requires 0 <= i < |s| => Digit(alphabet, s[i]))
  }

  function Padding(n: nat): string {
    if n % 3 == 0 then "" else if n % 3 == 1 then "==" else "="
  }

  /** The base64 text of some octets. */
  function Encoded(bytes: seq<u8>, alphabet: Alphabet): string {
    Chars(Sextets(bytes), alphabet) + Padding(|bytes|)
  }

  /** What the digits before the first pad character say: their values, the alphabet found, the text from the pad on. */
  datatype Digest = Digest(values: seq<Sextet>, alphabet: Alphabet, rest: string)

  function Read(text: string, alphabet: Alphabet): Option<Digest> {
    if text == "" || text[0] == '=' then Some(Digest([], alphabet, text))
    else
      match Value(alphabet, text[0])
      case None => None
      case Some(first) =>
        match Read(text[1..], first.alphabet)
        case None => None
        case Some(d) => Some(Digest([first.value] + d.values, d.alphabet, d.rest))
  }

  predicate AllPads(text: string) { forall i :: 0 <= i < |text| ==> text[i] == '=' }

  /** What a text decodes to, None where the original throws. */
  function Decoded(text: string, alphabet: Alphabet, behavior: Behavior): Option<seq<u8>> {
    match Read(text, alphabet)
    case None => None
    case Some(d) => if behavior == Loose || AllPads(d.rest) then Some(Octets(d.values)) else None
  }

  function RequiredEncodeSize(size: nat): nat { (size / 3 + (if size % 3 != 0 then 1 else 0)) * 4 }

  function MaxDecodeSize(size: nat): nat { (size / 4 + (if size % 4 != 0 then 1 else 0)) * 3 }

  lemma {:induction false} EncodedSize(bytes: seq<u8>, alphabet: Alphabet)
    ensures |Encoded(bytes, alphabet)| == RequiredEncodeSize(|bytes|)
  {
  }

  lemma {:induction false} ReadLength(text: string, alphabet: Alphabet)
    requires Read(text, alphabet).Some?
    ensures var d := Read(text, alphabet).value;
            && |d.values| + |d.rest| == |text| && d.rest == text[|d.values|..]
            && (d.rest == "" || d.rest[0] == '=')
            && forall i :: 0 <= i < |d.values| ==> text[i] != '='
  {
    if text != "" && text[0] != '=' {
      var first := Value(alphabet, text[0]).value;
      ReadLength(text[1..], first.alphabet);
      var d := Read(text[1..], first.alphabet).value;
      assert text[1..][|d.values|..] == text[|d.values| + 1..];
      forall i | 0 <= i < |d.values| + 1 ensures text[i] != '=' {
        if i > 0 { assert text[1..][i - 1] != '='; }
      }
    }
  }

  lemma {:induction false} DecodedSize(text: string, alphabet: Alphabet, behavior: Behavior)
    ensures var r := Decoded(text, alphabet, behavior);
            r.Some? ==> |r.value| <= 3 * |text| / 4 <= MaxDecodeSize(|text|)
  {
    if Decoded(text, alphabet, behavior).Some? { ReadLength(text, alphabet); }
  }

  // ---------- what decoding says of encoded text ----------

  /** Digits of one alphabet are read by an alphabet that is the same or yet to be found, or when none of them tells. */
  predicate Legible(s: seq<Sextet>, alphabet: Alphabet, written: Alphabet) {
    Reads(alphabet, written) || Neutral(s)
  }

  predicate Neutral(s: seq<Sextet>) { forall i :: 0 <= i < |s| ==> s[i] < 62 }

  lemma {:induction false} ReadStep(c: char, text: string, alphabet: Alphabet)
    requires c != '='
    ensures Read([c] + text, alphabet) ==
            match Value(alphabet, c)
            case None => None
            case Some(first) =>
              match Read(text, first.alphabet)
              case None => None
              case Some(d) => Some(Digest([first.value] + d.values, d.alphabet, d.rest))
  {
    assert ([c] + text)[1..] == text;
  }

  lemma {:induction false} NotPad(alphabet: Alphabet, v: Sextet)
    ensures Digit(alphabet, v) != '='
  {
    DigitIs(alphabet, v);
  }

  lemma {:induction false} NeutralCons(v: Sextet, s: seq<Sextet>)
    ensures Neutral([v] + s) <==> v < 62 && Neutral(s)
  {
    if Neutral([v] + s) {
      assert ([v] + s)[0] == v;
      forall i | 0 <= i < |s| ensures s[i] < 62 { assert ([v] + s)[i + 1] == s[i]; }
    }
  }

  lemma {:induction false} CharsCons(v: Sextet, s: seq<Sextet>, alphabet: Alphabet, rest: string)
    ensures Chars([v] + s, alphabet) + rest == [Digit(alphabet, v)] + (Chars(s, alphabet) + rest)
  {
    hide Digit;
    assert Chars([v] + s, alphabet) == [Digit(alphabet, v)] + Chars(s, alphabet);
  }

  lemma {:induction false} ReadChars(s: seq<Sextet>, alphabet: Alphabet, written: Alphabet, rest: string)
    requires written != Auto && (rest == "" || rest[0] == '=')
    ensures Read(Chars(s, written) + rest, alphabet) ==
            if Legible(s, alphabet, written) then Some(Digest(s, if Neutral(s) then alphabet else written, rest)) else None
  {
    if s == [] {
      assert Chars(s, written) + rest == rest;
    } else {
      ValueOfDigit(alphabet, written, s[0]);
      NotPad(written, s[0]);
      assert s == [s[0]] + s[1..];
      CharsCons(s[0], s[1..], written, rest);
      NeutralCons(s[0], s[1..]);
      hide Digit, Value, Read, Chars, Neutral;
      ReadStep(Digit(written, s[0]), Chars(s[1..], written) + rest, alphabet);
      ReadChars(s[1..], if s[0] < 62 then alphabet else written, written, rest);
    }
  }

  /** Encoding then decoding gives the octets back, exactly when the alphabet reads what was written. */
  lemma {:induction false} DecodeEncoded(bytes: seq<u8>, written: Alphabet, alphabet: Alphabet, behavior: Behavior)
    requires written != Auto
    ensures Decoded(Encoded(bytes, written), alphabet, behavior) ==
            if Legible(Sextets(bytes), alphabet, written) then Some(bytes) else None
  {
    ReadChars(Sextets(bytes), alphabet, written, Padding(|bytes|));
    OctetsOfSextets(bytes);
  }

  /** Encoding without naming an alphabet is encoding in the standard one. */
  lemma {:induction false} RoundTrip(bytes: seq<u8>, behavior: Behavior)
    ensures Decoded(Encoded(bytes, Standard), Standard, behavior) == Some(bytes)
    ensures Decoded(Encoded(bytes, UrlSafe), UrlSafe, behavior) == Some(bytes)
    ensures Decoded(Encoded(bytes, Standard), Auto, behavior) == Some(bytes)
    ensures Decoded(Encoded(bytes, UrlSafe), Auto, behavior) == Some(bytes)
    ensures Encoded(bytes, Auto) == Encoded(bytes, Standard)
  {
    DecodeEncoded(bytes, Standard, Standard, behavior);
    DecodeEncoded(bytes, UrlSafe, UrlSafe, behavior);
    DecodeEncoded(bytes, Standard, Auto, behavior);
    DecodeEncoded(bytes, UrlSafe, Auto, behavior);
  }

  // ---------- what encoding says of decoded text ----------

  lemma {:induction false} SettledStays(text: string, alphabet: Alphabet)
    requires alphabet != Auto && Read(text, alphabet).Some?
    ensures Read(text, alphabet).value.alphabet == alphabet
  {
    if text != "" && text[0] != '=' {
      DigitOfValue(alphabet, text[0]);
      SettledStays(text[1..], alphabet);
    }
  }

  /** What was read is the digits of its values, in the alphabet found. */
  lemma {:induction false} ReadIsChars(text: string, alphabet: Alphabet)
    requires Read(text, alphabet).Some?
    ensures var d := Read(text, alphabet).value; text == Chars(d.values, d.alphabet) + d.rest
  {
    if text == "" || text[0] == '=' {
      assert text == Chars([], alphabet) + text;
    } else {
      var first := Value(alphabet, text[0]).value;
      ReadIsChars(text[1..], first.alphabet);
      var d := Read(text[1..], first.alphabet).value;
      if first.alphabet != Auto { SettledStays(text[1..], first.alphabet); }
      FirstDigit(alphabet, text[0], d.alphabet);
      CharsCons(first.value, d.values, d.alphabet, d.rest);
      assert text == [text[0]] + text[1..];
    }
  }

  lemma {:induction false} FirstDigit(alphabet: Alphabet, c: char, found: Alphabet)
    requires Value(alphabet, c).Some?
    requires Value(alphabet, c).value.alphabet in {Auto, found}
    ensures Digit(found, Value(alphabet, c).value.value) == c
  {
    DigitIs(found, Value(alphabet, c).value.value);
  }

  /** A decoded text is what encoding its octets writes exactly when it is padded in full and wastes no bit. */
  lemma {:induction false} EncodeDecoded(text: string, alphabet: Alphabet, behavior: Behavior)
    requires Decoded(text, alphabet, behavior).Some?
    ensures var bytes, d := Decoded(text, alphabet, behavior).value, Read(text, alphabet).value;
            Encoded(bytes, d.alphabet) == text <==> Whole(d.values) && d.rest == Padding(|bytes|)
  {
    var bytes, d := Decoded(text, alphabet, behavior).value, Read(text, alphabet).value;
    ReadIsChars(text, alphabet);
    SextetsOfOctets(d.values);
    hide Octets, Sextets, Whole, Read, Chars;
    if Encoded(bytes, d.alphabet) == text {
      var written := if d.alphabet == Auto then Standard else d.alphabet;
      SameDigits(Sextets(bytes), d.alphabet, written);
      ReadChars(Sextets(bytes), alphabet, written, Padding(|bytes|));
    }
  }

  lemma {:induction false} SameDigits(s: seq<Sextet>, alphabet: Alphabet, written: Alphabet)
    requires written == if alphabet == Auto then Standard else alphabet
    ensures Chars(s, alphabet) == Chars(s, written)
  {
  }

  /** Detecting the alphabet is trying one and then the other. */
  lemma {:induction false} DetectionTriesBoth(text: string, behavior: Behavior)
    ensures Decoded(text, Auto, behavior) ==
            if Decoded(text, Standard, behavior).Some? then Decoded(text, Standard, behavior)
            else Decoded(text, UrlSafe, behavior)
  {
    ReadEither(text);
    if Read(text, Standard).Some? { ReadLength(text, Standard); }
    if Read(text, UrlSafe).Some? { ReadLength(text, UrlSafe); }
  }

  /** A character means the same to the detecting alphabet as to the one or both that know it. */
  lemma {:induction false} ValueEither(c: char)
    ensures var auto, s, u := Value(Auto, c), Value(Standard, c), Value(UrlSafe, c);
            || (auto.None? && s.None? && u.None?)
            || (auto.Some? && auto.value.alphabet == Auto
                && s == Some(Reading(auto.value.value, Standard)) && u == Some(Reading(auto.value.value, UrlSafe)))
            || (auto.Some? && auto.value.alphabet == Standard && s == auto && u.None?)
            || (auto.Some? && auto.value.alphabet == UrlSafe && u == auto && s.None?)
  {
  }

  lemma {:induction false} ReadEither(text: string)
    ensures var auto, s, u := Read(text, Auto), Read(text, Standard), Read(text, UrlSafe);
            && (auto.Some? <==> s.Some? || u.Some?)
            && (s.Some? ==> s.value.values == auto.value.values && s.value.rest == auto.value.rest)
            && (u.Some? ==> u.value.values == auto.value.values && u.value.rest == auto.value.rest)
  {
    if text != "" && text[0] != '=' {
      ReadEither(text[1..]);
      assert text == [text[0]] + text[1..];
      ReadStep(text[0], text[1..], Auto);
      ReadStep(text[0], text[1..], Standard);
      ReadStep(text[0], text[1..], UrlSafe);
      ValueEither(text[0]);
      hide Read, Value;
    }
  }

  // ---------- the same bits ----------

  /** Digits of `bits` bits each, the first one the most significant. */
  function Number(digits: seq<nat>, bits: nat): nat {
    if digits == [] then 0 else digits[0] * Pow2(bits * (|digits| - 1)) + Number(digits[1..], bits)
  }

  lemma {:induction false} NumberConcat(head: seq<nat>, rest: seq<nat>, bits: nat)
    ensures Number(head + rest, bits) == Number(head, bits) * Pow2(bits * |rest|) + Number(rest, bits)
  {
    hide Pow2, Number;
    if head == [] {
      assert head + rest == rest;
      NumberOfNone(bits);
    } else {
      assert (head + rest)[1..] == head[1..] + rest;
      NumberConcat(head[1..], rest, bits);
      NumberStep(head + rest, bits);
      NumberStep(head, bits);
      PlacesAdd(bits, |head| - 1, |rest|);
      assert |head + rest| - 1 == |head| - 1 + |rest|;
      Spread(head[0], Pow2(bits * (|head| - 1)), Number(head[1..], bits), Pow2(bits * |rest|));
    }
  }

  lemma {:induction false} NumberOfNone(bits: nat)
    ensures Number([], bits) == 0
  {
  }

  lemma {:induction false} PlacesAdd(bits: nat, m: nat, n: nat)
    ensures Pow2(bits * (m + n)) == Pow2(bits * m) * Pow2(bits * n)
  {
    assert bits * (m + n) == bits * m + bits * n;
    Pow2Add(bits * m, bits * n);
  }

  lemma {:induction false} NumberStep(digits: seq<nat>, bits: nat)
    requires digits != []
    ensures Number(digits, bits) == digits[0] * Pow2(bits * (|digits| - 1)) + Number(digits[1..], bits)
  {
  }

  lemma {:induction false} Spread(a: nat, x: nat, b: nat, y: nat)
    ensures (a * x + b) * y == a * (x * y) + b * y
  {
    assert (a * x + b) * y == (a * x) * y + b * y;
    assert (a * x) * y == a * (x * y);
  }

  lemma {:induction false} NumberOfTwo(a: nat, b: nat, bits: nat)
    ensures Number([a, b], bits) == a * Pow2(bits) + b && Number([b], bits) == b
  {
    assert [a, b][1..] == [b] && [b][1..] == [];
    assert Pow2(bits * 0) == 1;
    NumberStep([a, b], bits);
    NumberStep([b], bits);
    assert bits * (|[a, b]| - 1) == bits && bits * (|[b]| - 1) == bits * 0;
  }

  lemma {:induction false} NumberOfThree(a: nat, b: nat, c: nat, bits: nat)
    ensures Number([a, b, c], bits) == (a * Pow2(bits) + b) * Pow2(bits) + c
  {
    NumberConcat([a, b], [c], bits);
    NumberOfTwo(a, b, bits);
    NumberOfTwo(b, c, bits);
    assert [a, b] + [c] == [a, b, c];
  }

  lemma {:induction false} NumberOfFour(a: nat, b: nat, c: nat, d: nat, bits: nat)
    ensures Number([a, b, c, d], bits) == ((a * Pow2(bits) + b) * Pow2(bits) + c) * Pow2(bits) + d
  {
    NumberConcat([a, b, c], [d], bits);
    NumberOfThree(a, b, c, bits);
    NumberOfTwo(c, d, bits);
    assert [a, b, c] + [d] == [a, b, c, d];
  }

  lemma {:induction false} SmallPowers()
    ensures Pow2(2) == 4 && Pow2(4) == 16 && Pow2(6) == 64 && Pow2(8) == 256 && Pow2(24) == 0x100_0000
  {
    assert Pow2(8) == 256 && Pow2(6) == 64;
    Pow2Words();
    Pow2Add(8, 16);
  }

  /** A group's octets and its sextets spell the same 24-bit number. */
  lemma {:induction false} SameGroup(a: u8, b: u8, c: u8)
    ensures 0 <= FromOctets(a, b, c) < 0x100_0000
    ensures Number(SextetsOf(FromOctets(a, b, c)), 6) == FromOctets(a, b, c) == Number([a, b, c], 8)
  {
    SmallPowers();
    GroupOfOctets(a, b, c);
    hide Pow2, Number, SextetsOf;
    NumberOfThree(a, b, c, 8);
    var s := SextetsOf(FromOctets(a, b, c));
    NumberOfFour(s[0], s[1], s[2], s[3], 6);
  }

  /** How many zero bits fill the last sextet. */
  function Filled(n: nat): nat { if n % 3 == 0 then 0 else if n % 3 == 1 then 4 else 2 }

  lemma {:induction false} OneOctet(a: u8)
    ensures Number(Sextets([a]), 6) == a * 16 == Number([a], 8) * 16
  {
    SmallPowers();
    GroupOfOctets(a, 0, 0);
    hide Pow2, Number, SextetsOf;
    NumberOfTwo(a as int / 4, a as int % 4 * 16, 6);
    NumberOfTwo(0, a, 8);
    assert Sextets([a]) == [a as int / 4, a as int % 4 * 16];
  }

  lemma {:induction false} TwoOctets(a: u8, b: u8)
    ensures Number(Sextets([a, b]), 6) == (a as int * 256 + b) * 4 == Number([a, b], 8) * 4
  {
    SmallPowers();
    GroupOfOctets(a, b, 0);
    hide Pow2, Number, SextetsOf;
    NumberOfThree(a as int / 4, a as int % 4 * 16 + b as int / 16, b as int % 16 * 4, 6);
    NumberOfTwo(a, b, 8);
    assert Sextets([a, b]) == [a as int / 4, a as int % 4 * 16 + b as int / 16, b as int % 16 * 4];
  }

  lemma {:induction false} ShortSameBits(bytes: seq<u8>)
    requires |bytes| < 3
    ensures 6 * |Sextets(bytes)| == 8 * |bytes| + Filled(|bytes|)
    ensures Number(Sextets(bytes), 6) == Number(bytes, 8) * Pow2(Filled(|bytes|))
  {
    SmallPowers();
    if |bytes| == 1 {
      OneOctet(bytes[0]);
      hide Number, Sextets;
      assert bytes == [bytes[0]];
    } else if |bytes| == 2 {
      TwoOctets(bytes[0], bytes[1]);
      hide Number, Sextets;
      assert bytes == [bytes[0], bytes[1]];
    }
  }

  /** Two runs of the same bits behind two groups of the same bits. */
  lemma {:induction false} BehindGroup(head: seq<nat>, digits: seq<nat>, octets: seq<nat>, rest: seq<nat>, w: nat, fill: nat)
    requires Number(head, 6) == w == Number(octets, 8) && Number(digits, 6) == Number(rest, 8) * Pow2(fill)
    requires 6 * |digits| == 8 * |rest| + fill
    ensures Number(head + digits, 6) == Number(octets + rest, 8) * Pow2(fill)
  {
    NumberConcat(head, digits, 6);
    NumberConcat(octets, rest, 8);
    Pow2Add(8 * |rest|, fill);
    hide Pow2, Number;
    Spread(w, Pow2(8 * |rest|), Number(rest, 8), Pow2(fill));
  }

  /** The sextets are the bits of the octets in order, with zero bits behind. */
  lemma {:induction false} SameBits(bytes: seq<u8>)
    ensures 6 * |Sextets(bytes)| == 8 * |bytes| + Filled(|bytes|)
    ensures Number(Sextets(bytes), 6) == Number(bytes, 8) * Pow2(Filled(|bytes|))
  {
    hide Pow2, Number, SextetsOf, Sextets, FromOctets;
    if |bytes| < 3 {
      ShortSameBits(bytes);
    } else {
      SameBits(bytes[3..]);
      SameBitsStep(bytes);
    }
  }

  lemma {:induction false} SameBitsStep(bytes: seq<u8>)
    requires |bytes| >= 3
    requires 6 * |Sextets(bytes[3..])| == 8 * |bytes[3..]| + Filled(|bytes[3..]|)
    requires Number(Sextets(bytes[3..]), 6) == Number(bytes[3..], 8) * Pow2(Filled(|bytes[3..]|))
    ensures Number(Sextets(bytes), 6) == Number(bytes, 8) * Pow2(Filled(|bytes|))
  {
    hide Pow2, Number, SextetsOf, Sextets, FromOctets;
    var head, rest := bytes[..3], bytes[3..];
    SameGroup(bytes[0], bytes[1], bytes[2]);
    SextetsOfGroup(head, rest);
    var w := FromOctets(bytes[0], bytes[1], bytes[2]);
    assert bytes == head + rest && head == [bytes[0], bytes[1], bytes[2]];
    assert Filled(|rest|) == Filled(|bytes|);
    BehindGroup(SextetsOf(w), Sextets(rest), head, rest, w, Filled(|rest|));
  }

  lemma {:induction false} Spelled(s: seq<Sextet>, alphabet: Alphabet, text: string)
    requires |s| == |text| && forall i :: 0 <= i < |s| ==> DigitByRange(alphabet, s[i]) == text[i]
    ensures Chars(s, alphabet) == text
  {
    forall i | 0 <= i < |s| ensures Chars(s, alphabet)[i] == text[i] { DigitIs(alphabet, s[i]); }
  }

  /** Two of the test vectors of section 10 of RFC 4648, and one text that the two alphabets spell differently. */
  lemma {:induction false} TestVectors()
    ensures Encoded([0x66, 0x6F, 0x6F, 0x62, 0x61], Standard) == "Zm9vYmE="
    ensures Encoded([0x66, 0x6F, 0x6F, 0x62], Standard) == "Zm9vYg=="
    ensures Encoded([0xFB, 0xFF], Standard) == "+/8=" && Encoded([0xFB, 0xFF], UrlSafe) == "-_8="
  {
    hide Digit, Sextets, Chars;
    VectorFive();
    VectorFour();
    VectorTwo();
    Spelled([25, 38, 61, 47, 24, 38, 4], Standard, "Zm9vYmE");
    Spelled([25, 38, 61, 47, 24, 32], Standard, "Zm9vYg");
    Spelled([62, 63, 60], Standard, "+/8");
    Spelled([62, 63, 60], UrlSafe, "-_8");
  }

  lemma {:induction false} VectorFive()
    ensures Sextets([0x66, 0x6F, 0x6F, 0x62, 0x61]) == [25, 38, 61, 47, 24, 38, 4]
  {
    var bytes: seq<u8> := [0x66, 0x6F, 0x6F, 0x62, 0x61];
    GroupOfOctets(0x66, 0x6F, 0x6F);
    GroupOfOctets(0x62, 0x61, 0);
    hide SextetsOf, FromOctets;
    assert bytes[3..] == [0x62, 0x61];
    assert Sextets(bytes[3..]) == [24, 38, 4];
  }

  lemma {:induction false} VectorFour()
    ensures Sextets([0x66, 0x6F, 0x6F, 0x62]) == [25, 38, 61, 47, 24, 32]
  {
    var bytes: seq<u8> := [0x66, 0x6F, 0x6F, 0x62];
    GroupOfOctets(0x66, 0x6F, 0x6F);
    GroupOfOctets(0x62, 0, 0);
    hide SextetsOf, FromOctets;
    assert bytes[3..] == [0x62];
    assert Sextets(bytes[3..]) == [24, 32];
  }

  lemma {:induction false} VectorTwo()
    ensures Sextets([0xFB, 0xFF]) == [62, 63, 60]
  {
    GroupOfOctets(0xFB, 0xFF, 0);
    hide SextetsOf, FromOctets;
  }

  // ---------- what stands behind the digits ----------

  lemma {:induction false} ReadUpToPad(text: string, tail: string, alphabet: Alphabet)
    requires '=' !in text && (tail == "" || tail[0] == '=')
    ensures match Read(text, alphabet)
            case None => Read(text + tail, alphabet) == None
            case Some(d) => d.rest == "" && Read(text + tail, alphabet) == Some(d.(rest := tail))
  {
    if text == "" {
      assert text + tail == tail;
    } else {
      assert text[0] in text && (text + tail)[1..] == text[1..] + tail;
      if Value(alphabet, text[0]).Some? { ReadUpToPad(text[1..], tail, Value(alphabet, text[0]).value.alphabet); }
      hide Value;
    }
  }

  /** From the first pad on, loose decoding takes anything and moderate decoding only pads; neither changes the octets. */
  lemma {:induction false} BehindThePad(text: string, tail: string, alphabet: Alphabet)
    requires '=' !in text && tail != "" && tail[0] == '='
    ensures Decoded(text + tail, alphabet, Loose) == Decoded(text, alphabet, Loose)
    ensures Decoded(text + tail, alphabet, Moderate) ==
            if forall i :: 0 <= i < |tail| ==> tail[i] == '=' then Decoded(text, alphabet, Moderate) else None
  {
    ReadUpToPad(text, tail, alphabet);
    hide Read, Octets;
  }

  // ---------- the loops ----------

  /** The four sextets of the octets a, b, c. */
  function First(a: u8): Sextet { a as int / 4 }
  function Second(a: u8, b: u8): Sextet { a as int % 4 * 16 + b as int / 16 }
  function Third(b: u8, c: u8): Sextet { b as int % 16 * 4 + c as int / 64 }
  function Fourth(c: u8): Sextet { c as int % 64 }

  lemma {:induction false} FourSextets(a: u8, b: u8, c: u8)
    ensures 0 <= FromOctets(a, b, c) < 0x100_0000
    ensures SextetsOf(FromOctets(a, b, c)) == [First(a), Second(a, b), Third(b, c), Fourth(c)]
  {
    GroupOfOctets(a, b, c);
    hide SextetsOf, FromOctets;
  }

  lemma {:induction false} CharsConcat(s: seq<Sextet>, t: seq<Sextet>, alphabet: Alphabet)
    ensures Chars(s + t, alphabet) == Chars(s, alphabet) + Chars(t, alphabet)
  {
    hide Digit;
  }

  lemma {:induction false} FourChars(p: Sextet, q: Sextet, r: Sextet, t: Sextet, alphabet: Alphabet)
    ensures Chars([p, q, r, t], alphabet) == [Digit(alphabet, p), Digit(alphabet, q), Digit(alphabet, r), Digit(alphabet, t)]
  {
    hide Digit;
  }

  lemma {:induction false} EncodedNone(bytes: seq<u8>, alphabet: Alphabet)
    requires bytes == []
    ensures Encoded(bytes, alphabet) == ""
  {
  }

  lemma {:induction false} PaddingStep(n: nat)
    ensures Padding(n + 3) == Padding(n)
  {
    assert (n + 3) % 3 == n % 3;
  }

  lemma {:induction false} EncodedInParts(bytes: seq<u8>, head: seq<Sextet>, rest: seq<u8>, alphabet: Alphabet)
    requires Sextets(bytes) == head + Sextets(rest) && |bytes| == |rest| + 3
    ensures Encoded(bytes, alphabet) == Chars(head, alphabet) + Encoded(rest, alphabet)
  {
    hide Chars, Padding, Sextets;
    CharsConcat(head, Sextets(rest), alphabet);
    PaddingStep(|rest|);
    assert (Chars(head, alphabet) + Chars(Sextets(rest), alphabet)) + Padding(|rest|)
        == Chars(head, alphabet) + (Chars(Sextets(rest), alphabet) + Padding(|rest|));
  }

  lemma {:induction false} EncodedGroup(a: u8, b: u8, c: u8, rest: seq<u8>, alphabet: Alphabet)
    ensures Encoded([a, b, c] + rest, alphabet) ==
            [Digit(alphabet, First(a)), Digit(alphabet, Second(a, b)), Digit(alphabet, Third(b, c)), Digit(alphabet, Fourth(c))]
            + Encoded(rest, alphabet)
  {
    hide Digit, SextetsOf, FromOctets, Sextets, First, Second, Third, Fourth, Chars, Padding, Encoded;
    SextetsOfGroup([a, b, c], rest);
    FourSextets(a, b, c);
    EncodedInParts([a, b, c] + rest, [First(a), Second(a, b), Third(b, c), Fourth(c)], rest, alphabet);
    FourChars(First(a), Second(a, b), Third(b, c), Fourth(c), alphabet);
  }

  lemma {:induction false} EncodedLast(a: u8, b: u8, alphabet: Alphabet)
    ensures Encoded([a], alphabet) == [Digit(alphabet, First(a)), Digit(alphabet, Second(a, 0)), '=', '=']
    ensures Encoded([a, b], alphabet) ==
            [Digit(alphabet, First(a)), Digit(alphabet, Second(a, b)), Digit(alphabet, Third(b, 0)), '=']
  {
    FourSextets(a, 0, 0);
    FourSextets(a, b, 0);
    hide Digit, SextetsOf, FromOctets, First, Second, Third, Fourth;
  }

  /** Fields that do not overlap are joined by OR as they are by addition. */
  lemma {:induction false} OrSecond(a: u8, b: u8)
    ensures BitOr(a as int % 4 * 16, b as int / 16 % 16) == Second(a, b)
  {
    hide Pow2, BitOr;
    Powers();
    assert b as int / 16 % 16 == b as int / 16;
    BitOrDisjoint(a as int % 4, b as int / 16, 4);
  }

  lemma {:induction false} OrThird(b: u8, c: u8)
    ensures BitOr(b as int % 16 * 4, c as int / 64 % 4) == Third(b, c)
  {
    hide Pow2, BitOr;
    Powers();
    assert c as int / 64 % 4 == c as int / 64;
    BitOrDisjoint(b as int % 16, c as int / 64, 2);
  }

  /** The places in the table of one group's digits, by shifting, masking and OR-ing. */
  lemma {:induction false} Places(a: u8, b: u8, c: u8)
    ensures a as int / 4 % 64 == First(a)
    ensures a as int % 4 * 16 == Second(a, 0)
    ensures BitOr(a as int % 4 * 16, b as int / 16 % 16) == Second(a, b)
    ensures b as int % 16 * 4 == Third(b, 0)
    ensures BitOr(b as int % 16 * 4, c as int / 64 % 4) == Third(b, c)
    ensures c as int % 64 == Fourth(c)
  {
    OrSecond(a, b);
    OrThird(b, c);
    hide BitOr;
  }

  lemma {:induction false} Shifted(was: string, group: string, rest: string, out: string)
    requires |group| == 4 && out == was + [group[0]] + [group[1]] + [group[2]] + [group[3]]
    ensures out + rest == was + (group + rest)
  {
    assert group == [group[0]] + [group[1]] + [group[2]] + [group[3]];
  }

  method Encode(bytes: seq<u8>, alphabet: Alphabet) returns (out: string)
    ensures out == Encoded(bytes, alphabet)
  {
    hide BitOr, Encoded, First, Second, Third, Fourth, Digits;
    var alpha := Digits(alphabet);
    DigitsLength(alphabet);
    out := "";
    EncodedNone([], alphabet);
    var at := 0;
    while at < |bytes|
      invariant 0 <= at <= |bytes|
      invariant out + Encoded(bytes[at..], alphabet) == Encoded(bytes, alphabet)
      invariant at == |bytes| ==> out == Encoded(bytes, alphabet)
    {
      ghost var was := out;
      var i0: u8 := bytes[at];
      at := at + 1;
      Places(i0, 0, 0);
      out := out + [alpha[i0 as int / 4 % 64]];
      if at == |bytes| {
        EncodedLast(i0, 0, alphabet);
        assert bytes[at - 1..] == [i0];
        out := out + [alpha[i0 as int % 4 * 16]];
        out := out + ['='];
        out := out + ['='];
        assert out == was + Encoded([i0], alphabet);
        break;
      }
      var i1: u8 := bytes[at];
      at := at + 1;
      Places(i0, i1, 0);
      out := out + [alpha[BitOr(i0 as int % 4 * 16, i1 as int / 16 % 16)]];
      if at == |bytes| {
        EncodedLast(i0, i1, alphabet);
        assert bytes[at - 2..] == [i0, i1];
        out := out + [alpha[i1 as int % 16 * 4]];
        out := out + ['='];
        assert out == was + Encoded([i0, i1], alphabet);
        break;
      }
      var i2: u8 := bytes[at];
      at := at + 1;
      Places(i0, i1, i2);
      EncodedGroup(i0, i1, i2, bytes[at..], alphabet);
      assert bytes[at - 3..] == [i0, i1, i2] + bytes[at..];
      out := out + [alpha[BitOr(i1 as int % 16 * 4, i2 as int / 64 % 4)]];
      out := out + [alpha[i2 as int % 64]];
      Shifted(was, [Digit(alphabet, First(i0)), Digit(alphabet, Second(i0, i1)), Digit(alphabet, Third(i1, i2)), Digit(alphabet, Fourth(i2))],
              Encoded(bytes[at..], alphabet), out);
      if at == |bytes| { EncodedNone(bytes[at..], alphabet); }
    }
  }

  /** What reading on from the middle of a text adds to the values seen so far. */
  ghost function After(seen: seq<Sextet>, rest: Option<Digest>): Option<Digest> {
    match rest
    case None => None
    case Some(d) => Some(Digest(seen + d.values, d.alphabet, d.rest))
  }

  /** The decoder's registers after the sextets seen: the last of them and how many bits of it are pending. */
  predicate Registers(seen: seq<Sextet>, last: int, bits: int) {
    && bits == (if |seen| % 4 == 0 then 0 else 8 - 2 * (|seen| % 4))
    && last == (if seen == [] then 0 else seen[|seen| - 1])
  }

  /** The octet that the registers and the next sextet make, as an octet keeps it. */
  function Merged(last: nat, part: nat, bits: nat): u8
    requires 2 <= bits <= 6
  {
    BitOr(last * Pow2(8 - bits), part / Pow2(bits - 2)) % 256
  }

  lemma {:induction false} MergedFirst(last: Sextet, part: Sextet)
    ensures Merged(last, part, 6) == last as int * 4 + part as int / 16
  {
    hide BitOr, Pow2;
    Powers();
    BitOrDisjoint(last, part as int / 16, 2);
  }

  lemma {:induction false} MergedSecond(last: Sextet, part: Sextet)
    ensures Merged(last, part, 4) == last as int % 16 * 16 + part as int / 4
  {
    hide BitOr, Pow2;
    Powers();
    BitOrDisjoint(last, part as int / 4, 4);
    DivUnique(last as int * 16 + part as int / 4, 256, last as int / 16, last as int % 16 * 16 + part as int / 4);
  }

  lemma {:induction false} MergedThird(last: Sextet, part: Sextet)
    ensures Merged(last, part, 2) == last as int % 4 * 64 + part as int
  {
    hide BitOr, Pow2;
    Powers();
    BitOrDisjoint(last, part as int, 6);
    DivUnique(last as int * 64 + part as int, 256, last as int / 4, last as int % 4 * 64 + part as int);
  }

  lemma {:induction false} MergedIsCompleted(last: Sextet, part: Sextet, r: nat)
    requires 1 <= r <= 3
    ensures Merged(last, part, 8 - 2 * r) == Completed(last, part, r)
  {
    hide Merged;
    if r == 1 { MergedFirst(last, part); } else if r == 2 { MergedSecond(last, part); } else { MergedThird(last, part); }
  }

  lemma {:induction false} Powers()
    ensures Pow2(0) == 1 && Pow2(2) == 4 && Pow2(4) == 16 && Pow2(6) == 64
  {
    assert Pow2(2) == 4;
    assert Pow2(4) == 16;
  }

  /** One digit: either it completes an octet, or it starts a group. */
  lemma {:induction false} Advance(seen: seq<Sextet>, last: Sextet, part: Sextet, bits: nat)
    requires Registers(seen, last, bits)
    ensures bits + 6 >= 8 ==> bits <= 6 && Octets(seen + [part]) == Octets(seen) + [Merged(last, part, bits)]
                              && Registers(seen + [part], part, bits - 2)
    ensures bits + 6 < 8 ==> Octets(seen + [part]) == Octets(seen) && Registers(seen + [part], part, bits + 6)
  {
    hide Octets, Merged, Completed;
    OctetsSnoc(seen, part);
    if |seen| % 4 != 0 { MergedIsCompleted(last, part, |seen| % 4); }
  }

  /** Where reading stands after one more character. */
  lemma {:induction false} ReadOn(text: string, at: nat, seen: seq<Sextet>, found: Alphabet, whole: Option<Digest>)
    requires at < |text| && After(seen, Read(text[at..], found)) == whole
    ensures text[at] == '=' ==> whole == Some(Digest(seen, found, text[at..]))
    ensures text[at] != '=' ==>
              match Value(found, text[at])
              case None => whole == None
              case Some(first) => After(seen + [first.value], Read(text[at + 1..], first.alphabet)) == whole
  {
    hide Value;
    if text[at] == '=' {
      assert seen + [] == seen;
    } else {
      assert text[at..] == [text[at]] + text[at + 1..];
      ReadStep(text[at], text[at + 1..], found);
      hide Read;
      if Value(found, text[at]).Some? {
        var first := Value(found, text[at]).value;
        var r := Read(text[at + 1..], first.alphabet);
        if r.Some? { assert (seen + [first.value]) + r.value.values == seen + ([first.value] + r.value.values); }
      }
    }
  }

  /** Where a decoder stands that has read `text` up to `at`. */
  ghost predicate Reached(text: string, at: nat, seen: seq<Sextet>, found: Alphabet, last: int, bits: int, whole: Option<Digest>) {
    at <= |text| && Registers(seen, last, bits) && After(seen, Read(text[at..], found)) == whole
  }

  lemma {:induction false} ReachedNext(text: string, at: nat, seen: seq<Sextet>, found: Alphabet, last: Sextet, bits: nat,
                                       whole: Option<Digest>)
    requires at < |text| && Reached(text, at, seen, found, last, bits, whole)
    ensures text[at] == '=' ==> whole == Some(Digest(seen, found, text[at..]))
    ensures text[at] != '=' && Value(found, text[at]).None? ==> whole == None
    ensures text[at] != '=' && Value(found, text[at]).Some? ==>
              var first := Value(found, text[at]).value;
              if bits + 6 >= 8 then
                && bits <= 6 && Octets(seen + [first.value]) == Octets(seen) + [Merged(last, first.value, bits)]
                && Reached(text, at + 1, seen + [first.value], first.alphabet, first.value, bits - 2, whole)
              else
                && Octets(seen + [first.value]) == Octets(seen)
                && Reached(text, at + 1, seen + [first.value], first.alphabet, first.value, bits + 6, whole)
  {
    hide Value, Octets, Merged, Read, After, Registers;
    ReadOn(text, at, seen, found, whole);
    if text[at] != '=' && Value(found, text[at]).Some? {
      Advance(seen, last, Value(found, text[at]).value.value, bits);
    }
  }

  lemma {:induction false} ReachedStart(text: string, alphabet: Alphabet)
    ensures Octets([]) == [] && Reached(text, 0, [], alphabet, 0, 0, Read(text, alphabet))
  {
    assert text[0..] == text;
    var r := Read(text, alphabet);
    if r.Some? { assert [] + r.value.values == r.value.values; }
  }

  lemma {:induction false} ReachedEnd(text: string, seen: seq<Sextet>, found: Alphabet, last: int, bits: int, whole: Option<Digest>)
    requires Reached(text, |text|, seen, found, last, bits, whole)
    ensures whole == Some(Digest(seen, found, text[|text|..]))
  {
    assert seen + [] == seen;
  }

  /** The check of what follows the first pad character. */
  method CheckPadding(text: string, from: nat) returns (ok: bool)
    requires from <= |text|
    ensures ok <==> AllPads(text[from..])
  {
    var at := from;
    while at < |text|
      invariant from <= at <= |text| && AllPads(text[from..at])
    {
      if text[at] != '=' {
        assert text[from..][at - from] == text[at];
        return false;
      }
      assert text[from..at + 1] == text[from..at] + [text[at]];
      at := at + 1;
    }
    assert text[from..at] == text[from..];
    ok := true;
  }

  lemma {:induction false} AllPadsCons(c: char, text: string)
    ensures AllPads([c] + text) <==> c == '=' && AllPads(text)
  {
    if AllPads([c] + text) {
      assert ([c] + text)[0] == c;
      forall i | 0 <= i < |text| ensures text[i] == '=' { assert ([c] + text)[i + 1] == text[i]; }
    }
  }

  lemma {:induction false} PadsFrom(text: string, at: nat)
    requires at < |text| && text[at] == '='
    ensures AllPads(text[at..]) <==> AllPads(text[at + 1..])
  {
    assert text[at..] == [text[at]] + text[at + 1..];
    AllPadsCons(text[at], text[at + 1..]);
  }

  method Decode(text: string, alphabet: Alphabet, behavior: Behavior) returns (r: Option<seq<u8>>)
    ensures r == Decoded(text, alphabet, behavior)
  {
    hide Value, Merged, Read, Octets, Reached;
    var found, out: seq<u8>, last: Sextet, bits: nat, at := alphabet, [], 0, 0, 0;
    ghost var whole, seen, padded := Read(text, alphabet), [], false;
    ReachedStart(text, alphabet);
    while at < |text|
      invariant 0 <= at <= |text| && !padded
      invariant out == Octets(seen) && Reached(text, at, seen, found, last, bits, whole)
    {
      var c := text[at];
      ReachedNext(text, at, seen, found, last, bits, whole);
      at := at + 1;
      if c == '=' {
        PadsFrom(text, at - 1);
        padded := true;
        break;
      }
      var part := Value(found, c);
      if part.None? { return None; }
      if bits + 6 >= 8 {
        out := out + [Merged(last, part.value.value, bits)];
        bits := bits - 2;
      } else {
        bits := bits + 6;
      }
      last := part.value.value;
      found := part.value.alphabet;
      seen := seen + [last];
    }
    if !padded { ReachedEnd(text, seen, found, last, bits, whole); }
    if behavior != Loose {
      var ok := CheckPadding(text, at);
      if !ok { return None; }
    }
    r := Some(out);
  }

  // ---------- decoding in place ----------

  function AsChars(bytes: seq<u8>): (text: string)
    ensures |text| == |bytes|
  {
    seq(|bytes|, i requires 0 <= i < |bytes| => bytes[i] as char)
  }

  /** The octets of `seen` stand at the front of what was the text, and the rest of it is as it was. */
  ghost predicate Written(now: string, was: string, end: nat, seen: seq<Sextet>) {
    && |now| == |was| && end == |Octets(seen)| <= |was|
    && now[..end] == AsChars(Octets(seen)) && now[end..] == was[end..]
  }

  /** Storing one more octet. */
  lemma {:induction false} WrittenMore(now: string, was: string, end: nat, seen: seq<Sextet>, part: Sextet, b: u8)
    requires Written(now, was, end, seen) && end < |was| && Octets(seen + [part]) == Octets(seen) + [b]
    ensures Written(now[end := b as char], was, end + 1, seen + [part])
  {
    hide Octets;
    var next := now[end := b as char];
    assert next[..end + 1] == now[..end] + [b as char];
    assert next[end + 1..] == now[end..][1..] && was[end + 1..] == was[end..][1..];
  }

  /** What lies beyond the octets written has not changed. */
  lemma {:induction false} Unread(now: string, was: string, end: nat, seen: seq<Sextet>, at: nat, size: nat)
    requires Written(now, was, end, seen) && end <= at <= size <= |was|
    ensures now[at..size] == was[..size][at..]
    ensures at < size ==> now[at] == was[..size][at]
  {
    hide Octets, AsChars;
    assert forall i :: end <= i < |was| ==> now[i] == now[end..][i - end] == was[end..][i - end];
  }

  lemma {:induction false} WrittenStart(was: string)
    ensures Written(was, was, 0, [])
  {
    assert was[..0] == AsChars(Octets([]));
  }

  /** Decoding onto the text itself. Nothing is written past what has been read, so the octets are those of the text as it was. */
  method DecodeInPlace(buffer: array<char>, size: nat, alphabet: Alphabet, behavior: Behavior) returns (ok: bool, end: nat)
    requires size <= buffer.Length
    modifies buffer
    ensures ok <==> Decoded(old(buffer[..size]), alphabet, behavior).Some?
    ensures end <= 3 * size / 4
    ensures ok ==> buffer[..end] == AsChars(Decoded(old(buffer[..size]), alphabet, behavior).value)
    ensures buffer[end..] == old(buffer[end..])
  {
    hide Value, Merged, Read, Octets, Reached, AllPads, Written;
    ghost var all, text := buffer[..], buffer[..size];
    var found, last: Sextet, bits: nat, at := alphabet, 0, 0, 0;
    end := 0;
    ghost var whole, seen, padded := Read(text, alphabet), [], false;
    ReachedStart(text, alphabet);
    WrittenStart(all);
    while at < size
      invariant 0 <= at <= size && |seen| == at && end == 3 * at / 4 && !padded
      invariant Written(buffer[..], all, end, seen) && Reached(text, at, seen, found, last, bits, whole)
    {
      var c := buffer[at];
      Unread(buffer[..], all, end, seen, at, size);
      ReachedNext(text, at, seen, found, last, bits, whole);
      at := at + 1;
      if c == '=' {
        PadsFrom(text, at - 1);
        padded := true;
        break;
      }
      var part := Value(found, c);
      if part.None? {
        WrittenTells(buffer[..], all, end, seen);
        ok := false;
        return;
      }
      if bits + 6 >= 8 {
        WrittenMore(buffer[..], all, end, seen, part.value.value, Merged(last, part.value.value, bits));
        buffer[end] := Merged(last, part.value.value, bits) as char;
        end := end + 1;
        bits := bits - 2;
      } else {
        WrittenSame(buffer[..], all, end, seen, part.value.value);
        bits := bits + 6;
      }
      last := part.value.value;
      found := part.value.alphabet;
      seen := seen + [last];
      WrittenLength(buffer[..], all, end, seen);
    }
    if !padded { ReachedEnd(text, seen, found, last, bits, whole); }
    WrittenTells(buffer[..], all, end, seen);
    ok := true;
    if behavior != Loose {
      Unread(buffer[..], all, end, seen, at, size);
      ok := CheckPaddingInPlace(buffer, at, size);
    }
  }

  lemma {:induction false} WrittenLength(now: string, was: string, end: nat, seen: seq<Sextet>)
    requires Written(now, was, end, seen)
    ensures end == 3 * |seen| / 4
  {
    hide Octets;
  }

  lemma {:induction false} WrittenTells(now: string, was: string, end: nat, seen: seq<Sextet>)
    requires Written(now, was, end, seen)
    ensures end <= |now| == |was| && now[..end] == AsChars(Octets(seen)) && now[end..] == was[end..]
  {
    hide Octets;
  }

  lemma {:induction false} WrittenSame(now: string, was: string, end: nat, seen: seq<Sextet>, part: Sextet)
    requires Written(now, was, end, seen) && Octets(seen + [part]) == Octets(seen)
    ensures Written(now, was, end, seen + [part])
  {
    hide Octets;
  }

  method CheckPaddingInPlace(buffer: array<char>, from: nat, size: nat) returns (ok: bool)
    requires from <= size <= buffer.Length
    ensures ok <==> AllPads(buffer[from..size])
  {
    ok := CheckPadding(buffer[..size], from);
    assert buffer[..size][from..] == buffer[from..size];
  }
}
