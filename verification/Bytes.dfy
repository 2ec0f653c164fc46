/** Bytes, big-endian numbers, and decimal and hexadecimal text. */
module Bytes {
  type Byte = x: int | 0 <= x < 256
  type Bytestring = seq<Byte>

  const TWO_TO_64 := 0x1_0000_0000_0000_0000

  type UInt64 = x: int | 0 <= x < TWO_TO_64

  function Pow256(k: nat): (p: nat)
    ensures p > 0
  {
    if k == 0 then 1 else 256 * Pow256(k - 1)
  }

  lemma PowersOf256()
    ensures Pow256(2) == 0x1_0000 && Pow256(4) == 0x1_0000_0000 && Pow256(8) == TWO_TO_64
  {
  }

  /** The low k bytes of v, most significant first. */
  function BigEndian(v: nat, k: nat): (b: Bytestring)
    ensures |b| == k
  {
    if k == 0 then [] else BigEndian(v / 256, k - 1) + [v % 256]
  }

  function Number(b: Bytestring): nat {
    if b == [] then 0 else Number(b[..|b| - 1]) * 256 + b[|b| - 1]
  }

  /** The shortest big-endian form: no bytes at all for zero. */
  function Magnitude(v: nat): Bytestring {
    if v == 0 then [] else Magnitude(v / 256) + [v % 256]
  }

  /** big.Int's Bytes keeps no sign. */
  function Abs(v: int): nat {
    if v < 0 then -v else v
  }

  lemma {:induction false} NumberFits(b: Bytestring)
    ensures Number(b) < Pow256(|b|)
  {
    if b != [] {
      NumberFits(b[..|b| - 1]);
    }
  }

  lemma {:induction false} NumberOfBigEndian(v: nat, k: nat)
    ensures Number(BigEndian(v, k)) == v <==> v < Pow256(k)
  {
    NumberFits(BigEndian(v, k));
    if k > 0 {
      NumberOfBigEndian(v / 256, k - 1);
      assert BigEndian(v, k)[..k - 1] == BigEndian(v / 256, k - 1);
    }
  }

  lemma {:induction false} BigEndianOfNumber(b: Bytestring)
    ensures BigEndian(Number(b), |b|) == b
  {
    if b != [] {
      var front := b[..|b| - 1];
      BigEndianOfNumber(front);
      assert Number(b) / 256 == Number(front) && Number(b) % 256 == b[|b| - 1];
    }
  }

  /** The first byte weighs most. */
  lemma {:induction false} FirstByteWeighs(first: Byte, rest: Bytestring)
    ensures Number([first] + rest) == first * Pow256(|rest|) + Number(rest)
  {
    var b := [first] + rest;
    if rest == [] {
      assert b[..0] == [];
    } else {
      var front, last := rest[..|rest| - 1], rest[|rest| - 1];
      FirstByteWeighs(first, front);
      assert b[..|b| - 1] == [first] + front;
      assert first * Pow256(|front|) * 256 == first * Pow256(|rest|);
    }
  }

  lemma {:induction false} NumberOfMagnitude(v: nat)
    ensures Number(Magnitude(v)) == v
    ensures v > 0 ==> Magnitude(v) != [] && Magnitude(v)[0] != 0
  {
    if v > 0 {
      NumberOfMagnitude(v / 256);
      assert Magnitude(v)[..|Magnitude(v)| - 1] == Magnitude(v / 256);
    }
  }

  predicate NoLeadingZero(b: Bytestring) {
    b != [] ==> b[0] != 0
  }

  /** A number's bytes come back exactly when they start with no zero. */
  lemma {:induction false} MagnitudeOfNumber(b: Bytestring)
    ensures Magnitude(Number(b)) == b <==> NoLeadingZero(b)
    ensures NoLeadingZero(b) && b != [] ==> Number(b) > 0
  {
    if b != [] {
      var front := b[..|b| - 1];
      MagnitudeOfNumber(front);
      NumberOfMagnitude(Number(b));
      assert Number(b) / 256 == Number(front) && Number(b) % 256 == b[|b| - 1];
      if NoLeadingZero(b) {
        if front != [] {
          assert front[0] == b[0];
        }
        assert b == front + [b[|b| - 1]];
      }
    }
  }

  // ----- text

  const COLON: Byte := 58
  const MINUS: Byte := 45

  function Decimal(n: nat): Bytestring {
    if n < 10 then [48 + n] else Decimal(n / 10) + [48 + n % 10]
  }

  function DecimalInt(v: int): Bytestring {
    if v < 0 then [MINUS] + Decimal(-v) else Decimal(v)
  }

  function HexDigit(d: int): Byte
    requires 0 <= d < 16
  {
    if d < 10 then 48 + d else 87 + d
  }

  function Hex(b: Bytestring): (h: Bytestring)
    ensures |h| == 2 * |b|
  {
    if b == [] then [] else Hex(b[..|b| - 1]) + [HexDigit(b[|b| - 1] / 16), HexDigit(b[|b| - 1] % 16)]
  }

  predicate Digits(s: Bytestring) {
    forall i | 0 <= i < |s| :: 48 <= s[i] < 58
  }

  lemma {:induction false} DecimalIsDigits(n: nat)
    ensures Digits(Decimal(n)) && (if n < 10 then |Decimal(n)| == 1 else |Decimal(n)| >= 2)
  {
    if n >= 10 {
      DecimalIsDigits(n / 10);
    }
  }

  lemma {:induction false} DecimalIsInjective(m: nat, n: nat)
    requires Decimal(m) == Decimal(n)
    ensures m == n
  {
    DecimalIsDigits(m);
    DecimalIsDigits(n);
    var s := Decimal(m);
    assert s[|s| - 1] == 48 + m % 10 && s[|s| - 1] == 48 + n % 10;
    if m >= 10 && n >= 10 {
      assert s[..|s| - 1] == Decimal(m / 10) && s[..|s| - 1] == Decimal(n / 10);
      DecimalIsInjective(m / 10, n / 10);
    }
  }

  lemma DecimalIntIsInjective(m: int, n: int)
    requires DecimalInt(m) == DecimalInt(n)
    ensures m == n
  {
    var a, b := if m < 0 then -m else m, if n < 0 then -n else n;
    DecimalIsDigits(a);
    DecimalIsDigits(b);
    assert DecimalInt(m)[0] == MINUS <==> m < 0;
    assert DecimalInt(n)[0] == MINUS <==> n < 0;
    assert m < 0 ==> DecimalInt(m)[1..] == Decimal(a);
    assert n < 0 ==> DecimalInt(n)[1..] == Decimal(b);
    DecimalIsInjective(a, b);
  }

  lemma HexOfByte(x: Byte, y: Byte)
    requires HexDigit(x / 16) == HexDigit(y / 16) && HexDigit(x % 16) == HexDigit(y % 16)
    ensures x == y
  {
  }

  /** Hexadecimal digits are the lower-case ones. */
  lemma HexDigitIs(d: nat)
    requires d < 16
    ensures HexDigit(d) == "0123456789abcdef"[d] as int
  {
  }

  /** What a string of digits stands for. */
  function Value(s: Bytestring): int {
    if s == [] then 0 else 10 * Value(s[..|s| - 1]) + s[|s| - 1] - '0' as int
  }

  lemma {:induction false} DecimalReads(n: nat)
    ensures Value(Decimal(n)) == n
  {
    if n < 10 {
      assert [48 + n][..0] == [];
    } else {
      DecimalReads(n / 10);
      assert Decimal(n)[..|Decimal(n)| - 1] == Decimal(n / 10);
    }
  }

  lemma {:induction false} HexIsInjective(a: Bytestring, b: Bytestring)
    requires Hex(a) == Hex(b)
    ensures a == b
  {
    hide HexDigit;
    assert |a| == |b|;
    if a != [] {
      var h := Hex(a);
      assert h[..|h| - 2] == Hex(a[..|a| - 1]) && h[..|h| - 2] == Hex(b[..|b| - 1]);
      HexIsInjective(a[..|a| - 1], b[..|b| - 1]);
      assert h[|h| - 2] == HexDigit(a[|a| - 1] / 16) == HexDigit(b[|b| - 1] / 16);
      assert h[|h| - 1] == HexDigit(a[|a| - 1] % 16) == HexDigit(b[|b| - 1] % 16);
      HexOfByte(a[|a| - 1], b[|b| - 1]);
      assert a == a[..|a| - 1] + [a[|a| - 1]] && b == b[..|b| - 1] + [b[|b| - 1]];
    }
  }

  lemma {:induction false} TextHasNoColon(v: int, b: Bytestring)
    ensures COLON !in DecimalInt(v) && COLON !in Hex(b)
    decreases |b|
  {
    DecimalIsDigits(if v < 0 then -v else v);
    if b != [] {
      TextHasNoColon(v, b[..|b| - 1]);
    }
  }

  /** The first colon splits a text in one way only. */
  lemma ColonSplits(a: Bytestring, x: Bytestring, b: Bytestring, y: Bytestring)
    requires COLON !in a && COLON !in b
    requires a + [COLON] + x == b + [COLON] + y
    ensures a == b && x == y
  {
    var s, t := a + [COLON] + x, b + [COLON] + y;
    assert s[|a|] == COLON && t[|b|] == COLON;
    assert forall i | 0 <= i < |a| :: s[i] == a[i] && a[i] in a;
    assert forall i | 0 <= i < |b| :: t[i] == b[i] && b[i] in b;
    assert a == s[..|a|] && x == s[|a| + 1..];
    assert b == t[..|b|] && y == t[|b| + 1..];
  }

  lemma LastColonAt(s: Bytestring, a: Bytestring, x: Bytestring)
    requires s == a + [COLON] + x && COLON !in x
    ensures s[|a|] == COLON && forall i | |a| < i < |s| :: s[i] != COLON
  {
  }

  /** So does the last one. */
  lemma LastColonSplits(a: Bytestring, x: Bytestring, b: Bytestring, y: Bytestring)
    requires COLON !in x && COLON !in y
    requires a + [COLON] + x == b + [COLON] + y
    ensures a == b && x == y
  {
    var s := a + [COLON] + x;
    LastColonAt(s, a, x);
    LastColonAt(s, b, y);
    assert a == s[..|a|] && x == s[|a| + 1..];
    assert b == s[..|b|] && y == s[|b| + 1..];
  }
}
