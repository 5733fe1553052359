/** The bitwise operators of Python on non-negative integers, bit by bit, the arithmetic that they
    amount to where the masks are runs of ones, and 32-bit integers as four bytes. */
module Bits {

  type Byte = b: int | 0 <= b < 256

  function And(a: nat, b: nat): nat {
    if a == 0 || b == 0 then 0 else 2 * And(a / 2, b / 2) + (if a % 2 == 1 && b % 2 == 1 then 1 else 0)
  }

  function Or(a: nat, b: nat): nat {
    if a == 0 then b else if b == 0 then a
    else 2 * Or(a / 2, b / 2) + (if a % 2 == 1 || b % 2 == 1 then 1 else 0)
  }

  function Xor(a: nat, b: nat): nat {
    if a == 0 then b else if b == 0 then a
    else 2 * Xor(a / 2, b / 2) + (if a % 2 != b % 2 then 1 else 0)
  }

  /** Bit k of the number, bit 0 being the least. */
  function Bit(a: nat, k: nat): (b: nat)
    ensures b < 2
  {
    if k == 0 then a % 2 else Bit(a / 2, k - 1)
  }

  lemma {:induction false} NoBit(k: nat)
    ensures Bit(0, k) == 0
  {
    if k > 0 { NoBit(k - 1); }
  }

  /** The operators bit by bit. */
  lemma {:induction false} AndBits(a: nat, b: nat, k: nat)
    ensures Bit(And(a, b), k) == 1 <==> Bit(a, k) == 1 && Bit(b, k) == 1
    decreases k
  {
    NoBit(k);
    if k > 0 && a > 0 && b > 0 { AndBits(a / 2, b / 2, k - 1); }
  }

  lemma {:induction false} OrBits(a: nat, b: nat, k: nat)
    ensures Bit(Or(a, b), k) == 1 <==> Bit(a, k) == 1 || Bit(b, k) == 1
    decreases k
  {
    NoBit(k);
    if k > 0 && a > 0 && b > 0 { OrBits(a / 2, b / 2, k - 1); }
  }

  lemma {:induction false} XorBits(a: nat, b: nat, k: nat)
    ensures Bit(Xor(a, b), k) == 1 <==> Bit(a, k) != Bit(b, k)
    decreases k
  {
    NoBit(k);
    if k > 0 && a > 0 && b > 0 { XorBits(a / 2, b / 2, k - 1); }
  }

  function Pow2(k: nat): (p: nat)
    ensures p >= 1
  {
    if k == 0 then 1 else 2 * Pow2(k - 1)
  }

  lemma {:induction false} AndMask(k: nat, b: nat)
    ensures And(Pow2(k) - 1, b) == b % Pow2(k)
  {
    if k > 0 {
      var m := Pow2(k - 1);
      HalfMask(m);
      AndMask(k - 1, b / 2);
      ModDouble(b, m);
      AndStep(2 * m - 1, b);
    }
  }

  lemma AndStep(a: nat, b: nat)
    requires a % 2 == 1
    ensures And(a, b) == 2 * And(a / 2, b / 2) + b % 2
  {
  }

  lemma HalfMask(m: nat)
    requires m >= 1
    ensures (2 * m - 1) / 2 == m - 1 && (2 * m - 1) % 2 == 1
  {
  }

  lemma ModDouble(b: nat, m: nat)
    requires m > 0
    ensures b % (2 * m) == 2 * (b / 2 % m) + b % 2
  {
    var q, r := b / 2 / m, b / 2 % m;
    assert b / 2 == q * m + r;
    assert 2 * (q * m) == q * (2 * m);
    DivModUnique(b, 2 * m, q, 2 * r + b % 2);
  }

  lemma AtLeastOne(a: int, d: int)
    requires a >= 1 && d > 0
    ensures a * d >= d
  {
    assert (a - 1) * d >= 0;
  }

  lemma DivModUnique(n: int, d: int, q: int, r: int)
    requires d > 0 && 0 <= r < d && n == q * d + r
    ensures n % d == r && n / d == q
  {
    var q', r' := n / d, n % d;
    assert n == q' * d + r';
    if q > q' {
      assert (q - q') * d == q * d - q' * d;
      AtLeastOne(q - q', d);
    } else if q < q' {
      assert (q' - q) * d == q' * d - q * d;
      AtLeastOne(q' - q, d);
    }
  }

  lemma {:induction false} OrDisjoint(x: nat, y: nat, k: nat)
    requires x < Pow2(k)
    ensures Or(x, y * Pow2(k)) == x + y * Pow2(k)
  {
    if k > 0 && x > 0 && y > 0 {
      var m := Pow2(k - 1);
      var z := y * Pow2(k);
      assert z == 2 * (y * m);
      assert z / 2 == y * m && z % 2 == 0;
      assert z > 0;
      OrDisjoint(x / 2, y, k - 1);
    }
  }

  lemma {:induction false} XorByte(a: nat, b: nat, k: nat)
    requires a < Pow2(k) && b < Pow2(k)
    ensures Xor(a, b) < Pow2(k)
  {
    if k > 0 {
      XorByte(a / 2, b / 2, k - 1);
    }
  }

  lemma {:induction false} XorTwice(a: nat, b: nat)
    ensures Xor(Xor(a, b), b) == a
  {
    if a == 0 {
      XorSelf(b);
    } else if b > 0 {
      var x := Xor(a, b);
      XorTwice(a / 2, b / 2);
      assert x / 2 == Xor(a / 2, b / 2) && x % 2 == (if a % 2 != b % 2 then 1 else 0);
    }
  }

  lemma {:induction false} XorSelf(b: nat)
    ensures Xor(b, b) == 0
  {
    if b > 0 { XorSelf(b / 2); }
  }

  /** `a ^ b` of two bytes. */
  function XorBytes(a: Byte, b: Byte): (r: Byte)
    ensures r == Xor(a, b)
  {
    assert Pow2(8) == 256;
    XorByte(a, b, 8);
    Xor(a, b)
  }

  // ----- struct.pack("!I", n) and struct.unpack

  function Pack4(n: int): (s: seq<Byte>)
    requires 0 <= n < 0x1_0000_0000
    ensures |s| == 4 && Unpack4(s) == n
    ensures n == s[0] as int * 0x100_0000 + s[1] as int * 0x1_0000 + s[2] as int * 0x100 + s[3]
  {
    Digits256(n);
    [n / 0x100_0000, n / 0x1_0000 % 256, n / 256 % 256, n % 256]
  }

  function Unpack4(s: seq<Byte>): (n: int)
    requires |s| == 4
    ensures n == s[0] as int * 0x100_0000 + s[1] as int * 0x1_0000 + s[2] as int * 0x100 + s[3]
  {
    ((s[0] as int * 256 + s[1]) * 256 + s[2]) * 256 + s[3]
  }

  lemma Digits256(n: int)
    requires 0 <= n < 0x1_0000_0000
    ensures 0 <= n / 0x100_0000 < 256
    ensures ((n / 0x100_0000 * 256 + n / 0x1_0000 % 256) * 256 + n / 256 % 256) * 256 + n % 256 == n
  {
    assert n / 256 == n / 0x1_0000 * 256 + n / 256 % 256;
    assert n / 0x1_0000 == n / 0x100_0000 * 256 + n / 0x1_0000 % 256;
  }

  lemma Pack4Injective(m: int, n: int)
    requires 0 <= m < 0x1_0000_0000 && 0 <= n < 0x1_0000_0000
    ensures Pack4(m) == Pack4(n) <==> m == n
  {
    assert Unpack4(Pack4(m)) == m && Unpack4(Pack4(n)) == n;
  }

  lemma OneDigit(q: int, b: Byte)
    ensures (q * 256 + b) / 256 == q && (q * 256 + b) % 256 == b
  {
  }

  lemma DivTwice(n: int)
    requires n >= 0
    ensures n / 256 / 256 == n / 0x1_0000 && n / 256 / 256 / 256 == n / 0x100_0000
  {
  }

  lemma Unpack4Range(s: seq<Byte>)
    requires |s| == 4
    ensures 0 <= Unpack4(s) < 0x1_0000_0000 && Pack4(Unpack4(s)) == s
  {
    var a: int := s[0];
    var b := a * 256 + s[1];
    var c := b * 256 + s[2];
    var n := c * 256 + s[3];
    OneDigit(c, s[3]);
    OneDigit(b, s[2]);
    OneDigit(a, s[1]);
    DivTwice(n);
    assert Unpack4(s) == n;
    assert Pack4(n) == [a, s[1], s[2], s[3]];
  }
}
