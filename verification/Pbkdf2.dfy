/** The key derivation of wamp/auth.py against section 5.2 of RFC 8018. The keyed hash is any function
    with outputs of one length. */
module Pbkdf2 {
  import opened Bits
  import opened Wrappers

  type Bytes = seq<Byte>

  const LIMIT := 0x1_0000_0000

  /** Every output has `h` bytes. */
  ghost predicate Fixed(prf: Bytes -> Bytes, h: nat) { forall x :: |prf(x)| == h }

  function XorAll(a: Bytes, b: Bytes): (r: Bytes)
    requires |a| == |b|
    ensures |r| == |a|
    ensures forall i :: 0 <= i < |a| ==> r[i] == XorBytes(a[i], b[i])
  {
    seq(|a|, i requires 0 <= i < |a| => XorBytes(a[i], b[i]))
  }

  // ----- the standard

  /** INT (i): four octets, the most significant first. */
  function INT(i: nat): (s: Bytes)
    requires i < 0x1_0000_0000
    ensures |s| == 4 && i == s[0] as int * 0x100_0000 + s[1] as int * 0x1_0000 + s[2] as int * 0x100 + s[3]
  {
    Digits256(i);
    [i / 0x100_0000, i / 0x1_0000 % 0x100, i / 0x100 % 0x100, i % 0x100]
  }

  /** `struct.pack(">I", block)` is just that. */
  lemma PackIsINT(i: nat)
    requires i < LIMIT
    ensures Pack4(i) == INT(i)
  {
    Unpack4Range(INT(i));
  }

  /** U_j. */
  function U(prf: Bytes -> Bytes, salt: Bytes, block: nat, j: nat): Bytes
    requires 0 < block < LIMIT && j > 0
  {
    if j == 1 then prf(salt + INT(block)) else prf(U(prf, salt, block, j - 1))
  }

  /** T_i: U_1 xor ... xor U_c. */
  ghost function F(prf: Bytes -> Bytes, h: nat, salt: Bytes, c: nat, block: nat): (t: Bytes)
    requires Fixed(prf, h) && c > 0 && 0 < block < LIMIT
    ensures |t| == h
    decreases c
  {
    if c == 1 then U(prf, salt, block, 1)
    else XorAll(F(prf, h, salt, c - 1, block), U(prf, salt, block, c))
  }

  /** How many of U_1, ..., U_c have bit k of octet i set. */
  ghost function Ones(prf: Bytes -> Bytes, h: nat, salt: Bytes, c: nat, block: nat, i: nat, k: nat): nat
    requires Fixed(prf, h) && 0 < block < LIMIT && i < h
  {
    if c == 0 then 0 else Ones(prf, h, salt, c - 1, block, i, k) + Bit(U(prf, salt, block, c)[i], k)
  }

  /** Each bit of T_i is the parity of that bit in U_1, ..., U_c. */
  lemma {:induction false} BlockIsParity(prf: Bytes -> Bytes, h: nat, salt: Bytes, c: nat, block: nat, i: nat, k: nat)
    requires Fixed(prf, h) && c > 0 && 0 < block < LIMIT && i < h
    ensures Bit(F(prf, h, salt, c, block)[i], k) == Ones(prf, h, salt, c, block, i, k) % 2
    decreases c
  {
    if c > 1 {
      BlockIsParity(prf, h, salt, c - 1, block, i, k);
      XorBits(F(prf, h, salt, c - 1, block)[i], U(prf, salt, block, c)[i], k);
    } else {
      assert Ones(prf, h, salt, 0, block, i, k) == 0;
    }
  }

  /** U_1 hashes the salt and the block number in four octets, and each later U_j its predecessor. */
  lemma RoundsOf(prf: Bytes -> Bytes, salt: Bytes, block: nat, s: Bytes)
    requires 0 < block < LIMIT
    requires |s| == 4 && block == s[0] as int * 0x100_0000 + s[1] as int * 0x1_0000 + s[2] as int * 0x100 + s[3]
    ensures U(prf, salt, block, 1) == prf(salt + s) && U(prf, salt, block, 2) == prf(prf(salt + s))
  {
    Unpack4Range(s);
    PackIsINT(block);
  }

  /** l * h, by repeated addition. */
  function Times(l: nat, h: nat): (n: nat) { if l == 0 then 0 else Times(l - 1, h) + h }

  lemma {:induction false} TimesIs(l: nat, h: nat)
    ensures Times(l, h) == l * h
  {
    if l > 0 {
      TimesIs(l - 1, h);
      assert l * h == (l - 1) * h + h;
    }
  }

  /** T_1 || ... || T_l. */
  ghost function T(prf: Bytes -> Bytes, h: nat, salt: Bytes, c: nat, l: nat): (t: Bytes)
    requires Fixed(prf, h) && c > 0 && l < LIMIT
    ensures |t| == Times(l, h)
  {
    if l == 0 then [] else T(prf, h, salt, c, l - 1) + F(prf, h, salt, c, l)
  }

  // ----- the program

  /** `-(-keylen // h)`: the least number of blocks that is enough. */
  function Blocks(keylen: int, h: nat): (l: int)
    requires h > 0
    ensures (l - 1) * h < keylen <= l * h
  {
    var q, r := (-keylen) / h, (-keylen) % h;
    assert -keylen == q * h + r;
    assert (-q) * h == -(q * h) && (-q - 1) * h == -(q * h) - h;
    -q
  }

  /** A count below 1 works as 1. */
  function Rounds(iterations: int): nat { if iterations < 1 then 1 else iterations }

  /** `[..][:keylen]` in Python: a negative length counts from the end. */
  function Cut(s: Bytes, keylen: int): Bytes {
    if keylen >= |s| then s
    else if keylen >= 0 then s[..keylen]
    else if |s| + keylen >= 0 then s[..|s| + keylen]
    else []
  }

  /** One block: the inner loop. */
  method Block(prf: Bytes -> Bytes, h: nat, salt: Bytes, iterations: int, block: nat) returns (rv: Bytes)
    requires Fixed(prf, h) && 0 < block < LIMIT
    ensures iterations >= 1 ==> rv == F(prf, h, salt, iterations, block)
    ensures iterations < 1 ==> rv == F(prf, h, salt, 1, block)
  {
    PackIsINT(block);
    var u := prf(salt + Pack4(block));
    rv := u;
    for i := 0 to Rounds(iterations) - 1
      invariant u == U(prf, salt, block, i + 1) && rv == F(prf, h, salt, i + 1, block)
    {
      u := prf(u);
      rv := XorAll(rv, u);
    }
  }

  /** None stands for the exception of `struct.pack`, as the block number outgrows 32 bits. */
  method Derive(prf: Bytes -> Bytes, h: nat, salt: Bytes, iterations: int, keylen: int) returns (key: Maybe<Bytes>)
    requires Fixed(prf, h) && h > 0
    ensures key.None? <==> keylen > (LIMIT - 1) * h
    ensures key.Some? ==> Derived(prf, h, salt, iterations, keylen, key.value)
  {
    var buf, n := [], Blocks(keylen, h);
    BlocksRange(keylen, h, n, LIMIT);
    for block := 1 to if n < 0 then 1 else n + 1
      invariant block <= LIMIT && buf == T(prf, h, salt, Rounds(iterations), block - 1)
    {
      if block >= LIMIT { return None; }
      var rv := Block(prf, h, salt, iterations, block);
      buf := buf + rv;
    }
    CutIsDerived(prf, h, salt, iterations, keylen, n, buf);
    return Some(Cut(buf, keylen));
  }

  lemma CutIsDerived(prf: Bytes -> Bytes, h: nat, salt: Bytes, iterations: int, keylen: int, n: int, buf: Bytes)
    requires Fixed(prf, h) && h > 0 && n == Blocks(keylen, h) < LIMIT
    requires buf == if n < 0 then [] else T(prf, h, salt, Rounds(iterations), n)
    ensures Derived(prf, h, salt, iterations, keylen, Cut(buf, keylen))
  {
    if n >= 0 { TimesIs(n, h); }
    BlocksRange(keylen, h, n, LIMIT);
  }

  /** The key is the first `keylen` bytes of enough blocks; there is none of a negative length. */
  ghost predicate Derived(prf: Bytes -> Bytes, h: nat, salt: Bytes, iterations: int, keylen: int, key: Bytes)
    requires Fixed(prf, h) && h > 0
  {
    if keylen < 0 then key == []
    else
      var l := Blocks(keylen, h);
      && |key| == keylen && 0 <= l < LIMIT && keylen <= Times(l, h)
      && key == T(prf, h, salt, if iterations < 1 then 1 else iterations, l)[..keylen]
  }

  lemma BlocksRange(keylen: int, h: nat, n: int, limit: nat)
    requires h > 0 && (n - 1) * h < keylen <= n * h
    ensures n >= limit <==> keylen > (limit - 1) * h
    ensures n > 0 <==> keylen > 0
  {
    if n >= limit { Multiples(limit - 1, n - 1, h); } else { Multiples(n, limit - 1, h); }
    if n > 0 { Multiples(0, n - 1, h); } else { Multiples(n, 0, h); }
  }

  lemma Multiples(a: int, b: int, h: nat)
    requires a <= b
    ensures a * h <= b * h
  {
    assert b * h - a * h == (b - a) * h;
  }

  /** Octet k of the key is octet `k mod h` of block `k div h + 1`, xored over all rounds. */
  lemma {:induction false} OctetOfKey(prf: Bytes -> Bytes, h: nat, salt: Bytes, c: nat, l: nat, k: nat)
    requires Fixed(prf, h) && h > 0 && c > 0 && l < LIMIT && k < Times(l, h)
    ensures k / h < l && T(prf, h, salt, c, l)[k] == F(prf, h, salt, c, k / h + 1)[k % h]
    decreases l
  {
    if k < Times(l - 1, h) {
      OctetOfKey(prf, h, salt, c, l - 1, k);
    } else {
      TimesIs(l - 1, h);
      DivModUnique(k, h, l - 1, k - Times(l - 1, h));
    }
  }

  /** A longer key begins with the shorter one. */
  lemma {:induction false} LongerKey(prf: Bytes -> Bytes, h: nat, salt: Bytes, c: nat, l: nat, m: nat)
    requires Fixed(prf, h) && c > 0 && l <= m < LIMIT
    ensures Times(l, h) <= Times(m, h) && T(prf, h, salt, c, m)[..Times(l, h)] == T(prf, h, salt, c, l)
    decreases m
  {
    if l < m { LongerKey(prf, h, salt, c, l, m - 1); }
  }
}
