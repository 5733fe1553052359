/** The UTF-8 automaton of utf8validator.py: its table, the grammar of RFC 3629 it stands for, and
    the incremental validator object. */
module Utf8Validator {
  import opened Bits
  import opened Sequences

  const ACCEPT := 0
  const REJECT := 1

  // ----- the table, row by row

  const ROW_00: seq<int> := [0, 0, 0, 0, 0, 0, 0, 0, 0, 0, 0, 0, 0, 0, 0, 0,
                             0, 0, 0, 0, 0, 0, 0, 0, 0, 0, 0, 0, 0, 0, 0, 0]
  const ROW_80: seq<int> := [1, 1, 1, 1, 1, 1, 1, 1, 1, 1, 1, 1, 1, 1, 1, 1,
                             9, 9, 9, 9, 9, 9, 9, 9, 9, 9, 9, 9, 9, 9, 9, 9]
  const ROW_A0: seq<int> := [7, 7, 7, 7, 7, 7, 7, 7, 7, 7, 7, 7, 7, 7, 7, 7,
                             7, 7, 7, 7, 7, 7, 7, 7, 7, 7, 7, 7, 7, 7, 7, 7]
  const ROW_C0: seq<int> := [8, 8, 2, 2, 2, 2, 2, 2, 2, 2, 2, 2, 2, 2, 2, 2,
                             2, 2, 2, 2, 2, 2, 2, 2, 2, 2, 2, 2, 2, 2, 2, 2]
  const ROW_E0: seq<int> := [0xa, 0x3, 0x3, 0x3, 0x3, 0x3, 0x3, 0x3, 0x3, 0x3, 0x3, 0x3, 0x3, 0x4, 0x3, 0x3]
  const ROW_F0: seq<int> := [0xb, 0x6, 0x6, 0x6, 0x5, 0x8, 0x8, 0x8, 0x8, 0x8, 0x8, 0x8, 0x8, 0x8, 0x8, 0x8]
  const ROW_S0: seq<int> := [0x0, 0x1, 0x2, 0x3, 0x5, 0x8, 0x7, 0x1, 0x1, 0x1, 0x4, 0x6, 0x1, 0x1, 0x1, 0x1]
  const ROW_S1: seq<int> := [1, 1, 1, 1, 1, 1, 1, 1, 1, 1, 1, 1, 1, 1, 1, 1,
                             1, 0, 1, 1, 1, 1, 1, 0, 1, 0, 1, 1, 1, 1, 1, 1]
  const ROW_S3: seq<int> := [1, 2, 1, 1, 1, 1, 1, 2, 1, 2, 1, 1, 1, 1, 1, 1,
                             1, 1, 1, 1, 1, 1, 1, 2, 1, 1, 1, 1, 1, 1, 1, 1]
  const ROW_S5: seq<int> := [1, 2, 1, 1, 1, 1, 1, 1, 1, 2, 1, 1, 1, 1, 1, 1,
                             1, 1, 1, 1, 1, 1, 1, 3, 1, 3, 1, 1, 1, 1, 1, 1]
  const ROW_S7: seq<int> := [1, 3, 1, 1, 1, 1, 1, 3, 1, 3, 1, 1, 1, 1, 1, 1,
                             1, 3, 1, 1, 1, 1, 1, 1, 1, 1, 1, 1, 1, 1, 1, 1]

  /** Entry `i` of the table. */
  function At(i: nat): int
    requires i < 400
  {
    if i < 128 then ROW_00[i % 32]
    else if i < 160 then ROW_80[i - 128]
    else if i < 192 then ROW_A0[i - 160]
    else if i < 224 then ROW_C0[i - 192]
    else if i < 240 then ROW_E0[i - 224]
    else if i < 256 then ROW_F0[i - 240]
    else if i < 272 then ROW_S0[i - 256]
    else if i < 304 then ROW_S1[i - 272]
    else if i < 336 then ROW_S3[i - 304]
    else if i < 368 then ROW_S5[i - 336]
    else ROW_S7[i - 368]
  }

  // ----- what the table says

  /** The class of a byte. */
  function ClassOf(b: Byte): int {
    if b < 0x80 then 0
    else if b < 0x90 then 1
    else if b < 0xA0 then 9
    else if b < 0xC0 then 7
    else if b < 0xC2 then 8
    else if b < 0xE0 then 2
    else if b == 0xE0 then 10
    else if b == 0xED then 4
    else if b < 0xF0 then 3
    else if b == 0xF0 then 11
    else if b < 0xF4 then 6
    else if b == 0xF4 then 5
    else 8
  }

  lemma ClassTable(b: Byte)
    ensures At(b) == ClassOf(b)
  {
  }

  /** Where a class of bytes leads from a state. */
  function Next(state: int, kind: int): int {
    if state == 0 then
      (if kind == 0 then 0 else if kind == 2 then 2 else if kind == 3 then 3 else if kind == 4 then 5
       else if kind == 5 then 8 else if kind == 6 then 7 else if kind == 10 then 4 else if kind == 11 then 6 else 1)
    else if state == 2 then (if kind == 1 || kind == 7 || kind == 9 then 0 else 1)
    else if state == 3 then (if kind == 1 || kind == 7 || kind == 9 then 2 else 1)
    else if state == 4 then (if kind == 7 then 2 else 1)
    else if state == 5 then (if kind == 1 || kind == 9 then 2 else 1)
    else if state == 6 then (if kind == 7 || kind == 9 then 3 else 1)
    else if state == 7 then (if kind == 1 || kind == 7 || kind == 9 then 3 else 1)
    else if state == 8 then (if kind == 1 then 3 else 1)
    else 1
  }

  lemma NextTable(state: int, kind: int)
    requires 0 <= state <= 8 && 0 <= kind <= 11
    ensures At(256 + state * 16 + kind) == Next(state, kind)
  {
  }

  /** One step of the automaton that the table packs. */
  function Step(state: int, b: Byte): (r: int)
    requires 0 <= state <= 8
    ensures 0 <= r <= 8
  {
    Next(state, ClassOf(b))
  }

  /** The state after a run of bytes. */
  function Run(state: int, s: seq<Byte>): (r: int)
    requires 0 <= state <= 8
    ensures 0 <= r <= 8
  {
    if s == [] then state else Step(Run(state, s[..|s| - 1]), s[|s| - 1])
  }

  lemma {:induction false} RunConcat(state: int, s: seq<Byte>, t: seq<Byte>)
    requires 0 <= state <= 8
    ensures Run(state, s + t) == Run(Run(state, s), t)
  {
    if t == [] {
      assert s + t == s;
    } else {
      var n := |t| - 1;
      assert (s + t)[..|s + t| - 1] == s + t[..n];
      RunConcat(state, s, t[..n]);
    }
  }

  lemma RunOne(state: int, b: Byte, t: seq<Byte>)
    requires 0 <= state <= 8
    ensures Run(state, [b] + t) == Run(Step(state, b), t)
  {
    RunConcat(state, [b], t);
    assert [b][..0] == [];
  }

  lemma {:induction false} RejectIsFinal(s: seq<Byte>)
    ensures Run(REJECT, s) == REJECT
  {
    if s != [] { RejectIsFinal(s[..|s| - 1]); }
  }

  // ----- the grammar (RFC 3629, section 4)

  predicate Tail(b: Byte) { 0x80 <= b <= 0xBF }

  /** UTF8-1, UTF8-2, UTF8-3 and UTF8-4. */
  predicate IsChar(s: seq<Byte>) {
    || (|s| == 1 && s[0] <= 0x7F)
    || (|s| == 2 && 0xC2 <= s[0] <= 0xDF && Tail(s[1]))
    || (|s| == 3 && s[0] == 0xE0 && 0xA0 <= s[1] <= 0xBF && Tail(s[2]))
    || (|s| == 3 && 0xE1 <= s[0] <= 0xEC && Tail(s[1]) && Tail(s[2]))
    || (|s| == 3 && s[0] == 0xED && 0x80 <= s[1] <= 0x9F && Tail(s[2]))
    || (|s| == 3 && 0xEE <= s[0] <= 0xEF && Tail(s[1]) && Tail(s[2]))
    || (|s| == 4 && s[0] == 0xF0 && 0x90 <= s[1] <= 0xBF && Tail(s[2]) && Tail(s[3]))
    || (|s| == 4 && 0xF1 <= s[0] <= 0xF3 && Tail(s[1]) && Tail(s[2]) && Tail(s[3]))
    || (|s| == 4 && s[0] == 0xF4 && 0x80 <= s[1] <= 0x8F && Tail(s[2]) && Tail(s[3]))
  }

  /** UTF8-octets: any number of characters. */
  ghost predicate WellFormed(s: seq<Byte>)
    decreases |s|
  {
    s == [] || exists k :: 1 <= k <= |s| && IsChar(s[..k]) && WellFormed(s[k..])
  }

  /** A beginning of some well-formed sequence. */
  ghost predicate Viable(s: seq<Byte>) {
    exists t: seq<Byte> :: WellFormed(s + t)
  }

  // ----- the automaton recognises the grammar

  lemma RunHead(state: int, s: seq<Byte>)
    requires 0 <= state <= 8 && s != []
    ensures Run(state, s) == Run(Step(state, s[0]), s[1..])
  {
    assert s == [s[0]] + s[1..];
    RunOne(state, s[0], s[1..]);
  }

  lemma RunUpTo4(state: int, s: seq<Byte>)
    requires 0 <= state <= 8
    ensures |s| == 1 ==> Run(state, s) == Step(state, s[0])
    ensures |s| == 2 ==> Run(state, s) == Step(Step(state, s[0]), s[1])
    ensures |s| == 3 ==> Run(state, s) == Step(Step(Step(state, s[0]), s[1]), s[2])
    ensures |s| == 4 ==> Run(state, s) == Step(Step(Step(Step(state, s[0]), s[1]), s[2]), s[3])
  {
    var q, t := state, s;
    if |s| > 0 { RunHead(q, t); q, t := Step(q, t[0]), t[1..]; }
    if |s| > 1 { RunHead(q, t); q, t := Step(q, t[0]), t[1..]; }
    if |s| > 2 { RunHead(q, t); q, t := Step(q, t[0]), t[1..]; }
    if |s| > 3 { RunHead(q, t); q, t := Step(q, t[0]), t[1..]; }
  }

  /** A character leads from ACCEPT to ACCEPT, and to neither ACCEPT nor REJECT on the way. */
  lemma CharAccepted(s: seq<Byte>)
    requires IsChar(s)
    ensures Run(ACCEPT, s) == ACCEPT
    ensures forall i :: 0 < i < |s| ==> Run(ACCEPT, s[..i]) > REJECT
  {
    RunUpTo4(ACCEPT, s);
    forall i | 0 < i < |s| ensures Run(ACCEPT, s[..i]) > REJECT {
      RunUpTo4(ACCEPT, s[..i]);
    }
  }

  lemma {:induction false} WellFormedAccepted(s: seq<Byte>)
    requires WellFormed(s)
    ensures Run(ACCEPT, s) == ACCEPT
    decreases |s|
  {
    if s != [] {
      var k :| 1 <= k <= |s| && IsChar(s[..k]) && WellFormed(s[k..]);
      SplitAt(s, k);
      CharAccepted(s[..k]);
      WellFormedAccepted(s[k..]);
      RunConcat(ACCEPT, s[..k], s[k..]);
    }
  }

  /** How long the character is that a byte starts. */
  function CharLength(b: Byte): int {
    if b <= 0x7F then 1 else if b <= 0xDF then 2 else if b <= 0xEF then 3 else 4
  }

  /** The first character of an accepted sequence. */
  lemma AcceptedChar(s: seq<Byte>) returns (k: nat)
    requires s != [] && Run(ACCEPT, s) == ACCEPT
    ensures 1 <= k <= |s| && IsChar(s[..k]) && Run(ACCEPT, s[k..]) == ACCEPT
  {
    k := CharLength(s[0]);
    if |s| < k {
      RunUpTo4(ACCEPT, s);
      assert false;
    } else {
      assert s == s[..k] + s[k..];
      RunConcat(ACCEPT, s[..k], s[k..]);
      RunUpTo4(ACCEPT, s[..k]);
      RejectIsFinal(s[k..]);
      NotRejected(s[..k]);
    }
  }

  lemma NotRejected(s: seq<Byte>)
    requires 1 <= |s| <= 4 && |s| == CharLength(s[0])
    ensures Run(ACCEPT, s) == if IsChar(s) then ACCEPT else REJECT
  {
    RunUpTo4(ACCEPT, s);
  }

  /** ACCEPT is reached exactly by the well-formed sequences. */
  lemma {:induction false} AcceptIffWellFormed(s: seq<Byte>)
    ensures Run(ACCEPT, s) == ACCEPT <==> WellFormed(s)
    decreases |s|
  {
    if WellFormed(s) {
      WellFormedAccepted(s);
    } else if Run(ACCEPT, s) == ACCEPT {
      var k := AcceptedChar(s);
      AcceptIffWellFormed(s[k..]);
    }
  }

  /** From every state but REJECT some bytes lead to ACCEPT. */
  function Completion(state: int): seq<Byte> {
    if state == 2 then [0x80]
    else if state == 3 || state == 5 then [0x80, 0x80]
    else if state == 4 then [0xA0, 0x80]
    else if state == 6 then [0x90, 0x80, 0x80]
    else if state == 7 || state == 8 then [0x80, 0x80, 0x80]
    else []
  }

  lemma CompletionAccepts(state: int)
    requires 0 <= state <= 8 && state != REJECT
    ensures Run(state, Completion(state)) == ACCEPT
  {
    RunUpTo4(state, Completion(state));
  }

  /** REJECT is reached exactly when the bytes begin no well-formed sequence. */
  lemma RejectIffNotViable(s: seq<Byte>)
    ensures Run(ACCEPT, s) == REJECT <==> !Viable(s)
  {
    if Run(ACCEPT, s) == REJECT {
      forall t: seq<Byte> ensures !WellFormed(s + t) {
        RunConcat(ACCEPT, s, t);
        RejectIsFinal(t);
        AcceptIffWellFormed(s + t);
      }
    } else {
      var t := Completion(Run(ACCEPT, s));
      CompletionAccepts(Run(ACCEPT, s));
      RunConcat(ACCEPT, s, t);
      AcceptIffWellFormed(s + t);
    }
  }

  // ----- how far a stream is viable

  /** The length of the longest viable beginning. */
  function Good(s: seq<Byte>): (k: nat)
    ensures k <= |s|
    ensures Run(ACCEPT, s) != REJECT <==> k == |s|
  {
    if s == [] then 0
    else if Run(ACCEPT, s) != REJECT then |s|
    else Good(s[..|s| - 1])
  }

  lemma {:induction false} GoodIsLongest(s: seq<Byte>, i: nat)
    requires i <= |s|
    ensures Viable(s[..i]) <==> i <= Good(s)
    decreases |s|
  {
    assert s[..|s|] == s;
    RejectIffNotViable(s);
    if i < |s| {
      var p := s[..|s| - 1];
      assert p[..i] == s[..i];
      GoodIsLongest(p, i);
      if Run(ACCEPT, s) != REJECT {
        assert Run(ACCEPT, p) != REJECT;
      }
    }
  }

  /** The rejection comes where the state first becomes REJECT, and stays there. */
  lemma {:induction false} GoodAt(s: seq<Byte>, k: nat)
    requires k < |s|
    requires Run(ACCEPT, s[..k]) != REJECT && Run(ACCEPT, s[..k + 1]) == REJECT
    ensures Good(s) == k
    decreases |s|
  {
    var n := |s| - 1;
    assert s == s[..k + 1] + s[k + 1..];
    RunConcat(ACCEPT, s[..k + 1], s[k + 1..]);
    RejectIsFinal(s[k + 1..]);
    if k < n {
      assert s[..n][..k] == s[..k] && s[..n][..k + 1] == s[..k + 1];
      GoodAt(s[..n], k);
    }
  }

  lemma {:induction false} GoodStays(s: seq<Byte>, t: seq<Byte>)
    requires Run(ACCEPT, s) == REJECT
    ensures Good(s + t) == Good(s)
    decreases |t|
  {
    if t == [] {
      assert s + t == s;
    } else {
      assert (s + t)[..|s + t| - 1] == s + t[..|t| - 1];
      GoodStays(s, t[..|t| - 1]);
      RunConcat(ACCEPT, s, t);
      RejectIsFinal(t);
    }
  }

  lemma RunTake(s: seq<Byte>, t: seq<Byte>, k: nat)
    requires k <= |t|
    ensures Run(ACCEPT, (s + t)[..|s| + k]) == Run(Run(ACCEPT, s), t[..k])
  {
    assert (s + t)[..|s| + k] == s + t[..k];
    RunConcat(ACCEPT, s, t[..k]);
  }

  /** A chunk that is refused at its byte k. */
  lemma GoodConcat(s: seq<Byte>, t: seq<Byte>, k: nat)
    requires k < |t| && Run(Run(ACCEPT, s), t[..k + 1]) == REJECT
    requires k > 0 ==> Run(Run(ACCEPT, s), t[..k]) != REJECT
    ensures Good(s + t) == Good(s) + k
  {
    if Run(ACCEPT, s) == REJECT {
      GoodStays(s, t);
      RejectIsFinal(t[..k]);
    } else {
      GoodInChunk(s, t, k);
    }
  }

  lemma GoodInChunk(s: seq<Byte>, t: seq<Byte>, k: nat)
    requires k < |t| && Run(ACCEPT, s) != REJECT
    requires Run(Run(ACCEPT, s), t[..k + 1]) == REJECT
    requires k > 0 ==> Run(Run(ACCEPT, s), t[..k]) != REJECT
    ensures Good(s + t) == |s| + k
  {
    RunTake(s, t, k);
    RunTake(s, t, k + 1);
    GoodAt(s + t, |s| + k);
  }

  // ----- what the answers about a chunk mean for the stream

  lemma ChunkPassed(s: seq<Byte>, t: seq<Byte>)
    requires t == [] || Run(Run(ACCEPT, s), t) != REJECT
    ensures Run(ACCEPT, s + t) == Run(Run(ACCEPT, s), t)
    ensures Good(s + t) == Good(s) + |t|
    ensures t != [] ==> Viable(s + t)
    ensures WellFormed(s + t) <==> Run(Run(ACCEPT, s), t) == ACCEPT
  {
    RunConcat(ACCEPT, s, t);
    RejectIffNotViable(s + t);
    AcceptIffWellFormed(s + t);
    if t == [] {
      assert s + t == s;
    } else if Run(ACCEPT, s) == REJECT {
      RejectIsFinal(t);
    }
  }

  lemma ChunkRefused(s: seq<Byte>, t: seq<Byte>, k: nat)
    requires k < |t| && Run(Run(ACCEPT, s), t[..k + 1]) == REJECT
    requires k > 0 ==> Run(Run(ACCEPT, s), t[..k]) != REJECT
    ensures Run(Run(ACCEPT, s), t) == REJECT && Run(ACCEPT, s + t) == REJECT
    ensures Good(s + t) == Good(s) + k
    ensures !Viable(s + t) && !WellFormed(s + t)
  {
    ChunkRejects(Run(ACCEPT, s), t, k);
    RunConcat(ACCEPT, s, t);
    RejectIffNotViable(s + t);
    AcceptIffWellFormed(s + t);
    GoodConcat(s, t, k);
  }

  lemma ChunkRejects(state: int, t: seq<Byte>, k: nat)
    requires 0 <= state <= 8 && k < |t| && Run(state, t[..k + 1]) == REJECT
    ensures Run(state, t) == REJECT
  {
    assert t == t[..k + 1] + t[k + 1..];
    RunConcat(state, t[..k + 1], t[k + 1..]);
    RejectIsFinal(t[k + 1..]);
  }

  // ----- code points (RFC 3629, section 3)

  predicate IsScalar(v: int) { 0 <= v <= 0x10FFFF && !(0xD800 <= v <= 0xDFFF) }

  predicate IsScalars(vs: seq<int>) { forall i :: 0 <= i < |vs| ==> IsScalar(vs[i]) }

  function Encode(v: int): (s: seq<Byte>)
    requires IsScalar(v)
  {
    if v < 0x80 then [v]
    else if v < 0x800 then [0xC0 + v / 64, 0x80 + v % 64]
    else if v < 0x10000 then [0xE0 + v / 4096, 0x80 + v / 64 % 64, 0x80 + v % 64]
    else [0xF0 + v / 262144, 0x80 + v / 4096 % 64, 0x80 + v / 64 % 64, 0x80 + v % 64]
  }

  function EncodeAll(vs: seq<int>): seq<Byte>
    requires IsScalars(vs)
  {
    if vs == [] then [] else Encode(vs[0]) + EncodeAll(vs[1..])
  }

  /** What `decode` stores in `codepoint`: the low bits of the byte, after those already there. */
  function Codepoint(state: int, cp: nat, b: Byte): nat {
    if state != ACCEPT then cp * 64 + Low6(b) else LowBits(ClassOf(b), b)
  }

  /** The six bits that a trailing byte carries. */
  function Low6(b: Byte): (r: int)
    ensures 0 <= r < 64
  {
    b as int % 64
  }

  /** The bits of `b` under the mask `0xff >> k`. */
  function LowBits(k: int, b: Byte): (r: int)
    ensures r >= 0
  {
    var n: int := b;
    if k == 0 then n else if k == 1 then n % 128 else if k == 2 then n % 64 else if k == 3 then n % 32
    else if k == 4 then n % 16 else if k == 5 then n % 8 else if k == 6 then n % 4 else if k == 7 then n % 2 else 0
  }

  lemma Powers()
    ensures Pow2(0) == 1 && Pow2(1) == 2 && Pow2(2) == 4 && Pow2(3) == 8 && Pow2(4) == 16 && Pow2(5) == 32
    ensures Pow2(6) == 64 && Pow2(7) == 128 && Pow2(8) == 256 && Pow2(9) == 512 && Pow2(10) == 1024 && Pow2(11) == 2048
  {
    assert Pow2(2) == 4;
    assert Pow2(4) == 16;
    assert Pow2(6) == 64;
    assert Pow2(8) == 256;
    assert Pow2(10) == 1024;
  }

  /** `(b & 0x3f) | (codepoint << 6)`. */
  lemma TailBits(cp: nat, b: Byte)
    ensures Or(And(0x3f, b), cp * Pow2(6)) == cp * 64 + Low6(b)
  {
    Powers();
    AndMask(6, b);
    OrDisjoint(b as int % 64, cp, 6);
  }

  /** `(0xff >> k) & b`. */
  lemma LeadBits(k: nat, b: Byte)
    requires k <= 11
    ensures And(0xff / Pow2(k), b) == LowBits(k, b)
  {
    ShiftedMask(k);
    if k < 8 {
      AndMask(8 - k, b);
      Powers();
      assert k == 0 || k == 1 || k == 2 || k == 3 || k == 4 || k == 5 || k == 6 || k == 7;
    }
  }

  /** `0xff >> k` is a mask of 8 - k ones. */
  lemma ShiftedMask(k: nat)
    requires k <= 11
    ensures 0xff / Pow2(k) == if k < 8 then Pow2(8 - k) - 1 else 0
  {
    Powers();
    if k == 0 || k == 1 || k == 2 || k == 3 {
    } else if k == 4 || k == 5 || k == 6 || k == 7 {
    } else {
      assert k == 8 || k == 9 || k == 10 || k == 11;
    }
  }

  /** The code point after decoding `s` byte by byte from ACCEPT. */
  function CodepointAfter(cp: nat, s: seq<Byte>): nat {
    if s == [] then cp
    else Codepoint(Run(ACCEPT, s[..|s| - 1]), CodepointAfter(cp, s[..|s| - 1]), s[|s| - 1])
  }

  /** The code points present whenever `decode` returns ACCEPT, in order. */
  function Decoded(cp: nat, s: seq<Byte>): seq<int> {
    if s == [] then []
    else Decoded(cp, s[..|s| - 1]) + (if Run(ACCEPT, s) == ACCEPT then [CodepointAfter(cp, s)] else [])
  }

  lemma LastCodepoint(cp: nat, s: seq<Byte>, b: Byte)
    ensures CodepointAfter(cp, s + [b]) == Codepoint(Run(ACCEPT, s), CodepointAfter(cp, s), b)
  {
    assert (s + [b])[..|s|] == s;
  }

  lemma LastDecoded(cp: nat, s: seq<Byte>, b: Byte)
    ensures Decoded(cp, s + [b])
         == Decoded(cp, s) + (if Run(ACCEPT, s + [b]) == ACCEPT then [CodepointAfter(cp, s + [b])] else [])
  {
    assert (s + [b])[..|s|] == s;
  }

  lemma {:induction false} CodepointConcat(cp: nat, s: seq<Byte>, t: seq<Byte>)
    requires Run(ACCEPT, s) == ACCEPT
    ensures CodepointAfter(cp, s + t) == CodepointAfter(CodepointAfter(cp, s), t)
  {
    if t == [] {
      assert s + t == s;
    } else {
      var t', b := t[..|t| - 1], t[|t| - 1];
      CodepointConcat(cp, s, t');
      RunConcat(ACCEPT, s, t');
      assert t == t' + [b] && s + t == s + t' + [b];
      LastCodepoint(cp, s + t', b);
      LastCodepoint(CodepointAfter(cp, s), t', b);
    }
  }

  lemma {:induction false} DecodedConcat(cp: nat, s: seq<Byte>, t: seq<Byte>)
    requires Run(ACCEPT, s) == ACCEPT
    ensures Decoded(cp, s + t) == Decoded(cp, s) + Decoded(CodepointAfter(cp, s), t)
  {
    if t == [] {
      assert s + t == s;
    } else {
      var t', b := t[..|t| - 1], t[|t| - 1];
      DecodedConcat(cp, s, t');
      RunConcat(ACCEPT, s, t);
      CodepointConcat(cp, s, t);
      assert t == t' + [b] && s + t == s + t' + [b];
      LastDecoded(cp, s + t', b);
      LastDecoded(CodepointAfter(cp, s), t', b);
      assert Run(ACCEPT, s + t) == Run(ACCEPT, t);
    }
  }

  /** The code point of a character, from its bytes. */
  function CharValue(s: seq<Byte>): int
    requires IsChar(s)
  {
    if |s| == 1 then s[0]
    else if |s| == 2 then (s[0] - 0xC0) * 64 + Low6(s[1])
    else if |s| == 3 then ((s[0] - 0xE0) * 64 + Low6(s[1])) * 64 + Low6(s[2])
    else (((s[0] - 0xF0) * 64 + Low6(s[1])) * 64 + Low6(s[2])) * 64 + Low6(s[3])
  }

  /** The digits of a number in base 64. */
  lemma Digits(a: int, b: int, c: int, d: int)
    requires 0 <= a && 0 <= b < 64 && 0 <= c < 64 && 0 <= d < 64
    ensures var v := ((a * 64 + b) * 64 + c) * 64 + d;
      v % 64 == d && v / 64 % 64 == c && v / 4096 % 64 == b && v / 262144 == a
  {
    var v := ((a * 64 + b) * 64 + c) * 64 + d;
    assert v / 64 == (a * 64 + b) * 64 + c;
    assert v / 4096 == a * 64 + b;
  }

  lemma CharEncodes2(s: seq<Byte>)
    requires IsChar(s) && |s| == 2
    ensures IsScalar(CharValue(s)) && Encode(CharValue(s)) == s
  {
    var x, y := s[0] as int - 0xC0, Low6(s[1]);
    Digits(0, 0, x, y);
    assert 0x80 <= x * 64 + y < 0x800;
  }

  lemma CharEncodes3(s: seq<Byte>)
    requires IsChar(s) && |s| == 3
    ensures IsScalar(CharValue(s)) && Encode(CharValue(s)) == s
  {
    var w, x, y := s[0] as int - 0xE0, Low6(s[1]), Low6(s[2]);
    Digits(0, w, x, y);
    var v := (w * 64 + x) * 64 + y;
    assert v == CharValue(s) && v / 4096 == w;
    assert 0x800 <= v < 0x10000 && !(0xD800 <= v <= 0xDFFF);
  }

  lemma CharEncodes4(s: seq<Byte>)
    requires IsChar(s) && |s| == 4
    ensures IsScalar(CharValue(s)) && Encode(CharValue(s)) == s
  {
    var w, x, y, z := s[0] as int - 0xF0, Low6(s[1]), Low6(s[2]), Low6(s[3]);
    Digits(w, x, y, z);
    var v := ((w * 64 + x) * 64 + y) * 64 + z;
    assert v == CharValue(s);
    assert 0x10000 <= v <= 0x10FFFF;
  }

  lemma CharEncodes(s: seq<Byte>)
    requires IsChar(s)
    ensures IsScalar(CharValue(s)) && Encode(CharValue(s)) == s
  {
    if |s| == 2 { CharEncodes2(s); } else if |s| == 3 { CharEncodes3(s); } else if |s| == 4 { CharEncodes4(s); }
  }

  lemma DigitsOf(v: nat)
    ensures v == ((v / 262144 * 64 + v / 4096 % 64) * 64 + v / 64 % 64) * 64 + v % 64
  {
    assert v / 64 == v / 4096 * 64 + v / 64 % 64;
    assert v / 4096 == v / 262144 * 64 + v / 4096 % 64;
  }

  lemma EncodeIsChar(v: int)
    requires IsScalar(v)
    ensures IsChar(Encode(v)) && CharValue(Encode(v)) == v
  {
    if v >= 0x10000 {
      EncodeIsChar4(v);
    } else if v >= 0x800 {
      EncodeIsChar3(v);
    } else {
      DigitsOf(v);
    }
  }

  lemma EncodeIsChar3(v: int)
    requires IsScalar(v) && 0x800 <= v < 0x10000
    ensures IsChar(Encode(v)) && CharValue(Encode(v)) == v
  {
    DigitsOf(v);
    var b, c, d := v / 4096, v / 64 % 64, v % 64;
    assert 0 <= b < 16 && v == (b * 64 + c) * 64 + d;
    var s := Encode(v);
    assert s[0] == 0xE0 + b && s[1] == 0x80 + c && s[2] == 0x80 + d;
  }

  lemma EncodeIsChar4(v: int)
    requires IsScalar(v) && 0x10000 <= v
    ensures IsChar(Encode(v)) && CharValue(Encode(v)) == v
  {
    DigitsOf(v);
    var a, b, c, d := v / 262144, v / 4096 % 64, v / 64 % 64, v % 64;
    assert 0 <= a <= 4;
    var s := Encode(v);
    assert s[0] == 0xF0 + a && s[1] == 0x80 + b && s[2] == 0x80 + c && s[3] == 0x80 + d;
  }

  /** Decoding one character: ACCEPT only at its end, with its code point. */
  lemma CharDecoded(cp: nat, s: seq<Byte>)
    requires IsChar(s)
    ensures CodepointAfter(cp, s) == CharValue(s)
    ensures Decoded(cp, s) == [CharValue(s)]
  {
    CharAccepted(s);
    LeadOf(s);
    LeadValue(cp, s[0]);
    assert s[..1] == [s[0]];
    OneByte(cp, s[0]);
    assert s[..|s|] == s;
    if |s| > 1 {
      TailDecoded(cp, s, 1);
    }
    if |s| > 2 {
      TailDecoded(cp, s, 2);
    }
    if |s| > 3 {
      TailDecoded(cp, s, 3);
    }
  }

  /** The bits that the first byte carries. */
  function Lead(b: Byte): int {
    if b <= 0x7F then b else if b <= 0xDF then b - 0xC0 else if b <= 0xEF then b - 0xE0 else b - 0xF0
  }

  lemma LeadOf(s: seq<Byte>)
    requires IsChar(s)
    ensures |s| == 1 ==> CharValue(s) == Lead(s[0])
    ensures |s| == 2 ==> CharValue(s) == Lead(s[0]) * 64 + Low6(s[1])
    ensures |s| == 3 ==> CharValue(s) == (Lead(s[0]) * 64 + Low6(s[1])) * 64 + Low6(s[2])
    ensures |s| == 4 ==> CharValue(s) == ((Lead(s[0]) * 64 + Low6(s[1])) * 64 + Low6(s[2])) * 64 + Low6(s[3])
    ensures s[0] <= 0x7F || 0xC2 <= s[0] <= 0xF4
  {
  }

  lemma OneByte(cp: nat, b: Byte)
    ensures CodepointAfter(cp, [b]) == Codepoint(ACCEPT, cp, b)
    ensures Run(ACCEPT, [b]) != ACCEPT ==> Decoded(cp, [b]) == []
    ensures Run(ACCEPT, [b]) == ACCEPT ==> Decoded(cp, [b]) == [Codepoint(ACCEPT, cp, b)]
  {
    assert [b][..0] == [];
  }

  lemma LeadValue(cp: nat, b: Byte)
    requires b <= 0x7F || 0xC2 <= b <= 0xF4
    ensures Codepoint(ACCEPT, cp, b) == Lead(b)
  {
  }

  lemma TailDecoded(cp: nat, s: seq<Byte>, i: nat)
    requires 0 < i < |s| && Run(ACCEPT, s[..i]) > REJECT
    ensures CodepointAfter(cp, s[..i + 1]) == CodepointAfter(cp, s[..i]) * 64 + Low6(s[i])
    ensures Decoded(cp, s[..i + 1])
         == Decoded(cp, s[..i]) + (if Run(ACCEPT, s[..i + 1]) == ACCEPT then [CodepointAfter(cp, s[..i + 1])] else [])
  {
    assert s[..i + 1][..i] == s[..i];
  }

  /** Feeding the encodings of any scalar values byte by byte, `decode` returns ACCEPT exactly at
      the end of each of them, each time with the value that was encoded. */
  lemma {:induction false} DecodeInvertsEncode(cp: nat, vs: seq<int>)
    requires IsScalars(vs)
    ensures Run(ACCEPT, EncodeAll(vs)) == ACCEPT
    ensures Decoded(cp, EncodeAll(vs)) == vs
    decreases vs
  {
    if vs != [] {
      var c := Encode(vs[0]);
      EncodeIsChar(vs[0]);
      CharAccepted(c);
      CharDecoded(cp, c);
      DecodeInvertsEncode(CodepointAfter(cp, c), vs[1..]);
      DecodedConcat(cp, c, EncodeAll(vs[1..]));
      RunConcat(ACCEPT, c, EncodeAll(vs[1..]));
    }
  }

  lemma EncodeOne(v: int, vs: seq<int>)
    requires IsScalar(v) && IsScalars(vs)
    ensures IsScalars([v] + vs) && EncodeAll([v] + vs) == Encode(v) + EncodeAll(vs)
  {
    assert ([v] + vs)[1..] == vs;
  }

  lemma FirstCharDecoded(cp: nat, s: seq<Byte>, k: nat)
    requires k <= |s| && IsChar(s[..k])
    ensures Decoded(cp, s) == [CharValue(s[..k])] + Decoded(CodepointAfter(cp, s[..k]), s[k..])
  {
    CharAccepted(s[..k]);
    CharDecoded(cp, s[..k]);
    DecodedConcat(cp, s[..k], s[k..]);
    assert s == s[..k] + s[k..];
  }

  lemma EncodeFirst(cp: nat, s: seq<Byte>, k: nat)
    requires k <= |s| && IsChar(s[..k])
    requires var rest := Decoded(CodepointAfter(cp, s[..k]), s[k..]);
      IsScalars(rest) && EncodeAll(rest) == s[k..]
    ensures IsScalars(Decoded(cp, s)) && EncodeAll(Decoded(cp, s)) == s
  {
    FirstCharDecoded(cp, s, k);
    CharEncodes(s[..k]);
    EncodeOne(CharValue(s[..k]), Decoded(CodepointAfter(cp, s[..k]), s[k..]));
    assert s == s[..k] + s[k..];
  }

  /** What is decoded from a well-formed sequence are scalar values, and it is their encoding. */
  lemma {:induction false} EncodeInvertsDecode(cp: nat, s: seq<Byte>)
    requires WellFormed(s)
    ensures IsScalars(Decoded(cp, s)) && EncodeAll(Decoded(cp, s)) == s
    decreases |s|
  {
    if s != [] {
      var k :| 1 <= k <= |s| && IsChar(s[..k]) && WellFormed(s[k..]);
      EncodeInvertsDecode(CodepointAfter(cp, s[..k]), s[k..]);
      EncodeFirst(cp, s, k);
    }
  }

  /** No byte stream whatever, valid or not, makes `decode` accept a surrogate or a value above
      0x10FFFF: what it has accepted is the decoding of the longest well-formed beginning. */
  lemma {:induction false} AcceptedAreScalars(cp: nat, s: seq<Byte>)
    ensures IsScalars(Decoded(cp, s)) && EncodeAll(Decoded(cp, s)) <= s
    decreases |s|
  {
    if s != [] {
      if Run(ACCEPT, s) == ACCEPT {
        AcceptIffWellFormed(s);
        EncodeInvertsDecode(cp, s);
      } else {
        AcceptedAreScalars(cp, s[..|s| - 1]);
        assert Decoded(cp, s) == Decoded(cp, s[..|s| - 1]);
      }
    }
  }

  // ----- the validator object

  class Utf8Validator {
    var state: int
    var codepoint: nat
    var i: nat

    /** The bytes given to `validate` since the last reset. */
    ghost var stream: seq<Byte>

    ghost predicate Valid() reads this { 0 <= state <= 8 }

    /** Only `validate` has been used since the last reset. */
    ghost predicate Validating() reads this {
      Valid() && state == Run(ACCEPT, stream) && i == Good(stream)
    }

    constructor ()
      ensures Validating() && stream == []
    {
      state, codepoint, i := ACCEPT, 0, 0;
      stream := [];
    }

    method Reset()
      modifies this
      ensures Validating() && stream == [] && codepoint == 0
    {
      state, codepoint, i := ACCEPT, 0, 0;
      stream := [];
    }

    method Decode(b: Byte) returns (r: int)
      requires Valid()
      modifies `state, `codepoint
      ensures Valid() && r == state == Step(old(state), b)
      ensures codepoint == Codepoint(old(state), old(codepoint), b)
    {
      var tt := ClassEntry(b);
      if state != ACCEPT {
        codepoint := MoreBits(codepoint, b);
      } else {
        codepoint := FirstBits(tt, b);
      }
      state := StateEntry(state, tt);
      return state;
    }

    /** The two bit operations. */
    static method MoreBits(cp: nat, b: Byte) returns (r: nat)
      ensures r == cp * 64 + Low6(b)
    {
      TailBits(cp, b);
      return Or(And(0x3f, b), cp * Pow2(6));
    }

    static method FirstBits(tt: nat, b: Byte) returns (r: nat)
      requires tt <= 11
      ensures r == LowBits(tt, b)
    {
      var mask := 0xff / Pow2(tt);
      LeadBits(tt, b);
      return And(mask, b);
    }

    /** The two look-ups in the table. */
    static method ClassEntry(b: Byte) returns (tt: int)
      ensures tt == ClassOf(b)
    {
      ClassTable(b);
      return At(b);
    }

    static method StateEntry(state: int, tt: int) returns (s: int)
      requires 0 <= state <= 8 && 0 <= tt <= 11
      ensures s == Next(state, tt)
    {
      NextTable(state, tt);
      return At(256 + state * 16 + tt);
    }

    /** One chunk, from any state; `Tells` is what the answer means when the validator has been
        used for nothing but `validate` since the last reset. */
    method Validate(ba: seq<Byte>) returns (valid: bool, endsOnCodePoint: bool, currentIndex: nat, totalIndex: nat)
      requires Valid()
      modifies `state, `i, `stream
      ensures Valid() && state == Run(old(state), ba) && stream == old(stream) + ba
      ensures i == totalIndex == old(i) + currentIndex
      ensures Answers(old(state), ba, valid, endsOnCodePoint, currentIndex)
      ensures old(Validating()) ==> Validating() && Tells(stream, ba, valid, endsOnCodePoint, totalIndex)
    {
      ghost var before, start := stream, state;
      stream := stream + ba;
      var l := |ba|;
      var k := 0;
      var s := state;
      while k < l
        invariant 0 <= k <= l && 0 <= s <= 8
        invariant i == old(i) && state == start && stream == before + ba
        invariant s == Run(start, ba[..k])
        invariant k > 0 ==> s != REJECT
      {
        var tt := ClassEntry(ba[k]);
        assert ba[..k + 1][..k] == ba[..k];
        s := StateEntry(s, tt);
        if s == REJECT {
          ChunkRejects(start, ba, k);
          if old(Validating()) {
            ChunkRefused(before, ba, k);
          }
          state := s;
          i := i + k;
          return false, false, k, i;
        }
        k := k + 1;
      }
      assert ba[..l] == ba;
      if old(Validating()) {
        ChunkPassed(before, ba);
      }
      state := s;
      i := i + l;
      return true, s == ACCEPT, l, i;
    }
  }

  /** The answer about a chunk `ba` taken from state `start`. */
  ghost predicate Answers(start: int, ba: seq<Byte>, valid: bool, endsOnCodePoint: bool, currentIndex: nat)
    requires 0 <= start <= 8
  {
    && (valid <==> ba == [] || Run(start, ba) != REJECT)
    && (endsOnCodePoint <==> Run(start, ba) == ACCEPT)
    && (valid ==> currentIndex == |ba|)
    && (!valid ==> currentIndex < |ba| && Run(start, ba[..currentIndex + 1]) == REJECT)
    && (!valid && currentIndex > 0 ==> Run(start, ba[..currentIndex]) != REJECT)
  }

  /** What the answer says of the whole stream, whose last chunk is `ba`. After a rejection an
      empty chunk is still answered with `valid`. */
  ghost predicate Tells(stream: seq<Byte>, ba: seq<Byte>, valid: bool, endsOnCodePoint: bool, totalIndex: nat) {
    && (valid <==> ba == [] || Viable(stream))
    && (endsOnCodePoint <==> WellFormed(stream))
    && totalIndex == Good(stream)
  }

  /** An input after which the answer for an empty chunk is wrong: the stream is the single byte 0xFF. */
  method RejectedThenEmpty() returns (first: bool, second: bool)
    ensures !first && second && !Viable([0xFF])
  {
    var v := new Utf8Validator();
    RunUpTo4(ACCEPT, [0xFF]);
    RejectIffNotViable([0xFF]);
    var ends, current, total;
    first, ends, current, total := v.Validate([0xFF]);
    second, ends, current, total := v.Validate([]);
  }
}
