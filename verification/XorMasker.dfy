/** The maskers of xormasker.py against section 5.3 of RFC 6455. The pointer is never negative, so that
    `ptr & 3` is `ptr % 4`. */
module XorMasker {
  import opened Bits
  import opened Sequences

  /** Octet i of the data, which is octet `ptr + i` of the stream, is xored with octet
      `(ptr + i) mod 4` of the mask. */
  function Masked(mask: seq<Byte>, ptr: nat, data: seq<Byte>): (r: seq<Byte>)
    requires |mask| == 4
    ensures |r| == |data|
    ensures forall i :: 0 <= i < |data| ==> r[i] == XorBytes(data[i], mask[(ptr + i) % 4])
  {
    seq(|data|, i requires 0 <= i < |data| => XorBytes(data[i], mask[(ptr + i) % 4]))
  }

  function MaskedChunks(mask: seq<Byte>, ptr: nat, chunks: seq<seq<Byte>>): seq<seq<Byte>>
    requires |mask| == 4
    decreases chunks
  {
    if chunks == [] then []
    else [Masked(mask, ptr, chunks[0])] + MaskedChunks(mask, ptr + |chunks[0]|, chunks[1..])
  }

  lemma MaskedConcat(mask: seq<Byte>, ptr: nat, a: seq<Byte>, b: seq<Byte>)
    requires |mask| == 4
    ensures Masked(mask, ptr, a + b) == Masked(mask, ptr, a) + Masked(mask, ptr + |a|, b)
  {
    var r, s := Masked(mask, ptr, a + b), Masked(mask, ptr, a) + Masked(mask, ptr + |a|, b);
    forall i | 0 <= i < |a + b| ensures r[i] == s[i] {
      if i >= |a| { assert ptr + i == (ptr + |a|) + (i - |a|); }
    }
  }

  /** However the stream is cut, the output is the masked stream. */
  lemma {:induction false} AnyChunks(mask: seq<Byte>, ptr: nat, chunks: seq<seq<Byte>>)
    requires |mask| == 4
    ensures Concat(MaskedChunks(mask, ptr, chunks)) == Masked(mask, ptr, Concat(chunks))
    decreases chunks
  {
    if chunks != [] {
      var rest := MaskedChunks(mask, ptr + |chunks[0]|, chunks[1..]);
      AnyChunks(mask, ptr + |chunks[0]|, chunks[1..]);
      MaskedConcat(mask, ptr, chunks[0], Concat(chunks[1..]));
      assert ([Masked(mask, ptr, chunks[0])] + rest)[1..] == rest;
    }
  }

  lemma MaskedTwice(mask: seq<Byte>, ptr: nat, data: seq<Byte>)
    requires |mask| == 4
    ensures Masked(mask, ptr, Masked(mask, ptr, data)) == data
  {
    forall i | 0 <= i < |data| ensures Masked(mask, ptr, Masked(mask, ptr, data))[i] == data[i] {
      XorTwice(data[i], mask[(ptr + i) % 4]);
    }
  }

  /** Section 5.3 of RFC 6455, bit by bit and over any chunks: a bit of octet i of the stream is turned
      over exactly where octet i mod 4 of the mask has a one. */
  lemma OctetOfStream(mask: seq<Byte>, chunks: seq<seq<Byte>>, i: nat, k: nat)
    requires |mask| == 4 && i < |Concat(chunks)|
    ensures i < |Concat(MaskedChunks(mask, 0, chunks))|
    ensures Bit(Concat(MaskedChunks(mask, 0, chunks))[i], k)
         == if Bit(mask[i % 4], k) == 1 then 1 - Bit(Concat(chunks)[i], k) else Bit(Concat(chunks)[i], k)
  {
    AnyChunks(mask, 0, chunks);
    XorBits(Concat(chunks)[i], mask[i % 4], k);
  }

  /** The receiver unmasks what the sender masked, whatever chunks each of them uses. */
  lemma Unmasks(mask: seq<Byte>, sent: seq<seq<Byte>>, received: seq<seq<Byte>>)
    requires |mask| == 4
    requires Concat(received) == Concat(MaskedChunks(mask, 0, sent))
    ensures Concat(MaskedChunks(mask, 0, received)) == Concat(sent)
  {
    AnyChunks(mask, 0, sent);
    AnyChunks(mask, 0, received);
    MaskedTwice(mask, 0, Concat(sent));
  }

  lemma ModAdd(p: nat, k: nat)
    ensures (p + k) % 4 == (p % 4 + k % 4) % 4
  {
    var n := p % 4 + k % 4;
    var q := p / 4 + k / 4 + n / 4;
    assert p + k == q * 4 + n % 4;
    DivModUnique(p + k, 4, q, n % 4);
  }

  class XorMaskerSimple {
    var ptr: nat
    const msk: seq<Byte>

    constructor (mask: seq<Byte>)
      requires |mask| == 4
      ensures ptr == 0 && msk == mask
    {
      ptr, msk := 0, mask;
    }

    method Reset()
      modifies this
      ensures ptr == 0
    {
      ptr := 0;
    }

    method Process(data: seq<Byte>) returns (r: seq<Byte>)
      requires |msk| == 4
      modifies this
      ensures r == Masked(msk, old(ptr), data) && ptr == old(ptr) + |data|
    {
      var payload := new Byte[|data|](i requires 0 <= i < |data| => data[i]);
      for k := 0 to |data|
        invariant ptr == old(ptr) + k
        invariant forall i :: 0 <= i < k ==> payload[i] == XorBytes(data[i], msk[(old(ptr) + i) % 4])
        invariant forall i :: k <= i < |data| ==> payload[i] == data[i]
      {
        payload[k] := XorBytes(payload[k], msk[ptr % 4]);
        ptr := ptr + 1;
      }
      return payload[..];
    }
  }

  class XorMaskerShifted1 {
    var ptr: nat
    const mskarray: seq<seq<Byte>>

    /** Array j of `mskarray` is the mask from octet j on, around. */
    predicate Shifted(mask: seq<Byte>) {
      |mask| == 4 && |mskarray| == 4 &&
      forall j :: 0 <= j < 4 ==> |mskarray[j]| == 4 && forall k :: 0 <= k < 4 ==> mskarray[j][k] == mask[(k + j) % 4]
    }

    constructor (mask: seq<Byte>)
      requires |mask| == 4
      ensures ptr == 0 && Shifted(mask)
    {
      ptr := 0;
      var m0, m1, m2, m3 := [], [], [], [];
      for j := 0 to 4
        invariant |m0| == |m1| == |m2| == |m3| == j
        invariant forall k :: 0 <= k < j ==> m0[k] == mask[k % 4] && m1[k] == mask[(k + 1) % 4]
        invariant forall k :: 0 <= k < j ==> m2[k] == mask[(k + 2) % 4] && m3[k] == mask[(k + 3) % 4]
      {
        m0 := m0 + [mask[j % 4]];
        m1 := m1 + [mask[(j + 1) % 4]];
        m2 := m2 + [mask[(j + 2) % 4]];
        m3 := m3 + [mask[(j + 3) % 4]];
      }
      mskarray := [m0, m1, m2, m3];
    }

    method Reset()
      modifies this
      ensures ptr == 0
    {
      ptr := 0;
    }

    method Process(data: seq<Byte>, ghost mask: seq<Byte>) returns (r: seq<Byte>)
      requires Shifted(mask)
      modifies this
      ensures r == Masked(mask, old(ptr), data) && ptr == old(ptr) + |data|
    {
      var payload := new Byte[|data|](i requires 0 <= i < |data| => data[i]);
      var msk := mskarray[ptr % 4];
      for k := 0 to |data|
        invariant ptr == old(ptr)
        invariant forall i :: 0 <= i < k ==> payload[i] == XorBytes(data[i], mask[(ptr + i) % 4])
        invariant forall i :: k <= i < |data| ==> payload[i] == data[i]
      {
        ModAdd(ptr, k);
        payload[k] := XorBytes(payload[k], msk[k % 4]);
      }
      ptr := ptr + |data|;
      return payload[..];
    }
  }
}
