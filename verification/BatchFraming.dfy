/** Batches of serialized WAMP messages, wamp/serializer.py: length prefixes around MsgPack, a
    terminating byte after JSON. The codec of single messages is a pair of functions. */
module BatchFraming {
  import opened Bits
  import opened Wrappers

  type Bytes = seq<Byte>

  /** `Malformed(n)` is the exception "batch format error [n]"; `Inner` comes from the codec. */
  datatype Error = Malformed(n: int) | Inner

  datatype Result<T> = Ok(msgs: seq<T>) | Raise(error: Error)

  // ----- MsgPack

  const LIMIT := 0x1_0000_0000

  function Frame(data: Bytes): Bytes
    requires |data| < LIMIT
  {
    Pack4(|data|) + data
  }

  /** Four octets of length, the most significant first, and the message. */
  lemma FrameLayout(data: Bytes)
    requires |data| < LIMIT
    ensures var f := Frame(data);
      && |f| == 4 + |data| && f[4..] == data
      && |data| == f[0] as int * 0x100_0000 + f[1] as int * 0x1_0000 + f[2] as int * 0x100 + f[3]
  {
  }

  predicate Framable(datas: seq<Bytes>) { forall i :: 0 <= i < |datas| ==> |datas[i]| < LIMIT }

  function Frames(datas: seq<Bytes>): Bytes
    requires Framable(datas)
  {
    if datas == [] then [] else Frame(datas[0]) + Frames(datas[1..])
  }

  function Cons<T>(x: T, r: Result<T>): Result<T> {
    match r case Ok(msgs) => Ok([x] + msgs) case Raise(e) => Raise(e)
  }

  /** The first frame of a payload that is not empty. */
  datatype Head = Bad(n: int) | Piece(data: Bytes, rest: Bytes)

  function Peel(payload: Bytes): (r: Head)
    requires payload != []
    ensures r.Piece? ==> |r.data| < LIMIT && Frame(r.data) + r.rest == payload && |r.rest| < |payload|
    ensures r.Bad? ==> r.n == 1 || r.n == 2
  {
    if |payload| < 4 then Bad(1)
    else
      Unpack4Range(payload[..4]);
      var l := Unpack4(payload[..4]);
      if |payload| < 4 + l then Bad(2)
      else
        assert Pack4(l) + payload[4..4 + l] + payload[4 + l..] == payload;
        Piece(payload[4..4 + l], payload[4 + l..])
  }

  function Unframe<T>(payload: Bytes, unpack: Bytes -> Maybe<T>): (r: Result<T>)
    ensures r != Raise(Malformed(3))
    decreases |payload|
  {
    if payload == [] then Ok([])
    else
      match Peel(payload)
      case Bad(n) => Raise(Malformed(n))
      case Piece(data, rest) =>
        match unpack(data)
        case None => Raise(Inner)
        case Some(msg) => Cons(msg, Unframe(rest, unpack))
  }

  lemma PeelShort(payload: Bytes, i: nat)
    requires i < |payload| < i + 4
    ensures Peel(payload[i..]) == Bad(1)
  {
  }

  /** `struct.unpack("!L", payload[i:i + 4])`. */
  method ReadLength(payload: Bytes, i: nat) returns (l: nat)
    requires i + 4 <= |payload|
    ensures Peel(payload[i..]) ==
      if |payload| < i + 4 + l then Bad(2) else Piece(payload[i + 4..i + 4 + l], payload[i + 4 + l..])
  {
    assert payload[i..][..4] == payload[i..i + 4];
    Unpack4Range(payload[i..i + 4]);
    l := Unpack4(payload[i..i + 4]);
    if i + 4 + l <= |payload| {
      assert payload[i..][4..4 + l] == payload[i + 4..i + 4 + l] && payload[i..][4 + l..] == payload[i + 4 + l..];
    }
  }

  function Prefixed<T>(before: seq<T>, r: Result<T>): Result<T> {
    match r case Ok(msgs) => Ok(before + msgs) case Raise(e) => Raise(e)
  }

  lemma PrefixedCons<T>(before: seq<T>, x: T, r: Result<T>)
    ensures Prefixed(before, Cons(x, r)) == Prefixed(before + [x], r)
  {
    if r.Ok? { assert before + ([x] + r.msgs) == before + [x] + r.msgs; }
  }

  /** Error 3 is never raised: the loop stops at the end of the payload or raises before it. */
  method UnserializeMsgPack<T>(payload: Bytes, unpack: Bytes -> Maybe<T>) returns (r: Result<T>)
    ensures r == Unframe(payload, unpack)
    ensures r != Raise(Malformed(3))
  {
    var msgs, n, i := [], |payload|, 0;
    ghost var rest := payload;
    while i < n
      invariant 0 <= i <= n
      invariant rest == payload[i..] && Unframe(payload, unpack) == Prefixed(msgs, Unframe(rest, unpack))
    {
      if i + 4 > n {
        PeelShort(payload, i);
        return Raise(Malformed(1));
      }
      var l := ReadLength(payload, i);
      if i + 4 + l > n { return Raise(Malformed(2)); }
      var msg := unpack(payload[i + 4..i + 4 + l]);
      if msg.None? { return Raise(Inner); }
      rest := payload[i + 4 + l..];
      PrefixedCons(msgs, msg.value, Unframe(rest, unpack));
      msgs := msgs + [msg.value];
      i := i + 4 + l;
    }
    if i != n { return Raise(Malformed(3)); }
    return Ok(msgs);
  }

  lemma PeelFrame(data: Bytes, rest: Bytes)
    requires |data| < LIMIT
    ensures Peel(Frame(data) + rest) == Piece(data, rest)
  {
    var p := Frame(data) + rest;
    assert p[..4] == Pack4(|data|);
    assert p[4..4 + |data|] == data && p[4 + |data|..] == rest;
  }

  /** `msgs` is what the codec makes of `datas`. */
  predicate Unpacks<T(==)>(datas: seq<Bytes>, unpack: Bytes -> Maybe<T>, msgs: seq<T>) {
    |datas| == |msgs| && forall i :: 0 <= i < |datas| ==> unpack(datas[i]) == Some(msgs[i])
  }

  lemma {:induction false} FramesUnframe<T>(datas: seq<Bytes>, unpack: Bytes -> Maybe<T>, msgs: seq<T>)
    requires Framable(datas) && Unpacks(datas, unpack, msgs)
    ensures Unframe(Frames(datas), unpack) == Ok(msgs)
    decreases datas
  {
    if datas != [] {
      FramesUnframe(datas[1..], unpack, msgs[1..]);
      PeelFrame(datas[0], Frames(datas[1..]));
      assert [msgs[0]] + msgs[1..] == msgs;
    }
  }

  lemma {:induction false} UnframedIsFrames<T>(payload: Bytes, unpack: Bytes -> Maybe<T>) returns (datas: seq<Bytes>)
    requires Unframe(payload, unpack).Ok?
    ensures Framable(datas) && Frames(datas) == payload && Unpacks(datas, unpack, Unframe(payload, unpack).msgs)
    decreases |payload|
  {
    if payload == [] {
      datas := [];
    } else {
      var head := Peel(payload);
      var others := UnframedIsFrames(head.rest, unpack);
      datas := [head.data] + others;
      assert datas[1..] == others;
    }
  }

  /** A payload unserializes to `msgs` if and only if it is exactly the frames of such messages. */
  lemma UnframeIff<T>(payload: Bytes, unpack: Bytes -> Maybe<T>, msgs: seq<T>)
    ensures Unframe(payload, unpack) == Ok(msgs)
      <==> exists datas :: Framable(datas) && Frames(datas) == payload && Unpacks(datas, unpack, msgs)
  {
    if Unframe(payload, unpack) == Ok(msgs) {
      var datas := UnframedIsFrames(payload, unpack);
    }
    if datas :| Framable(datas) && Frames(datas) == payload && Unpacks(datas, unpack, msgs) {
      FramesUnframe(datas, unpack, msgs);
    }
  }

  /** The length that the first four octets give. */
  function Announced(s: Bytes): int
    requires |s| >= 4
  {
    s[0] as int * 0x100_0000 + s[1] as int * 0x1_0000 + s[2] as int * 0x100 + s[3]
  }

  lemma PeelBad(payload: Bytes)
    requires payload != []
    ensures Peel(payload) == Bad(1) <==> |payload| < 4
    ensures Peel(payload) == Bad(2) <==> |payload| >= 4 && |payload| < 4 + Announced(payload)
  {
  }

  lemma {:induction false} FramesThen<T>(datas: seq<Bytes>, tail: Bytes, unpack: Bytes -> Maybe<T>, msgs: seq<T>)
    requires Framable(datas) && Unpacks(datas, unpack, msgs)
    ensures Unframe(Frames(datas) + tail, unpack) == Prefixed(msgs, Unframe(tail, unpack))
    decreases datas
  {
    if datas == [] {
      assert Frames(datas) + tail == tail;
      var r := Unframe(tail, unpack);
      if r.Ok? { assert msgs + r.msgs == r.msgs; }
    } else {
      var more := Frames(datas[1..]);
      FramesThen(datas[1..], tail, unpack, msgs[1..]);
      assert Frames(datas) + tail == Frame(datas[0]) + (more + tail);
      PeelFrame(datas[0], more + tail);
      PrefixedCons([], msgs[0], Prefixed(msgs[1..], Unframe(tail, unpack)));
      PrefixedTwice(msgs, Unframe(tail, unpack));
    }
  }

  lemma PrefixedTwice<T>(msgs: seq<T>, r: Result<T>)
    requires msgs != []
    ensures Cons(msgs[0], Prefixed(msgs[1..], r)) == Prefixed(msgs, r)
  {
    if r.Ok? {
      assert msgs == [msgs[0]] + msgs[1..];
      assert [msgs[0]] + (msgs[1..] + r.msgs) == msgs + r.msgs;
    }
  }

  /** After any good frames: error 1 for one to three octets more, and error 2 for a message shorter
      than its length says. */
  lemma CutFrames<T>(datas: seq<Bytes>, tail: Bytes, unpack: Bytes -> Maybe<T>, msgs: seq<T>)
    requires Framable(datas) && Unpacks(datas, unpack, msgs)
    ensures 0 < |tail| < 4 ==> Unframe(Frames(datas) + tail, unpack) == Raise(Malformed(1))
    ensures |tail| >= 4 && |tail| < 4 + Announced(tail) ==>
      Unframe(Frames(datas) + tail, unpack) == Raise(Malformed(2))
  {
    FramesThen(datas, tail, unpack, msgs);
    if tail != [] { PeelBad(tail); }
  }

  /** The batch of a list of messages. */
  function Packed<T>(msgs: seq<T>, pack: T -> Bytes): (datas: seq<Bytes>)
    ensures |datas| == |msgs| && forall i :: 0 <= i < |msgs| ==> datas[i] == pack(msgs[i])
  {
    seq(|msgs|, i requires 0 <= i < |msgs| => pack(msgs[i]))
  }

  lemma MsgPackRoundTrip<T>(msgs: seq<T>, pack: T -> Bytes, unpack: Bytes -> Maybe<T>)
    requires forall i :: 0 <= i < |msgs| ==> |pack(msgs[i])| < LIMIT && unpack(pack(msgs[i])) == Some(msgs[i])
    ensures Framable(Packed(msgs, pack)) && Unframe(Frames(Packed(msgs, pack)), unpack) == Ok(msgs)
  {
    FramesUnframe(Packed(msgs, pack), unpack, msgs);
  }

  // ----- JSON

  /** The terminator: octal 30 in the source. */
  const END: Byte := 0x18

  /** `payload.split(b'\\30')`. */
  function Split(payload: Bytes): (chunks: seq<Bytes>)
    ensures |chunks| > 0
  {
    if payload == [] then [[]]
    else
      var rest := Split(payload[1..]);
      if payload[0] == END then [[]] + rest else [[payload[0]] + rest[0]] + rest[1..]
  }

  function Terminated(datas: seq<Bytes>): Bytes {
    if datas == [] then [] else datas[0] + [END] + Terminated(datas[1..])
  }

  lemma OneTerminated(data: Bytes)
    ensures Terminated([data]) == data + [0x18]
  {
    assert Terminated([data]) == data + [END] + Terminated([]);
  }

  function LoadAll<T>(chunks: seq<Bytes>, loads: Bytes -> Maybe<T>): Result<T> {
    if chunks == [] then Ok([])
    else
      match loads(chunks[0])
      case None => Raise(Inner)
      case Some(msg) => Cons(msg, LoadAll(chunks[1..], loads))
  }

  /** `JsonObjectSerializer.unserialize`, batched: whatever follows the last terminator is dropped. */
  function UnserializeJson<T>(payload: Bytes, loads: Bytes -> Maybe<T>): Result<T> {
    var split := Split(payload);
    var chunks := split[..|split| - 1];
    if |chunks| == 0 then Raise(Malformed(0)) else LoadAll(chunks, loads)
  }

  lemma {:induction false} SplitOne(data: Bytes, rest: Bytes)
    requires END !in data
    ensures Split(data + [END] + rest) == [data] + Split(rest)
    decreases data
  {
    var p := data + [END] + rest;
    if data == [] {
      assert p[1..] == rest;
    } else {
      assert p[0] == data[0] && p[1..] == data[1..] + [END] + rest;
      SplitOne(data[1..], rest);
      assert [data[0]] + data[1..] == data;
    }
  }

  lemma {:induction false} SplitTerminated(datas: seq<Bytes>)
    requires forall i :: 0 <= i < |datas| ==> END !in datas[i]
    ensures Split(Terminated(datas)) == datas + [[]]
    decreases datas
  {
    if datas != [] {
      SplitTerminated(datas[1..]);
      SplitOne(datas[0], Terminated(datas[1..]));
      assert Terminated(datas) == datas[0] + [END] + Terminated(datas[1..]);
      assert [datas[0]] + (datas[1..] + [[]]) == datas + [[]];
    }
  }

  /** The number of terminators. */
  function Ends(payload: Bytes): nat {
    if payload == [] then 0 else (if payload[0] == END then 1 else 0) + Ends(payload[1..])
  }

  lemma {:induction false} SplitCounts(payload: Bytes)
    ensures |Split(payload)| == Ends(payload) + 1
    decreases payload
  {
    if payload != [] { SplitCounts(payload[1..]); }
  }

  lemma {:induction false} EndsConcat(a: Bytes, b: Bytes)
    ensures Ends(a + b) == Ends(a) + Ends(b)
    decreases a
  {
    if a == [] {
      assert a + b == b;
    } else {
      assert (a + b)[0] == a[0] && (a + b)[1..] == a[1..] + b;
      EndsConcat(a[1..], b);
    }
  }

  lemma {:induction false} EndsPositive(data: Bytes)
    requires END in data
    ensures Ends(data) > 0
    decreases data
  {
    if data[0] != END { EndsPositive(data[1..]); }
  }

  lemma {:induction false} EndsOfTerminated(datas: seq<Bytes>)
    ensures Ends(Terminated(datas)) >= |datas|
    ensures (exists i :: 0 <= i < |datas| && END in datas[i]) ==> Ends(Terminated(datas)) > |datas|
    decreases datas
  {
    if datas != [] {
      EndsConcat(datas[0] + [END], Terminated(datas[1..]));
      EndsConcat(datas[0], [END]);
      assert [END][1..] == [] && Ends([END]) == 1;
      EndsOfTerminated(datas[1..]);
      if END in datas[0] { EndsPositive(datas[0]); }
      if i :| 0 < i < |datas| && END in datas[i] { assert datas[1..][i - 1] == datas[i]; }
    }
  }

  lemma {:induction false} LoadsAll<T>(chunks: seq<Bytes>, loads: Bytes -> Maybe<T>, msgs: seq<T>)
    requires Unpacks(chunks, loads, msgs)
    ensures LoadAll(chunks, loads) == Ok(msgs)
    decreases chunks
  {
    if chunks != [] {
      LoadsAll(chunks[1..], loads, msgs[1..]);
      assert [msgs[0]] + msgs[1..] == msgs;
    }
  }

  lemma {:induction false} LoadedLength<T>(chunks: seq<Bytes>, loads: Bytes -> Maybe<T>)
    ensures LoadAll(chunks, loads).Ok? ==> |LoadAll(chunks, loads).msgs| == |chunks|
    decreases chunks
  {
    if chunks != [] { LoadedLength(chunks[1..], loads); }
  }

  /** A batch of at least one message comes back as it was, if and only if no serialized message
      contains the terminator. An empty batch is refused. */
  lemma JsonRoundTrip<T>(msgs: seq<T>, dumps: T -> Bytes, loads: Bytes -> Maybe<T>)
    requires forall i :: 0 <= i < |msgs| ==> loads(dumps(msgs[i])) == Some(msgs[i])
    ensures UnserializeJson(Terminated(Packed(msgs, dumps)), loads) == Ok(msgs)
      <==> msgs != [] && forall i :: 0 <= i < |msgs| ==> 0x18 !in dumps(msgs[i])
  {
    var datas := Packed(msgs, dumps);
    var split := Split(Terminated(datas));
    if forall i :: 0 <= i < |msgs| ==> END !in dumps(msgs[i]) {
      SplitTerminated(datas);
      assert split[..|split| - 1] == datas;
      LoadsAll(datas, loads, msgs);
    } else {
      var i :| 0 <= i < |msgs| && END in dumps(msgs[i]);
      assert END in datas[i];
      SplitCounts(Terminated(datas));
      EndsOfTerminated(datas);
      LoadedLength(split[..|split| - 1], loads);
    }
  }

  /** An unfinished last message is dropped without an error. */
  lemma JsonIgnoresTail<T>(payload: Bytes, tail: Bytes, loads: Bytes -> Maybe<T>)
    requires END !in tail
    ensures UnserializeJson(payload + tail, loads) == UnserializeJson(payload, loads)
  {
    SplitTail(payload, tail);
  }

  /** `a` is `b` with `tail` after its last chunk. */
  predicate Tailed(a: seq<Bytes>, b: seq<Bytes>, tail: Bytes) {
    |a| == |b| > 0 && a[..|a| - 1] == b[..|b| - 1] && a[|a| - 1] == b[|b| - 1] + tail
  }

  lemma TailedCons(x: Bytes, a: seq<Bytes>, b: seq<Bytes>, tail: Bytes)
    requires Tailed(a, b, tail)
    ensures Tailed([x] + a, [x] + b, tail)
  {
    assert ([x] + a)[..|a|] == [x] + a[..|a| - 1] && ([x] + b)[..|b|] == [x] + b[..|b| - 1];
  }

  lemma TailedFirst(c: Byte, a: seq<Bytes>, b: seq<Bytes>, tail: Bytes)
    requires Tailed(a, b, tail)
    ensures Tailed([[c] + a[0]] + a[1..], [[c] + b[0]] + b[1..], tail)
  {
    if |a| == 1 {
      assert [c] + (b[0] + tail) == [c] + b[0] + tail;
      assert a[1..] == [] && b[1..] == [];
    } else {
      assert a[..|a| - 1][0] == b[..|b| - 1][0];
      var n := |a| - 1;
      assert ([[c] + a[0]] + a[1..])[..n] == [[c] + a[0]] + a[..n][1..];
      assert ([[c] + b[0]] + b[1..])[..n] == [[c] + b[0]] + b[..n][1..];
    }
  }

  lemma {:induction false} SplitTail(payload: Bytes, tail: Bytes)
    requires END !in tail
    ensures Tailed(Split(payload + tail), Split(payload), tail)
    decreases payload
  {
    if payload == [] {
      assert payload + tail == tail;
      SplitPlain(tail);
    } else {
      assert (payload + tail)[0] == payload[0] && (payload + tail)[1..] == payload[1..] + tail;
      SplitTail(payload[1..], tail);
      TailedCons([], Split(payload[1..] + tail), Split(payload[1..]), tail);
      TailedFirst(payload[0], Split(payload[1..] + tail), Split(payload[1..]), tail);
    }
  }

  lemma {:induction false} SplitPlain(data: Bytes)
    requires END !in data
    ensures Split(data) == [data]
    decreases data
  {
    if data != [] {
      SplitPlain(data[1..]);
      assert [data[0]] + data[1..] == data;
    }
  }

  /** Without a terminator there is no message, which is an error of its own. */
  lemma NoTerminator<T>(payload: Bytes, loads: Bytes -> Maybe<T>)
    requires 0x18 !in payload
    ensures UnserializeJson(payload, loads) == Raise(Malformed(0))
  {
    SplitPlain(payload);
  }

  /** It happens: of a batch of two messages that is cut short anywhere in the second, the first comes
      out alone. */
  lemma CutBatchLosesLast<T>(a: Bytes, b: Bytes, loads: Bytes -> Maybe<T>, x: T)
    requires END !in a && END !in b && loads(a) == Some(x)
    ensures UnserializeJson(Terminated([a]) + b, loads) == Ok([x])
  {
    JsonIgnoresTail(Terminated([a]), b, loads);
    SplitTerminated([a]);
    assert Split(Terminated([a]))[..1] == [a];
    LoadsAll([a], loads, [x]);
  }
}
