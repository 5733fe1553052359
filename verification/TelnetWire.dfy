/** The Telnet byte stream of rfc2217.py: escaping and framing on the sending side, the mode
    machine of the read loops on the receiving side. */
module TelnetWire {
  import opened Bits
  import opened Sequences

  const SE: Byte := 0xF0
  const SB: Byte := 0xFA
  const WILL: Byte := 0xFB
  const WONT: Byte := 0xFC
  const DO: Byte := 0xFD
  const DONT: Byte := 0xFE
  const IAC: Byte := 0xFF

  const COM_PORT_OPTION: Byte := 0x2C

  predicate IsNegotiation(b: Byte) { b == DO || b == DONT || b == WILL || b == WONT }

  // ----- sending

  /** The state of an option or of a setting. */
  datatype Status = REQUESTED | ACTIVE | INACTIVE | REALLY_INACTIVE

  /** `value.replace(IAC, IAC_DOUBLED)`, and what the generator `escape` yields. */
  function Doubled(value: seq<Byte>): seq<Byte> {
    if value == [] then [] else (if value[0] == IAC then [IAC, IAC] else [value[0]]) + Doubled(value[1..])
  }

  /** A suboption number; none of those in use is IAC, which would not survive the framing. */
  type Suboption = b: Byte | b != IAC

  /** The things that a side writes to the connection, each in one write. */
  datatype Item =
    | Payload(data: seq<Byte>)
    | Negotiate(command: Byte, option: Byte)
    | ComPort(suboption: Suboption, value: seq<Byte>)

  function Encode(item: Item): seq<Byte> {
    match item
    case Payload(data) => Doubled(data)
    case Negotiate(command, option) => [IAC, command, option]
    case ComPort(suboption, value) => [IAC, SB, COM_PORT_OPTION, suboption] + Doubled(value) + [IAC, SE]
  }

  function EncodeAll(items: seq<Item>): seq<Byte> {
    if items == [] then [] else Encode(items[0]) + EncodeAll(items[1..])
  }

  predicate Sendable(items: seq<Item>) {
    forall i :: 0 <= i < |items| && items[i].Negotiate? ==> IsNegotiation(items[i].command)
  }

  // ----- receiving

  datatype Mode = NORMAL | IAC_SEEN | NEGOTIATE

  /** The suboption buffer: `None`, or the bytes collected since IAC SB. */
  datatype Buffer = Closed | Open(bytes: seq<Byte>)

  datatype Receiver = Receiver(mode: Mode, suboption: Buffer, command: Byte)

  /** What the receiver does with its input: passes a byte on, or calls one of its handlers. */
  datatype Event =
    | Yield(b: Byte)
    | ProcessSubnegotiation(block: seq<Byte>)
    | ProcessCommand(command: Byte)
    | NegotiateOption(command: Byte, option: Byte)

  /** `bytes(None)` of Python 2: the text that a stray IAC SE is processed with. */
  const NONE_TEXT: seq<Byte> := [0x4E, 0x6F, 0x6E, 0x65]

  function Store(r: Receiver, b: Byte): Receiver {
    r.(mode := NORMAL, suboption := if r.suboption.Open? then Open(r.suboption.bytes + [b]) else Closed)
  }

  function Step(r: Receiver, b: Byte): Receiver {
    match r.mode
    case NORMAL => if b == IAC then r.(mode := IAC_SEEN) else Store(r, b)
    case IAC_SEEN =>
      if b == IAC then Store(r, b)
      else if b == SB then r.(mode := NORMAL, suboption := Open([]))
      else if b == SE then r.(mode := NORMAL, suboption := Closed)
      else if IsNegotiation(b) then r.(mode := NEGOTIATE, command := b)
      else r.(mode := NORMAL)
    case NEGOTIATE => r.(mode := NORMAL)
  }

  function Emit(r: Receiver, b: Byte): seq<Event> {
    match r.mode
    case NORMAL => if b != IAC && r.suboption.Closed? then [Yield(b)] else []
    case IAC_SEEN =>
      if b == IAC then (if r.suboption.Closed? then [Yield(b)] else [])
      else if b == SE then [ProcessSubnegotiation(if r.suboption.Open? then r.suboption.bytes else NONE_TEXT)]
      else if b == SB || IsNegotiation(b) then []
      else [ProcessCommand(b)]
    case NEGOTIATE => [NegotiateOption(r.command, b)]
  }

  function Run(r: Receiver, s: seq<Byte>): Receiver
    decreases s
  {
    if s == [] then r else Run(Step(r, s[0]), s[1..])
  }

  function Events(r: Receiver, s: seq<Byte>): seq<Event>
    decreases s
  {
    if s == [] then [] else Emit(r, s[0]) + Events(Step(r, s[0]), s[1..])
  }

  lemma {:induction false} RunConcat(r: Receiver, s: seq<Byte>, t: seq<Byte>)
    ensures Run(r, s + t) == Run(Run(r, s), t)
    ensures Events(r, s + t) == Events(r, s) + Events(Run(r, s), t)
    decreases s
  {
    if s == [] {
      assert s + t == t;
    } else {
      assert (s + t)[0] == s[0] && (s + t)[1..] == s[1..] + t;
      RunConcat(Step(r, s[0]), s[1..], t);
    }
  }

  // ----- the receiver inverts the sender

  predicate Idle(r: Receiver) { r.mode == NORMAL && r.suboption == Closed }

  function Yields(data: seq<Byte>): (r: seq<Event>)
    ensures |r| == |data|
  {
    if data == [] then [] else [Yield(data[0])] + Yields(data[1..])
  }

  /** What the receiver is to make of an item: the data itself, or the command with its value as
      it was before escaping. */
  function Meaning(item: Item): seq<Event> {
    match item
    case Payload(data) => Yields(data)
    case Negotiate(command, option) => [NegotiateOption(command, option)]
    case ComPort(suboption, value) => [ProcessSubnegotiation([COM_PORT_OPTION, suboption] + value)]
  }

  function Meanings(items: seq<Item>): seq<Event> {
    if items == [] then [] else Meaning(items[0]) + Meanings(items[1..])
  }

  /** An escaped byte is stored once, in the buffer or as data. */
  lemma DoubledByte(r: Receiver, b: Byte)
    requires r.mode == NORMAL
    ensures Run(r, Doubled([b])) == Store(r, b)
    ensures Events(r, Doubled([b])) == if r.suboption.Closed? then [Yield(b)] else []
  {
    assert [b][1..] == [];
    assert Doubled([b]) == if b == IAC then [IAC, IAC] else [b];
    if b == IAC {
      assert [IAC, IAC][1..] == [IAC] && [IAC][1..] == [];
      assert Run(r, [IAC, IAC]) == Run(Step(r, IAC), [IAC]);
      assert Events(r, [IAC, IAC]) == Emit(r, IAC) + Events(Step(r, IAC), [IAC]);
    }
  }

  lemma DoubledHead(value: seq<Byte>)
    requires value != []
    ensures Doubled(value) == Doubled([value[0]]) + Doubled(value[1..])
  {
    assert [value[0]][1..] == [];
  }

  lemma {:induction false} DoubledData(r: Receiver, data: seq<Byte>)
    requires Idle(r)
    ensures Run(r, Doubled(data)) == r && Events(r, Doubled(data)) == Yields(data)
  {
    if data != [] {
      DoubledHead(data);
      DoubledByte(r, data[0]);
      RunConcat(r, Doubled([data[0]]), Doubled(data[1..]));
      DoubledData(r, data[1..]);
    }
  }

  lemma Consed(bytes: seq<Byte>, value: seq<Byte>)
    requires value != []
    ensures bytes + [value[0]] + value[1..] == bytes + value
  {
  }

  lemma {:induction false} DoubledBlock(r: Receiver, value: seq<Byte>)
    requires r.mode == NORMAL && r.suboption.Open?
    ensures Run(r, Doubled(value)) == r.(suboption := Open(r.suboption.bytes + value))
    ensures Events(r, Doubled(value)) == []
    decreases value
  {
    if value == [] {
      assert r.suboption.bytes + [] == r.suboption.bytes;
    } else {
      DoubledHead(value);
      DoubledByte(r, value[0]);
      RunConcat(r, Doubled([value[0]]), Doubled(value[1..]));
      DoubledBlock(Store(r, value[0]), value[1..]);
      Consed(r.suboption.bytes, value);
    }
  }

  lemma RunTwo(r: Receiver, a: Byte, b: Byte)
    ensures Run(r, [a, b]) == Step(Step(r, a), b)
    ensures Events(r, [a, b]) == Emit(r, a) + Emit(Step(r, a), b)
  {
    assert [a, b][1..] == [b] && [b][1..] == [];
    assert Run(r, [a, b]) == Run(Step(r, a), [b]);
    assert Events(r, [a, b]) == Emit(r, a) + Events(Step(r, a), [b]);
    assert Events(Step(r, a), [b]) == Emit(Step(r, a), b) + [];
  }

  lemma ItemReceived(r: Receiver, item: Item)
    requires Idle(r) && Sendable([item])
    ensures Idle(Run(r, Encode(item))) && Events(r, Encode(item)) == Meaning(item)
  {
    match item {
      case Payload(data) => DoubledData(r, data);
      case Negotiate(command, option) =>
        assert [item][0] == item;
        RunConcat(r, [IAC, command], [option]);
        assert [IAC, command] + [option] == Encode(item);
        RunTwo(r, IAC, command);
        assert [option][1..] == [];
      case ComPort(suboption, value) =>
        ComPortReceived(r, suboption, value);
    }
  }

  lemma ComPortReceived(r: Receiver, suboption: Suboption, value: seq<Byte>)
    requires Idle(r)
    ensures Idle(Run(r, Encode(ComPort(suboption, value))))
    ensures Events(r, Encode(ComPort(suboption, value))) == Meaning(ComPort(suboption, value))
  {
    var a: seq<Byte>, b: seq<Byte>, z: seq<Byte> := [IAC, SB], [COM_PORT_OPTION, suboption], [IAC, SE];
    var d := Doubled(value);
    assert Encode(ComPort(suboption, value)) == a + (b + (d + z));
    BlockStarts(r, a, b + (d + z));
    var r1 := r.(suboption := Open([]));
    RunConcat(r1, b, d + z);
    RunTwo(r1, COM_PORT_OPTION, suboption);
    assert [] + [COM_PORT_OPTION] + [suboption] == b;
    BlockEnds(r1.(suboption := Open(b)), value);
  }

  lemma BlockStarts(r: Receiver, a: seq<Byte>, s: seq<Byte>)
    requires Idle(r) && a == [IAC, SB]
    ensures Run(r, a + s) == Run(r.(suboption := Open([])), s)
    ensures Events(r, a + s) == Events(r.(suboption := Open([])), s)
  {
    RunConcat(r, a, s);
    RunTwo(r, IAC, SB);
  }

  lemma BlockEnds(r: Receiver, value: seq<Byte>)
    requires r.mode == NORMAL && r.suboption.Open?
    ensures Idle(Run(r, Doubled(value) + [IAC, SE]))
    ensures Events(r, Doubled(value) + [IAC, SE]) == [ProcessSubnegotiation(r.suboption.bytes + value)]
  {
    RunConcat(r, Doubled(value), [IAC, SE]);
    DoubledBlock(r, value);
    RunTwo(Run(r, Doubled(value)), IAC, SE);
  }

  /** The round trip: any interleaving of data, option commands and COM-port subnegotiations is
      received as sent, and the receiver is idle again. */
  lemma {:induction false} StreamReceived(r: Receiver, items: seq<Item>)
    requires Idle(r) && Sendable(items)
    ensures Idle(Run(r, EncodeAll(items))) && Events(r, EncodeAll(items)) == Meanings(items)
    decreases items
  {
    if items != [] {
      ItemReceived(r, items[0]);
      RunConcat(r, Encode(items[0]), EncodeAll(items[1..]));
      StreamReceived(Run(r, Encode(items[0])), items[1..]);
    }
  }

  // ----- the octets themselves (RFC 854 and RFC 2217)

  /** Without the octet 255 a value stands as it is, and each 255 is doubled. */
  lemma {:induction false} NotDoubled(value: seq<Byte>)
    requires 255 !in value
    ensures Doubled(value) == value
  {
    if value != [] {
      NotDoubled(value[1..]);
      assert value == [value[0]] + value[1..];
    }
  }

  lemma DoubledAt(value: seq<Byte>, k: nat)
    requires k < |value| && value[k] == 255
    ensures Doubled(value) == Doubled(value[..k]) + ([255, 255] + Doubled(value[k + 1..]))
  {
    DoubledConcat(value[..k], value[k..]);
    assert value == value[..k] + value[k..] && value[k..][1..] == value[k + 1..];
  }

  lemma {:induction false} DoubledConcat(a: seq<Byte>, b: seq<Byte>)
    ensures Doubled(a + b) == Doubled(a) + Doubled(b)
    decreases a
  {
    if a == [] {
      assert a + b == b;
    } else {
      assert (a + b)[0] == a[0] && (a + b)[1..] == a[1..] + b;
      DoubledConcat(a[1..], b);
    }
  }

  /** Commands and subnegotiations, octet by octet. */
  lemma EncodedOctets(command: Byte, option: Byte, suboption: Byte, value: seq<Byte>)
    requires suboption != 255 && 255 !in value
    ensures Encode(Negotiate(command, option)) == [255, command, option]
    ensures var begin: seq<Byte>, end: seq<Byte> := [255, 250, 44, suboption], [255, 240];
      Encode(ComPort(suboption, value)) == begin + value + end
    ensures Encode(Payload(value)) == value && Encode(Payload([255])) == [255, 255]
  {
    NotDoubled(value);
    DoubledAt([255], 0);
  }

  /** What the octet after 255 makes of an idle receiver: 255 is data, 251 to 254 begin an option
      command, 250 begins a block, 240 ends one, also where none has begun, and every other one is a
      command. */
  lemma PairReceived(r: Receiver, b: Byte, option: Byte)
    requires Idle(r)
    ensures b == 255 ==> Events(r, [255, b]) == [Yield(255)] && Run(r, [255, b]) == r
    ensures b == 250 ==> Events(r, [255, b]) == [] && Run(r, [255, b]) == r.(suboption := Open([]))
    ensures b == 240 ==>
      Events(r, [255, b]) == [ProcessSubnegotiation([78, 111, 110, 101])] && Run(r, [255, b]) == r
    ensures 251 <= b <= 254 ==>
      Events(r, [255, b] + [option]) == [NegotiateOption(b, option)] && Idle(Run(r, [255, b] + [option]))
    ensures b < 240 || 240 < b < 250 ==> Events(r, [255, b]) == [ProcessCommand(b)] && Run(r, [255, b]) == r
  {
    RunTwo(r, 255, b);
    RunConcat(r, [255, b], [option]);
    assert [option][1..] == [];
  }

  /** The same within a block: 240 hands it over, 250 throws away what was collected, and option
      commands and others leave it as it is. */
  lemma PairWithinBlock(r: Receiver, b: Byte, option: Byte)
    requires r.mode == NORMAL && r.suboption.Open?
    ensures b == 240 ==> Events(r, [255, b]) == [ProcessSubnegotiation(r.suboption.bytes)] && Idle(Run(r, [255, b]))
    ensures b == 250 ==> Events(r, [255, b]) == [] && Run(r, [255, b]) == r.(suboption := Open([]))
    ensures b == 255 ==>
      Events(r, [255, b]) == [] && Run(r, [255, b]) == r.(suboption := Open(r.suboption.bytes + [255]))
    ensures b != 255 ==> Events(r, [b]) == [] && Run(r, [b]) == r.(suboption := Open(r.suboption.bytes + [b]))
    ensures 251 <= b <= 254 ==>
      && Events(r, [255, b] + [option]) == [NegotiateOption(b, option)]
      && Run(r, [255, b] + [option]) == r.(command := b)
    ensures b < 240 || 240 < b < 250 ==> Events(r, [255, b]) == [ProcessCommand(b)] && Run(r, [255, b]) == r
  {
    RunTwo(r, 255, b);
    RunConcat(r, [255, b], [option]);
    assert [option][1..] == [] && [b][1..] == [];
  }

  // ----- chunks

  function RunChunks(r: Receiver, chunks: seq<seq<Byte>>): Receiver
    decreases chunks
  {
    if chunks == [] then r else RunChunks(Run(r, chunks[0]), chunks[1..])
  }

  function EventsChunks(r: Receiver, chunks: seq<seq<Byte>>): seq<Event>
    decreases chunks
  {
    if chunks == [] then [] else Events(r, chunks[0]) + EventsChunks(Run(r, chunks[0]), chunks[1..])
  }

  lemma {:induction false} ChunksAreStream(r: Receiver, chunks: seq<seq<Byte>>)
    ensures RunChunks(r, chunks) == Run(r, Concat(chunks))
    ensures EventsChunks(r, chunks) == Events(r, Concat(chunks))
    decreases chunks
  {
    if chunks != [] {
      RunConcat(r, chunks[0], Concat(chunks[1..]));
      ChunksAreStream(Run(r, chunks[0]), chunks[1..]);
    }
  }

  /** However the sent bytes are cut into chunks, the receiver does what was sent, and at every
      moment it has done a beginning of it. */
  lemma Multiplexing(r: Receiver, items: seq<Item>, chunks: seq<seq<Byte>>, rest: seq<Byte>)
    requires Idle(r) && Sendable(items)
    requires EncodeAll(items) == Concat(chunks) + rest
    ensures EventsChunks(r, chunks) <= Meanings(items)
    ensures rest == [] ==> EventsChunks(r, chunks) == Meanings(items) && Idle(RunChunks(r, chunks))
  {
    StreamReceived(r, items);
    ChunksAreStream(r, chunks);
    RunConcat(r, Concat(chunks), rest);
    if rest == [] {
      assert Concat(chunks) + rest == Concat(chunks);
    }
  }

  lemma {:induction false} DoubledSnoc(data: seq<Byte>, b: Byte)
    ensures Doubled(data + [b]) == Doubled(data) + (if b == IAC then [IAC, IAC] else [b])
  {
    if data == [] {
      assert [] + [b] == [b] && [b][1..] == [];
    } else {
      assert (data + [b])[0] == data[0] && (data + [b])[1..] == data[1..] + [b];
      DoubledSnoc(data[1..], b);
    }
  }

  // ----- the receiving loops

  /** `PortManager`, the server side, as far as its input filter goes. */
  class PortManager {
    var mode: Mode
    var suboption: Buffer
    var telnetCommand: Byte

    /** What the filter has yielded and the handlers it has called, oldest first. */
    ghost var done: seq<Event>

    constructor ()
      ensures Idle(State()) && done == []
    {
      mode, suboption, telnetCommand := NORMAL, Closed, 0;
      done := [];
    }

    ghost function State(): Receiver reads this { Receiver(mode, suboption, telnetCommand) }

    /** `escape`, as far as its consumer reads it. */
    method Escape(data: seq<Byte>) returns (out: seq<Byte>)
      ensures out == Doubled(data)
    {
      out := [];
      assert data[..0] == [];
      for k := 0 to |data|
        invariant out == Doubled(data[..k])
      {
        DoubledSnoc(data[..k], data[k]);
        assert data[..k + 1] == data[..k] + [data[k]];
        out := out + if data[k] == IAC then [IAC, IAC] else [data[k]];
      }
      assert data[..|data|] == data;
    }

    method Store(b: Byte) returns (out: seq<Byte>)
      modifies `suboption, `done
      ensures done == old(done) + (if old(suboption).Open? then [] else [Yield(b)])
      ensures suboption == if old(suboption).Open? then Open(old(suboption).bytes + [b]) else Closed
      ensures out == if old(suboption).Open? then [] else [b]
    {
      if suboption.Open? {
        suboption := Open(suboption.bytes + [b]);
        return [];
      } else {
        done := done + [Yield(b)];
        return [b];
      }
    }

    /** `filter`: the yielded bytes, in order; everything else goes to the handlers. */
    method Filter(data: seq<Byte>) returns (out: seq<Byte>)
      modifies this
      ensures State() == Run(old(State()), data)
      ensures done == old(done) + Events(old(State()), data)
      ensures out == DataOf(Events(old(State()), data))
    {
      out := [];
      ghost var start, before := State(), done;
      assert before + [] == before && data[..0] == [];
      for k := 0 to |data|
        invariant State() == Run(start, data[..k])
        invariant done == before + Events(start, data[..k])
        invariant out == DataOf(Events(start, data[..k]))
      {
        ghost var r := State();
        var b := data[k];
        EventsNext(start, data, k);
        DataOfConcat(Events(start, data[..k]), Emit(r, b));
        match mode {
          case NORMAL =>
            if b == IAC {
              mode := IAC_SEEN;
            } else {
              var stored := Store(b);
              out := out + stored;
            }
          case IAC_SEEN =>
            if b == IAC {
              var stored := Store(b);
              out := out + stored;
              mode := NORMAL;
            } else if b == SB {
              suboption := Open([]);
              mode := NORMAL;
            } else if b == SE {
              done := done + [ProcessSubnegotiation(if suboption.Open? then suboption.bytes else NONE_TEXT)];
              suboption := Closed;
              mode := NORMAL;
            } else if IsNegotiation(b) {
              telnetCommand := b;
              mode := NEGOTIATE;
            } else {
              done := done + [ProcessCommand(b)];
              mode := NORMAL;
            }
          case NEGOTIATE =>
            done := done + [NegotiateOption(telnetCommand, b)];
            mode := NORMAL;
        }
        assert before + Events(start, data[..k]) + Emit(r, b) == before + (Events(start, data[..k]) + Emit(r, b));
      }
      assert data[..|data|] == data;
    }
  }

  /** `Serial`, the client side, as far as its reader thread goes. */
  class Serial {
    var readBuffer: seq<Byte>

    /** The handlers that were called, oldest first, with the bytes put into the buffer. */
    ghost var done: seq<Event>

    constructor ()
      ensures readBuffer == [] && done == []
    {
      readBuffer := [];
      done := [];
    }

    method Put(b: Byte)
      modifies this
      ensures readBuffer == old(readBuffer) + [b] && done == old(done) + [Yield(b)]
    {
      readBuffer := readBuffer + [b];
      done := done + [Yield(b)];
    }

    /** One turn of the loop over the bytes of a received chunk; the locals of the read loop go in
        and come out. */
    method ReceiveByte(b: Byte, r: Receiver) returns (r': Receiver)
      modifies this
      ensures r' == Step(r, b)
      ensures done == old(done) + Emit(r, b)
      ensures readBuffer == old(readBuffer) + DataOf(Emit(r, b))
    {
      var mode, suboption, telnetCommand := r.mode, r.suboption, r.command;
      assert done + [] == done && readBuffer + [] == readBuffer;
      match mode {
        case NORMAL =>
          if b == IAC {
            mode := IAC_SEEN;
          } else if suboption.Open? {
            suboption := Open(suboption.bytes + [b]);
          } else {
            Put(b);
          }
        case IAC_SEEN =>
          if b == IAC {
            if suboption.Open? {
              suboption := Open(suboption.bytes + [IAC]);
            } else {
              Put(IAC);
            }
            mode := NORMAL;
          } else if b == SB {
            suboption := Open([]);
            mode := NORMAL;
          } else if b == SE {
            done := done + [ProcessSubnegotiation(if suboption.Open? then suboption.bytes else NONE_TEXT)];
            suboption := Closed;
            mode := NORMAL;
          } else if IsNegotiation(b) {
            telnetCommand := b;
            mode := NEGOTIATE;
          } else {
            done := done + [ProcessCommand(b)];
            mode := NORMAL;
          }
        case NEGOTIATE =>
          done := done + [NegotiateOption(telnetCommand, b)];
          mode := NORMAL;
      }
      r' := Receiver(mode, suboption, telnetCommand);
    }

    method ReceiveChunk(data: seq<Byte>, r: Receiver) returns (r': Receiver)
      modifies this
      ensures r' == Run(r, data)
      ensures done == old(done) + Events(r, data)
      ensures readBuffer == old(readBuffer) + DataOf(Events(r, data))
    {
      r' := r;
      ghost var before, buffered := done, readBuffer;
      assert before + [] == before && buffered + [] == buffered && data[..0] == [];
      for k := 0 to |data|
        invariant r' == Run(r, data[..k])
        invariant done == before + Events(r, data[..k])
        invariant readBuffer == buffered + DataOf(Events(r, data[..k]))
      {
        ghost var events, more := Events(r, data[..k]), Emit(r', data[k]);
        EventsNext(r, data, k);
        DataOfConcat(events, more);
        r' := ReceiveByte(data[k], r');
        Appended(before, events, more);
        Appended(buffered, DataOf(events), DataOf(more));
      }
      assert data[..|data|] == data;
    }

    /** `_telnetReadLoop`: `received` is what the successive calls of `recv` return; an empty
        chunk is the end of the connection. */
    method TelnetReadLoop(received: seq<seq<Byte>>)
      modifies this
      ensures done == old(done) + EventsChunks(START, UntilLost(received))
      ensures readBuffer == old(readBuffer) + DataOf(EventsChunks(START, UntilLost(received)))
    {
      var r := START;
      ghost var before, buffered := done, readBuffer;
      ghost var events: seq<Event> := [];
      var n := 0;
      assert received[0..] == received && before + [] == before && buffered + [] == buffered;
      while n < |received|
        invariant n <= |received|
        invariant EventsChunks(START, UntilLost(received)) == events + EventsChunks(r, UntilLost(received[n..]))
        invariant done == before + events
        invariant readBuffer == buffered + DataOf(events)
      {
        var data := received[n];
        if data == [] {
          assert events + [] == events;
          return;
        }
        ghost var more := Events(r, data);
        NextChunk(received, n, r, events);
        DataOfConcat(events, more);
        r := ReceiveChunk(data, r);
        Appended(before, events, more);
        Appended(buffered, DataOf(events), DataOf(more));
        events := events + more;
        n := n + 1;
      }
      assert events + [] == events;
    }
  }

  lemma NextChunk(received: seq<seq<Byte>>, n: nat, r: Receiver, events: seq<Event>)
    requires n < |received| && received[n] != []
    ensures events + EventsChunks(r, UntilLost(received[n..]))
         == events + Events(r, received[n]) + EventsChunks(Run(r, received[n]), UntilLost(received[n + 1..]))
  {
    var later := UntilLost(received[n + 1..]);
    assert received[n..][1..] == received[n + 1..];
    assert ([received[n]] + later)[1..] == later;
    Appended(events, Events(r, received[n]), EventsChunks(Run(r, received[n]), later));
  }

  const START := Receiver(NORMAL, Closed, 0)

  /** The chunks before the first empty one. */
  function UntilLost(received: seq<seq<Byte>>): seq<seq<Byte>> {
    if received == [] || received[0] == [] then [] else [received[0]] + UntilLost(received[1..])
  }

  lemma Appended<T>(a: seq<T>, b: seq<T>, c: seq<T>)
    ensures a + b + c == a + (b + c)
  {
  }

  lemma OneMoreByte(r: Receiver, s: seq<Byte>, b: Byte)
    ensures Run(r, s + [b]) == Step(Run(r, s), b)
    ensures Events(r, s + [b]) == Events(r, s) + Emit(Run(r, s), b)
  {
    assert [b][1..] == [];
    RunConcat(r, s, [b]);
    assert Events(Run(r, s), [b]) == Emit(Run(r, s), b) + [];
  }

  /** The bytes passed on as data. */
  function DataOf(events: seq<Event>): seq<Byte> {
    if events == [] then [] else (if events[0].Yield? then [events[0].b] else []) + DataOf(events[1..])
  }

  lemma {:induction false} DataOfConcat(x: seq<Event>, y: seq<Event>)
    ensures DataOf(x + y) == DataOf(x) + DataOf(y)
  {
    if x == [] {
      assert x + y == y;
    } else {
      assert (x + y)[0] == x[0] && (x + y)[1..] == x[1..] + y;
      DataOfConcat(x[1..], y);
    }
  }

  lemma EventsNext(r: Receiver, data: seq<Byte>, k: nat)
    requires k < |data|
    ensures Run(r, data[..k + 1]) == Step(Run(r, data[..k]), data[k])
    ensures Events(r, data[..k + 1]) == Events(r, data[..k]) + Emit(Run(r, data[..k]), data[k])
  {
    assert data[..k + 1] == data[..k] + [data[k]];
    OneMoreByte(r, data[..k], data[k]);
  }
}
