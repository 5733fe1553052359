/** Setting the parameters of a remote port, RFC 2217: the client of rfc2217.py sends four
    requests, the server applies them to its serial port and answers, the client checks. */
module TelnetSettings {
  import opened Bits
  import opened Sequences
  import opened TelnetWire
  import opened Wrappers

  // ----- constants

  const SET_BAUDRATE: Suboption := 1
  const SET_DATASIZE: Suboption := 2
  const SET_PARITY: Suboption := 3
  const SET_STOPSIZE: Suboption := 4
  const SERVER_SET_BAUDRATE: Suboption := 0x65
  const SERVER_SET_DATASIZE: Suboption := 0x66
  const SERVER_SET_PARITY: Suboption := 0x67
  const SERVER_SET_STOPSIZE: Suboption := 0x68

  datatype Parity = PARITY_NONE | PARITY_ODD | PARITY_EVEN | PARITY_MARK | PARITY_SPACE

  datatype Stopbits = ONE | ONE_POINT_FIVE | TWO

  /** RFC2217_PARITY_MAP. */
  function ParityCode(p: Parity): (b: Byte)
    ensures 1 <= b <= 5 && ParityOf(b) == p
  {
    match p
    case PARITY_NONE => 1
    case PARITY_ODD => 2
    case PARITY_EVEN => 3
    case PARITY_MARK => 4
    case PARITY_SPACE => 5
  }

  /** RFC2217_REVERSE_PARITY_MAP. */
  function ParityOf(b: Byte): Parity
    requires 1 <= b <= 5
  {
    if b == 1 then PARITY_NONE else if b == 2 then PARITY_ODD else if b == 3 then PARITY_EVEN
    else if b == 4 then PARITY_MARK else PARITY_SPACE
  }

  /** RFC2217_STOPBIT_MAP. */
  function StopCode(s: Stopbits): (b: Byte)
    ensures 1 <= b <= 3 && StopOf(b) == s
  {
    match s case ONE => 1 case ONE_POINT_FIVE => 3 case TWO => 2
  }

  /** RFC2217_REVERSE_STOPBIT_MAP. */
  function StopOf(b: Byte): Stopbits
    requires 1 <= b <= 3
  {
    if b == 1 then ONE else if b == 2 then TWO else ONE_POINT_FIVE
  }

  lemma OneByte(a: Byte, b: Byte)
    ensures [a] == [b] <==> a == b
  {
    assert [a][0] == a && [b][0] == b;
  }

  // ----- the server

  /** The settings of a serial port. */
  datatype Port = Port(baudrate: int, bytesize: int, parity: Parity, stopbits: Stopbits)

  predicate WellSet(p: Port) { 0 < p.baudrate < 0x1_0000_0000 && 5 <= p.bytesize <= 8 }

  /** Assigning to a property of the port: the value stays if the setter takes it and the device
      accepts the new settings, otherwise the ValueError handler puts the old value back. */
  function Assign(backup: Port, p: Port, accepts: Port -> bool): Port {
    if 0 < p.baudrate && 5 <= p.bytesize <= 8 && accepts(p) then p else backup
  }

  /** How a handler ends: with the port and an answer, or with an exception that it does not
      catch (struct.error for a short field, KeyError for an unknown code). */
  datatype Handled = Answered(port: Port, answer: Item) | Ignored | Raised

  /** `PortManager._telnetProcessSubnegotiation`, the four port settings. */
  function ProcessSetting(port: Port, block: seq<Byte>, accepts: Port -> bool): Handled
    requires WellSet(port)
  {
    if |block| < 2 || block[0] != COM_PORT_OPTION then Ignored
    else if block[1] == SET_BAUDRATE then
      if |block| < 6 then Raised
      else
        var n := Unpack4(block[2..6]);
        var p := if n != 0 then Assign(port, port.(baudrate := n), accepts) else port;
        Answered(p, ComPort(SERVER_SET_BAUDRATE, Pack4(p.baudrate)))
    else if block[1] == SET_DATASIZE then
      if |block| < 3 then Raised
      else
        var p := if block[2] != 0 then Assign(port, port.(bytesize := block[2] as int), accepts) else port;
        Answered(p, ComPort(SERVER_SET_DATASIZE, [p.bytesize]))
    else if block[1] == SET_PARITY then
      if |block| < 3 || block[2] > 5 then Raised
      else
        var p := if block[2] != 0 then Assign(port, port.(parity := ParityOf(block[2])), accepts) else port;
        Answered(p, ComPort(SERVER_SET_PARITY, [ParityCode(p.parity)]))
    else if block[1] == SET_STOPSIZE then
      if |block| < 3 || block[2] > 3 then Raised
      else
        var p := if block[2] != 0 then Assign(port, port.(stopbits := StopOf(block[2])), accepts) else port;
        Answered(p, ComPort(SERVER_SET_STOPSIZE, [StopCode(p.stopbits)]))
    else Ignored
  }

  /** The server's serial port and what it has written to the connection; `dead` once an exception
      has left the filter. */
  datatype Server = Server(port: Port, written: seq<Item>, dead: bool)

  function Serve(s: Server, e: Event, accepts: Port -> bool): (r: Server)
    requires WellSet(s.port)
    ensures WellSet(r.port)
  {
    if s.dead || !e.ProcessSubnegotiation? then s
    else
      match ProcessSetting(s.port, e.block, accepts)
      case Answered(port, answer) => Server(port, s.written + [answer], false)
      case Ignored => s
      case Raised => s.(dead := true)
  }

  function ServeAll(s: Server, events: seq<Event>, accepts: Port -> bool): (r: Server)
    requires WellSet(s.port)
    ensures WellSet(r.port)
    decreases events
  {
    if events == [] then s else ServeAll(Serve(s, events[0], accepts), events[1..], accepts)
  }

  // ----- the client

  /** A `TelnetSubnegotiation`: the value that was asked for and what became of it. */
  datatype Setting = Setting(value: seq<Byte>, state: Status)

  /** `checkAnswer`. */
  function Checked(o: Setting, suboption: seq<Byte>): Setting {
    if |o.value| <= |suboption| && o.value == suboption[..|o.value|] then o.(state := ACTIVE)
    else o.(state := REALLY_INACTIVE)
  }

  datatype Client = Client(baudrate: Setting, datasize: Setting, parity: Setting, stopsize: Setting)

  /** `Serial._telnetProcessSubnegotiation`, the answers about port settings. */
  function Answer(c: Client, e: Event): Client {
    if !e.ProcessSubnegotiation? || |e.block| < 2 || e.block[0] != COM_PORT_OPTION then c
    else if e.block[1] == SERVER_SET_BAUDRATE then c.(baudrate := Checked(c.baudrate, e.block[2..]))
    else if e.block[1] == SERVER_SET_DATASIZE then c.(datasize := Checked(c.datasize, e.block[2..]))
    else if e.block[1] == SERVER_SET_PARITY then c.(parity := Checked(c.parity, e.block[2..]))
    else if e.block[1] == SERVER_SET_STOPSIZE then c.(stopsize := Checked(c.stopsize, e.block[2..]))
    else c
  }

  function AnswerAll(c: Client, events: seq<Event>): Client
    decreases events
  {
    if events == [] then c else AnswerAll(Answer(c, events[0]), events[1..])
  }

  /** The requests of `_reconfigure_port`, in its order. */
  function Requests(want: Port): seq<Item>
    requires WellSet(want)
  {
    [ComPort(SET_BAUDRATE, Pack4(want.baudrate)), ComPort(SET_DATASIZE, [want.bytesize]),
     ComPort(SET_PARITY, [ParityCode(want.parity)]), ComPort(SET_STOPSIZE, [StopCode(want.stopbits)])]
  }

  function Requested(want: Port): Client
    requires WellSet(want)
  {
    Client(Setting(Pack4(want.baudrate), REQUESTED), Setting([want.bytesize], REQUESTED),
           Setting([ParityCode(want.parity)], REQUESTED), Setting([StopCode(want.stopbits)], REQUESTED))
  }

  predicate AllActive(c: Client) {
    c.baudrate.state == ACTIVE && c.datasize.state == ACTIVE && c.parity.state == ACTIVE && c.stopsize.state == ACTIVE
  }

  // ----- both sides together

  /** The port after the four requests, each applied to what the ones before it left. */
  function Applied(port: Port, want: Port, accepts: Port -> bool): (p: Port)
    requires WellSet(port) && WellSet(want)
    ensures WellSet(p)
  {
    var p1 := Assign(port, port.(baudrate := want.baudrate), accepts);
    var p2 := Assign(p1, p1.(bytesize := want.bytesize), accepts);
    var p3 := Assign(p2, p2.(parity := want.parity), accepts);
    Assign(p3, p3.(stopbits := want.stopbits), accepts)
  }

  /** The server answers each request with what its port then holds, which no later request
      changes any more. */
  function Answers(p: Port): seq<Item>
    requires WellSet(p)
  {
    [ComPort(SERVER_SET_BAUDRATE, Pack4(p.baudrate)), ComPort(SERVER_SET_DATASIZE, [p.bytesize]),
     ComPort(SERVER_SET_PARITY, [ParityCode(p.parity)]), ComPort(SERVER_SET_STOPSIZE, [StopCode(p.stopbits)])]
  }

  lemma ServeFour(s: Server, a: Event, b: Event, c: Event, d: Event, accepts: Port -> bool)
    requires WellSet(s.port)
    ensures ServeAll(s, [a, b, c, d], accepts)
         == Serve(Serve(Serve(Serve(s, a, accepts), b, accepts), c, accepts), d, accepts)
  {
    assert [a, b, c, d][1..] == [b, c, d] && [b, c, d][1..] == [c, d] && [c, d][1..] == [d] && [d][1..] == [];
    var s1 := Serve(s, a, accepts);
    var s2 := Serve(s1, b, accepts);
    assert ServeAll(s, [a, b, c, d], accepts) == ServeAll(s1, [b, c, d], accepts);
    assert ServeAll(s1, [b, c, d], accepts) == ServeAll(s2, [c, d], accepts);
    assert ServeAll(s2, [c, d], accepts) == ServeAll(Serve(s2, c, accepts), [d], accepts);
  }

  lemma AnswerFour(s: Client, a: Event, b: Event, c: Event, d: Event)
    ensures AnswerAll(s, [a, b, c, d]) == Answer(Answer(Answer(Answer(s, a), b), c), d)
  {
    assert [a, b, c, d][1..] == [b, c, d] && [b, c, d][1..] == [c, d] && [c, d][1..] == [d] && [d][1..] == [];
    var s1 := Answer(s, a);
    var s2 := Answer(s1, b);
    assert AnswerAll(s, [a, b, c, d]) == AnswerAll(s1, [b, c, d]);
    assert AnswerAll(s1, [b, c, d]) == AnswerAll(s2, [c, d]);
    assert AnswerAll(s2, [c, d]) == AnswerAll(Answer(s2, c), [d]);
  }

  function Block(suboption: Suboption, value: seq<Byte>): Event {
    ProcessSubnegotiation([COM_PORT_OPTION, suboption] + value)
  }

  lemma MeaningsOfFour(a: Item, b: Item, c: Item, d: Item)
    requires a.ComPort? && b.ComPort? && c.ComPort? && d.ComPort?
    ensures Meanings([a, b, c, d]) == [Block(a.suboption, a.value), Block(b.suboption, b.value),
                                       Block(c.suboption, c.value), Block(d.suboption, d.value)]
  {
    assert [a, b, c, d][1..] == [b, c, d] && [b, c, d][1..] == [c, d] && [c, d][1..] == [d] && [d][1..] == [];
    assert Meanings([d]) == Meaning(d) + [];
    assert Meanings([c, d]) == Meaning(c) + Meanings([d]);
    assert Meanings([b, c, d]) == Meaning(b) + Meanings([c, d]);
  }

  lemma ServeBaudrate(s: Server, want: Port, accepts: Port -> bool)
    requires WellSet(s.port) && WellSet(want) && !s.dead
    ensures var p := Assign(s.port, s.port.(baudrate := want.baudrate), accepts);
      WellSet(p) && Serve(s, Block(SET_BAUDRATE, Pack4(want.baudrate)), accepts)
        == Server(p, s.written + [ComPort(SERVER_SET_BAUDRATE, Pack4(p.baudrate))], false)
  {
    assert ([COM_PORT_OPTION, SET_BAUDRATE] + Pack4(want.baudrate))[2..6] == Pack4(want.baudrate);
  }

  lemma ServeBytesize(s: Server, want: Port, accepts: Port -> bool)
    requires WellSet(s.port) && WellSet(want) && !s.dead
    ensures var p := Assign(s.port, s.port.(bytesize := want.bytesize), accepts);
      WellSet(p) && Serve(s, Block(SET_DATASIZE, [want.bytesize]), accepts)
        == Server(p, s.written + [ComPort(SERVER_SET_DATASIZE, [p.bytesize])], false)
  {
  }

  lemma ServeParity(s: Server, want: Port, accepts: Port -> bool)
    requires WellSet(s.port) && WellSet(want) && !s.dead
    ensures var p := Assign(s.port, s.port.(parity := want.parity), accepts);
      WellSet(p) && Serve(s, Block(SET_PARITY, [ParityCode(want.parity)]), accepts)
        == Server(p, s.written + [ComPort(SERVER_SET_PARITY, [ParityCode(p.parity)])], false)
  {
  }

  lemma ServeStopbits(s: Server, want: Port, accepts: Port -> bool)
    requires WellSet(s.port) && WellSet(want) && !s.dead
    ensures var p := Assign(s.port, s.port.(stopbits := want.stopbits), accepts);
      WellSet(p) && Serve(s, Block(SET_STOPSIZE, [StopCode(want.stopbits)]), accepts)
        == Server(p, s.written + [ComPort(SERVER_SET_STOPSIZE, [StopCode(p.stopbits)])], false)
  {
  }

  /** The requests reach the server as sent and are applied one after the other. */
  lemma RequestsServed(port: Port, want: Port, accepts: Port -> bool)
    requires WellSet(port) && WellSet(want)
    ensures ServeAll(Server(port, [], false), Meanings(Requests(want)), accepts)
         == Server(Applied(port, want, accepts), Answers(Applied(port, want, accepts)), false)
  {
    RequestBlocks(want);
    BlocksServed(port, want, accepts);
    AnswersStand(port, want, accepts);
  }

  function Blocks(want: Port): seq<Event>
    requires WellSet(want)
  {
    [Block(SET_BAUDRATE, Pack4(want.baudrate)), Block(SET_DATASIZE, [want.bytesize]),
     Block(SET_PARITY, [ParityCode(want.parity)]), Block(SET_STOPSIZE, [StopCode(want.stopbits)])]
  }

  lemma RequestBlocks(want: Port)
    requires WellSet(want)
    ensures Meanings(Requests(want)) == Blocks(want)
  {
    var r := Requests(want);
    MeaningsOfFour(r[0], r[1], r[2], r[3]);
    assert r == [r[0], r[1], r[2], r[3]];
  }

  lemma BlocksServed(port: Port, want: Port, accepts: Port -> bool)
    requires WellSet(port) && WellSet(want)
    ensures ServeAll(Server(port, [], false), Blocks(want), accepts)
         == Server(Applied(port, want, accepts), Answers(Applied(port, want, accepts)), false)
  {
    var s, e := Server(port, [], false), Blocks(want);
    ServeFour(s, e[0], e[1], e[2], e[3], accepts);
    FirstTwo(port, want, accepts);
    var s2 := Serve(Serve(s, e[0], accepts), e[1], accepts);
    LastTwo(s2, want, accepts);
    AnswersStand(port, want, accepts);
  }

  lemma FirstTwo(port: Port, want: Port, accepts: Port -> bool)
    requires WellSet(port) && WellSet(want)
    ensures var s := Server(port, [], false);
      var p1 := Assign(port, port.(baudrate := want.baudrate), accepts);
      var p2 := Assign(p1, p1.(bytesize := want.bytesize), accepts);
      && WellSet(p1) && WellSet(p2)
      && Serve(Serve(s, Block(SET_BAUDRATE, Pack4(want.baudrate)), accepts),
               Block(SET_DATASIZE, [want.bytesize]), accepts)
         == Server(p2, [ComPort(SERVER_SET_BAUDRATE, Pack4(p1.baudrate)),
                        ComPort(SERVER_SET_DATASIZE, [p2.bytesize])], false)
  {
    var s := Server(port, [], false);
    ServeBaudrate(s, want, accepts);
    ServeBytesize(Serve(s, Block(SET_BAUDRATE, Pack4(want.baudrate)), accepts), want, accepts);
  }

  lemma LastTwo(s: Server, want: Port, accepts: Port -> bool)
    requires WellSet(s.port) && WellSet(want) && !s.dead
    ensures var p3 := Assign(s.port, s.port.(parity := want.parity), accepts);
      var p4 := Assign(p3, p3.(stopbits := want.stopbits), accepts);
      && Serve(Serve(s, Block(SET_PARITY, [ParityCode(want.parity)]), accepts),
               Block(SET_STOPSIZE, [StopCode(want.stopbits)]), accepts)
         == Server(p4, s.written + [ComPort(SERVER_SET_PARITY, [ParityCode(p3.parity)]),
                                    ComPort(SERVER_SET_STOPSIZE, [StopCode(p4.stopbits)])], false)
  {
    ServeParity(s, want, accepts);
    ServeStopbits(Serve(s, Block(SET_PARITY, [ParityCode(want.parity)]), accepts), want, accepts);
  }

  lemma AnswersStand(port: Port, want: Port, accepts: Port -> bool)
    requires WellSet(port) && WellSet(want)
    ensures var p1 := Assign(port, port.(baudrate := want.baudrate), accepts);
      var p2 := Assign(p1, p1.(bytesize := want.bytesize), accepts);
      var p3 := Assign(p2, p2.(parity := want.parity), accepts);
      var p4 := Assign(p3, p3.(stopbits := want.stopbits), accepts);
      && WellSet(p1) && WellSet(p2) && WellSet(p3) && WellSet(p4) && p4 == Applied(port, want, accepts)
      && p1.baudrate == p4.baudrate && p2.bytesize == p4.bytesize && p3.parity == p4.parity
  {
  }

  /** The client takes an answer for its own value exactly if it is its own value. */
  lemma AnswersChecked(want: Port, got: Port)
    requires WellSet(want) && WellSet(got)
    ensures AllActive(AnswerAll(Requested(want), Meanings(Answers(got)))) <==> want == got
  {
    var a := Answers(got);
    MeaningsOfFour(a[0], a[1], a[2], a[3]);
    var e := Meanings(a);
    assert e == [e[0], e[1], e[2], e[3]];
    AnswerFour(Requested(want), e[0], e[1], e[2], e[3]);
    assert e[0].block[2..] == Pack4(got.baudrate) && e[1].block[2..] == [got.bytesize];
    assert e[2].block[2..] == [ParityCode(got.parity)] && e[3].block[2..] == [StopCode(got.stopbits)];
    Pack4Injective(want.baudrate, got.baudrate);
    assert ParityCode(want.parity) == ParityCode(got.parity) <==> want.parity == got.parity by {
      assert ParityOf(ParityCode(want.parity)) == want.parity && ParityOf(ParityCode(got.parity)) == got.parity;
    }
    assert StopCode(want.stopbits) == StopCode(got.stopbits) <==> want.stopbits == got.stopbits by {
      assert StopOf(StopCode(want.stopbits)) == want.stopbits && StopOf(StopCode(got.stopbits)) == got.stopbits;
    }
    assert Pack4(got.baudrate)[..4] == Pack4(got.baudrate);
    OneByte(want.bytesize, got.bytesize);
    OneByte(ParityCode(want.parity), ParityCode(got.parity));
    OneByte(StopCode(want.stopbits), StopCode(got.stopbits));
    CheckedByte(want.bytesize, got.bytesize);
    CheckedByte(ParityCode(want.parity), ParityCode(got.parity));
    CheckedByte(StopCode(want.stopbits), StopCode(got.stopbits));
  }

  lemma CheckedByte(want: Byte, got: Byte)
    ensures Checked(Setting([want], REQUESTED), [got]).state == ACTIVE <==> want == got
  {
    assert [got][..1] == [got];
    OneByte(want, got);
  }

  // ----- the codes of RFC 2217

  const PARITIES: seq<Parity> := [PARITY_NONE, PARITY_ODD, PARITY_EVEN, PARITY_MARK, PARITY_SPACE]

  const STOPBITS: seq<Stopbits> := [ONE, TWO, ONE_POINT_FIVE]

  lemma CodesAre()
    ensures ParityCode(PARITY_NONE) == 1 && ParityCode(PARITY_ODD) == 2 && ParityCode(PARITY_EVEN) == 3
    ensures ParityCode(PARITY_MARK) == 4 && ParityCode(PARITY_SPACE) == 5
    ensures StopCode(ONE) == 1 && StopCode(TWO) == 2 && StopCode(ONE_POINT_FIVE) == 3
    ensures forall v: Byte :: 1 <= v <= 5 ==> ParityOf(v) == PARITIES[v - 1] && ParityCode(PARITIES[v - 1]) == v
    ensures forall v: Byte :: 1 <= v <= 3 ==> StopOf(v) == STOPBITS[v - 1] && StopCode(STOPBITS[v - 1]) == v
  {
  }

  /** A request about the baud rate, suboption 1, has it in four octets; 0 asks for the setting. The
      answer, suboption 101, has the baud rate of the port. */
  lemma BaudrateRequest(port: Port, four: seq<Byte>, accepts: Port -> bool)
    requires WellSet(port) && |four| == 4
    ensures var n := four[0] as int * 0x100_0000 + four[1] as int * 0x1_0000 + four[2] as int * 0x100 + four[3];
      var p := if n != 0 && accepts(port.(baudrate := n)) then port.(baudrate := n) else port;
      0 < p.baudrate < 0x1_0000_0000
      && ProcessSetting(port, [44, 1] + four, accepts) == Answered(p, ComPort(101, Pack4(p.baudrate)))
  {
    assert ([44, 1] + four)[2..6] == four;
    Unpack4Range(four);
  }

  /** Data bits, suboption 2: 5 to 8 are applied if the port accepts them, anything else asks. */
  lemma DatasizeRequest(port: Port, v: Byte, accepts: Port -> bool)
    requires WellSet(port)
    ensures var p := if 5 <= v <= 8 && accepts(port.(bytesize := v)) then port.(bytesize := v) else port;
      5 <= p.bytesize <= 8 && ProcessSetting(port, [44, 2, v], accepts) == Answered(p, ComPort(102, [p.bytesize]))
  {
  }

  /** Parity, suboption 3, and stop bits, suboption 4: 0 asks, and a code beyond the last raises. */
  lemma ParityRequest(port: Port, v: Byte, accepts: Port -> bool)
    requires WellSet(port)
    ensures v > 5 ==> ProcessSetting(port, [44, 3, v], accepts) == Raised
    ensures v <= 5 ==>
      var p := if v != 0 && accepts(port.(parity := PARITIES[v - 1])) then port.(parity := PARITIES[v - 1]) else port;
      ProcessSetting(port, [44, 3, v], accepts) == Answered(p, ComPort(103, [ParityCode(p.parity)]))
  {
    CodesAre();
  }

  lemma StopbitsRequest(port: Port, v: Byte, accepts: Port -> bool)
    requires WellSet(port)
    ensures v > 3 ==> ProcessSetting(port, [44, 4, v], accepts) == Raised
    ensures v <= 3 ==>
      var p := if v != 0 && accepts(port.(stopbits := STOPBITS[v - 1]))
               then port.(stopbits := STOPBITS[v - 1]) else port;
      ProcessSetting(port, [44, 4, v], accepts) == Answered(p, ComPort(104, [StopCode(p.stopbits)]))
  {
    CodesAre();
  }

  /** Reading the settings without changing them: requests with the value 0 are answered with what the
      port holds, which stays. A client whose wishes these are finds all of them active. */
  lemma ZeroAsks(port: Port, accepts: Port -> bool)
    requires WellSet(port)
    ensures var s := Server(port, [], false);
      ServeAll(s, [Block(1, [0, 0, 0, 0]), Block(2, [0]), Block(3, [0]), Block(4, [0])], accepts)
        == Server(port, Answers(port), false)
    ensures AllActive(AnswerAll(Requested(port), Meanings(Answers(port))))
  {
    var s := Server(port, [], false);
    ServeFour(s, Block(1, [0, 0, 0, 0]), Block(2, [0]), Block(3, [0]), Block(4, [0]), accepts);
    BaudrateRequest(port, [0, 0, 0, 0], accepts);
    DatasizeRequest(port, 0, accepts);
    ParityRequest(port, 0, accepts);
    StopbitsRequest(port, 0, accepts);
    AnswersChecked(port, port);
  }

  /** A request without its value raises; a block about something else is left alone here. */
  lemma ShortRequest(port: Port, block: seq<Byte>, accepts: Port -> bool)
    requires WellSet(port) && |block| >= 2 && block[0] == 44
    ensures block[1] == 1 && |block| < 6 ==> ProcessSetting(port, block, accepts) == Raised
    ensures 2 <= block[1] <= 4 && |block| < 3 ==> ProcessSetting(port, block, accepts) == Raised
    ensures block[1] == 0 || block[1] > 4 ==> ProcessSetting(port, block, accepts) == Ignored
  {
  }

  // ----- among data and option commands

  predicate IsRequest(item: Item) {
    item.ComPort? && (item.suboption == SET_BAUDRATE || item.suboption == SET_DATASIZE
                      || item.suboption == SET_PARITY || item.suboption == SET_STOPSIZE)
  }

  predicate IsAnswer(item: Item) {
    item.ComPort? && (item.suboption == SERVER_SET_BAUDRATE || item.suboption == SERVER_SET_DATASIZE
                      || item.suboption == SERVER_SET_PARITY || item.suboption == SERVER_SET_STOPSIZE)
  }

  /** The requests about port settings in a stream, and the answers to such requests. */
  function RequestsIn(items: seq<Item>): seq<Item> {
    if items == [] then [] else (if IsRequest(items[0]) then [items[0]] else []) + RequestsIn(items[1..])
  }

  function AnswersIn(items: seq<Item>): seq<Item> {
    if items == [] then [] else (if IsAnswer(items[0]) then [items[0]] else []) + AnswersIn(items[1..])
  }

  lemma {:induction false} ServeConcat(s: Server, a: seq<Event>, b: seq<Event>, accepts: Port -> bool)
    requires WellSet(s.port)
    ensures ServeAll(s, a + b, accepts) == ServeAll(ServeAll(s, a, accepts), b, accepts)
    decreases a
  {
    if a == [] {
      assert a + b == b;
    } else {
      assert (a + b)[0] == a[0] && (a + b)[1..] == a[1..] + b;
      ServeConcat(Serve(s, a[0], accepts), a[1..], b, accepts);
    }
  }

  lemma {:induction false} AnswerConcat(c: Client, a: seq<Event>, b: seq<Event>)
    ensures AnswerAll(c, a + b) == AnswerAll(AnswerAll(c, a), b)
    decreases a
  {
    if a == [] {
      assert a + b == b;
    } else {
      assert (a + b)[0] == a[0] && (a + b)[1..] == a[1..] + b;
      AnswerConcat(Answer(c, a[0]), a[1..], b);
    }
  }

  lemma {:induction false} DataIsIgnored(s: Server, c: Client, events: seq<Event>, accepts: Port -> bool)
    requires WellSet(s.port) && forall i :: 0 <= i < |events| ==> !events[i].ProcessSubnegotiation?
    ensures ServeAll(s, events, accepts) == s && AnswerAll(c, events) == c
    decreases events
  {
    if events != [] { DataIsIgnored(s, c, events[1..], accepts); }
  }

  lemma {:induction false} YieldsAreData(data: seq<Byte>)
    ensures forall i :: 0 <= i < |data| ==> Yields(data)[i].Yield?
  {
    if data != [] { YieldsAreData(data[1..]); }
  }

  lemma OtherBlock(s: Server, c: Client, item: Item, accepts: Port -> bool)
    requires WellSet(s.port) && item.ComPort?
    ensures !IsRequest(item) ==> Serve(s, Block(item.suboption, item.value), accepts) == s
    ensures !IsAnswer(item) ==> Answer(c, Block(item.suboption, item.value)) == c
  {
  }

  /** Neither side minds what is not for it: data, option commands, any other subnegotiation. */
  lemma OtherItem(s: Server, c: Client, item: Item, accepts: Port -> bool)
    requires WellSet(s.port)
    ensures !IsRequest(item) ==> ServeAll(s, Meaning(item), accepts) == s
    ensures !IsAnswer(item) ==> AnswerAll(c, Meaning(item)) == c
  {
    match item
    case ComPort(suboption, value) =>
      var e := Block(suboption, value);
      assert Meaning(item) == [e] && [e][1..] == [];
      assert ServeAll(s, [e], accepts) == ServeAll(Serve(s, e, accepts), [], accepts);
      assert AnswerAll(c, [e]) == AnswerAll(Answer(c, e), []);
      OtherBlock(s, c, item, accepts);
    case Payload(data) =>
      YieldsAreData(data);
      DataIsIgnored(s, c, Meaning(item), accepts);
    case Negotiate(_, _) => DataIsIgnored(s, c, Meaning(item), accepts);
  }

  lemma OneItem(item: Item, items: seq<Item>)
    ensures Meanings([item] + items) == Meaning(item) + Meanings(items)
  {
    assert ([item] + items)[1..] == items;
  }

  /** To the server's port nothing matters but the requests about its settings. */
  lemma {:induction false} OnlyRequests(s: Server, items: seq<Item>, accepts: Port -> bool)
    requires WellSet(s.port)
    ensures ServeAll(s, Meanings(items), accepts) == ServeAll(s, Meanings(RequestsIn(items)), accepts)
    decreases items
  {
    if items != [] {
      var m, rest := Meaning(items[0]), items[1..];
      ServeConcat(s, m, Meanings(rest), accepts);
      OnlyRequests(ServeAll(s, m, accepts), rest, accepts);
      if IsRequest(items[0]) {
        OneItem(items[0], RequestsIn(rest));
        ServeConcat(s, m, Meanings(RequestsIn(rest)), accepts);
      } else {
        OtherItem(s, NO_CLIENT, items[0], accepts);
        assert [] + RequestsIn(rest) == RequestsIn(rest);
      }
    }
  }

  /** To the client's settings nothing matters but the answers about them. */
  lemma {:induction false} OnlyAnswers(c: Client, items: seq<Item>)
    ensures AnswerAll(c, Meanings(items)) == AnswerAll(c, Meanings(AnswersIn(items)))
    decreases items
  {
    if items != [] {
      var m, rest := Meaning(items[0]), items[1..];
      AnswerConcat(c, m, Meanings(rest));
      OnlyAnswers(AnswerAll(c, m), rest);
      if IsAnswer(items[0]) {
        OneItem(items[0], AnswersIn(rest));
        AnswerConcat(c, m, Meanings(AnswersIn(rest)));
      } else {
        OtherItem(Server(Port(9600, 8, PARITY_NONE, ONE), [], false), c, items[0], p => true);
        assert [] + AnswersIn(rest) == AnswersIn(rest);
      }
    }
  }

  const NO_SETTING := Setting([], INACTIVE)
  const NO_CLIENT := Client(NO_SETTING, NO_SETTING, NO_SETTING, NO_SETTING)

  lemma StreamServed(port: Port, accepts: Port -> bool, r: Receiver, sent: seq<Item>, there: seq<seq<Byte>>)
    requires WellSet(port) && Idle(r) && Sendable(sent) && Concat(there) == EncodeAll(sent)
    ensures ServeAll(Server(port, [], false), EventsChunks(r, there), accepts)
         == ServeAll(Server(port, [], false), Meanings(RequestsIn(sent)), accepts)
  {
    assert EncodeAll(sent) == Concat(there) + [];
    Multiplexing(r, sent, there, []);
    OnlyRequests(Server(port, [], false), sent, accepts);
  }

  lemma StreamAnswered(c: Client, q: Receiver, returned: seq<Item>, back: seq<seq<Byte>>)
    requires Idle(q) && Sendable(returned) && Concat(back) == EncodeAll(returned)
    ensures AnswerAll(c, EventsChunks(q, back)) == AnswerAll(c, Meanings(AnswersIn(returned)))
  {
    assert EncodeAll(returned) == Concat(back) + [];
    Multiplexing(q, returned, back, []);
    OnlyAnswers(c, returned);
  }

  /** End to end, byte by byte. The four requests, in between any data, option commands and other
      subnegotiations, go through IAC doubling and any cutting into chunks, the server's filter and
      handler; its answers, in between data, option commands and subnegotiations such as notices of
      the modem lines, go through the same on the way back. The client then finds all four settings
      active exactly if the server's port holds exactly the values that it asked for. */
  lemma SettingsAgree(port: Port, want: Port, accepts: Port -> bool, r: Receiver, q: Receiver,
                      sent: seq<Item>, there: seq<seq<Byte>>, returned: seq<Item>, back: seq<seq<Byte>>)
    requires WellSet(port) && WellSet(want) && Idle(r) && Idle(q) && Sendable(sent) && Sendable(returned)
    requires RequestsIn(sent) == Requests(want) && Concat(there) == EncodeAll(sent)
    requires AnswersIn(returned) == ServeAll(Server(port, [], false), EventsChunks(r, there), accepts).written
    requires Concat(back) == EncodeAll(returned)
    ensures var server := ServeAll(Server(port, [], false), EventsChunks(r, there), accepts);
      && !server.dead && server.port == Applied(port, want, accepts)
      && (AllActive(AnswerAll(Requested(want), EventsChunks(q, back))) <==> server.port == want)
  {
    StreamServed(port, accepts, r, sent, there);
    RequestsServed(port, want, accepts);
    StreamAnswered(Requested(want), q, returned, back);
    AnswersChecked(want, Applied(port, want, accepts));
  }

  /** The port ends up with the requested values if and only if each request in turn is accepted, or
      asks for what is already set; by the theorem above, exactly then the client sees all four
      settings active. */
  lemma AcceptedIsApplied(port: Port, want: Port, accepts: Port -> bool)
    requires WellSet(port) && WellSet(want)
    ensures var p1 := port.(baudrate := want.baudrate);
      var p2 := p1.(bytesize := want.bytesize);
      var p3 := p2.(parity := want.parity);
      Applied(port, want, accepts) == want <==>
        (accepts(p1) || p1 == port) && (accepts(p2) || p2 == p1)
        && (accepts(p3) || p3 == p2) && (accepts(want) || want == p3)
  {
  }

  // ----- the objects

  /** What became of a request, given the answers that came since. */
  function Judged(value: seq<Byte>, answers: seq<seq<Byte>>): Status {
    if answers == [] then REQUESTED else if value <= answers[|answers| - 1] then ACTIVE else REALLY_INACTIVE
  }

  /** `TelnetSubnegotiation`. */
  class TelnetSubnegotiation {
    const option: Suboption
    var value: Maybe<seq<Byte>>
    var state: Status

    /** The answers since the last request. */
    ghost var answers: seq<seq<Byte>>

    ghost predicate Valid() reads this {
      if value.None? then state == INACTIVE && answers == [] else state == Judged(value.value, answers)
    }

    constructor (option: Suboption)
      ensures Valid() && this.option == option && value == None
    {
      this.option := option;
      value, state, answers := None, INACTIVE, [];
    }

    /** The request goes out at once, and earlier answers no longer matter. */
    method Set(value: seq<Byte>) returns (request: Item)
      modifies this
      ensures Valid() && this.value == Some(value) && answers == [] && request == ComPort(option, value)
    {
      this.value := Some(value);
      state := REQUESTED;
      answers := [];
      return ComPort(option, value);
    }

    /** Ready when the last answer to the last request begins with the value that was asked for;
        Rejected, which is a ValueError, when it does not. */
    method IsReady() returns (ready: Ready)
      requires Valid()
      ensures ready == No <==> answers == []
      ensures ready == Yes <==> value.Some? && answers != [] && value.value <= answers[|answers| - 1]
    {
      if state == REALLY_INACTIVE {
        return Rejected;
      }
      return if state == ACTIVE then Yes else No;
    }

    /** False is the TypeError for an answer that comes before any request. */
    method CheckAnswer(suboption: seq<Byte>) returns (ok: bool)
      requires Valid()
      modifies this`state, this`answers
      ensures Valid() && (ok <==> value.Some?)
      ensures answers == if ok then old(answers) + [suboption] else old(answers)
      ensures ok ==> Setting(value.value, state) == Checked(Setting(value.value, old(state)), suboption)
    {
      if value.None? { return false; }
      var n := if |value.value| <= |suboption| then |value.value| else |suboption|;
      if value.value == suboption[..n] {
        state := ACTIVE;
      } else {
        state := REALLY_INACTIVE;
      }
      answers := answers + [suboption];
      return true;
    }
  }

  datatype Ready = Yes | No | Rejected

  /** `PortManager`, the server side, as far as the settings of its serial port go. */
  class PortManager {
    var serial: Port
    var written: seq<Item>

    constructor (serial: Port)
      ensures this.serial == serial && written == []
    {
      this.serial := serial;
      written := [];
    }

    method Rfc2217SendSubnegotiation(option: Suboption, value: seq<Byte>)
      modifies `written
      ensures written == old(written) + [ComPort(option, value)]
    {
      written := written + [ComPort(option, value)];
    }

    /** An assignment to a property of the serial port, with the handler for its ValueError: the port
        has the new settings or the old ones, and the new ones exactly if it takes them. */
    method AssignOrRestore(p: Port, accepts: Port -> bool)
      modifies `serial
      ensures serial == p || serial == old(serial)
      ensures serial == p <==> p == old(serial) || (0 < p.baudrate && 5 <= p.bytesize <= 8 && accepts(p))
    {
      var backup := serial;
      serial := p;
      if serial.baudrate <= 0 || serial.bytesize < 5 || serial.bytesize > 8 || !accepts(serial) {
        serial := backup;
      }
    }

    /** False when an exception leaves the handler. */
    method TelnetProcessSubnegotiation(suboption: seq<Byte>, accepts: Port -> bool) returns (ok: bool)
      requires WellSet(serial)
      modifies this
      ensures Server(serial, written, !ok)
           == Serve(Server(old(serial), old(written), false), ProcessSubnegotiation(suboption), accepts)
    {
      if |suboption| < 2 || suboption[0] != COM_PORT_OPTION {
        return true;
      }
      if suboption[1] == SET_BAUDRATE {
        if |suboption| < 6 { return false; }
        var baudrate := Unpack4(suboption[2..6]);
        if baudrate != 0 {
          AssignOrRestore(serial.(baudrate := baudrate), accepts);
        }
        Rfc2217SendSubnegotiation(SERVER_SET_BAUDRATE, Pack4(serial.baudrate));
      } else if suboption[1] == SET_DATASIZE {
        if |suboption| < 3 { return false; }
        if suboption[2] != 0 {
          AssignOrRestore(serial.(bytesize := suboption[2] as int), accepts);
        }
        Rfc2217SendSubnegotiation(SERVER_SET_DATASIZE, [serial.bytesize]);
      } else if suboption[1] == SET_PARITY {
        if |suboption| < 3 || suboption[2] > 5 { return false; }
        if suboption[2] != 0 {
          AssignOrRestore(serial.(parity := ParityOf(suboption[2])), accepts);
        }
        Rfc2217SendSubnegotiation(SERVER_SET_PARITY, [ParityCode(serial.parity)]);
      } else if suboption[1] == SET_STOPSIZE {
        if |suboption| < 3 || suboption[2] > 3 { return false; }
        if suboption[2] != 0 {
          AssignOrRestore(serial.(stopbits := StopOf(suboption[2])), accepts);
        }
        Rfc2217SendSubnegotiation(SERVER_SET_STOPSIZE, [StopCode(serial.stopbits)]);
      }
      return true;
    }
  }
}
