/** Modem lines and flow control of the RFC 2217 server in rfc2217.py: what the client knows of the
    lines, and what it is told of the flow control that it has set. */
module TelnetModem {
  import Bits

  // ----- bytes

  /** Four bits, one for each line. */
  datatype Lines = Lines(cts: bool, dsr: bool, ri: bool, cd: bool)

  const NONE := Lines(false, false, false, false)
  const ALL := Lines(true, true, true, true)

  function And(a: Lines, b: Lines): Lines { Lines(a.cts && b.cts, a.dsr && b.dsr, a.ri && b.ri, a.cd && b.cd) }

  function Xor(a: Lines, b: Lines): Lines { Lines(a.cts != b.cts, a.dsr != b.dsr, a.ri != b.ri, a.cd != b.cd) }

  /** The eight bits of a modem state or of a mask: CTS, DSR, RI and CD are 16, 32, 64 and 128, their
      changes 1, 2, 4 and 8. */
  datatype ModemByte = ModemByte(lines: Lines, changes: Lines)

  const ZERO := ModemByte(NONE, NONE)

  function Masked(m: ModemByte, mask: ModemByte): ModemByte {
    ModemByte(And(m.lines, mask.lines), And(m.changes, mask.changes))
  }

  function One(b: bool): nat { if b then 1 else 0 }

  /** The byte itself, by the weights of RFC 2217. */
  function ByteOf(m: ModemByte): (b: nat)
    ensures b < 256
  {
    128 * One(m.lines.cd) + 64 * One(m.lines.ri) + 32 * One(m.lines.dsr) + 16 * One(m.lines.cts)
    + 8 * One(m.changes.cd) + 4 * One(m.changes.ri) + 2 * One(m.changes.dsr) + One(m.changes.cts)
  }

  type BinaryDigit = d: int | 0 <= d < 2

  /** A number by its binary digits, the highest first. */
  function Number(bits: seq<BinaryDigit>): nat {
    if bits == [] then 0 else 2 * Number(bits[..|bits| - 1]) + bits[|bits| - 1]
  }

  function Both(a: seq<BinaryDigit>, b: seq<BinaryDigit>): (r: seq<BinaryDigit>)
    requires |a| == |b|
    ensures |r| == |a| && forall i :: 0 <= i < |r| ==> r[i] == if a[i] == 1 && b[i] == 1 then 1 else 0
  {
    seq(|a|, i requires 0 <= i < |a| => if a[i] == 1 && b[i] == 1 then 1 else 0)
  }

  lemma AndLowest(x: nat, p: BinaryDigit, y: nat, q: BinaryDigit)
    ensures Bits.And(2 * x + p, 2 * y + q) == 2 * Bits.And(x, y) + (if p == 1 && q == 1 then 1 else 0)
  {
  }

  lemma {:induction false} AndNumbers(a: seq<BinaryDigit>, b: seq<BinaryDigit>)
    requires |a| == |b|
    ensures Bits.And(Number(a), Number(b)) == Number(Both(a, b))
  {
    if a != [] {
      var n := |a| - 1;
      AndNumbers(a[..n], b[..n]);
      assert Both(a, b)[..n] == Both(a[..n], b[..n]);
      AndLowest(Number(a[..n]), a[n], Number(b[..n]), b[n]);
    }
  }

  function BitsOf(m: ModemByte): (bits: seq<BinaryDigit>)
    ensures |bits| == 8
    ensures bits[0] == One(m.lines.cd) && bits[1] == One(m.lines.ri)
    ensures bits[2] == One(m.lines.dsr) && bits[3] == One(m.lines.cts)
    ensures bits[4] == One(m.changes.cd) && bits[5] == One(m.changes.ri)
    ensures bits[6] == One(m.changes.dsr) && bits[7] == One(m.changes.cts)
  {
    [One(m.lines.cd), One(m.lines.ri), One(m.lines.dsr), One(m.lines.cts),
     One(m.changes.cd), One(m.changes.ri), One(m.changes.dsr), One(m.changes.cts)]
  }

  lemma NumberNext(bits: seq<BinaryDigit>, k: nat)
    requires k < |bits|
    ensures Number(bits[..k + 1]) == 2 * Number(bits[..k]) + bits[k]
  {
    assert bits[..k + 1][..k] == bits[..k];
  }

  lemma FourPlaces(b: seq<BinaryDigit>, k: nat)
    requires k + 4 <= |b|
    ensures Number(b[..k + 4]) == 16 * Number(b[..k]) + 8 * (b[k] as int) + 4 * (b[k + 1] as int)
                                  + 2 * (b[k + 2] as int) + b[k + 3]
  {
    NumberNext(b, k);
    NumberNext(b, k + 1);
    NumberNext(b, k + 2);
    NumberNext(b, k + 3);
  }

  lemma EightPlaces(b: seq<BinaryDigit>)
    requires |b| == 8
    ensures Number(b) == 128 * (b[0] as int) + 64 * (b[1] as int) + 32 * (b[2] as int) + 16 * (b[3] as int)
                         + 8 * (b[4] as int) + 4 * (b[5] as int) + 2 * (b[6] as int) + b[7]
  {
    FourPlaces(b, 0);
    FourPlaces(b, 4);
    assert b[..8] == b;
    var high := Number(b[..4]);
    assert high == 8 * (b[0] as int) + 4 * (b[1] as int) + 2 * (b[2] as int) + b[3];
    assert Number(b) == 16 * high + 8 * (b[4] as int) + 4 * (b[5] as int) + 2 * (b[6] as int) + b[7];
  }

  /** `modemstate & self.modemstate_mask` on the bytes is the mask on the bits. */
  lemma MaskedBytes(m: ModemByte, mask: ModemByte)
    ensures Bits.And(ByteOf(m), ByteOf(mask)) == ByteOf(Masked(m, mask))
  {
    EightPlaces(BitsOf(m));
    EightPlaces(BitsOf(mask));
    EightPlaces(BitsOf(Masked(m, mask)));
    AndNumbers(BitsOf(m), BitsOf(mask));
    MaskedBits(m, mask);
  }

  predicate Tells(d: BinaryDigit, b: bool) { (d == 1) == b }

  /** The bits of a line and of its change stand where they should. */
  predicate TellsAll(bits: seq<BinaryDigit>, lines: Lines, k: nat)
    requires k + 4 <= |bits|
  {
    Tells(bits[k], lines.cd) && Tells(bits[k + 1], lines.ri)
    && Tells(bits[k + 2], lines.dsr) && Tells(bits[k + 3], lines.cts)
  }

  lemma BitsTell(m: ModemByte)
    ensures TellsAll(BitsOf(m), m.lines, 0) && TellsAll(BitsOf(m), m.changes, 4)
  {
  }

  lemma BothTell(a: seq<BinaryDigit>, b: seq<BinaryDigit>, l: Lines, k: Lines, i: nat)
    requires |a| == |b| && i + 4 <= |a| && TellsAll(a, l, i) && TellsAll(b, k, i)
    ensures TellsAll(Both(a, b), And(l, k), i)
  {
  }

  lemma SameTold(a: seq<BinaryDigit>, b: seq<BinaryDigit>, lines: Lines, changes: Lines)
    requires |a| == |b| == 8
    requires TellsAll(a, lines, 0) && TellsAll(a, changes, 4) && TellsAll(b, lines, 0) && TellsAll(b, changes, 4)
    ensures a == b
  {
    assert a[0] == b[0] && a[1] == b[1] && a[2] == b[2] && a[3] == b[3];
    assert a[4] == b[4] && a[5] == b[5] && a[6] == b[6] && a[7] == b[7];
  }

  lemma MaskedBits(m: ModemByte, mask: ModemByte)
    ensures Both(BitsOf(m), BitsOf(mask)) == BitsOf(Masked(m, mask))
  {
    BitsTell(m);
    BitsTell(mask);
    BitsTell(Masked(m, mask));
    BothTell(BitsOf(m), BitsOf(mask), m.lines, mask.lines, 0);
    BothTell(BitsOf(m), BitsOf(mask), m.changes, mask.changes, 4);
    SameTold(Both(BitsOf(m), BitsOf(mask)), BitsOf(Masked(m, mask)), And(m.lines, mask.lines),
             And(m.changes, mask.changes));
  }

  // ----- the state

  /** A modem state byte, or None. */
  datatype Seen = Never | Seen(state: ModemByte)

  /** The modem fields of a `PortManager`, and the last state that the client was notified of. */
  datatype Modem = Modem(mask: ModemByte, last: Seen, isClient: bool, cached: Seen)

  const START := Modem(ModemByte(ALL, ALL), Never, false, Never)

  /** What is remembered has no change bits. */
  predicate Plain(s: Modem) { s.last.Seen? ==> s.last.state.changes == NONE }

  /** The lines that differ from the last check; at the first check, those that are on. */
  function Changed(last: Seen, lines: Lines): Lines {
    Xor(lines, if last.Seen? then last.state.lines else NONE)
  }

  /** A check of the lines: what is remembered, and what the client is told. */
  function Check(s: Modem, lines: Lines, force: bool): Modem {
    var m := ModemByte(lines, Changed(s.last, lines));
    if Seen(m) != s.last || force then
      s.(last := Seen(ModemByte(lines, NONE)),
         cached := if (s.isClient && Masked(m, s.mask) != ZERO) || force then Seen(Masked(m, s.mask)) else s.cached)
    else s
  }

  /** The lines are looked at every now and then, as the client turns out to know RFC 2217, and as it
      asks for them; and the client sets the mask. */
  datatype Input = Poll(lines: Lines) | ClientOk(lines: Lines) | Request(lines: Lines) | SetMask(mask: ModemByte)

  function Step(s: Modem, e: Input): Modem {
    match e
    case Poll(l) => Check(s, l, false)
    case ClientOk(l) => Check(s.(isClient := true), l, true)
    case Request(l) => Check(s, l, true)
    case SetMask(m) => s.(mask := m)
  }

  function Run(s: Modem, es: seq<Input>): Modem
    decreases es
  {
    if es == [] then s else Run(Step(s, es[0]), es[1..])
  }

  // ----- the client is kept informed

  /** The client knows the lines that the mask lets through as they were at the last check. */
  predicate Informed(s: Modem) {
    s.isClient ==>
      s.last.Seen? && s.cached.Seen? && s.cached.state.lines == And(s.last.state.lines, s.mask.lines)
  }

  /** A step keeps the client informed. For a poll: no line that the mask lets through changed, or
      some line that is on, or some change, passes the mask. For a new mask: old and new mask let the
      same lines through of those that are on. */
  predicate Fine(s: Modem, e: Input) {
    s.isClient && s.last.Seen? ==>
    match e
    case Poll(l) =>
      || And(l, s.mask.lines) == And(s.last.state.lines, s.mask.lines)
      || Masked(ModemByte(l, Changed(s.last, l)), s.mask) != ZERO
    case SetMask(m) => And(s.last.state.lines, s.mask.lines) == And(s.last.state.lines, m.lines)
    case _ => true
  }

  lemma StepInforms(s: Modem, e: Input)
    requires Plain(s) && Informed(s)
    ensures Plain(Step(s, e)) && (Informed(Step(s, e)) <==> Fine(s, e))
  {
  }

  ghost predicate AlwaysInformed(s: Modem, es: seq<Input>)
    decreases es
  {
    Informed(s) && (es == [] || AlwaysInformed(Step(s, es[0]), es[1..]))
  }

  ghost predicate AllFine(s: Modem, es: seq<Input>)
    decreases es
  {
    es == [] || (Fine(s, es[0]) && AllFine(Step(s, es[0]), es[1..]))
  }

  lemma {:induction false} InformedIffFine(s: Modem, es: seq<Input>)
    requires Plain(s) && Informed(s)
    ensures AlwaysInformed(s, es) <==> AllFine(s, es)
    decreases es
  {
    if es != [] {
      StepInforms(s, es[0]);
      if Informed(Step(s, es[0])) { InformedIffFine(Step(s, es[0]), es[1..]); }
    }
  }

  /** Over every run of a new server the client is kept informed at every moment, if and only if every
      poll and every change of the mask is fine. */
  lemma KeptInformed(es: seq<Input>)
    ensures AlwaysInformed(START, es) <==> AllFine(START, es)
  {
    InformedIffFine(START, es);
  }

  // ----- which masks are safe

  /** With each line, the mask lets its change through. */
  predicate Paired(mask: ModemByte) { And(mask.lines, mask.changes) == mask.lines }

  predicate MaskStays(es: seq<Input>) { forall e :: e in es ==> !e.SetMask? }

  lemma {:induction false} RunInforms(s: Modem, es: seq<Input>)
    requires Paired(s.mask) && Plain(s) && Informed(s) && MaskStays(es)
    ensures Informed(Run(s, es))
    decreases es
  {
    if es != [] {
      assert es[0] in es;
      StepInforms(s, es[0]);
      RunInforms(Step(s, es[0]), es[1..]);
    }
  }

  /** The masked lines whose changes are masked out. */
  function Uncovered(mask: ModemByte): Lines { Xor(mask.lines, And(mask.lines, mask.changes)) }

  /** A line whose change is masked out can fall unnoticed. */
  lemma UnpairedFails(mask: ModemByte)
    requires !Paired(mask)
    ensures !Informed(Run(START.(mask := mask), [ClientOk(Uncovered(mask)), Poll(NONE)]))
  {
    var a, b := ClientOk(Uncovered(mask)), Poll(NONE);
    var s1 := Step(START.(mask := mask), a);
    assert [a, b][1..] == [b] && [b][1..] == [];
    assert Run(s1, [b]) == Step(s1, b);
  }

  /** A client that sets its mask first, and then leaves it, is kept informed in every run, if and
      only if the mask is paired. The mask of a new server is. */
  lemma InformedIffPaired(mask: ModemByte)
    ensures (forall es: seq<Input> :: MaskStays(es) ==> Informed(Run(START.(mask := mask), es))) <==> Paired(mask)
    ensures Step(START, SetMask(mask)) == START.(mask := mask) && Paired(START.mask)
  {
    if Paired(mask) {
      forall es: seq<Input> | MaskStays(es) ensures Informed(Run(START.(mask := mask), es)) {
        RunInforms(START.(mask := mask), es);
      }
    } else {
      UnpairedFails(mask);
      assert MaskStays([ClientOk(Uncovered(mask)), Poll(NONE)]);
    }
  }

  // ----- flow control

  datatype FlowControl = NO_FLOW_CONTROL | SW_FLOW_CONTROL | HW_FLOW_CONTROL

  datatype Flow = Flow(xonxoff: bool, rtscts: bool)

  /** SET_CONTROL; the answer repeats the request. */
  function SetFlow(f: Flow, c: FlowControl): Flow {
    match c
    case NO_FLOW_CONTROL => Flow(false, false)
    case SW_FLOW_CONTROL => f.(xonxoff := true)
    case HW_FLOW_CONTROL => f.(rtscts := true)
  }

  /** The answer to SET_CONTROL_REQ_FLOW_SETTING. */
  function Reported(f: Flow): FlowControl {
    if f.xonxoff then SW_FLOW_CONTROL else if f.rtscts then HW_FLOW_CONTROL else NO_FLOW_CONTROL
  }

  function SetAll(f: Flow, cs: seq<FlowControl>): Flow {
    if cs == [] then f else SetFlow(SetAll(f, cs[..|cs| - 1]), cs[|cs| - 1])
  }

  predicate SetAt(cs: seq<FlowControl>, i: int) {
    0 <= i < |cs| && cs[i] == SW_FLOW_CONTROL && forall j :: i < j < |cs| ==> cs[j] != NO_FLOW_CONTROL
  }

  /** Software flow control was set, and has not been cleared since. */
  ghost predicate SoftwareSet(cs: seq<FlowControl>) { exists i :: SetAt(cs, i) }

  /** Software flow control is on if and only if it was set and not cleared since, or was on when the
      port was handed over and was not cleared at all. */
  lemma {:induction false} SoftwareStays(f: Flow, cs: seq<FlowControl>)
    ensures SetAll(f, cs).xonxoff <==> SoftwareSet(cs) || (f.xonxoff && NO_FLOW_CONTROL !in cs)
  {
    if cs == [] {
      assert forall i :: !SetAt(cs, i);
    } else {
      var n := |cs| - 1;
      SoftwareStays(f, cs[..n]);
      SoftwareStep(cs[..n], cs[n]);
      assert cs == cs[..n] + [cs[n]];
    }
  }

  lemma SoftwareStep(cs: seq<FlowControl>, c: FlowControl)
    ensures SoftwareSet(cs + [c]) <==> c == SW_FLOW_CONTROL || (c != NO_FLOW_CONTROL && SoftwareSet(cs))
  {
    if c == SW_FLOW_CONTROL { assert SetAt(cs + [c], |cs|); }
    if i :| SetAt(cs, i) && c != NO_FLOW_CONTROL { assert SetAt(cs + [c], i); }
    if i :| SetAt(cs + [c], i) && c != SW_FLOW_CONTROL {
      assert (cs + [c])[|cs|] == c;
      assert forall j :: 0 <= j < |cs| ==> cs[j] == (cs + [c])[j];
      assert SetAt(cs, i);
    }
  }

  /** Whatever port is handed over, the client is told the flow control that it set last, if and only
      if that is not hardware flow control on top of software flow control, which stays on. */
  lemma ReportedIffNotCovered(f: Flow, cs: seq<FlowControl>, c: FlowControl)
    ensures Reported(SetAll(f, cs + [c])) == c
      <==> !(c == HW_FLOW_CONTROL && (SoftwareSet(cs) || (f.xonxoff && NO_FLOW_CONTROL !in cs)))
  {
    assert (cs + [c])[..|cs|] == cs;
    SoftwareStays(f, cs);
  }

  // ----- the server's own methods

  class ModemWatch {
    var modemstateMask: ModemByte
    var lastModemstate: Seen
    var clientIsRfc2217: bool
    /** The client's copy, from the last SERVER_NOTIFY_MODEMSTATE that was sent. */
    var notified: Seen

    ghost function View(): Modem
      reads this
    {
      Modem(modemstateMask, lastModemstate, clientIsRfc2217, notified)
    }

    /** After the check the lines are remembered. The client is told, if it is forced, or if it
        knows RFC 2217, a line is not as remembered, and a line that is on or a change passes the
        mask; then it is told the lines and changes that pass the mask. What keeps it informed is
        what `Fine` says. */
    method CheckModemLines(lines: Lines, force: bool) returns (told: bool)
      requires Plain(View())
      modifies this`lastModemstate, this`notified
      ensures lastModemstate == Seen(ModemByte(lines, NONE))
      ensures var m := Masked(ModemByte(lines, Changed(old(lastModemstate), lines)), modemstateMask);
        && (told <==> force || (clientIsRfc2217 && old(lastModemstate) != lastModemstate && m != ZERO))
        && notified == if told then Seen(m) else old(notified)
      ensures View() == Check(old(View()), lines, force)
      ensures old(Informed(View())) ==> (Informed(View()) <==> force || Fine(old(View()), Poll(lines)))
    {
      told := false;
      if Plain(View()) && Informed(View()) { StepInforms(View(), Poll(lines)); }
      var modemstate := StateByte(lastModemstate, lines);
      if Seen(modemstate) != lastModemstate || force {
        if (clientIsRfc2217 && Masked(modemstate, modemstateMask) != ZERO) || force {
          notified := Seen(Masked(modemstate, modemstateMask));
          told := true;
        }
        lastModemstate := Seen(ModemByte(modemstate.lines, NONE));
      }
    }

    /** The lines, with a change bit for each that is not as remembered. */
    static method StateByte(last: Seen, lines: Lines) returns (m: ModemByte)
      ensures m == ModemByte(lines, Changed(last, lines))
    {
      m := ModemByte(lines, NONE);
      var deltas := Xor(lines, if last.Seen? then last.state.lines else NONE);
      if deltas.cts { m := m.(changes := m.changes.(cts := true)); }
      if deltas.dsr { m := m.(changes := m.changes.(dsr := true)); }
      if deltas.ri { m := m.(changes := m.changes.(ri := true)); }
      if deltas.cd { m := m.(changes := m.changes.(cd := true)); }
    }

    /** The client is informed, whatever it knew before. */
    method ClientOk(lines: Lines)
      requires Plain(View())
      modifies this`lastModemstate, this`notified, this`clientIsRfc2217
      ensures clientIsRfc2217 && Informed(View()) && Plain(View())
      ensures lastModemstate == Seen(ModemByte(lines, NONE))
    {
      clientIsRfc2217 := true;
      var told := CheckModemLines(lines, true);
    }
  }
}
