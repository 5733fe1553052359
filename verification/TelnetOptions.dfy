/** Telnet option negotiation of rfc2217.py: the option automaton, the table of options that a
    side negotiates, and what two such sides do to each other. */
module TelnetOptions {
  import opened Bits
  import opened TelnetWire

  /** DO, DONT, WILL or WONT with its option, as it travels. */
  datatype Message = Message(command: Byte, option: Byte)

  /** The fields of a `TelnetOption`. */
  datatype Half = Half(option: Byte, sendYes: Byte, sendNo: Byte, ackYes: Byte, ackNo: Byte, state: Status,
                       active: bool)

  // ----- one option

  function Process(o: Half, command: Byte): Half {
    if command == o.ackYes then
      (if o.state == REQUESTED || o.state == INACTIVE then o.(state := ACTIVE, active := true) else o)
    else if command == o.ackNo then
      (if o.state == REQUESTED || o.state == ACTIVE then o.(state := INACTIVE, active := false) else o)
    else o
  }

  function Reply(o: Half, command: Byte): seq<Message> {
    if command == o.ackYes && o.state == INACTIVE then [Message(o.sendYes, o.option)]
    else if command == o.ackYes && o.state == REALLY_INACTIVE then [Message(o.sendNo, o.option)]
    else if command != o.ackYes && command == o.ackNo && o.state == ACTIVE then [Message(o.sendNo, o.option)]
    else []
  }

  // ----- the table of one side

  function Negotiated(opts: seq<Half>, m: Message): (r: seq<Half>)
    ensures |r| == |opts|
    ensures forall i :: 0 <= i < |opts| ==>
      r[i] == if opts[i].option == m.option then Process(opts[i], m.command) else opts[i]
  {
    seq(|opts|, i requires 0 <= i < |opts| =>
      if opts[i].option == m.option then Process(opts[i], m.command) else opts[i])
  }

  function Replies(opts: seq<Half>, m: Message): seq<Message> {
    if opts == [] then []
    else
      var last := opts[|opts| - 1];
      Replies(opts[..|opts| - 1], m) + (if last.option == m.option then Reply(last, m.command) else [])
  }

  predicate Known(opts: seq<Half>, option: Byte) {
    exists i :: 0 <= i < |opts| && opts[i].option == option
  }

  /** All that is sent back: the replies of the options concerned, or the refusal of an option
      that the table does not hold. */
  function Answers(opts: seq<Half>, m: Message): seq<Message> {
    if Known(opts, m.option) then Replies(opts, m)
    else if m.command == WILL then [Message(DONT, m.option)]
    else if m.command == DO then [Message(WONT, m.option)]
    else []
  }

  predicate Consistent(o: Half) { o.active <==> o.state == ACTIVE }

  lemma StaysConsistent(opts: seq<Half>, m: Message, i: nat)
    requires i < |opts| && Consistent(opts[i])
    ensures Consistent(Negotiated(opts, m)[i])
  {
  }

  function NegotiatedAll(opts: seq<Half>, ms: seq<Message>): (r: seq<Half>)
    ensures |r| == |opts|
    decreases ms
  {
    if ms == [] then opts else NegotiatedAll(Negotiated(opts, ms[0]), ms[1..])
  }

  /** Under any messages whatever, an option that starts inactive is `active` exactly when its state
      is ACTIVE. */
  lemma {:induction false} ActiveMeansActive(opts: seq<Half>, ms: seq<Message>, i: nat)
    requires i < |opts| && Consistent(opts[i])
    ensures Consistent(NegotiatedAll(opts, ms)[i])
    decreases ms
  {
    if ms != [] {
      StaysConsistent(opts, ms[0], i);
      ActiveMeansActive(Negotiated(opts, ms[0]), ms[1..], i);
    }
  }

  // ----- what the messages have brought an option to

  /** The option understands the message. */
  predicate Concerns(o: Half, m: Message) {
    m.option == o.option && (m.command == o.ackYes || m.command == o.ackNo)
  }

  /** Message k is the last one that the option understands. */
  ghost predicate LastWord(o: Half, ms: seq<Message>, k: int) {
    0 <= k < |ms| && Concerns(o, ms[k]) && forall j :: k < j < |ms| ==> !Concerns(o, ms[j])
  }

  ghost predicate Unheard(o: Half, ms: seq<Message>) { forall j :: 0 <= j < |ms| ==> !Concerns(o, ms[j]) }

  /** What an option is after the messages, told from the messages alone: as at the start if it
      understands none of them, or if it refuses; otherwise active if the last one that it
      understands is its ackYes, and inactive if that is its ackNo. */
  lemma {:induction false} LastWordDecides(opts: seq<Half>, ms: seq<Message>, i: nat)
    requires i < |opts| && Consistent(opts[i])
    ensures var o, r := opts[i], NegotiatedAll(opts, ms)[i];
      && (o.state == REALLY_INACTIVE || Unheard(o, ms) ==> r == o)
      && (o.state != REALLY_INACTIVE ==> forall k :: LastWord(o, ms, k) ==>
           if ms[k].command == o.ackYes then r == o.(state := ACTIVE, active := true)
           else r == o.(state := INACTIVE, active := false))
    decreases ms
  {
    if ms != [] {
      var o, opts' := opts[i], Negotiated(opts, ms[0]);
      LastWordDecides(opts', ms[1..], i);
      StaysConsistent(opts, ms[0], i);
      assert Unheard(o, ms) ==> Unheard(opts'[i], ms[1..]);
      forall k | LastWord(o, ms, k) && o.state != REALLY_INACTIVE
        ensures var r := NegotiatedAll(opts, ms)[i];
          if ms[k].command == o.ackYes then r == o.(state := ACTIVE, active := true)
          else r == o.(state := INACTIVE, active := false)
      {
        if k == 0 {
          assert forall j :: 0 <= j < |ms| - 1 ==> ms[1..][j] == ms[j + 1];
          assert Unheard(opts'[i], ms[1..]);
        } else {
          assert ms[1..][k - 1] == ms[k];
          assert LastWord(opts'[i], ms[1..], k - 1);
        }
      }
    }
  }

  /** Whether the option is active after the messages. */
  ghost predicate SaidYes(o: Half, ms: seq<Message>) {
    if Unheard(o, ms) then o.state == ACTIVE else exists k :: LastWord(o, ms, k) && ms[k].command == o.ackYes
  }

  /** The replies, told from the messages alone: an ackYes is confirmed by an option that is
      neither active nor still waiting for it, refused by one that refuses, and an ackNo is
      answered only by an option that is active, once. */
  lemma RepliesByHistory(opts: seq<Half>, ms: seq<Message>, i: nat, command: Byte)
    requires i < |opts| && Consistent(opts[i]) && opts[i].ackYes != opts[i].ackNo
    ensures var o, reply := opts[i], Reply(NegotiatedAll(opts, ms)[i], command);
      && (command == o.ackYes && o.state == REALLY_INACTIVE ==> reply == [Message(o.sendNo, o.option)])
      && (command == o.ackYes && o.state != REALLY_INACTIVE ==>
           reply == if SaidYes(o, ms) || (Unheard(o, ms) && o.state == REQUESTED) then []
                    else [Message(o.sendYes, o.option)])
      && (command == o.ackNo ==>
           reply == if SaidYes(o, ms) && o.state != REALLY_INACTIVE then [Message(o.sendNo, o.option)] else [])
      && (command != o.ackYes && command != o.ackNo ==> reply == [])
  {
    LastWordDecides(opts, ms, i);
    if !Unheard(opts[i], ms) {
      var k := LastOf(opts[i], ms);
    }
  }

  lemma LastOf(o: Half, ms: seq<Message>) returns (k: nat)
    requires !Unheard(o, ms)
    ensures LastWord(o, ms, k)
    ensures forall j :: LastWord(o, ms, j) ==> j == k
  {
    k := |ms| - 1;
    while !Concerns(o, ms[k])
      invariant 0 <= k < |ms| && forall j :: k < j < |ms| ==> !Concerns(o, ms[j])
      decreases k
    {
      k := k - 1;
    }
  }

  /** An option that the table does not hold: IAC WILL (251) is refused with DONT (254) and IAC DO
      (253) with WONT (252), as RFC 854 demands; WONT and DONT are left alone. The table stays. */
  lemma UnknownIsRefused(opts: seq<Half>, option: Byte)
    requires !Known(opts, option)
    ensures Answers(opts, Message(251, option)) == [Message(254, option)]
    ensures Answers(opts, Message(253, option)) == [Message(252, option)]
    ensures Answers(opts, Message(252, option)) == [] && Answers(opts, Message(254, option)) == []
    ensures forall command :: Negotiated(opts, Message(command, option)) == opts
  {
    forall command ensures Negotiated(opts, Message(command, option)) == opts {
    }
  }

  /** A table that holds one half of an option only: a message that none of its halves understands
      is neither obeyed nor refused. */
  lemma UnheardIsIgnored(opts: seq<Half>, m: Message)
    requires Known(opts, m.option) && forall i :: 0 <= i < |opts| ==> !Concerns(opts[i], m)
    ensures Negotiated(opts, m) == opts && Answers(opts, m) == []
  {
    NobodyReplies(opts, m);
  }

  lemma {:induction false} NobodyReplies(opts: seq<Half>, m: Message)
    requires forall i :: 0 <= i < |opts| ==> !Concerns(opts[i], m)
    ensures Replies(opts, m) == []
  {
    if opts != [] { NobodyReplies(opts[..|opts| - 1], m); }
  }

  // ----- the objects

  class TelnetOption {
    const option: Byte
    const sendYes: Byte
    const sendNo: Byte
    const ackYes: Byte
    const ackNo: Byte
    var state: Status
    var active: bool

    constructor (option: Byte, sendYes: Byte, sendNo: Byte, ackYes: Byte, ackNo: Byte, initial: Status)
      ensures Value() == Half(option, sendYes, sendNo, ackYes, ackNo, initial, false)
    {
      this.option, this.sendYes, this.sendNo, this.ackYes, this.ackNo := option, sendYes, sendNo, ackYes, ackNo;
      state, active := initial, false;
    }

    ghost function Value(): Half reads this { Half(option, sendYes, sendNo, ackYes, ackNo, state, active) }

    /** What is to be sent to the peer, and whether the activation callback is due. */
    method ProcessIncoming(command: Byte) returns (out: seq<Message>, activated: bool)
      modifies this
      ensures Value() == Process(old(Value()), command)
      ensures out == Reply(old(Value()), command)
      ensures activated <==> !old(state == ACTIVE) && state == ACTIVE
    {
      out, activated := [], false;
      if command == ackYes {
        match state {
          case REQUESTED =>
            state, active, activated := ACTIVE, true, true;
          case ACTIVE =>
          case INACTIVE =>
            state := ACTIVE;
            out := [Message(sendYes, option)];
            active, activated := true, true;
          case REALLY_INACTIVE =>
            out := [Message(sendNo, option)];
        }
      } else if command == ackNo {
        match state {
          case REQUESTED =>
            state, active := INACTIVE, false;
          case ACTIVE =>
            state := INACTIVE;
            out := [Message(sendNo, option)];
            active := false;
          case INACTIVE =>
          case REALLY_INACTIVE =>
        }
      }
    }
  }

  /** The part that `Serial` and `PortManager` share: the option table and the connection. */
  class Negotiator {
    const items: seq<TelnetOption>
    ghost var sent: seq<Message>

    constructor (items: seq<TelnetOption>)
      ensures this.items == items && sent == []
    {
      this.items := items;
      sent := [];
    }

    ghost predicate Valid() {
      forall i, j :: 0 <= i < j < |items| ==> items[i] != items[j]
    }

    ghost function Table(): seq<Half> reads items { Values(items) }

    method TelnetSendOption(m: Message)
      modifies `sent
      ensures sent == old(sent) + [m]
    {
      sent := sent + [m];
    }

    /** Every option with the given number processes the command. */
    method Forward(m: Message) returns (known: bool)
      requires Valid()
      modifies this, items
      ensures Table() == Negotiated(old(Table()), m)
      ensures sent == old(sent) + Replies(old(Table()), m)
      ensures known <==> Known(old(Table()), m.option)
    {
      ghost var before := Table();
      var replies;
      known, replies := ForwardAll(m);
      sent := sent + replies;
      ThroughAll(before, m);
    }

    /** The loop; what is to be sent comes out in order. */
    method ForwardAll(m: Message) returns (known: bool, answers: seq<Message>)
      requires Valid()
      modifies items
      ensures Through(old(Table()), m, |items|)
      ensures (known <==> Known(old(Table()), m.option)) && answers == Replies(old(Table()), m)
    {
      ghost var before := Table();
      known, answers := false, [];
      assert Heard(before, m, 0, known, answers);
      for i := 0 to |items|
        invariant Heard(before, m, i, known, answers) && Through(before, m, i)
      {
        var out, hit := ForwardNext(i, m, before);
        HeardNext(before, m, i, known, answers);
        known, answers := known || hit, answers + out;
      }
      assert before[..|items|] == before;
    }

    lemma ThroughAll(before: seq<Half>, m: Message)
      requires |before| == |items| && Through(before, m, |items|)
      ensures Table() == Negotiated(before, m)
    {
      assert forall j :: 0 <= j < |items| ==> Table()[j] == Negotiated(before, m)[j];
    }

    /** The first i options have processed the command. */
    ghost predicate Through(before: seq<Half>, m: Message, i: nat)
      requires |before| == |items|
      reads items
    {
      forall j :: 0 <= j < |items| ==> items[j].Value() == if j < i then Negotiated(before, m)[j] else before[j]
    }

    method ForwardNext(i: nat, m: Message, ghost before: seq<Half>) returns (out: seq<Message>, hit: bool)
      requires Valid() && i < |items| == |before| && Through(before, m, i)
      modifies items[i]
      ensures Through(before, m, i + 1) && hit == (before[i].option == m.option)
      ensures out == if before[i].option == m.option then Reply(before[i], m.command) else []
    {
      assert items[i].Value() == before[i];
      out, hit := ForwardTo(items[i], m);
      assert forall j :: 0 <= j < |items| && j != i ==> items[j] != items[i];
    }

    static method ForwardTo(item: TelnetOption, m: Message) returns (out: seq<Message>, hit: bool)
      modifies item
      ensures item.Value() ==
        if item.option == m.option then Process(old(item.Value()), m.command) else old(item.Value())
      ensures out == if item.option == m.option then Reply(old(item.Value()), m.command) else []
      ensures hit == (item.option == m.option)
    {
      out, hit := [], item.option == m.option;
      if hit {
        var activated;
        out, activated := item.ProcessIncoming(m.command);
      }
    }

    method TelnetNegotiateOption(command: Byte, option: Byte)
      requires Valid()
      modifies this, items
      ensures Table() == Negotiated(old(Table()), Message(command, option))
      ensures sent == old(sent) + Answers(old(Table()), Message(command, option))
    {
      var known := Forward(Message(command, option));
      if !known {
        NobodyReplies(old(Table()), Message(command, option));
        if command == WILL || command == DO {
          TelnetSendOption(Message(if command == WILL then DONT else WONT, option));
        }
      }
    }
  }

  ghost function Values(items: seq<TelnetOption>): (r: seq<Half>)
    reads items
    ensures |r| == |items| && forall i :: 0 <= i < |items| ==> r[i] == items[i].Value()
  {
    if items == [] then [] else Values(items[..|items| - 1]) + [items[|items| - 1].Value()]
  }

  /** What the first i options have made of the command. */
  ghost predicate Heard(opts: seq<Half>, m: Message, i: nat, known: bool, answers: seq<Message>)
    requires i <= |opts|
  {
    (known <==> Known(opts[..i], m.option)) && answers == Replies(opts[..i], m)
  }

  lemma HeardNext(opts: seq<Half>, m: Message, i: nat, known: bool, answers: seq<Message>)
    requires i < |opts| && Heard(opts, m, i, known, answers)
    ensures Heard(opts, m, i + 1, known || opts[i].option == m.option,
                  answers + if opts[i].option == m.option then Reply(opts[i], m.command) else [])
  {
    NextOption(opts, m, i);
  }

  lemma NextOption(opts: seq<Half>, m: Message, i: nat)
    requires i < |opts|
    ensures Known(opts[..i + 1], m.option) <==> Known(opts[..i], m.option) || opts[i].option == m.option
    ensures Replies(opts[..i + 1], m)
         == Replies(opts[..i], m) + (if opts[i].option == m.option then Reply(opts[i], m.command) else [])
  {
    assert opts[..i + 1][..i] == opts[..i];
    if opts[i].option == m.option { assert opts[..i + 1][i].option == m.option; }
    if Known(opts[..i], m.option) {
      var j :| 0 <= j < i && opts[..i][j].option == m.option;
      assert opts[..i + 1][j].option == m.option;
    }
  }
}
