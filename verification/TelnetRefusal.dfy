/** Two sides of which one does not hold all options of the other: what it lacks it refuses, as
    if it held the missing halves as REALLY_INACTIVE ones. So the exchange ends as in
    `TelnetConvergence`. */
module TelnetRefusal {
  import opened Bits
  import opened TelnetWire
  import opened TelnetOptions
  import opened TelnetConvergence

  /** Halves that would refuse everything, of options that the table does not hold. */
  ghost predicate Lacked(pad: seq<Half>, opts: seq<Half>) {
    forall i :: 0 <= i < |pad| ==>
      pad[i].state == REALLY_INACTIVE && !pad[i].active && !Known(opts, pad[i].option)
  }

  /** The same system with the missing halves on both sides. */
  function Padded(s: System, padC: seq<Half>, padS: seq<Half>): System {
    System(s.client + padC, s.server + padS, s.up, s.down, s.next, s.skipped)
  }

  /** A refusing half does not change, and answers as the side that lacks it does. */
  lemma RefusalOfPad(opts: seq<Half>, pad: Half, m: Message)
    requires pad.state == REALLY_INACTIVE && !Known(opts, pad.option) && m.option == pad.option
    requires (pad.ackYes == WILL && pad.ackNo == WONT && pad.sendNo == DONT)
          || (pad.ackYes == DO && pad.ackNo == DONT && pad.sendNo == WONT)
    requires m.command == pad.ackYes || m.command == pad.ackNo
    ensures Process(pad, m.command) == pad && Negotiated(opts, m) == opts
    ensures Answers(opts, m) == Reply(pad, m.command)
  {
  }

  /** The six codes of a half go together as those of a mirrored pair do. */
  predicate Shaped(o: Half) {
    (o.ackYes == WILL && o.ackNo == WONT && o.sendNo == DONT) || (o.ackYes == DO && o.ackNo == DONT && o.sendNo == WONT)
  }

  /** A message about half k of the padded table: one of its own halves, or one that it lacks. */
  lemma PaddedTable(opts: seq<Half>, pad: seq<Half>, m: Message, k: nat)
    requires Lacked(pad, opts) && MeantFor(opts + pad, m, k) && Shaped((opts + pad)[k])
    ensures Negotiated(opts + pad, m) == Negotiated(opts, m) + pad
    ensures Answers(opts + pad, m) == Answers(opts, m)
  {
    OnlyOne(opts + pad, m, k);
    if k < |opts| {
      forall q | 0 <= q < |opts| && q != k ensures !Concerns(opts[q], m) {
        assert (opts + pad)[q] == opts[q];
      }
      OnlyOne(opts, m, k);
    } else {
      RefusalOfPad(opts, pad[k - |opts|], m);
    }
  }

  /** A move of the two sides is the same move of the padded ones. */
  lemma PaddedMove(s: System, m: Move, padC: seq<Half>, padS: seq<Half>, mate: seq<nat>, byClient: seq<Status>,
                   byServer: seq<Status>)
    requires Invariant(Padded(s, padC, padS), mate, byClient + States(padC), byServer)
    requires Lacked(padC, s.client) && Lacked(padS, s.server)
    requires |byClient| == |s.client| && Enabled(s, m)
    ensures Enabled(Padded(s, padC, padS), m)
    ensures Do(Padded(s, padC, padS), m, byClient + States(padC)) == Padded(Do(s, m, byClient), padC, padS)
  {
    var p := Padded(s, padC, padS);
    match m {
      case Send =>
        assert (byClient + States(padC))[s.next] == byClient[s.next];
      case DeliverUp =>
        var j, yes, t := UpShape(p, mate, byClient + States(padC), byServer);
        assert Mirrors(p.client[j], p.server[mate[j]]);
        MeantForMate(p, mate, j, yes);
        PaddedTable(s.server, padS, s.up[0], mate[j]);
      case DeliverDown =>
        var j, yes, t := DownShape(p, mate, byClient + States(padC), byServer);
        assert Mirrors(p.client[j], p.server[mate[j]]);
        MeantForClient(p, mate, j, yes);
        PaddedTable(s.client, padC, s.down[0], j);
    }
  }

  lemma LackedStays(pad: seq<Half>, opts: seq<Half>, m: Message)
    requires Lacked(pad, opts)
    ensures Lacked(pad, Negotiated(opts, m))
  {
  }

  lemma LackedMove(s: System, m: Move, padC: seq<Half>, padS: seq<Half>, byClient: seq<Status>)
    requires Lacked(padC, s.client) && Lacked(padS, s.server) && |byClient| == |s.client| && Enabled(s, m)
    ensures var t := Do(s, m, byClient);
      Lacked(padC, t.client) && Lacked(padS, t.server) && |t.client| == |s.client| && |t.server| == |s.server|
  {
    match m {
      case Send =>
      case DeliverUp => LackedStays(padS, s.server, s.up[0]);
      case DeliverDown => LackedStays(padC, s.client, s.down[0]);
    }
  }

  lemma {:induction false} PaddedRun(s: System, moves: seq<Move>, t: System, padC: seq<Half>, padS: seq<Half>,
                                     mate: seq<nat>, byClient: seq<Status>, byServer: seq<Status>)
    requires Invariant(Padded(s, padC, padS), mate, byClient + States(padC), byServer)
    requires Lacked(padC, s.client) && Lacked(padS, s.server) && |byClient| == |s.client|
    requires Leads(s, moves, byClient, t)
    ensures Leads(Padded(s, padC, padS), moves, byClient + States(padC), Padded(t, padC, padS))
    ensures |t.client| == |s.client| && |t.server| == |s.server|
    decreases moves
  {
    if moves != [] {
      PaddedMove(s, moves[0], padC, padS, mate, byClient, byServer);
      LackedMove(s, moves[0], padC, padS, byClient);
      MoveInvariant(Padded(s, padC, padS), moves[0], mate, byClient + States(padC), byServer);
      PaddedRun(Do(s, moves[0], byClient), moves[1..], t, padC, padS, mate, byClient, byServer);
    }
  }

  // ----- the end: the padded loop passes the missing halves and sends nothing

  function Sends(n: nat): (r: seq<Move>)
    ensures |r| == n
  {
    if n == 0 then [] else [Send] + Sends(n - 1)
  }

  lemma {:induction false} LoopEnds(p: System, wanted: seq<Status>)
    requires p.next <= |p.client| == |wanted|
    requires forall i :: p.next <= i < |p.client| ==> p.client[i].state == wanted[i] == REALLY_INACTIVE
    ensures Leads(p, Sends(|p.client| - p.next), wanted, p.(next := |p.client|))
    decreases |p.client| - p.next
  {
    var n := |p.client| - p.next;
    if n > 0 {
      var q := Do(p, Send, wanted);
      LoopEnds(q, wanted);
      assert Sends(n)[1..] == Sends(n - 1);
    }
  }

  lemma {:induction false} LeadsConcat(a: System, x: seq<Move>, b: System, y: seq<Move>, c: System, wanted: seq<Status>)
    requires Leads(a, x, wanted, b) && Leads(b, y, wanted, c)
    ensures Leads(a, x + y, wanted, c)
    decreases x
  {
    if x == [] {
      assert x + y == y;
    } else {
      assert (x + y)[0] == x[0] && (x + y)[1..] == x[1..] + y;
      LeadsConcat(Do(a, x[0], wanted), x[1..], b, y, c, wanted);
    }
  }

  lemma {:induction false} LaterMovesDoNotOvertake(x: seq<Move>, n: nat, p: nat, k: nat)
    ensures Overtakes(Sends(n), p, k) == false
    ensures Overtakes(x + Sends(n), p, k) <==> Overtakes(x, p, k)
    decreases |x| + n
  {
    if x == [] {
      assert x + Sends(n) == Sends(n);
      if n > 0 && k > 0 {
        assert Sends(n)[1..] == Sends(n - 1);
        LaterMovesDoNotOvertake([], n - 1, p, k - 1);
      }
    } else {
      var y := x + Sends(n);
      assert y[0] == x[0] && y[1..] == x[1..] + Sends(n);
      LaterMovesDoNotOvertake([], n, p, k);
      match x[0] {
        case Send => if k > 0 { LaterMovesDoNotOvertake(x[1..], n, p, k - 1); }
        case DeliverDown => if p > 0 { LaterMovesDoNotOvertake(x[1..], n, p - 1, k); }
        case DeliverUp => LaterMovesDoNotOvertake(x[1..], n, p, k);
      }
    }
  }

  // ----- where the exchange ends

  lemma {:induction false} PadsRequestNothing(pad: seq<Half>)
    requires forall i :: 0 <= i < |pad| ==> pad[i].state == REALLY_INACTIVE
    ensures Requests(pad) == []
  {
    if pad != [] { PadsRequestNothing(pad[..|pad| - 1]); }
  }

  lemma PaddedStart(client: seq<Half>, server: seq<Half>, padC: seq<Half>, padS: seq<Half>)
    requires forall i :: 0 <= i < |padS| ==> padS[i].state == REALLY_INACTIVE
    ensures Start(client + padC, server + padS) == Padded(Start(client, server), padC, padS)
    ensures States(client + padC) == States(client) + States(padC)
  {
    RequestsConcat(server, padS);
    PadsRequestNothing(padS);
    assert Requests(server) + [] == Requests(server);
  }

  /** The tables fit together once each is filled up with what it lacks. */
  ghost predicate MatchedLacking(client: seq<Half>, server: seq<Half>, padC: seq<Half>, padS: seq<Half>,
                                 mate: seq<nat>) {
    && Matched(client + padC, server + padS, mate)
    && Initial(client) && Initial(server) && Lacked(padC, client) && Lacked(padS, server)
  }

  lemma PaddedRunToEnd(client: seq<Half>, server: seq<Half>, padC: seq<Half>, padS: seq<Half>, mate: seq<nat>,
                       moves: seq<Move>, t: System)
    requires MatchedLacking(client, server, padC, padS, mate)
    requires Leads(Start(client, server), moves, States(client), t) && Quiescent(t)
    ensures Leads(Start(client + padC, server + padS), moves, States(client + padC), Padded(t, padC, padS))
    ensures |t.client| == |client| == t.next && |t.server| == |server|
  {
    PaddedStart(client, server, padC, padS);
    StartsInvariant(client + padC, server + padS, mate);
    PaddedRun(Start(client, server), moves, t, padC, padS, mate, States(client), States(server + padS));
    NextBounded(Start(client, server), moves, States(client), t);
  }

  /** A run to the end of the two sides is, with idle turns of the loop at its end, one of the
      padded sides. */
  lemma PaddedEnd(client: seq<Half>, server: seq<Half>, padC: seq<Half>, padS: seq<Half>, mate: seq<nat>,
                  moves: seq<Move>, t: System) returns (all: seq<Move>, u: System)
    requires MatchedLacking(client, server, padC, padS, mate)
    requires Leads(Start(client, server), moves, States(client), t) && Quiescent(t)
    ensures all == moves + Sends(|padC|)
    ensures Leads(Start(client + padC, server + padS), all, States(client + padC), u) && Quiescent(u)
    ensures u.client == t.client + padC && u.server == t.server + padS
    ensures |t.client| == |client| && |t.server| == |server|
  {
    PaddedRunToEnd(client, server, padC, padS, mate, moves, t);
    var s, p := Start(client + padC, server + padS), Padded(t, padC, padS);
    u, all := p.(next := |p.client|), moves + Sends(|padC|);
    LoopEnds(p, States(client + padC));
    LeadsConcat(s, moves, p, Sends(|padC|), u, States(client + padC));
  }

  lemma {:induction false} NextBounded(s: System, moves: seq<Move>, wanted: seq<Status>, t: System)
    requires Leads(s, moves, wanted, t) && s.next <= |s.client|
    ensures t.next <= |t.client|
    decreases moves
  {
    if moves != [] { NextBounded(Do(s, moves[0], wanted), moves[1..], wanted, t); }
  }

  lemma OvertakenInPadded(client: seq<Half>, server: seq<Half>, mate: seq<nat>, moves: seq<Move>, n: nat, i: nat)
    requires Matched(client, server, mate) && i < |client|
    ensures Overtaken(client, server, mate, moves + Sends(n), i) <==> Overtaken(client, server, mate, moves, i)
  {
    LaterMovesDoNotOvertake(moves, n, Place(server, mate[i]), i);
  }

  /** A half that one side lacks or refuses ends inactive on the other; every other half ends as
      when nothing is lacking. */
  lemma LackingConverges(client: seq<Half>, server: seq<Half>, padC: seq<Half>, padS: seq<Half>, mate: seq<nat>,
                         moves: seq<Move>, t: System, i: nat)
    requires MatchedLacking(client, server, padC, padS, mate)
    requires Leads(Start(client, server), moves, States(client), t) && Quiescent(t)
    requires i < |client + padC|
    ensures |t.client| == |client| && |t.server| == |server|
    ensures i < |client| && mate[i] >= |server| ==> GivenUp(t.client[i])
    ensures i >= |client| && mate[i] < |server| ==> GivenUp(t.server[mate[i]])
    ensures i < |client| && mate[i] < |server| ==>
      (Agreed(t, mate, i, Due(client + padC, server + padS, mate, i))
       <==> !Overtaken(client + padC, server + padS, mate, moves, i))
  {
    var all, u := PaddedEnd(client, server, padC, padS, mate, moves, t);
    Convergence(client + padC, server + padS, mate, all, u, i);
    OvertakenInPadded(client + padC, server + padS, mate, moves, |padC|, i);
  }

  // ----- a peer without any option

  function Mirror(o: Half): Half {
    Half(o.option, o.ackYes, o.ackNo, o.sendYes, o.sendNo, REALLY_INACTIVE, false)
  }

  function Mirrored(opts: seq<Half>): (r: seq<Half>)
    ensures |r| == |opts| && forall i :: 0 <= i < |r| ==> r[i] == Mirror(opts[i])
  {
    seq(|opts|, i requires 0 <= i < |opts| => Mirror(opts[i]))
  }

  /** Every half is the own or the other end of an option, and none is there twice. */
  predicate Proper(opts: seq<Half>) {
    && (forall i :: 0 <= i < |opts| ==> Mirrors(opts[i], Mirror(opts[i])))
    && (forall i, j :: 0 <= i < j < |opts| ==>
         opts[i].option != opts[j].option || opts[i].sendYes != opts[j].sendYes)
  }

  lemma Alone(opts: seq<Half>)
    ensures opts + [] == opts && [] + opts == opts
  {
  }

  lemma Identity(n: nat) returns (mate: seq<nat>)
    ensures |mate| == n && forall k :: 0 <= k < n ==> mate[k] == k
    ensures forall k: nat :: k < n ==> k in mate
  {
    mate := seq(n, k requires 0 <= k < n => k as nat);
    forall k: nat | k < n ensures k in mate { assert mate[k] == k; }
  }

  lemma MirrorMatches(opts: seq<Half>, mate: seq<nat>)
    requires Proper(opts) && |mate| == |opts| && forall k :: 0 <= k < |mate| ==> mate[k] == k
    requires forall k: nat :: k < |opts| ==> k in mate
    ensures Matched(opts, Mirrored(opts), mate) && Matched(Mirrored(opts), opts, mate)
  {
    var pad := Mirrored(opts);
    forall i | 0 <= i < |mate| ensures Mirrors(pad[i], opts[mate[i]]) {
      assert Mirrors(opts[i], Mirror(opts[i]));
    }
    forall i, j | 0 <= i < j < |pad| ensures pad[i].option != pad[j].option || pad[i].sendYes != pad[j].sendYes {
      assert Mirrors(opts[i], Mirror(opts[i])) && Mirrors(opts[j], Mirror(opts[j]));
    }
  }

  /** A client that meets a Telnet server without any option: whatever the order of the moves, all its
      halves end inactive, those that it requested like the others. */
  lemma PlainServer(client: seq<Half>, moves: seq<Move>, t: System, i: nat)
    requires Proper(client) && Initial(client)
    requires Leads(Start(client, []), moves, States(client), t) && Quiescent(t) && i < |client|
    ensures |t.client| == |client| && GivenUp(t.client[i])
  {
    var padS := Mirrored(client);
    var mate := Identity(|client|);
    MirrorMatches(client, mate);
    Alone(client);
    Alone(padS);
    LackingConverges(client, [], [], padS, mate, moves, t, i);
  }

  /** The same for a client without any option that meets a server: `PortManager` gives up all. */
  lemma PlainClient(server: seq<Half>, moves: seq<Move>, t: System, k: nat)
    requires Proper(server) && Initial(server)
    requires Leads(Start([], server), moves, [], t) && Quiescent(t) && k < |server|
    ensures |t.server| == |server| && GivenUp(t.server[k])
  {
    var padC := Mirrored(server);
    var mate := Identity(|server|);
    MirrorMatches(server, mate);
    Alone(server);
    Alone(padC);
    assert States([]) == [];
    LackingConverges([], server, padC, [], mate, moves, t, k);
  }

  /** So a client that asks for RFC 2217 is not told that it has it. */
  lemma NoComPort(moves: seq<Move>, t: System)
    requires Leads(Start(CLIENT_OPTIONS, []), moves, States(CLIENT_OPTIONS), t) && Quiescent(t)
    ensures |t.client| == 7 && forall i :: 0 <= i < 7 ==> GivenUp(t.client[i])
  {
    TablesMatch();
    forall i | 0 <= i < 7 ensures Mirrors(CLIENT_OPTIONS[i], Mirror(CLIENT_OPTIONS[i])) {
      assert Mirrors(CLIENT_OPTIONS[i], SERVER_OPTIONS[MATE[i]]);
    }
    PlainServer(CLIENT_OPTIONS, moves, t, 0);
    forall i | 0 <= i < 7 ensures GivenUp(t.client[i]) {
      PlainServer(CLIENT_OPTIONS, moves, t, i);
    }
  }

  // ----- what `open` makes of it

  /** `sum(o.active for o in options)` and `sum(o.state != INACTIVE for o in options)`. */
  function CountActive(opts: seq<Half>): nat {
    if opts == [] then 0 else (if opts[0].active then 1 else 0) + CountActive(opts[1..])
  }

  function CountNotInactive(opts: seq<Half>): nat {
    if opts == [] then 0 else (if opts[0].state != INACTIVE then 1 else 0) + CountNotInactive(opts[1..])
  }

  /** The wait of `open` for its mandatory options ends when the two agree. */
  predicate WaitEnds(mandatory: seq<Half>) { CountActive(mandatory) == CountNotInactive(mandatory) }

  /** That is when none of them waits for an answer any more, whatever the answers were. */
  lemma {:induction false} WaitEndsIff(opts: seq<Half>)
    requires forall i :: 0 <= i < |opts| ==> Consistent(opts[i]) && opts[i].state != REALLY_INACTIVE
    ensures CountActive(opts) <= CountNotInactive(opts)
    ensures WaitEnds(opts) <==> forall i :: 0 <= i < |opts| ==> opts[i].state != REQUESTED
    decreases opts
  {
    if opts != [] {
      WaitEndsIff(opts[1..]);
      assert opts == [opts[0]] + opts[1..];
    }
  }

  /** The mandatory options of the client: its own BINARY and RFC 2217 halves. */
  function Mandatory(opts: seq<Half>): seq<Half>
    requires |opts| == 7
  {
    [opts[5], opts[6]]
  }

  /** The server has said something about the client's RFC 2217 half: DO 44 or DONT 44. */
  ghost predicate AnsweredAt(ms: seq<Message>, k: int) {
    0 <= k < |ms| && ms[k].option == 44 && (ms[k].command == 253 || ms[k].command == 254)
  }

  lemma ConcernsRfc(ms: seq<Message>, k: int)
    requires 0 <= k < |ms|
    ensures Concerns(CLIENT_OPTIONS[6], ms[k]) <==> AnsweredAt(ms, k)
  {
  }

  /** The client's RFC 2217 half, by the last answer. */
  lemma RfcHalf(ms: seq<Message>)
    ensures var h := NegotiatedAll(CLIENT_OPTIONS, ms)[6];
      && (h.state != REQUESTED <==> exists k :: AnsweredAt(ms, k))
      && (forall k :: AnsweredAt(ms, k) && (forall j :: k < j < |ms| ==> !AnsweredAt(ms, j)) ==>
           (h.active <==> ms[k].command == 253))
  {
    var o := CLIENT_OPTIONS[6];
    LastWordDecides(CLIENT_OPTIONS, ms, 6);
    forall k | 0 <= k < |ms| ensures Concerns(o, ms[k]) <==> AnsweredAt(ms, k) {
      ConcernsRfc(ms, k);
    }
    if !Unheard(o, ms) {
      var k := LastOf(o, ms);
      assert AnsweredAt(ms, k);
    }
    forall k | AnsweredAt(ms, k) && forall j :: k < j < |ms| ==> !AnsweredAt(ms, j)
      ensures NegotiatedAll(CLIENT_OPTIONS, ms)[6].active <==> ms[k].command == 253
    {
      assert LastWord(o, ms, k);
    }
  }

  lemma WaitOfTwo(a: Half, b: Half)
    requires Consistent(a) && Consistent(b) && a.state != REALLY_INACTIVE && b.state != REALLY_INACTIVE
    ensures WaitEnds([a, b]) <==> a.state != REQUESTED && b.state != REQUESTED
  {
    WaitEndsIff([a, b]);
    assert [a, b][0] == a && [a, b][1] == b;
  }

  /** After any messages the wait ends if and only if the server has answered the request for RFC 2217,
      be it by a refusal. A refusal that is the last answer lets `open` go on without RFC 2217; it
      raises only where there was no answer in time. */
  lemma OpenGoesOn(ms: seq<Message>)
    ensures var t := NegotiatedAll(CLIENT_OPTIONS, ms);
      && (WaitEnds(Mandatory(t)) <==> exists k :: AnsweredAt(ms, k))
      && (forall k :: AnsweredAt(ms, k) && (forall j :: k < j < |ms| ==> !AnsweredAt(ms, j)) ==>
           (t[6].active <==> ms[k].command == 253))
  {
    var t := NegotiatedAll(CLIENT_OPTIONS, ms);
    NeverRequested(ms);
    RfcHalf(ms);
    WaitOfTwo(t[5], t[6]);
  }

  lemma NeverRequested(ms: seq<Message>)
    ensures var t := NegotiatedAll(CLIENT_OPTIONS, ms);
      && Consistent(t[5]) && t[5].state != REQUESTED && t[5].state != REALLY_INACTIVE
      && Consistent(t[6]) && t[6].state != REALLY_INACTIVE
  {
    var o, q := CLIENT_OPTIONS[5], CLIENT_OPTIONS[6];
    LastWordDecides(CLIENT_OPTIONS, ms, 5);
    LastWordDecides(CLIENT_OPTIONS, ms, 6);
    if !Unheard(o, ms) { var k := LastOf(o, ms); }
    if !Unheard(q, ms) { var k := LastOf(q, ms); }
  }

  /** It happens: a plain Telnet server refuses, and `open` goes on. */
  lemma RefusalOpens()
    ensures var t := NegotiatedAll(CLIENT_OPTIONS, [Message(254, 44)]);
      WaitEnds(Mandatory(t)) && !t[6].active && t[6].state == INACTIVE
  {
    var ms := [Message(254, 44)];
    OpenGoesOn(ms);
    assert AnsweredAt(ms, 0);
    LastWordDecides(CLIENT_OPTIONS, ms, 6);
    assert LastWord(CLIENT_OPTIONS[6], ms, 0);
  }
}
