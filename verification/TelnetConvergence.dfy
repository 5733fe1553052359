/** Two sides with matching option tables over two first-in first-out connections: the client of
    `Serial.open` with its start-up loop, and the server of `PortManager`. */
module TelnetConvergence {
  import opened Bits
  import opened TelnetWire
  import opened TelnetOptions

  // ----- matching tables

  predicate Mirrors(c: Half, s: Half) {
    && c.option == s.option
    && c.sendYes == s.ackYes && c.sendNo == s.ackNo && c.ackYes == s.sendYes && c.ackNo == s.sendNo
    && ((c.sendYes == WILL && c.sendNo == WONT && c.ackYes == DO && c.ackNo == DONT)
        || (c.sendYes == DO && c.sendNo == DONT && c.ackYes == WILL && c.ackNo == WONT))
  }

  /** Option i of the client is mirrored by option mate[i] of the server, and no two options of
      the client are the same half of one Telnet option. */
  predicate Matched(client: seq<Half>, server: seq<Half>, mate: seq<nat>) {
    && |client| == |server| == |mate|
    && (forall i :: 0 <= i < |mate| ==> mate[i] < |server| && Mirrors(client[i], server[mate[i]]))
    && (forall i, j :: 0 <= i < j < |mate| ==> mate[i] != mate[j])
    && (forall k: nat :: k < |server| ==> k in mate)
    && (forall i, j :: 0 <= i < j < |client| ==>
         client[i].option != client[j].option || client[i].sendYes != client[j].sendYes)
  }

  /** At the start: nothing active. Each half is wanted (REQUESTED), accepted (INACTIVE) or refused
      (REALLY_INACTIVE). */
  predicate Initial(opts: seq<Half>) {
    forall i :: 0 <= i < |opts| ==> !opts[i].active && opts[i].state != ACTIVE
  }

  // ----- the two sides and what is under way between them

  /** `next` is how far the start-up loop of the client has come; `skipped` are the halves it
      meant to request but found no longer REQUESTED. The server sends its requests at once. */
  datatype System = System(client: seq<Half>, server: seq<Half>, up: seq<Message>, down: seq<Message>,
                           next: nat, skipped: set<nat>)

  function Requests(opts: seq<Half>): seq<Message> {
    if opts == [] then []
    else
      var last := opts[|opts| - 1];
      Requests(opts[..|opts| - 1]) + (if last.state == REQUESTED then [Message(last.sendYes, last.option)] else [])
  }

  function Start(client: seq<Half>, server: seq<Half>): System {
    System(client, server, [], Requests(server), 0, {})
  }

  /** `Send` is one turn of the client's start-up loop: the test of the option's state and the sending
      are one move, as if the reader thread did not run between the two. */
  datatype Move = Send | DeliverUp | DeliverDown

  predicate Enabled(s: System, m: Move) {
    match m
    case Send => s.next < |s.client|
    case DeliverUp => s.up != []
    case DeliverDown => s.down != []
  }

  /** `wanted` are the states of the halves when the client opened the connection. */
  function Do(s: System, m: Move, wanted: seq<Status>): System
    requires Enabled(s, m) && |wanted| == |s.client|
  {
    match m
    case Send =>
      var o := s.client[s.next];
      if o.state == REQUESTED then s.(up := s.up + [Message(o.sendYes, o.option)], next := s.next + 1)
      else s.(next := s.next + 1, skipped := if wanted[s.next] == REQUESTED then s.skipped + {s.next} else s.skipped)
    case DeliverUp =>
      s.(server := Negotiated(s.server, s.up[0]), up := s.up[1..], down := s.down + Answers(s.server, s.up[0]))
    case DeliverDown =>
      s.(client := Negotiated(s.client, s.down[0]), down := s.down[1..], up := s.up + Answers(s.client, s.down[0]))
  }

  /** `moves` can be made one after the other from `s` and lead to `t`. */
  ghost predicate Leads(s: System, moves: seq<Move>, wanted: seq<Status>, t: System)
    decreases moves
  {
    if moves == [] then s == t
    else |wanted| == |s.client| && Enabled(s, moves[0]) && Leads(Do(s, moves[0], wanted), moves[1..], wanted, t)
  }

  predicate Quiescent(s: System) { s.next >= |s.client| && s.up == [] && s.down == [] }

  // ----- the life of one half

  /** All that can be the case with one half: the states of its two ends, how many requests or
      confirmations (Yes) and refusals (No) of it are under way in each direction, whether the
      client's loop has passed it. */
  datatype Life = Life(c: Status, s: Status, up: nat, upNo: nat, down: nat, downNo: nat, passed: bool, skipped: bool)
  {
    predicate Carries(up: nat, upNo: nat, down: nat, downNo: nat) {
      this.up == up && this.upNo == upNo && this.down == down && this.downNo == downNo
    }

    predicate Silent() { Carries(0, 0, 0, 0) }
  }

  /** Both sides want the half. */
  predicate BothWant(x: Life) {
    || (!x.passed && !x.skipped && x.s == REQUESTED
      && ((x.c == REQUESTED && x.Carries(0, 0, 1, 0)) || (x.c == ACTIVE && x.Silent())))
    || (x.passed && x.skipped && x.c == ACTIVE && x.s == REQUESTED && x.Silent())
    || (x.passed && !x.skipped && x.c == REQUESTED && x.s == REQUESTED && x.Carries(1, 0, 1, 0))
    || (x.passed && !x.skipped && x.c == REQUESTED && x.s == ACTIVE && x.Carries(0, 0, 1, 0))
    || (x.passed && !x.skipped && x.c == ACTIVE && x.s == REQUESTED && x.Carries(1, 0, 0, 0))
    || (x.passed && !x.skipped && x.c == ACTIVE && x.s == ACTIVE && x.Silent())
  }

  /** Only the client wants it; the server accepts it or refuses it. */
  predicate ClientWants(x: Life, byServer: Status) {
    !x.skipped &&
    (|| (!x.passed && x.c == REQUESTED && x.s == byServer && x.Silent())
     || (x.passed && x.c == REQUESTED && x.s == byServer && x.Carries(1, 0, 0, 0))
     || (byServer == INACTIVE && x.passed && x.c == REQUESTED && x.s == ACTIVE && x.Carries(0, 0, 1, 0))
     || (byServer == INACTIVE && x.passed && x.c == ACTIVE && x.s == ACTIVE && x.Silent())
     || (byServer == REALLY_INACTIVE && x.passed && x.c == REQUESTED && x.s == byServer && x.Carries(0, 0, 0, 1))
     || (byServer == REALLY_INACTIVE && x.passed && x.c == INACTIVE && x.s == byServer && x.Silent()))
  }

  /** Only the server wants it; the client accepts it or refuses it. */
  predicate ServerWants(x: Life, byClient: Status) {
    !x.skipped &&
    (|| (x.c == byClient && x.s == REQUESTED && x.Carries(0, 0, 1, 0))
     || (byClient == INACTIVE && x.c == ACTIVE && x.s == REQUESTED && x.Carries(1, 0, 0, 0))
     || (byClient == INACTIVE && x.c == ACTIVE && x.s == ACTIVE && x.Silent())
     || (byClient == REALLY_INACTIVE && x.c == byClient && x.s == REQUESTED && x.Carries(0, 1, 0, 0))
     || (byClient == REALLY_INACTIVE && x.c == byClient && x.s == INACTIVE && x.Silent()))
  }

  predicate Possible(x: Life, byClient: Status, byServer: Status) {
    if byClient == REQUESTED && byServer == REQUESTED then BothWant(x)
    else if byClient == REQUESTED then ClientWants(x, byServer)
    else if byServer == REQUESTED then ServerWants(x, byClient)
    else !x.skipped && x.c == byClient && x.s == byServer && x.Silent()
  }

  /** How many messages about the half can still be delivered. */
  function Deliveries(x: Life): nat {
    if x.c == REALLY_INACTIVE then 2 * x.down + x.upNo
    else if x.s == REALLY_INACTIVE then (if x.c != REQUESTED then 0 else if x.downNo > 0 then 1 else 2)
    else if x.c == REQUESTED && x.s == ACTIVE then 1
    else if x.c == ACTIVE then x.up
    else if x.c == INACTIVE && x.s == INACTIVE then 0
    else 2
  }

  function AfterSend(x: Life, wanted: Status): Life {
    if x.c == REQUESTED then x.(up := x.up + 1, passed := true)
    else x.(passed := true, skipped := x.skipped || wanted == REQUESTED)
  }

  function AfterUp(x: Life, yes: bool): Life
    requires if yes then x.up > 0 else x.upNo > 0
  {
    if yes then
      x.(s := if x.s == REQUESTED || x.s == INACTIVE then ACTIVE else x.s, up := x.up - 1,
         down := x.down + (if x.s == INACTIVE then 1 else 0),
         downNo := x.downNo + (if x.s == REALLY_INACTIVE then 1 else 0))
    else
      x.(s := if x.s == REQUESTED || x.s == ACTIVE then INACTIVE else x.s, upNo := x.upNo - 1,
         downNo := x.downNo + (if x.s == ACTIVE then 1 else 0))
  }

  function AfterDown(x: Life, yes: bool): Life
    requires if yes then x.down > 0 else x.downNo > 0
  {
    if yes then
      x.(c := if x.c == REQUESTED || x.c == INACTIVE then ACTIVE else x.c, down := x.down - 1,
         up := x.up + (if x.c == INACTIVE then 1 else 0),
         upNo := x.upNo + (if x.c == REALLY_INACTIVE then 1 else 0))
    else
      x.(c := if x.c == REQUESTED || x.c == ACTIVE then INACTIVE else x.c, downNo := x.downNo - 1,
         upNo := x.upNo + (if x.c == ACTIVE then 1 else 0))
  }

  /** Every move keeps a half possible and brings it nearer to its end. */
  lemma LifeGoesOn(x: Life, byClient: Status, byServer: Status)
    requires Possible(x, byClient, byServer)
    requires byClient != ACTIVE && byServer != ACTIVE
    ensures !x.passed ==> Possible(AfterSend(x, byClient), byClient, byServer)
    ensures !x.passed ==> Deliveries(AfterSend(x, byClient)) <= Deliveries(x)
    ensures x.up <= 1 && x.down <= 1 && Deliveries(x) <= 2
  {
  }

  lemma LifeUp(x: Life, yes: bool, byClient: Status, byServer: Status)
    requires Possible(x, byClient, byServer) && (if yes then x.up > 0 else x.upNo > 0)
    requires byClient != ACTIVE && byServer != ACTIVE
    ensures Possible(AfterUp(x, yes), byClient, byServer) && Deliveries(AfterUp(x, yes)) < Deliveries(x)
  {
  }

  lemma LifeDown(x: Life, yes: bool, byClient: Status, byServer: Status)
    requires Possible(x, byClient, byServer) && (if yes then x.down > 0 else x.downNo > 0)
    requires byClient != ACTIVE && byServer != ACTIVE
    ensures Possible(AfterDown(x, yes), byClient, byServer) && Deliveries(AfterDown(x, yes)) < Deliveries(x)
  {
  }

  // ----- the halves of the whole system

  /** A message about the half from the client to the server, and one the other way. */
  function Up(c: Half, yes: bool): Message { Message(if yes then c.sendYes else c.sendNo, c.option) }

  function Down(c: Half, yes: bool): Message { Message(if yes then c.ackYes else c.ackNo, c.option) }

  ghost function LifeOf(s: System, mate: seq<nat>, i: nat): Life
    requires i < |s.client| && i < |mate| && mate[i] < |s.server|
  {
    var c := s.client[i];
    Life(c.state, s.server[mate[i]].state,
         multiset(s.up)[Up(c, true)], multiset(s.up)[Up(c, false)],
         multiset(s.down)[Down(c, true)], multiset(s.down)[Down(c, false)], i < s.next, i in s.skipped)
  }

  ghost function Lives(s: System, mate: seq<nat>): (r: seq<Life>)
    requires Matched(s.client, s.server, mate)
    ensures |r| == |s.client| && forall i :: 0 <= i < |r| ==> r[i] == LifeOf(s, mate, i)
  {
    seq(|s.client|, i requires 0 <= i < |s.client| => LifeOf(s, mate, i))
  }

  /** What a side thinks of its halves, at the start. */
  function States(opts: seq<Half>): (r: seq<Status>)
    ensures |r| == |opts| && forall i :: 0 <= i < |r| ==> r[i] == opts[i].state
  {
    seq(|opts|, i requires 0 <= i < |opts| => opts[i].state)
  }

  predicate NoneActive(states: seq<Status>) { forall i :: 0 <= i < |states| ==> states[i] != ACTIVE }

  predicate AllConsistent(opts: seq<Half>) { forall i :: 0 <= i < |opts| ==> Consistent(opts[i]) }

  /** Every message under way is about one of the halves. */
  ghost predicate OnlyUp(client: seq<Half>, up: seq<Message>) {
    forall m :: m in up ==> exists i, yes :: 0 <= i < |client| && Up(client[i], yes) == m
  }

  ghost predicate OnlyDown(client: seq<Half>, down: seq<Message>) {
    forall m :: m in down ==> exists i, yes :: 0 <= i < |client| && Down(client[i], yes) == m
  }

  ghost predicate AllPossible(s: System, mate: seq<nat>, byClient: seq<Status>, byServer: seq<Status>)
    requires Matched(s.client, s.server, mate) && |byClient| == |s.client| && |byServer| == |s.server|
  {
    forall i :: 0 <= i < |s.client| ==> Possible(LifeOf(s, mate, i), byClient[i], byServer[mate[i]])
  }

  ghost predicate Invariant(s: System, mate: seq<nat>, byClient: seq<Status>, byServer: seq<Status>) {
    && Matched(s.client, s.server, mate)
    && |byClient| == |s.client| && |byServer| == |s.server|
    && s.next <= |s.client| && (forall i :: i in s.skipped ==> i < s.next)
    && AllConsistent(s.client) && AllConsistent(s.server)
    && NoneActive(byClient) && NoneActive(byServer) && AllPossible(s, mate, byClient, byServer)
    && OnlyUp(s.client, s.up) && OnlyDown(s.client, s.down)
  }

  /** What never changes in an option. */
  predicate SameHalf(o: Half, p: Half) {
    o.option == p.option && o.sendYes == p.sendYes && o.sendNo == p.sendNo && o.ackYes == p.ackYes && o.ackNo == p.ackNo
  }

  predicate SameHalves(o: seq<Half>, p: seq<Half>) {
    |o| == |p| && forall i :: 0 <= i < |o| ==> SameHalf(o[i], p[i])
  }

  lemma StaysMatched(c: seq<Half>, s: seq<Half>, c': seq<Half>, s': seq<Half>, mate: seq<nat>)
    requires Matched(c, s, mate) && SameHalves(c, c') && SameHalves(s, s')
    ensures Matched(c', s', mate)
  {
    forall i | 0 <= i < |mate| ensures mate[i] < |s'| && Mirrors(c'[i], s'[mate[i]]) {
      assert Mirrors(c[i], s[mate[i]]) && SameHalf(c[i], c'[i]) && SameHalf(s[mate[i]], s'[mate[i]]);
    }
    forall i, j | 0 <= i < j < |c'| ensures c'[i].option != c'[j].option || c'[i].sendYes != c'[j].sendYes {
      assert SameHalf(c[i], c'[i]) && SameHalf(c[j], c'[j]);
    }
  }

  lemma StaysUp(c: seq<Half>, c': seq<Half>, up: seq<Message>, up': seq<Message>)
    requires SameHalves(c, c') && OnlyUp(c, up)
    requires forall m :: m in up' ==> m in up || exists j, yes :: 0 <= j < |c| && m == Up(c[j], yes)
    ensures OnlyUp(c', up')
  {
    forall m | m in up' ensures exists i, yes :: 0 <= i < |c'| && Up(c'[i], yes) == m {
      var i, yes :| 0 <= i < |c| && Up(c[i], yes) == m;
      assert SameHalf(c[i], c'[i]) && Up(c'[i], yes) == m;
    }
  }

  lemma StaysDown(c: seq<Half>, c': seq<Half>, down: seq<Message>, down': seq<Message>)
    requires SameHalves(c, c') && OnlyDown(c, down)
    requires forall m :: m in down' ==> m in down || exists j, yes :: 0 <= j < |c| && m == Down(c[j], yes)
    ensures OnlyDown(c', down')
  {
    forall m | m in down' ensures exists i, yes :: 0 <= i < |c'| && Down(c'[i], yes) == m {
      var i, yes :| 0 <= i < |c| && Down(c[i], yes) == m;
      assert SameHalf(c[i], c'[i]) && Down(c'[i], yes) == m;
    }
  }

  /** No option of the table but number k understands the message. */
  ghost predicate MeantFor(opts: seq<Half>, m: Message, k: nat) {
    k < |opts| && Concerns(opts[k], m) && forall q :: 0 <= q < |opts| && q != k ==> !Concerns(opts[q], m)
  }

  /** Only the option that a message is meant for reacts to it. */
  lemma OnlyOne(opts: seq<Half>, m: Message, k: nat)
    requires MeantFor(opts, m, k)
    ensures Negotiated(opts, m) == opts[k := Process(opts[k], m.command)]
    ensures Answers(opts, m) == Reply(opts[k], m.command)
  {
    RepliesOf(opts, m, k, |opts|);
    assert opts[..|opts|] == opts;
    assert Known(opts, m.option);
  }

  lemma {:induction false} RepliesOf(opts: seq<Half>, m: Message, k: nat, n: nat)
    requires MeantFor(opts, m, k) && n <= |opts|
    ensures Replies(opts[..n], m) == if k < n then Reply(opts[k], m.command) else []
  {
    if n > 0 {
      RepliesOf(opts, m, k, n - 1);
      assert opts[..n][..n - 1] == opts[..n - 1];
    }
  }

  lemma MeantForMate(s: System, mate: seq<nat>, j: nat, yes: bool)
    requires Matched(s.client, s.server, mate) && j < |s.client|
    ensures MeantFor(s.server, Up(s.client[j], yes), mate[j])
  {
    var m, k := Up(s.client[j], yes), mate[j];
    assert Mirrors(s.client[j], s.server[k]);
    forall q | 0 <= q < |s.server| && q != k ensures !Concerns(s.server[q], m) {
      assert q in mate;
      var i :| 0 <= i < |mate| && mate[i] == q;
      assert Mirrors(s.client[i], s.server[q]) && i != j;
    }
  }

  lemma OnlyMate(s: System, mate: seq<nat>, j: nat, yes: bool)
    requires Matched(s.client, s.server, mate) && j < |s.client|
    ensures var m, k := Up(s.client[j], yes), mate[j];
      && Negotiated(s.server, m) == s.server[k := Process(s.server[k], m.command)]
      && Answers(s.server, m) == Reply(s.server[k], m.command)
  {
    MeantForMate(s, mate, j, yes);
    OnlyOne(s.server, Up(s.client[j], yes), mate[j]);
  }

  lemma MeantForClient(s: System, mate: seq<nat>, j: nat, yes: bool)
    requires Matched(s.client, s.server, mate) && j < |s.client|
    ensures MeantFor(s.client, Down(s.client[j], yes), j)
  {
    var m := Down(s.client[j], yes);
    assert Mirrors(s.client[j], s.server[mate[j]]);
    forall q | 0 <= q < |s.client| && q != j ensures !Concerns(s.client[q], m) {
      assert Mirrors(s.client[q], s.server[mate[q]]);
    }
  }

  lemma OnlyClient(s: System, mate: seq<nat>, j: nat, yes: bool)
    requires Matched(s.client, s.server, mate) && j < |s.client|
    ensures var m := Down(s.client[j], yes);
      && Negotiated(s.client, m) == s.client[j := Process(s.client[j], m.command)]
      && Answers(s.client, m) == Reply(s.client[j], m.command)
  {
    MeantForClient(s, mate, j, yes);
    OnlyOne(s.client, Down(s.client[j], yes), j);
  }

  /** Messages about different halves are different, and so are request and refusal. */
  lemma Distinct(s: System, mate: seq<nat>, i: nat, j: nat)
    requires Matched(s.client, s.server, mate) && i < |s.client| && j < |s.client|
    ensures i != j ==> forall a, b :: Up(s.client[i], a) != Up(s.client[j], b)
    ensures i != j ==> forall a, b :: Down(s.client[i], a) != Down(s.client[j], b)
    ensures Up(s.client[i], true) != Up(s.client[i], false) && Down(s.client[i], true) != Down(s.client[i], false)
  {
    assert Mirrors(s.client[i], s.server[mate[i]]) && Mirrors(s.client[j], s.server[mate[j]]);
  }

  /** What a delivery and the reply to it leave of a message. */
  lemma Counts(ch: seq<Message>, other: seq<Message>, reply: seq<Message>, m: Message)
    requires ch != [] && (reply == [] || |reply| == 1)
    ensures multiset(ch[1..])[m] == multiset(ch)[m] - (if m == ch[0] then 1 else 0)
    ensures multiset(other + reply)[m] == multiset(other)[m] + (if reply == [m] then 1 else 0)
    ensures multiset(ch)[ch[0]] > 0
  {
    HeadAndTail(ch, []);
    assert ch[1..] + [] == ch[1..];
    if reply != [] { assert reply == [reply[0]]; }
  }

  lemma HeadAndTail(ch: seq<Message>, more: seq<Message>)
    requires ch != []
    ensures multiset(ch[1..] + more) == multiset(ch) - multiset{ch[0]} + multiset(more)
    ensures ch[0] in multiset(ch)
  {
    assert ch == [ch[0]] + ch[1..];
  }

  lemma UpEffect(s: System, mate: seq<nat>, j: nat, yes: bool)
    requires Matched(s.client, s.server, mate) && j < |s.client|
    ensures var m, o := Up(s.client[j], yes), s.server[mate[j]];
      && Reply(o, m.command) == (if yes && o.state == INACTIVE then [Down(s.client[j], true)]
                                 else if o.state == (if yes then REALLY_INACTIVE else ACTIVE)
                                   then [Down(s.client[j], false)]
                                 else [])
      && Process(o, m.command).state == (if yes && (o.state == REQUESTED || o.state == INACTIVE) then ACTIVE
                                         else if !yes && (o.state == REQUESTED || o.state == ACTIVE) then INACTIVE
                                         else o.state)
  {
    assert Mirrors(s.client[j], s.server[mate[j]]);
  }

  lemma UpCounts(s: System, mate: seq<nat>, j: nat, yes: bool, i: nat, b: bool)
    requires Matched(s.client, s.server, mate) && j < |s.client| && i < |s.client|
    requires s.up != [] && s.up[0] == Up(s.client[j], yes)
    ensures var c, reply := s.client[i], Reply(s.server[mate[j]], s.up[0].command);
      && multiset(s.up)[s.up[0]] > 0
      && multiset(s.up[1..])[Up(c, b)] == multiset(s.up)[Up(c, b)] - (if i == j && b == yes then 1 else 0)
      && multiset(s.down + reply)[Down(c, b)]
         == multiset(s.down)[Down(c, b)] + (if i == j && reply == [Down(s.client[j], b)] then 1 else 0)
  {
    var c, reply := s.client[i], Reply(s.server[mate[j]], s.up[0].command);
    UpEffect(s, mate, j, yes);
    Distinct(s, mate, i, j);
    Counts(s.up, s.down, reply, Up(c, b));
    Counts(s.up, s.down, reply, Down(c, b));
  }

  lemma UpLife(s: System, t: System, mate: seq<nat>, j: nat, yes: bool, i: nat)
    requires Matched(s.client, s.server, mate) && j < |s.client| && i < |s.client|
    requires s.up != [] && s.up[0] == Up(s.client[j], yes)
    requires t == System(s.client, s.server[mate[j] := Process(s.server[mate[j]], s.up[0].command)], s.up[1..],
                         s.down + Reply(s.server[mate[j]], s.up[0].command), s.next, s.skipped)
    ensures if yes then LifeOf(s, mate, j).up > 0 else LifeOf(s, mate, j).upNo > 0
    ensures LifeOf(t, mate, i) == if i == j then AfterUp(LifeOf(s, mate, i), yes) else LifeOf(s, mate, i)
  {
    UpEffect(s, mate, j, yes);
    UpCounts(s, mate, j, yes, i, true);
    UpCounts(s, mate, j, yes, i, false);
  }

  lemma UpShape(s: System, mate: seq<nat>, byClient: seq<Status>, byServer: seq<Status>)
    returns (j: nat, yes: bool, t: System)
    requires Invariant(s, mate, byClient, byServer) && s.up != []
    ensures j < |s.client| && s.up[0] == Up(s.client[j], yes)
    ensures t == Do(s, DeliverUp, byClient)
    ensures t == System(s.client, s.server[mate[j] := Process(s.server[mate[j]], s.up[0].command)], s.up[1..],
                        s.down + Reply(s.server[mate[j]], s.up[0].command), s.next, s.skipped)
  {
    assert s.up[0] in s.up;
    j, yes :| 0 <= j < |s.client| && Up(s.client[j], yes) == s.up[0];
    OnlyMate(s, mate, j, yes);
    t := Do(s, DeliverUp, byClient);
  }

  lemma ProcessedStays(opts: seq<Half>, k: nat, command: Byte)
    requires k < |opts| && AllConsistent(opts)
    ensures SameHalves(opts, opts[k := Process(opts[k], command)])
    ensures AllConsistent(opts[k := Process(opts[k], command)])
  {
  }

  lemma TailAndReply(ch: seq<Message>, reply: seq<Message>, yes: Message, no: Message)
    requires reply == [] || reply == [yes] || reply == [no]
    ensures forall x :: x in ch + reply ==> x in ch || x == yes || x == no
  {
  }

  lemma UpStep(s: System, mate: seq<nat>, byClient: seq<Status>, byServer: seq<Status>) returns (j: nat, x: Life)
    requires Invariant(s, mate, byClient, byServer) && s.up != []
    ensures var t := Do(s, DeliverUp, byClient);
      && j < |s.client| && (exists yes :: s.up[0] == Up(s.client[j], yes))
      && Invariant(t, mate, byClient, byServer)
      && Lives(t, mate) == Lives(s, mate)[j := x]
    ensures Deliveries(x) < Deliveries(LifeOf(s, mate, j)) && x.passed == LifeOf(s, mate, j).passed
  {
    var yes, t;
    j, yes, t := UpShape(s, mate, byClient, byServer);
    ProcessedStays(s.server, mate[j], s.up[0].command);
    UpEffect(s, mate, j, yes);
    TailAndReply(s.down, Reply(s.server[mate[j]], s.up[0].command), Down(s.client[j], true), Down(s.client[j], false));
    assert SameHalves(s.client, t.client);
    StaysMatched(s.client, s.server, t.client, t.server, mate);
    StaysUp(s.client, t.client, s.up, t.up);
    StaysDown(s.client, t.client, s.down, t.down);
    UpLife(s, t, mate, j, yes, j);
    x := AfterUp(LifeOf(s, mate, j), yes);
    LifeUp(LifeOf(s, mate, j), yes, byClient[j], byServer[mate[j]]);
    forall i | 0 <= i < |s.client| ensures LifeOf(t, mate, i) == if i == j then x else LifeOf(s, mate, i) {
      UpLife(s, t, mate, j, yes, i);
    }
    Rebuild(s, t, mate, byClient, byServer, j, x);
  }

  /** A move that changed the life of one half only, and kept that possible. */
  lemma Rebuild(s: System, t: System, mate: seq<nat>, byClient: seq<Status>, byServer: seq<Status>, j: nat, x: Life)
    requires Invariant(s, mate, byClient, byServer) && j < |s.client|
    requires |t.client| == |s.client| && Matched(t.client, t.server, mate)
    requires AllConsistent(t.client) && AllConsistent(t.server)
    requires OnlyUp(t.client, t.up) && OnlyDown(t.client, t.down)
    requires t.next <= |s.client| && (forall i :: i in t.skipped ==> i < t.next)
    requires Possible(x, byClient[j], byServer[mate[j]])
    requires forall i :: 0 <= i < |s.client| ==> LifeOf(t, mate, i) == if i == j then x else LifeOf(s, mate, i)
    ensures Invariant(t, mate, byClient, byServer)
    ensures Lives(t, mate) == Lives(s, mate)[j := x]
  {
  }

  lemma DownEffect(s: System, mate: seq<nat>, j: nat, yes: bool)
    requires Matched(s.client, s.server, mate) && j < |s.client|
    ensures var m, o := Down(s.client[j], yes), s.client[j];
      && Reply(o, m.command) == (if yes && o.state == INACTIVE then [Up(o, true)]
                                 else if o.state == (if yes then REALLY_INACTIVE else ACTIVE) then [Up(o, false)]
                                 else [])
      && Process(o, m.command).state == (if yes && (o.state == REQUESTED || o.state == INACTIVE) then ACTIVE
                                         else if !yes && (o.state == REQUESTED || o.state == ACTIVE) then INACTIVE
                                         else o.state)
  {
    assert Mirrors(s.client[j], s.server[mate[j]]);
  }

  lemma DownCounts(s: System, mate: seq<nat>, j: nat, yes: bool, i: nat, b: bool)
    requires Matched(s.client, s.server, mate) && j < |s.client| && i < |s.client|
    requires s.down != [] && s.down[0] == Down(s.client[j], yes)
    ensures var c, reply := s.client[i], Reply(s.client[j], s.down[0].command);
      && multiset(s.down)[s.down[0]] > 0
      && multiset(s.down[1..])[Down(c, b)] == multiset(s.down)[Down(c, b)] - (if i == j && b == yes then 1 else 0)
      && multiset(s.up + reply)[Up(c, b)]
         == multiset(s.up)[Up(c, b)] + (if i == j && reply == [Up(s.client[j], b)] then 1 else 0)
  {
    var c, reply := s.client[i], Reply(s.client[j], s.down[0].command);
    DownEffect(s, mate, j, yes);
    Distinct(s, mate, i, j);
    Counts(s.down, s.up, reply, Down(c, b));
    Counts(s.down, s.up, reply, Up(c, b));
  }

  lemma DownLife(s: System, t: System, mate: seq<nat>, j: nat, yes: bool, i: nat)
    requires Matched(s.client, s.server, mate) && j < |s.client| && i < |s.client|
    requires s.down != [] && s.down[0] == Down(s.client[j], yes)
    requires t == System(s.client[j := Process(s.client[j], s.down[0].command)], s.server,
                         s.up + Reply(s.client[j], s.down[0].command), s.down[1..], s.next, s.skipped)
    ensures if yes then LifeOf(s, mate, j).down > 0 else LifeOf(s, mate, j).downNo > 0
    ensures LifeOf(t, mate, i) == if i == j then AfterDown(LifeOf(s, mate, i), yes) else LifeOf(s, mate, i)
  {
    DownEffect(s, mate, j, yes);
    DownCounts(s, mate, j, yes, i, true);
    DownCounts(s, mate, j, yes, i, false);
  }

  lemma DownShape(s: System, mate: seq<nat>, byClient: seq<Status>, byServer: seq<Status>)
    returns (j: nat, yes: bool, t: System)
    requires Invariant(s, mate, byClient, byServer) && s.down != []
    ensures j < |s.client| && s.down[0] == Down(s.client[j], yes)
    ensures t == Do(s, DeliverDown, byClient)
    ensures t == System(s.client[j := Process(s.client[j], s.down[0].command)], s.server,
                        s.up + Reply(s.client[j], s.down[0].command), s.down[1..], s.next, s.skipped)
  {
    assert s.down[0] in s.down;
    j, yes :| 0 <= j < |s.client| && Down(s.client[j], yes) == s.down[0];
    OnlyClient(s, mate, j, yes);
    t := Do(s, DeliverDown, byClient);
  }

  lemma DownStep(s: System, mate: seq<nat>, byClient: seq<Status>, byServer: seq<Status>) returns (j: nat, x: Life)
    requires Invariant(s, mate, byClient, byServer) && s.down != []
    ensures var t := Do(s, DeliverDown, byClient);
      && j < |s.client| && (exists yes :: s.down[0] == Down(s.client[j], yes))
      && Invariant(t, mate, byClient, byServer)
      && Lives(t, mate) == Lives(s, mate)[j := x]
    ensures Deliveries(x) < Deliveries(LifeOf(s, mate, j)) && x.passed == LifeOf(s, mate, j).passed
  {
    var yes, t;
    j, yes, t := DownShape(s, mate, byClient, byServer);
    ProcessedStays(s.client, j, s.down[0].command);
    DownEffect(s, mate, j, yes);
    TailAndReply(s.up, Reply(s.client[j], s.down[0].command), Up(s.client[j], true), Up(s.client[j], false));
    assert SameHalves(s.server, t.server);
    StaysMatched(s.client, s.server, t.client, t.server, mate);
    StaysUp(s.client, t.client, s.up, t.up);
    StaysDown(s.client, t.client, s.down, t.down);
    DownLife(s, t, mate, j, yes, j);
    x := AfterDown(LifeOf(s, mate, j), yes);
    LifeDown(LifeOf(s, mate, j), yes, byClient[j], byServer[mate[j]]);
    forall i | 0 <= i < |s.client| ensures LifeOf(t, mate, i) == if i == j then x else LifeOf(s, mate, i) {
      DownLife(s, t, mate, j, yes, i);
    }
    Rebuild(s, t, mate, byClient, byServer, j, x);
  }

  lemma SendLife(s: System, t: System, mate: seq<nat>, byClient: seq<Status>, i: nat)
    requires Matched(s.client, s.server, mate) && |byClient| == |s.client| && s.next < |s.client| && i < |s.client|
    requires t == Do(s, Send, byClient)
    ensures LifeOf(t, mate, i) == if i == s.next then AfterSend(LifeOf(s, mate, i), byClient[i]) else LifeOf(s, mate, i)
  {
    Distinct(s, mate, i, s.next);
  }

  lemma SendStep(s: System, mate: seq<nat>, byClient: seq<Status>, byServer: seq<Status>)
    requires Invariant(s, mate, byClient, byServer) && s.next < |s.client|
    ensures var t := Do(s, Send, byClient);
      && Invariant(t, mate, byClient, byServer)
      && Lives(t, mate) == Lives(s, mate)[s.next := AfterSend(LifeOf(s, mate, s.next), byClient[s.next])]
  {
    var j, t := s.next, Do(s, Send, byClient);
    assert s.client[j].state == REQUESTED ==> t.up == s.up + [Up(s.client[j], true)];
    StaysUp(s.client, t.client, s.up, t.up);
    var x := AfterSend(LifeOf(s, mate, j), byClient[j]);
    LifeGoesOn(LifeOf(s, mate, j), byClient[j], byServer[mate[j]]);
    forall i | 0 <= i < |s.client| ensures LifeOf(t, mate, i) == if i == j then x else LifeOf(s, mate, i) {
      SendLife(s, t, mate, byClient, i);
    }
    Rebuild(s, t, mate, byClient, byServer, j, x);
  }

  // ----- the start

  lemma {:induction false} RequestCount(opts: seq<Half>, n: nat, k: nat)
    requires n <= |opts| && k < |opts|
    requires forall q :: 0 <= q < |opts| && q != k ==>
      opts[q].option != opts[k].option || opts[q].sendYes != opts[k].sendYes
    ensures multiset(Requests(opts[..n]))[Message(opts[k].sendYes, opts[k].option)]
         == if k < n && opts[k].state == REQUESTED then 1 else 0
  {
    if n > 0 {
      RequestCount(opts, n - 1, k);
      assert opts[..n][..n - 1] == opts[..n - 1];
    }
  }

  lemma {:induction false} RequestOf(opts: seq<Half>, m: Message)
    requires m in Requests(opts)
    ensures exists k :: 0 <= k < |opts| && m == Message(opts[k].sendYes, opts[k].option)
  {
    var n := |opts| - 1;
    if m in Requests(opts[..n]) {
      RequestOf(opts[..n], m);
      var k :| 0 <= k < n && m == Message(opts[..n][k].sendYes, opts[..n][k].option);
      assert m == Message(opts[k].sendYes, opts[k].option);
    } else {
      assert m == Message(opts[n].sendYes, opts[n].option);
    }
  }

  lemma NoRefusalYet(client: seq<Half>, server: seq<Half>, mate: seq<nat>, i: nat)
    requires Matched(client, server, mate) && i < |client|
    ensures Down(client[i], false) !in Requests(server)
  {
    assert Mirrors(client[i], server[mate[i]]);
    forall m | m in Requests(server) ensures m.command == WILL || m.command == DO {
      RequestOf(server, m);
      var k :| 0 <= k < |server| && m == Message(server[k].sendYes, server[k].option);
      assert k in mate;
      var j :| 0 <= j < |mate| && mate[j] == k;
      assert Mirrors(client[j], server[k]);
    }
  }

  lemma StartLife(client: seq<Half>, server: seq<Half>, mate: seq<nat>, i: nat)
    requires Matched(client, server, mate) && i < |client|
    ensures LifeOf(Start(client, server), mate, i)
         == Life(client[i].state, server[mate[i]].state,
                 0, 0, if server[mate[i]].state == REQUESTED then 1 else 0, 0, false, false)
  {
    var k := mate[i];
    forall q | 0 <= q < |server| && q != k
      ensures server[q].option != server[k].option || server[q].sendYes != server[k].sendYes
    {
      assert q in mate;
      var j :| 0 <= j < |mate| && mate[j] == q;
      Distinct(Start(client, server), mate, i, j);
      assert Mirrors(client[j], server[q]) && Mirrors(client[i], server[k]);
    }
    assert server[..|server|] == server;
    RequestCount(server, |server|, k);
    NoRefusalYet(client, server, mate, i);
    assert Mirrors(client[i], server[k]);
  }

  lemma StartsInvariant(client: seq<Half>, server: seq<Half>, mate: seq<nat>)
    requires Matched(client, server, mate) && Initial(client) && Initial(server)
    ensures Invariant(Start(client, server), mate, States(client), States(server))
  {
    var s := Start(client, server);
    forall i | 0 <= i < |client|
      ensures Possible(LifeOf(s, mate, i), States(client)[i], States(server)[mate[i]])
    {
      StartLife(client, server, mate, i);
    }
    forall m | m in s.down ensures exists i, yes :: 0 <= i < |client| && Down(client[i], yes) == m {
      RequestOf(server, m);
      var k :| 0 <= k < |server| && m == Message(server[k].sendYes, server[k].option);
      assert k in mate;
      var i :| 0 <= i < |mate| && mate[i] == k;
      assert Mirrors(client[i], server[k]);
      assert Down(client[i], true) == m;
    }
  }

  // ----- whole runs

  function Weight(lives: seq<Life>): nat {
    if lives == [] then 0
    else Weight(lives[..|lives| - 1]) + Deliveries(lives[|lives| - 1]) + (if lives[|lives| - 1].passed then 0 else 1)
  }

  lemma {:induction false} WeightUpdate(lives: seq<Life>, j: nat, x: Life)
    requires j < |lives|
    ensures Weight(lives[j := x]) == Weight(lives)
      - Deliveries(lives[j]) - (if lives[j].passed then 0 else 1) + Deliveries(x) + (if x.passed then 0 else 1)
    decreases |lives|
  {
    var n := |lives| - 1;
    if j == n {
      assert lives[j := x][..n] == lives[..n];
    } else {
      assert lives[j := x][..n] == lives[..n][j := x];
      WeightUpdate(lives[..n], j, x);
    }
  }

  lemma {:induction false} WeightBound(lives: seq<Life>)
    requires forall i :: 0 <= i < |lives| ==> Deliveries(lives[i]) <= 2
    ensures Weight(lives) <= 3 * |lives|
  {
    if lives != [] { WeightBound(lives[..|lives| - 1]); }
  }

  /** The move delivers a message about half i. */
  ghost predicate About(s: System, m: Move, i: nat)
    requires Enabled(s, m) && i < |s.client|
  {
    exists yes :: (m == DeliverUp && s.up[0] == Up(s.client[i], yes))
               || (m == DeliverDown && s.down[0] == Down(s.client[i], yes))
  }

  /** How many messages about half i are delivered in a run. */
  ghost function MessagesAbout(s: System, moves: seq<Move>, byClient: seq<Status>, i: nat): nat
    decreases moves
  {
    if moves == [] || |byClient| != |s.client| || !Enabled(s, moves[0]) || i >= |s.client| then 0
    else (if About(s, moves[0], i) then 1 else 0) + MessagesAbout(Do(s, moves[0], byClient), moves[1..], byClient, i)
  }

  /** A move affects one half, and uses up one of its deliveries if it is one. */
  lemma MoveAffects(s: System, m: Move, mate: seq<nat>, byClient: seq<Status>, byServer: seq<Status>)
    returns (j: nat, x: Life)
    requires Invariant(s, mate, byClient, byServer) && Enabled(s, m)
    ensures var t := Do(s, m, byClient);
      && j < |s.client| && Invariant(t, mate, byClient, byServer)
      && Lives(t, mate) == Lives(s, mate)[j := x]
      && Deliveries(x) + (if m == Send then 0 else 1) <= Deliveries(LifeOf(s, mate, j))
      && (m == Send ==> x.passed && !LifeOf(s, mate, j).passed)
      && (m != Send ==> x.passed == LifeOf(s, mate, j).passed)
      && (forall i :: 0 <= i < |s.client| && i != j ==> !About(s, m, i))
  {
    match m {
      case Send => j, x := SendAffects(s, mate, byClient, byServer);
      case DeliverUp => j, x := UpAffects(s, mate, byClient, byServer);
      case DeliverDown => j, x := DownAffects(s, mate, byClient, byServer);
    }
  }

  lemma SendAffects(s: System, mate: seq<nat>, byClient: seq<Status>, byServer: seq<Status>) returns (j: nat, x: Life)
    requires Invariant(s, mate, byClient, byServer) && Enabled(s, Send)
    ensures j == s.next && Invariant(Do(s, Send, byClient), mate, byClient, byServer)
    ensures Lives(Do(s, Send, byClient), mate) == Lives(s, mate)[j := x]
    ensures Deliveries(x) <= Deliveries(LifeOf(s, mate, j)) && x.passed && !LifeOf(s, mate, j).passed
  {
    j := s.next;
    x := AfterSend(LifeOf(s, mate, j), byClient[j]);
    SendStep(s, mate, byClient, byServer);
    LifeGoesOn(LifeOf(s, mate, j), byClient[j], byServer[mate[j]]);
  }

  lemma NotAbout(s: System, m: Move, mate: seq<nat>, j: nat, yes: bool, i: nat)
    requires Matched(s.client, s.server, mate) && j < |s.client| && i < |s.client| && i != j
    requires Enabled(s, m) && m != Send
    requires if m == DeliverUp then s.up[0] == Up(s.client[j], yes) else s.down[0] == Down(s.client[j], yes)
    ensures !About(s, m, i)
  {
    Distinct(s, mate, i, j);
  }

  lemma UpAffects(s: System, mate: seq<nat>, byClient: seq<Status>, byServer: seq<Status>) returns (j: nat, x: Life)
    requires Invariant(s, mate, byClient, byServer) && Enabled(s, DeliverUp)
    ensures j < |s.client| && Invariant(Do(s, DeliverUp, byClient), mate, byClient, byServer)
    ensures Lives(Do(s, DeliverUp, byClient), mate) == Lives(s, mate)[j := x]
    ensures Deliveries(x) < Deliveries(LifeOf(s, mate, j)) && x.passed == LifeOf(s, mate, j).passed
    ensures forall i :: 0 <= i < |s.client| && i != j ==> !About(s, DeliverUp, i)
  {
    j, x := UpStep(s, mate, byClient, byServer);
    var yes :| s.up[0] == Up(s.client[j], yes);
    forall i | 0 <= i < |s.client| && i != j ensures !About(s, DeliverUp, i) {
      NotAbout(s, DeliverUp, mate, j, yes, i);
    }
  }

  lemma DownAffects(s: System, mate: seq<nat>, byClient: seq<Status>, byServer: seq<Status>) returns (j: nat, x: Life)
    requires Invariant(s, mate, byClient, byServer) && Enabled(s, DeliverDown)
    ensures j < |s.client| && Invariant(Do(s, DeliverDown, byClient), mate, byClient, byServer)
    ensures Lives(Do(s, DeliverDown, byClient), mate) == Lives(s, mate)[j := x]
    ensures Deliveries(x) < Deliveries(LifeOf(s, mate, j)) && x.passed == LifeOf(s, mate, j).passed
    ensures forall i :: 0 <= i < |s.client| && i != j ==> !About(s, DeliverDown, i)
  {
    j, x := DownStep(s, mate, byClient, byServer);
    var yes :| s.down[0] == Down(s.client[j], yes);
    forall i | 0 <= i < |s.client| && i != j ensures !About(s, DeliverDown, i) {
      NotAbout(s, DeliverDown, mate, j, yes, i);
    }
  }

  lemma MoveKeeps(s: System, m: Move, mate: seq<nat>, byClient: seq<Status>, byServer: seq<Status>)
    requires Invariant(s, mate, byClient, byServer) && Enabled(s, m)
    ensures var t := Do(s, m, byClient);
      && Invariant(t, mate, byClient, byServer)
      && Weight(Lives(t, mate)) < Weight(Lives(s, mate))
      && forall i :: 0 <= i < |s.client| ==>
           Deliveries(LifeOf(t, mate, i)) + (if About(s, m, i) then 1 else 0) <= Deliveries(LifeOf(s, mate, i))
  {
    var t := Do(s, m, byClient);
    var j, x := MoveAffects(s, m, mate, byClient, byServer);
    WeightUpdate(Lives(s, mate), j, x);
    forall i | 0 <= i < |s.client|
      ensures Deliveries(LifeOf(t, mate, i)) + (if About(s, m, i) then 1 else 0) <= Deliveries(LifeOf(s, mate, i))
    {
      assert Lives(t, mate)[i] == if i == j then x else Lives(s, mate)[i];
    }
  }

  lemma MoveInvariant(s: System, m: Move, mate: seq<nat>, byClient: seq<Status>, byServer: seq<Status>)
    requires Invariant(s, mate, byClient, byServer) && Enabled(s, m)
    ensures Invariant(Do(s, m, byClient), mate, byClient, byServer) && |Do(s, m, byClient).client| == |s.client|
  {
    var j, x := MoveAffects(s, m, mate, byClient, byServer);
  }

  lemma {:induction false} RunKeeps(s: System, moves: seq<Move>, t: System, mate: seq<nat>, byClient: seq<Status>,
                                    byServer: seq<Status>)
    requires Invariant(s, mate, byClient, byServer) && Leads(s, moves, byClient, t)
    ensures Invariant(t, mate, byClient, byServer)
    ensures |moves| <= Weight(Lives(s, mate))
    ensures forall i :: 0 <= i < |s.client| ==>
      MessagesAbout(s, moves, byClient, i) <= Deliveries(LifeOf(s, mate, i))
    decreases moves
  {
    if moves != [] {
      MoveKeeps(s, moves[0], mate, byClient, byServer);
      RunKeeps(Do(s, moves[0], byClient), moves[1..], t, mate, byClient, byServer);
    }
  }

  /** Whatever the order of the moves: every run is over after at most three moves for each half,
      with at most two messages about it. */
  lemma Quiesces(client: seq<Half>, server: seq<Half>, mate: seq<nat>, moves: seq<Move>, t: System)
    requires Matched(client, server, mate) && Initial(client) && Initial(server)
    requires Leads(Start(client, server), moves, States(client), t)
    ensures |moves| <= 3 * |client|
    ensures forall i :: 0 <= i < |client| ==> MessagesAbout(Start(client, server), moves, States(client), i) <= 2
    ensures Quiescent(t) || exists m :: Enabled(t, m)
  {
    StartsInvariant(client, server, mate);
    var s := Start(client, server);
    forall i | 0 <= i < |client| ensures Deliveries(Lives(s, mate)[i]) <= 2 {
      LifeGoesOn(LifeOf(s, mate, i), States(client)[i], States(server)[mate[i]]);
    }
    WeightBound(Lives(s, mate));
    RunKeeps(s, moves, t, mate, States(client), States(server));
    if !Quiescent(t) {
      if t.next < |t.client| { assert Enabled(t, Send); }
      else if t.up != [] { assert Enabled(t, DeliverUp); }
      else { assert Enabled(t, DeliverDown); }
    }
  }

  // ----- which halves the start-up loop skips, read off the order of the moves

  /** The message at place `p` of the channel to the client is delivered before the client's loop
      has made `n` more turns. */
  predicate Overtakes(moves: seq<Move>, p: nat, n: nat)
    decreases moves
  {
    moves != [] &&
    match moves[0]
    case Send => n > 0 && Overtakes(moves[1..], p, n - 1)
    case DeliverDown => p == 0 || Overtakes(moves[1..], p - 1, n)
    case DeliverUp => Overtakes(moves[1..], p, n)
  }

  /** Where the server's request about its option k stands in the channel at the start. */
  function Place(server: seq<Half>, k: nat): nat
    requires k <= |server|
  {
    |Requests(server[..k])|
  }

  /** Both sides want half i, and the server's request reaches the client before the loop does. */
  predicate Overtaken(client: seq<Half>, server: seq<Half>, mate: seq<nat>, moves: seq<Move>, i: nat)
    requires Matched(client, server, mate) && i < |client|
  {
    && client[i].state == REQUESTED && server[mate[i]].state == REQUESTED
    && Overtakes(moves, Place(server, mate[i]), i)
  }

  /** The loop has passed half i: whether it skipped it does not change any more. */
  lemma {:induction false} PassedStays(s: System, moves: seq<Move>, wanted: seq<Status>, t: System, i: nat)
    requires Leads(s, moves, wanted, t) && i < s.next
    ensures i in t.skipped <==> i in s.skipped
    decreases moves
  {
    if moves != [] { PassedStays(Do(s, moves[0], wanted), moves[1..], wanted, t, i); }
  }

  /** A half that the server's request has activated is skipped when the loop comes to it. */
  lemma {:induction false} ActivatedIsSkipped(s: System, moves: seq<Move>, t: System, mate: seq<nat>,
                                              byClient: seq<Status>, byServer: seq<Status>, i: nat)
    requires Invariant(s, mate, byClient, byServer) && Leads(s, moves, byClient, t) && Quiescent(t)
    requires s.next <= i < |s.client| && s.client[i].state == ACTIVE && byClient[i] == byServer[mate[i]] == REQUESTED
    ensures i in t.skipped
    decreases moves
  {
    assert Possible(LifeOf(s, mate, i), byClient[i], byServer[mate[i]]);
    if moves != [] {
      var s' := Do(s, moves[0], byClient);
      MoveInvariant(s, moves[0], mate, byClient, byServer);
      if moves[0] == Send && s.next == i {
        PassedStays(s', moves[1..], byClient, t, i);
      } else {
        StaysActive(s, moves[0], mate, byClient, byServer, i);
        ActivatedIsSkipped(s', moves[1..], t, mate, byClient, byServer, i);
      }
    }
  }

  lemma StaysActive(s: System, m: Move, mate: seq<nat>, byClient: seq<Status>, byServer: seq<Status>, i: nat)
    requires Invariant(s, mate, byClient, byServer) && Enabled(s, m) && i < |s.client| && s.client[i].state == ACTIVE
    ensures |Do(s, m, byClient).client| == |s.client| && Do(s, m, byClient).client[i].state == ACTIVE
  {
    if m == DeliverDown {
      var j, yes, t := DownShape(s, mate, byClient, byServer);
      assert Mirrors(s.client[j], s.server[mate[j]]);
    }
  }

  /** The server's request about half i is under way, at place `p`, and the loop has not come to i. */
  ghost predicate Waits(s: System, mate: seq<nat>, byClient: seq<Status>, byServer: seq<Status>, i: nat, p: nat) {
    && Invariant(s, mate, byClient, byServer)
    && s.next <= i < |s.client| && s.client[i].state == REQUESTED && byClient[i] == byServer[mate[i]] == REQUESTED
    && p < |s.down| && s.down[p] == Down(s.client[i], true)
  }

  /** As long as it is, the order of the moves decides. */
  lemma {:induction false} SkippedIffOvertaken(s: System, moves: seq<Move>, t: System, mate: seq<nat>,
                                               byClient: seq<Status>, byServer: seq<Status>, i: nat, p: nat, n: nat)
    requires Waits(s, mate, byClient, byServer, i, p) && Leads(s, moves, byClient, t) && Quiescent(t)
    requires n == i - s.next
    ensures i in t.skipped <==> Overtakes(moves, p, n)
    decreases moves
  {
    if moves == [] {
      NotYet(s, mate, byClient, byServer, i, p);
    } else if moves[0] == DeliverDown && p == 0 {
      OvertakingDown(s, moves[1..], t, mate, byClient, byServer, i);
    } else if moves[0] == Send && n == 0 {
      SendPasses(s, moves[1..], byClient, t, mate, byServer, i, p);
    } else {
      var p', n' := OvertakesOn(moves, p, n);
      var s' := WaitStep(s, moves, t, mate, byClient, byServer, i, p, p');
      SkippedIffOvertaken(s', moves[1..], t, mate, byClient, byServer, i, p', n');
    }
  }

  lemma NotYet(s: System, mate: seq<nat>, byClient: seq<Status>, byServer: seq<Status>, i: nat, p: nat)
    requires Waits(s, mate, byClient, byServer, i, p)
    ensures !Quiescent(s)
  {
  }

  lemma WaitStep(s: System, moves: seq<Move>, t: System, mate: seq<nat>,
                 byClient: seq<Status>, byServer: seq<Status>, i: nat, p: nat, p': nat) returns (s': System)
    requires Waits(s, mate, byClient, byServer, i, p) && moves != [] && Leads(s, moves, byClient, t)
    requires !(moves[0] == DeliverDown && p == 0) && !(moves[0] == Send && s.next == i)
    requires p' == if moves[0] == DeliverDown then p - 1 else p
    ensures Waits(s', mate, byClient, byServer, i, p') && Leads(s', moves[1..], byClient, t)
    ensures s'.next == if moves[0] == Send then s.next + 1 else s.next
  {
    LeadsOn(s, moves, byClient, t);
    RequestWaits(s, moves[0], mate, byClient, byServer, i, p);
    s' := Do(s, moves[0], byClient);
  }

  lemma LeadsOn(s: System, moves: seq<Move>, wanted: seq<Status>, t: System)
    requires moves != [] && Leads(s, moves, wanted, t)
    ensures |wanted| == |s.client| && Enabled(s, moves[0]) && Leads(Do(s, moves[0], wanted), moves[1..], wanted, t)
    ensures Do(s, moves[0], wanted).next == if moves[0] == Send then s.next + 1 else s.next
  {
  }

  lemma OvertakesOn(moves: seq<Move>, p: nat, n: nat) returns (p': nat, n': nat)
    requires moves != [] && !(moves[0] == DeliverDown && p == 0) && !(moves[0] == Send && n == 0)
    ensures p' == if moves[0] == DeliverDown then p - 1 else p
    ensures n' == if moves[0] == Send then n - 1 else n
    ensures Overtakes(moves, p, n) <==> Overtakes(moves[1..], p', n')
  {
    p', n' := if moves[0] == DeliverDown then p - 1 else p, if moves[0] == Send then n - 1 else n;
  }

  lemma SendPasses(s: System, moves: seq<Move>, byClient: seq<Status>, t: System, mate: seq<nat>,
                   byServer: seq<Status>, i: nat, p: nat)
    requires Waits(s, mate, byClient, byServer, i, p) && i == s.next
    requires Leads(Do(s, Send, byClient), moves, byClient, t)
    ensures i !in t.skipped
  {
    PassedStays(Do(s, Send, byClient), moves, byClient, t, i);
  }

  lemma RequestWaits(s: System, m: Move, mate: seq<nat>, byClient: seq<Status>, byServer: seq<Status>, i: nat, p: nat)
    requires Waits(s, mate, byClient, byServer, i, p) && Enabled(s, m)
    requires !(m == DeliverDown && p == 0) && !(m == Send && s.next == i)
    ensures Waits(Do(s, m, byClient), mate, byClient, byServer, i, if m == DeliverDown then p - 1 else p)
  {
    MoveInvariant(s, m, mate, byClient, byServer);
    if m == DeliverDown { OtherDown(s, mate, byClient, byServer, i, p); }
  }

  /** A delivery in front of the request about half i is about another half. */
  lemma OtherDown(s: System, mate: seq<nat>, byClient: seq<Status>, byServer: seq<Status>, i: nat, p: nat)
    requires Invariant(s, mate, byClient, byServer) && i < |s.client| && byClient[i] == byServer[mate[i]] == REQUESTED
    requires 0 < p < |s.down| && s.down[p] == Down(s.client[i], true)
    ensures var s' := Do(s, DeliverDown, byClient);
      && |s'.client| == |s.client| && s'.client[i] == s.client[i]
      && |s'.down| == |s.down| - 1 && s'.down[p - 1] == s.down[p]
  {
    var j, yes, t := DownShape(s, mate, byClient, byServer);
    Twice(s.down, p);
    assert Possible(LifeOf(s, mate, i), byClient[i], byServer[mate[i]]);
  }

  lemma Twice(ch: seq<Message>, p: nat)
    requires 0 < p < |ch|
    ensures ch[0] == ch[p] ==> multiset(ch)[ch[p]] >= 2
  {
    assert ch == [ch[0]] + ch[1..p] + [ch[p]] + ch[p + 1..];
  }

  /** The delivery of the request itself. */
  lemma OvertakingDown(s: System, moves: seq<Move>, t: System, mate: seq<nat>,
                       byClient: seq<Status>, byServer: seq<Status>, i: nat)
    requires Waits(s, mate, byClient, byServer, i, 0)
    requires Leads(Do(s, DeliverDown, byClient), moves, byClient, t) && Quiescent(t)
    ensures i in t.skipped
  {
    var j, yes, t' := DownShape(s, mate, byClient, byServer);
    if j != i { Distinct(s, mate, i, j); }
    assert Mirrors(s.client[i], s.server[mate[i]]);
    MoveInvariant(s, DeliverDown, mate, byClient, byServer);
    ActivatedIsSkipped(Do(s, DeliverDown, byClient), moves, t, mate, byClient, byServer, i);
  }

  lemma {:induction false} RequestsConcat(a: seq<Half>, b: seq<Half>)
    ensures Requests(a + b) == Requests(a) + Requests(b)
    decreases b
  {
    if b == [] {
      assert a + b == a;
    } else {
      var n := |b| - 1;
      assert (a + b)[..|a| + n] == a + b[..n];
      RequestsConcat(a, b[..n]);
    }
  }

  lemma RequestPlace(server: seq<Half>, k: nat)
    requires k < |server| && server[k].state == REQUESTED
    ensures Place(server, k) < |Requests(server)|
    ensures Requests(server)[Place(server, k)] == Message(server[k].sendYes, server[k].option)
  {
    assert server == server[..k] + server[k..];
    assert server[k..] == [server[k]] + server[k + 1..];
    RequestsConcat(server[..k], server[k..]);
    RequestsConcat([server[k]], server[k + 1..]);
    assert [server[k]][..0] == [];
  }

  /** The halves that the start-up loop skips are exactly the overtaken ones. */
  lemma SkippedAreOvertaken(client: seq<Half>, server: seq<Half>, mate: seq<nat>, moves: seq<Move>, t: System, i: nat)
    requires Matched(client, server, mate) && Initial(client) && Initial(server)
    requires Leads(Start(client, server), moves, States(client), t) && Quiescent(t)
    requires i < |client|
    ensures i in t.skipped <==> Overtaken(client, server, mate, moves, i)
  {
    var s := Start(client, server);
    StartsInvariant(client, server, mate);
    if client[i].state == REQUESTED && server[mate[i]].state == REQUESTED {
      assert Mirrors(client[i], server[mate[i]]);
      RequestPlace(server, mate[i]);
      SkippedIffOvertaken(s, moves, t, mate, States(client), States(server), i, Place(server, mate[i]), i);
    } else {
      RunKeeps(s, moves, t, mate, States(client), States(server));
      assert Possible(LifeOf(t, mate, i), States(client)[i], States(server)[mate[i]]);
    }
  }

  // ----- where the exchange ends

  predicate GivenUp(o: Half) { !o.active && (o.state == INACTIVE || o.state == REALLY_INACTIVE) }

  /** Half i is active on both sides, or inactive on both. */
  predicate Agreed(t: System, mate: seq<nat>, i: nat, wanted: bool)
    requires i < |t.client| && i < |mate| && mate[i] < |t.server|
  {
    var c, s := t.client[i], t.server[mate[i]];
    if wanted then c.active && s.active && c.state == s.state == ACTIVE else GivenUp(c) && GivenUp(s)
  }

  /** One of the two sides wants the half and the other one does not refuse it. */
  predicate Due(client: seq<Half>, server: seq<Half>, mate: seq<nat>, i: nat)
    requires Matched(client, server, mate) && i < |client|
  {
    var c, s := client[i].state, server[mate[i]].state;
    (c == REQUESTED || s == REQUESTED) && c != REALLY_INACTIVE && s != REALLY_INACTIVE
  }

  /** What is left when nothing is under way. */
  lemma EndOfLife(x: Life, byClient: Status, byServer: Status)
    requires Possible(x, byClient, byServer) && x.passed && x.Silent()
    ensures x.skipped ==> x.c == ACTIVE && x.s == REQUESTED
    ensures !x.skipped ==>
      if byClient == REALLY_INACTIVE || byServer == REALLY_INACTIVE || !(byClient == REQUESTED || byServer == REQUESTED)
      then x.c in {byClient, INACTIVE} && x.s in {byServer, INACTIVE} && x.c != REQUESTED && x.s != REQUESTED
      else x.c == ACTIVE && x.s == ACTIVE
  {
  }

  /** Where the exchange ends, read off the order of the moves: a half ends active on both sides if
      one of them wanted it and the other one did not refuse it, and inactive on both otherwise,
      exactly unless the server's request overtook the client's. In that case the client is active,
      and the server is never answered. */
  lemma Convergence(client: seq<Half>, server: seq<Half>, mate: seq<nat>, moves: seq<Move>, t: System, i: nat)
    requires Matched(client, server, mate) && Initial(client) && Initial(server)
    requires Leads(Start(client, server), moves, States(client), t) && Quiescent(t)
    requires i < |client|
    ensures Matched(t.client, t.server, mate) && i < |t.client|
    ensures Agreed(t, mate, i, Due(client, server, mate, i)) <==> !Overtaken(client, server, mate, moves, i)
    ensures Overtaken(client, server, mate, moves, i) ==>
      t.client[i].active && t.server[mate[i]].state == REQUESTED && !t.server[mate[i]].active
  {
    StartsInvariant(client, server, mate);
    RunKeeps(Start(client, server), moves, t, mate, States(client), States(server));
    SkippedAreOvertaken(client, server, mate, moves, t, i);
    EndOfLife(LifeOf(t, mate, i), States(client)[i], States(server)[mate[i]]);
    assert Consistent(t.client[i]) && Consistent(t.server[mate[i]]);
  }

  /** All halves end as wanted if and only if none was overtaken. */
  lemma AllConverge(client: seq<Half>, server: seq<Half>, mate: seq<nat>, moves: seq<Move>, t: System)
    requires Matched(client, server, mate) && Initial(client) && Initial(server)
    requires Leads(Start(client, server), moves, States(client), t) && Quiescent(t)
    ensures Matched(t.client, t.server, mate) && |t.client| == |client|
    ensures (forall i :: 0 <= i < |client| ==> Agreed(t, mate, i, Due(client, server, mate, i)))
      <==> (forall i :: 0 <= i < |client| ==> !Overtaken(client, server, mate, moves, i))
  {
    StartsInvariant(client, server, mate);
    RunKeeps(Start(client, server), moves, t, mate, States(client), States(server));
    assert |t.client| == |mate|;
    forall i | 0 <= i < |client|
      ensures Agreed(t, mate, i, Due(client, server, mate, i)) <==> !Overtaken(client, server, mate, moves, i)
    {
      Convergence(client, server, mate, moves, t, i);
    }
  }

  /** The client has sent its requests before it processes anything that it receives. */
  predicate RequestsFirst(next: nat, n: nat, moves: seq<Move>)
    decreases moves
  {
    moves == [] ||
    ((moves[0] == DeliverDown ==> next >= n) &&
     RequestsFirst(if moves[0] == Send then next + 1 else next, n, moves[1..]))
  }

  lemma {:induction false} NothingOvertakes(next: nat, n: nat, moves: seq<Move>, p: nat, i: nat)
    requires RequestsFirst(next, n, moves) && next <= i < n
    ensures !Overtakes(moves, p, i - next)
    decreases moves
  {
    if moves != [] && !(moves[0] == Send && next == i) && moves[0] != DeliverDown {
      NothingOvertakes(if moves[0] == Send then next + 1 else next, n, moves[1..], p, i);
    }
  }

  /** When the client sends its requests before it processes replies, every half ends active on
      both sides if one of them wanted it and the other one did not refuse it, and inactive on both
      sides otherwise. */
  lemma Converges(client: seq<Half>, server: seq<Half>, mate: seq<nat>, moves: seq<Move>, t: System, i: nat)
    requires Matched(client, server, mate) && Initial(client) && Initial(server)
    requires Leads(Start(client, server), moves, States(client), t) && Quiescent(t)
    requires RequestsFirst(0, |client|, moves)
    requires i < |client|
    ensures i < |t.client| && mate[i] < |t.server|
    ensures Agreed(t, mate, i, Due(client, server, mate, i))
  {
    Convergence(client, server, mate, moves, t, i);
    NothingOvertakes(0, |client|, moves, Place(server, mate[i]), i);
  }

  /** From every state on the way, the exchange can be brought to its end. */
  lemma {:induction false} CanFinish(s: System, mate: seq<nat>, byClient: seq<Status>, byServer: seq<Status>)
    returns (moves: seq<Move>, t: System)
    requires Invariant(s, mate, byClient, byServer)
    ensures Leads(s, moves, byClient, t) && Quiescent(t)
    decreases Weight(Lives(s, mate))
  {
    if Quiescent(s) {
      moves, t := [], s;
    } else {
      var m := if s.next < |s.client| then Send else if s.up != [] then DeliverUp else DeliverDown;
      MoveKeeps(s, m, mate, byClient, byServer);
      var rest;
      rest, t := CanFinish(Do(s, m, byClient), mate, byClient, byServer);
      moves := [m] + rest;
      assert moves[1..] == rest;
    }
  }

  // ----- the tables of the two programs

  const BINARY: Byte := 0
  const ECHO: Byte := 1
  const SGA: Byte := 3

  function We(option: Byte, state: Status): Half { Half(option, WILL, WONT, DO, DONT, state, false) }

  function They(option: Byte, state: Status): Half { Half(option, DO, DONT, WILL, WONT, state, false) }

  const CLIENT_OPTIONS: seq<Half> := [
    They(ECHO, REQUESTED), We(SGA, REQUESTED), They(SGA, REQUESTED), They(BINARY, INACTIVE),
    They(COM_PORT_OPTION, REQUESTED), We(BINARY, INACTIVE), We(COM_PORT_OPTION, REQUESTED)]

  const SERVER_OPTIONS: seq<Half> := [
    We(ECHO, REQUESTED), We(SGA, REQUESTED), They(SGA, INACTIVE), We(BINARY, INACTIVE),
    They(BINARY, REQUESTED), We(COM_PORT_OPTION, REQUESTED), They(COM_PORT_OPTION, INACTIVE)]

  const MATE: seq<nat> := [0, 2, 1, 3, 5, 4, 6]

  lemma TablesMatch()
    ensures Matched(CLIENT_OPTIONS, SERVER_OPTIONS, MATE) && Initial(CLIENT_OPTIONS) && Initial(SERVER_OPTIONS)
  {
    assert MATE[0] == 0 && MATE[1] == 2 && MATE[2] == 1 && MATE[3] == 3 && MATE[4] == 5 && MATE[5] == 4 && MATE[6] == 6;
  }

  lemma RequestsNext(opts: seq<Half>, k: nat, sofar: seq<Message>) returns (more: seq<Message>)
    requires k < |opts| && Requests(opts[..k]) == sofar
    ensures more == sofar + (if opts[k].state == REQUESTED then [Message(opts[k].sendYes, opts[k].option)] else [])
    ensures Requests(opts[..k + 1]) == more
  {
    assert opts[..k + 1][..k] == opts[..k];
    more := Requests(opts[..k + 1]);
  }

  /** What the client asks for at the start, byte by byte: DO ECHO, WILL and DO for suppress
      go ahead, DO and WILL for the RFC 2217 option 44. */
  lemma ClientAsks()
    ensures Requests(CLIENT_OPTIONS)
         == [Message(253, 1), Message(251, 3), Message(253, 3), Message(253, 44), Message(251, 44)]
  {
    var o := CLIENT_OPTIONS;
    var ms := RequestsNext(o, 0, []);
    ms := RequestsNext(o, 1, ms);
    ms := RequestsNext(o, 2, ms);
    ms := RequestsNext(o, 3, ms);
    ms := RequestsNext(o, 4, ms);
    ms := RequestsNext(o, 5, ms);
    ms := RequestsNext(o, 6, ms);
    assert o[..7] == o;
  }

  /** What the server asks for: WILL ECHO and WILL suppress go ahead, DO BINARY, WILL for option 44. */
  lemma ServerAsks()
    ensures Requests(SERVER_OPTIONS) == [Message(251, 1), Message(251, 3), Message(253, 0), Message(251, 44)]
  {
    var o := SERVER_OPTIONS;
    var ms := RequestsNext(o, 0, []);
    ms := RequestsNext(o, 1, ms);
    ms := RequestsNext(o, 2, ms);
    ms := RequestsNext(o, 3, ms);
    ms := RequestsNext(o, 4, ms);
    ms := RequestsNext(o, 5, ms);
    ms := RequestsNext(o, 6, ms);
    assert o[..7] == o;
  }

  lemma PlaceNext(server: seq<Half>, k: nat)
    requires k < |server|
    ensures Place(server, k + 1) == Place(server, k) + if server[k].state == REQUESTED then 1 else 0
    ensures Place(server, 0) == 0
  {
    assert server[..k + 1][..k] == server[..k];
  }

  /** The place of the server's RFC 2217 request. */
  lemma RequestPlaces()
    ensures Place(SERVER_OPTIONS, 5) == 3
  {
    PlaceNext(SERVER_OPTIONS, 0);
    PlaceNext(SERVER_OPTIONS, 1);
    PlaceNext(SERVER_OPTIONS, 2);
    PlaceNext(SERVER_OPTIONS, 3);
    PlaceNext(SERVER_OPTIONS, 4);
  }

  function FourDown(rest: seq<Move>): seq<Move> {
    [DeliverDown] + ([DeliverDown] + ([DeliverDown] + ([DeliverDown] + rest)))
  }

  /** The race of `open`, with the tables of the two programs: if the reader thread processes the
      server's first four messages before the loop sends anything, the server's own RFC 2217 option
      (its option 5, half 4 of the client) is never active, however the exchange goes on. */
  lemma StartupRace(rest: seq<Move>, t: System)
    requires Leads(Start(CLIENT_OPTIONS, SERVER_OPTIONS), FourDown(rest), States(CLIENT_OPTIONS), t) && Quiescent(t)
    ensures |t.client| == |t.server| == 7
    ensures t.client[4].active && t.server[5].state == REQUESTED && !t.server[5].active
  {
    TablesMatch();
    RequestPlaces();
    FourOvertake(rest);
    Convergence(CLIENT_OPTIONS, SERVER_OPTIONS, MATE, FourDown(rest), t, 4);
  }

  lemma OneMoreDown(rest: seq<Move>, p: nat, n: nat)
    ensures Overtakes([DeliverDown] + rest, p, n) <==> p == 0 || Overtakes(rest, p - 1, n)
  {
    assert ([DeliverDown] + rest)[1..] == rest;
  }

  lemma FourOvertake(rest: seq<Move>)
    ensures Overtakes(FourDown(rest), 3, 4)
  {
    OneMoreDown(rest, 0, 4);
    OneMoreDown([DeliverDown] + rest, 1, 4);
    OneMoreDown([DeliverDown] + ([DeliverDown] + rest), 2, 4);
    OneMoreDown([DeliverDown] + ([DeliverDown] + ([DeliverDown] + rest)), 3, 4);
  }

  /** There is such a run. */
  lemma StartupRaceHappens() returns (rest: seq<Move>, t: System)
    ensures Leads(Start(CLIENT_OPTIONS, SERVER_OPTIONS), FourDown(rest), States(CLIENT_OPTIONS), t) && Quiescent(t)
  {
    var w, v := States(CLIENT_OPTIONS), States(SERVER_OPTIONS);
    var s0 := Start(CLIENT_OPTIONS, SERVER_OPTIONS);
    TablesMatch();
    RequestPlaces();
    StartsInvariant(CLIENT_OPTIONS, SERVER_OPTIONS, MATE);
    RequestPlace(SERVER_OPTIONS, 5);
    var s1 := OneDown(s0, MATE, w, v);
    var s2 := OneDown(s1, MATE, w, v);
    var s3 := OneDown(s2, MATE, w, v);
    var s4 := OneDown(s3, MATE, w, v);
    rest, t := CanFinish(s4, MATE, w, v);
    FirstMove(s3, DeliverDown, rest, w, t);
    FirstMove(s2, DeliverDown, [DeliverDown] + rest, w, t);
    FirstMove(s1, DeliverDown, [DeliverDown] + ([DeliverDown] + rest), w, t);
    FirstMove(s0, DeliverDown, [DeliverDown] + ([DeliverDown] + ([DeliverDown] + rest)), w, t);
  }

  lemma OneDown(s: System, mate: seq<nat>, byClient: seq<Status>, byServer: seq<Status>) returns (t: System)
    requires Invariant(s, mate, byClient, byServer) && s.down != []
    ensures Enabled(s, DeliverDown) && |byClient| == |s.client|
    ensures t == Do(s, DeliverDown, byClient) && Invariant(t, mate, byClient, byServer) && |t.down| == |s.down| - 1
  {
    t := Do(s, DeliverDown, byClient);
    MoveInvariant(s, DeliverDown, mate, byClient, byServer);
    var j, yes, t' := DownShape(s, mate, byClient, byServer);
    assert t == t';
  }

  lemma FirstMove(s: System, m: Move, rest: seq<Move>, wanted: seq<Status>, t: System)
    requires |wanted| == |s.client| && Enabled(s, m) && Leads(Do(s, m, wanted), rest, wanted, t)
    ensures Leads(s, [m] + rest, wanted, t)
  {
    assert ([m] + rest)[1..] == rest;
  }
}
