/** The WAMP long-poll transport of twisted/longpoll.py: the queue that polls empty, and the timer
    that ends an inactive session. */
module LongPoll {
  import opened Wrappers

  type Data = seq<int>

  /** A poll: an HTTP request, with what was written to it. */
  datatype Poll = Poll(body: seq<Data>, finishes: nat, gone: bool)

  /** The fields of a `WampLongPollResourceSessionReceive`, and every poll so far. */
  datatype Receiver = Receiver(batched: bool, queue: seq<Data>, request: Maybe<nat>, killed: bool, polls: seq<Poll>)

  /** The fields of a `WampLongPollResourceSession`; `listed`: its transport is known to the server. */
  datatype Session = Session(receiver: Receiver, alive: bool, open: bool, listed: bool)

  // ----- the receiver

  function Trigger(r: Receiver): Receiver {
    if r.request.None? || r.request.value >= |r.polls| || r.queue == [] then r
    else
      var k, n := r.request.value, if r.batched then |r.queue| else 1;
      var p := r.polls[k];
      r.(queue := r.queue[n..], request := None,
         polls := r.polls[k := p.(body := p.body + r.queue[..n], finishes := p.finishes + 1)])
  }

  function Enqueue(r: Receiver, data: Data): Receiver { Trigger(r.(queue := r.queue + [data])) }

  function NewPoll(r: Receiver): Receiver {
    Trigger(r.(request := Some(|r.polls|), polls := r.polls + [Poll([], 0, false)]))
  }

  function Kill(r: Receiver): Receiver {
    if r.request.None? || r.request.value >= |r.polls| then r.(killed := true)
    else
      var k := r.request.value;
      r.(killed := true, request := None, polls := r.polls[k := r.polls[k].(finishes := r.polls[k].finishes + 1)])
  }

  /** The connection of poll `k` is lost before the poll is finished. Whichever poll it is, no poll is
      remembered any more. */
  function Lost(r: Receiver, k: nat): Receiver {
    if k < |r.polls| && r.polls[k].finishes == 0 && !r.polls[k].gone then
      r.(request := None, polls := r.polls[k := r.polls[k].(gone := true)])
    else r
  }

  // ----- the session

  datatype Input =
    | Send(data: Data)
    | Receive
    | Post(accepted: bool)
    | Gone(poll: nat)
    | Close
    | Tick

  datatype Outcome = Done | TransportLost | NotFound

  datatype Stepped = Stepped(state: Session, outcome: Outcome)

  function NewReceiver(batched: bool): Receiver { Receiver(batched, [], None, false, []) }

  function Start(batched: bool): Session { Session(NewReceiver(batched), false, true, true) }

  function Step(s: Session, e: Input): Stepped {
    match e
    case Send(data) =>
      if !s.open then Stepped(s, TransportLost) else Stepped(s.(receiver := Enqueue(s.receiver, data)), Done)
    case Receive =>
      if !s.listed then Stepped(s, NotFound) else Stepped(s.(receiver := NewPoll(s.receiver), alive := true), Done)
    case Post(accepted) =>
      if !s.listed then Stepped(s, NotFound) else Stepped(if accepted then s.(alive := true) else s, Done)
    case Gone(k) => Stepped(s.(receiver := Lost(s.receiver, k)), Done)
    case Close =>
      if !s.open then Stepped(s, TransportLost)
      else Stepped(s.(open := false, receiver := Kill(s.receiver), listed := false), Done)
    case Tick =>
      if s.alive then Stepped(s.(alive := false), Done)
      else Stepped(s.(open := false, receiver := Kill(s.receiver), listed := false), Done)
  }

  function Run(s: Session, es: seq<Input>): Session
    decreases es
  {
    if es == [] then s else Run(Step(s, es[0]).state, es[1..])
  }

  // ----- exactly once, in order

  predicate Current(r: Receiver) {
    r.request.Some? ==>
      |r.polls| > 0 && r.request.value == |r.polls| - 1 && r.polls[|r.polls| - 1] == Poll([], 0, false) && r.queue == []
  }

  /** Finished at most once; written to only as it is finished, and never when the client is gone. */
  predicate Decent(r: Receiver, p: Poll) {
    p.finishes <= 1 && (p.body != [] ==> p.finishes == 1 && !p.gone) && (!r.batched ==> |p.body| <= 1)
  }

  predicate Inv(s: Session) {
    && Current(s.receiver)
    && (forall k :: 0 <= k < |s.receiver.polls| ==> Decent(s.receiver, s.receiver.polls[k]))
    && (s.receiver.killed ==> s.receiver.request.None? && !s.listed)
    && s.open == s.listed
  }

  lemma StepKeepsInv(s: Session, e: Input)
    requires Inv(s)
    ensures Inv(Step(s, e).state)
  {
  }

  /** All that was written to polls, in the order of the polls. */
  function Delivered(polls: seq<Poll>): seq<Data> {
    if polls == [] then [] else Delivered(polls[..|polls| - 1]) + polls[|polls| - 1].body
  }

  /** What a step accepts for the client. */
  function Accepted(s: Session, e: Input): seq<Data> {
    if e.Send? && s.open then [e.data] else []
  }

  function AllAccepted(s: Session, es: seq<Input>): seq<Data>
    decreases es
  {
    if es == [] then [] else Accepted(s, es[0]) + AllAccepted(Step(s, es[0]).state, es[1..])
  }

  function Account(r: Receiver): seq<Data> { Delivered(r.polls) + r.queue }

  lemma {:induction false} SameBodies(a: seq<Poll>, b: seq<Poll>)
    requires |a| == |b| && forall i :: 0 <= i < |a| ==> a[i].body == b[i].body
    ensures Delivered(a) == Delivered(b)
  {
    if a != [] { SameBodies(a[..|a| - 1], b[..|b| - 1]); }
  }

  lemma LastBody(polls: seq<Poll>, p: Poll)
    ensures Delivered(polls + [p]) == Delivered(polls) + p.body
  {
    assert (polls + [p])[..|polls|] == polls;
  }

  lemma TriggerAccounts(r: Receiver)
    requires r.request.Some? ==> |r.polls| > 0 && r.request.value == |r.polls| - 1
    ensures Account(Trigger(r)) == Account(r)
  {
    if r.request.Some? && r.queue != [] {
      WriteAccounts(r.polls, r.queue, if r.batched then |r.queue| else 1);
    }
  }

  lemma LastReplaced(polls: seq<Poll>, p: Poll)
    requires polls != []
    ensures var k := |polls| - 1; polls == polls[..k] + [polls[k]] && polls[k := p] == polls[..k] + [p]
  {
  }

  /** Messages move from the queue to the last poll. */
  lemma WriteAccounts(polls: seq<Poll>, queue: seq<Data>, n: nat)
    requires polls != [] && n <= |queue|
    ensures var k := |polls| - 1;
      var p := polls[k].(body := polls[k].body + queue[..n], finishes := polls[k].finishes + 1);
      Delivered(polls[k := p]) + queue[n..] == Delivered(polls) + queue
  {
    var k := |polls| - 1;
    var before, p := polls[..k], polls[k];
    var p' := p.(body := p.body + queue[..n], finishes := p.finishes + 1);
    LastBody(before, p);
    LastBody(before, p');
    LastReplaced(polls, p');
    Regroup(Delivered(before), p.body, queue[..n], queue[n..], queue);
  }

  lemma Regroup(a: seq<Data>, b: seq<Data>, c: seq<Data>, d: seq<Data>, e: seq<Data>)
    requires e == c + d
    ensures (a + (b + c)) + d == (a + b) + e
  {
  }

  lemma EnqueueAccounts(r: Receiver, data: Data)
    requires Current(r)
    ensures Account(Enqueue(r, data)) == Account(r) + [data]
  {
    TriggerAccounts(r.(queue := r.queue + [data]));
    assert Delivered(r.polls) + (r.queue + [data]) == Account(r) + [data];
  }

  lemma NewPollAccounts(r: Receiver)
    ensures Account(NewPoll(r)) == Account(r)
  {
    LastBody(r.polls, Poll([], 0, false));
    assert Delivered(r.polls) + [] == Delivered(r.polls);
    TriggerAccounts(r.(request := Some(|r.polls|), polls := r.polls + [Poll([], 0, false)]));
  }

  lemma StepAccounts(s: Session, e: Input)
    requires Inv(s)
    ensures Account(Step(s, e).state.receiver) == Account(s.receiver) + Accepted(s, e)
  {
    var r, r' := s.receiver, Step(s, e).state.receiver;
    match e
    case Send(data) => EnqueueAccounts(r, data);
    case Receive => NewPollAccounts(r);
    case _ => SameBodies(r.polls, r'.polls);
  }

  lemma {:induction false} RunAccounts(s: Session, es: seq<Input>)
    requires Inv(s)
    ensures Inv(Run(s, es))
    ensures Account(Run(s, es).receiver) == Account(s.receiver) + AllAccepted(s, es)
    decreases es
  {
    if es != [] {
      StepKeepsInv(s, es[0]);
      StepAccounts(s, es[0]);
      RunAccounts(Step(s, es[0]).state, es[1..]);
    }
  }

  /** Over every run, what the polls carried, followed by the queue, is exactly what was sent, in
      order. No poll is finished twice, none waits while messages do. */
  lemma ExactlyOnce(batched: bool, es: seq<Input>)
    ensures var s := Run(Start(batched), es);
      && Delivered(s.receiver.polls) + s.receiver.queue == AllAccepted(Start(batched), es)
      && (forall k :: 0 <= k < |s.receiver.polls| ==> Decent(s.receiver, s.receiver.polls[k]))
      && (s.receiver.request.Some? ==> s.receiver.queue == [])
  {
    RunAccounts(Start(batched), es);
  }

  // ----- what a poll carries

  /** A new poll is finished at once if messages wait: with all of them in batched mode, with the
      oldest one otherwise. If none waits it is the one that waits. */
  lemma PollCarries(s: Session)
    requires Inv(s) && s.listed
    ensures var r, q := s.receiver, s.receiver.queue;
      var r' := if q == [] then r.(request := Some(|r.polls|), polls := r.polls + [Poll([], 0, false)])
                else if r.batched then r.(request := None, queue := [], polls := r.polls + [Poll(q, 1, false)])
                else r.(request := None, queue := q[1..], polls := r.polls + [Poll([q[0]], 1, false)]);
      Step(s, Receive) == Stepped(s.(receiver := r', alive := true), Done)
  {
    var r, q, k := s.receiver, s.receiver.queue, |s.receiver.polls|;
    var polls := r.polls + [Poll([], 0, false)];
    if q != [] {
      var n := if r.batched then |q| else 1;
      assert [] + q[..n] == q[..n] && q[..|q|] == q && q[|q|..] == [] && q[..1] == [q[0]];
      assert polls[k := Poll(q[..n], 1, false)] == r.polls + [Poll(q[..n], 1, false)];
    }
  }

  /** A message goes to the waiting poll, alone, and finishes it; if none waits it is queued. */
  lemma SendCarries(s: Session, data: Data)
    requires Inv(s) && s.open
    ensures var r := s.receiver;
      var r' := if r.request.None? then r.(queue := r.queue + [data])
                else r.(request := None, polls := r.polls[|r.polls| - 1 := Poll([data], 1, false)]);
      Step(s, Send(data)) == Stepped(s.(receiver := r'), Done)
  {
    var r := s.receiver;
    if r.request.Some? {
      assert r.queue + [data] == [data] && [data][..1] == [data] && [data][1..] == [] && [] + [data] == [data];
    }
  }

  /** Closing finishes the waiting poll with nothing; and so does the timer, if the session was not
      alive. */
  lemma CloseFinishes(s: Session)
    requires Inv(s)
    ensures var r, n := s.receiver, |s.receiver.polls|;
      var r' := if r.request.None? then r.(killed := true)
                else r.(killed := true, request := None, polls := r.polls[n - 1 := Poll([], 1, false)]);
      && (s.open ==> Step(s, Close) == Stepped(s.(open := false, listed := false, receiver := r'), Done))
      && (!s.alive ==> Step(s, Tick) == Stepped(s.(open := false, listed := false, receiver := r'), Done))
      && (s.alive ==> Step(s, Tick) == Stepped(s.(alive := false), Done))
  {
  }

  /** A session that is not open never opens again. Nothing can be sent any more, and a request
      for it is not found. */
  lemma {:induction false} ClosedForGood(s: Session, es: seq<Input>)
    requires Inv(s) && !s.open
    ensures var t := Run(s, es);
      && Inv(t) && !t.open && Step(t, Receive) == Stepped(t, NotFound) && Step(t, Close) == Stepped(t, TransportLost)
      && (forall data :: Step(t, Send(data)) == Stepped(t, TransportLost))
      && (forall accepted :: Step(t, Post(accepted)) == Stepped(t, NotFound))
    decreases es
  {
    if es != [] {
      StepKeepsInv(s, es[0]);
      ClosedForGood(Step(s, es[0]).state, es[1..]);
    }
  }

  // ----- polls that are forgotten

  /** A poll that is open, but not the one remembered. */
  predicate Forgotten(r: Receiver, k: nat) {
    k < |r.polls| && r.polls[k].finishes == 0 && r.request != Some(k)
  }

  lemma {:induction false} ForgottenForGood(s: Session, es: seq<Input>, k: nat)
    requires Inv(s) && Forgotten(s.receiver, k)
    ensures Forgotten(Run(s, es).receiver, k)
    decreases es
  {
    if es != [] {
      StepKeepsInv(s, es[0]);
      ForgottenForGood(Step(s, es[0]).state, es[1..], k);
    }
  }

  /** A step makes the session forget the waiting poll if and only if another poll comes, or any poll
      that is still open is lost, even an earlier one. A step finishes the waiting poll if and only if
      it sends a message or ends the session. */
  lemma WaitingPollGoesOn(s: Session, e: Input, k: nat)
    requires Inv(s) && s.receiver.request == Some(k)
    ensures var r := Step(s, e).state.receiver;
      Forgotten(r, k) <==>
        (e.Receive? && s.listed)
        || (e.Gone? && e.poll < |s.receiver.polls| && s.receiver.polls[e.poll].finishes == 0
          && !s.receiver.polls[e.poll].gone)
    ensures var r := Step(s, e).state.receiver;
      r.polls[k].finishes == 1 <==> (e.Send? && s.open) || (e.Close? && s.open) || (e.Tick? && !s.alive)
  {
  }

  /** It happens: two polls, of which the older one is lost. The younger one stays open, and waits for
      ever. */
  lemma OlderPollLost(batched: bool, es: seq<Input>)
    ensures var s := Run(Start(batched), [Receive, Receive, Gone(0)]);
      && Forgotten(s.receiver, 1) && !s.receiver.polls[1].gone && s.open
      && Forgotten(Run(s, es).receiver, 1)
  {
    var s0 := Start(batched);
    var s1 := Step(s0, Receive).state;
    var s2 := Step(s1, Receive).state;
    var s3 := Step(s2, Gone(0)).state;
    var all: seq<Input> := [Receive, Receive, Gone(0)];
    assert all[1..] == [Receive, Gone(0)] && all[1..][1..] == [Gone(0)] && all[1..][1..][1..] == [];
    assert Run(s2, [Gone(0)]) == s3;
    assert Run(s1, [Receive, Gone(0)]) == s3;
    StepKeepsInv(s0, Receive);
    StepKeepsInv(s1, Receive);
    StepKeepsInv(s2, Gone(0));
    ForgottenForGood(s3, es, 1);
  }

  /** No close, and at most `n` ticks. */
  predicate Ticks(es: seq<Input>, n: nat)
    decreases es
  {
    es == [] || (!es[0].Close? && (es[0].Tick? ==> n > 0) && Ticks(es[1..], if es[0].Tick? then n - 1 else n))
  }

  lemma {:induction false} OpenThrough(s: Session, es: seq<Input>)
    requires s.open && Ticks(es, if s.alive then 1 else 0)
    ensures Run(s, es).open
    decreases es
  {
    if es != [] {
      var s' := Step(s, es[0]).state;
      if !es[0].Tick? && s'.alive && !s.alive { MoreTicks(es[1..], 0, 1); }
      OpenThrough(s', es[1..]);
    }
  }

  lemma {:induction false} MoreTicks(es: seq<Input>, m: nat, n: nat)
    requires m <= n && Ticks(es, m)
    ensures Ticks(es, n)
    decreases es
  {
    if es != [] { MoreTicks(es[1..], if es[0].Tick? then m - 1 else m, if es[0].Tick? then n - 1 else n); }
  }

  /** A payload that was accepted keeps the session open through the next tick, whatever else happens
      short of its being closed. One that was refused changes nothing. */
  lemma PostKeepsOpen(s: Session, es: seq<Input>)
    requires s.open && s.listed
    ensures Ticks(es, 1) ==> Run(Step(s, Post(true)).state, es).open
    ensures Step(s, Post(false)).state == s
  {
    if Ticks(es, 1) { OpenThrough(Step(s, Post(true)).state, es); }
  }

  // ----- the timer

  /** A session in time: the next tick of its timer, the last successful send or poll (the opening
      if there was none), and when the timer ended it. */
  datatype Timed = Timed(session: Session, now: real, timer: bool, due: real, last: real, ended: Maybe<real>)

  datatype Event = Event(time: real, input: Input)

  function Opened(batched: bool, period: real): Timed {
    Timed(Start(batched), 0.0, true, period, 0.0, None)
  }

  /** Time does not run back, and the timer ticks exactly when it is due. */
  predicate Timely(s: Timed, e: Event) {
    s.now <= e.time && (s.timer ==> e.time <= s.due) && (e.input.Tick? ==> s.timer && e.time == s.due)
  }

  predicate Activity(s: Session, e: Input) { s.listed && (e.Receive? || e == Post(true)) }

  function Pass(s: Timed, period: real, e: Event): Timed {
    var r := s.(session := Step(s.session, e.input).state, now := e.time,
                last := if Activity(s.session, e.input) then e.time else s.last);
    if !e.input.Tick? then r
    else if s.session.alive then r.(due := s.due + period)
    else r.(timer := false, ended := if s.session.open then Some(e.time) else s.ended)
  }

  function PassAll(s: Timed, period: real, es: seq<Event>): Timed
    decreases es
  {
    if es == [] then s else PassAll(Pass(s, period, es[0]), period, es[1..])
  }

  predicate AllTimely(s: Timed, period: real, es: seq<Event>)
    decreases es
  {
    es == [] || (Timely(s, es[0]) && AllTimely(Pass(s, period, es[0]), period, es[1..]))
  }

  predicate InTime(s: Timed, period: real) {
    && s.session.open == s.session.listed
    && (s.session.open ==> s.timer && s.ended.None?)
    && s.last <= s.now
    && (s.timer ==> s.due - period <= s.now <= s.due && s.due - 2.0 * period <= s.last)
    && (s.timer && !s.session.alive ==> s.last <= s.due - period)
    && (s.timer && s.session.alive ==> s.due - period <= s.last)
    && (s.ended.Some? ==> s.last + period <= s.ended.value <= s.last + 2.0 * period)
  }

  lemma {:induction false} PassAllInTime(s: Timed, period: real, es: seq<Event>)
    requires period > 0.0 && InTime(s, period) && AllTimely(s, period, es)
    ensures InTime(PassAll(s, period, es), period)
    decreases es
  {
    if es != [] {
      assert InTime(Pass(s, period, es[0]), period);
      PassAllInTime(Pass(s, period, es[0]), period, es[1..]);
    }
  }

  /** With period T, a session whose last activity is at time t is ended by the timer between t + T
      and t + 2T; an open one is never idle for longer than 2T. */
  lemma InactivityBound(batched: bool, period: real, es: seq<Event>)
    requires period > 0.0 && AllTimely(Opened(batched, period), period, es)
    ensures var s := PassAll(Opened(batched, period), period, es);
      && (s.ended.Some? ==> s.last + period <= s.ended.value <= s.last + 2.0 * period)
      && (s.session.open ==> s.now <= s.last + 2.0 * period)
  {
    PassAllInTime(Opened(batched, period), period, es);
  }

  /** Some tick comes with no activity since the tick before. */
  predicate Lapses(es: seq<Event>, active: bool)
    decreases es
  {
    es != [] &&
    match es[0].input
    case Tick => !active || Lapses(es[1..], false)
    case Receive => Lapses(es[1..], true)
    case Post(accepted) => Lapses(es[1..], active || accepted)
    case _ => Lapses(es[1..], active)
  }

  lemma {:induction false} EndedStays(s: Timed, period: real, es: seq<Event>)
    requires !s.session.open && s.ended.Some?
    ensures PassAll(s, period, es).ended.Some?
    decreases es
  {
    if es != [] { EndedStays(Pass(s, period, es[0]), period, es[1..]); }
  }

  /** The timer ends a session that is not closed if and only if a whole period passes without
      activity; so a session that is active in every period lives. */
  lemma {:induction false} EndedIffLapses(s: Timed, period: real, es: seq<Event>)
    requires s.session.open && s.session.listed && s.ended.None?
    requires forall e :: e in es ==> !e.input.Close?
    ensures PassAll(s, period, es).ended.Some? <==> Lapses(es, s.session.alive)
    decreases es
  {
    if es != [] {
      var s' := Pass(s, period, es[0]);
      assert es[0] in es;
      if s'.session.open {
        EndedIffLapses(s', period, es[1..]);
      } else {
        EndedStays(s', period, es[1..]);
      }
    }
  }

  predicate IdleFor(s: Timed, d: real) { s.ended == Some(s.last + d) }

  /** The timely run of a new session ends it when it was idle for `d`. */
  predicate EndsIdle(s: Timed, es: seq<Event>, period: real, d: real) {
    AllTimely(s, period, es) && IdleFor(PassAll(s, period, es), d)
  }

  /** Both bounds are reached: a session that does nothing is ended after T, one whose last activity
      comes right after a tick after 2T. */
  lemma BoundsAreReached(period: real) returns (early: seq<Event>, late: seq<Event>)
    requires period > 0.0
    ensures EndsIdle(Opened(true, period), early, period, period)
    ensures EndsIdle(Opened(true, period), late, period, 2.0 * period)
  {
    var s0 := Opened(true, period);
    early := [Event(period, Tick)] + [];
    TwoPasses(s0, period, Event(period, Tick), []);
    var e1, e2, e3, e4, e5 := Event(0.0, Post(true)), Event(period, Tick), Event(period, Post(true)),
      Event(2.0 * period, Tick), Event(3.0 * period, Tick);
    late := [e1] + ([e2] + ([e3] + ([e4] + [e5])));
    var s1 := Pass(s0, period, e1);
    var s2 := Pass(s1, period, e2);
    var s3 := Pass(s2, period, e3);
    var s4 := Pass(s3, period, e4);
    TwoPasses(s4, period, e5, []);
    assert [e5] + [] == [e5];
    TwoPasses(s3, period, e4, [e5]);
    TwoPasses(s2, period, e3, [e4] + [e5]);
    TwoPasses(s1, period, e2, [e3] + ([e4] + [e5]));
    TwoPasses(s0, period, e1, [e2] + ([e3] + ([e4] + [e5])));
  }

  lemma TwoPasses(s: Timed, period: real, e: Event, es: seq<Event>)
    ensures PassAll(s, period, [e] + es) == PassAll(Pass(s, period, e), period, es)
    ensures AllTimely(s, period, [e] + es) <==> Timely(s, e) && AllTimely(Pass(s, period, e), period, es)
  {
    assert ([e] + es)[1..] == es;
  }

  // ----- the objects

  class HttpRequest {
    var body: seq<Data>
    var finishes: nat
    var gone: bool

    constructor ()
      ensures body == [] && finishes == 0 && !gone
    {
      body, finishes, gone := [], 0, false;
    }

    method Write(data: Data)
      modifies this`body
      ensures body == old(body) + [data]
    {
      body := body + [data];
    }

    method Finish()
      modifies this`finishes
      ensures finishes == old(finishes) + 1
    {
      finishes := finishes + 1;
    }
  }

  ghost predicate PollsAgree(values: seq<Poll>, polls: seq<HttpRequest>)
    reads polls
  {
    && |values| == |polls|
    && (forall i, j :: 0 <= i < j < |polls| ==> polls[i] != polls[j])
    && (forall i :: 0 <= i < |polls| ==> IsPoll(values[i], polls[i]))
  }

  ghost predicate IsPoll(v: Poll, p: HttpRequest)
    reads p
  {
    v == Poll(p.body, p.finishes, p.gone)
  }

  lemma FirstMoves(body: seq<Data>, queue: seq<Data>)
    requires queue != []
    ensures (body + [queue[0]]) + queue[1..] == body + queue
  {
  }

  class ReceiveResource {
    const batched: bool
    var queue: seq<Data>
    var request: HttpRequest?
    var killed: bool
    ghost var polls: seq<HttpRequest>
    ghost var state: Receiver

    ghost predicate Valid()
      reads this, polls
    {
      && state.batched == batched && state.queue == queue && state.killed == killed && PollsAgree(state.polls, polls)
      && (state.request.None? <==> request == null)
      && (state.request.Some? ==> state.request.value < |polls| && polls[state.request.value] == request)
    }

    constructor (batched: bool)
      ensures Valid() && state == NewReceiver(batched) && polls == []
    {
      this.batched, queue, request, killed := batched, [], null, false;
      polls, state := [], NewReceiver(batched);
    }

    method Queue(data: Data)
      requires Valid()
      modifies this`queue, this`request, this`state, request
      ensures Valid() && state == Enqueue(old(state), data)
    {
      queue := queue + [data];
      state := state.(queue := queue);
      DoTrigger();
    }

    /** In batched mode, all pending messages are written. */
    method WritePending()
      requires request != null
      modifies this`queue, request`body
      ensures queue == [] && request.body == old(request.body) + old(queue)
    {
      ghost var goal := request.body + queue;
      while |queue| > 0
        invariant request.body + queue == goal
      {
        var msg := queue[0];
        FirstMoves(request.body, queue);
        queue := queue[1..];
        request.Write(msg);
      }
      assert request.body + [] == request.body;
    }

    method DoTrigger()
      requires Valid()
      modifies this`queue, this`request, this`state, request
      ensures Valid() && state == Trigger(old(state))
    {
      if request == null || |queue| == 0 { return; }
      ghost var k := state.request.value;
      ghost var p := state.polls[k];
      assert IsPoll(p, request);
      if batched {
        WritePending();
      } else {
        var msg := queue[0];
        queue := queue[1..];
        request.Write(msg);
      }
      request.Finish();
      request := null;
      state := Trigger(state);
      forall i | 0 <= i < |polls| ensures IsPoll(state.polls[i], polls[i]) {
        assert old(IsPoll(state.polls[i], polls[i]));
      }
    }

    /** `_kill`. */
    method DoKill()
      requires Valid()
      modifies this`request, this`killed, this`state, request
      ensures Valid() && state == Kill(old(state))
    {
      if request != null {
        assert IsPoll(state.polls[state.request.value], request);
        request.Finish();
        request := null;
      }
      killed := true;
      state := Kill(state);
      forall i | 0 <= i < |polls| ensures IsPoll(state.polls[i], polls[i]) {
        assert old(IsPoll(state.polls[i], polls[i]));
      }
    }

    /** `render_POST`. */
    method RenderPost(poll: HttpRequest)
      requires Valid() && poll !in polls && poll.body == [] && poll.finishes == 0 && !poll.gone
      modifies this`queue, this`request, this`polls, this`state, poll
      ensures Valid() && state == NewPoll(old(state)) && polls == old(polls) + [poll]
    {
      request := poll;
      polls := polls + [poll];
      state := state.(request := Some(|state.polls|), polls := state.polls + [Poll([], 0, false)]);
      DoTrigger();
    }

    /** `cancel`, as the connection of a poll is lost: it does not look at which poll that is. */
    method Cancel(poll: HttpRequest, k: nat)
      requires Valid() && k < |polls| && polls[k] == poll && poll.finishes == 0 && !poll.gone
      modifies this`request, this`state, poll`gone
      ensures Valid() && state == Lost(old(state), k)
    {
      assert IsPoll(state.polls[k], poll);
      poll.gone := true;
      request := null;
      state := Lost(state, k);
      forall i | 0 <= i < |polls| ensures IsPoll(state.polls[i], polls[i]) {
        assert old(IsPoll(state.polls[i], polls[i]));
      }
    }
  }

  class SessionResource {
    const receive: ReceiveResource
    var isalive: bool
    var open: bool
    var listed: bool

    ghost predicate Valid()
      reads this, receive, receive.polls
    {
      receive.Valid()
    }

    ghost function View(): Session
      reads this, receive
    {
      Session(receive.state, isalive, open, listed)
    }

    constructor (batched: bool)
      ensures Valid() && fresh(receive) && receive.polls == [] && View() == Start(batched)
    {
      receive := new ReceiveResource(batched);
      isalive, open, listed := false, true, true;
    }

    method DoSend(payload: Data) returns (r: Outcome)
      requires Valid()
      modifies receive`queue, receive`request, receive`state, receive.request
      ensures Valid() && Stepped(View(), r) == Step(old(View()), Send(payload))
    {
      if !open { return TransportLost; }
      receive.Queue(payload);
      return Done;
    }

    method DoReceive(poll: HttpRequest) returns (r: Outcome)
      requires Valid() && poll !in receive.polls && poll.body == [] && poll.finishes == 0 && !poll.gone
      modifies this`isalive, receive`queue, receive`request, receive`polls, receive`state, poll
      ensures Valid() && Stepped(View(), r) == Step(old(View()), Receive)
    {
      if !listed { return NotFound; }
      isalive := true;
      receive.RenderPost(poll);
      return Done;
    }

    /** `render_POST` of the send resource: a payload that was accepted keeps the session open through
        the next tick. */
    method DoPost(accepted: bool) returns (r: Outcome)
      requires Valid()
      modifies this`isalive
      ensures Valid() && Stepped(View(), r) == Step(old(View()), Post(accepted))
      ensures accepted && open && listed ==> forall es :: Ticks(es, 1) ==> Run(View(), es).open
    {
      ghost var s := View();
      if s.open && s.listed {
        forall es | Ticks(es, 1) ensures Run(Step(s, Post(true)).state, es).open {
          PostKeepsOpen(s, es);
        }
      }
      if !listed { return NotFound; }
      if accepted { isalive := true; }
      return Done;
    }

    method DoClose() returns (r: Outcome)
      requires Valid()
      modifies this`open, this`listed, receive`request, receive`killed, receive`state, receive.request
      ensures Valid() && Stepped(View(), r) == Step(old(View()), Close)
    {
      if !open { return TransportLost; }
      open := false;
      receive.DoKill();
      listed := false;
      return Done;
    }

    /** `killIfDead`: whether the timer is started again. */
    method KillIfDead() returns (again: bool)
      requires Valid()
      modifies this`isalive, this`open, this`listed, receive`request, receive`killed, receive`state, receive.request
      ensures Valid() && again == old(isalive) && View() == Step(old(View()), Tick).state
    {
      if !isalive {
        open := false;
        receive.DoKill();
        if listed { listed := false; }
        return false;
      } else {
        isalive := false;
        return true;
      }
    }
  }
}
