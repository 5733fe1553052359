/** The exact effect of the calls and of their answers, with the tables by their names and the
    message types by their codes in the WAMP specification. */
module WampAnswers {
  import opened Wrappers
  import opened WampSession
  import opened WampInvariant

  // ----- the answers

  /** The request is gone and its future is settled; nothing else has changed. */
  ghost predicate SettledAs(s: State, r: Stepped, request: Request, left: Tables<Request>, outcome: Future) {
    && request.onReply < |s.futures| && s.futures[request.onReply] == Pending
    && r == Stepped(s.(tables := left, futures := s.futures[request.onReply := outcome]), Done)
  }

  lemma SettledByDrop(s: State, k: Kind, id: int, outcome: Future)
    requires Inv(s) && id in s.tables.Of(k) && outcome != Pending
    ensures SettledAs(s, Settle(Drop(s, k, id), s.tables.Of(k)[id].onReply, outcome), s.tables.Of(k)[id],
                      Drop(s, k, id).tables, outcome)
  {
    assert Has(s.tables, k, id) && Proper(s.futures, id, Entry(s.tables, k, id));
    SettleHolds(s, k, id, Drop(s, k, id), outcome);
  }

  predicate IsCode(code: int, k: Kind) {
    match k
    case Publish => code == 16
    case Subscribe => code == 32
    case Unsubscribe => code == 34
    case Call => code == 48
    case Register => code == 64
    case Unregister => code == 66
  }

  lemma ErrorOfKind(s: State, code: int, k: Kind, id: int, error: int, d: Delivery)
    requires Inv(s) && s.sessionId.Some? && IsCode(code, k)
    ensures var r := Receive(s, Errored(code, id, error), d);
      if id in s.tables.Of(k) then
        SettledAs(s, r, s.tables.Of(k)[id], WithTable(s.tables, k, s.tables.Of(k) - {id}), Rejected(error))
      else r == Stepped(s, Raised(ProtocolError))
  {
    assert KindOf(code) == Some(k);
    if id in s.tables.Of(k) { SettledByDrop(s, k, id, Rejected(error)); }
  }

  lemma ErrorOfNoKind(s: State, code: int, id: int, error: int, d: Delivery)
    requires s.sessionId.Some? && forall k: Kind :: !IsCode(code, k)
    ensures Receive(s, Errored(code, id, error), d) == Stepped(s, Raised(ProtocolError))
  {
    forall k: Kind ensures TypeOf(k) != code { assert !IsCode(code, k); }
  }

  /** ERROR names the type of the request that it answers: 16 PUBLISH, 32 SUBSCRIBE, 34 UNSUBSCRIBE,
      48 CALL, 64 REGISTER, 66 UNREGISTER. For a request outstanding in the table of that type,
      exactly this request goes and exactly its future is rejected. Everything else is refused and
      changes nothing. */
  lemma ErrorByCode(s: State, code: int, id: int, error: int, d: Delivery)
    requires Inv(s) && s.sessionId.Some?
    ensures var t, r := s.tables, Receive(s, Errored(code, id, error), d);
      if code == 16 && id in t.publish then
        SettledAs(s, r, t.publish[id], t.(publish := t.publish - {id}), Rejected(error))
      else if code == 32 && id in t.subscribe then
        SettledAs(s, r, t.subscribe[id], t.(subscribe := t.subscribe - {id}), Rejected(error))
      else if code == 34 && id in t.unsubscribe then
        SettledAs(s, r, t.unsubscribe[id], t.(unsubscribe := t.unsubscribe - {id}), Rejected(error))
      else if code == 48 && id in t.call then
        SettledAs(s, r, t.call[id], t.(call := t.call - {id}), Rejected(error))
      else if code == 64 && id in t.register then
        SettledAs(s, r, t.register[id], t.(register := t.register - {id}), Rejected(error))
      else if code == 66 && id in t.unregister then
        SettledAs(s, r, t.unregister[id], t.(unregister := t.unregister - {id}), Rejected(error))
      else r == Stepped(s, Raised(ProtocolError))
  {
    match code {
      case 16 => ErrorOfKind(s, code, Publish, id, error, d);
      case 32 => ErrorOfKind(s, code, Subscribe, id, error, d);
      case 34 => ErrorOfKind(s, code, Unsubscribe, id, error, d);
      case 48 => ErrorOfKind(s, code, Call, id, error, d);
      case 64 => ErrorOfKind(s, code, Register, id, error, d);
      case 66 => ErrorOfKind(s, code, Unregister, id, error, d);
      case _ => ErrorOfNoKind(s, code, id, error, d);
    }
  }

  /** PUBLISHED and the final RESULT. */
  lemma PublishedAndResult(s: State, id: int, value: int, d: Delivery)
    requires Inv(s) && s.sessionId.Some?
    ensures var t, r := s.tables, Receive(s, Published(id, value), d);
      if id in t.publish then
        SettledAs(s, r, t.publish[id], t.(publish := t.publish - {id}), Resolved(Publication(value)))
      else r == Stepped(s, Raised(ProtocolError))
    ensures var t, r := s.tables, Receive(s, Resulted(id, false, value), d);
      if id in t.call then SettledAs(s, r, t.call[id], t.(call := t.call - {id}), Resolved(Result(value)))
      else r == Stepped(s, Raised(ProtocolError))
  {
    if id in s.tables.publish { SettledByDrop(s, Publish, id, Resolved(Publication(value))); }
    if id in s.tables.call { SettledByDrop(s, Call, id, Resolved(Result(value))); }
  }

  /** SUBSCRIBED: a new active subscription with the handler of the request goes to the end of the
      list under the router's id. */
  lemma SubscribedExactly(s: State, id: int, subscription: int, d: Delivery)
    requires Inv(s) && s.sessionId.Some?
    ensures var t, r := s.tables, Receive(s, Subscribed(id, subscription), d);
      if id in t.subscribe then
        var s1 := s.(subs := s.subs + [Subscription(subscription, true, t.subscribe[id].detail)],
                     subscriptions := s.subscriptions[subscription :=
                       (if subscription in s.subscriptions then s.subscriptions[subscription] else []) + [|s.subs|]]);
        SettledAs(s1, r, t.subscribe[id], t.(subscribe := t.subscribe - {id}), Resolved(SubscriptionOf(|s.subs|)))
      else r == Stepped(s, Raised(ProtocolError))
  {
    if id in s.tables.subscribe { SettledByDrop(s, Subscribe, id, Resolved(SubscriptionOf(|s.subs|))); }
  }

  /** REGISTERED under a new id: a new active registration with the endpoint of the request. */
  lemma RegisteredExactly(s: State, id: int, registration: int, d: Delivery)
    requires Inv(s) && s.sessionId.Some? && registration !in s.registrations
    ensures var t, r := s.tables, Receive(s, Registered(id, registration), d);
      if id in t.register then
        var s1 := s.(regs := s.regs + [Registration(registration, true, t.register[id].detail)],
                     registrations := s.registrations[registration := |s.regs|]);
        SettledAs(s1, r, t.register[id], t.(register := t.register - {id}), Resolved(RegistrationOf(|s.regs|)))
      else r == Stepped(s, Raised(ProtocolError))
  {
    if id in s.tables.register { SettledByDrop(s, Register, id, Resolved(RegistrationOf(|s.regs|))); }
  }

  /** UNSUBSCRIBED and UNREGISTERED settle the request in their own table; the future of the former
      resolves to 0. */
  lemma EndsAnswered(s: State, id: int, d: Delivery)
    requires Inv(s) && s.sessionId.Some?
    ensures var t, r := s.tables, Receive(s, Unsubscribed(id), d);
      if id in t.unsubscribe then
        && r.outcome == Done && r.state.tables == t.(unsubscribe := t.unsubscribe - {id})
        && r.state.futures == s.futures[t.unsubscribe[id].onReply := Resolved(Count(0))]
      else r == Stepped(s, Raised(ProtocolError))
    ensures var t, r := s.tables, Receive(s, Unregistered(id), d);
      if id in t.unregister then
        && r.outcome == Done && r.state.tables == t.(unregister := t.unregister - {id})
        && r.state.futures == s.futures[t.unregister[id].onReply := Resolved(Nothing)]
      else r == Stepped(s, Raised(ProtocolError))
  {
    if id in s.tables.unsubscribe { SettledByDrop(s, Unsubscribe, id, Resolved(Count(0))); }
    if id in s.tables.unregister { SettledByDrop(s, Unregister, id, Resolved(Nothing)); }
  }

  // ----- the calls

  /** The new request under the next id, with a new pending future. */
  function NewRequest(s: State, detail: int): Request { Request(NextId(s.lastId), |s.futures|, detail) }

  /** The request was sent and is stored; the caller has its future. */
  ghost predicate AskedFor(s: State, r: Stepped, k: Kind, stored: Tables<Request>, detail: int) {
    r == Stepped(s.(lastId := NextId(s.lastId), futures := s.futures + [Pending], tables := stored,
                    log := s.log + [Asked(k, NextId(s.lastId), detail)]), Returned(|s.futures|))
  }

  /** A publish that asks for no acknowledgement sends and keeps nothing; one that does keeps its
      request in its table until it is answered. */
  lemma PublishExactly(s: State)
    requires s.transport
    ensures var id, t := NextId(s.lastId), s.tables;
      && StepPublish(s, false, Sent) == Stepped(s.(lastId := id, log := s.log + [Asked(Publish, id, 0)]), Done)
      && AskedFor(s, StepPublish(s, true, Sent), Publish, t.(publish := t.publish[id := NewRequest(s, 0)]), 0)
  {
  }

  lemma CallExactly(s: State, detail: int)
    requires s.transport
    ensures var id, t, q := NextId(s.lastId), s.tables, NewRequest(s, detail);
      && AskedFor(s, Step(s, DoSubscribe(detail, Sent)), Subscribe, t.(subscribe := t.subscribe[id := q]), detail)
      && AskedFor(s, Step(s, DoCall(detail, Sent)), Call, t.(call := t.call[id := q]), detail)
      && AskedFor(s, Step(s, DoRegister(detail, Sent)), Register, t.(register := t.register[id := q]), detail)
  {
  }

  /** `unsubscribe` of the last subscription under an id and `unregister` ask the router to end it. */
  lemma EndExactly(s: State, h: nat)
    requires Inv(s) && s.transport
    ensures h < |s.subs| && s.subs[h].active && (forall x: nat :: Active(s.subs, s.subs[h].id, x) ==> x == h) ==>
      var sub, id, t := s.subs[h], NextId(s.lastId), s.tables;
      var s1 := s.(subs := s.subs[h := sub.(active := false)], subscriptions := s.subscriptions[sub.id := []]);
      AskedFor(s1, StepUnsubscribe(s, h, Sent), Unsubscribe,
               t.(unsubscribe := t.unsubscribe[id := NewRequest(s, sub.id)]), sub.id)
    ensures h < |s.regs| && s.regs[h].active ==>
      var reg, id, t := s.regs[h], NextId(s.lastId), s.tables;
      AskedFor(s, StepUnregister(s, h, Sent), Unregister,
               t.(unregister := t.unregister[id := NewRequest(s, reg.id)]), reg.id)
  {
    if h < |s.subs| && s.subs[h].active && forall x: nat :: Active(s.subs, s.subs[h].id, x) ==> x == h {
      LastUnsubscribe(s, h);
    }
  }

  lemma Member(list: seq<nat>)
    ensures list == [] || list[0] in list
  {
  }

  lemma LastUnsubscribe(s: State, h: nat)
    requires Inv(s) && s.transport && h < |s.subs| && s.subs[h].active
    requires forall x: nat :: Active(s.subs, s.subs[h].id, x) ==> x == h
    ensures s.subs[h].id in s.subscriptions && h in s.subscriptions[s.subs[h].id]
    ensures RemoveFirst(s.subscriptions[s.subs[h].id], h) == []
  {
    var id := s.subs[h].id;
    UnsubscribeKeeps(s.subscriptions, s.subs, h);
    RemoveFirstMeaning(s.subscriptions[id], h);
    var left := RemoveFirst(s.subscriptions[id], h);
    forall x: nat ensures x in left <==> Active(s.subs, id, x) && x != h {
      assert Lists(s.subscriptions, id, x) <==> Active(s.subs, id, x);
    }
    Member(left);
  }

  /** When the transport raises, publish and call take their request back, under an id that was not
      outstanding. */
  lemma TakenBack(s: State, detail: int, d: Delivery)
    requires s.transport && d != Sent && !Outstanding(s.tables, NextId(s.lastId))
    ensures var s1 := s.(lastId := NextId(s.lastId), futures := s.futures + [Pending]);
      && StepPublish(s, true, d) == Stepped(s1, Raised(SendFailed))
      && Step(s, DoCall(detail, d)) == Stepped(s1, Raised(SendFailed))
    ensures StepPublish(s, false, d) == Stepped(s.(lastId := NextId(s.lastId)), Raised(SendFailed))
  {
    var id := NextId(s.lastId);
    assert !Has(s.tables, Publish, id) && !Has(s.tables, Call, id);
    DropUndoesAllocate(s, Publish, 0);
    DropUndoesAllocate(s, Call, detail);
    assert s.tables.publish - {id} == s.tables.publish;
  }

  /** Subscribe and register leave it in its table, with a future that nobody holds. */
  lemma LeftBehind(s: State, detail: int, d: Delivery)
    requires s.transport && d != Sent
    ensures var id, t, q := NextId(s.lastId), s.tables, NewRequest(s, detail);
      var s1 := s.(lastId := id, futures := s.futures + [Pending]);
      && Step(s, DoSubscribe(detail, d))
         == Stepped(s1.(tables := t.(subscribe := t.subscribe[id := q])), Raised(SendFailed))
      && Step(s, DoRegister(detail, d))
         == Stepped(s1.(tables := t.(register := t.register[id := q])), Raised(SendFailed))
  {
  }

  // ----- without a transport, and without a session

  predicate IsCall(e: Input) {
    e.DoPublish? || e.DoSubscribe? || e.DoCall? || e.DoRegister? || e.DoUnsubscribe? || e.DoUnregister?
  }

  /** What an object that is no longer active, or that does not exist, answers before anything else. */
  function Gone(s: State, e: Input): Maybe<Error> {
    match e
    case DoUnsubscribe(h, _) =>
      if h >= |s.subs| then Some(NoSuchObject) else if !s.subs[h].active then Some(NotActive) else None
    case DoUnregister(h, _) =>
      if h >= |s.regs| then Some(NoSuchObject) else if !s.regs[h].active then Some(NotActive) else None
    case _ => None
  }

  /** A call raises TransportLost, and changes nothing, exactly while there is no transport. */
  lemma TransportLostIff(s: State, e: Input)
    requires Inv(s) && IsCall(e)
    ensures Gone(s, e).Some? ==> Step(s, e) == Stepped(s, Raised(Gone(s, e).value))
    ensures Gone(s, e).None? ==> (Step(s, e).outcome == Raised(TransportLost) <==> !s.transport)
    ensures Gone(s, e).None? && !s.transport ==> Step(s, e) == Stepped(s, Raised(TransportLost))
  {
    match e {
      case DoUnsubscribe(h, _) =>
        if Gone(s, e).None? { UnsubscribeKeeps(s.subscriptions, s.subs, h); }
      case _ =>
    }
  }

  /** The transport is there from one onOpen to the next onClose, whatever happens in between. */
  lemma {:induction false} TransportOverRuns(s: State, es: seq<Input>)
    ensures Step(s, OnOpen).state.transport && !Step(s, OnClose).state.transport
    ensures (forall i :: 0 <= i < |es| ==> !es[i].OnOpen? && !es[i].OnClose?) ==> Run(s, es).transport == s.transport
    ensures !s.transport && (forall i :: 0 <= i < |es| ==> !es[i].OnOpen?) ==> !Run(s, es).transport
    decreases es
  {
    if es != [] {
      var s' := Step(s, es[0]).state;
      TransportStep(s, es[0]);
      TransportOverRuns(s', es[1..]);
    }
  }

  lemma TransportStep(s: State, e: Input)
    ensures Step(s, e).state.transport == if e.OnOpen? then true else if e.OnClose? then false else s.transport
  {
    match e {
      case OnMessage(m, d) => TransportReceive(s, m, d);
      case _ =>
    }
  }

  lemma TransportReceive(s: State, m: Message, d: Delivery)
    ensures Receive(s, m, d).state.transport == s.transport
  {
  }

  /** So after onClose every call of a live object raises TransportLost until the next onOpen. */
  lemma LostUntilOpen(s: State, es: seq<Input>, e: Input)
    requires forall i :: 0 <= i < |es| ==> !es[i].OnOpen?
    requires IsCall(e) && Inv(Run(Step(s, OnClose).state, es)) && Gone(Run(Step(s, OnClose).state, es), e).None?
    ensures var t := Run(Step(s, OnClose).state, es); Step(t, e) == Stepped(t, Raised(TransportLost))
  {
    TransportOverRuns(s, []);
    TransportOverRuns(Step(s, OnClose).state, es);
    TransportLostIff(Run(Step(s, OnClose).state, es), e);
  }

  /** Before the session is established only WELCOME, ABORT and CHALLENGE are taken; afterwards
      just these are refused. */
  lemma FirstMessage(s: State, m: Message, d: Delivery)
    ensures s.sessionId.None? && m.Welcome? ==>
      Receive(s, m, d) == Stepped(s.(sessionId := Some(m.session), log := s.log + [Joined]), Done)
    ensures s.sessionId.None? && m.Abort? ==> Receive(s, m, d) == Stepped(s.(log := s.log + [Left]), Done)
    ensures s.sessionId.None? && m.Challenge? ==> Receive(s, m, d) == Stepped(s.(log := s.log + [Challenged]), Done)
    ensures (m.Welcome? || m.Abort? || m.Challenge?) != s.sessionId.None? ==>
      Receive(s, m, d) == Stepped(s, Raised(ProtocolError))
    ensures m.Other? ==> Receive(s, m, d) == Stepped(s, Raised(ProtocolError))
  {
  }

  lemma RunCons(s: State, e: Input, es: seq<Input>)
    ensures Run(s, [e] + es) == Run(Step(s, e).state, es)
  {
    assert ([e] + es)[1..] == es;
  }

  /** Joining and leaving where nothing stands in the way. */
  lemma JoinLeave(s: State)
    requires s.transport
    ensures !HasSession(s) ==> Step(s, Join(Sent)) == Stepped(s.(goodbyeSent := false, log := s.log + [Hello]), Done)
    ensures HasSession(s) && !s.goodbyeSent ==>
      Step(s, Leave(Sent)) == Stepped(s.(goodbyeSent := true, log := s.log + [Goodbye]), Done)
  {
  }

  lemma RunFour(s: State, s1: State, s2: State, s3: State, s4: State, a: Input, b: Input, c: Input, d: Input)
    requires Step(s, a).state == s1 && Step(s1, b).state == s2 && Step(s2, c).state == s3 && Step(s3, d).state == s4
    ensures Run(s, [a] + ([b] + ([c] + ([d] + [])))) == s4
  {
    RunCons(s, a, [b] + ([c] + ([d] + [])));
    RunCons(s1, b, [c] + ([d] + []));
    RunCons(s2, c, [d] + []);
    RunCons(s3, d, []);
  }

  lemma MessageStep(s: State, m: Message, d: Delivery)
    ensures Step(s, OnMessage(m, d)) == Receive(s, m, d)
  {
  }

  /** One session after the other on one transport: join, WELCOME, leave and the router's GOODBYE lead
      back to where the next one can join. */
  lemma SessionCycle(s: State, session: int, d: Delivery)
    requires s.transport && s.sessionId.None? && session != 0
    ensures Run(s, [Join(Sent)] +
                   ([OnMessage(Welcome(session), d)] + ([Leave(Sent)] + ([OnMessage(Goodbyed, d)] + []))))
         == s.(goodbyeSent := true, log := s.log + [Hello] + [Joined] + [Goodbye] + [Left])
  {
    var s1 := s.(goodbyeSent := false, log := s.log + [Hello]);
    var s2 := s1.(sessionId := Some(session), log := s1.log + [Joined]);
    var s3 := s2.(goodbyeSent := true, log := s2.log + [Goodbye]);
    var s4 := s3.(sessionId := None, log := s3.log + [Left]);
    JoinLeave(s);
    FirstMessage(s1, Welcome(session), d);
    MessageStep(s1, Welcome(session), d);
    JoinLeave(s2);
    SessionEnds(s3, d);
    MessageStep(s3, Goodbyed, d);
    RunFour(s, s1, s2, s3, s4, Join(Sent), OnMessage(Welcome(session), d), Leave(Sent), OnMessage(Goodbyed, d));
  }

  /** The router's GOODBYE ends the session, and is answered if none was sent; the loss of the transport
      ends it too. */
  lemma SessionEnds(s: State, d: Delivery)
    requires s.transport && HasSession(s)
    ensures s.goodbyeSent ==>
      Receive(s, Goodbyed, d) == Stepped(s.(sessionId := None, log := s.log + [Left]), Done)
    ensures !s.goodbyeSent && d == Sent ==>
      Receive(s, Goodbyed, d) == Stepped(s.(sessionId := None, log := s.log + [Goodbye, Left]), Done)
    ensures Step(s, OnClose)
         == Stepped(s.(transport := false, sessionId := None, log := s.log + [Left, Disconnected]), Done)
    ensures Step(s, Join(d)) == Stepped(s, Raised(AlreadyJoined))
    ensures s.goodbyeSent ==> Step(s, Leave(d)) == Stepped(s, Raised(SessionNotReady))
  {
    assert s.log + [] + [Left] == s.log + [Left] && s.log + [Goodbye] + [Left] == s.log + [Goodbye, Left];
  }

  lemma InvocationExactly(s: State, request: int, registration: int, d: Delivery)
    requires Inv(s) && s.sessionId.Some? && request !in s.invocations && registration in s.registrations
    ensures s.registrations[registration] < |s.regs|
    ensures Receive(s, Invocation(request, registration), d)
         == Stepped(s.(invocations := s.invocations + {request}, running := s.running + multiset{request},
                       log := s.log + [Invoked(request, s.regs[s.registrations[registration]].endpoint)]), Done)
  {
  }

  /** The answer: a result, or an error for an exception that can be described. */
  lemma EndedExactly(s: State, request: int, ending: Ending, second: Delivery)
    requires s.transport && request in s.invocations && s.running[request] > 0 && ending != Failure(false)
    ensures Step(s, Ended(request, ending, Sent, second))
         == Stepped(s.(invocations := s.invocations - {request}, running := s.running - multiset{request},
                       log := s.log + [if ending == Success then Yielded(request) else Failed(request)]), Done)
  {
  }

  /** An invocation from its message to its answer: the endpoint is called, and what becomes of it is
      a result or an error for just this request. */
  lemma InvocationAnswered(s: State, request: int, registration: int, ending: Ending, d: Delivery)
    requires Inv(s) && s.transport && s.sessionId.Some? && request !in s.invocations
    requires registration in s.registrations && ending != Failure(false)
    ensures s.registrations[registration] < |s.regs|
    ensures Run(s, [OnMessage(Invocation(request, registration), d)] + ([Ended(request, ending, Sent, d)] + []))
         == s.(log := s.log + [Invoked(request, s.regs[s.registrations[registration]].endpoint)]
                      + [if ending == Success then Yielded(request) else Failed(request)])
  {
    var e0, e1 := OnMessage(Invocation(request, registration), d), Ended(request, ending, Sent, d);
    var s1 := Step(s, e0).state;
    InvocationExactly(s, request, registration, d);
    EndedExactly(s1, request, ending, d);
    assert s.invocations + {request} - {request} == s.invocations;
    assert s.running + multiset{request} - multiset{request} == s.running;
    RunCons(s, e0, [e1] + []);
    RunCons(s1, e1, []);
  }

  // ----- progressive results

  function Progress(request: int, values: seq<int>, d: Delivery): (r: seq<Input>)
    ensures |r| == |values|
    ensures forall i :: 0 <= i < |r| ==> r[i] == OnMessage(Resulted(request, true, values[i]), d)
  {
    seq(|values|, i requires 0 <= i < |values| => OnMessage(Resulted(request, true, values[i]), d))
  }

  /** Any number of progressive results of a call with a handler: each reaches the handler, and the
      request and its future wait for the final result. */
  lemma {:induction false} ProgressReaches(s: State, request: int, values: seq<int>, d: Delivery)
    requires s.sessionId.Some? && request in s.tables.call && s.tables.call[request].detail == ON_PROGRESS
    ensures Run(s, Progress(request, values, d))
         == s.(log := s.log + seq(|values|, i requires 0 <= i < |values| => Progressed(request)))
    decreases |values|
  {
    var es := Progress(request, values, d);
    if values == [] {
      assert s.log + [] == s.log;
    } else {
      var s' := s.(log := s.log + [Progressed(request)]);
      assert Step(s, es[0]) == Stepped(s', Done);
      assert es[1..] == Progress(request, values[1..], d);
      ProgressReaches(s', request, values[1..], d);
      var n := |values|;
      assert [Progressed(request)] + seq(n - 1, i requires 0 <= i < n - 1 => Progressed(request))
          == seq(n, i requires 0 <= i < n => Progressed(request));
      assert s'.log + seq(n - 1, i requires 0 <= i < n - 1 => Progressed(request))
          == s.log + ([Progressed(request)] + seq(n - 1, i requires 0 <= i < n - 1 => Progressed(request)));
    }
  }

  /** Options without a handler swallow it; without any options the client's own code fails. */
  lemma ProgressUnheard(s: State, request: int, value: int, d: Delivery)
    requires s.sessionId.Some?
    ensures var r := Receive(s, Resulted(request, true, value), d);
      if request !in s.tables.call then r == Stepped(s, Raised(ProtocolError))
      else if s.tables.call[request].detail == NO_OPTIONS then r == Stepped(s, Raised(NoOptions))
      else s.tables.call[request].detail != ON_PROGRESS ==> r == Stepped(s, Done)
  {
  }
}
