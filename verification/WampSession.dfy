/** The session of wamp/protocol.py as a state machine: API calls, received messages and results of
    endpoints are its events. Futures, subscriptions and registrations are named by the order of
    their creation. */
module WampSession {
  import opened Wrappers

  datatype Kind = Publish | Subscribe | Unsubscribe | Call | Register | Unregister

  /** An outstanding request. `detail` is what its class adds: the handler, the endpoint, the id of
      the subscription or registration to remove, or the call's options. */
  datatype Request = Request(requestId: int, onReply: nat, detail: int)

  /** The options of a call: none given, or with a handler of progressive results; any other number
      stands for options without one. */
  const NO_OPTIONS := 0
  const ON_PROGRESS := 2

  /** The six tables of outstanding requests. */
  datatype Tables<R> = Tables(publish: map<int, R>, subscribe: map<int, R>, unsubscribe: map<int, R>,
                              call: map<int, R>, register: map<int, R>, unregister: map<int, R>)
  {
    function Of(k: Kind): map<int, R> {
      match k
      case Publish => publish
      case Subscribe => subscribe
      case Unsubscribe => unsubscribe
      case Call => call
      case Register => register
      case Unregister => unregister
    }
  }

  /** The tables with one of them replaced. */
  function WithTable<R>(tables: Tables<R>, k: Kind, t: map<int, R>): (r: Tables<R>)
    ensures forall k': Kind :: r.Of(k') == if k' == k then t else tables.Of(k')
  {
    match k
    case Publish => tables.(publish := t)
    case Subscribe => tables.(subscribe := t)
    case Unsubscribe => tables.(unsubscribe := t)
    case Call => tables.(call := t)
    case Register => tables.(register := t)
    case Unregister => tables.(unregister := t)
  }

  /** What a future resolves to. */
  datatype Value = Nothing | Count(n: nat) | Publication(id: int) | Result(value: int)
                 | SubscriptionOf(handle: nat) | RegistrationOf(handle: nat)

  datatype Future = Pending | Resolved(value: Value) | Rejected(error: int)

  datatype Subscription = Subscription(id: int, active: bool, handler: int)

  datatype Registration = Registration(id: int, active: bool, endpoint: int)

  /** What the session does to the outside: messages sent, handlers and endpoints called. */
  datatype Action =
    | Hello
    | Goodbye
    | Asked(kind: Kind, request: int, detail: int)
    | Yielded(request: int)
    | Failed(request: int)
    | Fired(handler: int)
    | Invoked(request: int, endpoint: int)
    | Interrupted(request: int)
    | Progressed(request: int)
    | Joined
    | Left
    | Challenged
    | Disconnected

  datatype State = State(
    transport: bool,
    sessionId: Maybe<int>,
    goodbyeSent: bool,
    lastId: int,
    tables: Tables<Request>,
    subscriptions: map<int, seq<nat>>,
    registrations: map<int, nat>,
    invocations: set<int>,
    futures: seq<Future>,
    subs: seq<Subscription>,
    regs: seq<Registration>,
    running: multiset<int>,
    log: seq<Action>)

  const NEW_SESSION :=
    State(false, None, false, -1, Tables(map[], map[], map[], map[], map[], map[]),
          map[], map[], {}, [], [], [], multiset{}, [])

  datatype Error =
    | AlreadyJoined | NotJoined | SessionNotReady | TransportLost | NoTransport | SendFailed
    | ProtocolError | NotActive | AssertionFailed | AlreadyCalled | KeyError | Undescribable | NoOptions
    | NoSuchObject

  datatype Outcome = Done | Returned(future: nat) | Raised(error: Error)

  datatype Stepped = Stepped(state: State, outcome: Outcome)

  /** Requests, futures, subscriptions and registrations are as before, and no fault of the session's
      own is reported. */
  predicate Quiet(s: State, r: Stepped) {
    && r.state.tables == s.tables && r.state.futures == s.futures && r.state.subscriptions == s.subscriptions
    && r.state.subs == s.subs && r.state.registrations == s.registrations && r.state.regs == s.regs
    && r.state.lastId == s.lastId && !Internal(r.outcome)
  }

  /** An action that has nothing to do with invocations. */
  predicate Plain(a: Action) { !a.Invoked? && !a.Yielded? && !a.Failed? && !a.Interrupted? }

  predicate Grows(log: seq<Action>, log': seq<Action>) {
    |log| <= |log'| && log'[..|log|] == log && forall i :: |log| <= i < |log'| ==> Plain(log'[i])
  }

  /** Invocations are as before, and the log says nothing new about them. */
  predicate Aside(s: State, r: Stepped) {
    r.state.invocations == s.invocations && r.state.running == s.running && Grows(s.log, r.state.log)
  }

  /** An action that has nothing to do with the beginning and end of sessions. */
  predicate Unrelated(a: Action) { !a.Joined? && !a.Goodbye? && !a.Left? }

  /** The session goes on, or does not, as before, and the log says nothing new about that. */
  predicate Apart(s: State, r: Stepped) {
    && r.state.transport == s.transport && r.state.sessionId == s.sessionId && r.state.goodbyeSent == s.goodbyeSent
    && |s.log| <= |r.state.log| && r.state.log[..|s.log|] == s.log
    && forall i :: |s.log| <= i < |r.state.log| ==> Unrelated(r.state.log[i])
  }

  /** A failed `assert`, or a future resolved for the second time. */
  predicate Internal(o: Outcome) { o == Raised(AssertionFailed) || o == Raised(AlreadyCalled) }

  /** What becomes of a message given to the transport. */
  datatype Delivery = Sent | Unserializable | Broken

  datatype Message =
    | Welcome(session: int)
    | Abort
    | Challenge
    | Goodbyed
    | Event(subscription: int)
    | Published(request: int, publication: int)
    | Subscribed(request: int, subscription: int)
    | Unsubscribed(request: int)
    | Resulted(request: int, progress: bool, value: int)
    | Invocation(request: int, registration: int)
    | Interrupt(request: int)
    | Registered(request: int, registration: int)
    | Unregistered(request: int)
    | Errored(requestType: int, request: int, error: int)
    | Other

  /** How an endpoint ends: with a result or with an exception. The exception can be described if it
      has arguments and the first of them can be formatted into a byte string; the callback does that
      first of all, and fails with an IndexError or a UnicodeEncodeError when it cannot. */
  datatype Ending = Success | Failure(describable: bool)

  datatype Input =
    | OnOpen
    | OnClose
    | Join(delivery: Delivery)
    | Leave(delivery: Delivery)
    | DoPublish(acknowledge: bool, delivery: Delivery)
    | DoSubscribe(handler: int, delivery: Delivery)
    | DoUnsubscribe(handle: nat, delivery: Delivery)
    | DoCall(options: int, delivery: Delivery)
    | DoRegister(endpoint: int, delivery: Delivery)
    | DoUnregister(handle: nat, delivery: Delivery)
    | OnMessage(message: Message, delivery: Delivery)
    | Ended(request: int, ending: Ending, delivery: Delivery, second: Delivery)

  // ----- requests

  const MAX_ID := 9007199254740992

  /** `IdGenerator.next`. */
  function NextId(last: int): int {
    if last + 1 > MAX_ID then 0 else last + 1
  }

  function Allocate(s: State, k: Kind, detail: int): State {
    var id := NextId(s.lastId);
    s.(lastId := id,
       futures := s.futures + [Pending],
       tables := WithTable(s.tables, k, s.tables.Of(k)[id := Request(id, |s.futures|, detail)]))
  }

  function Drop(s: State, k: Kind, id: int): State {
    s.(tables := WithTable(s.tables, k, s.tables.Of(k) - {id}))
  }

  /** Store a request and send it. Some calls take it back when the transport raises. */
  function Ask(s: State, k: Kind, detail: int, d: Delivery, takesBack: bool): (r: Stepped)
    ensures Aside(s, r) && Apart(s, r)
  {
    var s1 := Allocate(s, k, detail);
    if d == Sent then Stepped(s1.(log := s.log + [Asked(k, s1.lastId, detail)]), Returned(|s.futures|))
    else Stepped(if takesBack then Drop(s1, k, s1.lastId) else s1, Raised(SendFailed))
  }

  function StepPublish(s: State, acknowledge: bool, d: Delivery): (r: Stepped)
    ensures Aside(s, r) && Apart(s, r)
  {
    if !s.transport then Stepped(s, Raised(TransportLost))
    else if acknowledge then Ask(s, Publish, 0, d, true)
    else
      var s1 := s.(lastId := NextId(s.lastId));
      if d == Sent then Stepped(s1.(log := s.log + [Asked(Publish, s1.lastId, 0)]), Done)
      else Stepped(Drop(s1, Publish, s1.lastId), Raised(SendFailed))
  }

  function StepAsk(s: State, k: Kind, detail: int, d: Delivery): (r: Stepped)
    ensures Aside(s, r) && Apart(s, r)
  {
    if !s.transport then Stepped(s, Raised(TransportLost)) else Ask(s, k, detail, d, k == Call)
  }

  function RemoveFirst(list: seq<nat>, h: nat): seq<nat> {
    if list == [] then [] else if list[0] == h then list[1..] else [list[0]] + RemoveFirst(list[1..], h)
  }

  /** `Subscription.unsubscribe`. */
  function StepUnsubscribe(s: State, h: nat, d: Delivery): (r: Stepped)
    ensures Aside(s, r) && Apart(s, r)
  {
    if h >= |s.subs| then Stepped(s, Raised(NoSuchObject))
    else
      var sub := s.subs[h];
      if !sub.active then Stepped(s, Raised(NotActive))
      else if sub.id !in s.subscriptions || h !in s.subscriptions[sub.id] then Stepped(s, Raised(AssertionFailed))
      else if !s.transport then Stepped(s, Raised(TransportLost))
      else
        var left := RemoveFirst(s.subscriptions[sub.id], h);
        var s1 := s.(subscriptions := s.subscriptions[sub.id := left], subs := s.subs[h := sub.(active := false)]);
        if left == [] then Ask(s1, Unsubscribe, sub.id, d, false)
        else Stepped(s1.(futures := s.futures + [Resolved(Count(|left|))]), Returned(|s.futures|))
  }

  /** `Registration.unregister`. */
  function StepUnregister(s: State, h: nat, d: Delivery): (r: Stepped)
    ensures Aside(s, r) && Apart(s, r)
  {
    if h >= |s.regs| then Stepped(s, Raised(NoSuchObject))
    else
      var reg := s.regs[h];
      if !reg.active then Stepped(s, Raised(NotActive))
      else if reg.id !in s.registrations then Stepped(s, Raised(AssertionFailed))
      else if !s.transport then Stepped(s, Raised(TransportLost))
      else Ask(s, Unregister, reg.id, d, false)
  }

  // ----- the session itself

  predicate HasSession(s: State) { s.sessionId.Some? && s.sessionId.value != 0 }

  function StepJoin(s: State, d: Delivery): (r: Stepped)
    ensures Aside(s, r)
    ensures Quiet(s, r)
  {
    if HasSession(s) then Stepped(s, Raised(AlreadyJoined))
    else
      var s1 := s.(goodbyeSent := false);
      if !s.transport then Stepped(s1, Raised(NoTransport))
      else if d != Sent then Stepped(s1, Raised(SendFailed))
      else Stepped(s1.(log := s.log + [Hello]), Done)
  }

  function StepLeave(s: State, d: Delivery): (r: Stepped)
    ensures Aside(s, r)
    ensures Quiet(s, r)
  {
    if !HasSession(s) then Stepped(s, Raised(NotJoined))
    else if s.goodbyeSent then Stepped(s, Raised(SessionNotReady))
    else if !s.transport then Stepped(s, Raised(NoTransport))
    else if d != Sent then Stepped(s, Raised(SendFailed))
    else Stepped(s.(goodbyeSent := true, log := s.log + [Goodbye]), Done)
  }

  function StepClose(s: State): (r: Stepped)
    ensures Aside(s, r)
    ensures Quiet(s, r)
  {
    var s1 := s.(transport := false);
    if HasSession(s) then Stepped(s1.(sessionId := None, log := s.log + [Left, Disconnected]), Done)
    else Stepped(s1.(log := s.log + [Disconnected]), Done)
  }

  // ----- received messages

  /** A future that is no longer pending cannot be resolved or rejected. */
  function Settle(s: State, f: nat, outcome: Future): Stepped {
    if f < |s.futures| && s.futures[f] == Pending then Stepped(s.(futures := s.futures[f := outcome]), Done)
    else Stepped(s, Raised(AlreadyCalled))
  }

  /** An answer removes its request and settles the future; with no such request it is refused. */
  predicate Settles(s: State, r: Stepped, k: Kind, id: int, outcome: Future) {
    if id in s.tables.Of(k) then
      var f := s.tables.Of(k)[id].onReply;
      && r.state.tables == Drop(s, k, id).tables && r.state.lastId == s.lastId
      && (if f < |s.futures| && s.futures[f] == Pending
          then r.outcome == Done && r.state.futures == s.futures[f := outcome]
          else r.outcome == Raised(AlreadyCalled) && r.state.futures == s.futures)
    else r == Stepped(s, Raised(ProtocolError))
  }

  function OnPublished(s: State, request: int, publication: int): (r: Stepped)
    ensures Aside(s, r) && Apart(s, r)
    ensures Settles(s, r, Publish, request, Resolved(Publication(publication)))
  {
    if request in s.tables.publish then
      Settle(Drop(s, Publish, request), s.tables.publish[request].onReply, Resolved(Publication(publication)))
    else Stepped(s, Raised(ProtocolError))
  }

  function Listed(subscriptions: map<int, seq<nat>>, id: int): seq<nat> {
    if id in subscriptions then subscriptions[id] else []
  }

  function OnSubscribed(s: State, request: int, subscription: int): (r: Stepped)
    ensures Aside(s, r) && Apart(s, r)
    ensures Settles(s, r, Subscribe, request, Resolved(SubscriptionOf(|s.subs|)))
  {
    if request in s.tables.subscribe then
      var r, h := s.tables.subscribe[request], |s.subs|;
      var s1 := Drop(s, Subscribe, request).(
        subscriptions := s.subscriptions[subscription := Listed(s.subscriptions, subscription) + [h]],
        subs := s.subs + [Subscription(subscription, true, r.detail)]);
      Settle(s1, r.onReply, Resolved(SubscriptionOf(h)))
    else Stepped(s, Raised(ProtocolError))
  }

  function Deactivated(subs: seq<Subscription>, list: seq<nat>): (r: seq<Subscription>)
    ensures |r| == |subs|
    ensures forall i :: 0 <= i < |subs| ==> r[i] == if i in list then subs[i].(active := false) else subs[i]
  {
    seq(|subs|, i requires 0 <= i < |subs| => if i in list then subs[i].(active := false) else subs[i])
  }

  function OnUnsubscribed(s: State, request: int): (r: Stepped)
    ensures Aside(s, r) && Apart(s, r)
    ensures Settles(s, r, Unsubscribe, request, Resolved(Count(0)))
  {
    if request in s.tables.unsubscribe then
      var r := s.tables.unsubscribe[request];
      var s0 := Drop(s, Unsubscribe, request);
      var s1 := if r.detail in s.subscriptions
                then s0.(subs := Deactivated(s.subs, s.subscriptions[r.detail]),
                         subscriptions := s.subscriptions - {r.detail})
                else s0;
      Settle(s1, r.onReply, Resolved(Count(0)))
    else Stepped(s, Raised(ProtocolError))
  }

  function OnProgress(s: State, request: int, options: int): (r: Stepped)
    ensures Aside(s, r) && Apart(s, r) && Quiet(s, r)
  {
    if options == NO_OPTIONS then Stepped(s, Raised(NoOptions))
    else if options == ON_PROGRESS then Stepped(s.(log := s.log + [Progressed(request)]), Done)
    else Stepped(s, Done)
  }

  function OnResult(s: State, request: int, progress: bool, value: int): (r: Stepped)
    ensures Aside(s, r) && Apart(s, r)
    ensures if progress then Quiet(s, r) else Settles(s, r, Call, request, Resolved(Result(value)))
  {
    if request !in s.tables.call then Stepped(s, Raised(ProtocolError))
    else if progress then OnProgress(s, request, s.tables.call[request].detail)
    else Settle(Drop(s, Call, request), s.tables.call[request].onReply, Resolved(Result(value)))
  }

  function OnRegistered(s: State, request: int, registration: int): (r: Stepped)
    ensures Aside(s, r) && Apart(s, r)
    ensures registration !in s.registrations ==> Settles(s, r, Register, request, Resolved(RegistrationOf(|s.regs|)))
  {
    if request in s.tables.register then
      var r, s1 := s.tables.register[request], Drop(s, Register, request);
      if registration in s.registrations then Stepped(s1, Raised(ProtocolError))
      else
        var h := |s.regs|;
        var s2 := s1.(registrations := s.registrations[registration := h],
                      regs := s.regs + [Registration(registration, true, r.detail)]);
        Settle(s2, r.onReply, Resolved(RegistrationOf(h)))
    else Stepped(s, Raised(ProtocolError))
  }

  function Withdrawn(regs: seq<Registration>, h: nat): seq<Registration> {
    if h < |regs| then regs[h := regs[h].(active := false)] else regs
  }

  function OnUnregistered(s: State, request: int): (r: Stepped)
    ensures Aside(s, r) && Apart(s, r)
    ensures Settles(s, r, Unregister, request, Resolved(Nothing))
  {
    if request in s.tables.unregister then
      var r := s.tables.unregister[request];
      var s0 := Drop(s, Unregister, request);
      var s1 := if r.detail in s.registrations
                then s0.(regs := Withdrawn(s.regs, s.registrations[r.detail]),
                         registrations := s.registrations - {r.detail})
                else s0;
      Settle(s1, r.onReply, Resolved(Nothing))
    else Stepped(s, Raised(ProtocolError))
  }

  /** `MESSAGE_TYPE` of the request's message. */
  function TypeOf(k: Kind): int {
    match k
    case Publish => 16
    case Subscribe => 32
    case Unsubscribe => 34
    case Call => 48
    case Register => 64
    case Unregister => 66
  }

  function KindOf(messageType: int): (k: Maybe<Kind>)
    ensures k.Some? ==> TypeOf(k.value) == messageType
    ensures k.None? ==> forall k': Kind :: TypeOf(k') != messageType
  {
    if messageType == 48 then Some(Call)
    else if messageType == 16 then Some(Publish)
    else if messageType == 32 then Some(Subscribe)
    else if messageType == 34 then Some(Unsubscribe)
    else if messageType == 64 then Some(Register)
    else if messageType == 66 then Some(Unregister)
    else None
  }

  function OnError(s: State, requestType: int, request: int, error: int): (r: Stepped)
    ensures Aside(s, r) && Apart(s, r)
    ensures if KindOf(requestType).Some? then Settles(s, r, KindOf(requestType).value, request, Rejected(error))
            else r == Stepped(s, Raised(ProtocolError))
  {
    var k := KindOf(requestType);
    if k.Some? && request in s.tables.Of(k.value) then
      Settle(Drop(s, k.value, request), s.tables.Of(k.value)[request].onReply, Rejected(error))
    else Stepped(s, Raised(ProtocolError))
  }

  function EndpointOf(s: State, registration: int): int
    requires registration in s.registrations
  {
    var h := s.registrations[registration];
    if h < |s.regs| then s.regs[h].endpoint else 0
  }

  function OnInvocation(s: State, request: int, registration: int): (r: Stepped)
    ensures Quiet(s, r) && Apart(s, r)
  {
    if request in s.invocations || registration !in s.registrations then Stepped(s, Raised(ProtocolError))
    else Stepped(s.(invocations := s.invocations + {request}, running := s.running + multiset{request},
                    log := s.log + [Invoked(request, EndpointOf(s, registration))]), Done)
  }

  /** The entry has no `cancel`, so that the endpoint runs on. */
  function OnInterrupt(s: State, request: int): (r: Stepped)
    ensures Quiet(s, r) && Apart(s, r)
  {
    if request !in s.invocations then Stepped(s, Raised(ProtocolError))
    else Stepped(s.(invocations := s.invocations - {request}, log := s.log + [Interrupted(request)]), Done)
  }

  /** The handlers of the listed subscriptions are called in order. */
  function Fires(subs: seq<Subscription>, list: seq<nat>): (r: seq<Action>)
    ensures |r| == |list|
    ensures forall i :: 0 <= i < |list| && list[i] < |subs| ==> r[i] == Fired(subs[list[i]].handler)
  {
    seq(|list|, i requires 0 <= i < |list| => if list[i] < |subs| then Fired(subs[list[i]].handler) else Fired(0))
  }

  function OnEvent(s: State, subscription: int): (r: Stepped)
    ensures Aside(s, r) && Apart(s, r)
    ensures Quiet(s, r)
  {
    if subscription in s.subscriptions then
      Stepped(s.(log := s.log + Fires(s.subs, s.subscriptions[subscription])), Done)
    else Stepped(s, Raised(ProtocolError))
  }

  function OnGoodbye(s: State, d: Delivery): (r: Stepped)
    ensures Aside(s, r)
    ensures Quiet(s, r)
  {
    if !s.goodbyeSent && !s.transport then Stepped(s, Raised(NoTransport))
    else if !s.goodbyeSent && d != Sent then Stepped(s, Raised(SendFailed))
    else Stepped(s.(sessionId := None, log := s.log + (if s.goodbyeSent then [] else [Goodbye]) + [Left]), Done)
  }

  function Receive(s: State, m: Message, d: Delivery): Stepped {
    if s.sessionId.None? then
      match m
      case Welcome(session) => Stepped(s.(sessionId := Some(session), log := s.log + [Joined]), Done)
      case Abort => Stepped(s.(log := s.log + [Left]), Done)
      case Challenge => Stepped(s.(log := s.log + [Challenged]), Done)
      case _ => Stepped(s, Raised(ProtocolError))
    else
      match m
      case Goodbyed => OnGoodbye(s, d)
      case Event(subscription) => OnEvent(s, subscription)
      case Published(request, publication) => OnPublished(s, request, publication)
      case Subscribed(request, subscription) => OnSubscribed(s, request, subscription)
      case Unsubscribed(request) => OnUnsubscribed(s, request)
      case Resulted(request, progress, value) => OnResult(s, request, progress, value)
      case Invocation(request, registration) => OnInvocation(s, request, registration)
      case Interrupt(request) => OnInterrupt(s, request)
      case Registered(request, registration) => OnRegistered(s, request, registration)
      case Unregistered(request) => OnUnregistered(s, request)
      case Errored(requestType, request, error) => OnError(s, requestType, request, error)
      case _ => Stepped(s, Raised(ProtocolError))
  }

  /** The future of an endpoint fires: the callbacks `success` and `error` of `onMessage`. */
  function StepEnded(s: State, request: int, ending: Ending, d: Delivery, second: Delivery): (r: Stepped)
    ensures Quiet(s, r) && Apart(s, r)
  {
    if s.running[request] == 0 then Stepped(s, Raised(NoSuchObject))
    else
      var s0 := s.(running := s.running - multiset{request});
      if ending == Failure(false) then Stepped(s0, Raised(Undescribable))
      else if request !in s.invocations then Stepped(s0, Raised(KeyError))
      else
        Reply(s0.(invocations := s.invocations - {request}), request, ending, d, second)
  }

  /** The result or the error is sent. A result that cannot be serialized becomes an error. */
  function Reply(s: State, request: int, ending: Ending, d: Delivery, second: Delivery): (r: Stepped)
    ensures Quiet(s, r) && Apart(s, r) && r.state.invocations == s.invocations && r.state.running == s.running
    ensures r.outcome == Done <==> s.transport && (d == Sent || (d == Unserializable && second == Sent))
    ensures r.outcome == Done ==>
      r.state.log == s.log + [if ending.Success? && d == Sent then Yielded(request) else Failed(request)]
    ensures r.outcome != Done ==> r.state.log == s.log
  {
    if !s.transport then Stepped(s, Raised(NoTransport))
    else if d == Sent then
      Stepped(s.(log := s.log + [if ending.Success? then Yielded(request) else Failed(request)]), Done)
    else if d == Unserializable && second == Sent then Stepped(s.(log := s.log + [Failed(request)]), Done)
    else Stepped(s, Raised(SendFailed))
  }

  function Step(s: State, e: Input): Stepped {
    match e
    case OnOpen => Stepped(s.(transport := true), Done)
    case OnClose => StepClose(s)
    case Join(d) => StepJoin(s, d)
    case Leave(d) => StepLeave(s, d)
    case DoPublish(acknowledge, d) => StepPublish(s, acknowledge, d)
    case DoSubscribe(handler, d) => StepAsk(s, Subscribe, handler, d)
    case DoUnsubscribe(h, d) => StepUnsubscribe(s, h, d)
    case DoCall(options, d) => StepAsk(s, Call, options, d)
    case DoRegister(endpoint, d) => StepAsk(s, Register, endpoint, d)
    case DoUnregister(h, d) => StepUnregister(s, h, d)
    case OnMessage(m, d) => Receive(s, m, d)
    case Ended(request, ending, d, second) => StepEnded(s, request, ending, d, second)
  }

  function Run(s: State, es: seq<Input>): State
    decreases es
  {
    if es == [] then s else Run(Step(s, es[0]).state, es[1..])
  }
}
