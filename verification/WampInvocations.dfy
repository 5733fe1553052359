/** Invocations of a session: how many are answered, interrupted, still open or lost. */
module WampInvocations {
  import opened Wrappers
  import opened WampSession

  /** What the log says about one invocation id. */
  datatype Tally = Tally(calls: nat, replies: nat, stops: nat)

  function TallyOf(log: seq<Action>, id: int): Tally {
    if log == [] then Tally(0, 0, 0)
    else Added(TallyOf(log[..|log| - 1], id), log[|log| - 1], id)
  }

  function Added(t: Tally, a: Action, id: int): Tally {
    match a
    case Invoked(request, _) => if request == id then t.(calls := t.calls + 1) else t
    case Yielded(request) => if request == id then t.(replies := t.replies + 1) else t
    case Failed(request) => if request == id then t.(replies := t.replies + 1) else t
    case Interrupted(request) => if request == id then t.(stops := t.stops + 1) else t
    case _ => t
  }

  lemma OneMore(log: seq<Action>, a: Action, id: int)
    ensures TallyOf(log + [a], id) == Added(TallyOf(log, id), a, id)
  {
    assert (log + [a])[..|log|] == log;
  }

  lemma {:induction false} PlainDoNotCount(log: seq<Action>, plain: seq<Action>, id: int)
    requires forall i :: 0 <= i < |plain| ==> Plain(plain[i])
    ensures TallyOf(log + plain, id) == TallyOf(log, id)
  {
    if plain == [] {
      assert log + plain == log;
    } else {
      var n := |plain| - 1;
      PlainDoNotCount(log, plain[..n], id);
      OneMore(log + plain[..n], plain[n], id);
      assert log + plain == log + plain[..n] + [plain[n]];
    }
  }

  // ----- what a step adds to the log

  /** What a step says about invocations: the open ones afterwards, and at most one action about one
      of them, after actions that have nothing to do with invocations. */
  datatype Effect = Nothing | Opens(request: int, endpoint: int) | Stops(request: int)
                  | Answers(request: int, ok: bool) | Drops(request: int)

  /** How a step affects the invocations. */
  function EffectOf(s: State, e: Input): Effect {
    match e
    case OnMessage(m, _) =>
      if s.sessionId.None? then Effect.Nothing
      else
        (match m
         case Invocation(request, registration) =>
           if request in s.invocations || registration !in s.registrations then Effect.Nothing
           else Opens(request, EndpointOf(s, registration))
         case Interrupt(request) => if request in s.invocations then Stops(request) else Effect.Nothing
         case _ => Effect.Nothing)
    case Ended(request, ending, d, second) =>
      if s.running[request] == 0 || ending == Failure(false) || request !in s.invocations then Effect.Nothing
      else if s.transport && (d == Sent || (d == Unserializable && second == Sent)) then
        Answers(request, ending.Success? && d == Sent)
      else Drops(request)
    case _ => Effect.Nothing
  }

  function OpenAfter(open: set<int>, f: Effect): set<int> {
    match f
    case Nothing => open
    case Opens(request, _) => open + {request}
    case _ => open - {f.request}
  }

  function Logged(f: Effect): seq<Action> {
    match f
    case Opens(request, endpoint) => [Invoked(request, endpoint)]
    case Stops(request) => [Interrupted(request)]
    case Answers(request, ok) => [if ok then Yielded(request) else Failed(request)]
    case _ => []
  }

  /** The step has this effect. */
  predicate Has(s: State, s': State, f: Effect) {
    && s'.invocations == OpenAfter(s.invocations, f)
    && (if f.Nothing? then Grows(s.log, s'.log) else s'.log == s.log + Logged(f))
  }

  lemma ReplyHas(s: State, s1: State, e: Input)
    requires e.Ended? && s.running[e.request] > 0 && e.ending != Failure(false) && e.request in s.invocations
    requires s1.invocations == s.invocations - {e.request} && s1.log == s.log && s1.transport == s.transport
    ensures Has(s, Reply(s1, e.request, e.ending, e.delivery, e.second).state, EffectOf(s, e))
  {
    assert s.log + [] == s.log;
  }

  lemma EndedHas(s: State, e: Input)
    requires e.Ended?
    ensures Has(s, StepEnded(s, e.request, e.ending, e.delivery, e.second).state, EffectOf(s, e))
  {
    if s.running[e.request] > 0 && e.ending != Failure(false) && e.request in s.invocations {
      var s0 := s.(running := s.running - multiset{e.request});
      ReplyHas(s, s0.(invocations := s.invocations - {e.request}), e);
    }
  }

  lemma MessageHas(s: State, m: Message, d: Delivery)
    ensures Has(s, Receive(s, m, d).state, EffectOf(s, OnMessage(m, d)))
  {
  }

  lemma CallHas(s: State, e: Input)
    requires !e.Ended? && !e.OnMessage?
    ensures Aside(s, Step(s, e))
  {
  }

  lemma StepHas(s: State, e: Input)
    ensures Has(s, Step(s, e).state, EffectOf(s, e))
  {
    match e
    case Ended(_, _, _, _) => EndedHas(s, e);
    case OnMessage(m, d) => MessageHas(s, m, d);
    case _ => CallHas(s, e);
  }

  // ----- the balance

  function Open(open: set<int>, id: int): nat { if id in open then 1 else 0 }

  /** Invocations that are neither answered nor interrupted nor open. */
  function Missing(log: seq<Action>, open: set<int>, id: int): int {
    var t := TallyOf(log, id);
    t.calls - t.replies - t.stops - Open(open, id)
  }

  predicate Possible(open: set<int>, f: Effect) {
    if f.Opens? then f.request !in open else f.Nothing? || f.request in open
  }

  lemma EffectBalances(log: seq<Action>, log': seq<Action>, open: set<int>, f: Effect, id: int)
    requires Possible(open, f)
    requires if f.Nothing? then Grows(log, log') else log' == log + Logged(f)
    ensures Missing(log', OpenAfter(open, f), id) == Missing(log, open, id) + if f == Drops(id) then 1 else 0
  {
    match f
    case Nothing =>
      PlainDoNotCount(log, log'[|log|..], id);
      assert log' == log + log'[|log|..];
    case Drops(request) => assert log + [] == log;
    case Opens(request, endpoint) => OneMore(log, Invoked(request, endpoint), id);
    case Stops(request) => OneMore(log, Interrupted(request), id);
    case Answers(request, ok) => OneMore(log, if ok then Yielded(request) else Failed(request), id);
  }

  lemma EffectPossible(s: State, e: Input)
    ensures Possible(s.invocations, EffectOf(s, e))
  {
  }

  /** The runs in which the answer to invocation `id` cannot be sent. */
  function Losses(s: State, es: seq<Input>, id: int): nat
    decreases es
  {
    if es == [] then 0
    else (if EffectOf(s, es[0]) == Drops(id) then 1 else 0) + Losses(Step(s, es[0]).state, es[1..], id)
  }

  lemma {:induction false} RunBalances(s: State, es: seq<Input>, id: int)
    ensures var s' := Run(s, es);
      Missing(s'.log, s'.invocations, id) == Missing(s.log, s.invocations, id) + Losses(s, es, id)
    decreases es
  {
    if es != [] {
      var s1 := Step(s, es[0]).state;
      StepHas(s, es[0]);
      EffectPossible(s, es[0]);
      EffectBalances(s.log, s1.log, s.invocations, EffectOf(s, es[0]), id);
      RunBalances(s1, es[1..], id);
    }
  }

  /** Over every run and for every id: the endpoint calls are the answers sent, the interruptions, the
      invocation still open, and the answers that could not be sent. So none is answered twice. */
  lemma InvocationsBalance(es: seq<Input>, id: int)
    ensures var s := Run(NEW_SESSION, es);
      var t := TallyOf(s.log, id);
      t.calls == t.replies + t.stops + Open(s.invocations, id) + Losses(NEW_SESSION, es, id)
  {
    RunBalances(NEW_SESSION, es, id);
  }

  /** An endpoint that ends is answered if and only if its invocation is still open, it did not end by
      an exception that cannot be described, and the answer can be sent. */
  lemma AnsweredIff(s: State, id: int, ending: Ending, d: Delivery, second: Delivery)
    requires s.running[id] > 0
    ensures TallyOf(StepEnded(s, id, ending, d, second).state.log, id).replies == TallyOf(s.log, id).replies + 1 <==>
      id in s.invocations && ending != Failure(false) && s.transport
        && (d == Sent || (d == Unserializable && second == Sent))
  {
    var e := Ended(id, ending, d, second);
    EndedHas(s, e);
    EffectReplies(s.log, StepEnded(s, id, ending, d, second).state.log, EffectOf(s, e), id);
  }

  // ----- an invocation that is not open is not answered

  predicate NotInvoked(es: seq<Input>, id: int) {
    forall e :: e in es ==> !(e.OnMessage? && e.message.Invocation? && e.message.request == id)
  }

  /** Only an answer to it adds to the answers of an id. */
  lemma EffectReplies(log: seq<Action>, log': seq<Action>, f: Effect, id: int)
    requires if f.Nothing? then Grows(log, log') else log' == log + Logged(f)
    ensures TallyOf(log', id).replies == TallyOf(log, id).replies + if f.Answers? && f.request == id then 1 else 0
  {
    match f
    case Nothing =>
      PlainDoNotCount(log, log'[|log|..], id);
      assert log' == log + log'[|log|..];
    case Drops(request) => assert log + [] == log;
    case Opens(request, endpoint) => OneMore(log, Invoked(request, endpoint), id);
    case Stops(request) => OneMore(log, Interrupted(request), id);
    case Answers(request, ok) => OneMore(log, if ok then Yielded(request) else Failed(request), id);
  }

  lemma EffectOnClosed(s: State, e: Input, id: int)
    requires id !in s.invocations && !(e.OnMessage? && e.message.Invocation? && e.message.request == id)
    ensures id !in OpenAfter(s.invocations, EffectOf(s, e))
    ensures !(EffectOf(s, e).Answers? && EffectOf(s, e).request == id)
  {
  }

  lemma {:induction false} ClosedIsNotAnswered(s: State, es: seq<Input>, id: int)
    requires id !in s.invocations && NotInvoked(es, id)
    ensures id !in Run(s, es).invocations
    ensures TallyOf(Run(s, es).log, id).replies == TallyOf(s.log, id).replies
    decreases es
  {
    if es != [] {
      assert es[0] in es;
      var s1 := Step(s, es[0]).state;
      StepHas(s, es[0]);
      EffectOnClosed(s, es[0], id);
      EffectReplies(s.log, s1.log, EffectOf(s, es[0]), id);
      ClosedIsNotAnswered(s1, es[1..], id);
    }
  }

  /** INTERRUPT does not stop the endpoint, but its result is lost: whatever happens afterwards, short
      of a new INVOCATION with the same id, nothing is sent for it. */
  lemma InterruptedResultIsLost(s: State, id: int, d: Delivery, es: seq<Input>)
    requires s.sessionId.Some? && id in s.invocations && NotInvoked(es, id)
    ensures var s1 := Step(s, OnMessage(Interrupt(id), d)).state;
      && s1.running == s.running && id !in s1.invocations
      && TallyOf(Run(s1, es).log, id).replies == TallyOf(s.log, id).replies
  {
    var s1 := Step(s, OnMessage(Interrupt(id), d)).state;
    OneMore(s.log, Interrupted(id), id);
    ClosedIsNotAnswered(s1, es, id);
  }

  // ----- how long an invocation stays open

  ghost predicate StaysOpen(s: State, es: seq<Input>, id: int)
    decreases es
  {
    id in s.invocations && (es == [] || StaysOpen(Step(s, es[0]).state, es[1..], id))
  }

  predicate Interrupts(s: State, e: Input, id: int) {
    s.sessionId.Some? && e.OnMessage? && e.message == Interrupt(id)
  }

  /** INTERRUPT closes it, and any endpoint that ends under the id, unless by an exception that cannot
      be described. */
  predicate Closes(s: State, e: Input, id: int) {
    Interrupts(s, e, id) || (e.Ended? && e.request == id && s.running[id] > 0 && e.ending != Failure(false))
  }

  ghost predicate NeverCloses(s: State, es: seq<Input>, id: int)
    decreases es
  {
    es == [] || (!Closes(s, es[0], id) && NeverCloses(Step(s, es[0]).state, es[1..], id))
  }

  lemma StepCloses(s: State, e: Input, id: int)
    requires id in s.invocations
    ensures id in Step(s, e).state.invocations <==> !Closes(s, e, id)
  {
    StepHas(s, e);
  }

  lemma {:induction false} OpenUntilClosed(s: State, es: seq<Input>, id: int)
    requires id in s.invocations
    ensures StaysOpen(s, es, id) <==> NeverCloses(s, es, id)
    decreases es
  {
    if es != [] {
      StepCloses(s, es[0], id);
      if !Closes(s, es[0], id) { OpenUntilClosed(Step(s, es[0]).state, es[1..], id); }
    }
  }

  ghost predicate NeverInterrupts(s: State, es: seq<Input>, id: int)
    decreases es
  {
    es == [] || (!Interrupts(s, es[0], id) && NeverInterrupts(Step(s, es[0]).state, es[1..], id))
  }

  lemma StillNotRunning(s: State, e: Input, id: int)
    requires id in s.invocations && s.running[id] == 0
    ensures Step(s, e).state.running[id] == 0
  {
    RunningMoves(s, e);
  }

  lemma RunningMoves(s: State, e: Input)
    ensures var s' := Step(s, e).state;
      || s'.running == s.running
      || (e.Ended? && s.running[e.request] > 0 && s'.running == s.running - multiset{e.request})
      || (e.OnMessage? && e.message.Invocation? && e.message.request !in s.invocations
          && s'.running == s.running + multiset{e.message.request})
  {
  }

  lemma {:induction false} NotRunningCloses(s: State, es: seq<Input>, id: int)
    requires id in s.invocations && s.running[id] == 0
    ensures StaysOpen(s, es, id) <==> NeverInterrupts(s, es, id)
    decreases es
  {
    if es != [] {
      StepCloses(s, es[0], id);
      StillNotRunning(s, es[0], id);
      if !Closes(s, es[0], id) { NotRunningCloses(Step(s, es[0]).state, es[1..], id); }
    }
  }

  /** The only endpoint under an id ends by an exception that cannot be described: there is no answer,
      and the invocation stays open, over every run, exactly as long as no INTERRUPT comes for it. */
  lemma BareExceptionStaysOpen(s: State, id: int, d: Delivery, second: Delivery, es: seq<Input>)
    requires id in s.invocations && s.running[id] == 1
    ensures var r := StepEnded(s, id, Failure(false), d, second);
      && r.outcome == Raised(Undescribable) && r.state.log == s.log
      && (StaysOpen(r.state, es, id) <==> NeverInterrupts(r.state, es, id))
  {
    NotRunningCloses(StepEnded(s, id, Failure(false), d, second).state, es, id);
  }

  /** While it is open, its id is refused; an INTERRUPT makes it usable again. */
  lemma OpenIdIsRefused(s: State, id: int, registration: int)
    requires id in s.invocations && registration in s.registrations
    ensures OnInvocation(s, id, registration) == Stepped(s, Raised(ProtocolError))
    ensures OnInvocation(OnInterrupt(s, id).state, id, registration).outcome == Done
  {
  }
}
