/** What every step of a session keeps, exactly when it does, and what follows for whole runs. */
module WampInvariant {
  import opened Wrappers
  import opened Sequences
  import opened WampSession

  // ----- the invariant

  ghost predicate Has(t: Tables<Request>, k: Kind, id: int) { id in t.Of(k) }

  function Entry(t: Tables<Request>, k: Kind, id: int): Request
    requires Has(t, k, id)
  {
    t.Of(k)[id]
  }

  ghost predicate Outstanding(t: Tables<Request>, id: int) {
    exists k: Kind :: Has(t, k, id)
  }

  /** An entry is stored under its own id, and its future is pending. */
  ghost predicate AllProper(t: Tables<Request>, futures: seq<Future>) {
    forall k: Kind, id :: Has(t, k, id) ==> Proper(futures, id, Entry(t, k, id))
  }

  ghost predicate Proper(futures: seq<Future>, id: int, r: Request) {
    r.requestId == id && r.onReply < |futures| && futures[r.onReply] == Pending
  }

  /** No id is outstanding twice. */
  ghost predicate Disjoint(t: Tables<Request>) {
    forall k1: Kind, k2: Kind, id :: Has(t, k1, id) && Has(t, k2, id) ==> k1 == k2
  }

  /** No two requests wait for the same future. */
  ghost predicate Unshared(t: Tables<Request>) {
    forall k1: Kind, i1, k2: Kind, i2 :: Has(t, k1, i1) && Has(t, k2, i2) && SameFuture(t, k1, i1, k2, i2) ==>
      k1 == k2 && i1 == i2
  }

  ghost predicate SameFuture(t: Tables<Request>, k1: Kind, i1: int, k2: Kind, i2: int)
    requires Has(t, k1, i1) && Has(t, k2, i2)
  {
    Entry(t, k1, i1).onReply == Entry(t, k2, i2).onReply
  }

  ghost predicate Lists(lists: map<int, seq<nat>>, id: int, h: nat) { h in Listed(lists, id) }

  ghost predicate Active(subs: seq<Subscription>, id: int, h: nat) { h < |subs| && subs[h].id == id && subs[h].active }

  /** A subscription is active if and only if it is in the list under its own id, once. */
  ghost predicate SubscriptionsHold(lists: map<int, seq<nat>>, subs: seq<Subscription>) {
    && (forall id :: Distinct(Listed(lists, id)))
    && (forall id, h: nat :: Lists(lists, id, h) <==> Active(subs, id, h))
  }

  /** A registration is active if and only if it is the one stored under its own id. */
  ghost predicate RegistrationsHold(stored: map<int, nat>, regs: seq<Registration>) {
    && (forall id :: id in stored ==> stored[id] < |regs| && regs[stored[id]].id == id)
    && (forall h: nat :: h < |regs| ==> (regs[h].active <==> regs[h].id in stored && stored[regs[h].id] == h))
  }

  ghost predicate RequestsHold(s: State) { AllProper(s.tables, s.futures) && Disjoint(s.tables) && Unshared(s.tables) }

  ghost predicate Inv(s: State) { 
    RequestsHold(s) && SubscriptionsHold(s.subscriptions, s.subs) && RegistrationsHold(s.registrations, s.regs)
  }

  /** No request gets lost: it stays as it is, or its future is resolved or rejected. */
  ghost predicate Kept(s: State, s': State) {
    forall k: Kind, id :: Has(s.tables, k, id) ==> KeptRequest(Entry(s.tables, k, id), k, id, s')
  }

  ghost predicate KeptRequest(r: Request, k: Kind, id: int, s': State) {
    || (Has(s'.tables, k, id) && Entry(s'.tables, k, id) == r)
    || (r.onReply < |s'.futures| && s'.futures[r.onReply] != Pending)
  }

  // ----- the two ways to break it

  /** The call stores or takes back a request under an id that is still outstanding. */
  ghost predicate Collides(s: State, e: Input) {
    var id := NextId(s.lastId);
    s.transport &&
    match e
    case DoPublish(acknowledge, d) =>
      if acknowledge && d == Sent then Outstanding(s.tables, id) else d != Sent && id in s.tables.publish
    case DoSubscribe(_, _) => Outstanding(s.tables, id)
    case DoCall(_, d) => if d == Sent then Outstanding(s.tables, id) else id in s.tables.call
    case DoRegister(_, _) => Outstanding(s.tables, id)
    case DoUnsubscribe(h, _) =>
      h < |s.subs| && s.subs[h].active && |Listed(s.subscriptions, s.subs[h].id)| == 1 && Outstanding(s.tables, id)
    case DoUnregister(h, _) => h < |s.regs| && s.regs[h].active && Outstanding(s.tables, id)
    case _ => false
  }

  /** The router acknowledges a registration under an id that is already registered. */
  ghost predicate RegisteredAgain(s: State, e: Input) {
    && s.sessionId.Some? && e.OnMessage? && e.message.Registered?
    && e.message.request in s.tables.register && e.message.registration in s.registrations
  }

  // ----- requests

  /** `t'` is `t` with one more entry. */
  ghost predicate Added(t: Tables<Request>, t': Tables<Request>, k: Kind, id: int, r: Request) {
    && Has(t', k, id) && Entry(t', k, id) == r
    && (forall k': Kind, i :: Has(t, k', i) && !(k' == k && i == id) ==>
         Has(t', k', i) && Entry(t', k', i) == Entry(t, k', i))
    && (forall k': Kind, i :: Has(t', k', i) ==> Has(t, k', i) || (k' == k && i == id))
  }

  lemma SetAdds(t: Tables<Request>, k: Kind, id: int, r: Request)
    ensures Added(t, WithTable(t, k, t.Of(k)[id := r]), k, id, r)
  {
  }

  lemma AddedProper(t: Tables<Request>, t': Tables<Request>, futures: seq<Future>, k: Kind, id: int, r: Request)
    requires Added(t, t', k, id, r) && r.requestId == id && r.onReply == |futures|
    requires AllProper(t, futures)
    ensures AllProper(t', futures + [Pending])
    ensures forall k': Kind, i :: Has(t', k', i) && !(k' == k && i == id) ==> Entry(t', k', i).onReply < |futures|
  {
    forall k': Kind, i | Has(t', k', i) && !(k' == k && i == id)
      ensures Entry(t', k', i) == Entry(t, k', i) && Proper(futures, i, Entry(t, k', i))
    {
    }
  }

  lemma AddedUnshared(t: Tables<Request>, t': Tables<Request>, k: Kind, id: int, r: Request)
    requires Added(t, t', k, id, r) && Unshared(t)
    requires forall k': Kind, i :: Has(t', k', i) && !(k' == k && i == id) ==> Entry(t', k', i).onReply < r.onReply
    ensures Unshared(t')
  {
    forall k1: Kind, i1, k2: Kind, i2 | Has(t', k1, i1) && Has(t', k2, i2) && SameFuture(t', k1, i1, k2, i2)
      ensures k1 == k2 && i1 == i2
    {
      if !(k1 == k && i1 == id) && !(k2 == k && i2 == id) {
        assert SameFuture(t, k1, i1, k2, i2);
      }
    }
  }

  lemma AllocateHolds(s: State, k: Kind, detail: int)
    requires RequestsHold(s) && !Outstanding(s.tables, NextId(s.lastId))
    ensures RequestsHold(Allocate(s, k, detail)) && Kept(s, Allocate(s, k, detail))
  {
    var id, r := NextId(s.lastId), Request(NextId(s.lastId), |s.futures|, detail);
    SetAdds(s.tables, k, id, r);
    AddedProper(s.tables, Allocate(s, k, detail).tables, s.futures, k, id, r);
    AddedUnshared(s.tables, Allocate(s, k, detail).tables, k, id, r);
  }

  /** `t'` is `t` without one entry. */
  ghost predicate Removed(t: Tables<Request>, t': Tables<Request>, k: Kind, id: int) {
    && !Has(t', k, id)
    && (forall k': Kind, i :: Has(t, k', i) && !(k' == k && i == id) ==> Has(t', k', i))
    && (forall k': Kind, i :: Has(t', k', i) ==> Has(t, k', i) && Entry(t', k', i) == Entry(t, k', i))
  }

  lemma DropRemoves(s: State, k: Kind, id: int)
    ensures Removed(s.tables, Drop(s, k, id).tables, k, id)
  {
  }

  /** A request that is removed as its future settles leaves the others intact. */
  lemma SettleHolds(s: State, k: Kind, id: int, s1: State, outcome: Future)
    requires RequestsHold(s) && Has(s.tables, k, id) && outcome != Pending
    requires s1.tables == Drop(s, k, id).tables && s1.futures == s.futures
    ensures var r := Settle(s1, Entry(s.tables, k, id).onReply, outcome);
      r.outcome == Done && RequestsHold(r.state) && Kept(s, r.state)
      && r.state == s1.(futures := s.futures[Entry(s.tables, k, id).onReply := outcome])
  {
    var t, t', f := s.tables, s1.tables, Entry(s.tables, k, id).onReply;
    DropRemoves(s, k, id);
    assert Proper(s.futures, id, Entry(t, k, id));
    forall k': Kind, i | Has(t', k', i) ensures Proper(s.futures[f := outcome], i, Entry(t', k', i)) {
      assert Proper(s.futures, i, Entry(t, k', i));
      assert !SameFuture(t, k, id, k', i);
    }
    assert Unshared(t') by {
      forall k1: Kind, i1, k2: Kind, i2 | Has(t', k1, i1) && Has(t', k2, i2) && SameFuture(t', k1, i1, k2, i2)
        ensures k1 == k2 && i1 == i2
      {
        assert SameFuture(t, k1, i1, k2, i2);
      }
    }
  }

  lemma DropHolds(s: State, k: Kind, id: int)
    requires RequestsHold(s)
    ensures RequestsHold(Drop(s, k, id))
  {
    var t, t' := s.tables, Drop(s, k, id).tables;
    DropRemoves(s, k, id);
    forall k': Kind, i | Has(t', k', i) ensures Proper(s.futures, i, Entry(t', k', i)) {
      assert Proper(s.futures, i, Entry(t, k', i));
    }
    forall k1: Kind, i1, k2: Kind, i2 | Has(t', k1, i1) && Has(t', k2, i2) && SameFuture(t', k1, i1, k2, i2)
      ensures k1 == k2 && i1 == i2
    {
      assert SameFuture(t, k1, i1, k2, i2);
    }
  }

  lemma DropUndoesAllocate(s: State, k: Kind, detail: int)
    requires !Has(s.tables, k, NextId(s.lastId))
    ensures Drop(Allocate(s, k, detail), k, NextId(s.lastId)).tables == s.tables
  {
    var id := NextId(s.lastId);
    var t' := Drop(Allocate(s, k, detail), k, id).tables;
    assert t'.Of(k) == s.tables.Of(k);
    assert forall k': Kind :: t'.Of(k') == s.tables.Of(k');
    TablesEqual(t', s.tables);
  }

  lemma TablesEqual(a: Tables<Request>, b: Tables<Request>)
    requires forall k: Kind :: a.Of(k) == b.Of(k)
    ensures a == b
  {
    assert a.Of(Publish) == b.Of(Publish) && a.Of(Subscribe) == b.Of(Subscribe)
      && a.Of(Unsubscribe) == b.Of(Unsubscribe);
    assert a.Of(Call) == b.Of(Call) && a.Of(Register) == b.Of(Register) && a.Of(Unregister) == b.Of(Unregister);
  }

  lemma MoreFutures(s: State, s': State)
    requires RequestsHold(s) && s'.tables == s.tables && |s.futures| <= |s'.futures|
    requires forall f :: 0 <= f < |s.futures| ==> s'.futures[f] == s.futures[f]
    ensures RequestsHold(s') && Kept(s, s')
  {
    forall k: Kind, i | Has(s.tables, k, i) ensures Proper(s'.futures, i, Entry(s.tables, k, i)) {
      assert Proper(s.futures, i, Entry(s.tables, k, i));
    }
  }

  /** The condition under which `Ask` keeps the requests. */
  ghost predicate Clear(s: State, k: Kind, d: Delivery, takesBack: bool) {
    var id := NextId(s.lastId);
    if d == Sent || !takesBack then !Outstanding(s.tables, id) else !Has(s.tables, k, id)
  }

  lemma AskHolds(s: State, k: Kind, detail: int, d: Delivery, takesBack: bool)
    requires RequestsHold(s)
    ensures var s' := Ask(s, k, detail, d, takesBack).state;
      RequestsHold(s') && Kept(s, s') <==> Clear(s, k, d, takesBack)
  {
    var s', id := Ask(s, k, detail, d, takesBack).state, NextId(s.lastId);
    if d == Sent || !takesBack {
      if Outstanding(s.tables, id) {
        var k0: Kind :| Has(s.tables, k0, id);
        var r := Entry(s.tables, k0, id);
        assert Proper(s.futures, id, r);
        SetAdds(s.tables, k, id, Request(id, |s.futures|, detail));
        if k0 == k {
          assert Entry(s'.tables, k, id).onReply == |s.futures|;
          assert !KeptRequest(r, k, id, s');
        } else {
          assert Has(s'.tables, k0, id) && Has(s'.tables, k, id);
        }
      } else {
        AllocateHolds(s, k, detail);
      }
    } else if Has(s.tables, k, id) {
      assert Proper(s.futures, id, Entry(s.tables, k, id));
      assert !Has(s'.tables, k, id);
      assert !KeptRequest(Entry(s.tables, k, id), k, id, s');
    } else {
      DropUndoesAllocate(s, k, detail);
      MoreFutures(s, s');
    }
  }

  // ----- subscriptions and registrations

  lemma {:induction false} RemoveFirstMeaning(list: seq<nat>, h: nat)
    requires Distinct(list)
    ensures Distinct(RemoveFirst(list, h))
    ensures forall x :: x in RemoveFirst(list, h) <==> x in list && x != h
    ensures |RemoveFirst(list, h)| == if h in list then |list| - 1 else |list|
  {
    if list != [] {
      assert list == [list[0]] + list[1..];
      assert forall x :: x in list <==> x == list[0] || x in list[1..];
      assert list[0] !in list[1..];
      RemoveFirstMeaning(list[1..], h);
    }
  }

  lemma UnsubscribeKeeps(lists: map<int, seq<nat>>, subs: seq<Subscription>, h: nat)
    requires SubscriptionsHold(lists, subs) && h < |subs| && subs[h].active
    ensures subs[h].id in lists && h in lists[subs[h].id]
    ensures SubscriptionsHold(lists[subs[h].id := RemoveFirst(lists[subs[h].id], h)],
                              subs[h := subs[h].(active := false)])
    ensures RemoveFirst(lists[subs[h].id], h) == [] <==> |Listed(lists, subs[h].id)| == 1
  {
    var id := subs[h].id;
    assert Active(subs, id, h) && Lists(lists, id, h);
    assert Distinct(Listed(lists, id));
    RemoveFirstMeaning(lists[id], h);
    var lists', subs' := lists[id := RemoveFirst(lists[id], h)], subs[h := subs[h].(active := false)];
    forall i ensures Distinct(Listed(lists', i)) {
      assert Distinct(Listed(lists, i));
    }
    forall i, x: nat ensures Lists(lists', i, x) <==> Active(subs', i, x) {
      assert Lists(lists, i, x) <==> Active(subs, i, x);
    }
  }

  lemma SubscribedKeeps(lists: map<int, seq<nat>>, subs: seq<Subscription>, id: int, handler: int)
    requires SubscriptionsHold(lists, subs)
    ensures SubscriptionsHold(lists[id := Listed(lists, id) + [|subs|]], subs + [Subscription(id, true, handler)])
  {
    var lists', subs' := lists[id := Listed(lists, id) + [|subs|]], subs + [Subscription(id, true, handler)];
    forall i, x: nat ensures Lists(lists', i, x) <==> Active(subs', i, x) {
      assert Lists(lists, i, x) <==> Active(subs, i, x);
    }
    forall i ensures Distinct(Listed(lists', i)) {
      assert Distinct(Listed(lists, i));
      assert !Lists(lists, i, |subs|) by { assert !Active(subs, i, |subs|); }
    }
  }

  lemma UnsubscribedKeeps(lists: map<int, seq<nat>>, subs: seq<Subscription>, id: int)
    requires SubscriptionsHold(lists, subs) && id in lists
    ensures SubscriptionsHold(lists - {id}, Deactivated(subs, lists[id]))
  {
    var lists', subs' := lists - {id}, Deactivated(subs, lists[id]);
    forall i, x: nat ensures Lists(lists', i, x) <==> Active(subs', i, x) {
      assert Lists(lists, i, x) <==> Active(subs, i, x);
      assert Lists(lists, id, x) <==> Active(subs, id, x);
    }
    forall i ensures Distinct(Listed(lists', i)) {
      assert Distinct(Listed(lists, i));
    }
  }

  lemma RegisteredKeeps(stored: map<int, nat>, regs: seq<Registration>, id: int, endpoint: int)
    requires RegistrationsHold(stored, regs) && id !in stored
    ensures RegistrationsHold(stored[id := |regs|], regs + [Registration(id, true, endpoint)])
  {
  }

  lemma UnregisteredKeeps(stored: map<int, nat>, regs: seq<Registration>, id: int)
    requires RegistrationsHold(stored, regs) && id in stored
    ensures RegistrationsHold(stored - {id}, Withdrawn(regs, stored[id]))
  {
  }

  // ----- one step

  ghost predicate Sound(s: State, r: Stepped) { Inv(r.state) && Kept(s, r.state) && !Internal(r.outcome) }

  lemma SettledSound(s: State, k: Kind, id: int, s1: State, outcome: Future)
    requires Inv(s) && Has(s.tables, k, id) && outcome != Pending
    requires s1.tables == Drop(s, k, id).tables && s1.futures == s.futures
    requires SubscriptionsHold(s1.subscriptions, s1.subs) && RegistrationsHold(s1.registrations, s1.regs)
    ensures Sound(s, Settle(s1, Entry(s.tables, k, id).onReply, outcome))
  {
    SettleHolds(s, k, id, s1, outcome);
  }

  lemma ReplySound(s: State, m: Message, d: Delivery)
    requires Inv(s) && s.sessionId.Some? && Answered(m).Some? && !RegisteredAgain(s, OnMessage(m, d))
    ensures Sound(s, Receive(s, m, d))
  {
    match m
    case Published(request, publication) =>
      if Has(s.tables, Publish, request) {
        SettledSound(s, Publish, request, Drop(s, Publish, request), Resolved(Publication(publication)));
      } else { MoreFutures(s, s); }
    case Subscribed(request, subscription) => SubscribedSound(s, request, subscription);
    case Unsubscribed(request) => UnsubscribedSound(s, request);
    case Resulted(request, progress, value) =>
      if Has(s.tables, Call, request) {
        SettledSound(s, Call, request, Drop(s, Call, request), Resolved(Result(value)));
      } else { MoreFutures(s, s); }
    case Registered(request, registration) => RegisteredSound(s, request, registration);
    case Unregistered(request) => UnregisteredSound(s, request);
    case Errored(requestType, request, error) =>
      var k := KindOf(requestType);
      if k.Some? && Has(s.tables, k.value, request) {
        SettledSound(s, k.value, request, Drop(s, k.value, request), Rejected(error));
      } else { MoreFutures(s, s); }
  }

  /** The kind and the id of the request that a message answers for good. */
  function Answered(m: Message): Maybe<(int, int)> {
    match m
    case Published(request, _) => Some((TypeOf(Publish), request))
    case Subscribed(request, _) => Some((TypeOf(Subscribe), request))
    case Unsubscribed(request) => Some((TypeOf(Unsubscribe), request))
    case Resulted(request, progress, _) => if progress then None else Some((TypeOf(Call), request))
    case Registered(request, _) => Some((TypeOf(Register), request))
    case Unregistered(request) => Some((TypeOf(Unregister), request))
    case Errored(requestType, request, _) => Some((requestType, request))
    case _ => None
  }

  lemma SubscribedSound(s: State, request: int, subscription: int)
    requires Inv(s)
    ensures Sound(s, OnSubscribed(s, request, subscription))
  {
    if Has(s.tables, Subscribe, request) {
      var r, h := Entry(s.tables, Subscribe, request), |s.subs|;
      var s1 := Drop(s, Subscribe, request).(
        subscriptions := s.subscriptions[subscription := Listed(s.subscriptions, subscription) + [h]],
        subs := s.subs + [Subscription(subscription, true, r.detail)]);
      SubscribedKeeps(s.subscriptions, s.subs, subscription, r.detail);
      SettledSound(s, Subscribe, request, s1, Resolved(SubscriptionOf(h)));
    } else {
      MoreFutures(s, s);
    }
  }

  lemma UnsubscribedSound(s: State, request: int)
    requires Inv(s)
    ensures Sound(s, OnUnsubscribed(s, request))
  {
    if Has(s.tables, Unsubscribe, request) {
      var id := Entry(s.tables, Unsubscribe, request).detail;
      var s0 := Drop(s, Unsubscribe, request);
      if id in s.subscriptions {
        UnsubscribedKeeps(s.subscriptions, s.subs, id);
        SettledSound(s, Unsubscribe, request,
          s0.(subs := Deactivated(s.subs, s.subscriptions[id]), subscriptions := s.subscriptions - {id}),
          Resolved(Count(0)));
      } else {
        SettledSound(s, Unsubscribe, request, s0, Resolved(Count(0)));
      }
    } else {
      MoreFutures(s, s);
    }
  }

  lemma RegisteredSound(s: State, request: int, registration: int)
    requires Inv(s) && !(Has(s.tables, Register, request) && registration in s.registrations)
    ensures Sound(s, OnRegistered(s, request, registration))
  {
    if Has(s.tables, Register, request) {
      var r, h := Entry(s.tables, Register, request), |s.regs|;
      var s1 := Drop(s, Register, request).(
        registrations := s.registrations[registration := h],
        regs := s.regs + [Registration(registration, true, r.detail)]);
      RegisteredKeeps(s.registrations, s.regs, registration, r.detail);
      SettledSound(s, Register, request, s1, Resolved(RegistrationOf(h)));
    } else {
      MoreFutures(s, s);
    }
  }

  lemma UnregisteredSound(s: State, request: int)
    requires Inv(s)
    ensures Sound(s, OnUnregistered(s, request))
  {
    if Has(s.tables, Unregister, request) {
      var id := Entry(s.tables, Unregister, request).detail;
      var s0 := Drop(s, Unregister, request);
      if id in s.registrations {
        UnregisteredKeeps(s.registrations, s.regs, id);
        SettledSound(s, Unregister, request,
          s0.(regs := Withdrawn(s.regs, s.registrations[id]), registrations := s.registrations - {id}),
          Resolved(Nothing));
      } else {
        SettledSound(s, Unregister, request, s0, Resolved(Nothing));
      }
    } else {
      MoreFutures(s, s);
    }
  }

  /** A second REGISTERED for a registration drops the request and leaves its future pending. */
  lemma RegisteredAgainDrops(s: State, e: Input)
    requires Inv(s) && RegisteredAgain(s, e)
    ensures Step(s, e).outcome == Raised(ProtocolError)
    ensures Inv(Step(s, e).state) && !Kept(s, Step(s, e).state)
  {
    var request := e.message.request;
    var r, s' := Entry(s.tables, Register, request), Step(s, e).state;
    DropHolds(s, Register, request);
    DropRemoves(s, Register, request);
    assert Proper(s.futures, request, r);
    assert Has(s.tables, Register, request) && !KeptRequest(r, Register, request, s');
  }

  ghost predicate Other(s: State, e: Input) {
    || e.OnOpen? || e.OnClose? || e.Join? || e.Leave? || e.Ended?
    || (e.OnMessage? && (s.sessionId.None? || Answered(e.message).None?))
  }

  /** Everything but requests and their answers leaves tables, futures and objects alone. */
  lemma OtherFrame(s: State, e: Input)
    requires Other(s, e)
    ensures Quiet(s, Step(s, e))
  {
    match e
    case OnMessage(m, d) => MessageFrame(s, m, d);
    case _ =>
  }

  lemma MessageFrame(s: State, m: Message, d: Delivery)
    requires s.sessionId.None? || Answered(m).None?
    ensures Quiet(s, Receive(s, m, d))
  {
  }

  lemma OtherSound(s: State, e: Input)
    requires Inv(s) && Other(s, e)
    ensures Sound(s, Step(s, e))
  {
    OtherFrame(s, e);
    MoreFutures(s, Step(s, e).state);
  }

  lemma AskSound(s: State, s1: State, k: Kind, detail: int, d: Delivery, takesBack: bool)
    requires Inv(s) && s1.tables == s.tables && s1.futures == s.futures && s1.lastId == s.lastId
    requires SubscriptionsHold(s1.subscriptions, s1.subs) && RegistrationsHold(s1.registrations, s1.regs)
    ensures var r := Ask(s1, k, detail, d, takesBack);
      (Inv(r.state) && Kept(s, r.state) <==> Clear(s, k, d, takesBack)) && !Internal(r.outcome)
  {
    AskHolds(s1, k, detail, d, takesBack);
    var r := Ask(s1, k, detail, d, takesBack);
    assert Kept(s1, r.state) <==> Kept(s, r.state);
  }

  lemma PublishSound(s: State, acknowledge: bool, d: Delivery)
    requires Inv(s)
    ensures var r := StepPublish(s, acknowledge, d);
      (Inv(r.state) && Kept(s, r.state) <==> !Collides(s, DoPublish(acknowledge, d))) && !Internal(r.outcome)
  {
    var id, s' := NextId(s.lastId), StepPublish(s, acknowledge, d).state;
    if s.transport && acknowledge {
      AskSound(s, s, Publish, 0, d, true);
    } else if s.transport && d != Sent && Has(s.tables, Publish, id) {
      assert Proper(s.futures, id, Entry(s.tables, Publish, id));
      assert !KeptRequest(Entry(s.tables, Publish, id), Publish, id, s');
    } else {
      if s.transport && d != Sent {
        assert s'.tables.Of(Publish) == s.tables.Of(Publish);
        TablesEqual(s'.tables, s.tables);
      }
      MoreFutures(s, s');
    }
  }

  lemma UnsubscribeSound(s: State, h: nat, d: Delivery)
    requires Inv(s)
    ensures var r := StepUnsubscribe(s, h, d);
      (Inv(r.state) && Kept(s, r.state) <==> !Collides(s, DoUnsubscribe(h, d))) && !Internal(r.outcome)
  {
    var r := StepUnsubscribe(s, h, d);
    if h < |s.subs| && s.subs[h].active && s.transport {
      var sub := s.subs[h];
      UnsubscribeKeeps(s.subscriptions, s.subs, h);
      var left := RemoveFirst(s.subscriptions[sub.id], h);
      var s1 := s.(subscriptions := s.subscriptions[sub.id := left], subs := s.subs[h := sub.(active := false)]);
      if left == [] {
        AskSound(s, s1, Unsubscribe, sub.id, d, false);
      } else {
        MoreFutures(s, r.state);
      }
    } else {
      if h < |s.subs| && s.subs[h].active { UnsubscribeKeeps(s.subscriptions, s.subs, h); }
      MoreFutures(s, r.state);
    }
  }

  lemma UnregisterSound(s: State, h: nat, d: Delivery)
    requires Inv(s)
    ensures var r := StepUnregister(s, h, d);
      (Inv(r.state) && Kept(s, r.state) <==> !Collides(s, DoUnregister(h, d))) && !Internal(r.outcome)
  {
    if h < |s.regs| && s.regs[h].active && s.transport {
      AskSound(s, s, Unregister, s.regs[h].id, d, false);
    } else {
      MoreFutures(s, StepUnregister(s, h, d).state);
    }
  }

  /** A step keeps the invariant and loses no request if and only if its request id is free and it is
      not a second REGISTERED. No step whatever fails an assertion or resolves a future twice. */
  lemma StepSound(s: State, e: Input)
    requires Inv(s)
    ensures Inv(Step(s, e).state) && Kept(s, Step(s, e).state) <==> !Collides(s, e) && !RegisteredAgain(s, e)
    ensures !Collides(s, e) ==> Inv(Step(s, e).state)
    ensures !Internal(Step(s, e).outcome)
  {
    match e
    case DoPublish(acknowledge, d) => PublishSound(s, acknowledge, d);
    case DoSubscribe(handler, d) =>
      if s.transport { AskSound(s, s, Subscribe, handler, d, false); } else { MoreFutures(s, s); }
    case DoCall(options, d) =>
      if s.transport { AskSound(s, s, Call, options, d, true); } else { MoreFutures(s, s); }
    case DoRegister(endpoint, d) =>
      if s.transport { AskSound(s, s, Register, endpoint, d, false); } else { MoreFutures(s, s); }
    case DoUnsubscribe(h, d) => UnsubscribeSound(s, h, d);
    case DoUnregister(h, d) => UnregisterSound(s, h, d);
    case OnMessage(m, d) =>
      if RegisteredAgain(s, e) {
        RegisteredAgainDrops(s, e);
      } else if s.sessionId.Some? && Answered(m).Some? {
        ReplySound(s, m, d);
      } else {
        OtherSound(s, e);
      }
    case _ => OtherSound(s, e);
  }

  // ----- the answers

  /** What the pending future becomes. */
  function Answer(s: State, m: Message): Future
    requires Answered(m).Some?
  {
    match m
    case Published(_, publication) => Resolved(Publication(publication))
    case Subscribed(_, _) => Resolved(SubscriptionOf(|s.subs|))
    case Unsubscribed(_) => Resolved(Count(0))
    case Resulted(_, _, value) => Resolved(Result(value))
    case Registered(_, _) => Resolved(RegistrationOf(|s.regs|))
    case Unregistered(_) => Resolved(Nothing)
    case Errored(_, _, error) => Rejected(error)
  }

  /** The request that a message answers, if one is outstanding under its kind and id. */
  function Asker(s: State, m: Message): Maybe<Kind>
    requires Answered(m).Some?
  {
    var k := KindOf(Answered(m).value.0);
    if k.Some? && Answered(m).value.1 in s.tables.Of(k.value) then k else None
  }

  lemma AnswerSettles(s: State, m: Message, d: Delivery)
    requires s.sessionId.Some? && Answered(m).Some? && !RegisteredAgain(s, OnMessage(m, d))
    ensures Asker(s, m).None? ==> Receive(s, m, d) == Stepped(s, Raised(ProtocolError))
    ensures Asker(s, m).Some? ==> Settles(s, Receive(s, m, d), Asker(s, m).value, Answered(m).value.1, Answer(s, m))
  {
    if m.Errored? {
      ErrorSettles(s, m.requestType, m.request, m.error);
    } else if m.Published? || m.Subscribed? || m.Unsubscribed? {
      BrokerSettles(s, m, d);
    } else {
      DealerSettles(s, m, d);
    }
  }

  lemma ErrorSettles(s: State, requestType: int, request: int, error: int)
    ensures var m := Errored(requestType, request, error);
      if Asker(s, m).None? then OnError(s, requestType, request, error) == Stepped(s, Raised(ProtocolError))
      else Settles(s, OnError(s, requestType, request, error), Asker(s, m).value, request, Rejected(error))
  {
  }

  /** The answer has been taken: refused, or settling the request that it names. */
  ghost predicate Taken(s: State, m: Message, r: Stepped)
    requires Answered(m).Some?
  {
    if Asker(s, m).None? then r == Stepped(s, Raised(ProtocolError))
    else Settles(s, r, Asker(s, m).value, Answered(m).value.1, Answer(s, m))
  }

  lemma BrokerSettles(s: State, m: Message, d: Delivery)
    requires s.sessionId.Some? && (m.Published? || m.Subscribed? || m.Unsubscribed?)
    ensures Taken(s, m, Receive(s, m, d))
  {
  }

  lemma DealerSettles(s: State, m: Message, d: Delivery)
    requires s.sessionId.Some? && !RegisteredAgain(s, OnMessage(m, d))
    requires (m.Resulted? && !m.progress) || m.Registered? || m.Unregistered?
    ensures Taken(s, m, Receive(s, m, d))
  {
  }

  /** An answer to a request that is not outstanding under its kind raises and changes nothing. An
      answer to one that is outstanding settles its future, exactly that one, and removes exactly
      that request. */
  lemma AnswersMatch(s: State, m: Message, d: Delivery)
    requires Inv(s) && s.sessionId.Some? && Answered(m).Some? && !RegisteredAgain(s, OnMessage(m, d))
    ensures Asker(s, m).None? ==> Receive(s, m, d) == Stepped(s, Raised(ProtocolError))
    ensures Asker(s, m).Some? ==>
      var k, id := Asker(s, m).value, Answered(m).value.1;
      var r, s' := s.tables.Of(k)[id], Receive(s, m, d).state;
      && Receive(s, m, d).outcome == Done
      && Removed(s.tables, s'.tables, k, id)
      && r.requestId == id && s.futures[r.onReply] == Pending
      && s'.futures == s.futures[r.onReply := Answer(s, m)]
  {
    AnswerSettles(s, m, d);
    if Asker(s, m).Some? {
      var k, id := Asker(s, m).value, Answered(m).value.1;
      assert Has(s.tables, k, id) && Proper(s.futures, id, Entry(s.tables, k, id));
      DropRemoves(s, k, id);
    }
  }

  /** What the caller of `subscribe` gets is active, under the router's id, with its own handler. */
  lemma SubscribedGives(s: State, request: int, subscription: int)
    requires Inv(s) && Has(s.tables, Subscribe, request)
    ensures var s' := OnSubscribed(s, request, subscription).state;
      && Active(s'.subs, subscription, |s.subs|)
      && s'.subs[|s.subs|].handler == Entry(s.tables, Subscribe, request).detail
      && s'.subs[..|s.subs|] == s.subs
  {
  }

  /** What the caller of `register` gets is active, under the router's id, with its own endpoint. */
  lemma RegisteredGives(s: State, request: int, registration: int)
    requires Inv(s) && Has(s.tables, Register, request) && registration !in s.registrations
    ensures var s', r := OnRegistered(s, request, registration).state, Entry(s.tables, Register, request);
      && Serves(s', registration, |s.regs|) && s'.regs[|s.regs|].endpoint == r.detail
      && s'.regs[..|s.regs|] == s.regs
  {
    SettleHolds(s, Register, request, Drop(s, Register, request), Resolved(RegistrationOf(|s.regs|)));
  }

  ghost predicate Serves(s: State, id: int, h: nat) { h < |s.regs| && s.regs[h].id == id && s.regs[h].active }

  /** UNREGISTERED ends the registration under its id, if there is one, and no other. */
  lemma UnregisteredEnds(s: State, request: int)
    requires Inv(s) && Has(s.tables, Unregister, request)
    ensures var id, s' := Entry(s.tables, Unregister, request).detail, OnUnregistered(s, request).state;
      forall i, h: nat :: Serves(s', i, h) <==> Serves(s, i, h) && i != id
  {
  }

  /** An invocation calls the endpoint of the one active registration under its id. */
  lemma InvocationCalls(s: State, request: int, registration: int)
    requires Inv(s)
    ensures var r := OnInvocation(s, request, registration);
      if request !in s.invocations && exists h: nat :: Serves(s, registration, h) then
        r.outcome == Done && r.state.invocations == s.invocations + {request} &&
        exists h: nat :: Serves(s, registration, h) && r.state.log == s.log + [Invoked(request, s.regs[h].endpoint)]
      else r == Stepped(s, Raised(ProtocolError))
  {
    if registration in s.registrations {
      var h := s.registrations[registration];
      assert s.regs[h].active;
      assert Serves(s, registration, h);
    } else {
      assert forall h: nat :: !Serves(s, registration, h);
    }
  }

  /** `unsubscribe` ends this subscription and no other, and asks the router exactly if no other is
      left under the id. */
  lemma UnsubscribeEnds(s: State, h: nat, d: Delivery)
    requires Inv(s) && s.transport && h < |s.subs| && s.subs[h].active
    ensures var id, r := s.subs[h].id, StepUnsubscribe(s, h, d);
      && (forall i, x: nat :: Active(r.state.subs, i, x) <==> Active(s.subs, i, x) && x != h)
      && (r.state.lastId != s.lastId <==> forall x: nat :: Active(s.subs, id, x) ==> x == h)
  {
    var id := s.subs[h].id;
    UnsubscribeKeeps(s.subscriptions, s.subs, h);
    RemoveFirstMeaning(s.subscriptions[id], h);
    var left := RemoveFirst(s.subscriptions[id], h);
    forall x: nat ensures x in left <==> Active(s.subs, id, x) && x != h {
      assert Lists(s.subscriptions, id, x) <==> Active(s.subs, id, x);
    }
    if left != [] { assert left[0] in left; }
  }

  /** UNSUBSCRIBED ends every subscription under its id, also one that was made after the UNSUBSCRIBE
      was sent, and touches no other. */
  lemma UnsubscribedEndsAll(s: State, request: int)
    requires Inv(s) && Has(s.tables, Unsubscribe, request)
    ensures var id, s' := Entry(s.tables, Unsubscribe, request).detail, OnUnsubscribed(s, request).state;
      && (forall h: nat :: !Active(s'.subs, id, h))
      && (forall i, h: nat :: i != id ==> (Active(s'.subs, i, h) <==> Active(s.subs, i, h)))
  {
    var id, s' := Entry(s.tables, Unsubscribe, request).detail, OnUnsubscribed(s, request).state;
    forall h: nat ensures !Active(s'.subs, id, h) {
      assert Lists(s.subscriptions, id, h) <==> Active(s.subs, id, h);
    }
    forall i, h: nat | i != id ensures Active(s'.subs, i, h) <==> Active(s.subs, i, h) {
      assert Lists(s.subscriptions, id, h) <==> Active(s.subs, id, h);
    }
  }

  /** An event calls the handler of each active subscription under its id, once, and no other. */
  lemma EventFires(s: State, subscription: int)
    requires Inv(s)
    ensures OnEvent(s, subscription).outcome == Done <==> subscription in s.subscriptions
    ensures var list := Listed(s.subscriptions, subscription);
      && OnEvent(s, subscription).state.log == s.log + Fires(s.subs, list)
      && Distinct(list) && (forall h: nat :: h in list <==> Active(s.subs, subscription, h))
  {
    var list := Listed(s.subscriptions, subscription);
    assert Distinct(Listed(s.subscriptions, subscription));
    forall h: nat ensures h in list <==> Active(s.subs, subscription, h) {
      assert Lists(s.subscriptions, subscription, h) <==> Active(s.subs, subscription, h);
    }
  }

  // ----- whole runs

  /** No request id is taken while it is outstanding. */
  ghost predicate Clean(s: State, es: seq<Input>)
    decreases es
  {
    es == [] || (!Collides(s, es[0]) && Clean(Step(s, es[0]).state, es[1..]))
  }

  ghost predicate NeverRegisteredAgain(s: State, es: seq<Input>)
    decreases es
  {
    es == [] || (!RegisteredAgain(s, es[0]) && NeverRegisteredAgain(Step(s, es[0]).state, es[1..]))
  }

  ghost predicate NeverInternal(s: State, es: seq<Input>)
    decreases es
  {
    es == [] || (!Internal(Step(s, es[0]).outcome) && NeverInternal(Step(s, es[0]).state, es[1..]))
  }

  lemma NewSessionHolds()
    ensures Inv(NEW_SESSION)
  {
    assert forall k: Kind :: NEW_SESSION.tables.Of(k) == map[];
  }

  lemma {:induction false} RunKeepsInvariant(s: State, es: seq<Input>)
    requires Inv(s) && Clean(s, es)
    ensures Inv(Run(s, es)) && NeverInternal(s, es)
    decreases es
  {
    if es != [] {
      StepSound(s, es[0]);
      RunKeepsInvariant(Step(s, es[0]).state, es[1..]);
    }
  }

  /** Futures are added, and pending ones are settled; nothing else happens to them. */
  ghost predicate Grows(a: seq<Future>, b: seq<Future>) {
    |a| <= |b| && forall f :: 0 <= f < |a| && a[f] != Pending ==> b[f] == a[f]
  }

  /** What an answer does to tables, ids and futures: at most, one entry goes and one future settles. */
  ghost predicate Popped(s: State, r: Stepped, k: Kind, id: int) {
    && r.state.tables == Drop(s, k, id).tables && r.state.lastId == s.lastId && Grows(s.futures, r.state.futures)
  }

  lemma AnswerPops(s: State, m: Message, d: Delivery)
    requires s.sessionId.Some? && Answered(m).Some?
    ensures Asker(s, m).None? ==> Receive(s, m, d) == Stepped(s, Raised(ProtocolError))
    ensures Asker(s, m).Some? ==> Popped(s, Receive(s, m, d), Asker(s, m).value, Answered(m).value.1)
  {
    if !RegisteredAgain(s, OnMessage(m, d)) {
      AnswerSettles(s, m, d);
    }
  }

  lemma CallGrows(s: State, e: Input)
    requires !Other(s, e) && !e.OnMessage?
    ensures Grows(s.futures, Step(s, e).state.futures)
  {
  }

  /** A settled future stays as it is, whatever happens. */
  lemma StepSettled(s: State, e: Input)
    ensures Grows(s.futures, Step(s, e).state.futures)
  {
    if Other(s, e) {
      OtherFrame(s, e);
    } else if e.OnMessage? {
      AnswerPops(s, e.message, e.delivery);
    } else {
      CallGrows(s, e);
    }
  }

  lemma {:induction false} RunSettled(s: State, es: seq<Input>, f: nat)
    requires f < |s.futures| && s.futures[f] != Pending
    ensures f < |Run(s, es).futures| && Run(s, es).futures[f] == s.futures[f]
    decreases es
  {
    if es != [] {
      StepSettled(s, es[0]);
      RunSettled(Step(s, es[0]).state, es[1..], f);
    }
  }

  /** Every outstanding request stays outstanding until its future is resolved or rejected. */
  lemma {:induction false} RunKeepsRequests(s: State, es: seq<Input>)
    requires Inv(s) && Clean(s, es) && NeverRegisteredAgain(s, es)
    ensures Kept(s, Run(s, es))
    decreases es
  {
    if es == [] {
      MoreFutures(s, s);
    } else {
      var s1, s' := Step(s, es[0]).state, Run(s, es);
      StepSound(s, es[0]);
      RunKeepsRequests(s1, es[1..]);
      forall k: Kind, id | Has(s.tables, k, id) ensures KeptRequest(Entry(s.tables, k, id), k, id, s') {
        var r := Entry(s.tables, k, id);
        assert KeptRequest(r, k, id, s1);
        if Has(s1.tables, k, id) && Entry(s1.tables, k, id) == r {
          assert KeptRequest(r, k, id, s');
        } else {
          RunSettled(s1, es[1..], r.onReply);
        }
      }
    }
  }

  /** The ids run up from 0: none comes back before 2^53 + 1 requests. */
  lemma {:induction false} EarlyIdsAreFresh(s: State, es: seq<Input>)
    requires -1 <= s.lastId && s.lastId + |es| <= MAX_ID
    requires forall k: Kind, id :: Has(s.tables, k, id) ==> id <= s.lastId
    ensures Clean(s, es)
    decreases es
  {
    if es != [] {
      StepIds(s, es[0]);
      EarlyIdsAreFresh(Step(s, es[0]).state, es[1..]);
    }
  }

  ghost predicate Below(s: State, s': State) {
    && s.lastId <= s'.lastId <= s.lastId + 1
    && forall k: Kind, id :: Has(s'.tables, k, id) ==> Has(s.tables, k, id) || id <= s'.lastId
  }

  lemma AskBelow(s: State, k: Kind, detail: int, d: Delivery, takesBack: bool)
    requires -1 <= s.lastId < MAX_ID
    ensures Below(s, Ask(s, k, detail, d, takesBack).state)
  {
  }

  lemma CallBelow(s: State, e: Input)
    requires -1 <= s.lastId < MAX_ID && !Other(s, e) && !e.OnMessage?
    ensures Below(s, Step(s, e).state)
  {
    match e
    case DoPublish(_, d) => AskBelow(s, Publish, 0, d, true);
    case DoSubscribe(handler, d) => AskBelow(s, Subscribe, handler, d, false);
    case DoCall(options, d) => AskBelow(s, Call, options, d, true);
    case DoRegister(endpoint, d) => AskBelow(s, Register, endpoint, d, false);
    case DoUnregister(h, d) => if h < |s.regs| { AskBelow(s, Unregister, s.regs[h].id, d, false); }
    case DoUnsubscribe(h, d) => UnsubscribeBelow(s, h, d);
  }

  lemma UnsubscribeBelow(s: State, h: nat, d: Delivery)
    requires -1 <= s.lastId < MAX_ID
    ensures Below(s, StepUnsubscribe(s, h, d).state)
  {
    if h < |s.subs| && s.subs[h].id in s.subscriptions {
      var id := s.subs[h].id;
      var left := RemoveFirst(s.subscriptions[id], h);
      var s1 := s.(subscriptions := s.subscriptions[id := left], subs := s.subs[h := s.subs[h].(active := false)]);
      AskBelow(s1, Unsubscribe, id, d, false);
    }
  }

  lemma StepIds(s: State, e: Input)
    requires -1 <= s.lastId < MAX_ID
    requires forall k: Kind, id :: Has(s.tables, k, id) ==> id <= s.lastId
    ensures !Collides(s, e) && Below(s, Step(s, e).state)
  {
    assert !Outstanding(s.tables, s.lastId + 1);
    assert !Has(s.tables, Publish, s.lastId + 1) && !Has(s.tables, Call, s.lastId + 1);
    if Other(s, e) {
      OtherFrame(s, e);
    } else if e.OnMessage? {
      AnswerPops(s, e.message, e.delivery);
      if Asker(s, e.message).Some? { DropRemoves(s, Asker(s, e.message).value, Answered(e.message).value.1); }
    } else {
      CallBelow(s, e);
    }
  }

  /** A new session never loses its footing in its first 2^53 + 1 steps, nor later as long as no
      outstanding id comes round again. */
  lemma SessionIsSafe(es: seq<Input>)
    requires |es| <= MAX_ID + 1 || Clean(NEW_SESSION, es)
    ensures Inv(Run(NEW_SESSION, es)) && NeverInternal(NEW_SESSION, es)
  {
    NewSessionHolds();
    if |es| <= MAX_ID + 1 {
      assert forall k: Kind :: NEW_SESSION.tables.Of(k) == map[];
      EarlyIdsAreFresh(NEW_SESSION, es);
    }
    RunKeepsInvariant(NEW_SESSION, es);
  }

  /** The request waits for the future, and was sent under its kind and id and with its content. */
  ghost predicate SentFor(log: seq<Action>, s': State, k: Kind, id: int, f: nat) {
    && Has(s'.tables, k, id) && Entry(s'.tables, k, id).onReply == f
    && s'.log == log + [Asked(k, id, Entry(s'.tables, k, id).detail)]
  }

  /** Whoever gets a future gets a new one: one that is settled already, or that a request waits for
      which has just been sent. */
  ghost predicate Promised(futures: seq<Future>, log: seq<Action>, r: Stepped) {
    r.outcome.Returned? ==>
      var f := r.outcome.future;
      && f == |futures| && |r.state.futures| == f + 1
      && (r.state.futures[f] != Pending || exists k: Kind, id :: SentFor(log, r.state, k, id, f))
  }

  lemma AskPromises(s: State, k: Kind, detail: int, d: Delivery, takesBack: bool)
    ensures Promised(s.futures, s.log, Ask(s, k, detail, d, takesBack))
  {
    var r, id := Ask(s, k, detail, d, takesBack), NextId(s.lastId);
    SetAdds(s.tables, k, id, Request(id, |s.futures|, detail));
    if d == Sent { assert SentFor(s.log, r.state, k, id, |s.futures|); }
  }

  lemma UnsubscribePromises(s: State, h: nat, d: Delivery)
    ensures Promised(s.futures, s.log, StepUnsubscribe(s, h, d))
  {
    if h < |s.subs| && s.subs[h].id in s.subscriptions {
      var id := s.subs[h].id;
      var left := RemoveFirst(s.subscriptions[id], h);
      var s1 := s.(subscriptions := s.subscriptions[id := left], subs := s.subs[h := s.subs[h].(active := false)]);
      AskPromises(s1, Unsubscribe, id, d, false);
    }
  }

  lemma QuietPromises(s: State, e: Input)
    requires Other(s, e) || e.OnMessage?
    ensures !Step(s, e).outcome.Returned?
  {
  }

  lemma RequestIsSent(s: State, e: Input)
    ensures Promised(s.futures, s.log, Step(s, e))
  {
    match e
    case DoPublish(acknowledge, d) => AskPromises(s, Publish, 0, d, true);
    case DoSubscribe(handler, d) => AskPromises(s, Subscribe, handler, d, false);
    case DoCall(options, d) => AskPromises(s, Call, options, d, true);
    case DoRegister(endpoint, d) => AskPromises(s, Register, endpoint, d, false);
    case DoUnregister(h, d) => if h < |s.regs| { AskPromises(s, Unregister, s.regs[h].id, d, false); }
    case DoUnsubscribe(h, d) => UnsubscribePromises(s, h, d);
    case _ => QuietPromises(s, e);
  }

  lemma ReturnedIsStored(s: State, e: Input)
    requires Step(s, e).outcome.Returned?
    ensures var f, s' := Step(s, e).outcome.future, Step(s, e).state;
      f == |s.futures| && |s'.futures| == f + 1 && (s'.futures[f] != Pending || Awaited(s', f))
  {
    var s', f := Step(s, e).state, |s.futures|;
    RequestIsSent(s, e);
    if s'.futures[f] == Pending {
      var k: Kind, id :| SentFor(s.log, s', k, id, f);
      assert Has(s'.tables, k, id) && Entry(s'.tables, k, id).onReply == f;
    }
  }

  ghost predicate Awaited(s: State, f: nat) {
    exists k: Kind, id :: Has(s.tables, k, id) && Entry(s.tables, k, id).onReply == f
  }

  /** Every future that a call returned is, at any later time, settled or still awaited by exactly
      one outstanding request. */
  lemma NoFutureIsLost(before: seq<Input>, e: Input, after: seq<Input>)
    requires Clean(NEW_SESSION, before) && !Collides(Run(NEW_SESSION, before), e)
    requires Step(Run(NEW_SESSION, before), e).outcome.Returned?
    requires Clean(Step(Run(NEW_SESSION, before), e).state, after)
    requires NeverRegisteredAgain(Step(Run(NEW_SESSION, before), e).state, after)
    ensures var r := Step(Run(NEW_SESSION, before), e);
      var s, f := Run(r.state, after), r.outcome.future;
      f < |s.futures| && (s.futures[f] != Pending || Awaited(s, f)) && Unshared(s.tables)
  {
    var s0 := Run(NEW_SESSION, before);
    var s1, f := Step(s0, e).state, Step(s0, e).outcome.future;
    NewSessionHolds();
    RunKeepsInvariant(NEW_SESSION, before);
    StepSound(s0, e);
    ReturnedIsStored(s0, e);
    RunKeepsInvariant(s1, after);
    RunKeepsRequests(s1, after);
    var s := Run(s1, after);
    if s1.futures[f] != Pending {
      RunSettled(s1, after, f);
    } else {
      var k: Kind, id :| Has(s1.tables, k, id) && Entry(s1.tables, k, id).onReply == f;
      assert KeptRequest(Entry(s1.tables, k, id), k, id, s);
      if Has(s.tables, k, id) && Entry(s.tables, k, id) == Entry(s1.tables, k, id) {
        assert Proper(s.futures, id, Entry(s.tables, k, id));
      }
    }
  }

  // ----- a lost future

  /** Nobody will ever settle this future. */
  ghost predicate NotAwaited(t: Tables<Request>, futures: seq<Future>, f: nat) {
    f < |futures| && futures[f] == Pending && forall k: Kind, id :: Has(t, k, id) ==> Entry(t, k, id).onReply != f
  }

  lemma DropNotAwaited(s: State, k: Kind, id: int, futures: seq<Future>, x: Future, f: nat)
    requires NotAwaited(s.tables, s.futures, f)
    requires futures == s.futures
      || (Has(s.tables, k, id) && Entry(s.tables, k, id).onReply < |s.futures|
          && futures == s.futures[Entry(s.tables, k, id).onReply := x])
    ensures NotAwaited(Drop(s, k, id).tables, futures, f)
  {
    DropRemoves(s, k, id);
  }

  lemma AskNotAwaited(s: State, k: Kind, detail: int, d: Delivery, takesBack: bool, f: nat)
    requires NotAwaited(s.tables, s.futures, f)
    ensures var s' := Ask(s, k, detail, d, takesBack).state; NotAwaited(s'.tables, s'.futures, f)
  {
    var s1, id := Allocate(s, k, detail), NextId(s.lastId);
    SetAdds(s.tables, k, id, Request(id, |s.futures|, detail));
    assert NotAwaited(s1.tables, s1.futures, f);
    DropNotAwaited(s1, k, id, s1.futures, Pending, f);
  }

  lemma PublishNotAwaited(s: State, acknowledge: bool, d: Delivery, f: nat)
    requires NotAwaited(s.tables, s.futures, f)
    ensures var s' := StepPublish(s, acknowledge, d).state; NotAwaited(s'.tables, s'.futures, f)
  {
    AskNotAwaited(s, Publish, 0, d, true, f);
    DropNotAwaited(s, Publish, NextId(s.lastId), s.futures, Pending, f);
  }

  lemma UnsubscribeNotAwaited(s: State, h: nat, d: Delivery, f: nat)
    requires NotAwaited(s.tables, s.futures, f)
    ensures var s' := StepUnsubscribe(s, h, d).state; NotAwaited(s'.tables, s'.futures, f)
  {
    if h < |s.subs| && s.subs[h].id in s.subscriptions {
      var id := s.subs[h].id;
      var left := RemoveFirst(s.subscriptions[id], h);
      var s1 := s.(subscriptions := s.subscriptions[id := left], subs := s.subs[h := s.subs[h].(active := false)]);
      AskNotAwaited(s1, Unsubscribe, id, d, false, f);
    }
  }

  lemma AnswerNotAwaited(s: State, m: Message, d: Delivery, f: nat)
    requires s.sessionId.Some? && Answered(m).Some? && NotAwaited(s.tables, s.futures, f)
    ensures var s' := Receive(s, m, d).state; NotAwaited(s'.tables, s'.futures, f)
  {
    var id := Answered(m).value.1;
    if RegisteredAgain(s, OnMessage(m, d)) {
      DropNotAwaited(s, Register, id, s.futures, Pending, f);
    } else {
      AnswerSettles(s, m, d);
      if Asker(s, m).Some? {
        var k := Asker(s, m).value;
        assert Has(s.tables, k, id);
        DropNotAwaited(s, k, id, Receive(s, m, d).state.futures, Answer(s, m), f);
      }
    }
  }

  lemma StepNotAwaited(s: State, e: Input, f: nat)
    requires NotAwaited(s.tables, s.futures, f)
    ensures var s' := Step(s, e).state; NotAwaited(s'.tables, s'.futures, f)
  {
    if Other(s, e) {
      OtherFrame(s, e);
    } else {
      match e
      case DoPublish(acknowledge, d) => PublishNotAwaited(s, acknowledge, d, f);
      case DoSubscribe(handler, d) => AskNotAwaited(s, Subscribe, handler, d, false, f);
      case DoCall(options, d) => AskNotAwaited(s, Call, options, d, true, f);
      case DoRegister(endpoint, d) => AskNotAwaited(s, Register, endpoint, d, false, f);
      case DoUnregister(h, d) => if h < |s.regs| { AskNotAwaited(s, Unregister, s.regs[h].id, d, false, f); }
      case DoUnsubscribe(h, d) => UnsubscribeNotAwaited(s, h, d, f);
      case OnMessage(m, d) => AnswerNotAwaited(s, m, d, f);
    }
  }

  lemma {:induction false} RunNotAwaited(s: State, es: seq<Input>, f: nat)
    requires NotAwaited(s.tables, s.futures, f)
    ensures var s' := Run(s, es); NotAwaited(s'.tables, s'.futures, f)
    decreases es
  {
    if es != [] {
      StepNotAwaited(s, es[0], f);
      RunNotAwaited(Step(s, es[0]).state, es[1..], f);
    }
  }

  /** A second REGISTERED for a registration raises, and the caller's future is pending for ever:
      whatever follows, no request waits for it. */
  lemma RegisteredAgainLoses(s: State, e: Input, es: seq<Input>)
    requires Inv(s) && RegisteredAgain(s, e)
    ensures Step(s, e).outcome == Raised(ProtocolError)
    ensures var f, s' := s.tables.register[e.message.request].onReply, Run(Step(s, e).state, es);
      NotAwaited(s'.tables, s'.futures, f)
  {
    var request := e.message.request;
    var f := Entry(s.tables, Register, request).onReply;
    DropRemoves(s, Register, request);
    assert Proper(s.futures, request, Entry(s.tables, Register, request));
    forall k: Kind, id | Has(Drop(s, Register, request).tables, k, id)
      ensures Entry(Drop(s, Register, request).tables, k, id).onReply != f
    {
      assert !SameFuture(s.tables, Register, request, k, id);
    }
    RunNotAwaited(Step(s, e).state, es, f);
  }

  lemma RunFirst(s: State, e: Input, es: seq<Input>)
    ensures Run(s, [e] + es) == Run(Step(s, e).state, es)
  {
    assert ([e] + es)[1..] == es;
  }

  lemma FirstRegistration() returns (s: State, es: seq<Input>)
    ensures es == [OnOpen] + ([OnMessage(Welcome(1), Sent)] + [DoRegister(7, Sent)]) && s == Run(NEW_SESSION, es)
    ensures s.transport && s.sessionId == Some(1) && s.lastId == 0 && s.tables.register == map[0 := Request(0, 0, 7)]
    ensures s.registrations == map[] && s.futures == [Pending] && s.regs == []
  {
    var e1, e2, e3 := OnOpen, OnMessage(Welcome(1), Sent), DoRegister(7, Sent);
    es := [e1] + ([e2] + [e3]);
    var s1 := Step(NEW_SESSION, e1).state;
    var s2 := Step(s1, e2).state;
    s := Step(s2, e3).state;
    RunFirst(s2, e3, []);
    assert [e3] + [] == [e3];
    RunFirst(s1, e2, [e3]);
    RunFirst(NEW_SESSION, e1, [e2] + [e3]);
  }

  lemma SecondRegistration(s: State) returns (s': State)
    requires s.transport && s.sessionId == Some(1) && s.lastId == 0 && s.tables.register == map[0 := Request(0, 0, 7)]
    requires s.registrations == map[] && s.futures == [Pending] && s.regs == []
    ensures s' == Run(s, [OnMessage(Registered(0, 5), Sent)] + [DoRegister(8, Sent)])
    ensures RegisteredAgain(s', OnMessage(Registered(1, 5), Sent))
  {
    var e4, e5 := OnMessage(Registered(0, 5), Sent), DoRegister(8, Sent);
    var s4 := Step(s, e4).state;
    s' := Step(s4, e5).state;
    RunFirst(s4, e5, []);
    assert [e5] + [] == [e5];
    RunFirst(s, e4, [e5]);
  }

  lemma {:induction false} RunConcat(s: State, a: seq<Input>, b: seq<Input>)
    ensures Run(s, a + b) == Run(Run(s, a), b)
    decreases a
  {
    if a == [] {
      assert a + b == b;
    } else {
      assert (a + b)[0] == a[0] && (a + b)[1..] == a[1..] + b;
      RunConcat(Step(s, a[0]).state, a[1..], b);
    }
  }

  /** It can happen to a new session: a router that gives two endpoints one registration id. */
  lemma RegisteredAgainHappens() returns (es: seq<Input>)
    ensures Clean(NEW_SESSION, es)
    ensures RegisteredAgain(Run(NEW_SESSION, es), OnMessage(Registered(1, 5), Sent))
  {
    var s3, first := FirstRegistration();
    var s5 := SecondRegistration(s3);
    var more := [OnMessage(Registered(0, 5), Sent)] + [DoRegister(8, Sent)];
    es := first + more;
    RunConcat(NEW_SESSION, first, more);
    assert forall k: Kind :: NEW_SESSION.tables.Of(k) == map[];
    EarlyIdsAreFresh(NEW_SESSION, es);
  }
}
