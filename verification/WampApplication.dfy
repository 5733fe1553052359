/** The objects of wamp/protocol.py and util.py, proved against the state machine. */
module WampApplication {
  import opened Wrappers
  import opened WampSession

  class IdGenerator {
    var last: int

    /** How many ids were handed out. */
    ghost var count: nat

    ghost predicate Valid() reads this { last == if count == 0 then -1 else (count - 1) % (MAX_ID + 1) }

    constructor ()
      ensures Valid() && last == -1 && count == 0
    {
      last, count := -1, 0;
    }

    /** The n-th id, from 0, is n modulo 2^53 + 1: ids run up from 0 and start again. */
    method Next() returns (id: int)
      requires Valid()
      modifies this
      ensures Valid() && count == old(count) + 1
      ensures id == last == old(count) % (MAX_ID + 1)
      ensures id == NextId(old(last))
    {
      last := last + 1;
      if last > MAX_ID {
        last := 0;
      }
      count := count + 1;
      return last;
    }
  }

  class Future {
    var outcome: WampSession.Future
    const serial: nat

    constructor (outcome: WampSession.Future, serial: nat)
      ensures this.outcome == outcome && this.serial == serial
    {
      this.outcome, this.serial := outcome, serial;
    }
  }

  /** `detail` is what the subclass adds. */
  class Request {
    const requestId: int
    const onReply: Future
    const detail: int

    constructor (requestId: int, onReply: Future, detail: int)
      ensures this.requestId == requestId && this.onReply == onReply && this.detail == detail
    {
      this.requestId, this.onReply, this.detail := requestId, onReply, detail;
    }
  }

  class InvocationRequest {
    const requestId: int

    constructor (requestId: int)
      ensures this.requestId == requestId
    {
      this.requestId := requestId;
    }
  }

  class Subscription {
    const id: int
    var active: bool
    const handler: int
    const serial: nat

    constructor (id: int, handler: int, serial: nat)
      ensures this.id == id && this.handler == handler && this.serial == serial && active
    {
      this.id, this.handler, this.serial, active := id, handler, serial, true;
    }
  }

  class Registration {
    const id: int
    var active: bool
    const endpoint: int
    const serial: nat

    constructor (id: int, endpoint: int, serial: nat)
      ensures this.id == id && this.endpoint == endpoint && this.serial == serial && active
    {
      this.id, this.endpoint, this.serial, active := id, endpoint, serial, true;
    }
  }

  // ----- objects seen as values

  ghost predicate FuturesAgree(values: seq<WampSession.Future>, futures: seq<Future>)
    reads futures
  {
    && |values| == |futures|
    && forall i :: 0 <= i < |futures| ==> IsFuture(values[i], futures[i], i)
  }

  ghost predicate IsFuture(v: WampSession.Future, f: Future, serial: nat)
    reads f
  {
    f.serial == serial && v == f.outcome
  }

  /** The entries of the request tables, with their futures read as serial numbers. */
  ghost predicate TablesAgree(t: Tables<WampSession.Request>, tables: Tables<Request>, futures: seq<Future>) {
    forall k: Kind :: TableAgrees(t.Of(k), tables.Of(k), futures)
  }

  ghost predicate TableAgrees(t: map<int, WampSession.Request>, table: map<int, Request>, futures: seq<Future>) {
    && t.Keys == table.Keys
    && forall id :: id in table ==> IsRequest(t[id], table[id], futures)
  }

  ghost predicate IsRequest(v: WampSession.Request, q: Request, futures: seq<Future>) {
    q.onReply in futures && v == WampSession.Request(q.requestId, q.onReply.serial, q.detail)
  }

  /** The objects, in the order of their serial numbers, have these values. */
  ghost predicate SubsAgree(values: seq<WampSession.Subscription>, subs: seq<Subscription>)
    reads subs
  {
    && |values| == |subs|
    && forall i :: 0 <= i < |subs| ==> IsSub(values[i], subs[i], i)
  }

  ghost predicate IsSub(v: WampSession.Subscription, sub: Subscription, serial: nat)
    reads sub
  {
    sub.serial == serial && v == WampSession.Subscription(sub.id, sub.active, sub.handler)
  }

  ghost predicate RegsAgree(values: seq<WampSession.Registration>, regs: seq<Registration>)
    reads regs
  {
    && |values| == |regs|
    && forall i :: 0 <= i < |regs| ==> IsReg(values[i], regs[i], i)
  }

  ghost predicate IsReg(v: WampSession.Registration, reg: Registration, serial: nat)
    reads reg
  {
    reg.serial == serial && v == WampSession.Registration(reg.id, reg.active, reg.endpoint)
  }

  /** The lists of objects, read as lists of serial numbers. */
  ghost predicate ListsAgree(lists: map<int, seq<nat>>, subscriptions: map<int, seq<Subscription>>,
                             subs: seq<Subscription>) {
    && lists.Keys == subscriptions.Keys
    && forall id :: id in subscriptions ==> ListAgrees(lists[id], subscriptions[id], subs)
  }

  ghost predicate ListAgrees(serials: seq<nat>, list: seq<Subscription>, subs: seq<Subscription>) {
    && |serials| == |list|
    && forall i :: 0 <= i < |list| ==> serials[i] == list[i].serial && list[i] in subs
  }

  ghost predicate StoredAgree(stored: map<int, nat>, registrations: map<int, Registration>, regs: seq<Registration>) {
    && stored.Keys == registrations.Keys
    && forall id :: id in registrations ==> registrations[id] in regs && stored[id] == registrations[id].serial
  }

  lemma KnownSub(values: seq<WampSession.Subscription>, subs: seq<Subscription>, sub: Subscription)
    requires SubsAgree(values, subs) && sub in subs
    ensures sub.serial < |subs| && subs[sub.serial] == sub && IsSub(values[sub.serial], sub, sub.serial)
  {
    var i :| 0 <= i < |subs| && subs[i] == sub;
    assert IsSub(values[i], subs[i], i);
  }

  lemma KnownFuture(values: seq<WampSession.Future>, futures: seq<Future>, f: Future)
    requires FuturesAgree(values, futures) && f in futures
    ensures f.serial < |futures| && futures[f.serial] == f && IsFuture(values[f.serial], f, f.serial)
  {
    var i :| 0 <= i < |futures| && futures[i] == f;
    assert IsFuture(values[i], futures[i], i);
  }

  lemma TableGrows(t: Tables<WampSession.Request>, tables: Tables<Request>, futures: seq<Future>,
                   k: Kind, id: int, q: Request)
    requires TablesAgree(t, tables, futures) && q.onReply in futures
    ensures TablesAgree(WithTable(t, k, t.Of(k)[id := WampSession.Request(q.requestId, q.onReply.serial, q.detail)]),
                        WithTable(tables, k, tables.Of(k)[id := q]), futures)
  {
    var t' := WithTable(t, k, t.Of(k)[id := WampSession.Request(q.requestId, q.onReply.serial, q.detail)]);
    var tables' := WithTable(tables, k, tables.Of(k)[id := q]);
    forall k': Kind ensures TableAgrees(t'.Of(k'), tables'.Of(k'), futures) {
      assert TableAgrees(t.Of(k'), tables.Of(k'), futures);
    }
  }

  lemma TableShrinks(t: Tables<WampSession.Request>, tables: Tables<Request>, futures: seq<Future>, k: Kind, id: int)
    requires TablesAgree(t, tables, futures)
    ensures TablesAgree(WithTable(t, k, t.Of(k) - {id}), WithTable(tables, k, tables.Of(k) - {id}), futures)
  {
    assert TableAgrees(t.Of(k), tables.Of(k), futures);
    var t', tables' := WithTable(t, k, t.Of(k) - {id}), WithTable(tables, k, tables.Of(k) - {id});
    forall k': Kind ensures TableAgrees(t'.Of(k'), tables'.Of(k'), futures) {
      assert TableAgrees(t.Of(k'), tables.Of(k'), futures);
    }
  }

  lemma MoreFutures(t: Tables<WampSession.Request>, tables: Tables<Request>, futures: seq<Future>, f: Future)
    requires TablesAgree(t, tables, futures)
    ensures TablesAgree(t, tables, futures + [f])
  {
    forall k: Kind ensures TableAgrees(t.Of(k), tables.Of(k), futures + [f]) {
      assert TableAgrees(t.Of(k), tables.Of(k), futures);
      forall i | i in tables.Of(k) ensures IsRequest(t.Of(k)[i], tables.Of(k)[i], futures + [f]) {
        assert IsRequest(t.Of(k)[i], tables.Of(k)[i], futures);
      }
    }
  }

  lemma KnownReg(values: seq<WampSession.Registration>, regs: seq<Registration>, reg: Registration)
    requires RegsAgree(values, regs) && reg in regs
    ensures reg.serial < |regs| && regs[reg.serial] == reg && IsReg(values[reg.serial], reg, reg.serial)
  {
    var i :| 0 <= i < |regs| && regs[i] == reg;
    assert IsReg(values[i], regs[i], i);
  }

  lemma SerialsDiffer(values: seq<WampSession.Subscription>, subs: seq<Subscription>, a: Subscription, b: Subscription)
    requires SubsAgree(values, subs) && a in subs && b in subs && a != b
    ensures a.serial != b.serial
  {
    KnownSub(values, subs, a);
    KnownSub(values, subs, b);
  }

  lemma ListedSub(values: seq<WampSession.Subscription>, subs: seq<Subscription>, serials: seq<nat>,
                  list: seq<Subscription>, sub: Subscription)
    requires SubsAgree(values, subs) && sub in subs && ListAgrees(serials, list, subs)
    ensures sub in list <==> sub.serial in serials
  {
    if sub in list {
      var i :| 0 <= i < |list| && list[i] == sub;
      assert serials[i] == sub.serial;
    }
    if sub.serial in serials {
      var i :| 0 <= i < |serials| && serials[i] == sub.serial;
      KnownSub(values, subs, list[i]);
      KnownSub(values, subs, sub);
      assert list[i] == sub;
    }
  }

  lemma ListGrows(serials: seq<nat>, list: seq<Subscription>, subs: seq<Subscription>, sub: Subscription)
    requires ListAgrees(serials, list, subs) && sub in subs
    ensures ListAgrees(serials + [sub.serial], list + [sub], subs)
  {
  }

  lemma {:induction false} FirstRemoved(serials: seq<nat>, k: nat)
    requires k < |serials|
    requires forall i :: 0 <= i < k ==> serials[i] != serials[k]
    ensures RemoveFirst(serials, serials[k]) == serials[..k] + serials[k + 1..]
  {
    if k > 0 {
      FirstRemoved(serials[1..], k - 1);
      assert [serials[0]] + (serials[1..][..k - 1] + serials[1..][k..]) == serials[..k] + serials[k + 1..];
    }
  }

  predicate IsReply(m: Message) {
    m.Published? || m.Subscribed? || m.Unsubscribed? || m.Resulted? || m.Registered? || m.Unregistered? || m.Errored?
  }

  class ApplicationSession {
    var transport: bool
    var sessionId: Maybe<int>
    var goodbyeSent: bool
    const requestIds: IdGenerator
    var tables: Tables<Request>
    var subscriptions: map<int, seq<Subscription>>
    var registrations: map<int, Registration>
    var invocations: map<int, InvocationRequest>
    var running: multiset<int>
    var log: seq<Action>

    /** Every future, subscription and registration that was made, in order. */
    var futures: seq<Future>
    var subs: seq<Subscription>
    var regs: seq<Registration>

    ghost var state: State

    ghost predicate FieldsAgree()
      reads this, requestIds
    {
      && state.transport == transport && state.sessionId == sessionId && state.goodbyeSent == goodbyeSent
      && requestIds.Valid() && state.lastId == requestIds.last && state.invocations == invocations.Keys
      && state.running == running && state.log == log
    }

    /** The object is in the state `state`, its objects read by their serial numbers. */
    ghost predicate Valid()
      reads this, requestIds, futures, subs, regs
    {
      && FieldsAgree()
      && FuturesAgree(state.futures, futures) && TablesAgree(state.tables, tables, futures)
      && SubsAgree(state.subs, subs) && RegsAgree(state.regs, regs)
      && ListsAgree(state.subscriptions, subscriptions, subs) && StoredAgree(state.registrations, registrations, regs)
    }

    constructor ()
      ensures Valid() && state == NEW_SESSION && fresh(requestIds)
    {
      transport, sessionId, goodbyeSent := false, None, false;
      requestIds := new IdGenerator();
      tables := Tables(map[], map[], map[], map[], map[], map[]);
      subscriptions, registrations, invocations := map[], map[], map[];
      futures, running, log := [], multiset{}, [];
      subs, regs, state := [], [], NEW_SESSION;
    }

    // ----- calls

    method OnOpen()
      requires Valid()
      modifies this
      ensures Valid() && state == old(state).(transport := true)
    {
      transport := true;
      state := state.(transport := true);
    }

    method OnClose()
      requires Valid()
      modifies this
      ensures Valid() && state == StepClose(old(state)).state
    {
      transport := false;
      state := state.(transport := false);
      if sessionId.Some? && sessionId.value != 0 {
        Log(Left);
        EndSession();
      }
      Log(Disconnected);
      assert old(log) + [Left] + [Disconnected] == old(log) + [Left, Disconnected];
    }

    method EndSession()
      requires Valid()
      modifies this`sessionId, this`state
      ensures Valid() && state == old(state).(sessionId := None)
    {
      sessionId := None;
      state := state.(sessionId := None);
    }

    method MarkGoodbye(sent: bool)
      requires Valid()
      modifies this`goodbyeSent, this`state
      ensures Valid() && state == old(state).(goodbyeSent := sent)
    {
      goodbyeSent := sent;
      state := state.(goodbyeSent := sent);
    }

    method Join(d: Delivery) returns (r: Outcome)
      requires Valid()
      modifies this
      ensures Valid() && Stepped(state, r) == StepJoin(old(state), d)
    {
      if sessionId.Some? && sessionId.value != 0 { return Raised(AlreadyJoined); }
      MarkGoodbye(false);
      if !transport { return Raised(NoTransport); }
      var sent := Send(Hello, d);
      return if sent then Done else Raised(SendFailed);
    }

    method Leave(d: Delivery) returns (r: Outcome)
      requires Valid()
      modifies this
      ensures Valid() && Stepped(state, r) == StepLeave(old(state), d)
    {
      if !(sessionId.Some? && sessionId.value != 0) { return Raised(NotJoined); }
      if goodbyeSent { return Raised(SessionNotReady); }
      if !transport { return Raised(NoTransport); }
      var sent := Send(Goodbye, d);
      if !sent { return Raised(SendFailed); }
      MarkGoodbye(true);
      return Done;
    }

    /** A new future. */
    method NewFuture(outcome: WampSession.Future) returns (f: Future)
      requires Valid()
      modifies this`futures, this`state
      ensures Valid() && fresh(f) && f.serial == |old(state).futures| && futures == old(futures) + [f]
      ensures state == old(state).(futures := old(state).futures + [outcome])
    {
      f := new Future(outcome, |futures|);
      MoreFutures(state.tables, tables, futures, f);
      futures := futures + [f];
      state := state.(futures := state.futures + [outcome]);
    }

    method TakeId() returns (id: int)
      requires Valid()
      modifies requestIds, this`state
      ensures Valid() && id == NextId(old(state).lastId) && state == old(state).(lastId := id)
    {
      id := requestIds.Next();
      state := state.(lastId := id);
    }

    method Store(k: Kind, q: Request)
      requires Valid() && q.onReply in futures
      modifies this`tables, this`state
      ensures Valid()
      ensures state == old(state).(tables := WithTable(old(state).tables, k, old(state).tables.Of(k)[
        q.requestId := WampSession.Request(q.requestId, q.onReply.serial, q.detail)]))
    {
      TableGrows(state.tables, tables, futures, k, q.requestId, q);
      tables := WithTable(tables, k, tables.Of(k)[q.requestId := q]);
      state := state.(tables := WithTable(state.tables, k, state.tables.Of(k)[
        q.requestId := WampSession.Request(q.requestId, q.onReply.serial, q.detail)]));
    }

    /** A new id and a new future for a request, stored in its table. */
    method NewRequest(k: Kind, detail: int) returns (id: int, f: Future)
      requires Valid()
      modifies this, requestIds
      ensures Valid() && fresh(f) && state == Allocate(old(state), k, detail)
      ensures id == state.lastId && f.serial == |old(state).futures| && futures == old(futures) + [f]
      ensures transport == old(transport) && Same()
    {
      id := TakeId();
      f := NewFuture(Pending);
      var q := new Request(id, f, detail);
      Store(k, q);
    }

    /** The objects stay in their places. */
    twostate predicate Same()
      reads this
    {
      subs == old(subs) && regs == old(regs) && subscriptions == old(subscriptions)
        && registrations == old(registrations)
    }

    method Send(a: Action, d: Delivery) returns (sent: bool)
      requires Valid()
      modifies this
      ensures Valid() && sent == (d == Sent)
      ensures state == if sent then old(state).(log := old(state).log + [a]) else old(state)
      ensures futures == old(futures) && transport == old(transport) && Same()
    {
      if d == Sent { Log(a); }
      return d == Sent;
    }

    method Publish(acknowledge: bool, d: Delivery) returns (r: Outcome)
      requires Valid()
      modifies this, requestIds
      ensures Valid() && Stepped(state, r) == StepPublish(old(state), acknowledge, d)
    {
      if !transport { return Raised(TransportLost); }
      var id: int;
      r := Done;
      if acknowledge {
        var f;
        id, f := NewRequest(Kind.Publish, 0);
        r := Returned(f.serial);
      } else {
        id := TakeId();
      }
      var sent := Send(Asked(Kind.Publish, id, 0), d);
      if !sent {
        TakeBack(Kind.Publish, id);
        r := Raised(SendFailed);
      }
    }

    method TakeBack(k: Kind, id: int)
      requires Valid()
      modifies this
      ensures Valid() && state == Drop(old(state), k, id) && Same() && futures == old(futures)
    {
      TableShrinks(state.tables, tables, futures, k, id);
      tables := WithTable(tables, k, tables.Of(k) - {id});
      state := Drop(state, k, id);
    }

    method Subscribe(handler: int, d: Delivery) returns (r: Outcome)
      requires Valid()
      modifies this, requestIds
      ensures Valid() && Stepped(state, r) == StepAsk(old(state), Kind.Subscribe, handler, d)
    {
      if !transport { return Raised(TransportLost); }
      var id, f := NewRequest(Kind.Subscribe, handler);
      var sent := Send(Asked(Kind.Subscribe, id, handler), d);
      return if sent then Returned(f.serial) else Raised(SendFailed);
    }

    method Call(options: int, d: Delivery) returns (r: Outcome)
      requires Valid()
      modifies this, requestIds
      ensures Valid() && Stepped(state, r) == StepAsk(old(state), Kind.Call, options, d)
    {
      if !transport { return Raised(TransportLost); }
      var id, f := NewRequest(Kind.Call, options);
      var sent := Send(Asked(Kind.Call, id, options), d);
      if sent { return Returned(f.serial); }
      TakeBack(Kind.Call, id);
      return Raised(SendFailed);
    }

    method Register(endpoint: int, d: Delivery) returns (r: Outcome)
      requires Valid()
      modifies this, requestIds
      ensures Valid() && Stepped(state, r) == StepAsk(old(state), Kind.Register, endpoint, d)
    {
      if !transport { return Raised(TransportLost); }
      var id, f := NewRequest(Kind.Register, endpoint);
      var sent := Send(Asked(Kind.Register, id, endpoint), d);
      return if sent then Returned(f.serial) else Raised(SendFailed);
    }

    method Unregister(reg: Registration, d: Delivery) returns (r: Outcome)
      requires Valid() && reg in regs
      modifies this, requestIds
      ensures Valid() && Stepped(state, r) == StepUnregister(old(state), reg.serial, d)
    {
      assert IsReg(state.regs[reg.serial], reg, reg.serial);
      if !reg.active { return Raised(NotActive); }
      if reg.id !in registrations { return Raised(AssertionFailed); }
      if !transport { return Raised(TransportLost); }
      var id, f := NewRequest(Kind.Unregister, reg.id);
      var sent := Send(Asked(Kind.Unregister, id, reg.id), d);
      return if sent then Returned(f.serial) else Raised(SendFailed);
    }

    /** `list.remove`: the first occurrence, by identity. */
    method Removed(list: seq<Subscription>, sub: Subscription, ghost serials: seq<nat>)
      returns (left: seq<Subscription>)
      requires Valid() && sub in subs && ListAgrees(serials, list, subs) && sub in list
      ensures ListAgrees(RemoveFirst(serials, sub.serial), left, subs)
    {
      var k := 0;
      while list[k] != sub
        invariant 0 <= k < |list| && sub in list[k..]
        invariant forall i :: 0 <= i < k ==> list[i] != sub
        decreases |list| - k
      {
        k := k + 1;
      }
      forall i | 0 <= i < k ensures serials[i] != sub.serial {
        SerialsDiffer(state.subs, subs, list[i], sub);
      }
      FirstRemoved(serials, k);
      return list[..k] + list[k + 1..];
    }

    method Unsubscribe(sub: Subscription, d: Delivery) returns (r: Outcome)
      requires Valid() && sub in subs
      modifies this, requestIds, sub
      ensures Valid() && Stepped(state, r) == StepUnsubscribe(old(state), sub.serial, d)
    {
      KnownSub(state.subs, subs, sub);
      if !sub.active { return Raised(NotActive); }
      if sub.id !in subscriptions { return Raised(AssertionFailed); }
      ListedSub(state.subs, subs, state.subscriptions[sub.id], subscriptions[sub.id], sub);
      if sub !in subscriptions[sub.id] { return Raised(AssertionFailed); }
      if !transport { return Raised(TransportLost); }
      var left := Unlist(sub);
      if left == 0 {
        var id, f := NewRequest(Kind.Unsubscribe, sub.id);
        var sent := Send(Asked(Kind.Unsubscribe, id, sub.id), d);
        return if sent then Returned(f.serial) else Raised(SendFailed);
      } else {
        var f := NewFuture(Resolved(Count(left)));
        return Returned(f.serial);
      }
    }

    /** The handler is removed and inactive; what is left is their number. */
    method Unlist(sub: Subscription) returns (left: nat)
      requires Valid() && sub in subs && sub.serial < |subs| && sub.id in subscriptions && sub in subscriptions[sub.id]
      modifies this`subscriptions, this`state, sub
      ensures Valid()
      ensures var list := RemoveFirst(old(state).subscriptions[sub.id], sub.serial);
        left == |list|
        && state == old(state).(subscriptions := old(state).subscriptions[sub.id := list],
                                subs := old(state).subs[sub.serial := old(state).subs[sub.serial].(active := false)])
    {
      var list := Removed(subscriptions[sub.id], sub, state.subscriptions[sub.id]);
      Deactivate(sub);
      SetList(sub.id, list, RemoveFirst(state.subscriptions[sub.id], sub.serial));
      return |list|;
    }

    method Deactivate(sub: Subscription)
      requires Valid() && sub in subs && sub.serial < |subs|
      modifies this`state, sub
      ensures Valid() && !sub.active
      ensures state == old(state).(subs := old(state).subs[sub.serial := old(state).subs[sub.serial].(active := false)])
    {
      KnownSub(state.subs, subs, sub);
      sub.active := false;
      state := state.(subs := state.subs[sub.serial := state.subs[sub.serial].(active := false)]);
      forall i | 0 <= i < |subs| ensures IsSub(state.subs[i], subs[i], i) {
        assert old(IsSub(state.subs[i], subs[i], i));
      }
    }

    method SetList(id: int, list: seq<Subscription>, ghost serials: seq<nat>)
      requires Valid() && ListAgrees(serials, list, subs)
      modifies this`subscriptions, this`state
      ensures Valid() && subscriptions == old(subscriptions)[id := list]
      ensures state == old(state).(subscriptions := old(state).subscriptions[id := serials])
    {
      subscriptions := subscriptions[id := list];
      state := state.(subscriptions := state.subscriptions[id := serials]);
    }

    // ----- received messages

    /** `dict.pop`: the entry goes, and is returned. */
    method Pop(k: Kind, id: int) returns (q: Request)
      requires Valid() && id in tables.Of(k)
      modifies this
      ensures Valid() && state == Drop(old(state), k, id) && Same() && futures == old(futures)
      ensures id in old(state).tables.Of(k) && IsRequest(old(state).tables.Of(k)[id], q, futures)
    {
      q := tables.Of(k)[id];
      assert TableAgrees(state.tables.Of(k), tables.Of(k), futures);
      assert IsRequest(state.tables.Of(k)[id], q, futures);
      TakeBack(k, id);
    }

    lemma HasKey(k: Kind, id: int)
      requires Valid()
      ensures id in tables.Of(k) <==> id in state.tables.Of(k)
      ensures id in tables.Of(k) ==> IsRequest(state.tables.Of(k)[id], tables.Of(k)[id], futures)
    {
      assert TableAgrees(state.tables.Of(k), tables.Of(k), futures);
    }

    /** `txaio.resolve` and `txaio.reject`: the object changes that the caller holds. */
    method Settle(f: Future, outcome: WampSession.Future) returns (r: Outcome)
      requires Valid() && f in futures
      modifies f, this`state
      ensures Valid() && Stepped(state, r) == WampSession.Settle(old(state), f.serial, outcome)
      ensures r == Done ==> f.outcome == outcome
    {
      KnownFuture(state.futures, futures, f);
      if f.outcome != Pending { return Raised(AlreadyCalled); }
      f.outcome := outcome;
      state := state.(futures := state.futures[f.serial := outcome]);
      forall i | 0 <= i < |futures| ensures IsFuture(state.futures[i], futures[i], i) {
        assert old(IsFuture(state.futures[i], futures[i], i));
      }
      return Done;
    }

    method OnPublished(request: int, publication: int) returns (r: Outcome)
      requires Valid()
      modifies this, futures
      ensures Valid() && Stepped(state, r) == WampSession.OnPublished(old(state), request, publication)
    {
      HasKey(Kind.Publish, request);
      if request !in tables.publish { return Raised(ProtocolError); }
      var q := Pop(Kind.Publish, request);
      r := Settle(q.onReply, Resolved(Publication(publication)));
    }

    method OnSubscribed(request: int, subscription: int) returns (r: Outcome)
      requires Valid()
      modifies this, futures
      ensures Valid() && Stepped(state, r) == WampSession.OnSubscribed(old(state), request, subscription)
    {
      HasKey(Kind.Subscribe, request);
      if request !in tables.subscribe { return Raised(ProtocolError); }
      var q := Pop(Kind.Subscribe, request);
      var sub := Enlist(subscription, q.detail);
      r := Settle(q.onReply, Resolved(SubscriptionOf(sub.serial)));
    }

    method Enlist(id: int, handler: int) returns (sub: Subscription)
      requires Valid()
      modifies this`subs, this`subscriptions, this`state
      ensures Valid() && sub.serial == |old(state).subs|
      ensures state == old(state).(
        subscriptions := old(state).subscriptions[id := Listed(old(state).subscriptions, id) + [|old(state).subs|]],
        subs := old(state).subs + [WampSession.Subscription(id, true, handler)])
    {
      sub := new Subscription(id, handler, |subs|);
      AddSub(sub);
      Append(id, sub);
    }

    method Append(id: int, sub: Subscription)
      requires Valid() && sub in subs
      modifies this`subscriptions, this`state
      ensures Valid()
      ensures state == old(state).(subscriptions :=
        old(state).subscriptions[id := Listed(old(state).subscriptions, id) + [sub.serial]])
    {
      if id !in subscriptions { SetList(id, [], []); }
      ListGrows(state.subscriptions[id], subscriptions[id], subs, sub);
      SetList(id, subscriptions[id] + [sub], state.subscriptions[id] + [sub.serial]);
    }

    method AddSub(sub: Subscription)
      requires Valid() && sub.serial == |subs|
      modifies this`subs, this`state
      ensures Valid() && subs == old(subs) + [sub]
      ensures state == old(state).(subs :=
        old(state).subs + [WampSession.Subscription(sub.id, sub.active, sub.handler)])
    {
      subs := subs + [sub];
      state := state.(subs := state.subs + [WampSession.Subscription(sub.id, sub.active, sub.handler)]);
    }

    method OnUnsubscribed(request: int) returns (r: Outcome)
      requires Valid()
      modifies this, futures, subs
      ensures Valid() && Stepped(state, r) == WampSession.OnUnsubscribed(old(state), request)
    {
      HasKey(Kind.Unsubscribe, request);
      if request !in tables.unsubscribe { return Raised(ProtocolError); }
      var q := Pop(Kind.Unsubscribe, request);
      if q.detail in subscriptions {
        DeactivateAll(subscriptions[q.detail], state.subscriptions[q.detail]);
        DeleteList(q.detail);
      }
      r := Settle(q.onReply, Resolved(Count(0)));
    }

    method DeleteList(id: int)
      requires Valid()
      modifies this`subscriptions, this`state
      ensures Valid() && state == old(state).(subscriptions := old(state).subscriptions - {id})
    {
      subscriptions := subscriptions - {id};
      state := state.(subscriptions := state.subscriptions - {id});
    }

    method DeactivateAll(list: seq<Subscription>, ghost serials: seq<nat>)
      requires Valid() && ListAgrees(serials, list, subs)
      modifies this`state, subs
      ensures Valid() && state == old(state).(subs := Deactivated(old(state).subs, serials))
    {
      for k := 0 to |list|
        invariant Valid()
        invariant state == old(state).(subs := state.subs)
        invariant state.subs == Deactivated(old(state).subs, serials[..k])
      {
        KnownSub(state.subs, subs, list[k]);
        Deactivate(list[k]);
        assert serials[..k + 1] == serials[..k] + [serials[k]];
      }
      assert serials[..|list|] == serials;
    }

    method OnResult(request: int, progress: bool, value: int) returns (r: Outcome)
      requires Valid()
      modifies this, futures
      ensures Valid() && Stepped(state, r) == WampSession.OnResult(old(state), request, progress, value)
    {
      HasKey(Kind.Call, request);
      if request !in tables.call { return Raised(ProtocolError); }
      var q := tables.call[request];
      if progress {
        if q.detail == NO_OPTIONS { return Raised(NoOptions); }
        if q.detail == ON_PROGRESS { Log(Progressed(request)); }
        return Done;
      }
      q := Pop(Kind.Call, request);
      r := Settle(q.onReply, Resolved(Result(value)));
    }

    method Log(a: Action)
      requires Valid()
      modifies this`log, this`state
      ensures Valid() && state == old(state).(log := old(state).log + [a])
    {
      log := log + [a];
      state := state.(log := log);
    }

    method OnRegistered(request: int, registration: int) returns (r: Outcome)
      requires Valid()
      modifies this, futures
      ensures Valid() && Stepped(state, r) == WampSession.OnRegistered(old(state), request, registration)
    {
      HasKey(Kind.Register, request);
      if request !in tables.register { return Raised(ProtocolError); }
      var q := Pop(Kind.Register, request);
      if registration in registrations { return Raised(ProtocolError); }
      var reg := new Registration(registration, q.detail, |regs|);
      AddReg(reg);
      r := Settle(q.onReply, Resolved(RegistrationOf(reg.serial)));
    }

    method AddReg(reg: Registration)
      requires Valid() && reg.serial == |regs|
      modifies this`regs, this`registrations, this`state
      ensures Valid() && regs == old(regs) + [reg]
      ensures state == old(state).(
        registrations := old(state).registrations[reg.id := reg.serial],
        regs := old(state).regs + [WampSession.Registration(reg.id, reg.active, reg.endpoint)])
    {
      regs := regs + [reg];
      registrations := registrations[reg.id := reg];
      state := state.(
        registrations := state.registrations[reg.id := reg.serial],
        regs := state.regs + [WampSession.Registration(reg.id, reg.active, reg.endpoint)]);
    }

    method OnUnregistered(request: int) returns (r: Outcome)
      requires Valid()
      modifies this, futures, regs
      ensures Valid() && Stepped(state, r) == WampSession.OnUnregistered(old(state), request)
    {
      HasKey(Kind.Unregister, request);
      if request !in tables.unregister { return Raised(ProtocolError); }
      var q := Pop(Kind.Unregister, request);
      if q.detail in registrations { RemoveReg(q.detail); }
      r := Settle(q.onReply, Resolved(Nothing));
    }

    method RemoveReg(id: int)
      requires Valid() && id in registrations
      modifies this`registrations, this`state, regs
      ensures Valid()
      ensures state == old(state).(regs := Withdrawn(old(state).regs, old(state).registrations[id]),
                                   registrations := old(state).registrations - {id})
    {
      var reg := registrations[id];
      KnownReg(state.regs, regs, reg);
      reg.active := false;
      registrations := registrations - {id};
      state := state.(regs := Withdrawn(state.regs, state.registrations[id]),
                      registrations := state.registrations - {id});
      forall i | 0 <= i < |regs| ensures IsReg(state.regs[i], regs[i], i) {
        assert old(IsReg(state.regs[i], regs[i], i));
      }
    }

    method OnError(requestType: int, request: int, error: int) returns (r: Outcome)
      requires Valid()
      modifies this, futures
      ensures Valid() && Stepped(state, r) == WampSession.OnError(old(state), requestType, request, error)
    {
      var k := KindOf(requestType);
      if k.None? { return Raised(ProtocolError); }
      HasKey(k.value, request);
      if request !in tables.Of(k.value) { return Raised(ProtocolError); }
      var q := Pop(k.value, request);
      r := Settle(q.onReply, Rejected(error));
    }

    method OnEvent(subscription: int) returns (r: Outcome)
      requires Valid()
      modifies this`log, this`state
      ensures Valid() && Stepped(state, r) == WampSession.OnEvent(old(state), subscription)
    {
      if subscription !in subscriptions { return Raised(ProtocolError); }
      var list := subscriptions[subscription];
      ghost var fires := Fires(state.subs, state.subscriptions[subscription]);
      for k := 0 to |list|
        invariant state == old(state) && log == old(log) + fires[..k]
      {
        KnownSub(state.subs, subs, list[k]);
        assert fires[..k + 1] == fires[..k] + [fires[k]];
        log := log + [Fired(list[k].handler)];
      }
      assert fires[..|list|] == fires;
      state := state.(log := log);
      return Done;
    }

    method OnInvocation(request: int, registration: int) returns (r: Outcome)
      requires Valid()
      modifies this
      ensures Valid() && Stepped(state, r) == WampSession.OnInvocation(old(state), request, registration)
    {
      if request in invocations { return Raised(ProtocolError); }
      if registration !in registrations { return Raised(ProtocolError); }
      var reg := registrations[registration];
      KnownReg(state.regs, regs, reg);
      OpenInvocation(request);
      Log(Invoked(request, reg.endpoint));
      return Done;
    }

    method OpenInvocation(request: int)
      requires Valid()
      modifies this`invocations, this`running, this`state
      ensures Valid()
      ensures state == old(state).(invocations := old(state).invocations + {request},
                                   running := old(state).running + multiset{request})
    {
      var invocation := new InvocationRequest(request);
      invocations, running := invocations[request := invocation], running + multiset{request};
      state := state.(invocations := state.invocations + {request}, running := running);
    }

    method OnInterrupt(request: int) returns (r: Outcome)
      requires Valid()
      modifies this
      ensures Valid() && Stepped(state, r) == WampSession.OnInterrupt(old(state), request)
    {
      if request !in invocations { return Raised(ProtocolError); }
      CloseInvocation(request);
      Log(Interrupted(request));
      return Done;
    }

    method OnGoodbye(d: Delivery) returns (r: Outcome)
      requires Valid()
      modifies this
      ensures Valid() && Stepped(state, r) == WampSession.OnGoodbye(old(state), d)
    {
      if !goodbyeSent {
        if !transport { return Raised(NoTransport); }
        var sent := Send(Goodbye, d);
        if !sent { return Raised(SendFailed); }
      }
      EndSession();
      Log(Left);
      return Done;
    }

    method OnMessage(m: Message, d: Delivery) returns (r: Outcome)
      requires Valid()
      modifies this, futures, subs, regs
      ensures Valid() && Stepped(state, r) == Receive(old(state), m, d)
    {
      if sessionId.None? {
        r := OnFirstMessage(m);
      } else if IsReply(m) {
        r := OnReply(m, d);
      } else {
        match m
        case Goodbyed => r := OnGoodbye(d);
        case Event(subscription) => r := OnEvent(subscription);
        case Invocation(request, registration) => r := OnInvocation(request, registration);
        case Interrupt(request) => r := OnInterrupt(request);
        case _ => r := Raised(ProtocolError);
      }
    }

    method OnReply(m: Message, d: Delivery) returns (r: Outcome)
      requires Valid() && sessionId.Some?
      requires IsReply(m)
      modifies this, futures, subs, regs
      ensures Valid() && Stepped(state, r) == Receive(old(state), m, d)
    {
      if m.Published? || m.Subscribed? || m.Unsubscribed? {
        r := OnBrokerReply(m, d);
      } else if m.Errored? {
        r := OnError(m.requestType, m.request, m.error);
      } else {
        r := OnDealerReply(m, d);
      }
    }

    method OnBrokerReply(m: Message, d: Delivery) returns (r: Outcome)
      requires Valid() && sessionId.Some? && (m.Published? || m.Subscribed? || m.Unsubscribed?)
      modifies this, futures, subs
      ensures Valid() && Stepped(state, r) == Receive(old(state), m, d)
    {
      match m
      case Published(request, publication) => r := OnPublished(request, publication);
      case Subscribed(request, subscription) => r := OnSubscribed(request, subscription);
      case Unsubscribed(request) => r := OnUnsubscribed(request);
    }

    method OnDealerReply(m: Message, d: Delivery) returns (r: Outcome)
      requires Valid() && sessionId.Some? && (m.Resulted? || m.Registered? || m.Unregistered?)
      modifies this, futures, regs
      ensures Valid() && Stepped(state, r) == Receive(old(state), m, d)
    {
      match m
      case Resulted(request, progress, value) => r := OnResult(request, progress, value);
      case Registered(request, registration) => r := OnRegistered(request, registration);
      case Unregistered(request) => r := OnUnregistered(request);
    }

    method OnFirstMessage(m: Message) returns (r: Outcome)
      requires Valid() && sessionId.None?
      modifies this
      ensures Valid() && forall d :: Stepped(state, r) == Receive(old(state), m, d)
    {
      match m
      case Welcome(session) =>
        sessionId := Some(session);
        state := state.(sessionId := sessionId);
        Log(Joined);
        return Done;
      case Abort =>
        Log(Left);
        return Done;
      case Challenge =>
        Log(Challenged);
        return Done;
      case _ =>
        return Raised(ProtocolError);
    }

    // ----- the results of endpoints

    method OnEnded(request: int, ending: Ending, d: Delivery, second: Delivery) returns (r: Outcome)
      requires Valid() && running[request] > 0
      modifies this
      ensures Valid() && Stepped(state, r) == StepEnded(old(state), request, ending, d, second)
    {
      End(request);
      if ending == Failure(false) { return Raised(Undescribable); }
      if request !in invocations { return Raised(KeyError); }
      CloseInvocation(request);
      r := SendReply(request, ending, d, second);
    }

    method CloseInvocation(request: int)
      requires Valid()
      modifies this`invocations, this`state
      ensures Valid() && state == old(state).(invocations := old(state).invocations - {request})
    {
      invocations := invocations - {request};
      state := state.(invocations := invocations.Keys);
    }

    method End(request: int)
      requires Valid() && running[request] > 0
      modifies this`running, this`state
      ensures Valid() && state == old(state).(running := old(state).running - multiset{request})
    {
      running := running - multiset{request};
      state := state.(running := running);
    }

    method SendReply(request: int, ending: Ending, d: Delivery, second: Delivery) returns (r: Outcome)
      requires Valid()
      modifies this`log, this`state
      ensures Valid() && Stepped(state, r) == Reply(old(state), request, ending, d, second)
    {
      if !transport { return Raised(NoTransport); }
      match d
      case Sent =>
        Log(if ending.Success? then Yielded(request) else Failed(request));
        return Done;
      case Unserializable =>
        if second != Sent { return Raised(SendFailed); }
        Log(Failed(request));
        return Done;
      case Broken =>
        return Raised(SendFailed);
    }
  }
}
