/** The life of a session of wamp/protocol.py: joining, leaving, GOODBYE and the loss of the transport. */
module WampLifecycle {
  import opened Wrappers
  import opened WampSession

  // ----- what the log says about sessions

  /** Where the log stands: whether a session is open, whether GOODBYE has been sent for it, and
      whether all was in order up to here. */
  datatype Track = Track(open: bool, said: bool, orderly: bool)

  /** A session begins only when none is open; GOODBYE is sent only for an open one, and once. */
  function Follow(t: Track, a: Action): Track {
    match a
    case Joined => Track(true, false, t.orderly && !t.open)
    case Goodbye => Track(t.open, true, t.orderly && t.open && !t.said)
    case Left => t.(open := false)
    case _ => t
  }

  function TrackOf(log: seq<Action>): Track {
    if log == [] then Track(false, false, true) else Follow(TrackOf(log[..|log| - 1]), log[|log| - 1])
  }

  lemma TrackMore(log: seq<Action>, a: Action)
    ensures TrackOf(log + [a]) == Follow(TrackOf(log), a)
  {
    assert (log + [a])[..|log|] == log;
  }

  lemma TrackTwoMore(log: seq<Action>, a: Action, b: Action, log': seq<Action>)
    requires log' == log + [a] + [b]
    ensures TrackOf(log') == Follow(Follow(TrackOf(log), a), b)
  {
    TrackMore(log, a);
    TrackMore(log + [a], b);
  }

  lemma {:induction false} UnrelatedStays(log: seq<Action>, more: seq<Action>)
    requires forall i :: 0 <= i < |more| ==> Unrelated(more[i])
    ensures TrackOf(log + more) == TrackOf(log)
  {
    if more == [] {
      assert log + more == log;
    } else {
      var n := |more| - 1;
      UnrelatedStays(log, more[..n]);
      TrackMore(log + more[..n], more[n]);
      assert log + more == log + more[..n] + [more[n]];
    }
  }

  // ----- what an orderly log means, session by session

  /** The session that begins at i is not over before j. */
  ghost predicate Lasts(log: seq<Action>, i: nat, j: nat) {
    i < j <= |log| && log[i].Joined? && forall k :: i < k < j ==> !log[k].Joined? && !log[k].Left?
  }

  ghost predicate NoGoodbye(log: seq<Action>, i: nat, j: nat)
    requires j <= |log|
  {
    forall k :: i < k < j ==> !log[k].Goodbye?
  }

  /** The GOODBYE at j is for a session that began before and is not over, and is the first for it. */
  ghost predicate Due(log: seq<Action>, j: nat)
    requires j < |log|
  {
    exists i: nat :: Lasts(log, i, j) && NoGoodbye(log, i, j)
  }

  ghost predicate LeftBetween(log: seq<Action>, i: int, j: int) {
    exists k :: 0 <= i < k < j <= |log| && log[k].Left?
  }

  /** Each GOODBYE is due, and between any two sessions `onLeave` is called. */
  ghost predicate Orderly(log: seq<Action>) {
    && (forall j: nat :: j < |log| && log[j].Goodbye? ==> Due(log, j))
    && (forall i, j :: 0 <= i < j < |log| && log[i].Joined? && log[j].Joined? ==> LeftBetween(log, i, j))
  }

  /** The open session: when it began, and that `onLeave` was called for all before it. */
  ghost predicate Standing(log: seq<Action>, t: Track) {
    if t.open then exists i: nat :: Lasts(log, i, |log|) && (t.said || NoGoodbye(log, i, |log|))
    else forall i :: 0 <= i < |log| && log[i].Joined? ==> LeftBetween(log, i, |log|)
  }

  lemma LastsOn(log: seq<Action>, a: Action, i: nat)
    requires Lasts(log, i, |log|) && !a.Joined? && !a.Left?
    ensures Lasts(log + [a], i, |log| + 1)
  {
  }

  lemma PrefixDue(log: seq<Action>, a: Action, j: nat)
    requires j < |log| && Due(log, j)
    ensures Due(log + [a], j)
  {
    var i: nat :| Lasts(log, i, j) && NoGoodbye(log, i, j);
    assert Lasts(log + [a], i, j) && NoGoodbye(log + [a], i, j);
  }

  lemma PrefixLeft(log: seq<Action>, a: Action, i: int, j: int)
    requires LeftBetween(log, i, j)
    ensures LeftBetween(log + [a], i, j) && (j == |log| ==> LeftBetween(log + [a], i, |log| + 1))
  {
    var k :| 0 <= i < k < j <= |log| && log[k].Left?;
    assert (log + [a])[k].Left?;
  }

  lemma StandingOn(log: seq<Action>, a: Action)
    requires Standing(log, TrackOf(log)) && Follow(TrackOf(log), a).orderly
    ensures Standing(log + [a], Follow(TrackOf(log), a))
  {
    var t, log' := TrackOf(log), log + [a];
    match a
    case Joined => assert Lasts(log', |log|, |log'|) && NoGoodbye(log', |log|, |log'|);
    case Left =>
      forall i | 0 <= i < |log'| && log'[i].Joined? ensures LeftBetween(log', i, |log'|) {
        assert log'[|log|].Left?;
      }
    case Goodbye =>
      var i: nat :| Lasts(log, i, |log|);
      LastsOn(log, a, i);
    case _ =>
      if t.open {
        var i: nat :| Lasts(log, i, |log|) && (t.said || NoGoodbye(log, i, |log|));
        LastsOn(log, a, i);
        assert t.said || NoGoodbye(log', i, |log'|);
      } else {
        forall i | 0 <= i < |log'| && log'[i].Joined? ensures LeftBetween(log', i, |log'|) {
          PrefixLeft(log, a, i, |log|);
        }
      }
  }

  lemma OrderlyOn(log: seq<Action>, a: Action)
    requires Orderly(log) && Standing(log, TrackOf(log)) && Follow(TrackOf(log), a).orderly
    ensures Orderly(log + [a])
  {
    var t, log' := TrackOf(log), log + [a];
    forall j: nat | j < |log'| && log'[j].Goodbye? ensures Due(log', j) {
      if j < |log| {
        PrefixDue(log, a, j);
      } else {
        var i: nat :| Lasts(log, i, |log|) && (t.said || NoGoodbye(log, i, |log|));
        assert Lasts(log', i, j) && NoGoodbye(log', i, j);
      }
    }
    forall i, j | 0 <= i < j < |log'| && log'[i].Joined? && log'[j].Joined? ensures LeftBetween(log', i, j) {
      if j < |log| {
        PrefixLeft(log, a, i, j);
      } else {
        PrefixLeft(log, a, i, |log|);
      }
    }
  }

  /** What the track says is what it is meant to say. */
  lemma {:induction false} TrackMeans(log: seq<Action>)
    requires TrackOf(log).orderly
    ensures Orderly(log) && Standing(log, TrackOf(log))
  {
    if log != [] {
      var n := |log| - 1;
      TrackMeans(log[..n]);
      OrderlyOn(log[..n], log[n]);
      StandingOn(log[..n], log[n]);
      assert log == log[..n] + [log[n]];
    }
  }

  // ----- steps

  predicate Lifely(e: Input) {
    e.OnOpen? || e.OnClose? || e.Join? || e.Leave?
      || (e.OnMessage? && (e.message.Welcome? || e.message.Abort? || e.message.Goodbyed?))
  }

  lemma MessageApart(s: State, m: Message, d: Delivery)
    requires !m.Welcome? && !m.Abort? && !m.Goodbyed?
    ensures Apart(s, Receive(s, m, d))
  {
  }

  lemma StepApart(s: State, e: Input)
    requires !Lifely(e)
    ensures Apart(s, Step(s, e))
  {
    match e
    case OnMessage(m, d) => MessageApart(s, m, d);
    case _ =>
  }

  /** The log is in order and agrees with the session: one is open exactly while there is a session id,
      and GOODBYE that was sent for it is remembered. */
  predicate Fair(s: State) {
    var t := TrackOf(s.log);
    && t.orderly && (t.open <==> s.sessionId.Some?)
    && (t.open && t.said ==> s.sessionId.value != 0 && s.goodbyeSent)
  }

  lemma CloseFair(s: State)
    requires Fair(s)
    ensures Fair(StepClose(s).state)
  {
    if HasSession(s) {
      var log' := s.log + [Left, Disconnected];
      TrackTwoMore(s.log, Left, Disconnected, log');
      assert StepClose(s).state.log == log';
    } else {
      TrackMore(s.log, Disconnected);
      assert StepClose(s).state.log == s.log + [Disconnected];
    }
  }

  lemma JoinFair(s: State, d: Delivery)
    requires Fair(s)
    ensures Fair(StepJoin(s, d).state)
  {
    TrackMore(s.log, Hello);
  }

  /** `leave` sends GOODBYE only if none was sent for this session, and there is one. */
  lemma LeaveFair(s: State, d: Delivery)
    requires Fair(s)
    ensures Fair(StepLeave(s, d).state)
    ensures StepLeave(s, d).outcome == Done ==>
      StepLeave(s, d).state.log == s.log + [Goodbye] && TrackOf(s.log).open && !TrackOf(s.log).said
  {
    TrackMore(s.log, Goodbye);
  }

  /** GOODBYE is answered only if none was sent for this session. */
  lemma GoodbyeFair(s: State, d: Delivery)
    requires Fair(s) && s.sessionId.Some?
    ensures Fair(OnGoodbye(s, d).state)
    ensures OnGoodbye(s, d).outcome == Done ==>
      OnGoodbye(s, d).state.log == s.log + (if s.goodbyeSent then [] else [Goodbye]) + [Left]
    ensures !s.goodbyeSent ==> TrackOf(s.log).open && !TrackOf(s.log).said
  {
    if s.goodbyeSent {
      TrackMore(s.log, Left);
      assert s.log + [] + [Left] == s.log + [Left];
    } else {
      TrackTwoMore(s.log, Goodbye, Left, s.log + [Goodbye] + [Left]);
    }
  }

  lemma WelcomeFair(s: State, session: int, d: Delivery)
    requires Fair(s)
    ensures Fair(Receive(s, Welcome(session), d).state)
  {
    if s.sessionId.None? {
      TrackMore(s.log, Joined);
      assert Receive(s, Welcome(session), d).state.log == s.log + [Joined];
    }
  }

  lemma AbortFair(s: State, d: Delivery)
    requires Fair(s)
    ensures Fair(Receive(s, Abort, d).state)
  {
    if s.sessionId.None? {
      TrackMore(s.log, Left);
      assert Receive(s, Abort, d).state.log == s.log + [Left];
    }
  }

  lemma ApartFair(s: State, r: Stepped)
    requires Fair(s) && Apart(s, r)
    ensures Fair(r.state)
  {
    var log' := r.state.log;
    UnrelatedStays(s.log, log'[|s.log|..]);
    assert log' == s.log + log'[|s.log|..];
  }

  lemma StepFair(s: State, e: Input)
    requires Fair(s)
    ensures Fair(Step(s, e).state)
  {
    if !Lifely(e) {
      StepApart(s, e);
      ApartFair(s, Step(s, e));
    } else {
      match e
      case OnOpen =>
      case OnClose => CloseFair(s);
      case Join(d) => JoinFair(s, d);
      case Leave(d) => LeaveFair(s, d);
      case OnMessage(m, d) =>
        match m
        case Welcome(session) => WelcomeFair(s, session, d);
        case Abort => AbortFair(s, d);
        case Goodbyed => if s.sessionId.Some? { GoodbyeFair(s, d); }
    }
  }

  lemma {:induction false} RunFair(s: State, es: seq<Input>)
    requires Fair(s)
    ensures Fair(Run(s, es))
    decreases es
  {
    if es != [] {
      StepFair(s, es[0]);
      RunFair(Step(s, es[0]).state, es[1..]);
    }
  }

  /** Over every run, whoever leaves first and however often `join` and `leave` are called, session by
      session: each GOODBYE is sent while a session is open, and is the first for it; `onLeave` is
      called between any two sessions; and while there is no session it has been called for each. */
  lemma OneGoodbyeForEachSession(es: seq<Input>)
    ensures var s := Run(NEW_SESSION, es);
      && (forall j: nat :: j < |s.log| && s.log[j].Goodbye? ==> Due(s.log, j))
      && (forall i, j :: 0 <= i < j < |s.log| && s.log[i].Joined? && s.log[j].Joined? ==> LeftBetween(s.log, i, j))
    ensures var s := Run(NEW_SESSION, es);
      s.sessionId.None? ==> forall i :: 0 <= i < |s.log| && s.log[i].Joined? ==> LeftBetween(s.log, i, |s.log|)
  {
    RunFair(NEW_SESSION, es);
    TrackMeans(Run(NEW_SESSION, es).log);
  }

  lemma SecondGoodbye(log: seq<Action>, i: nat, j: nat)
    requires i < j < |log| && log[i].Goodbye? && log[j].Goodbye? && Due(log, i) && Due(log, j)
    requires forall x, y :: 0 <= x < y < |log| && log[x].Joined? && log[y].Joined? ==> LeftBetween(log, x, y)
    ensures exists k :: i < k < j && log[k].Joined? && LeftBetween(log, i, k)
  {
    var a: nat :| Lasts(log, a, i) && NoGoodbye(log, a, i);
    var b: nat :| Lasts(log, b, j) && NoGoodbye(log, b, j);
    assert i < b && log[b].Joined?;
    var k :| 0 <= a < k < b <= |log| && log[k].Left?;
    assert LeftBetween(log, i, b);
  }

  /** So no session has two GOODBYEs: between any two of them one session is over and another begins. */
  lemma NoSecondGoodbye(es: seq<Input>, i: nat, j: nat)
    requires var log := Run(NEW_SESSION, es).log;
      i < j < |log| && log[i].Goodbye? && log[j].Goodbye?
    ensures var log := Run(NEW_SESSION, es).log;
      exists k :: i < k < j && log[k].Joined? && LeftBetween(log, i, k)
  {
    OneGoodbyeForEachSession(es);
    SecondGoodbye(Run(NEW_SESSION, es).log, i, j);
  }
}
