/** The sending half of the servers of tcp.py: what is owed to each connection, what its socket has
    taken, and what the other end makes of it. */
module JsonOutbound {
  import opened Sequences
  import opened JsonText
  import opened JsonWriter
  import opened JsonStream
  import opened JsonRoundTrip

  /** For each connection, since it was accepted: the text still to be sent, the text that the socket
      has taken, and all the text that was to be sent. */
  datatype Outbound = Outbound(buffers: map<int, string>, wire: map<int, string>, owed: map<int, string>)

  const NO_CLIENTS := Outbound(map[], map[], map[])

  datatype Event = Opened(client: int) | Closed(gone: int) | Queued(data: string) | Took(taker: int, n: nat)

  function AppendAll(m: map<int, string>, data: string): (r: map<int, string>)
    ensures r.Keys == m.Keys && forall c :: c in m ==> r[c] == m[c] + data
  {
    map c | c in m :: m[c] + data
  }

  function Step(s: Outbound, e: Event): Outbound {
    match e
    case Opened(c) => Outbound(s.buffers[c := ""], s.wire[c := ""], s.owed[c := ""])
    case Closed(c) => Outbound(s.buffers - {c}, s.wire - {c}, s.owed - {c})
    case Queued(data) => s.(buffers := AppendAll(s.buffers, data), owed := AppendAll(s.owed, data))
    case Took(c, n) =>
      if c in s.buffers && c in s.wire && n <= |s.buffers[c]| then
        s.(buffers := s.buffers[c := s.buffers[c][n..]], wire := s.wire[c := s.wire[c] + s.buffers[c][..n]])
      else s
  }

  function Run(s: Outbound, events: seq<Event>): Outbound
    decreases events
  {
    if events == [] then s else Run(Step(s, events[0]), events[1..])
  }

  /** Nothing is lost, doubled or reordered: what was taken and what is left make up what is owed. */
  ghost predicate Balanced(s: Outbound) {
    && s.wire.Keys == s.buffers.Keys == s.owed.Keys
    && forall c :: c in s.buffers ==> s.wire[c] + s.buffers[c] == s.owed[c]
  }

  lemma Parts(a: string, b: string, data: string, n: nat)
    requires n <= |b|
    ensures a + (b + data) == (a + b) + data && (a + b[..n]) + b[n..] == a + b
  {
    assert b[..n] + b[n..] == b;
  }

  lemma StepBalanced(s: Outbound, e: Event)
    requires Balanced(s)
    ensures Balanced(Step(s, e))
  {
    var s' := Step(s, e);
    forall c | c in s'.buffers ensures s'.wire[c] + s'.buffers[c] == s'.owed[c] {
      if c in s.buffers {
        match e
        case Queued(data) => Parts(s.wire[c], s.buffers[c], data, 0);
        case Took(_, n) => if n <= |s.buffers[c]| { Parts(s.wire[c], s.buffers[c], "", n); }
        case _ =>
      }
    }
  }

  // ----- values

  /** What the server does: connections come and go, values are written to all of them. */
  datatype Action = Open(client: int) | Close(gone: int) | Write(value: Value) | Take(taker: int, n: nat)

  function EventOf(a: Action): Event {
    match a
    case Open(c) => Opened(c)
    case Close(c) => Closed(c)
    case Write(v) => Queued(JsonWriter.Write(v, false))
    case Take(c, n) => Took(c, n)
  }

  /** The values written since the connection was accepted. */
  function Since(written: map<int, seq<Value>>, a: Action): map<int, seq<Value>> {
    match a
    case Open(c) => written[c := []]
    case Close(c) => written - {c}
    case Write(v) => map c | c in written :: written[c] + [v]
    case Take(_, _) => written
  }

  function RunActions(s: Outbound, actions: seq<Action>): Outbound
    decreases actions
  {
    if actions == [] then s else RunActions(Step(s, EventOf(actions[0])), actions[1..])
  }

  function WrittenTo(written: map<int, seq<Value>>, actions: seq<Action>): map<int, seq<Value>>
    decreases actions
  {
    if actions == [] then written else WrittenTo(Since(written, actions[0]), actions[1..])
  }

  /** What is owed is the text of the values written. */
  ghost predicate OwesValues(s: Outbound, written: map<int, seq<Value>>) {
    s.owed.Keys == written.Keys && forall c :: c in written ==> s.owed[c] == Stream(written[c], false)
  }

  lemma {:induction false} StreamMore(vs: seq<Value>, v: Value)
    ensures Stream(vs + [v], false) == Stream(vs, false) + JsonWriter.Write(v, false)
  {
    StreamSplit(vs + [v], false, |vs|);
    assert (vs + [v])[..|vs|] == vs && (vs + [v])[|vs|..] == [v];
    assert Stream([v], false) == JsonWriter.Write(v, false) + Stream([v][1..], false);
  }

  lemma StepOwes(s: Outbound, written: map<int, seq<Value>>, a: Action)
    requires Balanced(s) && OwesValues(s, written)
    ensures OwesValues(Step(s, EventOf(a)), Since(written, a))
  {
    if a.Write? {
      forall c | c in written ensures Step(s, EventOf(a)).owed[c] == Stream(written[c] + [a.value], false) {
        StreamMore(written[c], a.value);
      }
    }
  }

  lemma {:induction false} RunOwes(s: Outbound, written: map<int, seq<Value>>, actions: seq<Action>)
    requires Balanced(s) && OwesValues(s, written)
    ensures Balanced(RunActions(s, actions)) && OwesValues(RunActions(s, actions), WrittenTo(written, actions))
    decreases actions
  {
    if actions != [] {
      StepBalanced(s, EventOf(actions[0]));
      StepOwes(s, written, actions[0]);
      RunOwes(Step(s, EventOf(actions[0])), Since(written, actions[0]), actions[1..]);
    }
  }

  /** Over every run: what a connection's socket has taken is a beginning of the text of the values
      written since it was accepted, and the rest of that text is in its buffer. */
  lemma WireCarriesValues(actions: seq<Action>, c: int)
    requires c in RunActions(NO_CLIENTS, actions).buffers
    ensures var s, written := RunActions(NO_CLIENTS, actions), WrittenTo(map[], actions);
      && c in s.wire && c in written && s.wire[c] + s.buffers[c] == Stream(written[c], false)
  {
    RunOwes(NO_CLIENTS, map[], actions);
  }

  lemma CutTwice(chunks: string, rest: string, buffer: string)
    ensures chunks + rest + buffer == chunks + (rest + buffer)
  {
  }

  /** End to end, from one server to another: whatever chunks the other end has received of what the
      socket took, it has decoded exactly the values that are complete in them, in the order in which
      they were written. */
  lemma ValuesArrive(actions: seq<Action>, c: int, chunks: seq<string>, rest: string)
    requires c in RunActions(NO_CLIENTS, actions).buffers && c in WrittenTo(map[], actions)
    requires SelfDelimiting(WrittenTo(map[], actions)[c])
    requires c in RunActions(NO_CLIENTS, actions).wire
      && RunActions(NO_CLIENTS, actions).wire[c] == Concat(chunks) + rest
    ensures Standing(WrittenTo(map[], actions)[c], false, Concat(chunks), ReceiveAll(Drained([], ""), chunks))
  {
    var s, vs := RunActions(NO_CLIENTS, actions), WrittenTo(map[], actions)[c];
    WireCarriesValues(actions, c);
    CutTwice(Concat(chunks), rest, s.buffers[c]);
    StreamDecoding(vs, false, chunks, rest + s.buffers[c]);
  }
}
