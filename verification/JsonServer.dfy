/** `TCPServer` and `TCPJSONServer` of tcp.py: client tables, buffers and the receive queue.
    A socket is a number; what `recv` and `send` do to it are parameters. */
module JsonServer {
  import opened Sequences
  import opened JsonText
  import opened JsonWriter
  import opened JsonStream
  import JsonReader
  import opened JsonRoundTrip
  import JsonOutbound

  /** A received value together with the client that sent it. */
  datatype Tagged = Tagged(client: int, value: Json)

  function Values(log: seq<Tagged>): (r: seq<Json>)
    ensures |r| == |log|
  {
    if log == [] then [] else Values(log[..|log| - 1]) + [log[|log| - 1].value]
  }

  /** The values of one client, in order. */
  function SentBy(log: seq<Tagged>, c: int): seq<Json> {
    if log == [] then []
    else SentBy(log[..|log| - 1], c) + (if log[|log| - 1].client == c then [log[|log| - 1].value] else [])
  }

  function Tag(c: int, values: seq<Json>): (r: seq<Tagged>) {
    seq(|values|, i requires 0 <= i < |values| => Tagged(c, values[i]))
  }

  lemma {:induction false} TagLog(log: seq<Tagged>, c: int, values: seq<Json>, d: int)
    ensures Values(log + Tag(c, values)) == Values(log) + values
    ensures SentBy(log + Tag(c, values), d) == SentBy(log, d) + (if c == d then values else [])
  {
    if values == [] {
      assert log + Tag(c, values) == log;
    } else {
      var n := |values| - 1;
      var whole := log + Tag(c, values);
      assert whole[..|whole| - 1] == log + Tag(c, values[..n]);
      TagLog(log, c, values[..n], d);
      assert values == values[..n] + [values[n]];
      assert whole[|whole| - 1] == Tagged(c, values[n]);
    }
  }

  lemma {:induction false} ReceiveAllSnoc(d: Drained, chunks: seq<string>, chunk: string)
    ensures ReceiveAll(d, chunks + [chunk]) == Receive(ReceiveAll(d, chunks), chunk)
    decreases chunks
  {
    if chunks == [] {
      assert [] + [chunk] == [chunk];
    } else {
      assert (chunks + [chunk])[1..] == chunks[1..] + [chunk];
      ReceiveAllSnoc(Receive(d, chunks[0]), chunks[1..], chunk);
    }
  }

  class Server {
    const server: int
    var clients: seq<int>
    var sockets: seq<int>
    var sendBuffer: map<int, string>
    var recvBuffer: map<int, string>
    var recvQueue: seq<Json>

    /** Everything ever put into the queue, what was taken from it, and the chunks that each
        connection has delivered since it was accepted. */
    ghost var log: seq<Tagged>
    ghost var taken: seq<Json>
    ghost var received: map<int, seq<string>>

    /** What each socket has taken since it was accepted, and what was to be sent to it. */
    ghost var wire: map<int, string>
    ghost var owed: map<int, string>

    constructor (server: int)
      ensures Valid() && this.server == server && clients == [] && recvQueue == [] && received == map[]
    {
      this.server := server;
      clients := [];
      sockets := [server];
      sendBuffer := map[];
      recvBuffer := map[];
      recvQueue := [];
      log := [];
      taken := [];
      received := map[];
      wire, owed := map[], map[];
    }

    ghost predicate Valid() reads this {
      && Tables(server, clients, sockets, sendBuffer.Keys, recvBuffer.Keys)
      && taken + recvQueue == Values(log)
      && JsonOutbound.Balanced(Sending())
    }

    /** The sending half of the server, as a value. */
    ghost function Sending(): JsonOutbound.Outbound reads this { JsonOutbound.Outbound(sendBuffer, wire, owed) }

    /** The receiving half of the server, as a value. */
    ghost function State(): Service reads this { Service(recvBuffer, log, received) }

    method Accept(client: int)
      requires Valid() && client !in clients && client != server
      modifies `clients, `sockets, `sendBuffer, `recvBuffer, `received, `wire, `owed
      ensures Valid()
      ensures clients == old(clients) + [client]
      ensures Sending() == JsonOutbound.Step(old(Sending()), JsonOutbound.Opened(client))
      ensures State() == Step(old(State()), Opened(client))
    {
      TablesWith(server, clients, sockets, sendBuffer.Keys, client);
      sockets := sockets + [client];
      clients := clients + [client];
      OpenBuffers(client);
    }

    method Close(sock: int)
      requires Valid() && sock in clients
      modifies `clients, `sockets, `sendBuffer, `recvBuffer, `wire, `owed
      ensures Valid()
      ensures clients == Remove(old(clients), sock)
      ensures Sending() == JsonOutbound.Step(old(Sending()), JsonOutbound.Closed(sock))
      ensures State() == Step(old(State()), Closed(sock))
    {
      ghost var keys := sendBuffer.Keys;
      TablesWithout(server, clients, sockets, keys, sock);
      Unlist(sock);
      DropBuffers(sock);
      assert sendBuffer.Keys == keys - {sock} && recvBuffer.Keys == keys - {sock};
    }

    method Unlist(sock: int)
      requires sock in clients && sock in sockets
      modifies `clients, `sockets
      ensures clients == Remove(old(clients), sock) && sockets == Remove(old(sockets), sock)
      ensures Sending() == old(Sending()) && State() == old(State())
    {
      clients := Remove(clients, sock);
      sockets := Remove(sockets, sock);
    }

    /** `recv` of the JSON server: takes all complete values off the data, returns the rest. */
    method Recv(data: string) returns (left: string)
      modifies `recvQueue
      ensures Drained(recvQueue, left) == Drain(old(recvQueue), data)
    {
      left := data;
      var reader := new JsonReader.Reader();
      while |left| > 0
        invariant fresh(reader) && fresh(reader.generator)
        invariant Drain(recvQueue, left) == Drain(old(recvQueue), data)
        decreases |left|
      {
        var r := reader.Read(left);
        if r.Raise? {
          return;
        }
        recvQueue := recvQueue + [r.value.0];
        left := LStrip(left[r.value.1..]);
      }
    }

    /** `socket_receive`: Failed is an exception of the socket, the empty string the end of the
        connection; both close it. */
    method SocketReceive(client: int, chunk: Outcome)
      requires Valid() && client in clients
      modifies this
      ensures Valid() && taken == old(taken)
      ensures if chunk == Failed || chunk == Data("")
        then clients == Remove(old(clients), client)
             && Sending() == JsonOutbound.Step(old(Sending()), JsonOutbound.Closed(client))
             && State() == Step(old(State()), Closed(client))
        else clients == old(clients) && Sending() == old(Sending())
             && State() == Step(old(State()), Chunk(client, chunk.bytes))
    {
      if chunk.Failed? || chunk.bytes == "" {
        Close(client);
      } else {
        Enqueue(client, chunk.bytes);
      }
    }

    method Enqueue(client: int, chunk: string)
      requires Valid() && client in recvBuffer
      modifies `recvQueue, `recvBuffer, `log, `received
      ensures Valid()
      ensures State() == Step(old(State()), Chunk(client, chunk))
    {
      var data := recvBuffer[client] + chunk;
      var left := Recv(data);
      ghost var d := Drain([], data);
      Enqueued(taken, old(recvQueue), log, client, data);
      recvBuffer := recvBuffer[client := left];
      log := log + Tag(client, d.values);
      received := received[client := (if client in received then received[client] else []) + [chunk]];
    }

    method Available() returns (b: bool)
      requires Valid()
      ensures b <==> recvQueue != []
    {
      return |recvQueue| > 0;
    }

    /** `read`: values leave the queue once each, in the order in which they were decoded. */
    method Read() returns (value: MaybeJson)
      requires Valid()
      modifies `recvQueue, `taken
      ensures Valid()
      ensures old(recvQueue) == [] ==> value == Nothing && recvQueue == [] && taken == old(taken)
      ensures old(recvQueue) != [] ==> value == Just(Values(log)[|old(taken)|]) && taken == old(taken) + [value.json]
    {
      if recvQueue == [] {
        return Nothing;
      }
      value := Just(recvQueue[0]);
      recvQueue := recvQueue[1..];
      taken := taken + [value.json];
      assert old(taken + recvQueue)[|old(taken)|] == value.json;
      assert taken + recvQueue == old(taken + recvQueue);
    }

    /** `send`: the data is queued for every connected client, once. */
    method Send(data: string)
      requires Valid()
      modifies `sendBuffer, `owed
      ensures Valid()
      ensures Sending() == JsonOutbound.Step(old(Sending()), JsonOutbound.Queued(data))
    {
      JsonOutbound.StepBalanced(Sending(), JsonOutbound.Queued(data));
      AppendToAll(data);
      owed := JsonOutbound.AppendAll(owed, data);
    }

    method AppendToAll(data: string)
      requires Distinct(clients) && sendBuffer.Keys == Elements(clients)
      modifies `sendBuffer
      ensures sendBuffer == JsonOutbound.AppendAll(old(sendBuffer), data)
    {
      assert forall i :: 0 <= i < |clients| ==> clients[i] in Elements(clients);
      for i := 0 to |clients|
        invariant sendBuffer == SendTo(old(sendBuffer), clients[..i], data)
      {
        SendToNext(old(sendBuffer), clients, i, data);
        sendBuffer := sendBuffer[clients[i] := sendBuffer[clients[i]] + data];
      }
      assert clients[..|clients|] == clients;
      SentToAll(old(sendBuffer), clients, data);
    }

    /** The buffers of a new connection. */
    method OpenBuffers(client: int)
      requires JsonOutbound.Balanced(Sending())
      modifies `sendBuffer, `recvBuffer, `received, `wire, `owed
      ensures JsonOutbound.Balanced(Sending())
      ensures Sending() == JsonOutbound.Step(old(Sending()), JsonOutbound.Opened(client))
      ensures State() == Step(old(State()), Opened(client))
      ensures sendBuffer.Keys == old(sendBuffer).Keys + {client} && recvBuffer.Keys == old(recvBuffer).Keys + {client}
    {
      JsonOutbound.StepBalanced(Sending(), JsonOutbound.Opened(client));
      sendBuffer := sendBuffer[client := ""];
      recvBuffer := recvBuffer[client := ""];
      wire, owed, received := wire[client := ""], owed[client := ""], received[client := []];
    }

    method DropBuffers(client: int)
      requires JsonOutbound.Balanced(Sending())
      modifies `sendBuffer, `recvBuffer, `wire, `owed
      ensures JsonOutbound.Balanced(Sending())
      ensures Sending() == JsonOutbound.Step(old(Sending()), JsonOutbound.Closed(client))
      ensures State() == Step(old(State()), Closed(client))
      ensures sendBuffer.Keys == old(sendBuffer).Keys - {client} && recvBuffer.Keys == old(recvBuffer).Keys - {client}
    {
      JsonOutbound.StepBalanced(Sending(), JsonOutbound.Closed(client));
      sendBuffer := sendBuffer - {client};
      recvBuffer := recvBuffer - {client};
      wire, owed := wire - {client}, owed - {client};
    }

    method Write(obj: Value)
      requires Valid()
      modifies `sendBuffer, `owed
      ensures Valid()
      ensures Sending() == JsonOutbound.Step(old(Sending()), JsonOutbound.EventOf(JsonOutbound.Write(obj)))
    {
      var writer := new Writer();
      var data := writer.WriteObject(obj, false);
      Send(data);
    }

    /** The socket has taken `sent` more characters: what it has taken by now is a beginning of what is
        owed to it, and the buffer is the rest. */
    method Sent(client: int, sent: nat)
      requires Valid() && client in clients && client in sendBuffer && sent <= |sendBuffer[client]|
      modifies `sendBuffer, `wire
      ensures Valid() && client in wire && client in owed && client in sendBuffer
      ensures |wire[client]| == |old(wire)[client]| + sent && wire[client] <= owed[client]
      ensures sendBuffer[client] == owed[client][|wire[client]|..]
      ensures Sending() == JsonOutbound.Step(old(Sending()), JsonOutbound.Took(client, sent))
    {
      JsonOutbound.StepBalanced(Sending(), JsonOutbound.Took(client, sent));
      wire := wire[client := wire[client] + sendBuffer[client][..sent]];
      sendBuffer := sendBuffer[client := sendBuffer[client][sent..]];
      assert owed[client] == wire[client] + sendBuffer[client];
    }
  }

  datatype Outcome = Data(bytes: string) | Failed

  datatype MaybeJson = Nothing | Just(json: Json)

  ghost function Elements(s: seq<int>): set<int> {
    set x | x in s
  }

  /** The lists and tables speak of the same connections, each of them once. */
  ghost predicate Tables(server: int, clients: seq<int>, sockets: seq<int>, sending: set<int>, receiving: set<int>) {
    Distinct(clients) && sockets == [server] + clients && server !in clients
    && sending == Elements(clients) && receiving == Elements(clients)
  }

  lemma TablesWith(server: int, clients: seq<int>, sockets: seq<int>, keys: set<int>, client: int)
    requires Tables(server, clients, sockets, keys, keys) && client !in clients && client != server
    ensures Tables(server, clients + [client], sockets + [client], keys + {client}, keys + {client})
  {
  }

  lemma TablesWithout(server: int, clients: seq<int>, sockets: seq<int>, keys: set<int>, sock: int)
    requires Tables(server, clients, sockets, keys, keys) && sock in clients
    ensures sock in sockets
    ensures Tables(server, Remove(clients, sock), Remove(sockets, sock), keys - {sock}, keys - {sock})
  {
    assert sockets[0] == server && sockets[1..] == clients;
    RemoveDistinct(clients, sock);
    assert server !in Elements(Remove(clients, sock));
  }

  /** `buffer[c] += data` for each of the connections. */
  function SendTo(buffer: map<int, string>, cs: seq<int>, data: string): (r: map<int, string>)
    requires forall i :: 0 <= i < |cs| ==> cs[i] in buffer
    ensures r.Keys == buffer.Keys
  {
    if cs == [] then buffer
    else
      var n := |cs| - 1;
      var r := SendTo(buffer, cs[..n], data);
      r[cs[n] := r[cs[n]] + data]
  }

  lemma SendToNext(buffer: map<int, string>, cs: seq<int>, i: nat, data: string)
    requires i < |cs| && forall i :: 0 <= i < |cs| ==> cs[i] in buffer
    ensures var r := SendTo(buffer, cs[..i], data);
      SendTo(buffer, cs[..i + 1], data) == r[cs[i] := r[cs[i]] + data]
  {
    assert cs[..i + 1][..i] == cs[..i];
  }

  /** Every connection is sent the data once. */
  lemma {:induction false} SendToEach(buffer: map<int, string>, cs: seq<int>, data: string, c: int)
    requires Distinct(cs) && c in buffer && forall i :: 0 <= i < |cs| ==> cs[i] in buffer
    ensures SendTo(buffer, cs, data)[c] == buffer[c] + (if c in cs then data else "")
  {
    if cs == [] {
      assert buffer[c] + "" == buffer[c];
    } else {
      var n := |cs| - 1;
      SendToEach(buffer, cs[..n], data, c);
      assert cs == cs[..n] + [cs[n]];
      assert cs[n] !in cs[..n];
    }
  }

  lemma SentToAll(buffer: map<int, string>, cs: seq<int>, data: string)
    requires Distinct(cs) && (forall i :: 0 <= i < |cs| ==> cs[i] in buffer) && buffer.Keys == Elements(cs)
    ensures SendTo(buffer, cs, data) == JsonOutbound.AppendAll(buffer, data)
  {
    forall c | c in buffer ensures SendTo(buffer, cs, data)[c] == buffer[c] + data {
      SendToEach(buffer, cs, data, c);
      assert c in Elements(cs);
    }
  }

  lemma Enqueued(taken: seq<Json>, queue: seq<Json>, log: seq<Tagged>, client: int, data: string)
    requires taken + queue == Values(log)
    ensures var d := Drain([], data);
      && Drain(queue, data) == Drained(queue + d.values, d.left)
      && taken + (queue + d.values) == Values(log + Tag(client, d.values))
  {
    var d := Drain([], data);
    DrainAfter(queue, data);
    TagLog(log, client, d.values, client);
    assert taken + (queue + d.values) == taken + queue + d.values;
  }

  // ----- the receiving side over whole runs

  /** The kept texts, everything that was ever queued, and the chunks that each connection has
      delivered since it was accepted. */
  datatype Service = Service(buffers: map<int, string>, log: seq<Tagged>, received: map<int, seq<string>>)

  datatype Event = Opened(client: int) | Chunk(sender: int, text: string) | Closed(gone: int)

  function Step(s: Service, e: Event): Service {
    match e
    case Opened(c) => s.(buffers := s.buffers[c := ""], received := s.received[c := []])
    case Closed(c) => s.(buffers := s.buffers - {c})
    case Chunk(c, text) => if c in s.buffers then Deliver(s, c, text) else s
  }

  function Deliver(s: Service, c: int, text: string): Service
    requires c in s.buffers
  {
    var d := Drain([], s.buffers[c] + text);
    Service(s.buffers[c := d.left], s.log + Tag(c, d.values),
            s.received[c := (if c in s.received then s.received[c] else []) + [text]])
  }

  function Run(s: Service, events: seq<Event>): Service
    decreases events
  {
    if events == [] then s else Run(Step(s, events[0]), events[1..])
  }

  /** A new socket is a new object: no connection is opened twice. */
  predicate Fresh(seen: set<int>, events: seq<Event>)
    decreases events
  {
    events == [] ||
    if events[0].Opened? then events[0].client !in seen && Fresh(seen + {events[0].client}, events[1..])
    else Fresh(seen, events[1..])
  }

  /** Each connection, open or closed, has contributed to the queue what its own chunks decode to; and
      the buffer of an open one is what they leave. */
  ghost predicate Decoded(s: Service) {
    && (forall t :: t in s.log ==> t.client in s.received)
    && s.buffers.Keys <= s.received.Keys
    && forall c :: c in s.received ==> DecodedFor(s, c)
  }

  ghost predicate DecodedFor(s: Service, c: int)
    requires c in s.received
  {
    var d := ReceiveAll(Drained([], ""), s.received[c]);
    SentBy(s.log, c) == d.values && (c in s.buffers ==> s.buffers[c] == d.left)
  }

  lemma {:induction false} NeverSent(log: seq<Tagged>, c: int)
    requires forall t :: t in log ==> t.client != c
    ensures SentBy(log, c) == []
  {
    if log != [] {
      assert log[|log| - 1] in log;
      NeverSent(log[..|log| - 1], c);
    }
  }

  lemma ChunkDecoded(s: Service, client: int, chunk: string, c: int)
    requires Decoded(s) && client in s.buffers && c in s.received
    ensures var s' := Step(s, Chunk(client, chunk)); c in s'.received && DecodedFor(s', c)
  {
    var d := Drain([], s.buffers[client] + chunk);
    assert DecodedFor(s, c);
    TagLog(s.log, client, d.values, c);
    if c == client {
      DrainAfter(SentBy(s.log, client), s.buffers[client] + chunk);
      ReceiveAllSnoc(Drained([], ""), s.received[client], chunk);
    }
  }

  lemma StepDecoded(s: Service, e: Event)
    requires Decoded(s)
    requires e.Opened? ==> e.client !in s.received
    ensures Decoded(Step(s, e))
  {
    var s' := Step(s, e);
    match e {
      case Opened(client) =>
        NeverSent(s.log, client);
        assert ReceiveAll(Drained([], ""), []) == Drained([], "");
        forall c | c in s'.received ensures DecodedFor(s', c) {
          assert c != client ==> DecodedFor(s, c);
        }
      case Closed(client) =>
        forall c | c in s'.received ensures DecodedFor(s', c) {
          assert DecodedFor(s, c);
        }
      case Chunk(client, chunk) =>
        if client in s.buffers {
          forall c | c in s'.received ensures DecodedFor(s', c) {
            ChunkDecoded(s, client, chunk, c);
          }
          var d := Drain([], s.buffers[client] + chunk);
          assert forall t :: t in Tag(client, d.values) ==> t.client == client;
        }
    }
  }

  lemma {:induction false} RunDecoded(s: Service, events: seq<Event>)
    requires Decoded(s) && Fresh(s.received.Keys, events)
    ensures Decoded(Run(s, events))
    decreases events
  {
    if events != [] {
      StepDecoded(s, events[0]);
      var s' := Step(s, events[0]);
      assert s'.received.Keys == if events[0].Opened? then s.received.Keys + {events[0].client} else s.received.Keys;
      RunDecoded(s', events[1..]);
    }
  }

  /** `list.remove(x)`: the first occurrence. */
  function Remove(s: seq<int>, x: int): (r: seq<int>)
    requires x in s
  {
    if s[0] == x then s[1..] else [s[0]] + Remove(s[1..], x)
  }

  lemma {:induction false} RemoveDistinct(s: seq<int>, x: int)
    requires x in s && Distinct(s)
    ensures Distinct(Remove(s, x)) && Elements(Remove(s, x)) == Elements(s) - {x}
  {
    assert s == [s[0]] + s[1..];
    assert Elements(s) == {s[0]} + Elements(s[1..]);
    if s[0] != x {
      RemoveDistinct(s[1..], x);
      var r := Remove(s[1..], x);
      assert forall y :: y in r <==> y in Elements(r);
      assert Elements([s[0]] + r) == {s[0]} + Elements(r);
      assert s[0] !in Elements(s[1..]) by { assert forall i :: 0 <= i < |s[1..]| ==> s[1..][i] == s[i + 1]; }
    } else {
      assert s[0] !in Elements(s[1..]) by { assert forall i :: 0 <= i < |s[1..]| ==> s[1..][i] == s[i + 1]; }
    }
  }

  /** For every interleaving of any number of connections: a client that sends self-delimiting
      values has, at every moment, contributed exactly the values written completely in what was
      received from it, in order. While it is connected its buffer is the unfinished text of the next
      one; when it is closed, its contribution stays what it was. */
  lemma ClientStreams(events: seq<Event>, c: int, vs: seq<Value>, escapeSlash: bool, x: string)
    returns (left: string)
    requires Fresh({}, events)
    requires var s := Run(Service(map[], [], map[]), events);
      c in s.received && SelfDelimiting(vs) && Stream(vs, escapeSlash) == Concat(s.received[c]) + x
    ensures var s := Run(Service(map[], [], map[]), events);
      && Standing(vs, escapeSlash, Concat(s.received[c]), Drained(SentBy(s.log, c), left))
      && (c in s.buffers ==> s.buffers[c] == left)
  {
    var empty := Service(map[], [], map[]);
    assert empty.received.Keys == {};
    RunDecoded(empty, events);
    var s := Run(empty, events);
    assert DecodedFor(s, c);
    StreamDecoding(vs, escapeSlash, s.received[c], x);
    left := ReceiveAll(Drained([], ""), s.received[c]).left;
  }

  /** Every open connection is one whose chunks are recorded. */
  lemma OpenIsReceived(events: seq<Event>, c: int)
    requires Fresh({}, events) && c in Run(Service(map[], [], map[]), events).buffers
    ensures c in Run(Service(map[], [], map[]), events).received
  {
    var empty := Service(map[], [], map[]);
    assert empty.received.Keys == {};
    RunDecoded(empty, events);
  }
}
