/** What the header of a permessage-deflate handshake means (section 7.1 of RFC 7692), and that the
    objects which both sides make of it honour it. */
module DeflateHandshake {
  import opened Bits
  import opened Wrappers
  import opened Deflate

  // ----- what the parsers accept

  /** The header is a dict: no parameter has two entries. */
  predicate NoRepeats(params: seq<Param>) {
    forall i, j :: 0 <= i < j < |params| ==> params[i].name != params[j].name
  }

  predicate Alone(p: Param) { p.values == [True] }

  predicate Sized(p: Param) { |p.values| == 1 && p.values[0].Number? && 8 <= p.values[0].n <= 15 }

  predicate OfferAllows(p: Param) {
    match p.name
    case "client_max_window_bits" => Alone(p) || Sized(p)
    case "client_no_context_takeover" => Alone(p)
    case "server_max_window_bits" => Sized(p)
    case "server_no_context_takeover" => Alone(p)
    case _ => false
  }

  predicate ResponseAllows(p: Param) {
    match p.name
    case "client_max_window_bits" => Sized(p)
    case "client_no_context_takeover" => Alone(p)
    case "server_max_window_bits" => Sized(p)
    case "server_no_context_takeover" => Alone(p)
    case _ => false
  }

  predicate Named(params: seq<Param>, name: string) { exists i :: 0 <= i < |params| && params[i].name == name }

  /** The number given with the name, or the other value. */
  ghost predicate Gives(params: seq<Param>, name: string, n: int, other: int) {
    && (forall i :: 0 <= i < |params| && params[i].name == name && Sized(params[i]) ==> n == params[i].values[0].n)
    && (!Named(params, name) ==> n == other)
  }

  lemma GivesFirst(params: seq<Param>, name: string, n: int, other: int)
    requires params != [] && NoRepeats(params)
    requires Gives(params[1..], name, n,
                   if params[0].name == name && Sized(params[0]) then params[0].values[0].n else other)
    ensures (params[0].name == name ==> Sized(params[0])) ==> Gives(params, name, n, other)
  {
    var rest := params[1..];
    assert forall i :: 0 <= i < |rest| ==> rest[i] == params[i + 1];
    NamedFirst(params, name);
  }

  lemma AllFirst(params: seq<Param>, ok: Param -> bool)
    requires params != []
    ensures (forall i :: 0 <= i < |params| ==> ok(params[i]))
       <==> ok(params[0]) && (forall i :: 0 <= i < |params[1..]| ==> ok(params[1..][i]))
  {
    assert params == [params[0]] + params[1..];
  }

  ghost predicate OfferSays(params: seq<Param>, o: Offer, r: Offer) {
    && r.acceptMaxWindowBits == (o.acceptMaxWindowBits || Named(params, "client_max_window_bits"))
    && r.acceptNoContextTakeover == (o.acceptNoContextTakeover || Named(params, "client_no_context_takeover"))
    && r.requestNoContextTakeover == (o.requestNoContextTakeover || Named(params, "server_no_context_takeover"))
    && Gives(params, "server_max_window_bits", r.requestMaxWindowBits, o.requestMaxWindowBits)
  }

  lemma OfferSaysMore(params: seq<Param>, o: Offer, r: Offer)
    requires params != [] && NoRepeats(params) && OfferParam(o, params[0]).Ok?
    requires OfferSays(params[1..], OfferParam(o, params[0]).value, r)
    ensures OfferSays(params, o, r)
  {
    OneOfferParam(o, params[0]);
    NamedFirst(params, "client_max_window_bits");
    NamedFirst(params, "client_no_context_takeover");
    NamedFirst(params, "server_no_context_takeover");
    GivesFirst(params, "server_max_window_bits", r.requestMaxWindowBits, o.requestMaxWindowBits);
  }

  /** The offer that the server reads, parameter by parameter: it raises exactly if one is not
      allowed, and otherwise each field says whether, or with what number, its parameter is there. */
  lemma {:induction false} OfferMeaning(o: Offer, params: seq<Param>)
    requires NoRepeats(params)
    ensures OfferParams(o, params).Ok? <==> forall i :: 0 <= i < |params| ==> OfferAllows(params[i])
    ensures OfferParams(o, params).Ok? ==> OfferSays(params, o, OfferParams(o, params).value)
    decreases params
  {
    if params != [] {
      OneOfferParam(o, params[0]);
      AllFirst(params, OfferAllows);
      if OfferAllows(params[0]) {
        var o' := OfferParam(o, params[0]).value;
        OfferMeaning(o', params[1..]);
        if OfferParams(o, params).Ok? { OfferSaysMore(params, o, OfferParams(o, params).value); }
      }
    }
  }

  ghost predicate ResponseSays(params: seq<Param>, o: Response, r: Response) {
    && r.clientNoContextTakeover == (o.clientNoContextTakeover || Named(params, "client_no_context_takeover"))
    && r.serverNoContextTakeover == (o.serverNoContextTakeover || Named(params, "server_no_context_takeover"))
    && Gives(params, "client_max_window_bits", r.clientMaxWindowBits, o.clientMaxWindowBits)
    && Gives(params, "server_max_window_bits", r.serverMaxWindowBits, o.serverMaxWindowBits)
  }

  lemma ResponseSaysMore(params: seq<Param>, o: Response, r: Response)
    requires params != [] && NoRepeats(params) && ResponseParam(o, params[0]).Ok?
    requires ResponseSays(params[1..], ResponseParam(o, params[0]).value, r)
    ensures ResponseSays(params, o, r)
  {
    OneResponseParam(o, params[0]);
    NamedFirst(params, "client_no_context_takeover");
    NamedFirst(params, "server_no_context_takeover");
    GivesFirst(params, "client_max_window_bits", r.clientMaxWindowBits, o.clientMaxWindowBits);
    GivesFirst(params, "server_max_window_bits", r.serverMaxWindowBits, o.serverMaxWindowBits);
  }

  /** The response that the client reads, parameter by parameter. */
  lemma {:induction false} ResponseMeaning(o: Response, params: seq<Param>)
    requires NoRepeats(params)
    ensures ResponseParams(o, params).Ok? <==> forall i :: 0 <= i < |params| ==> ResponseAllows(params[i])
    ensures ResponseParams(o, params).Ok? ==> ResponseSays(params, o, ResponseParams(o, params).value)
    decreases params
  {
    if params != [] {
      OneResponseParam(o, params[0]);
      AllFirst(params, ResponseAllows);
      if ResponseAllows(params[0]) {
        var o' := ResponseParam(o, params[0]).value;
        ResponseMeaning(o', params[1..]);
        if ResponseParams(o, params).Ok? { ResponseSaysMore(params, o, ResponseParams(o, params).value); }
      }
    }
  }

  lemma OneResponseParam(o: Response, p: Param)
    ensures ResponseParam(o, p).Ok? <==> ResponseAllows(p)
    ensures ResponseAllows(p) ==> ResponseParam(o, p).value == match p.name
      case "client_max_window_bits" => o.(clientMaxWindowBits := p.values[0].n)
      case "client_no_context_takeover" => o.(clientNoContextTakeover := true)
      case "server_max_window_bits" => o.(serverMaxWindowBits := p.values[0].n)
      case _ => o.(serverNoContextTakeover := true)
  {
    Names();
  }

  lemma NamedFirst(params: seq<Param>, name: string)
    requires params != []
    ensures Named(params, name) <==> params[0].name == name || Named(params[1..], name)
  {
    if Named(params[1..], name) {
      var i :| 0 <= i < |params| - 1 && params[1..][i].name == name;
      assert params[i + 1].name == name;
    }
    if i :| 0 < i < |params| && params[i].name == name {
      assert params[1..][i - 1].name == name;
    }
  }

  lemma OneOfferParam(o: Offer, p: Param)
    ensures OfferParam(o, p).Ok? <==> OfferAllows(p)
    ensures OfferAllows(p) ==> OfferParam(o, p).value == match p.name
      case "client_max_window_bits" => o.(acceptMaxWindowBits := true)
      case "client_no_context_takeover" => o.(acceptNoContextTakeover := true)
      case "server_max_window_bits" => o.(requestMaxWindowBits := p.values[0].n)
      case _ => o.(requestNoContextTakeover := true)
  {
    Names();
  }

  // ----- what was agreed, and what the objects do

  predicate Has(header: seq<Param>, name: string) { Param(name, [True]) in header }

  predicate Sets(header: seq<Param>, name: string, n: int) { Param(name, [Number(n)]) in header }

  lemma WhatAcceptSays(a: OfferAccept)
    ensures var h := AcceptHeader(a);
      && (Has(h, "server_no_context_takeover") <==> a.offer.requestNoContextTakeover)
      && (Has(h, "client_no_context_takeover") <==> a.requestNoContextTakeover)
      && (forall n :: Sets(h, "server_max_window_bits", n) <==> n == a.offer.requestMaxWindowBits != 0)
      && (forall n :: Sets(h, "client_max_window_bits", n) <==> n == a.requestMaxWindowBits != 0)
  {
    Names();
  }

  lemma WhatOfferSays(o: Offer)
    ensures var h := OfferHeader(o);
      && (Has(h, "server_no_context_takeover") <==> o.requestNoContextTakeover)
      && (Has(h, "client_no_context_takeover") <==> o.acceptNoContextTakeover)
      && (Has(h, "client_max_window_bits") <==> o.acceptMaxWindowBits)
      && (forall n :: Sets(h, "server_max_window_bits", n) <==> n == o.requestMaxWindowBits != 0)
  {
    Names();
  }

  /** What the response header says about one direction, and what the two ends of it do: where it
      says no context takeover both forget after each message, and where it gives a window the
      compressor keeps within it and the decompressor has just that. */
  ghost predicate Honours(header: seq<Param>, noTakeover: string, maxBits: string, d: Direction) {
    && (Has(header, noTakeover) ==> d.compressResets)
    && (Has(header, noTakeover) <==> d.decompressResets)
    && (forall n :: Sets(header, maxBits, n) ==> 8 <= d.compressBits <= n <= 15 && d.decompressBits == n)
    && ((forall n :: !Sets(header, maxBits, n)) ==> 8 <= d.compressBits <= d.decompressBits == 15)
  }

  /** The two constructors and the reading of the response, as the handshake has them. */
  ghost predicate Agreed(accept: OfferAccept, final: ResponseAccept) {
    && MakeOfferAccept(accept.offer, accept.requestNoContextTakeover, accept.requestMaxWindowBits,
                       accept.noContextTakeover, accept.windowBits, accept.memLevel) == Ok(accept)
    && (accept.offer.requestMaxWindowBits == 0 || WindowBits(accept.offer.requestMaxWindowBits))
    && final.response == Response(accept.requestMaxWindowBits, accept.requestNoContextTakeover,
                                  accept.offer.requestMaxWindowBits, accept.offer.requestNoContextTakeover)
    && MakeResponseAccept(final.response, final.noContextTakeover, final.windowBits, final.memLevel) == Ok(final)
  }

  lemma ServerHonours(accept: OfferAccept, final: ResponseAccept)
    requires Agreed(accept, final)
    ensures Honours(AcceptHeader(accept), "server_no_context_takeover", "server_max_window_bits",
                    ServerToClient(ServerParams(accept), ClientParams(final)))
  {
    WhatAcceptSays(accept);
    var n := accept.offer.requestMaxWindowBits;
    assert n != 0 ==> Sets(AcceptHeader(accept), "server_max_window_bits", n);
  }

  lemma ClientHonours(accept: OfferAccept, final: ResponseAccept)
    requires Agreed(accept, final)
    ensures Honours(AcceptHeader(accept), "client_no_context_takeover", "client_max_window_bits",
                    ClientToServer(ServerParams(accept), ClientParams(final)))
  {
    WhatAcceptSays(accept);
    var n := accept.requestMaxWindowBits;
    assert n != 0 ==> Sets(AcceptHeader(accept), "client_max_window_bits", n);
  }

  /** After any handshake both directions honour the response, and the response grants what the
      offer asked for and asks for nothing that the offer does not allow. */
  lemma HandshakeHonours(offer: Offer, accept: OfferAccept, final: ResponseAccept)
    requires Negotiated(offer, accept, final)
    ensures var h, s, c := AcceptHeader(accept), ServerParams(accept), ClientParams(final);
      && Honours(h, "server_no_context_takeover", "server_max_window_bits", ServerToClient(s, c))
      && Honours(h, "client_no_context_takeover", "client_max_window_bits", ClientToServer(s, c))
    ensures var o, h := OfferHeader(offer), AcceptHeader(accept);
      && (Has(h, "server_no_context_takeover") <==> Has(o, "server_no_context_takeover"))
      && (forall n :: Sets(h, "server_max_window_bits", n) <==> Sets(o, "server_max_window_bits", n))
      && (forall n :: Sets(h, "client_max_window_bits", n) ==> Has(o, "client_max_window_bits"))
  {
    OfferTransported(offer);
    ResponseTransported(accept);
    WhatOfferSays(offer);
    WhatAcceptSays(accept);
    ServerHonours(accept, final);
    ClientHonours(accept, final);
  }

  /** Every offer that its constructor allows can be accepted with the defaults, and the response to it
      with the defaults. */
  lemma DefaultsAgree(offer: Offer) returns (accept: OfferAccept, final: ResponseAccept)
    requires offer.requestMaxWindowBits in {0, 8, 9, 10, 11, 12, 13, 14, 15}
    ensures Negotiated(offer, accept, final)
    ensures accept.offer == offer.(acceptNoContextTakeover := true)
    ensures !accept.requestNoContextTakeover && accept.requestMaxWindowBits == 0
    ensures accept.noContextTakeover == None && accept.windowBits == None && accept.memLevel == None
    ensures final.noContextTakeover == None && final.windowBits == None && final.memLevel == None
  {
    OfferTransported(offer);
    accept := OfferAccept(offer.(acceptNoContextTakeover := true), false, 0, None, None, None);
    ResponseTransported(accept);
    final := ResponseAccept(Response(0, false, offer.requestMaxWindowBits, offer.requestNoContextTakeover),
                            None, None, None);
  }

  /** The objects of the two sides: `createFromOfferAccept` on the server and
      `createFromResponseAccept` on the client. */
  ghost predicate Made(server: PerMessageDeflate, client: PerMessageDeflate, accept: OfferAccept,
                       final: ResponseAccept)
  {
    && server.isServer && server.params == ServerParams(accept)
    && !client.isServer && client.params == ClientParams(final)
  }

  /** They compress and decompress just as the two directions of the handshake say. */
  lemma ObjectsAreDirections(server: PerMessageDeflate, client: PerMessageDeflate, accept: OfferAccept,
                             final: ResponseAccept)
    requires Made(server, client, accept, final)
    ensures Direction(server.CompressBits(), server.CompressResets(),
                      client.DecompressBits(), client.DecompressResets())
         == ServerToClient(ServerParams(accept), ClientParams(final))
    ensures Direction(client.CompressBits(), client.CompressResets(),
                      server.DecompressBits(), server.DecompressResets())
         == ClientToServer(ServerParams(accept), ClientParams(final))
  {
  }

  /** Between two messages: each compressor's history is the end of the other side's decompressor's. */
  ghost predicate InStep(server: PerMessageDeflate, client: PerMessageDeflate, offer: Offer, accept: OfferAccept,
                         final: ResponseAccept)
    reads server, client
  {
    && Negotiated(offer, accept, final) && Made(server, client, accept, final)
    && server.Valid() && client.Valid()
    && Contained(ServerToClient(ServerParams(accept), ClientParams(final)),
                 Pipe(server.compressor, client.decompressor))
    && Contained(ClientToServer(ServerParams(accept), ClientParams(final)),
                 Pipe(client.compressor, server.decompressor))
  }

  method Connect(ghost offer: Offer, accept: OfferAccept, final: ResponseAccept)
    returns (server: PerMessageDeflate, client: PerMessageDeflate)
    requires Negotiated(offer, accept, final)
    ensures fresh(server) && fresh(client) && server != client && InStep(server, client, offer, accept, final)
  {
    HandshakeCovers(offer, accept, final);
    server := new PerMessageDeflate(true, ServerParams(accept));
    client := new PerMessageDeflate(false, ClientParams(final));
  }

  /** A message in either direction after the handshake, whatever tokens zlib makes of it: it arrives
      as it was sent, and the two objects are in step for the next one. */
  method Deliver(server: PerMessageDeflate, client: PerMessageDeflate, fromServer: bool, data: seq<Byte>,
                 ts: seq<Token>, ghost offer: Offer, ghost accept: OfferAccept, ghost final: ResponseAccept)
    returns (received: Maybe<seq<Byte>>)
    requires server != client && InStep(server, client, offer, accept, final)
    requires var a := if fromServer then server else client;
      var r := Expand(Started(a.compressor, a.CompressResets()), Pow2(a.CompressBits()), ts);
      r.Expanded? && r.out == data
    modifies server, client
    ensures received == Some(data) && InStep(server, client, offer, accept, final)
  {
    HandshakeCovers(offer, accept, final);
    ObjectsAreDirections(server, client, accept, final);
    if fromServer {
      received := SendMessage(server, client, data, ts);
    } else {
      received := SendMessage(client, server, data, ts);
    }
  }
}
