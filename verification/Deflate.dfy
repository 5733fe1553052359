/** permessage-deflate of compress_deflate.py (RFC 7692): what client and server agree on, and
    that every message stays decodable under it. The compressed stream is modelled as LZ77 tokens. */
module Deflate {
  import opened Bits
  import opened Wrappers

  /** A constructor or parser returns a value or raises. */
  datatype Result<+T> = Ok(value: T) | Raise

  // ----- offer, accept, response, response accept

  predicate WindowBits(n: int) { 8 <= n <= 15 }

  datatype Offer = Offer(acceptNoContextTakeover: bool, acceptMaxWindowBits: bool,
                         requestNoContextTakeover: bool, requestMaxWindowBits: int)

  function MakeOffer(acceptNoContextTakeover: bool, acceptMaxWindowBits: bool,
                     requestNoContextTakeover: bool, requestMaxWindowBits: int): (r: Result<Offer>)
    ensures r.Ok? <==> requestMaxWindowBits in {0, 8, 9, 10, 11, 12, 13, 14, 15}
  {
    if requestMaxWindowBits != 0 && !WindowBits(requestMaxWindowBits) then Raise
    else Ok(Offer(acceptNoContextTakeover, acceptMaxWindowBits, requestNoContextTakeover, requestMaxWindowBits))
  }

  function Least(a: int, b: int): int { if a <= b then a else b }

  datatype OfferAccept = OfferAccept(offer: Offer, requestNoContextTakeover: bool, requestMaxWindowBits: int,
                                     noContextTakeover: Maybe<bool>, windowBits: Maybe<int>, memLevel: Maybe<int>)

  function MakeOfferAccept(offer: Offer, requestNoContextTakeover: bool, requestMaxWindowBits: int,
                           noContextTakeover: Maybe<bool>, windowBits: Maybe<int>,
                               memLevel: Maybe<int>): (r: Result<OfferAccept>)
    ensures r.Ok? <==>
      && (requestNoContextTakeover ==> offer.acceptNoContextTakeover)
      && (requestMaxWindowBits == 0 || (offer.acceptMaxWindowBits && 8 <= requestMaxWindowBits <= 15))
      && (offer.requestNoContextTakeover ==> noContextTakeover != Some(false))
      && (forall n :: windowBits == Some(n) ==>
           8 <= n <= if offer.requestMaxWindowBits == 0 then 15 else Least(15, offer.requestMaxWindowBits))
      && (forall n :: memLevel == Some(n) ==> 1 <= n <= 9)
    ensures r.Ok? ==>
      r.value == OfferAccept(offer, requestNoContextTakeover, requestMaxWindowBits,
                             noContextTakeover, windowBits, memLevel)
  {
    if requestNoContextTakeover && !offer.acceptNoContextTakeover then Raise
    else if requestMaxWindowBits != 0 && !WindowBits(requestMaxWindowBits) then Raise
    else if requestMaxWindowBits != 0 && !offer.acceptMaxWindowBits then Raise
    else if noContextTakeover.Some? && offer.requestNoContextTakeover && !noContextTakeover.value then Raise
    else if windowBits.Some? && !WindowBits(windowBits.value) then Raise
    else if windowBits.Some? && offer.requestMaxWindowBits != 0
      && windowBits.value > offer.requestMaxWindowBits then Raise
    else if memLevel.Some? && !(1 <= memLevel.value <= 9) then Raise
    else Ok(OfferAccept(offer, requestNoContextTakeover, requestMaxWindowBits, noContextTakeover, windowBits, memLevel))
  }

  datatype Response = Response(clientMaxWindowBits: int, clientNoContextTakeover: bool,
                               serverMaxWindowBits: int, serverNoContextTakeover: bool)

  datatype ResponseAccept = ResponseAccept(response: Response, noContextTakeover: Maybe<bool>,
                                           windowBits: Maybe<int>, memLevel: Maybe<int>)

  function MakeResponseAccept(response: Response, noContextTakeover: Maybe<bool>,
                              windowBits: Maybe<int>, memLevel: Maybe<int>): (r: Result<ResponseAccept>)
    ensures r.Ok? <==>
      && (response.clientNoContextTakeover ==> noContextTakeover != Some(false))
      && (forall n :: windowBits == Some(n) ==>
           8 <= n <= if response.clientMaxWindowBits == 0 then 15 else Least(15, response.clientMaxWindowBits))
      && (forall n :: memLevel == Some(n) ==> 1 <= n <= 9)
    ensures r.Ok? ==> r.value == ResponseAccept(response, noContextTakeover, windowBits, memLevel)
  {
    if noContextTakeover.Some? && response.clientNoContextTakeover && !noContextTakeover.value then Raise
    else if windowBits.Some? && !WindowBits(windowBits.value) then Raise
    else if windowBits.Some? && response.clientMaxWindowBits != 0
      && windowBits.value > response.clientMaxWindowBits then Raise
    else if memLevel.Some? && !(1 <= memLevel.value <= 9) then Raise
    else Ok(ResponseAccept(response, noContextTakeover, windowBits, memLevel))
  }

  // ----- the header between them

  /** A parameter value of the header: none (True), a decimal number, or anything else. */
  datatype Value = True | Number(n: int) | Other

  /** One entry of the parsed header; a repeated parameter has several values. */
  datatype Param = Param(name: string, values: seq<Value>)

  const CLIENT_MAX := "client_max_window_bits"
  const CLIENT_NO := "client_no_context_takeover"
  const SERVER_MAX := "server_max_window_bits"
  const SERVER_NO := "server_no_context_takeover"

  function Flag(name: string, on: bool): seq<Param> { if on then [Param(name, [True])] else [] }

  function MaxBits(name: string, n: int): seq<Param> { if n != 0 then [Param(name, [Number(n)])] else [] }

  /** `getExtensionString` of the offer and of the accept. */
  function OfferHeader(o: Offer): seq<Param> {
    Flag(CLIENT_NO, o.acceptNoContextTakeover) + Flag(CLIENT_MAX, o.acceptMaxWindowBits)
    + Flag(SERVER_NO, o.requestNoContextTakeover) + MaxBits(SERVER_MAX, o.requestMaxWindowBits)
  }

  function AcceptHeader(a: OfferAccept): seq<Param> {
    Flag(SERVER_NO, a.offer.requestNoContextTakeover) + MaxBits(SERVER_MAX, a.offer.requestMaxWindowBits)
    + Flag(CLIENT_NO, a.requestNoContextTakeover) + MaxBits(CLIENT_MAX, a.requestMaxWindowBits)
  }

  /** What one parameter does to the offer being parsed. */
  function OfferParam(o: Offer, p: Param): Result<Offer> {
    if |p.values| != 1 then Raise
    else
      var val := p.values[0];
      if p.name == CLIENT_MAX then
        (if val == True || (val.Number? && WindowBits(val.n)) then Ok(o.(acceptMaxWindowBits := true)) else Raise)
      else if p.name == CLIENT_NO then
        (if val == True then Ok(o.(acceptNoContextTakeover := true)) else Raise)
      else if p.name == SERVER_MAX then
        (if val.Number? && WindowBits(val.n) then Ok(o.(requestMaxWindowBits := val.n)) else Raise)
      else if p.name == SERVER_NO then
        (if val == True then Ok(o.(requestNoContextTakeover := true)) else Raise)
      else Raise
  }

  function OfferParams(o: Offer, params: seq<Param>): Result<Offer>
    decreases params
  {
    if params == [] then Ok(o)
    else
      match OfferParam(o, params[0])
      case Raise => Raise
      case Ok(o') => OfferParams(o', params[1..])
  }

  function ResponseParam(r: Response, p: Param): Result<Response> {
    if |p.values| != 1 then Raise
    else
      var val := p.values[0];
      if p.name == CLIENT_MAX then
        (if val.Number? && WindowBits(val.n) then Ok(r.(clientMaxWindowBits := val.n)) else Raise)
      else if p.name == CLIENT_NO then
        (if val == True then Ok(r.(clientNoContextTakeover := true)) else Raise)
      else if p.name == SERVER_MAX then
        (if val.Number? && WindowBits(val.n) then Ok(r.(serverMaxWindowBits := val.n)) else Raise)
      else if p.name == SERVER_NO then
        (if val == True then Ok(r.(serverNoContextTakeover := true)) else Raise)
      else Raise
  }

  function ResponseParams(r: Response, params: seq<Param>): Result<Response>
    decreases params
  {
    if params == [] then Ok(r)
    else
      match ResponseParam(r, params[0])
      case Raise => Raise
      case Ok(r') => ResponseParams(r', params[1..])
  }

  /** The defaults: an offer is taken to accept client_no_context_takeover even if it does not say so. */
  const NO_OFFER := Offer(true, false, false, 0)
  const NO_RESPONSE := Response(0, false, 0, false)

  method ParseOffer(params: seq<Param>) returns (r: Result<Offer>)
    ensures r == OfferParams(NO_OFFER, params)
  {
    var acceptMaxWindowBits, acceptNoContextTakeover := false, true;
    var requestMaxWindowBits, requestNoContextTakeover := 0, false;
    for k := 0 to |params|
      invariant OfferParams(NO_OFFER, params)
             == OfferParams(Offer(acceptNoContextTakeover, acceptMaxWindowBits,
                                  requestNoContextTakeover, requestMaxWindowBits), params[k..])
    {
      var p := params[k];
      assert params[k..][1..] == params[k + 1..];
      if |p.values| != 1 { return Raise; }
      var val := p.values[0];
      if p.name == CLIENT_MAX {
        if val != True && !(val.Number? && WindowBits(val.n)) { return Raise; }
        acceptMaxWindowBits := true;
      } else if p.name == CLIENT_NO {
        if val != True { return Raise; }
        acceptNoContextTakeover := true;
      } else if p.name == SERVER_MAX {
        if !(val.Number? && WindowBits(val.n)) { return Raise; }
        requestMaxWindowBits := val.n;
      } else if p.name == SERVER_NO {
        if val != True { return Raise; }
        requestNoContextTakeover := true;
      } else {
        return Raise;
      }
    }
    return Ok(Offer(acceptNoContextTakeover, acceptMaxWindowBits, requestNoContextTakeover, requestMaxWindowBits));
  }

  method ParseResponse(params: seq<Param>) returns (r: Result<Response>)
    ensures r == ResponseParams(NO_RESPONSE, params)
  {
    var clientMaxWindowBits, clientNoContextTakeover := 0, false;
    var serverMaxWindowBits, serverNoContextTakeover := 0, false;
    for k := 0 to |params|
      invariant ResponseParams(NO_RESPONSE, params)
             == ResponseParams(Response(clientMaxWindowBits, clientNoContextTakeover,
                                        serverMaxWindowBits, serverNoContextTakeover), params[k..])
    {
      var p := params[k];
      assert params[k..][1..] == params[k + 1..];
      if |p.values| != 1 { return Raise; }
      var val := p.values[0];
      if p.name == CLIENT_MAX {
        if !(val.Number? && WindowBits(val.n)) { return Raise; }
        clientMaxWindowBits := val.n;
      } else if p.name == CLIENT_NO {
        if val != True { return Raise; }
        clientNoContextTakeover := true;
      } else if p.name == SERVER_MAX {
        if !(val.Number? && WindowBits(val.n)) { return Raise; }
        serverMaxWindowBits := val.n;
      } else if p.name == SERVER_NO {
        if val != True { return Raise; }
        serverNoContextTakeover := true;
      } else {
        return Raise;
      }
    }
    return Ok(Response(clientMaxWindowBits, clientNoContextTakeover, serverMaxWindowBits, serverNoContextTakeover));
  }

  // ----- the parameters that each side derives

  const DEFAULT_WINDOW_BITS := 15

  /** The negotiated fields of a `PerMessageDeflate`. */
  datatype Params = Params(serverNoContextTakeover: bool, clientNoContextTakeover: bool,
                           serverMaxWindowBits: int, clientMaxWindowBits: int)

  function Default(n: int): int { if n != 0 then n else DEFAULT_WINDOW_BITS }

  function Or<T>(m: Maybe<T>, other: T): T { if m.Some? then m.value else other }

  /** `createFromOfferAccept`, on the server. */
  function ServerParams(a: OfferAccept): Params {
    Params(Or(a.noContextTakeover, a.offer.requestNoContextTakeover), a.requestNoContextTakeover,
           Default(Or(a.windowBits, a.offer.requestMaxWindowBits)), Default(a.requestMaxWindowBits))
  }

  /** `createFromResponseAccept`, on the client. */
  function ClientParams(a: ResponseAccept): Params {
    Params(a.response.serverNoContextTakeover, Or(a.noContextTakeover, a.response.clientNoContextTakeover),
           Default(a.response.serverMaxWindowBits), Default(Or(a.windowBits, a.response.clientMaxWindowBits)))
  }

  /** One direction: the window and the resets of the compressor and of the decompressor. */
  datatype Direction = Direction(compressBits: int, compressResets: bool, decompressBits: int, decompressResets: bool)

  function ServerToClient(server: Params, client: Params): Direction {
    Direction(server.serverMaxWindowBits, server.serverNoContextTakeover,
              client.serverMaxWindowBits, client.serverNoContextTakeover)
  }

  function ClientToServer(server: Params, client: Params): Direction {
    Direction(client.clientMaxWindowBits, client.clientNoContextTakeover,
              server.clientMaxWindowBits, server.clientNoContextTakeover)
  }

  /** The decompressor remembers at least what the compressor may refer to. */
  predicate Covered(d: Direction) {
    WindowBits(d.compressBits) && WindowBits(d.decompressBits)
    && d.compressBits <= d.decompressBits && (d.decompressResets ==> d.compressResets)
  }

  // ----- the header transports what is needed

  lemma {:induction false} ResponseParamsConcat(r: Response, a: seq<Param>, b: seq<Param>)
    requires ResponseParams(r, a).Ok?
    ensures ResponseParams(r, a + b) == ResponseParams(ResponseParams(r, a).value, b)
    decreases a
  {
    if a == [] {
      assert a + b == b;
    } else {
      assert (a + b)[0] == a[0] && (a + b)[1..] == a[1..] + b;
      ResponseParamsConcat(ResponseParam(r, a[0]).value, a[1..], b);
    }
  }

  lemma {:induction false} OfferParamsConcat(o: Offer, a: seq<Param>, b: seq<Param>)
    requires OfferParams(o, a).Ok?
    ensures OfferParams(o, a + b) == OfferParams(OfferParams(o, a).value, b)
    decreases a
  {
    if a == [] {
      assert a + b == b;
    } else {
      assert (a + b)[0] == a[0] && (a + b)[1..] == a[1..] + b;
      OfferParamsConcat(OfferParam(o, a[0]).value, a[1..], b);
    }
  }

  lemma ResponseOne(r: Response, p: Param)
    ensures ResponseParams(r, [p]) == ResponseParam(r, p)
    ensures ResponseParams(r, []) == Ok(r)
  {
    assert [p][1..] == [];
  }

  lemma OfferOne(o: Offer, p: Param)
    ensures OfferParams(o, [p]) == OfferParam(o, p)
    ensures OfferParams(o, []) == Ok(o)
  {
    assert [p][1..] == [];
  }

  lemma Names()
    ensures CLIENT_MAX != CLIENT_NO && CLIENT_MAX != SERVER_MAX && CLIENT_MAX != SERVER_NO
    ensures CLIENT_NO != SERVER_MAX && CLIENT_NO != SERVER_NO && SERVER_MAX != SERVER_NO
  {
    assert CLIENT_MAX[0] == 'c' && CLIENT_NO[0] == 'c' && SERVER_MAX[0] == 's' && SERVER_NO[0] == 's';
    assert CLIENT_MAX[7] == 'm' && CLIENT_NO[7] == 'n' && SERVER_MAX[7] == 'm' && SERVER_NO[7] == 'n';
  }

  /** The client reads from the response what the server's accept wrote into it. */
  lemma ResponseTransported(a: OfferAccept)
    requires a.requestMaxWindowBits == 0 || WindowBits(a.requestMaxWindowBits)
    requires a.offer.requestMaxWindowBits == 0 || WindowBits(a.offer.requestMaxWindowBits)
    ensures ResponseParams(NO_RESPONSE, AcceptHeader(a))
         == Ok(Response(a.requestMaxWindowBits, a.requestNoContextTakeover,
                        a.offer.requestMaxWindowBits, a.offer.requestNoContextTakeover))
  {
    Names();
    var p1, p2 := Flag(SERVER_NO, a.offer.requestNoContextTakeover), MaxBits(SERVER_MAX, a.offer.requestMaxWindowBits);
    var p3, p4 := Flag(CLIENT_NO, a.requestNoContextTakeover), MaxBits(CLIENT_MAX, a.requestMaxWindowBits);
    var r0 := NO_RESPONSE;
    var r1 := r0.(serverNoContextTakeover := a.offer.requestNoContextTakeover);
    var r2 := r1.(serverMaxWindowBits := a.offer.requestMaxWindowBits);
    var r3 := r2.(clientNoContextTakeover := a.requestNoContextTakeover);
    ResponseOne(r0, Param(SERVER_NO, [True]));
    ResponseOne(r1, Param(SERVER_MAX, [Number(a.offer.requestMaxWindowBits)]));
    ResponseOne(r2, Param(CLIENT_NO, [True]));
    ResponseOne(r3, Param(CLIENT_MAX, [Number(a.requestMaxWindowBits)]));
    ResponseParamsConcat(r0, p1, p2);
    ResponseParamsConcat(r0, p1 + p2, p3);
    ResponseParamsConcat(r0, p1 + p2 + p3, p4);
  }

  /** The server reads the client's offer, except that it always takes it to accept
      client_no_context_takeover. */
  lemma OfferTransported(o: Offer)
    requires o.requestMaxWindowBits == 0 || WindowBits(o.requestMaxWindowBits)
    ensures OfferParams(NO_OFFER, OfferHeader(o)) == Ok(o.(acceptNoContextTakeover := true))
    ensures OfferParams(NO_OFFER, OfferHeader(o)) == Ok(o) <==> o.acceptNoContextTakeover
  {
    Names();
    var p1, p2 := Flag(CLIENT_NO, o.acceptNoContextTakeover), Flag(CLIENT_MAX, o.acceptMaxWindowBits);
    var p3, p4 := Flag(SERVER_NO, o.requestNoContextTakeover), MaxBits(SERVER_MAX, o.requestMaxWindowBits);
    var o0 := NO_OFFER;
    var o2 := o0.(acceptMaxWindowBits := o.acceptMaxWindowBits);
    var o3 := o2.(requestNoContextTakeover := o.requestNoContextTakeover);
    OfferOne(o0, Param(CLIENT_NO, [True]));
    OfferOne(o0, Param(CLIENT_MAX, [True]));
    OfferOne(o2, Param(SERVER_NO, [True]));
    OfferOne(o3, Param(SERVER_MAX, [Number(o.requestMaxWindowBits)]));
    OfferParamsConcat(o0, p1, p2);
    OfferParamsConcat(o0, p1 + p2, p3);
    OfferParamsConcat(o0, p1 + p2 + p3, p4);
  }

  /** The handshake: client offer, server accept, client accept of the response, each as its
      constructor allows it. */
  ghost predicate Negotiated(offer: Offer, accept: OfferAccept, final: ResponseAccept) {
    && MakeOffer(offer.acceptNoContextTakeover, offer.acceptMaxWindowBits,
                 offer.requestNoContextTakeover, offer.requestMaxWindowBits) == Ok(offer)
    && OfferParams(NO_OFFER, OfferHeader(offer)) == Ok(accept.offer)
    && MakeOfferAccept(accept.offer, accept.requestNoContextTakeover, accept.requestMaxWindowBits,
                       accept.noContextTakeover, accept.windowBits, accept.memLevel) == Ok(accept)
    && ResponseParams(NO_RESPONSE, AcceptHeader(accept)) == Ok(final.response)
    && MakeResponseAccept(final.response, final.noContextTakeover, final.windowBits, final.memLevel) == Ok(final)
  }

  /** Whatever the two sides choose within what the constructors allow, in both directions the
      decompressor covers the compressor. */
  lemma HandshakeCovers(offer: Offer, accept: OfferAccept, final: ResponseAccept)
    requires Negotiated(offer, accept, final)
    ensures Covered(ServerToClient(ServerParams(accept), ClientParams(final)))
    ensures Covered(ClientToServer(ServerParams(accept), ClientParams(final)))
  {
    OfferTransported(offer);
    ResponseTransported(accept);
  }

  // ----- LZ77 with a bounded history

  datatype Token = Literal(b: Byte) | Copy(distance: nat, length: nat)

  /** One byte enters the history, which keeps the last `size` bytes. */
  function Push(h: seq<Byte>, b: Byte, size: nat): (r: seq<Byte>)
    requires size > 0 && |h| <= size
    ensures |r| == if |h| == size then size else |h| + 1
  {
    if |h| == size then h[1..] + [b] else h + [b]
  }

  /** The bytes that come out, and the history afterwards. */
  datatype Expanded = Expanded(out: seq<Byte>, history: seq<Byte>) | Corrupt

  function ExpandCopy(h: seq<Byte>, size: nat, distance: nat, length: nat): (r: Expanded)
    requires size > 0 && |h| <= size && 0 < distance <= |h|
    ensures r.Expanded? && |r.history| <= size
    decreases length
  {
    if length == 0 then Expanded([], h)
    else
      var b := Back(h, distance);
      var r := ExpandCopy(Push(h, b, size), size, distance, length - 1);
      Expanded([b] + r.out, r.history)
  }

  /** A copy from farther back than the history reaches is corrupt data. */
  function ExpandToken(h: seq<Byte>, size: nat, t: Token): (r: Expanded)
    requires size > 0 && |h| <= size
    ensures r.Expanded? ==> |r.history| <= size
  {
    match t
    case Literal(b) => Expanded([b], Push(h, b, size))
    case Copy(distance, length) =>
      if 0 < distance <= |h| then ExpandCopy(h, size, distance, length) else Corrupt
  }

  function Expand(h: seq<Byte>, size: nat, ts: seq<Token>): (r: Expanded)
    requires size > 0 && |h| <= size
    ensures r.Expanded? ==> |r.history| <= size
    decreases ts
  {
    if ts == [] then Expanded([], h)
    else
      match ExpandToken(h, size, ts[0])
      case Corrupt => Corrupt
      case Expanded(out, h') =>
        match Expand(h', size, ts[1..])
        case Corrupt => Corrupt
        case Expanded(more, h'') => Expanded(out + more, h'')
  }

  /** The k-th byte from the end. */
  function Back(h: seq<Byte>, k: nat): Byte
    requires 0 < k <= |h|
  {
    h[|h| - k]
  }

  predicate Suffix(a: seq<Byte>, b: seq<Byte>) {
    |a| <= |b| && forall k: nat :: 0 < k <= |a| ==> Back(a, k) == Back(b, k)
  }

  lemma SuffixMeaning(a: seq<Byte>, b: seq<Byte>)
    ensures Suffix(a, b) <==> |a| <= |b| && a == b[|b| - |a|..]
  {
    if |a| <= |b| {
      var t := b[|b| - |a|..];
      assert forall k: nat :: 0 < k <= |a| ==> Back(b, k) == t[|a| - k];
      if Suffix(a, b) {
        forall i | 0 <= i < |a| ensures a[i] == t[i] {
          assert Back(a, |a| - i) == Back(b, |a| - i);
        }
      }
    }
  }

  // ----- what a copy is and what is remembered

  /** The last n bytes, or all if there are fewer. */
  function Last(s: seq<Byte>, n: nat): seq<Byte> { if |s| <= n then s else s[|s| - n..] }

  lemma LastOfLast(h: seq<Byte>, size: nat, x: seq<Byte>, y: seq<Byte>)
    requires size > 0
    ensures Last(Last(h + x, size) + y, size) == Last(h + (x + y), size)
  {
    assert h + (x + y) == h + x + y;
    if |h + x| > size { assert Last(h + x, size) + y == (h + x + y)[|h + x| - size..]; }
  }

  lemma PushIsLast(h: seq<Byte>, b: Byte, size: nat)
    requires size > 0 && |h| <= size
    ensures Push(h, b, size) == Last(h + [b], size)
  {
  }

  /** Each byte is the one `distance` places before it, in what was there or in `out` itself. */
  predicate Repeats(h: seq<Byte>, out: seq<Byte>, distance: nat)
    requires 0 < distance <= |h|
  {
    forall i :: 0 <= i < |out| ==> out[i] == (h + out)[|h| + i - distance]
  }

  lemma RepeatsMore(h: seq<Byte>, b: Byte, g: seq<Byte>, more: seq<Byte>, distance: nat)
    requires 0 < distance <= |h| && b == h[|h| - distance]
    requires distance <= |g| <= |h| + 1 && g == (h + [b])[|h| + 1 - |g|..] && Repeats(g, more, distance)
    ensures Repeats(h, [b] + more, distance)
  {
    var out, front := [b] + more, (h + [b])[..|h| + 1 - |g|];
    assert h + out == front + (g + more) by {
      assert h + out == h + [b] + more && h + [b] == front + g;
    }
    forall i | 0 <= i < |out| ensures out[i] == (h + out)[|h| + i - distance] {
      if i > 0 { assert more[i - 1] == (g + more)[|g| + (i - 1) - distance]; }
    }
  }

  /** One byte in front of the rest of a copy. */
  lemma CopyOnce(h: seq<Byte>, size: nat, b: Byte, distance: nat, r: Expanded)
    requires size > 0 && |h| <= size && 0 < distance <= |h| && b == Back(h, distance) && r.Expanded?
    requires var g := Push(h, b, size); Repeats(g, r.out, distance) && r.history == Last(g + r.out, size)
    ensures Repeats(h, [b] + r.out, distance) && r.history == Last(h + ([b] + r.out), size)
  {
    PushIsLast(h, b, size);
    LastOfLast(h, size, [b], r.out);
    RepeatsMore(h, b, Push(h, b, size), r.out, distance);
  }

  /** A copy repeats the bytes that lie `distance` bytes back, those that it has just written
      included, and the history keeps the end of all that was written. */
  lemma {:induction false} CopyMeaning(h: seq<Byte>, size: nat, distance: nat, length: nat)
    requires size > 0 && |h| <= size && 0 < distance <= |h|
    ensures var r := ExpandCopy(h, size, distance, length);
      |r.out| == length && Repeats(h, r.out, distance) && r.history == Last(h + r.out, size)
    decreases length
  {
    if length > 0 {
      var b := Back(h, distance);
      var g := Push(h, b, size);
      CopyStep(h, size, distance, length);
      CopyMeaning(g, size, distance, length - 1);
      CopyOnce(h, size, b, distance, ExpandCopy(g, size, distance, length - 1));
    } else {
      assert h + [] == h;
    }
  }

  /** The history after any tokens is the end of what was there and what came out. */
  lemma {:induction false} HistoryIsEnd(h: seq<Byte>, size: nat, ts: seq<Token>)
    requires size > 0 && |h| <= size && Expand(h, size, ts).Expanded?
    ensures Expand(h, size, ts).history == Last(h + Expand(h, size, ts).out, size)
    decreases ts
  {
    if ts == [] {
      assert h + [] == h;
    } else {
      var q := ExpandToken(h, size, ts[0]);
      match ts[0] {
        case Literal(b) => PushIsLast(h, b, size);
        case Copy(distance, length) => CopyMeaning(h, size, distance, length);
      }
      HistoryIsEnd(q.history, size, ts[1..]);
      LastOfLast(h, size, q.out, Expand(q.history, size, ts[1..]).out);
    }
  }

  lemma PushBack(h: seq<Byte>, b: Byte, size: nat, k: nat)
    requires 0 < size && |h| <= size && 0 < k <= |Push(h, b, size)|
    ensures Back(Push(h, b, size), k) == if k == 1 then b else Back(h, k - 1)
  {
  }

  lemma PushSuffix(c: seq<Byte>, d: seq<Byte>, b: Byte, m: nat, n: nat)
    requires 0 < m <= n && |c| <= m && |d| <= n && Suffix(c, d)
    ensures Suffix(Push(c, b, m), Push(d, b, n))
  {
    forall k: nat | 0 < k <= |Push(c, b, m)| ensures Back(Push(c, b, m), k) == Back(Push(d, b, n), k) {
      PushBack(c, b, m, k);
      PushBack(d, b, n, k);
    }
  }

  lemma CopyStep(h: seq<Byte>, size: nat, distance: nat, length: nat)
    requires size > 0 && |h| <= size && 0 < distance <= |h| && length > 0
    ensures var b := Back(h, distance); var r := ExpandCopy(Push(h, b, size), size, distance, length - 1);
      ExpandCopy(h, size, distance, length) == Expanded([b] + r.out, r.history)
  {
  }

  lemma {:induction false} CopySuffix(c: seq<Byte>, d: seq<Byte>, m: nat, n: nat, distance: nat, length: nat)
    requires 0 < m <= n && |c| <= m && |d| <= n && Suffix(c, d) && 0 < distance <= |c|
    ensures ExpandCopy(c, m, distance, length).out == ExpandCopy(d, n, distance, length).out
    ensures Suffix(ExpandCopy(c, m, distance, length).history, ExpandCopy(d, n, distance, length).history)
    decreases length
  {
    if length > 0 {
      var b := Back(c, distance);
      PushSuffix(c, d, b, m, n);
      CopyStep(c, m, distance, length);
      CopyStep(d, n, distance, length);
      CopySuffix(Push(c, b, m), Push(d, b, n), m, n, distance, length - 1);
    }
  }

  /** Tokens that are valid over a history give the same bytes over a longer one. */
  lemma {:induction false} ExpandSuffix(c: seq<Byte>, d: seq<Byte>, m: nat, n: nat, ts: seq<Token>)
    requires 0 < m <= n && |c| <= m && |d| <= n && Suffix(c, d)
    requires Expand(c, m, ts).Expanded?
    ensures Expand(d, n, ts).Expanded? && Expand(d, n, ts).out == Expand(c, m, ts).out
    ensures Suffix(Expand(c, m, ts).history, Expand(d, n, ts).history)
    decreases ts
  {
    if ts != [] {
      match ts[0] {
        case Literal(b) => PushSuffix(c, d, b, m, n);
        case Copy(distance, length) => CopySuffix(c, d, m, n, distance, length);
      }
      ExpandSuffix(ExpandToken(c, m, ts[0]).history, ExpandToken(d, n, ts[0]).history, m, n, ts[1..]);
    }
  }

  // ----- whole runs

  /** Both ends of one direction: `None` before the first message. */
  datatype Pipe = Pipe(compressor: Maybe<seq<Byte>>, decompressor: Maybe<seq<Byte>>)

  predicate Sized(d: Direction, p: Pipe)
    requires WindowBits(d.compressBits) && WindowBits(d.decompressBits)
  {
    (p.compressor.Some? ==> |p.compressor.value| <= Pow2(d.compressBits)) &&
    (p.decompressor.Some? ==> |p.decompressor.value| <= Pow2(d.decompressBits))
  }

  /** `start...Message`: a new object for the first message and whenever context is not taken over. */
  function Started(state: Maybe<seq<Byte>>, resets: bool): seq<Byte> {
    if state.None? || resets then [] else state.value
  }

  /** What the compressor makes of a message is one of the token sequences that are valid over its
      history and expand to the message. */
  predicate CanEmit(d: Direction, p: Pipe, ts: seq<Token>)
    requires WindowBits(d.compressBits) && WindowBits(d.decompressBits) && Sized(d, p)
  {
    Expand(Started(p.compressor, d.compressResets), Pow2(d.compressBits), ts).Expanded?
  }

  /** The next message passes. `None` if the decompressor finds the data corrupt. */
  function Pass(d: Direction, p: Pipe, ts: seq<Token>): (r: Maybe<Pipe>)
    requires WindowBits(d.compressBits) && WindowBits(d.decompressBits) && Sized(d, p) && CanEmit(d, p, ts)
    ensures r.Some? ==> Sized(d, r.value)
  {
    var c := Expand(Started(p.compressor, d.compressResets), Pow2(d.compressBits), ts);
    var e := Expand(Started(p.decompressor, d.decompressResets), Pow2(d.decompressBits), ts);
    if e == Corrupt || e.out != c.out then None else Some(Pipe(Some(c.history), Some(e.history)))
  }

  /** Every message of the run decodes to itself, as far as the compressor can emit it at all. */
  predicate AllDecode(d: Direction, p: Pipe, run: seq<seq<Token>>)
    requires WindowBits(d.compressBits) && WindowBits(d.decompressBits) && Sized(d, p)
    decreases run
  {
    run == [] ||
    (CanEmit(d, p, run[0]) ==>
     Pass(d, p, run[0]).Some? && AllDecode(d, Pass(d, p, run[0]).value, run[1..]))
  }

  const FIRST := Pipe(None, None)

  /** Before each message the compressor's history is a suffix of the decompressor's. */
  predicate Contained(d: Direction, p: Pipe) {
    (p.decompressor.None? ==> p.compressor.None?) && (p.compressor.None? ==> p.decompressor.None?) &&
    (p.compressor.Some? && p.decompressor.Some? ==> Suffix(p.compressor.value, p.decompressor.value))
  }

  lemma {:induction false} Pow2Monotone(a: nat, b: nat)
    requires a <= b
    ensures Pow2(a) <= Pow2(b)
    decreases b
  {
    if a < b { Pow2Monotone(a, b - 1); }
  }

  lemma PassContained(d: Direction, p: Pipe, ts: seq<Token>)
    requires Covered(d) && Sized(d, p) && Contained(d, p) && CanEmit(d, p, ts)
    ensures Pass(d, p, ts).Some? && Contained(d, Pass(d, p, ts).value)
  {
    var c, e := Started(p.compressor, d.compressResets), Started(p.decompressor, d.decompressResets);
    var m, n := Pow2(d.compressBits), Pow2(d.decompressBits);
    assert Suffix(c, e);
    assert m <= n by { Pow2Monotone(d.compressBits, d.decompressBits); }
    ExpandSuffix(c, e, m, n, ts);
  }

  lemma {:induction false} ContainedDecodes(d: Direction, p: Pipe, run: seq<seq<Token>>)
    requires Covered(d) && Sized(d, p) && Contained(d, p)
    ensures AllDecode(d, p, run)
    decreases run
  {
    if run != [] && CanEmit(d, p, run[0]) {
      PassContained(d, p, run[0]);
      ContainedDecodes(d, Pass(d, p, run[0]).value, run[1..]);
    }
  }

  // ----- and the condition is exact

  function Literals(n: nat): seq<Token> {
    if n == 0 then [] else Literals(n - 1) + [Literal(0)]
  }

  function Zeros(n: nat): (s: seq<Byte>)
    ensures |s| == n
  {
    if n == 0 then [] else Zeros(n - 1) + [0]
  }

  /** What comes out of a token, followed by what comes out of the rest. */
  function Joined(r: Expanded, s: Expanded): Expanded
    requires r.Expanded?
  {
    if s == Corrupt then Corrupt else Expanded(r.out + s.out, s.history)
  }

  lemma ExpandCons(h: seq<Byte>, size: nat, ts: seq<Token>)
    requires size > 0 && |h| <= size && ts != [] && ExpandToken(h, size, ts[0]).Expanded?
    ensures var r := ExpandToken(h, size, ts[0]); Expand(h, size, ts) == Joined(r, Expand(r.history, size, ts[1..]))
  {
  }

  lemma JoinedTwice(q: Expanded, r: Expanded, s: Expanded)
    requires q.Expanded? && r.Expanded?
    ensures Joined(q, Joined(r, s)) == Joined(Joined(q, r), s)
  {
    if s.Expanded? { assert q.out + (r.out + s.out) == q.out + r.out + s.out; }
  }

  lemma {:induction false} ExpandConcat(h: seq<Byte>, size: nat, a: seq<Token>, b: seq<Token>)
    requires size > 0 && |h| <= size && Expand(h, size, a).Expanded?
    ensures Expand(h, size, a + b) == Joined(Expand(h, size, a), Expand(Expand(h, size, a).history, size, b))
    decreases a
  {
    if a == [] {
      assert a + b == b;
      var s := Expand(h, size, b);
      if s.Expanded? { assert [] + s.out == s.out; }
    } else {
      assert (a + b)[0] == a[0] && (a + b)[1..] == a[1..] + b;
      var q := ExpandToken(h, size, a[0]);
      ExpandConcat(q.history, size, a[1..], b);
      ExpandCons(h, size, a);
      ExpandCons(h, size, a + b);
      var r := Expand(q.history, size, a[1..]);
      JoinedTwice(q, r, Expand(r.history, size, b));
    }
  }

  lemma {:induction false} ExpandLiterals(size: nat, n: nat)
    requires size > 0
    ensures Expand([], size, Literals(n)).Expanded?
    ensures Expand([], size, Literals(n)).out == Zeros(n)
    ensures |Expand([], size, Literals(n)).history| == if n < size then n else size
  {
    if n > 0 {
      ExpandLiterals(size, n - 1);
      ExpandConcat([], size, Literals(n - 1), [Literal(0)]);
      assert [Literal(0)][1..] == [];
    }
  }

  lemma OneCopy(h: seq<Byte>, size: nat, distance: nat)
    requires size > 0 && |h| <= size && distance > 0
    ensures Expand(h, size, [Copy(distance, 1)]).Expanded? <==> distance <= |h|
  {
    assert [Copy(distance, 1)][1..] == [];
  }

  lemma Forgotten(m: nat, n: nat)
    requires 0 < n < m
    ensures Expand([], m, Literals(n + 1) + [Copy(n + 1, 1)]).Expanded?
    ensures Expand([], n, Literals(n + 1) + [Copy(n + 1, 1)]) == Corrupt
  {
    var lits, copy := Literals(n + 1), [Copy(n + 1, 1)];
    ExpandLiterals(m, n + 1);
    ExpandLiterals(n, n + 1);
    ExpandConcat([], m, lits, copy);
    ExpandConcat([], n, lits, copy);
    OneCopy(Expand([], m, lits).history, m, n + 1);
    OneCopy(Expand([], n, lits).history, n, n + 1);
  }

  /** A compressor with the larger window can refer to a byte that the decompressor has forgotten. */
  lemma LargerWindowFails(d: Direction)
    requires WindowBits(d.compressBits) && WindowBits(d.decompressBits) && d.compressBits > d.decompressBits
    ensures !AllDecode(d, FIRST, [Literals(Pow2(d.decompressBits) + 1) + [Copy(Pow2(d.decompressBits) + 1, 1)]])
  {
    var m, n := Pow2(d.compressBits), Pow2(d.decompressBits);
    assert m >= 2 * n by { Pow2Monotone(d.decompressBits + 1, d.compressBits); }
    Forgotten(m, n);
    assert CanEmit(d, FIRST, Literals(n + 1) + [Copy(n + 1, 1)]);
  }

  /** A decompressor that forgets between messages fails a compressor that does not. */
  lemma LostContextFails(d: Direction)
    requires WindowBits(d.compressBits) && WindowBits(d.decompressBits)
    requires d.decompressResets && !d.compressResets
    ensures !AllDecode(d, FIRST, [Literals(1), [Copy(1, 1)]])
  {
    var m, n := Pow2(d.compressBits), Pow2(d.decompressBits);
    Pow2Monotone(1, d.compressBits);
    Pow2Monotone(1, d.decompressBits);
    ExpandLiterals(m, 1);
    ExpandLiterals(n, 1);
    OneCopy(Expand([], m, Literals(1)).history, m, 1);
    OneCopy([], n, 1);
    var run := [Literals(1), [Copy(1, 1)]];
    assert run[1..] == [[Copy(1, 1)]];
    assert CanEmit(d, FIRST, run[0]);
  }

  /** Every message of every run decodes to itself if and only if the decompressor's window is no
      smaller and it resets only where the compressor does. */
  lemma DecodableIffCovered(d: Direction)
    requires WindowBits(d.compressBits) && WindowBits(d.decompressBits)
    ensures (forall run: seq<seq<Token>> :: AllDecode(d, FIRST, run)) <==> Covered(d)
  {
    if Covered(d) {
      forall run: seq<seq<Token>> ensures AllDecode(d, FIRST, run) {
        ContainedDecodes(d, FIRST, run);
      }
    } else if d.compressBits > d.decompressBits {
      LargerWindowFails(d);
    } else {
      LostContextFails(d);
    }
  }

  /** After any handshake, every message of any sequence decodes to itself, in both directions. */
  lemma HandshakeDecodes(offer: Offer, accept: OfferAccept, final: ResponseAccept, run: seq<seq<Token>>)
    requires Negotiated(offer, accept, final)
    ensures var up := ClientToServer(ServerParams(accept), ClientParams(final));
      WindowBits(up.compressBits) && WindowBits(up.decompressBits) && AllDecode(up, FIRST, run)
    ensures var down := ServerToClient(ServerParams(accept), ClientParams(final));
      WindowBits(down.compressBits) && WindowBits(down.decompressBits) && AllDecode(down, FIRST, run)
  {
    HandshakeCovers(offer, accept, final);
    ContainedDecodes(ClientToServer(ServerParams(accept), ClientParams(final)), FIRST, run);
    ContainedDecodes(ServerToClient(ServerParams(accept), ClientParams(final)), FIRST, run);
  }

  // ----- the extension object

  class PerMessageDeflate {
    const isServer: bool
    const params: Params
    var compressor: Maybe<seq<Byte>>
    var decompressor: Maybe<seq<Byte>>

    constructor (isServer: bool, params: Params)
      requires WindowBits(params.serverMaxWindowBits) && WindowBits(params.clientMaxWindowBits)
      ensures this.isServer == isServer && this.params == params
      ensures compressor == None && decompressor == None && Valid()
    {
      this.isServer, this.params := isServer, params;
      compressor, decompressor := None, None;
    }

    function CompressBits(): int { if isServer then params.serverMaxWindowBits else params.clientMaxWindowBits }

    function DecompressBits(): int { if isServer then params.clientMaxWindowBits else params.serverMaxWindowBits }

    function CompressResets(): bool {
      if isServer then params.serverNoContextTakeover else params.clientNoContextTakeover
    }

    function DecompressResets(): bool {
      if isServer then params.clientNoContextTakeover else params.serverNoContextTakeover
    }

    ghost predicate Valid() reads this {
      && WindowBits(params.serverMaxWindowBits) && WindowBits(params.clientMaxWindowBits)
      && (compressor.Some? ==> |compressor.value| <= Pow2(CompressBits()))
      && (decompressor.Some? ==> |decompressor.value| <= Pow2(DecompressBits()))
    }

    method StartCompressMessage()
      requires Valid()
      modifies `compressor
      ensures Valid() && compressor == Some(Started(old(compressor), CompressResets()))
      ensures isServer && params.serverNoContextTakeover ==> compressor == Some([])
      ensures !isServer && params.clientNoContextTakeover ==> compressor == Some([])
      ensures isServer && !params.serverNoContextTakeover && old(compressor).Some? ==> compressor == old(compressor)
      ensures !isServer && !params.clientNoContextTakeover && old(compressor).Some? ==> compressor == old(compressor)
      ensures old(compressor).None? ==> compressor == Some([])
    {
      if isServer {
        if compressor.None? || params.serverNoContextTakeover {
          compressor := Some([]);
        }
      } else {
        if compressor.None? || params.clientNoContextTakeover {
          compressor := Some([]);
        }
      }
    }

    /** `ts` is what zlib makes of the message `data`. */
    method CompressMessageData(data: seq<Byte>, ts: seq<Token>)
      requires Valid() && compressor.Some?
      requires var r := Expand(compressor.value, Pow2(CompressBits()), ts); r.Expanded? && r.out == data
      modifies `compressor
      ensures Valid() && compressor == Some(Expand(old(compressor.value), Pow2(CompressBits()), ts).history)
    {
      compressor := Some(Expand(compressor.value, Pow2(CompressBits()), ts).history);
    }

    method StartDecompressMessage()
      requires Valid()
      modifies `decompressor
      ensures Valid() && decompressor == Some(Started(old(decompressor), DecompressResets()))
      ensures isServer && params.clientNoContextTakeover ==> decompressor == Some([])
      ensures !isServer && params.serverNoContextTakeover ==> decompressor == Some([])
      ensures isServer && !params.clientNoContextTakeover && old(decompressor).Some? ==>
        decompressor == old(decompressor)
      ensures !isServer && !params.serverNoContextTakeover && old(decompressor).Some? ==>
        decompressor == old(decompressor)
      ensures old(decompressor).None? ==> decompressor == Some([])
    {
      if isServer {
        if decompressor.None? || params.clientNoContextTakeover {
          decompressor := Some([]);
        }
      } else {
        if decompressor.None? || params.serverNoContextTakeover {
          decompressor := Some([]);
        }
      }
    }

    /** None when zlib finds the data corrupt. Whatever compressor made the tokens, with a history that
        ends this one's and no larger window: its message comes out, and its new history ends the new
        one here. */
    method DecompressMessageData(ts: seq<Token>) returns (data: Maybe<seq<Byte>>)
      requires Valid() && decompressor.Some?
      modifies `decompressor
      ensures Valid() && decompressor.Some?
      ensures forall c: seq<Byte>, m: nat ::
        0 < m <= Pow2(DecompressBits()) && |c| <= m
        && Suffix(c, old(decompressor.value)) && Expand(c, m, ts).Expanded? ==>
        data == Some(Expand(c, m, ts).out) && Suffix(Expand(c, m, ts).history, decompressor.value)
      ensures match Expand(old(decompressor.value), Pow2(DecompressBits()), ts)
        case Corrupt => data == None && decompressor == old(decompressor)
        case Expanded(out, h) => data == Some(out) && decompressor == Some(h)
    {
      ghost var d, n := decompressor.value, Pow2(DecompressBits());
      forall c: seq<Byte>, m: nat | 0 < m <= n && |c| <= m && Suffix(c, d) && Expand(c, m, ts).Expanded?
        ensures Expand(d, n, ts).Expanded? && Expand(d, n, ts).out == Expand(c, m, ts).out
        ensures Suffix(Expand(c, m, ts).history, Expand(d, n, ts).history)
      {
        ExpandSuffix(c, d, m, n, ts);
      }
      match Expand(decompressor.value, Pow2(DecompressBits()), ts) {
        case Corrupt => return None;
        case Expanded(out, h) =>
          decompressor := Some(h);
          return Some(out);
      }
    }

    /** One whole message. */
    method CompressMessage(data: seq<Byte>, ts: seq<Token>)
      requires Valid()
      requires var r := Expand(Started(compressor, CompressResets()), Pow2(CompressBits()), ts);
        r.Expanded? && r.out == data
      modifies `compressor
      ensures Valid()
      ensures compressor == Some(Expand(Started(old(compressor), CompressResets()), Pow2(CompressBits()), ts).history)
    {
      StartCompressMessage();
      CompressMessageData(data, ts);
    }

    method DecompressMessage(ts: seq<Token>) returns (data: Maybe<seq<Byte>>)
      requires Valid()
      modifies `decompressor
      ensures Valid() && decompressor.Some?
      ensures var r := Expand(Started(old(decompressor), DecompressResets()), Pow2(DecompressBits()), ts);
        r.Expanded? ==> data == Some(r.out) && decompressor == Some(r.history)
    {
      StartDecompressMessage();
      data := DecompressMessageData(ts);
    }
  }

  /** One message from `a` to `b`, as the two objects handle it: it arrives as it was sent, and the
      histories are contained again afterwards. */
  method SendMessage(a: PerMessageDeflate, b: PerMessageDeflate, data: seq<Byte>, ts: seq<Token>)
    returns (received: Maybe<seq<Byte>>)
    requires a != b && a.Valid() && b.Valid() && a.isServer != b.isServer
    requires Covered(Direction(a.CompressBits(), a.CompressResets(), b.DecompressBits(), b.DecompressResets()))
    requires Contained(Direction(a.CompressBits(), a.CompressResets(), b.DecompressBits(), b.DecompressResets()),
                       Pipe(a.compressor, b.decompressor))
    requires var r := Expand(Started(a.compressor, a.CompressResets()), Pow2(a.CompressBits()), ts);
      r.Expanded? && r.out == data
    modifies a`compressor, b`decompressor
    ensures received == Some(data) && a.Valid() && b.Valid() && a.compressor.Some? && b.decompressor.Some?
    ensures var c, e := a.compressor.value, b.decompressor.value; |c| <= |e| && c == e[|e| - |c|..]
    ensures Pass(Direction(a.CompressBits(), a.CompressResets(), b.DecompressBits(), b.DecompressResets()),
                 old(Pipe(a.compressor, b.decompressor)), ts) == Some(Pipe(a.compressor, b.decompressor))
    ensures Contained(Direction(a.CompressBits(), a.CompressResets(), b.DecompressBits(), b.DecompressResets()),
                      Pipe(a.compressor, b.decompressor))
  {
    ghost var d := Direction(a.CompressBits(), a.CompressResets(), b.DecompressBits(), b.DecompressResets());
    Arrives(d, a.compressor, b.decompressor, ts);
    a.CompressMessage(data, ts);
    received := b.DecompressMessage(ts);
  }

  /** One message from one history to the other. */
  lemma Arrives(d: Direction, c: Maybe<seq<Byte>>, e: Maybe<seq<Byte>>, ts: seq<Token>)
    requires Covered(d) && Sized(d, Pipe(c, e)) && Contained(d, Pipe(c, e)) && CanEmit(d, Pipe(c, e), ts)
    ensures var x := Expand(Started(c, d.compressResets), Pow2(d.compressBits), ts);
      var y := Expand(Started(e, d.decompressResets), Pow2(d.decompressBits), ts);
      && y.Expanded? && y.out == x.out && Contained(d, Pipe(Some(x.history), Some(y.history)))
      && Pass(d, Pipe(c, e), ts) == Some(Pipe(Some(x.history), Some(y.history)))
      && |x.history| <= |y.history| && x.history == y.history[|y.history| - |x.history|..]
  {
    PassContained(d, Pipe(c, e), ts);
    var p := Pass(d, Pipe(c, e), ts).value;
    SuffixMeaning(p.compressor.value, p.decompressor.value);
  }
}
