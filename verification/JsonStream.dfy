/** Peeling values off a growing buffer, as `TCPJSONServer.recv` of tcp.py does, and what the
    cuts between the received chunks change. */
module JsonStream {
  import opened Sequences
  import JsonSyntax
  import opened JsonText
  import opened JsonExtension
  import opened JsonSpelling
  import opened JsonAccepted
  import opened JsonWriter
  import opened JsonRoundTrip

  /** The values taken so far and the text kept for the next chunk. */
  datatype Drained = Drained(values: seq<Json>, left: string)

  function Drain(acc: seq<Json>, data: string): Drained
    decreases |data|
  {
    if data == "" then Drained(acc, data)
    else
      match Read(data)
      case Err(_) => Drained(acc, data)
      case Ok(value, rest) => Drain(acc + [value], LStrip(rest))
  }

  /** One more chunk arrives. */
  function Receive(d: Drained, chunk: string): Drained {
    Drain(d.values, d.left + chunk)
  }

  function ReceiveAll(d: Drained, chunks: seq<string>): Drained
    decreases chunks
  {
    if chunks == [] then d else ReceiveAll(Receive(d, chunks[0]), chunks[1..])
  }

  // ----- what happens when the buffer is cut

  /** The same values, and the same kept text up to white space in front of it. */
  predicate SameOutcome(x: Drained, y: Drained) {
    x.values == y.values && LStrip(x.left) == LStrip(y.left)
  }

  lemma {:induction false} DrainAfter(acc: seq<Json>, data: string)
    ensures Drain(acc, data) == Drained(acc + Drain([], data).values, Drain([], data).left)
    decreases |data|
  {
    if data == "" || Read(data).Err? {
      assert acc + [] == acc;
    } else {
      var Ok(value, rest) := Read(data);
      DrainAfter(acc + [value], LStrip(rest));
      DrainAfter([] + [value], LStrip(rest));
      var more := Drain([], LStrip(rest)).values;
      assert acc + [value] + more == acc + ([] + [value] + more);
    }
  }

  lemma {:induction false} ReadLStrip(s: string)
    ensures Read(LStrip(s)) == Read(s)
  {
    EatLStrip(s);
  }

  lemma {:induction false} EatLStrip(s: string)
    ensures EatWhitespace(LStrip(s)) == EatWhitespace(s)
  {
    if s != "" && IsSpace(s[0]) { EatLStrip(s[1..]); }
  }

  lemma {:induction false} LStripConcat(s: string, t: string)
    ensures LStrip(s + t) == if LStrip(s) == "" then LStrip(t) else LStrip(s) + t
  {
    if s == "" {
      assert s + t == t;
    } else {
      assert (s + t)[0] == s[0] && (s + t)[1..] == s[1..] + t;
      if IsSpace(s[0]) { LStripConcat(s[1..], t); }
    }
  }

  lemma {:induction false} LStripTwice(s: string)
    ensures LStrip(LStrip(s)) == LStrip(s)
  {
  }

  /** White space in front of the buffer changes nothing that matters. */
  lemma DrainLStrip(acc: seq<Json>, data: string)
    ensures SameOutcome(Drain(acc, data), Drain(acc, LStrip(data)))
  {
    ReadLStrip(data);
    LStripTwice(data);
    if LStrip(data) == "" {
      assert Read("").Err?;
    }
  }

  lemma DrainSame(x: Drained, y: Drained, chunk: string)
    requires SameOutcome(x, y)
    ensures SameOutcome(Receive(x, chunk), Receive(y, chunk))
  {
    LStripConcat(x.left, chunk);
    LStripConcat(y.left, chunk);
    DrainLStrip(x.values, x.left + chunk);
    DrainLStrip(y.values, y.left + chunk);
  }

  lemma {:induction false} ReceiveAllSame(x: Drained, y: Drained, chunks: seq<string>)
    requires SameOutcome(x, y)
    ensures SameOutcome(ReceiveAll(x, chunks), ReceiveAll(y, chunks))
    decreases chunks
  {
    if chunks != [] {
      DrainSame(x, y, chunks[0]);
      ReceiveAllSame(Receive(x, chunks[0]), Receive(y, chunks[0]), chunks[1..]);
    }
  }

  /** The last value taken from the buffer is a number whose token runs up to its very end. */
  predicate EndsInNumber(data: string)
    decreases |data|
  {
    data != "" && Read(data).Ok? &&
    var Ok(value, rest) := Read(data);
    if rest == "" then value.IsNumber() else EndsInNumber(LStrip(rest))
  }

  /** The cut between `data` and `chunk` goes through a top-level number. */
  predicate CutsNumber(data: string, chunk: string) {
    EndsInNumber(data) && chunk != "" && IsNumberChar(chunk[0])
  }

  lemma NumberAtStart(s: string)
    requires s != "" && (IsDigit(s[0]) || s[0] == '-')
    ensures Read(s) == ReadValue(s) == ReadNumber(s)
  {
    assert EatWhitespace(s).rest == s;
  }

  /** What is kept is a part of what came, so it is never longer. */
  lemma {:induction false} LeftShorter(acc: seq<Json>, data: string)
    ensures |Drain(acc, data).left| <= |data|
    ensures |Drain(acc, data).values| >= |acc|
    decreases |data|
  {
    if data != "" && Read(data).Ok? {
      LeftShorter(acc + [Read(data).value], LStrip(Read(data).rest));
    }
  }

  lemma {:induction false} LStripShorter(s: string)
    ensures |LStrip(s)| <= |s|
  {
  }

  /** A number token that the next chunk continues: the two parts read apart and the whole read
      at once never give the same outcome. */
  lemma CutNumberDiffers(acc: seq<Json>, tok: string, chunk: string)
    requires tok != "" && Read(tok).Ok? && Read(tok).rest == "" && Read(tok).value.IsNumber()
    requires chunk != "" && IsNumberChar(chunk[0])
    ensures !SameOutcome(Drain(acc + [Read(tok).value], chunk), Drain(acc, tok + chunk))
  {
    var k, first := NumberSpan(chunk), acc + [Read(tok).value];
    var one, two := Drain(acc, tok + chunk), Drain(first, chunk);
    LeftShorter(first, chunk);
    ReadWhole(tok, chunk);
    if Read(tok + chunk).Ok? {
      var acc' := acc + [Read(tok + chunk).value];
      DrainAfter(acc', LStrip(chunk[k..]));
      LeftShorter(acc', LStrip(chunk[k..]));
      LStripShorter(one.left);
      ReadChunkNumber(chunk);
      if Read(chunk).Ok? {
        DrainAfter(first + [Read(chunk).value], LStrip(chunk[k..]));
      } else {
        assert two == Drained(first, chunk);
        assert LStrip(two.left) == chunk;
      }
    }
  }

  lemma ReadWhole(tok: string, chunk: string)
    requires tok != "" && Read(tok).Ok? && Read(tok).rest == "" && Read(tok).value.IsNumber()
    ensures Read(tok + chunk).Ok? ==> Read(tok + chunk).rest == chunk[NumberSpan(chunk)..]
  {
    EatWhitespaceExtends(tok, chunk);
    var t := EatWhitespace(tok).rest;
    assert (t + chunk)[0] == t[0];
    NumberContinues(t, chunk);
  }

  lemma ReadChunkNumber(chunk: string)
    requires chunk != "" && IsNumberChar(chunk[0])
    ensures Read(chunk).Ok? ==> Read(chunk).rest == chunk[NumberSpan(chunk)..]
  {
    assert EatWhitespace(chunk) == Ok((), chunk);
  }

  /** Receiving in two chunks gives what receiving at once gives, exactly unless the cut goes
      through a top-level number: for every text whatever, well-formed or not. */
  lemma {:induction false} CutIndependence(acc: seq<Json>, data: string, chunk: string)
    ensures SameOutcome(Receive(Drain(acc, data), chunk), Drain(acc, data + chunk)) <==> !CutsNumber(data, chunk)
    decreases |data|
  {
    if data == "" || Read(data).Err? {
      assert Drain(acc, data) == Drained(acc, data);
    } else {
      var Ok(value, rest) := Read(data);
      var acc' := acc + [value];
      if rest == "" && CutsNumber(data, chunk) {
        assert Drain(acc', "") == Drained(acc', "");
        assert "" + chunk == chunk;
        CutNumberDiffers(acc, data, chunk);
      } else if rest == "" {
        ReadExtends(data, chunk);
        assert Drain(acc', "") == Drained(acc', "");
        assert "" + chunk == chunk;
        DrainLStrip(acc', chunk);
        CutEmpty(acc, data, chunk);
      } else {
        ReadExtends(data, chunk);
        LStripConcat(rest, chunk);
        if LStrip(rest) == "" {
          CutAtSpace(acc, data, chunk);
        } else {
          CutIndependence(acc', LStrip(rest), chunk);
        }
      }
    }
  }

  lemma CutAtSpace(acc: seq<Json>, data: string, chunk: string)
    requires data != "" && Read(data).Ok? && Read(data).rest != "" && LStrip(Read(data).rest) == ""
    ensures SameOutcome(Receive(Drain(acc, data), chunk), Drain(acc, data + chunk))
    ensures !EndsInNumber(data)
  {
    var Ok(value, rest) := Read(data);
    var acc' := acc + [value];
    ReadExtends(data, chunk);
    LStripConcat(rest, chunk);
    assert Drain(acc', "") == Drained(acc', "");
    assert !EndsInNumber("");
    assert "" + chunk == chunk;
    DrainLStrip(acc', chunk);
  }

  lemma CutEmpty(acc: seq<Json>, data: string, chunk: string)
    requires data != "" && Read(data).Ok? && Read(data).rest == ""
    requires Read(data + chunk) == Ok(Read(data).value, chunk)
    ensures Drain(acc, data + chunk) == Drain(acc + [Read(data).value], LStrip(chunk))
  {
    assert Read(data).rest + chunk == chunk;
  }

  /** No chunk boundary of the stream goes through a top-level number. */
  predicate CleanCuts(sofar: string, chunks: seq<string>)
    decreases chunks
  {
    chunks == [] || (!CutsNumber(sofar, chunks[0]) && CleanCuts(sofar + chunks[0], chunks[1..]))
  }

  lemma MoveCut(sofar: string, chunk: string, chunks: seq<string>, whole: Drained)
    requires !CutsNumber(sofar, chunk)
    requires SameOutcome(ReceiveAll(Drain([], sofar + chunk), chunks), whole)
    ensures SameOutcome(ReceiveAll(Receive(Drain([], sofar), chunk), chunks), whole)
  {
    CutIndependence([], sofar, chunk);
    ReceiveAllSame(Receive(Drain([], sofar), chunk), Drain([], sofar + chunk), chunks);
  }

  /** However a stream is cut into chunks, the server takes the values it would take from the
      whole stream at once. */
  lemma {:induction false} ChunkIndependence(sofar: string, chunks: seq<string>)
    requires CleanCuts(sofar, chunks)
    ensures SameOutcome(ReceiveAll(Drain([], sofar), chunks), Drain([], sofar + Concat(chunks)))
    decreases chunks
  {
    if chunks == [] {
      assert sofar + Concat(chunks) == sofar;
    } else {
      var chunk, rest := chunks[0], chunks[1..];
      assert sofar + chunk + Concat(rest) == sofar + Concat(chunks);
      ChunkIndependence(sofar + chunk, rest);
      MoveCut(sofar, chunk, rest, Drain([], sofar + Concat(chunks)));
    }
  }

  lemma ReadDigits(s: string)
    requires s != "" && forall i :: 0 <= i < |s| ==> IsDigit(s[i])
    ensures Read(s) == Ok(Int(NatOf(s)), "")
  {
    NumberAtStart(s);
    WholeSpan(s);
    WholeValue(s);
  }

  lemma WholeSpan(s: string)
    requires s != "" && forall i :: 0 <= i < |s| ==> IsDigit(s[i])
    ensures NumberSpan(s[1..]) == |s| - 1
  {
    DigitsSpan(s[1..], "");
    assert s[1..] + "" == s[1..];
  }

  lemma WholeValue(s: string)
    requires s != "" && forall i :: 0 <= i < |s| ==> IsDigit(s[i])
    ensures NumberValue(s, "") == Ok(Int(NatOf(s)), "") && s[..|s|] == s && s[|s|..] == ""
  {
    NoDots(s);
    assert IsDigit(s[0]);
  }

  lemma DrainDigits(acc: seq<Json>, s: string)
    requires s != "" && forall i :: 0 <= i < |s| ==> IsDigit(s[i])
    ensures Drain(acc, s) == Drained(acc + [Int(NatOf(s))], "")
  {
    ReadDigits(s);
    assert Drain(acc + [Int(NatOf(s))], "") == Drained(acc + [Int(NatOf(s))], "");
  }

  /** A natural number received in two parts arrives as two numbers, received at once as one. */
  lemma NumberCutInTwo(acc: seq<Json>, a: nat, b: nat)
    ensures Receive(Drain(acc, NatText(a)), NatText(b)) == Drained(acc + [Int(a)] + [Int(b)], "")
    ensures Drain(acc, NatText(a) + NatText(b)) == Drained(acc + [Int(NatOf(NatText(a) + NatText(b)))], "")
  {
    DrainDigits(acc, NatText(a));
    assert "" + NatText(b) == NatText(b);
    DrainDigits(acc + [Int(a)], NatText(b));
    DrainDigits(acc, NatText(a) + NatText(b));
  }

  // ----- streams of written values

  function Stream(vs: seq<Value>, escapeSlash: bool): string {
    if vs == [] then "" else Write(vs[0], escapeSlash) + Stream(vs[1..], escapeSlash)
  }

  predicate SelfDelimiting(vs: seq<Value>) {
    forall v :: v in vs ==> !v.Number?
  }

  /** `p` is the text of the first k values and a proper prefix of the text of the next one. */
  predicate Progress(vs: seq<Value>, escapeSlash: bool, p: string, k: nat, left: string) {
    && k <= |vs|
    && p == Stream(vs[..k], escapeSlash) + left
    && (if k == |vs| then left == ""
        else |left| < |Write(vs[k], escapeSlash)| && left <= Write(vs[k], escapeSlash))
  }

  lemma StreamStart(vs: seq<Value>, escapeSlash: bool)
    ensures vs != [] ==> Stream(vs, escapeSlash) != "" && !IsSpace(Stream(vs, escapeSlash)[0])
  {
    if vs != [] { WriteStart(vs[0], escapeSlash); }
  }

  /** One concatenation seen in two ways. */
  lemma Overlap(w: string, s: string, p: string, x: string)
    requires w + s == p + x
    ensures |w| <= |p| ==> p == w + p[|w|..] && s == p[|w|..] + x
    ensures |p| < |w| ==> w == p + w[|p|..]
  {
    if |w| <= |p| {
      assert w == (w + s)[..|w|] == (p + x)[..|w|] == p[..|w|];
      assert s == (w + s)[|w|..] == (p + x)[|w|..] == p[|w|..] + x;
    } else {
      assert p == (p + x)[..|p|] == (w + s)[..|p|] == w[..|p|];
    }
  }

  lemma {:induction false} StreamSplit(vs: seq<Value>, escapeSlash: bool, j: nat)
    requires j <= |vs|
    ensures Stream(vs, escapeSlash) == Stream(vs[..j], escapeSlash) + Stream(vs[j..], escapeSlash)
    decreases vs
  {
    if j == 0 {
      assert vs[0..] == vs;
    } else {
      StreamSplit(vs[1..], escapeSlash, j - 1);
      assert vs[..j][1..] == vs[1..][..j - 1] && vs[1..][j - 1..] == vs[j..];
      Regroup(Write(vs[0], escapeSlash), Stream(vs[1..][..j - 1], escapeSlash), "", Stream(vs[j..], escapeSlash));
    }
  }

  lemma MeaningsConcat(a: seq<Value>, b: seq<Value>)
    ensures Meanings(a + b) == Meanings(a) + Meanings(b)
  {
    var x, y := Meanings(a + b), Meanings(a) + Meanings(b);
    assert forall i :: 0 <= i < |x| ==> x[i] == y[i];
  }

  lemma MoreValues(vs: seq<Value>, escapeSlash: bool, j: nat, k: nat)
    requires j + k <= |vs|
    ensures Meanings(vs[..j + k]) == Meanings(vs[..j]) + Meanings(vs[j..][..k])
    ensures Stream(vs[..j + k], escapeSlash) == Stream(vs[..j], escapeSlash) + Stream(vs[j..][..k], escapeSlash)
  {
    assert vs[..j + k] == vs[..j] + vs[j..][..k];
    MeaningsConcat(vs[..j], vs[j..][..k]);
    assert vs[..j + k][..j] == vs[..j] && vs[..j + k][j..] == vs[j..][..k];
    StreamSplit(vs[..j + k], escapeSlash, j);
  }

  /** Progress through `vs`, then through the values that remain. */
  lemma ProgressOn(vs: seq<Value>, escapeSlash: bool, p: string, j: nat, kept: string, more: string, k: nat,
                   left: string)
    requires Progress(vs, escapeSlash, p, j, kept)
    requires Progress(vs[j..], escapeSlash, kept + more, k, left)
    ensures Progress(vs, escapeSlash, p + more, j + k, left)
    ensures Meanings(vs[..j]) + Meanings(vs[j..][..k]) == Meanings(vs[..j + k])
  {
    MoreValues(vs, escapeSlash, j, k);
    Rejoin(Stream(vs[..j], escapeSlash), kept, more, Stream(vs[j..][..k], escapeSlash), left);
  }

  lemma Rejoin(done: string, kept: string, more: string, next: string, left: string)
    requires kept + more == next + left
    ensures done + kept + more == done + next + left
  {
    assert done + kept + more == done + (kept + more);
  }

  /** Where the reading stands is determined by how much was received. */
  lemma ProgressUnique(vs: seq<Value>, escapeSlash: bool, p: string, k: nat, left: string, k': nat, left': string)
    requires Progress(vs, escapeSlash, p, k, left) && Progress(vs, escapeSlash, p, k', left')
    ensures k == k' && left == left'
  {
    if k != k' {
      StreamGrows(vs, escapeSlash, if k < k' then k else k', if k < k' then k' else k);
    } else {
      assert left == p[|p| - |left|..] && left' == p[|p| - |left'|..];
    }
  }

  lemma StreamGrows(vs: seq<Value>, escapeSlash: bool, k: nat, m: nat)
    requires k < m <= |vs|
    ensures |Stream(vs[..m], escapeSlash)| >= |Stream(vs[..k], escapeSlash)| + |Write(vs[k], escapeSlash)|
  {
    StreamSplit(vs[..m], escapeSlash, k);
    assert vs[..m][..k] == vs[..k] && vs[..m][k..][0] == vs[k];
  }

  /** After any prefix of the stream, exactly the values that are complete have been taken, in
      order, and what is kept is the unfinished beginning of the next one. */
  lemma {:induction false} DrainPrefix(acc: seq<Json>, vs: seq<Value>, escapeSlash: bool, p: string, x: string)
    returns (k: nat, left: string)
    requires SelfDelimiting(vs)
    requires Stream(vs, escapeSlash) == p + x
    ensures Progress(vs, escapeSlash, p, k, left)
    ensures Drain(acc, p) == Drained(acc + Meanings(vs[..k]), left)
    decreases vs
  {
    if vs == [] {
      assert p == "" && acc + [] == acc;
      return 0, "";
    }
    var w := Write(vs[0], escapeSlash);
    assert vs[0] in vs;
    Overlap(w, Stream(vs[1..], escapeSlash), p, x);
    if |w| <= |p| {
      var p' := p[|w|..];
      DrainOne(acc, vs, escapeSlash, p', x);
      var k', left' := DrainPrefix(acc + [Meaning(vs[0])], vs[1..], escapeSlash, p', x);
      ProgressOne(acc, vs, escapeSlash, p', k', left');
      return 1 + k', left';
    } else {
      DrainNone(acc, vs, escapeSlash, p);
      return 0, p;
    }
  }

  lemma DrainOne(acc: seq<Json>, vs: seq<Value>, escapeSlash: bool, p: string, x: string)
    requires vs != [] && !vs[0].Number?
    requires Stream(vs[1..], escapeSlash) == p + x
    ensures Drain(acc, Write(vs[0], escapeSlash) + p) == Drain(acc + [Meaning(vs[0])], p)
  {
    ReadInvertsWrite(vs[0], escapeSlash, p);
    WriteStart(vs[0], escapeSlash);
    StreamStart(vs[1..], escapeSlash);
    assert p == "" || p[0] == (p + x)[0];
  }

  lemma DrainNone(acc: seq<Json>, vs: seq<Value>, escapeSlash: bool, p: string)
    requires vs != [] && !vs[0].Number?
    requires p <= Write(vs[0], escapeSlash) && p != Write(vs[0], escapeSlash)
    ensures Progress(vs, escapeSlash, p, 0, p)
    ensures Drain(acc, p) == Drained(acc + Meanings(vs[..0]), p)
  {
    var w := Write(vs[0], escapeSlash);
    assert w == p + w[|p|..];
    PrefixFree(vs[0], escapeSlash, p, w[|p|..]);
    assert Stream(vs[..0], escapeSlash) + p == p;
    assert acc + Meanings(vs[..0]) == acc;
  }

  /** One value has been received. */
  lemma ProgressFirst(vs: seq<Value>, escapeSlash: bool)
    requires vs != []
    ensures Progress(vs, escapeSlash, Write(vs[0], escapeSlash), 1, "") && Meanings(vs[..1]) == [Meaning(vs[0])]
  {
    var one := vs[..1];
    assert one[0] == vs[0] && one[1..] == [];
    assert Stream(one, escapeSlash) == Write(vs[0], escapeSlash) + "";
    if |vs| > 1 { WriteStart(vs[1], escapeSlash); }
  }

  lemma ProgressOne(acc: seq<Json>, vs: seq<Value>, escapeSlash: bool, p: string, k: nat, left: string)
    requires vs != []
    requires Progress(vs[1..], escapeSlash, p, k, left)
    ensures Progress(vs, escapeSlash, Write(vs[0], escapeSlash) + p, 1 + k, left)
    ensures acc + [Meaning(vs[0])] + Meanings(vs[1..][..k]) == acc + Meanings(vs[..1 + k])
  {
    ProgressFirst(vs, escapeSlash);
    assert "" + p == p;
    ProgressOn(vs, escapeSlash, Write(vs[0], escapeSlash), 1, "", p, k, left);
    Glued(acc, [Meaning(vs[0])], Meanings(vs[1..][..k]));
  }

  lemma Glued(a: seq<Json>, b: seq<Json>, c: seq<Json>)
    ensures a + b + c == a + (b + c)
  {
  }

  /** `d` is where the decoding of the stream stands once `p` has been received. */
  ghost predicate Standing(vs: seq<Value>, escapeSlash: bool, p: string, d: Drained) {
    exists k: nat, left: string ::
      Progress(vs, escapeSlash, p, k, left) && d == Drained(Meanings(vs[..k]), left)
  }

  lemma StandingStep(vs: seq<Value>, escapeSlash: bool, p: string, d: Drained, chunk: string, x: string)
    requires SelfDelimiting(vs) && Stream(vs, escapeSlash) == p + chunk + x
    requires Standing(vs, escapeSlash, p, d)
    ensures Standing(vs, escapeSlash, p + chunk, Receive(d, chunk))
  {
    var k: nat, left: string :|
      Progress(vs, escapeSlash, p, k, left) && d == Drained(Meanings(vs[..k]), left);
    var j, left' := ReceiveStep(vs, escapeSlash, p, k, left, chunk, x);
  }

  lemma ReceiveStep(vs: seq<Value>, escapeSlash: bool, p: string, k: nat, left: string, chunk: string, x: string)
    returns (j: nat, left': string)
    requires SelfDelimiting(vs) && Stream(vs, escapeSlash) == p + chunk + x
    requires Progress(vs, escapeSlash, p, k, left)
    ensures Progress(vs, escapeSlash, p + chunk, j, left')
    ensures Receive(Drained(Meanings(vs[..k]), left), chunk) == Drained(Meanings(vs[..j]), left')
  {
    var next := vs[k..];
    StreamFrom(vs, escapeSlash, p, chunk, x, k, left);
    j, left' := DrainPrefix(Meanings(vs[..k]), next, escapeSlash, left + chunk, x);
    ProgressOn(vs, escapeSlash, p, k, left, chunk, j, left');
    j := k + j;
  }

  lemma StreamFrom(vs: seq<Value>, escapeSlash: bool, p: string, chunk: string, x: string, k: nat, left: string)
    requires SelfDelimiting(vs) && Stream(vs, escapeSlash) == p + chunk + x
    requires Progress(vs, escapeSlash, p, k, left)
    ensures SelfDelimiting(vs[k..])
    ensures Stream(vs[k..], escapeSlash) == left + chunk + x
  {
    assert p + chunk + x == p + (chunk + x);
    Remains(vs, escapeSlash, p, chunk + x, k, left);
    assert left + (chunk + x) == left + chunk + x;
  }

  lemma Remains(vs: seq<Value>, escapeSlash: bool, p: string, x: string, j: nat, kept: string)
    requires SelfDelimiting(vs) && Stream(vs, escapeSlash) == p + x
    requires Progress(vs, escapeSlash, p, j, kept)
    ensures SelfDelimiting(vs[j..])
    ensures Stream(vs[j..], escapeSlash) == kept + x
  {
    StreamSplit(vs, escapeSlash, j);
    SameRest(Stream(vs[..j], escapeSlash), Stream(vs[j..], escapeSlash), kept, x);
  }

  lemma SameRest(done: string, more: string, kept: string, x: string)
    requires done + more == done + kept + x
    ensures more == kept + x
  {
    assert done + kept + x == done + (kept + x);
    assert more == (done + more)[|done|..] && kept + x == (done + (kept + x))[|done|..];
  }

  lemma Cut(p: string, chunk: string, rest: string, x: string)
    ensures p + (chunk + rest) == p + chunk + rest
    ensures p + (chunk + rest) + x == p + chunk + (rest + x) == p + chunk + rest + x
  {
  }

  lemma {:induction false} StandingThrough(vs: seq<Value>, escapeSlash: bool, p: string, d: Drained,
                                           chunks: seq<string>, x: string)
    requires SelfDelimiting(vs) && Stream(vs, escapeSlash) == p + Concat(chunks) + x
    requires Standing(vs, escapeSlash, p, d)
    ensures Standing(vs, escapeSlash, p + Concat(chunks), ReceiveAll(d, chunks))
    decreases chunks
  {
    if chunks == [] {
      assert p + "" == p;
    } else {
      var rest := Concat(chunks[1..]);
      Cut(p, chunks[0], rest, x);
      StandingStep(vs, escapeSlash, p, d, chunks[0], rest + x);
      StandingThrough(vs, escapeSlash, p + chunks[0], Receive(d, chunks[0]), chunks[1..], x);
    }
  }

  /** The end-to-end theorem. The text of any self-delimiting values is cut into chunks anywhere.
      When the chunks so far make up the prefix `p` of the text, the values taken are exactly
      those written completely in `p`, and the kept text is the unfinished rest of `p`. */
  lemma StreamDecoding(vs: seq<Value>, escapeSlash: bool, chunks: seq<string>, x: string)
    requires SelfDelimiting(vs)
    requires Stream(vs, escapeSlash) == Concat(chunks) + x
    ensures Standing(vs, escapeSlash, Concat(chunks), ReceiveAll(Drained([], ""), chunks))
  {
    var p := Concat(chunks);
    assert "" + p == p;
    assert Progress(vs, escapeSlash, "", 0, "") by {
      if vs != [] { WriteStart(vs[0], escapeSlash); }
    }
    assert Standing(vs, escapeSlash, "", Drained(Meanings(vs[..0]), ""));
    StandingThrough(vs, escapeSlash, "", Drained([], ""), chunks, x);
  }

  // ----- a stream of spellings

  datatype Document = Document(text: string, value: Json)

  function DocumentsText(ds: seq<Document>): string {
    if ds == [] then "" else ds[0].text + DocumentsText(ds[1..])
  }

  function DocumentValues(ds: seq<Document>): seq<Json> {
    if ds == [] then [] else [ds[0].value] + DocumentValues(ds[1..])
  }

  /** Each text spells its value, and no number is continued by what follows it. */
  ghost predicate Documented(ds: seq<Document>, tail: string) {
    ds == []
    || (JsonSyntax.Spells(ds[0].text, ds[0].value)
        && (ds[0].value.IsNumber() ==> EndsNumber(DocumentsText(ds[1..]) + tail))
        && Documented(ds[1..], tail))
  }

  lemma FirstDocument(acc: seq<Json>, ds: seq<Document>, tail: string)
    requires ds != []
    ensures DocumentsText(ds) + tail == ds[0].text + (DocumentsText(ds[1..]) + tail)
    ensures acc + DocumentValues(ds) == acc + [ds[0].value] + DocumentValues(ds[1..])
  {
    Assoc(ds[0].text, DocumentsText(ds[1..]), tail);
  }

  lemma TakesFirst(acc: seq<Json>, d: Document, more: string)
    requires JsonSyntax.Spells(d.text, d.value) && (d.value.IsNumber() ==> EndsNumber(more))
    ensures SameOutcome(Drain(acc, d.text + more), Drain(acc + [d.value], more))
  {
    ReadIffSpelled(d.text, d.value, more);
    DrainLStrip(acc + [d.value], more);
  }

  /** From a buffer that holds spelled values, with white space and comments between them, exactly
      these values are taken, up to a text that spells nothing. */
  lemma {:induction false} DrainsSpelled(acc: seq<Json>, ds: seq<Document>, tail: string)
    requires Documented(ds, tail) && forall k :: !SpelledUpTo(tail, k)
    ensures SameOutcome(Drain(acc, DocumentsText(ds) + tail), Drained(acc + DocumentValues(ds), tail))
    decreases |ds|
  {
    if ds == [] {
      AcceptedIsSpelled(tail);
      assert DocumentsText(ds) + tail == tail && acc + [] == acc;
    } else {
      FirstDocument(acc, ds, tail);
      TakesFirst(acc, ds[0], DocumentsText(ds[1..]) + tail);
      DrainsSpelled(acc + [ds[0].value], ds[1..], tail);
    }
  }

  /** The white space that is dropped in front of the next value, character by character. */
  lemma {:induction false} StrippedBlanks(s: string)
    ensures var k := |s| - |LStrip(s)|;
      && s[k..] == LStrip(s)
      && (forall i :: 0 <= i < k ==> s[i] in {' ', '\t', '\n', '\r', 11 as char, 12 as char})
      && (k < |s| ==> s[k] !in {' ', '\t', '\n', '\r', 11 as char, 12 as char})
  {
    if s != "" && IsSpace(s[0]) {
      StrippedBlanks(s[1..]);
      var k := |s| - |LStrip(s)|;
      assert s[1..][k - 1..] == s[k..];
      assert forall i :: 0 < i < |s| ==> s[i] == s[1..][i - 1];
    }
  }
}
