/** The reader accepts a text exactly when it is a spelling of the value that it returns. */
module JsonSpelling {
  import opened Wrappers
  import opened JsonText
  import opened JsonSyntax

  lemma Assoc(a: string, b: string, c: string)
    ensures a + b + c == a + (b + c)
  {
  }

  // ----- gaps

  lemma {:induction false} LineNoteEaten(body: string, ending: char, rest: string)
    requires ending == '\r' || ending == '\n'
    requires '\r' !in body && '\n' !in body
    ensures LineComment(body + ([ending] + rest)) == rest
  {
    var t := body + ([ending] + rest);
    if body == "" {
      assert t == [ending] + rest && t[1..] == rest;
    } else {
      assert t[0] == body[0] && t[1..] == body[1..] + ([ending] + rest);
      LineNoteEaten(body[1..], ending, rest);
    }
  }

  lemma {:induction false} BlockNoteEaten(body: string, rest: string)
    requires NoMarks(body + "*")
    ensures BlockComment(body + ("*/" + rest)) == Ok((), rest)
  {
    var t := body + ("*/" + rest);
    if body == "" {
      assert t == "*/" + rest && t[2..] == rest;
    } else {
      var u := body + "*";
      assert t[0] == u[0] && t[1] == u[1];
      assert t[1..] == body[1..] + ("*/" + rest);
      assert u[1..] == body[1..] + "*";
      BlockNoteEaten(body[1..], rest);
    }
  }

  lemma EatLineNote(g: Gap, rest: string)
    requires g.LineNote? && GapFits(g)
    ensures EatWhitespace(GapText(g) + rest) == EatWhitespace(rest)
  {
    var t := GapText(g) + rest;
    assert t[2..] == g.body + ([g.ending] + rest);
    LineNoteEaten(g.body, g.ending, rest);
    assert ReadComment(t) == Ok((), rest);
  }

  lemma EatBlockNote(g: Gap, rest: string)
    requires g.BlockNote? && GapFits(g)
    ensures EatWhitespace(GapText(g) + rest) == EatWhitespace(rest)
  {
    var t := GapText(g) + rest;
    assert t[2..] == g.body + ("*/" + rest);
    BlockNoteEaten(g.body, rest);
    assert t[0] == '/' && t[1] == '*';
    assert ReadComment(t) == Ok((), rest);
  }

  lemma EatGap(g: Gap, rest: string)
    requires GapFits(g)
    ensures EatWhitespace(GapText(g) + rest) == EatWhitespace(rest)
  {
    match g {
      case Blank(c) => assert ([c] + rest)[1..] == rest;
      case LineNote(_, _) => EatLineNote(g, rest);
      case BlockNote(_) => EatBlockNote(g, rest);
    }
  }

  lemma {:induction false} EatGaps(gs: seq<Gap>, rest: string)
    requires GapsFit(gs)
    ensures EatWhitespace(GapsText(gs) + rest) == EatWhitespace(rest)
  {
    if gs == [] {
      assert GapsText(gs) + rest == rest;
    } else {
      assert GapsText(gs) + rest == GapText(gs[0]) + (GapsText(gs[1..]) + rest);
      EatGap(gs[0], GapsText(gs[1..]) + rest);
      EatGaps(gs[1..], rest);
    }
  }

  /** Gaps in front of a character that is neither white space nor the start of a comment. */
  lemma EatUpTo(gs: seq<Gap>, rest: string)
    requires GapsFit(gs) && rest != "" && !IsSpace(rest[0]) && rest[0] != '/'
    ensures EatWhitespace(GapsText(gs) + rest) == Ok((), rest)
  {
    EatGaps(gs, rest);
  }

  // ----- strings

  function TextOfPiece(p: Piece): Text {
    if p.Code? then Wide([PieceUnit(p)]) else Bytes([PieceChar(p)])
  }

  lemma HexOfText(h: HexDigit)
    ensures IsHex(HexText(h)) && HexValue(HexText(h)) == h.value
  {
  }

  lemma ReadsPiece(p: Piece, rest: string)
    ensures PieceText(p)[0] != '"'
    ensures ReadChar(PieceText(p) + rest) == Ok(TextOfPiece(p), rest)
  {
    var t, n := PieceText(p) + rest, |PieceText(p)|;
    assert t[n..] == rest;
    if p.Code? {
      HexOfText(p.h3);
      HexOfText(p.h2);
      HexOfText(p.h1);
      HexOfText(p.h0);
    }
  }

  predicate CanJoin(acc: Text, ps: seq<Piece>) {
    (acc.Bytes? && IsBytes(ps)) || ((acc.Bytes? ==> IsAscii(acc.s)) && IsJoinable(ps))
  }

  function Joined(acc: Text, ps: seq<Piece>): Text {
    if acc.Bytes? && IsBytes(ps) then Bytes(acc.s + Characters(ps)) else Wide(Widen(acc) + CodeUnits(ps))
  }

  lemma BytesOfOne(ps: seq<Piece>)
    requires ps != []
    ensures IsBytes(ps) <==> !ps[0].Code? && IsBytes(ps[1..])
  {
  }

  lemma CharactersOfOne(s: string, ps: seq<BytePiece>)
    requires ps != []
    ensures s + Characters(ps) == s + [PieceChar(ps[0])] + Characters(ps[1..])
  {
  }

  lemma JoinBytes(s: string, p: BytePiece, rest: string)
    ensures Join(Bytes(s), TextOfPiece(p), rest) == Ok(Bytes(s + [PieceChar(p)]), rest)
  {
  }

  lemma JoinCode(acc: Text, p: Piece, rest: string)
    requires p.Code?
    requires acc.Bytes? ==> IsAscii(acc.s)
    ensures Join(acc, TextOfPiece(p), rest) == Ok(Wide(Widen(acc) + [PieceUnit(p)]), rest)
  {
  }

  lemma JoinWide(units: seq<int>, p: BytePiece, rest: string)
    requires PieceUnit(p) < 128
    ensures Join(Wide(units), TextOfPiece(p), rest) == Ok(Wide(units + [PieceUnit(p)]), rest)
  {
    assert Units([PieceChar(p)]) == [PieceUnit(p)];
  }

  lemma WidenMore(s: string, c: char)
    ensures Units(s + [c]) == Units(s) + [c as int]
  {
  }

  lemma JoinOne(acc: Text, ps: seq<Piece>, rest: string)
    requires ps != [] && CanJoin(acc, ps)
    ensures var r := Join(acc, TextOfPiece(ps[0]), rest);
      r.Ok? && CanJoin(r.value, ps[1..]) && Joined(r.value, ps[1..]) == Joined(acc, ps)
  {
    var p, more := ps[0], ps[1..];
    BytesOfOne(ps);
    if acc.Bytes? && IsBytes(ps) {
      JoinBytes(acc.s, p, rest);
      CharactersOfOne(acc.s, ps);
    } else {
      assert IsJoinable(more);
      assert Widen(acc) + CodeUnits(ps) == Widen(acc) + [PieceUnit(p)] + CodeUnits(more);
      if p.Code? {
        JoinCode(acc, p, rest);
      } else if acc.Bytes? {
        JoinBytes(acc.s, p, rest);
        WidenMore(acc.s, PieceChar(p));
      } else {
        JoinWide(acc.units, p, rest);
      }
    }
  }

  lemma NothingJoined(acc: Text)
    ensures Joined(acc, []) == acc
  {
    if acc.Bytes? { assert acc.s + "" == acc.s; } else { assert acc.units + [] == acc.units; }
  }

  lemma JoinedToNothing(ps: seq<Piece>)
    ensures JsonOfText(Joined(Bytes(""), ps)) == NodeValue(Quote(ps))
  {
    if IsBytes(ps) {
      assert "" + Characters(ps) == Characters(ps);
    } else {
      assert Units("") + CodeUnits(ps) == CodeUnits(ps);
    }
  }

  lemma {:induction false} ReadsPieces(acc: Text, ps: seq<Piece>, rest: string)
    requires CanJoin(acc, ps)
    ensures ReadChars(acc, PiecesText(ps) + ("\"" + rest)) == Ok(Joined(acc, ps), rest)
    decreases |ps|
  {
    var t := PiecesText(ps) + ("\"" + rest);
    if ps == [] {
      assert t == "\"" + rest && t[1..] == rest;
      NothingJoined(acc);
    } else {
      var tail := PiecesText(ps[1..]) + ("\"" + rest);
      assert t == PieceText(ps[0]) + tail;
      ReadsPiece(ps[0], tail);
      JoinOne(acc, ps, tail);
      ReadsPieces(Join(acc, TextOfPiece(ps[0]), tail).value, ps[1..], rest);
    }
  }

  lemma ReadsQuote(ps: seq<Piece>, rest: string)
    requires IsBytes(ps) || IsJoinable(ps)
    ensures ReadValue(QuoteText(ps) + rest) == Ok(NodeValue(Quote(ps)), rest)
  {
    var t := QuoteText(ps) + rest;
    assert t[0] == '"' && t[1..] == PiecesText(ps) + ("\"" + rest);
    ReadsPieces(Bytes(""), ps, rest);
    JoinedToNothing(ps);
    assert ReadChars(Bytes(""), t[1..]) == Ok(Joined(Bytes(""), ps), rest);
  }

  // ----- numbers

  lemma {:induction false} NoDots(s: string)
    requires forall i :: 0 <= i < |s| ==> s[i] != '.'
    ensures Dots(s) == 0
  {
    if s != "" { NoDots(s[1..]); }
  }

  lemma {:induction false} DigitsSpan(s: string, rest: string)
    requires forall i :: 0 <= i < |s| ==> IsNumberChar(s[i])
    requires rest == "" || !IsNumberChar(rest[0])
    ensures NumberSpan(s + rest) == |s|
  {
    if s == "" {
      assert s + rest == rest;
    } else {
      assert (s + rest)[0] == s[0] && (s + rest)[1..] == s[1..] + rest;
      DigitsSpan(s[1..], rest);
    }
  }

  lemma DigitOfText(d: Digit)
    ensures IsDigit(DigitText(d)) && DigitValue(DigitText(d)) == d
  {
  }

  lemma {:induction false} ReadsDigits(ds: seq<Digit>)
    ensures |DigitsText(ds)| == |ds|
    ensures forall i :: 0 <= i < |ds| ==> IsDigit(DigitsText(ds)[i])
    ensures NatOf(DigitsText(ds)) == Decimal(ds)
  {
    if ds != [] {
      var most, last := ds[..|ds| - 1], ds[|ds| - 1];
      ReadsDigits(most);
      DigitOfText(last);
      var t := DigitsText(ds);
      assert t[..|t| - 1] == DigitsText(most) && t[|t| - 1] == DigitText(last);
    }
  }

  lemma {:induction false} DotsConcat(s: string, t: string)
    ensures Dots(s + t) == Dots(s) + Dots(t)
  {
    if s == "" {
      assert s + t == t;
    } else {
      assert (s + t)[0] == s[0] && (s + t)[1..] == s[1..] + t;
      DotsConcat(s[1..], t);
    }
  }

  predicate NumberChars(s: string) { forall i :: 0 <= i < |s| ==> IsNumberChar(s[i]) }

  /** What follows the sign. */
  function Magnitude(whole: seq<Digit>, fraction: Maybe<seq<Digit>>): string {
    DigitsText(whole) + (if fraction.Some? then "." + DigitsText(fraction.value) else "")
  }

  lemma MagnitudeRead(whole: seq<Digit>, fraction: Maybe<seq<Digit>>)
    ensures NumberChars(Magnitude(whole, fraction))
    ensures Dots(Magnitude(whole, fraction)) == if fraction.Some? then 1 else 0
    ensures whole != [] ==> Magnitude(whole, fraction) != "" && IsDigit(Magnitude(whole, fraction)[0])
    ensures whole != [] || (fraction.Some? && fraction.value != []) ==> HasDigit(Magnitude(whole, fraction))
  {
    var t := DigitsText(whole);
    ReadsDigits(whole);
    NoDots(t);
    if fraction.Some? {
      var u := DigitsText(fraction.value);
      ReadsDigits(fraction.value);
      NoDots(u);
      assert ("." + u)[1..] == u;
      DotsConcat(t, "." + u);
      if fraction.value != [] { assert Magnitude(whole, fraction)[|t| + 1] == u[0]; }
    } else {
      assert Magnitude(whole, fraction) == t;
    }
    if whole != [] { assert Magnitude(whole, fraction)[0] == t[0]; }
  }

  lemma DigitAt(s: string, i: nat)
    requires i < |s| && IsDigit(s[i])
    ensures HasDigit(s)
  {
  }

  lemma SignedRead(m: string)
    requires HasDigit(m)
    ensures var t := "-" + m; t[1..] == m && Dots(t) == Dots(m) && HasDigit(t) && IntOf(t) == -NatOf(m)
  {
    var t := "-" + m;
    assert t[1..] == m;
    var i :| 0 <= i < |m| && IsDigit(m[i]);
    DigitAt(t, i + 1);
  }

  lemma TokenText(negative: bool, whole: seq<Digit>, fraction: Maybe<seq<Digit>>)
    requires NumberFits(negative, whole, fraction)
    ensures var t := NumberText(negative, whole, fraction);
      && t != "" && (t[0] == '-' || IsDigit(t[0])) && NumberChars(t[1..]) && HasDigit(t)
      && Dots(t) == (if fraction.Some? then 1 else 0)
  {
    var m := Magnitude(whole, fraction);
    MagnitudeRead(whole, fraction);
    if negative { SignedRead(m); } else { assert "" + m == m; }
  }

  lemma IntToken(negative: bool, whole: seq<Digit>)
    requires whole != []
    ensures IntOf(NumberText(negative, whole, None)) == if negative then -Decimal(whole) else Decimal(whole)
  {
    var m := DigitsText(whole);
    ReadsDigits(whole);
    DigitAt(m, 0);
    assert m + "" == m;
    if negative { SignedRead(m); } else { assert "" + m == m; }
  }

  lemma TokenRead(negative: bool, whole: seq<Digit>, fraction: Maybe<seq<Digit>>, rest: string)
    requires NumberFits(negative, whole, fraction)
    ensures NumberValue(NumberText(negative, whole, fraction), rest)
         == Ok(NodeValue(Number(negative, whole, fraction)), rest)
  {
    TokenText(negative, whole, fraction);
    if fraction.None? { IntToken(negative, whole); }
  }

  predicate EndsNumber(rest: string) { rest == "" || !IsNumberChar(rest[0]) }

  lemma ReadsDigitsAndDots(t: string, rest: string)
    requires t != "" && NumberChars(t[1..]) && EndsNumber(rest)
    ensures ReadNumber(t + rest) == NumberValue(t, rest)
  {
    var s := t + rest;
    assert s[1..] == t[1..] + rest;
    DigitsSpan(t[1..], rest);
    assert s[..|t|] == t && s[|t|..] == rest;
  }

  lemma ReadsToken(t: string, rest: string)
    requires t != "" && (t[0] == '-' || IsDigit(t[0])) && NumberChars(t[1..]) && EndsNumber(rest)
    ensures ReadValue(t + rest) == NumberValue(t, rest)
  {
    assert (t + rest)[0] == t[0];
    ReadsDigitsAndDots(t, rest);
  }

  lemma ReadsNumeral(negative: bool, whole: seq<Digit>, fraction: Maybe<seq<Digit>>, rest: string)
    requires NumberFits(negative, whole, fraction) && EndsNumber(rest)
    ensures var n := Number(negative, whole, fraction);
      ReadValue(NodeText(n) + rest) == Ok(NodeValue(n), rest)
  {
    TokenText(negative, whole, fraction);
    TokenRead(negative, whole, fraction, rest);
    ReadsToken(NumberText(negative, whole, fraction), rest);
  }

  // ----- values

  lemma ReadsWord(word: string, value: Json, rest: string)
    ensures ReadWord(word, value, word + rest) == Ok(value, rest)
  {
    if word == "" {
      assert word + rest == rest;
    } else {
      assert (word + rest)[1..] == word[1..] + rest;
      ReadsWord(word[1..], value, rest);
    }
  }

  lemma ReadsNull(rest: string)
    ensures ReadValue("null" + rest) == Ok(Null, rest)
  {
    ReadsWord("null", Null, rest);
  }

  lemma ReadsTruth(b: bool, rest: string)
    ensures ReadValue((if b then "true" else "false") + rest) == Ok(Bool(b), rest)
  {
    ReadsWord(if b then "true" else "false", Bool(b), rest);
  }

  /** The first character of a value tells that no gap, end or separator stands there. */
  lemma NodeStart(n: Node)
    requires Fits(n)
    ensures NodeText(n) != ""
    ensures var c := NodeText(n)[0]; !IsSpace(c) && c != '/' && c != ']' && c != '}'
  {
    match n {
      case Number(negative, whole, fraction) => TokenText(negative, whole, fraction);
      case _ =>
    }
  }

  lemma {:induction false} ReadsSpelled(gs: seq<Gap>, n: Node, rest: string)
    requires GapsFit(gs) && Fits(n) && (n.Number? ==> EndsNumber(rest))
    ensures Read(GapsText(gs) + (NodeText(n) + rest)) == Ok(NodeValue(n), rest)
    decreases n, 1
  {
    NodeStart(n);
    var t := NodeText(n) + rest;
    assert t[0] == NodeText(n)[0];
    EatUpTo(gs, t);
    ReadsNode(n, rest);
  }

  lemma {:induction false} ReadsNode(n: Node, rest: string)
    requires Fits(n) && (n.Number? ==> EndsNumber(rest))
    ensures ReadValue(NodeText(n) + rest) == Ok(NodeValue(n), rest)
    decreases n, 0
  {
    match n {
      case NullWord => ReadsNull(rest);
      case TrueWord => ReadsTruth(true, rest);
      case FalseWord => ReadsTruth(false, rest);
      case Number(negative, whole, fraction) => ReadsNumeral(negative, whole, fraction, rest);
      case Quote(pieces) => ReadsQuote(pieces, rest);
      case Array(items) => ReadsArray(items, rest);
      case Object(members) => ReadsObject(members, rest);
    }
  }

  lemma OpensArray(inside: string)
    requires inside != ""
    ensures ReadValue("[" + inside) == if inside[0] == ']' then Ok(List([]), inside[1..]) else ReadItems([], inside)
  {
    var t := "[" + inside;
    assert t[0] == '[' && t[1] == inside[0] && t[1..] == inside && t[2..] == inside[1..];
  }

  lemma OpensObject(inside: string)
    requires inside != ""
    ensures ReadValue("{" + inside)
         == if inside[0] == '}' then Ok(Dict(map[]), inside[1..]) else ReadMembers(map[], inside)
  {
    var t := "{" + inside;
    assert t[0] == '{' && t[1] == inside[0] && t[1..] == inside && t[2..] == inside[1..];
  }

  lemma OpenText(open: string, text: string, close: string, rest: string)
    requires text != "" && close != ""
    ensures open + text + rest == open + (text + rest) && (text + rest)[0] == text[0]
    ensures open + close + rest == open + (close + rest) && (close + rest)[0] == close[0]
    ensures |close| == 1 ==> (close + rest)[1..] == rest
  {
  }

  lemma {:induction false} ReadsArray(items: seq<Item>, rest: string)
    requires ItemsFit(items)
    ensures ReadValue(NodeText(Array(items)) + rest) == Ok(List(ItemValues(items)), rest)
    decreases items, 1
  {
    if items == [] {
      OpenText("[", "]", "]", rest);
      OpensArray("]" + rest);
    } else {
      ItemsStart(items, rest);
      OpenText("[", ItemsText(items), "]", rest);
      OpensArray(ItemsText(items) + rest);
      ReadsItems([], items, rest);
      assert [] + ItemValues(items) == ItemValues(items);
    }
  }

  lemma {:induction false} ReadsObject(members: seq<Member>, rest: string)
    requires MembersFit(members)
    ensures ReadValue(NodeText(Object(members)) + rest) == Ok(Dict(Entries(members)), rest)
    decreases members, 1
  {
    if members == [] {
      OpenText("{", "}", "}", rest);
      OpensObject("}" + rest);
    } else {
      MembersStart(members, rest);
      OpenText("{", MembersText(members), "}", rest);
      OpensObject(MembersText(members) + rest);
      ReadsMembers(map[], members, rest);
      assert map[] + Entries(members) == Entries(members);
    }
  }

  /** The first character after some gaps and `t`: that of a gap, or that of `t`. */
  lemma GapsStart(gs: seq<Gap>, t: string)
    requires t != ""
    ensures var s := GapsText(gs) + t; s != "" && (IsSpace(s[0]) || s[0] == '/' || s[0] == t[0])
  {
    if gs != [] {
      var g := gs[0];
      assert (GapsText(gs) + t)[0] == GapText(g)[0];
    }
  }

  lemma ItemsStart(items: seq<Item>, rest: string)
    requires items != [] && ItemsFit(items)
    ensures ItemsText(items) != ""
    ensures var s := ItemsText(items) + rest; s != "" && s[0] != ']'
  {
    var i := items[0];
    NodeStart(i.node);
    GapsStart(i.before, NodeText(i.node));
    assert (ItemsText(items) + rest)[0] == (GapsText(i.before) + NodeText(i.node))[0];
  }

  lemma MembersStart(members: seq<Member>, rest: string)
    requires members != []
    ensures MembersText(members) != ""
    ensures var s := MembersText(members) + rest; s != "" && s[0] != '}'
  {
    var m, sep := members[0], if |members| == 1 then "}" else "," + MembersText(members[1..]);
    var u := QuoteText(m.key) + (GapsText(m.after) + (":" + (ItemText(m.value) + sep)));
    assert u[0] == '"' && MembersText(members) == GapsText(m.before) + u;
    GapsStart(m.before, u);
  }

  lemma ReadsSeparator(close: char, gs: seq<Gap>, more: string)
    requires GapsFit(gs) && (close == ']' || close == '}')
    ensures ReadSeparator(close, GapsText(gs) + ([close] + more)) == Ok(true, more)
    ensures ReadSeparator(close, GapsText(gs) + ("," + more)) == Ok(false, more)
  {
    EatUpTo(gs, [close] + more);
    EatUpTo(gs, "," + more);
    assert ([close] + more)[1..] == more && ("," + more)[1..] == more;
  }

  /** The text of an item and a separator after it. */
  lemma ItemThen(i: Item, sep: string)
    requires sep != "" && !IsNumberChar(sep[0])
    ensures ItemText(i) + sep == GapsText(i.before) + (NodeText(i.node) + (GapsText(i.after) + sep))
    ensures EndsNumber(GapsText(i.after) + sep)
  {
    Assoc(GapsText(i.before), NodeText(i.node) + GapsText(i.after), sep);
    Assoc(NodeText(i.node), GapsText(i.after), sep);
    GapsStart(i.after, sep);
  }

  lemma ItemsThen(items: seq<Item>, rest: string)
    requires items != []
    ensures ItemsText(items) + rest
         == ItemText(items[0]) + (if |items| == 1 then "]" + rest else "," + (ItemsText(items[1..]) + rest))
  {
    var tail := if |items| == 1 then "]" else "," + ItemsText(items[1..]);
    Assoc(ItemText(items[0]), tail, rest);
    if |items| > 1 { Assoc(",", ItemsText(items[1..]), rest); }
  }

  /** The steps of one item, each from where the one before has stopped. */
  lemma ItemSteps(acc: seq<Json>, text: string, v: Json, r1: string, done: bool, r2: string)
    requires Read(text) == Ok(v, r1) && ReadSeparator(']', r1) == Ok(done, r2)
    ensures ReadItems(acc, text) == if done then Ok(List(acc + [v]), r2) else ReadItems(acc + [v], r2)
  {
  }

  lemma {:induction false} ReadsFirstItem(acc: seq<Json>, i: Item, last: bool, more: string)
    requires ItemFits(i)
    ensures ReadItems(acc, ItemText(i) + (if last then "]" + more else "," + more))
         == if last then Ok(List(acc + [NodeValue(i.node)]), more) else ReadItems(acc + [NodeValue(i.node)], more)
    decreases i
  {
    var sep := if last then "]" + more else "," + more;
    ItemThen(i, sep);
    ReadsSpelled(i.before, i.node, GapsText(i.after) + sep);
    ReadsSeparator(']', i.after, more);
    ItemSteps(acc, ItemText(i) + sep, NodeValue(i.node), GapsText(i.after) + sep, last, more);
  }

  lemma {:induction false} ReadsItems(acc: seq<Json>, items: seq<Item>, rest: string)
    requires items != [] && ItemsFit(items)
    ensures ReadItems(acc, ItemsText(items) + rest) == Ok(List(acc + ItemValues(items)), rest)
    decreases items, 0
  {
    var last := |items| == 1;
    var acc' := acc + [NodeValue(items[0].node)];
    ItemsThen(items, rest);
    ReadsFirstItem(acc, items[0], last, if last then rest else ItemsText(items[1..]) + rest);
    assert acc + ItemValues(items) == acc' + ItemValues(items[1..]);
    if last {
      assert acc' + ItemValues(items[1..]) == acc';
    } else {
      ReadsItems(acc', items[1..], rest);
    }
  }

  lemma ReadsKey(gs: seq<Gap>, key: seq<BytePiece>, rest: string)
    requires GapsFit(gs)
    ensures Read(GapsText(gs) + (QuoteText(key) + rest)) == Ok(Str(Characters(key)), rest)
  {
    var t := QuoteText(key) + rest;
    assert t[0] == '"';
    EatUpTo(gs, t);
    ReadsQuote(key, rest);
    assert NodeValue(Quote(key)) == Str(Characters(key));
  }

  lemma ReadsColon(k: string, gs: seq<Gap>, more: string)
    requires GapsFit(gs)
    ensures ReadColon(Str(k), GapsText(gs) + (":" + more)) == Ok(k, more)
  {
    EatUpTo(gs, ":" + more);
    assert (":" + more)[1..] == more;
  }

  lemma Glue(a: string, b: string, c: string, d: string, e: string, rest: string)
    ensures (a + (b + (c + (":" + (d + e))))) + rest == a + (b + (c + (":" + (d + (e + rest)))))
  {
    var four := d + e;
    var three := ":" + four;
    var two := c + three;
    Assoc(d, e, rest);
    Assoc(":", four, rest);
    Assoc(c, three, rest);
    Assoc(b, two, rest);
    Assoc(a, b + two, rest);
  }

  lemma MembersThen(members: seq<Member>, rest: string)
    requires members != []
    ensures MembersText(members) + rest
         == MemberThen(members[0], if |members| == 1 then "}" + rest else "," + (MembersText(members[1..]) + rest))
  {
    var m := members[0];
    var tail := if |members| == 1 then "}" else "," + MembersText(members[1..]);
    if |members| > 1 { Assoc(",", MembersText(members[1..]), rest); }
    Glue(GapsText(m.before), QuoteText(m.key), GapsText(m.after), ItemText(m.value), tail, rest);
  }

  /** The value of a member: the gaps in front of it are eaten first, and then it is read. */
  lemma ReadsMemberValue(i: Item, tail: string)
    requires ItemFits(i) && NodeText(i.node) != ""
    requires ReadValue(NodeText(i.node) + tail) == Ok(NodeValue(i.node), tail)
    ensures EatWhitespace(GapsText(i.before) + (NodeText(i.node) + tail)) == Ok((), NodeText(i.node) + tail)
    ensures Read(NodeText(i.node) + tail) == Ok(NodeValue(i.node), tail)
  {
    var t := NodeText(i.node) + tail;
    NodeStart(i.node);
    assert t[0] == NodeText(i.node)[0];
    EatUpTo(i.before, t);
  }

  /** The steps of one member, each from where the one before has stopped. */
  lemma MemberSteps(acc: map<string, Json>, text: string, k: string, r1: string, r2: string, r3: string,
                    v: Json, r4: string, done: bool, r5: string)
    requires Read(text) == Ok(Str(k), r1) && ReadColon(Str(k), r1) == Ok(k, r2)
    requires EatWhitespace(r2) == Ok((), r3) && Read(r3) == Ok(v, r4) && ReadSeparator('}', r4) == Ok(done, r5)
    ensures ReadMembers(acc, text) == if done then Ok(Dict(acc[k := v]), r5) else ReadMembers(acc[k := v], r5)
  {
  }

  lemma {:induction false} ReadsFirstMember(acc: map<string, Json>, m: Member, last: bool, more: string)
    requires GapsFit(m.before) && GapsFit(m.after) && ItemFits(m.value)
    ensures var acc' := acc[Characters(m.key) := NodeValue(m.value.node)];
      ReadMembers(acc, MemberThen(m, if last then "}" + more else "," + more))
      == if last then Ok(Dict(acc'), more) else ReadMembers(acc', more)
    decreases m
  {
    var i, sep := m.value, if last then "}" + more else "," + more;
    var tail := GapsText(i.after) + sep;
    var text := ItemText(i) + sep;
    ReadsKey(m.before, m.key, GapsText(m.after) + (":" + text));
    ReadsColon(Characters(m.key), m.after, text);
    ItemThen(i, sep);
    ReadsNode(i.node, tail);
    NodeStart(i.node);
    ReadsMemberValue(i, tail);
    ReadsSeparator('}', i.after, more);
    MemberSteps(acc, MemberThen(m, sep), Characters(m.key), GapsText(m.after) + (":" + text), text,
                NodeText(i.node) + tail, NodeValue(i.node), tail, last, more);
  }

  lemma UnionStep<K, V>(a: map<K, V>, k: K, v: V, b: map<K, V>)
    ensures a + (map[k := v] + b) == a[k := v] + b
    ensures a + (map[k := v] + map[]) == a[k := v]
  {
  }

  lemma EntriesStep(acc: map<string, Json>, members: seq<Member>)
    requires members != []
    ensures var acc' := acc[Characters(members[0].key) := NodeValue(members[0].value.node)];
      && acc + Entries(members) == acc' + Entries(members[1..])
      && (|members| == 1 ==> acc + Entries(members) == acc')
  {
    UnionStep(acc, Characters(members[0].key), NodeValue(members[0].value.node), Entries(members[1..]));
  }

  lemma {:induction false} ReadsMembers(acc: map<string, Json>, members: seq<Member>, rest: string)
    requires members != [] && MembersFit(members)
    ensures ReadMembers(acc, MembersText(members) + rest) == Ok(Dict(acc + Entries(members)), rest)
    decreases members, 0
  {
    var m, last := members[0], |members| == 1;
    var acc' := acc[Characters(m.key) := NodeValue(m.value.node)];
    MembersThen(members, rest);
    ReadsFirstMember(acc, m, last, if last then rest else MembersText(members[1..]) + rest);
    EntriesStep(acc, members);
    if !last {
      ReadsMembers(acc', members[1..], rest);
    }
  }
}
