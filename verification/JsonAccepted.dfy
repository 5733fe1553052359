/** Every text that the reader accepts is a spelling of the value that it returns; so it accepts
    exactly the spellings. */
module JsonAccepted {
  import opened Wrappers
  import opened JsonText
  import opened JsonSyntax
  import opened JsonSpelling

  // ----- gaps

  lemma {:induction false} LineNoteOf(s: string) returns (body: string, ending: char)
    requires LineComment(s) != ""
    ensures (ending == '\r' || ending == '\n') && '\r' !in body && '\n' !in body
    ensures s == body + ([ending] + LineComment(s))
  {
    if s[0] == '\r' || s[0] == '\n' {
      body, ending := "", s[0];
    } else {
      body, ending := LineNoteOf(s[1..]);
      body := [s[0]] + body;
    }
  }

  lemma {:induction false} BlockNoteOf(s: string) returns (body: string)
    requires BlockComment(s).Ok?
    ensures NoMarks(body + "*")
    ensures s == body + ("*/" + BlockComment(s).rest)
  {
    if s[0] == '*' && |s| > 1 && s[1] == '/' {
      body := "";
    } else {
      var more := BlockNoteOf(s[1..]);
      assert s[1] == (more + "*")[0];
      body := [s[0]] + more;
      assert body + "*" == [s[0]] + (more + "*");
      NoMarksMore(s[0], more + "*");
    }
  }

  lemma NoMarksMore(c: char, t: string)
    requires NoMarks(t) && t != ""
    requires !(c == '*' && t[0] == '/') && !(c == '/' && t[0] == '*')
    ensures NoMarks([c] + t)
  {
    var u := [c] + t;
    forall i, j | 0 <= i && j == i + 1 < |u|
      ensures !(u[i] == '*' && u[j] == '/') && !(u[i] == '/' && u[j] == '*')
    {
      if i > 0 { assert u[i] == t[i - 1] && u[j] == t[j - 1]; }
    }
  }

  lemma NoteOf(s: string) returns (g: Gap)
    requires s != "" && s[0] == '/' && ReadComment(s).Ok? && ReadComment(s).rest != ""
    ensures GapFits(g) && s == GapText(g) + ReadComment(s).rest
  {
    if s[1] == '/' {
      var body, ending := LineNoteOf(s[2..]);
      g := LineNote(body, ending);
      assert s == "//" + s[2..];
      Assoc(body, [ending], ReadComment(s).rest);
      Assoc("//", body + [ending], ReadComment(s).rest);
    } else {
      var body := BlockNoteOf(s[2..]);
      g := BlockNote(body);
      assert s == "/*" + s[2..];
      Assoc(body, "*/", ReadComment(s).rest);
      Assoc("/*", body + "*/", ReadComment(s).rest);
    }
  }

  lemma GapBefore(g: Gap, more: seq<Gap>, rest: string)
    requires GapFits(g) && GapsFit(more)
    ensures GapsFit([g] + more) && GapText(g) + (GapsText(more) + rest) == GapsText([g] + more) + rest
  {
    Assoc(GapText(g), GapsText(more), rest);
    assert ([g] + more)[1..] == more;
  }

  lemma {:induction false} GapsOf(s: string) returns (gs: seq<Gap>)
    requires EatWhitespace(s).Ok? && EatWhitespace(s).rest != ""
    ensures GapsFit(gs) && s == GapsText(gs) + EatWhitespace(s).rest
    decreases |s|
  {
    if s[0] == '/' {
      var g := NoteOf(s);
      var more := GapsOf(ReadComment(s).rest);
      GapBefore(g, more, EatWhitespace(s).rest);
      gs := [g] + more;
    } else if IsSpace(s[0]) {
      var more := GapsOf(s[1..]);
      GapBefore(Blank(s[0]), more, EatWhitespace(s).rest);
      assert s == [s[0]] + s[1..];
      gs := [Blank(s[0])] + more;
    } else {
      gs := [];
    }
  }

  // ----- strings

  function HexDigitOf(c: char): HexDigit
    requires IsHex(c)
  {
    HexDigit(HexValue(c), 'A' <= c <= 'F')
  }

  lemma HexTextBack(c: char)
    requires IsHex(c)
    ensures HexText(HexDigitOf(c)) == c
  {
  }

  lemma PieceOf(s: string) returns (p: Piece)
    requires s != "" && s[0] != '"' && ReadChar(s).Ok?
    ensures s == PieceText(p) + ReadChar(s).rest && ReadChar(s).value == TextOfPiece(p)
  {
    if s[0] != '\\' {
      p := Plain(s[0]);
    } else if s[1] != 'u' {
      p := Short(s[1]);
    } else {
      HexTextBack(s[2]);
      HexTextBack(s[3]);
      HexTextBack(s[4]);
      HexTextBack(s[5]);
      p := Code(HexDigitOf(s[2]), HexDigitOf(s[3]), HexDigitOf(s[4]), HexDigitOf(s[5]));
    }
  }

  lemma CanJoinMore(acc: Text, p: Piece, more: seq<Piece>, rest: string)
    requires Join(acc, TextOfPiece(p), rest).Ok? && CanJoin(Join(acc, TextOfPiece(p), rest).value, more)
    ensures CanJoin(acc, [p] + more)
  {
    var ps := [p] + more;
    assert ps[1..] == more;
    BytesOfOne(ps);
    if acc.Bytes? && !p.Code? {
      if IsBytes(more) {
      } else {
        assert (acc.s + [PieceChar(p)])[|acc.s|] == PieceChar(p);
        assert forall i :: 0 <= i < |acc.s| ==> acc.s[i] == (acc.s + [PieceChar(p)])[i];
      }
    } else if !p.Code? {
      assert [PieceChar(p)][0] == PieceChar(p);
    }
  }

  lemma {:induction false} PiecesOf(acc: Text, s: string) returns (ps: seq<Piece>)
    requires ReadChars(acc, s).Ok?
    ensures CanJoin(acc, ps)
    ensures s == PiecesText(ps) + ("\"" + ReadChars(acc, s).rest) && ReadChars(acc, s).value == Joined(acc, ps)
    decreases |s|
  {
    if s[0] == '"' {
      ps := [];
      NothingJoined(acc);
    } else {
      var p := PieceOf(s);
      var r := ReadChar(s).rest;
      var acc' := Join(acc, TextOfPiece(p), r).value;
      var more := PiecesOf(acc', r);
      ps := [p] + more;
      assert ps[1..] == more;
      CanJoinMore(acc, p, more, r);
      JoinOne(acc, ps, r);
      Assoc(PieceText(p), PiecesText(more), "\"" + ReadChars(acc, s).rest);
    }
  }

  lemma QuoteOf(s: string) returns (n: Node)
    requires s != "" && s[0] == '"' && ReadValue(s).Ok?
    ensures n.Quote? && Fits(n) && s == NodeText(n) + ReadValue(s).rest && ReadValue(s).value == NodeValue(n)
  {
    var ps := PiecesOf(Bytes(""), s[1..]);
    n := Quote(ps);
    JoinedToNothing(ps);
    assert s == "\"" + s[1..];
    Assoc(PiecesText(ps), "\"", ReadValue(s).rest);
    Assoc("\"", PiecesText(ps) + "\"", ReadValue(s).rest);
  }

  // ----- numbers

  lemma DigitTextBack(c: char)
    requires IsDigit(c)
    ensures 0 <= DigitValue(c) < 10 && DigitText(DigitValue(c)) == c
  {
  }

  lemma {:induction false} DigitsOf(s: string) returns (ds: seq<Digit>)
    requires forall i :: 0 <= i < |s| ==> IsDigit(s[i])
    ensures DigitsText(ds) == s
  {
    if s == "" {
      ds := [];
    } else {
      var k := |s| - 1;
      var most := DigitsOf(s[..k]);
      DigitTextBack(s[k]);
      var last: Digit := DigitValue(s[k]);
      ds := most + [last];
      assert ds[..|ds| - 1] == most;
      assert s == s[..k] + [s[k]];
    }
  }

  lemma {:induction false} NoDotsBack(s: string)
    requires NumberChars(s) && Dots(s) == 0
    ensures forall i :: 0 <= i < |s| ==> IsDigit(s[i])
  {
    if s != "" {
      assert NumberChars(s[1..]);
      NoDotsBack(s[1..]);
      assert IsNumberChar(s[0]);
      assert forall i :: 0 < i < |s| ==> s[i] == s[1..][i - 1];
    }
  }

  lemma {:induction false} OneDot(s: string) returns (i: nat)
    requires Dots(s) == 1
    ensures i < |s| && s[i] == '.' && Dots(s[..i]) == 0 && Dots(s[i + 1..]) == 0
    ensures s == s[..i] + ("." + s[i + 1..])
  {
    if s[0] == '.' {
      i := 0;
    } else {
      var j := OneDot(s[1..]);
      i := j + 1;
      assert s[..i][1..] == s[1..][..j] && s[i + 1..] == s[1..][j + 1..];
      assert s[..i] + ("." + s[i + 1..]) == s;
    }
  }

  lemma MagnitudeOf(s: string) returns (whole: seq<Digit>, fraction: Maybe<seq<Digit>>)
    requires NumberChars(s) && Dots(s) <= 1
    ensures s == Magnitude(whole, fraction)
    ensures HasDigit(s) ==> whole != [] || (fraction.Some? && fraction.value != [])
    ensures s != "" && IsDigit(s[0]) ==> whole != []
    ensures fraction.Some? <==> Dots(s) == 1
  {
    if Dots(s) == 0 {
      NoDotsBack(s);
      whole := DigitsOf(s);
      fraction := None;
      assert s == DigitsText(whole) + "";
    } else {
      var i := OneDot(s);
      var left, right := s[..i], s[i + 1..];
      assert NumberChars(left) && NumberChars(right);
      NoDotsBack(left);
      NoDotsBack(right);
      whole := DigitsOf(left);
      var places := DigitsOf(right);
      fraction := Some(places);
      if left == "" && right == "" {
        assert s == "." && !IsDigit(s[0]);
      }
      if IsDigit(s[0]) { assert i > 0 && left != ""; }
    }
  }

  lemma TokenOf(token: string) returns (n: Node)
    requires token != "" && (token[0] == '-' || IsDigit(token[0])) && NumberChars(token[1..])
    requires HasDigit(token) && Dots(token) <= 1
    ensures n.Number? && Fits(n) && NodeText(n) == token
  {
    var negative := token[0] == '-';
    var m := if negative then token[1..] else token;
    assert NumberChars(m) by {
      if !negative { assert forall i :: 0 < i < |m| ==> m[i] == token[1..][i - 1]; }
    }
    assert token == (if negative then "-" else "") + m;
    if negative {
      var i :| 0 <= i < |token| && IsDigit(token[i]);
      assert i > 0 && m[i - 1] == token[i];
      DigitAt(m, i - 1);
    }
    var whole, fraction := MagnitudeOf(m);
    n := Number(negative, whole, fraction);
  }

  lemma {:induction false} SpanIsNumber(s: string)
    ensures NumberChars(s[..NumberSpan(s)]) && EndsNumber(s[NumberSpan(s)..])
  {
    if s != "" && IsNumberChar(s[0]) {
      SpanIsNumber(s[1..]);
      var k := NumberSpan(s[1..]);
      assert s[..k + 1] == [s[0]] + s[1..][..k] && s[k + 1..] == s[1..][k..];
    }
  }

  lemma NumberOf(s: string) returns (n: Node)
    requires s != "" && (s[0] == '-' || IsDigit(s[0])) && ReadNumber(s).Ok?
    ensures n.Number? && Fits(n) && s == NodeText(n) + ReadNumber(s).rest && ReadNumber(s).value == NodeValue(n)
    ensures EndsNumber(ReadNumber(s).rest)
  {
    var k := 1 + NumberSpan(s[1..]);
    SpanIsNumber(s[1..]);
    assert s[..k][1..] == s[1..][..k - 1] && s[k..] == s[1..][k - 1..];
    n := TokenOf(s[..k]);
    TokenRead(n.negative, n.whole, n.fraction, s[k..]);
  }

  // ----- values

  lemma {:induction false} WordOf(word: string, value: Json, s: string)
    requires ReadWord(word, value, s).Ok?
    ensures s == word + ReadWord(word, value, s).rest
  {
    if word != "" {
      WordOf(word[1..], value, s[1..]);
      assert s == [s[0]] + s[1..] && word == [word[0]] + word[1..];
    }
  }

  /** The spelling of a value that was read. */
  lemma {:induction false} SpellingOf(s: string) returns (gs: seq<Gap>, n: Node)
    requires Read(s).Ok?
    ensures GapsFit(gs) && Fits(n) && s == GapsText(gs) + (NodeText(n) + Read(s).rest)
    ensures Read(s).value == NodeValue(n) && (n.Number? ==> EndsNumber(Read(s).rest))
    decreases |s|, 1
  {
    gs := GapsOf(s);
    n := NodeOf(EatWhitespace(s).rest);
  }

  lemma {:induction false} NodeOf(t: string) returns (n: Node)
    requires t != "" && ReadValue(t).Ok?
    ensures Fits(n) && t == NodeText(n) + ReadValue(t).rest
    ensures ReadValue(t).value == NodeValue(n) && (n.Number? ==> EndsNumber(ReadValue(t).rest))
    decreases |t|, 0
  {
    if t[0] == '{' {
      n := ObjectOf(t);
    } else if t[0] == '[' {
      n := ArrayOf(t);
    } else if t[0] == '"' {
      n := QuoteOf(t);
    } else if t[0] == '-' || IsDigit(t[0]) {
      n := NumberOf(t);
    } else {
      n := ConstantOf(t);
    }
  }

  lemma ConstantOf(t: string) returns (n: Node)
    requires t != "" && (t[0] == 't' || t[0] == 'f' || t[0] == 'n') && ReadValue(t).Ok?
    ensures !n.Number? && Fits(n) && t == NodeText(n) + ReadValue(t).rest && ReadValue(t).value == NodeValue(n)
  {
    if t[0] == 't' {
      WordOf("true", Bool(true), t);
      n := TrueWord;
    } else if t[0] == 'f' {
      WordOf("false", Bool(false), t);
      n := FalseWord;
    } else {
      WordOf("null", Null, t);
      n := NullWord;
    }
  }

  lemma {:induction false} ArrayOf(t: string) returns (n: Node)
    requires t != "" && t[0] == '[' && ReadValue(t).Ok?
    ensures n.Array? && Fits(n) && t == NodeText(n) + ReadValue(t).rest && ReadValue(t).value == NodeValue(n)
    decreases |t|, -1
  {
    var inside := t[1..];
    assert t == "[" + inside;
    OpensArray(inside);
    if inside[0] == ']' {
      n := Array([]);
    } else {
      var items := ItemsOf([], inside);
      n := Array(items);
      assert [] + ItemValues(items) == ItemValues(items);
      Assoc("[", ItemsText(items), ReadValue(t).rest);
    }
  }

  lemma {:induction false} ObjectOf(t: string) returns (n: Node)
    requires t != "" && t[0] == '{' && ReadValue(t).Ok?
    ensures n.Object? && Fits(n) && t == NodeText(n) + ReadValue(t).rest && ReadValue(t).value == NodeValue(n)
    decreases |t|, -1
  {
    var inside := t[1..];
    assert t == "{" + inside;
    OpensObject(inside);
    if inside[0] == '}' {
      n := Object([]);
    } else {
      var members := MembersOf(map[], inside);
      n := Object(members);
      assert map[] + Entries(members) == Entries(members);
      Assoc("{", MembersText(members), ReadValue(t).rest);
    }
  }

  /** Gaps up to a character, and what follows that. */
  lemma GapsAndChar(s: string) returns (gs: seq<Gap>)
    requires EatWhitespace(s).Ok? && EatWhitespace(s).rest != ""
    ensures var t := EatWhitespace(s).rest; GapsFit(gs) && s == GapsText(gs) + ([t[0]] + t[1..])
  {
    gs := GapsOf(s);
    var t := EatWhitespace(s).rest;
    assert t == [t[0]] + t[1..];
  }

  lemma SeparatorOf(close: char, s: string) returns (gs: seq<Gap>)
    requires ReadSeparator(close, s).Ok?
    ensures GapsFit(gs)
    ensures var Ok(done, more) := ReadSeparator(close, s);
      s == GapsText(gs) + ((if done then [close] else ",") + more)
  {
    gs := GapsAndChar(s);
  }

  lemma {:induction false} ItemOf(acc: seq<Json>, s: string) returns (i: Item, done: bool, more: string)
    requires ReadItems(acc, s).Ok?
    ensures ItemFits(i) && s == ItemText(i) + ((if done then "]" else ",") + more) && |more| < |s|
    ensures var acc' := acc + [NodeValue(i.node)];
      ReadItems(acc, s) == if done then Ok(List(acc'), more) else ReadItems(acc', more)
    decreases |s|, 2
  {
    var r := Read(s).rest;
    var before, node := SpellingOf(s);
    var after := SeparatorOf(']', r);
    done, more := ReadSeparator(']', r).value, ReadSeparator(']', r).rest;
    i := Item(before, node, after);
    ItemThen(i, (if done then "]" else ",") + more);
  }

  lemma {:induction false} ItemsOf(acc: seq<Json>, s: string) returns (items: seq<Item>)
    requires ReadItems(acc, s).Ok?
    ensures items != [] && ItemsFit(items) && s == ItemsText(items) + ReadItems(acc, s).rest
    ensures ReadItems(acc, s).value == List(acc + ItemValues(items))
    decreases |s|, 3
  {
    var i, done, more := ItemOf(acc, s);
    var acc' := acc + [NodeValue(i.node)];
    var tail := [];
    if !done { tail := ItemsOf(acc', more); }
    items := [i] + tail;
    assert items[1..] == tail;
    assert acc + ItemValues(items) == acc' + ItemValues(tail);
    if done { assert acc' + ItemValues(tail) == acc'; }
    ItemsThen(items, ReadItems(acc, s).rest);
  }

  lemma KeyNode(n: Node) returns (key: seq<BytePiece>)
    requires NodeValue(n).Str?
    ensures NodeText(n) == QuoteText(key) && NodeValue(n) == Str(Characters(key))
  {
    key := n.pieces;
  }

  lemma ColonOf(k: Json, s: string) returns (gs: seq<Gap>)
    requires ReadColon(k, s).Ok?
    ensures GapsFit(gs) && k == Str(ReadColon(k, s).value) && s == GapsText(gs) + (":" + ReadColon(k, s).rest)
  {
    gs := GapsAndChar(s);
  }

  /** A key and the colon after it, up to where the value starts. */
  lemma {:induction false} KeyOf(s: string) returns (before: seq<Gap>, key: seq<BytePiece>, after: seq<Gap>)
    requires Read(s).Ok? && ReadColon(Read(s).value, Read(s).rest).Ok?
    ensures GapsFit(before) && GapsFit(after)
    ensures var Ok(k, r) := ReadColon(Read(s).value, Read(s).rest);
      k == Characters(key) && s == GapsText(before) + (QuoteText(key) + (GapsText(after) + (":" + r)))
    decreases |s|, 2
  {
    var n;
    before, n := SpellingOf(s);
    after := ColonOf(Read(s).value, Read(s).rest);
    key := KeyNode(n);
  }

  lemma {:induction false} MemberOf(acc: map<string, Json>, s: string) returns (m: Member, done: bool, more: string)
    requires ReadMembers(acc, s).Ok?
    ensures GapsFit(m.before) && GapsFit(m.after) && ItemFits(m.value)
    ensures s == MemberThen(m, (if done then "}" else ",") + more) && |more| < |s|
    ensures var acc' := acc[Characters(m.key) := NodeValue(m.value.node)];
      ReadMembers(acc, s) == if done then Ok(Dict(acc'), more) else ReadMembers(acc', more)
    decreases |s|, 3
  {
    var before, key, after := KeyOf(s);
    var r2 := ReadColon(Read(s).value, Read(s).rest).rest;
    var i: Item;
    i, done, more := MemberValueOf(r2);
    m := Member(before, key, after, i);
  }

  lemma {:induction false} MemberValueOf(s: string) returns (i: Item, done: bool, more: string)
    requires EatWhitespace(s).Ok? && Read(EatWhitespace(s).rest).Ok?
    requires ReadSeparator('}', Read(EatWhitespace(s).rest).rest).Ok?
    ensures ItemFits(i) && s == ItemText(i) + ((if done then "}" else ",") + more) && |more| < |s|
    ensures NodeValue(i.node) == Read(EatWhitespace(s).rest).value
    ensures ReadSeparator('}', Read(EatWhitespace(s).rest).rest) == Ok(done, more)
    decreases |s|, 3
  {
    var before := GapsOf(s);
    var t := EatWhitespace(s).rest;
    assert EatWhitespace(t) == Ok((), t);
    var node := NodeOf(t);
    var r := Read(t).rest;
    var after := SeparatorOf('}', r);
    done, more := ReadSeparator('}', r).value, ReadSeparator('}', r).rest;
    i := Item(before, node, after);
    ItemThen(i, (if done then "}" else ",") + more);
  }

  lemma {:induction false} MembersOf(acc: map<string, Json>, s: string) returns (members: seq<Member>)
    requires ReadMembers(acc, s).Ok?
    ensures members != [] && MembersFit(members) && s == MembersText(members) + ReadMembers(acc, s).rest
    ensures ReadMembers(acc, s).value == Dict(acc + Entries(members))
    decreases |s|, 4
  {
    var m, done, more := MemberOf(acc, s);
    var acc' := acc[Characters(m.key) := NodeValue(m.value.node)];
    var tail := [];
    if !done { tail := MembersOf(acc', more); }
    members := [m] + tail;
    assert members[1..] == tail;
    EntriesStep(acc, members);
    MembersThen(members, ReadMembers(acc, s).rest);
  }

  // ----- exactly the spellings

  /** How much of the text was taken. */
  function Taken(s: string): nat
    requires Read(s).Ok?
  {
    |s| - |Read(s).rest|
  }

  lemma Beginning(a: string, b: string)
    ensures (a + b)[..|a|] == a && (a + b)[|a|..] == b
  {
  }

  lemma TakenIsSpelled(s: string)
    requires Read(s).Ok?
    ensures var k := Taken(s); s[k..] == Read(s).rest && Spells(s[..k], Read(s).value)
    ensures Read(s).value.IsNumber() ==> EndsNumber(Read(s).rest)
  {
    var gs, n := SpellingOf(s);
    var text := GapsText(gs) + NodeText(n);
    Assoc(GapsText(gs), NodeText(n), Read(s).rest);
    Beginning(text, Read(s).rest);
    assert |s| == |text| + |Read(s).rest|;
    assert SpelledBy(text, Read(s).value, gs, n);
  }

  lemma SpelledIsTaken(text: string, value: Json, rest: string)
    requires Spells(text, value) && (value.IsNumber() ==> EndsNumber(rest))
    ensures Read(text + rest) == Ok(value, rest)
  {
    var gs, n :| SpelledBy(text, value, gs, n);
    Assoc(GapsText(gs), NodeText(n), rest);
    ReadsSpelled(gs, n, rest);
  }

  /** The main result: the reader takes `text` and leaves `rest` with `value` exactly when the text
      is a spelling of the value and, if it is a number, the rest does not continue it. */
  lemma ReadIffSpelled(text: string, value: Json, rest: string)
    ensures Read(text + rest) == Ok(value, rest)
       <==> Spells(text, value) && (value.IsNumber() ==> EndsNumber(rest))
  {
    if Read(text + rest) == Ok(value, rest) {
      TakenIsSpelled(text + rest);
      Beginning(text, rest);
    } else if Spells(text, value) && (value.IsNumber() ==> EndsNumber(rest)) {
      SpelledIsTaken(text, value, rest);
    }
  }

  /** The first `k` characters spell a value that the next one does not continue. */
  ghost predicate SpelledUpTo(s: string, k: nat) {
    k <= |s| && exists v :: Spells(s[..k], v) && (v.IsNumber() ==> EndsNumber(s[k..]))
  }

  lemma SpelledUpToIsTaken(s: string, k: nat)
    requires SpelledUpTo(s, k)
    ensures Read(s).Ok?
  {
    var v :| Spells(s[..k], v) && (v.IsNumber() ==> EndsNumber(s[k..]));
    assert s == s[..k] + s[k..];
    SpelledIsTaken(s[..k], v, s[k..]);
  }

  lemma TakenUpTo(s: string)
    requires Read(s).Ok?
    ensures SpelledUpTo(s, Taken(s))
  {
    TakenIsSpelled(s);
  }

  /** The reader raises exactly when no beginning of the text spells a value. */
  lemma AcceptedIsSpelled(s: string)
    ensures Read(s).Ok? <==> exists k :: SpelledUpTo(s, k)
  {
    if Read(s).Ok? {
      TakenUpTo(s);
    }
    if k: nat :| SpelledUpTo(s, k) {
      SpelledUpToIsTaken(s, k);
    }
  }
}
