/** What the writer writes is a spelling of the value, the shortest of its kind. So the reader
    inverts the writer, and no proper prefix of a written value can be read. */
module JsonRoundTrip {
  import Wrappers
  import JsonSyntax
  import opened JsonText
  import opened JsonExtension
  import opened JsonSpelling
  import opened JsonAccepted
  import opened JsonWriter

  // ----- numbers and strings as trees

  /** The decimal digits without superfluous zeros. */
  function Digits(n: nat): (ds: seq<JsonSyntax.Digit>)
    ensures ds != [] && (ds[0] == 0 ==> n == 0)
    ensures JsonSyntax.Decimal(ds) == n
  {
    if n < 10 then [n] else Digits(n / 10) + [n % 10]
  }

  lemma {:induction false} NatSpells(n: nat)
    ensures JsonSyntax.DigitsText(Digits(n)) == NatText(n)
  {
    if n >= 10 {
      NatSpells(n / 10);
      assert Digits(n)[..|Digits(n)| - 1] == Digits(n / 10);
    }
    DigitTextBack(DigitOf(n % 10));
  }

  /** The characters that stand after a backslash: those that a literal cannot contain or that
      have a letter of their own, and the solidus on demand. */
  predicate NeedsBackslash(c: char, escapeSlash: bool) {
    c as int in {8, 9, 10, 12, 13, 34, 92} || (c as int == 47 && escapeSlash)
  }

  ghost predicate SpellsChar(p: JsonSyntax.Piece, c: char, escapeSlash: bool) {
    !p.Code? && JsonSyntax.PieceChar(p) == c && (p.Short? <==> NeedsBackslash(c, escapeSlash))
  }

  /** The letter of an escape tells its character: there is one way to write each character. */
  lemma EscapeCharSpells(c: char, escapeSlash: bool) returns (p: JsonSyntax.BytePiece)
    ensures SpellsChar(p, c, escapeSlash) && JsonSyntax.PieceText(p) == EscapeChar(c, escapeSlash)
  {
    var e := EscapeChar(c, escapeSlash);
    p := if |e| == 1 then JsonSyntax.Plain(c) else JsonSyntax.Short(e[1]);
  }

  lemma {:induction false} EscapeSpells(s: string, escapeSlash: bool) returns (ps: seq<JsonSyntax.BytePiece>)
    ensures JsonSyntax.PiecesText(ps) == Escape(s, escapeSlash) && JsonSyntax.Characters(ps) == s
    ensures |ps| == |s| && forall i :: 0 <= i < |s| ==> SpellsChar(ps[i], s[i], escapeSlash)
  {
    ps := [];
    if s != "" {
      var p := EscapeCharSpells(s[0], escapeSlash);
      var more := EscapeSpells(s[1..], escapeSlash);
      ps := [p] + more;
      assert ps[1..] == more && s == [s[0]] + s[1..];
    }
  }

  // ----- values

  /** The first character of a written value is neither white space nor the start of a comment. */
  lemma WriteStart(v: Value, escapeSlash: bool)
    ensures Write(v, escapeSlash) != ""
    ensures var c := Write(v, escapeSlash)[0];
      !IsSpace(c) && c != '/' && c != ']' && c != '}' && ((c == '-' || IsDigit(c)) <==> v.Number?)
      && ((c == '"') <==> v.ByteString?)
  {
  }

  ghost predicate Literally(ps: seq<JsonSyntax.Piece>, escapeSlash: bool) {
    forall p :: p in ps ==> !p.Code? && SpellsChar(p, JsonSyntax.PieceChar(p), escapeSlash)
  }

  /** No gap anywhere, no digit and no backslash more than is needed. */
  ghost predicate Compact(n: JsonSyntax.Node, escapeSlash: bool) {
    match n
    case Number(_, whole, fraction) => whole != [] && (whole[0] == 0 ==> |whole| == 1) && fraction.None?
    case Quote(pieces) => Literally(pieces, escapeSlash)
    case Array(items) => forall i :: 0 <= i < |items| ==> CompactItem(items[i], escapeSlash)
    case Object(members) => forall i :: 0 <= i < |members| ==> CompactMember(members[i], escapeSlash)
    case _ => true
  }

  ghost predicate CompactItem(i: JsonSyntax.Item, escapeSlash: bool) {
    i.before == [] && i.after == [] && Compact(i.node, escapeSlash)
  }

  ghost predicate CompactMember(m: JsonSyntax.Member, escapeSlash: bool) {
    m.before == [] && m.after == [] && Literally(m.key, escapeSlash) && CompactItem(m.value, escapeSlash)
  }

  /** The written text as a tree. */
  lemma {:induction false} WriteSpells(v: Value, escapeSlash: bool) returns (n: JsonSyntax.Node)
    ensures JsonSyntax.Fits(n) && Compact(n, escapeSlash)
    ensures JsonSyntax.NodeText(n) == Write(v, escapeSlash) && JsonSyntax.NodeValue(n) == Meaning(v)
    decreases v, 1
  {
    match v {
      case None => n := JsonSyntax.NullWord;
      case Truth(b) => n := if b then JsonSyntax.TrueWord else JsonSyntax.FalseWord;
      case Number(i) => n := IntSpells(i);
      case ByteString(s) => n := QuotedSpells(s, escapeSlash);
      case Array(items) => n := ListSpells(items, escapeSlash);
      case Object(members) => n := DictSpells(members, escapeSlash);
    }
  }

  lemma IntSpells(i: int) returns (n: JsonSyntax.Node)
    ensures JsonSyntax.Fits(n) && Compact(n, false) && Compact(n, true)
    ensures JsonSyntax.NodeText(n) == IntText(i) && JsonSyntax.NodeValue(n) == Int(i)
  {
    var m: nat := if i < 0 then -i else i;
    NatSpells(m);
    n := JsonSyntax.Number(i < 0, Digits(m), Wrappers.None);
    assert NatText(m) + "" == NatText(m) && "" + NatText(m) == NatText(m);
  }

  lemma QuotedSpells(s: string, escapeSlash: bool) returns (n: JsonSyntax.Node)
    ensures JsonSyntax.Fits(n) && Compact(n, escapeSlash)
    ensures JsonSyntax.NodeText(n) == Quoted(s, escapeSlash) && JsonSyntax.NodeValue(n) == Str(s)
  {
    var ps := EscapeSpells(s, escapeSlash);
    n := JsonSyntax.Quote(ps);
    Assoc("\"", Escape(s, escapeSlash), "\"");
  }

  lemma {:induction false} ListSpells(items: seq<Value>, escapeSlash: bool) returns (n: JsonSyntax.Node)
    ensures JsonSyntax.Fits(n) && Compact(n, escapeSlash)
    ensures JsonSyntax.NodeText(n) == "[" + WriteItems(items, escapeSlash) + "]"
    ensures JsonSyntax.NodeValue(n) == List(Meanings(items))
    decreases items, 1
  {
    if items == [] {
      n := JsonSyntax.Array([]);
    } else {
      var trees := ItemsSpell(items, escapeSlash);
      n := JsonSyntax.Array(trees);
      Assoc("[", WriteItems(items, escapeSlash), "]");
    }
  }

  lemma {:induction false} ItemsSpell(items: seq<Value>, escapeSlash: bool) returns (r: seq<JsonSyntax.Item>)
    requires items != []
    ensures |r| == |items| && JsonSyntax.ItemsFit(r) && JsonSyntax.ItemValues(r) == Meanings(items)
    ensures forall i :: 0 <= i < |r| ==> CompactItem(r[i], escapeSlash)
    ensures JsonSyntax.ItemsText(r) == WriteItems(items, escapeSlash) + "]"
    decreases items, 0
  {
    var n := WriteSpells(items[0], escapeSlash);
    var i := JsonSyntax.Item([], n, []);
    ItemAlone(n);
    var more := [];
    if |items| > 1 { more := ItemsSpell(items[1..], escapeSlash); }
    r := [i] + more;
    assert r[1..] == more;
    WrittenItems(items, escapeSlash);
  }

  lemma ItemAlone(n: JsonSyntax.Node)
    requires JsonSyntax.Fits(n)
    ensures var i := JsonSyntax.Item([], n, []);
      JsonSyntax.ItemFits(i) && JsonSyntax.ItemText(i) == JsonSyntax.NodeText(n)
  {
    assert JsonSyntax.NodeText(n) + "" == JsonSyntax.NodeText(n);
    assert "" + JsonSyntax.NodeText(n) == JsonSyntax.NodeText(n);
  }

  lemma WrittenItems(items: seq<Value>, escapeSlash: bool)
    requires items != []
    ensures WriteItems(items, escapeSlash) + "]"
         == Write(items[0], escapeSlash)
            + (if |items| == 1 then "]" else "," + (WriteItems(items[1..], escapeSlash) + "]"))
  {
    GlueItem(Write(items[0], escapeSlash), WriteItems(items[1..], escapeSlash), "]");
  }

  lemma GlueItem(item: string, more: string, close: string)
    ensures item + "" + "" + close == item + close
    ensures item + "," + more + close == item + ("," + (more + close))
  {
  }

  lemma {:induction false} DictSpells(members: seq<Member>, escapeSlash: bool) returns (n: JsonSyntax.Node)
    ensures JsonSyntax.Fits(n) && Compact(n, escapeSlash)
    ensures JsonSyntax.NodeText(n) == "{" + WriteMembers(members, escapeSlash) + "}"
    ensures JsonSyntax.NodeValue(n) == Dict(Insert(map[], members))
    decreases members, 1
  {
    if members == [] {
      n := JsonSyntax.Object([]);
    } else {
      var trees := MembersSpell(map[], members, escapeSlash);
      n := JsonSyntax.Object(trees);
      Assoc("{", WriteMembers(members, escapeSlash), "}");
      assert map[] + JsonSyntax.Entries(trees) == JsonSyntax.Entries(trees);
    }
  }

  lemma {:induction false} MemberSpells(m: Member, escapeSlash: bool) returns (r: JsonSyntax.Member)
    ensures JsonSyntax.MembersFit([r]) && CompactMember(r, escapeSlash)
    ensures JsonSyntax.Characters(r.key) == m.key && JsonSyntax.NodeValue(r.value.node) == Meaning(m.value)
    ensures forall sep :: JsonSyntax.MemberThen(r, sep) == WriteMemberText(m, escapeSlash) + sep
    decreases m
  {
    var key := EscapeSpells(m.key, escapeSlash);
    var n := WriteSpells(m.value, escapeSlash);
    ItemAlone(n);
    r := JsonSyntax.Member([], key, [], JsonSyntax.Item([], n, []));
    forall sep ensures JsonSyntax.MemberThen(r, sep) == WriteMemberText(m, escapeSlash) + sep {
      Assoc("\"", Escape(m.key, escapeSlash), "\"");
      GlueMember(Quoted(m.key, escapeSlash), Write(m.value, escapeSlash), sep);
    }
  }

  lemma GlueMember(key: string, value: string, sep: string)
    ensures "" + (key + ("" + (":" + (value + sep)))) == key + ":" + value + sep
  {
  }

  lemma {:induction false} MembersSpell(acc: map<string, Json>, members: seq<Member>, escapeSlash: bool)
    returns (r: seq<JsonSyntax.Member>)
    requires members != []
    ensures |r| == |members| && JsonSyntax.MembersFit(r) && acc + JsonSyntax.Entries(r) == Insert(acc, members)
    ensures forall i :: 0 <= i < |r| ==> CompactMember(r[i], escapeSlash)
    ensures JsonSyntax.MembersText(r) == WriteMembers(members, escapeSlash) + "}"
    decreases members, 0
  {
    var m := MemberSpells(members[0], escapeSlash);
    var acc' := acc[members[0].key := Meaning(members[0].value)];
    var more := [];
    if |members| > 1 { more := MembersSpell(acc', members[1..], escapeSlash); }
    r := [m] + more;
    assert r[1..] == more;
    EntriesStep(acc, r);
    WrittenMembers(members, escapeSlash);
  }

  lemma WrittenMembers(members: seq<Member>, escapeSlash: bool)
    requires members != []
    ensures WriteMembers(members, escapeSlash) + "}"
         == WriteMemberText(members[0], escapeSlash)
            + (if |members| == 1 then "}" else "," + (WriteMembers(members[1..], escapeSlash) + "}"))
  {
    GlueItem(WriteMemberText(members[0], escapeSlash), WriteMembers(members[1..], escapeSlash), "}");
  }

  // ----- the round trip

  lemma NoGap(s: string)
    ensures JsonSyntax.GapsText([]) + s == s && JsonSyntax.GapsFit([])
  {
  }

  lemma WriteIsSpelled(v: Value, escapeSlash: bool)
    ensures JsonSyntax.Spells(Write(v, escapeSlash), Meaning(v))
  {
    var n := WriteSpells(v, escapeSlash);
    NoGap(Write(v, escapeSlash));
    assert JsonSyntax.SpelledBy(Write(v, escapeSlash), Meaning(v), [], n);
  }

  /** A value written in a place where a number is not continued is read back, and exactly its
      own characters are consumed. */
  lemma ReadInvertsWrite(v: Value, escapeSlash: bool, rest: string)
    requires v.Number? ==> rest == "" || !IsNumberChar(rest[0])
    ensures Read(Write(v, escapeSlash) + rest) == Ok(Meaning(v), rest)
  {
    WriteIsSpelled(v, escapeSlash);
    ReadIffSpelled(Write(v, escapeSlash), Meaning(v), rest);
  }

  /** The round trip in both directions: it fails exactly for a number that the following text
      continues. */
  lemma RoundTrip(v: Value, escapeSlash: bool, rest: string)
    ensures Read(Write(v, escapeSlash) + rest) == Ok(Meaning(v), rest)
       <==> !(v.Number? && rest != "" && IsNumberChar(rest[0]))
  {
    WriteIsSpelled(v, escapeSlash);
    ReadIffSpelled(Write(v, escapeSlash), Meaning(v), rest);
  }
  // ----- what the dict items mean

  ghost predicate HasKey(members: seq<Member>, k: string) {
    exists i :: 0 <= i < |members| && members[i].key == k
  }

  lemma {:induction false} InsertLookup(acc: map<string, Json>, members: seq<Member>, k: string)
    ensures var r := Insert(acc, members);
      && (k in r <==> k in acc || HasKey(members, k))
      && (k in r && !HasKey(members, k) ==> r[k] == acc[k])
    decreases members
  {
    if members != [] {
      var rest := members[1..];
      InsertLookup(acc[members[0].key := Meaning(members[0].value)], rest, k);
      assert members[0] == members[0] && forall i :: 0 <= i < |rest| ==> rest[i] == members[i + 1];
      assert HasKey(members, k) <==> members[0].key == k || HasKey(rest, k) by {
        if i :| 0 <= i < |members| && members[i].key == k && i > 0 { assert rest[i - 1].key == k; }
      }
    }
  }

  predicate DistinctKeys(members: seq<Member>) {
    forall i, j :: 0 <= i < j < |members| ==> members[i].key != members[j].key
  }

  /** Dict items with distinct keys mean the same dict in whatever order they are written: each
      key is bound to the value written with it. */
  lemma {:induction false} InsertMeaning(acc: map<string, Json>, members: seq<Member>, i: nat)
    requires DistinctKeys(members) && i < |members|
    ensures members[i].key in Insert(acc, members)
    ensures Insert(acc, members)[members[i].key] == Meaning(members[i].value)
    decreases members
  {
    var acc' := acc[members[0].key := Meaning(members[0].value)];
    if i == 0 {
      InsertLookup(acc', members[1..], members[0].key);
    } else {
      InsertMeaning(acc', members[1..], i - 1);
    }
  }

  /** In whatever order a dict yields its items, the text reads back as the same dict. */
  lemma ItemOrderIsForgotten(a: seq<Member>, b: seq<Member>, escapeSlash: bool, rest: string)
    requires DistinctKeys(a) && DistinctKeys(b)
    requires forall m :: m in a <==> m in b
    ensures Read(Write(Object(a), escapeSlash) + rest) == Read(Write(Object(b), escapeSlash) + rest)
  {
    var x, y := Insert(map[], a), Insert(map[], b);
    forall k | HasKey(a, k) || HasKey(b, k)
      ensures k in x && k in y && x[k] == y[k]
    {
      var m: Member;
      if HasKey(a, k) {
        var i :| 0 <= i < |a| && a[i].key == k;
        m := a[i];
      } else {
        var i :| 0 <= i < |b| && b[i].key == k;
        m := b[i];
      }
      assert m in a && m in b;
      var i :| 0 <= i < |a| && a[i] == m;
      var j :| 0 <= j < |b| && b[j] == m;
      InsertMeaning(map[], a, i);
      InsertMeaning(map[], b, j);
    }
    assert x == y by {
      forall k ensures k in x <==> k in y {
        InsertLookup(map[], a, k);
        InsertLookup(map[], b, k);
      }
      forall k | k in x ensures x[k] == y[k] {
        InsertLookup(map[], a, k);
      }
    }
    ReadInvertsWrite(Object(a), escapeSlash, rest);
    ReadInvertsWrite(Object(b), escapeSlash, rest);
  }

  // ----- prefixes

  /** The kind of a value shows in its first character. */
  lemma NumberStart(s: string)
    requires s != "" && !IsSpace(s[0]) && s[0] != '/'
    requires Read(s).Ok? && Read(s).value.IsNumber()
    ensures s[0] == '-' || IsDigit(s[0])
  {
    assert EatWhitespace(s) == Ok((), s);
  }

  /** No proper prefix of a written list, dict, string, true, false or null is readable. */
  lemma PrefixFree(v: Value, escapeSlash: bool, p: string, x: string)
    requires !v.Number?
    requires Write(v, escapeSlash) == p + x && x != ""
    ensures Read(p).Err?
  {
    if Read(p).Ok? {
      assert p != "";
      WriteStart(v, escapeSlash);
      assert p[0] == (p + x)[0];
      if Read(p).value.IsNumber() {
        NumberStart(p);
      }
      assert Write(v, escapeSlash) + "" == p + x;
      ReadInvertsWrite(v, escapeSlash, "");
      ReadExtends(p, x);
    }
  }
}
