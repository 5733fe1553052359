/** Writing JSON text: `JsonWriter` of streamingjson.py. */
module JsonWriter {
  import opened JsonText

  /** A Python object the writer round-trips. A dict lists its items in the order in which
      `items()` happens to yield them. */
  datatype Value =
    | None
    | Truth(b: bool)
    | Number(n: int)
    | ByteString(s: string)
    | Array(items: seq<Value>)
    | Object(members: seq<Member>)

  datatype Member = Member(key: string, value: Value)

  /** What the object is, once the order of the dict items is forgotten. */
  function Meaning(v: Value): Json
    decreases v
  {
    match v
    case None => Null
    case Truth(b) => Bool(b)
    case Number(n) => Int(n)
    case ByteString(s) => Str(s)
    case Array(items) => List(Meanings(items))
    case Object(members) => Dict(Insert(map[], members))
  }

  function Meanings(items: seq<Value>): (r: seq<Json>)
    ensures |r| == |items|
    ensures forall i :: 0 <= i < |items| ==> r[i] == Meaning(items[i])
    decreases items
  {
    if items == [] then [] else [Meaning(items[0])] + Meanings(items[1..])
  }

  /** The dict after `d[key] = value` for each member in turn. */
  function Insert(acc: map<string, Json>, members: seq<Member>): (r: map<string, Json>)
    decreases members
  {
    if members == [] then acc else Insert(acc[members[0].key := Meaning(members[0].value)], members[1..])
  }

  // ----- numbers

  function DigitOf(d: int): char
    requires 0 <= d < 10
  {
    (d + '0' as int) as char
  }

  /** `str(n)` of a natural number. */
  function NatText(n: nat): (s: string)
    ensures s != "" && forall i :: 0 <= i < |s| ==> IsDigit(s[i])
    ensures NatOf(s) == n
  {
    if n < 10 then [DigitOf(n)] else NatText(n / 10) + [DigitOf(n % 10)]
  }

  function IntText(n: int): (s: string)
    ensures s != "" && (IsDigit(s[0]) || s[0] == '-')
    ensures IntOf(s) == n
  {
    if n < 0 then "-" + NatText(-n) else NatText(n)
  }

  // ----- strings

  /** `s.replace(c, with)` for a pattern of one character. */
  function Replace(s: string, c: char, with: string): string {
    if s == "" then "" else (if s[0] == c then with else [s[0]]) + Replace(s[1..], c, with)
  }

  /** The successive replacements of the writer, in its order. */
  function EscapePasses(s: string, escapeSlash: bool): string {
    var s := Replace(s, '\\', "\\\\");
    var s := if escapeSlash then Replace(s, '/', "\\/") else s;
    var s := Replace(s, '"', "\\\"");
    var s := Replace(s, 8 as char, "\\b");
    var s := Replace(s, 12 as char, "\\f");
    var s := Replace(s, '\n', "\\n");
    var s := Replace(s, '\r', "\\r");
    Replace(s, '\t', "\\t")
  }

  /** The escape of one character, looked at on its own. */
  function EscapeChar(c: char, escapeSlash: bool): string {
    if c == '\\' then "\\\\"
    else if c == '/' && escapeSlash then "\\/"
    else if c == '"' then "\\\""
    else if c == 8 as char then "\\b"
    else if c == 12 as char then "\\f"
    else if c == '\n' then "\\n"
    else if c == '\r' then "\\r"
    else if c == '\t' then "\\t"
    else [c]
  }

  function Escape(s: string, escapeSlash: bool): string {
    if s == "" then "" else EscapeChar(s[0], escapeSlash) + Escape(s[1..], escapeSlash)
  }

  lemma {:induction false} ReplaceConcat(s: string, t: string, c: char, with: string)
    ensures Replace(s + t, c, with) == Replace(s, c, with) + Replace(t, c, with)
  {
    if s == "" {
      assert s + t == t;
    } else {
      assert (s + t)[0] == s[0] && (s + t)[1..] == s[1..] + t;
      ReplaceConcat(s[1..], t, c, with);
      assert Replace(s + t, c, with)
          == (if s[0] == c then with else [s[0]]) + (Replace(s[1..], c, with) + Replace(t, c, with));
    }
  }

  lemma EscapePassesConcat(s: string, t: string, escapeSlash: bool)
    ensures EscapePasses(s + t, escapeSlash) == EscapePasses(s, escapeSlash) + EscapePasses(t, escapeSlash)
  {
    ReplaceConcat(s, t, '\\', "\\\\");
    var x, y := Replace(s, '\\', "\\\\"), Replace(t, '\\', "\\\\");
    ReplaceConcat(x, y, '/', "\\/");
    x, y := if escapeSlash then Replace(x, '/', "\\/") else x, if escapeSlash then Replace(y, '/', "\\/") else y;
    ReplaceConcat(x, y, '"', "\\\"");
    x, y := Replace(x, '"', "\\\""), Replace(y, '"', "\\\"");
    ReplaceConcat(x, y, 8 as char, "\\b");
    x, y := Replace(x, 8 as char, "\\b"), Replace(y, 8 as char, "\\b");
    ReplaceConcat(x, y, 12 as char, "\\f");
    x, y := Replace(x, 12 as char, "\\f"), Replace(y, 12 as char, "\\f");
    ReplaceConcat(x, y, '\n', "\\n");
    x, y := Replace(x, '\n', "\\n"), Replace(y, '\n', "\\n");
    ReplaceConcat(x, y, '\r', "\\r");
    x, y := Replace(x, '\r', "\\r"), Replace(y, '\r', "\\r");
    ReplaceConcat(x, y, '\t', "\\t");
  }

  /** Passing a text of at most two characters through a replacement. */
  lemma ReplaceShort(s: string, c: char, with: string)
    requires 1 <= |s| <= 2
    ensures Replace(s, c, with) ==
            (if s[0] == c then with else [s[0]]) + (if |s| == 1 then "" else if s[1] == c then with else [s[1]])
  {
    assert Replace(s[1..], c, with)
        == if |s| == 1 then "" else (if s[1] == c then with else [s[1]]) + Replace(s[1..][1..], c, with);
  }

  /** One replacement on the text that the earlier ones have made of a single character. */
  lemma ReplaceStage(s: string, was: char, c: char, with: string)
    requires s == [was] || (|s| == 2 && was != c && s[0] != c && s[1] != c)
    ensures Replace(s, c, with) == if was == c then with else s
  {
    ReplaceShort(s, c, with);
  }

  lemma EscapePassesOne(c: char, escapeSlash: bool)
    ensures EscapePasses([c], escapeSlash) == EscapeChar(c, escapeSlash)
  {
    var s: string := [c];
    ReplaceStage(s, c, '\\', "\\\\");
    s := if c == '\\' then "\\\\" else s;
    if escapeSlash {
      ReplaceStage(s, c, '/', "\\/");
      s := if c == '/' then "\\/" else s;
    }
    ReplaceStage(s, c, '"', "\\\"");
    s := if c == '"' then "\\\"" else s;
    ReplaceStage(s, c, 8 as char, "\\b");
    s := if c == 8 as char then "\\b" else s;
    ReplaceStage(s, c, 12 as char, "\\f");
    s := if c == 12 as char then "\\f" else s;
    ReplaceStage(s, c, '\n', "\\n");
    s := if c == '\n' then "\\n" else s;
    ReplaceStage(s, c, '\r', "\\r");
    s := if c == '\r' then "\\r" else s;
    ReplaceStage(s, c, '\t', "\\t");
  }

  /** No replacement disturbs the result of an earlier one: together they escape each character
      exactly once. */
  lemma {:induction false} PassesEscapeEachCharacter(s: string, escapeSlash: bool)
    ensures EscapePasses(s, escapeSlash) == Escape(s, escapeSlash)
  {
    if s != "" {
      assert s == [s[0]] + s[1..];
      EscapePassesConcat([s[0]], s[1..], escapeSlash);
      EscapePassesOne(s[0], escapeSlash);
      PassesEscapeEachCharacter(s[1..], escapeSlash);
    }
  }

  // ----- values

  function Quoted(s: string, escapeSlash: bool): string {
    "\"" + Escape(s, escapeSlash) + "\""
  }

  function Write(v: Value, escapeSlash: bool): string
    decreases v
  {
    match v
    case None => "null"
    case Truth(b) => if b then "true" else "false"
    case Number(n) => IntText(n)
    case ByteString(s) => Quoted(s, escapeSlash)
    case Array(items) => "[" + WriteItems(items, escapeSlash) + "]"
    case Object(members) => "{" + WriteMembers(members, escapeSlash) + "}"
  }

  function WriteItems(items: seq<Value>, escapeSlash: bool): string
    decreases items
  {
    if items == [] then ""
    else Write(items[0], escapeSlash) + (if |items| > 1 then "," else "") + WriteItems(items[1..], escapeSlash)
  }

  function WriteMemberText(m: Member, escapeSlash: bool): string
    decreases m
  {
    Quoted(m.key, escapeSlash) + ":" + Write(m.value, escapeSlash)
  }

  function WriteMembers(members: seq<Member>, escapeSlash: bool): string
    decreases members
  {
    if members == [] then ""
    else
      WriteMemberText(members[0], escapeSlash)
      + (if |members| > 1 then "," else "") + WriteMembers(members[1..], escapeSlash)
  }

  // ----- the writer object

  lemma Regroup(a: string, b: string, c: string, d: string)
    ensures a + b + c + d == a + (b + c + d)
  {
  }

  /** `"".join(pieces)`. */
  function Flatten(pieces: seq<string>): string {
    if pieces == [] then "" else Flatten(pieces[..|pieces| - 1]) + pieces[|pieces| - 1]
  }

  lemma ItemText(items: seq<Value>, i: nat, escapeSlash: bool)
    requires i < |items|
    ensures WriteItems(items[i..], escapeSlash)
         == Write(items[i], escapeSlash) + (if i + 1 < |items| then "," else "")
            + WriteItems(items[i + 1..], escapeSlash)
  {
    assert items[i..][1..] == items[i + 1..];
  }

  lemma MemberText(members: seq<Member>, i: nat, escapeSlash: bool)
    requires i < |members|
    ensures WriteMembers(members[i..], escapeSlash)
         == WriteMemberText(members[i], escapeSlash) + (if i + 1 < |members| then "," else "")
            + WriteMembers(members[i + 1..], escapeSlash)
  {
    assert members[i..][1..] == members[i + 1..];
  }

  class Writer {
    var escapedForwardSlash: bool
    var results: seq<string>

    constructor () {
      escapedForwardSlash := false;
      results := [];
    }

    ghost function Output(): string reads this { Flatten(results) }

    method Append(s: string)
      modifies `results
      ensures Output() == old(Output()) + s
    {
      results := results + [s];
    }

    method WriteText(obj: string)
      modifies `results
      ensures Output() == old(Output()) + Quoted(obj, escapedForwardSlash)
    {
      ghost var before := Output();
      Append("\"");
      PassesEscapeEachCharacter(obj, escapedForwardSlash);
      var s := Replace(obj, '\\', "\\\\");
      if escapedForwardSlash {
        s := Replace(s, '/', "\\/");
      }
      s := Replace(s, '"', "\\\"");
      s := Replace(s, 8 as char, "\\b");
      s := Replace(s, 12 as char, "\\f");
      s := Replace(s, '\n', "\\n");
      s := Replace(s, '\r', "\\r");
      s := Replace(s, '\t', "\\t");
      Append(s);
      Append("\"");
      assert Output() == before + ("\"" + s + "\"");
    }

    method WriteValue(obj: Value)
      modifies `results
      ensures Output() == old(Output()) + Write(obj, escapedForwardSlash)
      decreases obj, 1
    {
      match obj {
        case Object(members) => WriteDict(members);
        case Array(items) => WriteList(items);
        case ByteString(s) => WriteText(s);
        case Number(n) => Append(IntText(n));
        case Truth(b) =>
          if b { Append("true"); } else { Append("false"); }
        case None => Append("null");
      }
    }

    method WriteList(items: seq<Value>)
      modifies `results
      ensures Output() == old(Output()) + ("[" + WriteItems(items, escapedForwardSlash) + "]")
      decreases items, 0
    {
      ghost var before := Output();
      var n := |items|;
      Append("[");
      for i := 0 to |items|
        invariant n == |items| - i
        invariant Output() + WriteItems(items[i..], escapedForwardSlash)
               == before + "[" + WriteItems(items, escapedForwardSlash)
      {
        ghost var sofar := Output();
        WriteValue(items[i]);
        n := n - 1;
        if n > 0 {
          Append(",");
        }
        ItemText(items, i, escapedForwardSlash);
        Regroup(sofar, Write(items[i], escapedForwardSlash), if n > 0 then "," else "",
                WriteItems(items[i + 1..], escapedForwardSlash));
      }
      assert WriteItems(items[|items|..], escapedForwardSlash) == "";
      Append("]");
      Regroup(before, "[", WriteItems(items, escapedForwardSlash), "]");
    }

    method WriteMember(m: Member)
      modifies `results
      ensures Output() == old(Output()) + WriteMemberText(m, escapedForwardSlash)
      decreases m
    {
      ghost var before := Output();
      WriteText(m.key);
      Append(":");
      WriteValue(m.value);
      Regroup(before, Quoted(m.key, escapedForwardSlash), ":", Write(m.value, escapedForwardSlash));
    }

    method WriteDict(members: seq<Member>)
      modifies `results
      ensures Output() == old(Output()) + ("{" + WriteMembers(members, escapedForwardSlash) + "}")
      decreases members, 0
    {
      ghost var before := Output();
      var n := |members|;
      Append("{");
      for i := 0 to |members|
        invariant n == |members| - i
        invariant Output() + WriteMembers(members[i..], escapedForwardSlash)
               == before + "{" + WriteMembers(members, escapedForwardSlash)
      {
        ghost var sofar := Output();
        WriteMember(members[i]);
        n := n - 1;
        if n > 0 {
          Append(",");
        }
        MemberText(members, i, escapedForwardSlash);
        Regroup(sofar, WriteMemberText(members[i], escapedForwardSlash), if n > 0 then "," else "",
                WriteMembers(members[i + 1..], escapedForwardSlash));
      }
      assert WriteMembers(members[|members|..], escapedForwardSlash) == "";
      Append("}");
      Regroup(before, "{", WriteMembers(members, escapedForwardSlash), "}");
    }

    /** The public entry: whatever the writer held before, the result is the text of `obj`. */
    method WriteObject(obj: Value, escapeSlash: bool) returns (text: string)
      modifies this
      ensures text == Write(obj, escapeSlash)
    {
      escapedForwardSlash := escapeSlash;
      results := [];
      WriteValue(obj);
      text := Flatten(results);
    }
  }
}
