/** Reading JSON text: what `JsonReader` of streamingjson.py computes, as functions from the
    unread text to a value and the text that is left. Python 2 byte strings are Dafny strings. */
module JsonText {

  /** A value as the reader builds it. A float keeps its literal; a string that contains a
      \u escape is a Python unicode object, here a sequence of code units. */
  datatype Json =
    | Null
    | Bool(b: bool)
    | Int(n: int)
    | Float(literal: string)
    | Str(s: string)
    | Unicode(units: seq<int>)
    | List(items: seq<Json>)
    | Dict(entries: map<string, Json>)
  {
    predicate IsNumber() { Int? || Float? }
  }

  /** The exceptions that leave the reader. */
  datatype ReadError = ReadException | StopIteration | UnicodeDecodeError

  /** The outcome of one reading step on a text: a value and the unread rest, or an exception. */
  datatype Parsed<+T> = Ok(value: T, rest: string) | Err(error: ReadError)
  {
    predicate IsFailure() { Err? }
    function PropagateFailure<U>(): Parsed<U> requires Err? { Err(error) }
    function Extract(): (T, string) requires Ok? { (value, rest) }
  }

  // ----- white space and comments

  predicate IsSpace(c: char) {
    c == '\t' || c == '\n' || c == 11 as char || c == 12 as char || c == '\r' || c == ' '
  }

  /** `str.lstrip()`. */
  function LStrip(s: string): (r: string)
    ensures |r| <= |s|
    ensures r == "" || !IsSpace(r[0])
  {
    if s != "" && IsSpace(s[0]) then LStrip(s[1..]) else s
  }

  /** A comment opened by `//`: up to and including the first line end, or all of the text. */
  function LineComment(s: string): (r: string)
    ensures |r| <= |s|
  {
    if s == "" then "" else if s[0] == '\r' || s[0] == '\n' then s[1..] else LineComment(s[1..])
  }

  /** A comment opened by `/*`: up to and including `*/`, refusing a nested opening. */
  function BlockComment(s: string): (r: Parsed<()>)
    ensures r.Ok? ==> |r.rest| < |s|
  {
    if s == "" then Err(ReadException)
    else if s[0] == '*' && |s| > 1 && s[1] == '/' then Ok((), s[2..])
    else if s[0] == '/' && |s| > 1 && s[1] == '*' then Err(ReadException)
    else BlockComment(s[1..])
  }

  function ReadComment(s: string): (r: Parsed<()>)
    requires s != "" && s[0] == '/'
    ensures r.Ok? ==> |r.rest| < |s|
  {
    if |s| == 1 then Err(StopIteration)
    else if s[1] == '/' then Ok((), LineComment(s[2..]))
    else if s[1] == '*' then BlockComment(s[2..])
    else Err(ReadException)
  }

  function EatWhitespace(s: string): (r: Parsed<()>)
    ensures r.Ok? ==> |r.rest| <= |s|
    ensures r.Ok? ==> r.rest == "" || (!IsSpace(r.rest[0]) && r.rest[0] != '/')
    decreases |s|
  {
    if s == "" then Ok((), s)
    else if s[0] == '/' then
      var (_, r) :- ReadComment(s);
      EatWhitespace(r)
    else if IsSpace(s[0]) then EatWhitespace(s[1..])
    else Ok((), s)
  }

  // ----- numbers

  predicate IsDigit(c: char) { '0' <= c <= '9' }

  predicate IsNumberChar(c: char) { IsDigit(c) || c == '.' }

  /** How many leading characters are digits or dots. */
  function NumberSpan(s: string): (k: nat)
    ensures k <= |s|
  {
    if s != "" && IsNumberChar(s[0]) then 1 + NumberSpan(s[1..]) else 0
  }

  function DigitValue(c: char): int { c as int - '0' as int }

  /** Decimal value of a run of digits. */
  function NatOf(s: string): int {
    if s == "" then 0 else 10 * NatOf(s[..|s| - 1]) + DigitValue(s[|s| - 1])
  }

  /** Python's `int(token)` on a token of digits with an optional minus sign. */
  function IntOf(token: string): int {
    if token != "" && token[0] == '-' then -NatOf(token[1..]) else NatOf(token)
  }

  function Dots(s: string): nat {
    if s == "" then 0 else (if s[0] == '.' then 1 else 0) + Dots(s[1..])
  }

  predicate HasDigit(s: string) { exists i :: 0 <= i < |s| && IsDigit(s[i]) }

  /** `int` or `float` of the token, or the ReadException for a ValueError. */
  function NumberValue(token: string, rest: string): (r: Parsed<Json>)
    ensures r.Ok? ==> r.rest == rest && r.value.IsNumber()
  {
    if !HasDigit(token) then Err(ReadException)
    else if Dots(token) == 0 then Ok(Int(IntOf(token)), rest)
    else if Dots(token) == 1 then Ok(Float(token), rest)
    else Err(ReadException)
  }

  function ReadNumber(s: string): (r: Parsed<Json>)
    requires s != ""
    ensures r.Ok? ==> |r.rest| < |s| && r.value.IsNumber()
    ensures r.Ok? ==> r.rest == s[1 + NumberSpan(s[1..])..]
  {
    var k := 1 + NumberSpan(s[1..]);
    NumberValue(s[..k], s[k..])
  }

  // ----- strings

  /** The string under construction: a Python `str`, or a `unicode` once a \u escape was met. */
  datatype Text = Bytes(s: string) | Wide(units: seq<int>)

  predicate IsAscii(s: string) { forall i :: 0 <= i < |s| ==> s[i] < 128 as char }

  function Units(s: string): seq<int> { seq(|s|, i requires 0 <= i < |s| => s[i] as int) }

  function Widen(t: Text): (u: seq<int>) {
    match t case Bytes(s) => Units(s) case Wide(units) => units
  }

  /** `result + ch`: joining a byte string to a unicode string decodes the bytes as ASCII. */
  function Join(t: Text, piece: Text, rest: string): (r: Parsed<Text>)
    ensures r.Ok? ==> r.rest == rest
  {
    if t.Bytes? && piece.Bytes? then Ok(Bytes(t.s + piece.s), rest)
    else if (t.Bytes? && !IsAscii(t.s)) || (piece.Bytes? && !IsAscii(piece.s)) then Err(UnicodeDecodeError)
    else Ok(Wide(Widen(t) + Widen(piece)), rest)
  }

  predicate IsHex(c: char) { IsDigit(c) || 'a' <= c <= 'f' || 'A' <= c <= 'F' }

  function HexValue(c: char): int
    requires IsHex(c)
  {
    if IsDigit(c) then DigitValue(c)
    else if 'a' <= c then c as int - 'a' as int + 10
    else c as int - 'A' as int + 10
  }

  /** One character of a string literal, escaped or plain. */
  function ReadChar(s: string): (r: Parsed<Text>)
    requires s != ""
    ensures r.Ok? ==> |r.rest| < |s|
  {
    if s[0] != '\\' then Ok(Bytes([s[0]]), s[1..])
    else if |s| == 1 then Err(ReadException)
    else
      match s[1]
      case 'b' => Ok(Bytes([8 as char]), s[2..])
      case 'r' => Ok(Bytes("\r"), s[2..])
      case 'n' => Ok(Bytes("\n"), s[2..])
      case 'f' => Ok(Bytes([12 as char]), s[2..])
      case 't' => Ok(Bytes("\t"), s[2..])
      case 'u' =>
        if |s| < 6 || !IsHex(s[2]) || !IsHex(s[3]) || !IsHex(s[4]) || !IsHex(s[5]) then Err(ReadException)
        else Ok(Wide([4096 * HexValue(s[2]) + 256 * HexValue(s[3]) + 16 * HexValue(s[4]) + HexValue(s[5])]), s[6..])
      case c =>
        if c == '"' || c == '/' || c == '\\' then Ok(Bytes([c]), s[2..]) else Err(ReadException)
  }

  /** The characters of a string literal up to and including the closing quote. */
  function ReadChars(acc: Text, s: string): (r: Parsed<Text>)
    ensures r.Ok? ==> |r.rest| < |s|
    decreases |s|
  {
    if s == "" then Err(ReadException)
    else if s[0] == '"' then Ok(acc, s[1..])
    else
      var (piece, r) :- ReadChar(s);
      var (acc', r) :- Join(acc, piece, r);
      ReadChars(acc', r)
  }

  function JsonOfText(t: Text): Json {
    match t case Bytes(s) => Str(s) case Wide(units) => Unicode(units)
  }

  // ----- values

  /** The literals true, false and null, compared one character after the other. */
  function ReadWord(word: string, value: Json, s: string): (r: Parsed<Json>)
    ensures r.Ok? ==> |r.rest| + |word| == |s| && r.value == value
  {
    if word == "" then Ok(value, s)
    else if s == "" then Err(StopIteration)
    else if s[0] != word[0] then Err(ReadException)
    else ReadWord(word[1..], value, s[1..])
  }

  function Read(s: string): (r: Parsed<Json>)
    ensures r.Ok? ==> |r.rest| < |s|
    decreases |s|, 1
  {
    var (_, s) :- EatWhitespace(s);
    if s == "" then Err(ReadException) else ReadValue(s)
  }

  /** Reading a value at a text that starts with neither white space nor a comment. */
  function ReadValue(s: string): (r: Parsed<Json>)
    requires s != ""
    ensures r.Ok? ==> |r.rest| < |s|
    ensures r.Ok? ==> (r.value.IsNumber() <==> s[0] == '-' || IsDigit(s[0]))
    decreases |s|, 0
  {
    if s[0] == '{' then
      if |s| > 1 && s[1] == '}' then Ok(Dict(map[]), s[2..]) else ReadMembers(map[], s[1..])
    else if s[0] == '[' then
      if |s| > 1 && s[1] == ']' then Ok(List([]), s[2..]) else ReadItems([], s[1..])
    else if s[0] == '"' then
      var (t, r) :- ReadChars(Bytes(""), s[1..]);
      Ok(JsonOfText(t), r)
    else if s[0] == '-' || IsDigit(s[0]) then ReadNumber(s)
    else if s[0] == 't' then ReadWord("true", Bool(true), s)
    else if s[0] == 'f' then ReadWord("false", Bool(false), s)
    else if s[0] == 'n' then ReadWord("null", Null, s)
    else Err(ReadException)
  }

  /** What follows an element of a list or dict: the closing bracket (true) or a comma (false). */
  function ReadSeparator(close: char, s: string): (r: Parsed<bool>)
    ensures r.Ok? ==> |r.rest| < |s|
  {
    var (_, s) :- EatWhitespace(s);
    if s == "" then Err(StopIteration)
    else if s[0] == close then Ok(true, s[1..])
    else if s[0] == ',' then Ok(false, s[1..])
    else Err(ReadException)
  }

  /** The items of a list after those in `acc`, up to and including the closing bracket. */
  function ReadItems(acc: seq<Json>, s: string): (r: Parsed<Json>)
    ensures r.Ok? ==> |r.rest| < |s| && r.value.List?
    decreases |s|, 2
  {
    var (item, r) :- Read(s);
    var (done, r) :- ReadSeparator(']', r);
    if done then Ok(List(acc + [item]), r) else ReadItems(acc + [item], r)
  }

  /** A key and the colon after it. Only a byte string is accepted as a key. */
  function ReadColon(key: Json, s: string): (r: Parsed<string>)
    ensures r.Ok? ==> |r.rest| < |s|
  {
    if !key.Str? then Err(ReadException)
    else
      var (_, s) :- EatWhitespace(s);
      if s == "" then Err(StopIteration)
      else if s[0] != ':' then Err(ReadException)
      else Ok(key.s, s[1..])
  }

  /** The members of a dict after those in `acc`, up to and including the closing brace. */
  function ReadMembers(acc: map<string, Json>, s: string): (r: Parsed<Json>)
    ensures r.Ok? ==> |r.rest| < |s| && r.value.Dict?
    decreases |s|, 2
  {
    var (k, r) :- Read(s);
    var (key, r) :- ReadColon(k, r);
    var (_, r) :- EatWhitespace(r);
    var (val, r) :- Read(r);
    var (done, r) :- ReadSeparator('}', r);
    if done then Ok(Dict(acc[key := val]), r) else ReadMembers(acc[key := val], r)
  }
}
