/** `JsonReader` of streamingjson.py as an object: a cursor that every read advances. */
module JsonReader {
  import opened JsonText

  /** How a call ends: with a value or with an exception. */
  datatype Outcome<+T> = Return(value: T) | Raise(error: ReadError)
  {
    predicate IsFailure() { Raise? }
    function PropagateFailure<U>(): Outcome<U> requires Raise? { Raise(error) }
    function Extract(): T requires Return? { value }
  }

  /** The call did what the reading function says, and left the cursor before its rest. */
  ghost predicate Agrees<T>(out: Outcome<T>, spec: Parsed<T>, remaining: string) {
    match spec
    case Ok(value, rest) => out == Return(value) && remaining == rest
    case Err(error) => out == Raise(error)
  }

  /** The number whose token starts with `token` and takes all it can from the text. */
  ghost function NumberWith(token: string, text: string): Parsed<Json> {
    NumberValue(token + text[..NumberSpan(text)], text[NumberSpan(text)..])
  }

  lemma NumberFrom(s: string)
    requires s != ""
    ensures NumberWith([s[0]], s[1..]) == JsonText.ReadNumber(s)
  {
    var k := NumberSpan(s[1..]);
    assert [s[0]] + s[1..][..k] == s[..1 + k] && s[1..][k..] == s[1 + k..];
  }

  lemma NumberTakes(token: string, text: string)
    requires text != "" && IsNumberChar(text[0])
    ensures NumberWith(token + [text[0]], text[1..]) == NumberWith(token, text)
  {
    var k := NumberSpan(text[1..]);
    assert token + [text[0]] + text[1..][..k] == token + text[..1 + k] && text[1..][k..] == text[1 + k..];
  }

  lemma CharactersStep(acc: Text, s: string)
    requires s != "" && s[0] != '"' && ReadChar(s).Ok?
    ensures ReadChars(acc, s) ==
            match Join(acc, ReadChar(s).value, "")
            case Err(e) => Err(e)
            case Ok(acc', _) => ReadChars(acc', ReadChar(s).rest)
  {
  }

  class StringGenerator {
    const text: string
    var index: int

    constructor (text: string)
      ensures this.text == text && index == -1
    {
      this.text := text;
      index := -1;
    }

    ghost predicate Valid() reads this { index >= -1 }

    /** What is still to be read. The index may run past the end. */
    ghost function Remaining(): string
      reads this
      requires Valid()
    {
      if index + 1 < |text| then text[index + 1..] else ""
    }

    method Peek() returns (c: Outcome<char>)
      requires Valid()
      ensures Remaining() == "" ==> c.Raise?
      ensures Remaining() != "" ==> c == Return(Remaining()[0])
    {
      var i := index + 1;
      if i < |text| {
        return Return(text[i]);
      } else {
        return Raise(StopIteration);
      }
    }

    method Next() returns (c: Outcome<char>)
      requires Valid()
      modifies this
      ensures Valid()
      ensures old(Remaining()) == "" ==> c == Raise(StopIteration) && Remaining() == ""
      ensures old(Remaining()) != "" ==>
        c == Return(old(Remaining())[0]) && Remaining() == old(Remaining())[1..] && index < |text|
    {
      index := index + 1;
      if index < |text| {
        return Return(text[index]);
      } else {
        return Raise(StopIteration);
      }
    }
  }

  class Reader {
    var generator: StringGenerator

    constructor ()
      ensures fresh(generator)
    {
      generator := new StringGenerator("");
    }

    ghost predicate Valid() reads this, generator { generator.Valid() }

    ghost function Remaining(): string
      reads this, generator
      requires Valid()
    {
      generator.Remaining()
    }

    /** `None` of the source is the Raise outcome of Peek here. */
    method Peeks(c: char) returns (yes: bool)
      requires Valid()
      ensures yes <==> Remaining() != "" && Remaining()[0] == c
    {
      var p := generator.Peek();
      yes := p == Return(c);
    }

    method EatWhitespace() returns (r: Outcome<()>)
      requires Valid()
      modifies generator
      ensures Valid() && Agrees(r, JsonText.EatWhitespace(old(Remaining())), Remaining())
    {
      var p := generator.Peek();
      while p.Return? && (IsSpace(p.value) || p.value == '/')
        invariant Valid()
        invariant p.Return? <==> Remaining() != ""
        invariant p.Return? ==> p.value == Remaining()[0]
        invariant JsonText.EatWhitespace(Remaining()) == JsonText.EatWhitespace(old(Remaining()))
        decreases |Remaining()|
      {
        if p.value == '/' {
          var _ :- ReadComment();
        } else {
          var _ := generator.Next();
        }
        p := generator.Peek();
      }
      return Return(());
    }

    method ReadComment() returns (r: Outcome<()>)
      requires Valid() && Remaining() != "" && Remaining()[0] == '/'
      modifies generator
      ensures Valid() && Agrees(r, JsonText.ReadComment(old(Remaining())), Remaining())
    {
      var _ := generator.Next();
      var second :- generator.Next();
      assert old(Remaining())[1..][1..] == old(Remaining())[2..];
      if second == '/' {
        ReadDoubleSolidusComment();
        return Return(());
      } else if second == '*' {
        r := ReadCStyleComment();
      } else {
        return Raise(ReadException);
      }
    }

    method ReadDoubleSolidusComment()
      requires Valid()
      modifies generator
      ensures Valid() && Remaining() == LineComment(old(Remaining()))
    {
      var ch := generator.Next();
      while ch.Return? && ch.value != '\r' && ch.value != '\n'
        invariant Valid()
        invariant ch.Raise? ==> Remaining() == "" && LineComment(old(Remaining())) == ""
        invariant ch.Return? ==>
          LineComment(old(Remaining())) ==
            if ch.value == '\r' || ch.value == '\n' then Remaining() else LineComment(Remaining())
        decreases ch.Return?, |Remaining()|
      {
        ch := generator.Next();
      }
    }

    method ReadCStyleComment() returns (r: Outcome<()>)
      requires Valid()
      modifies generator
      ensures Valid() && Agrees(r, BlockComment(old(Remaining())), Remaining())
    {
      var done := false;
      while !done
        invariant Valid()
        invariant !done ==> BlockComment(Remaining()) == BlockComment(old(Remaining()))
        invariant done ==> Remaining() != "" && BlockComment(old(Remaining())) == Ok((), Remaining()[1..])
        decreases !done, |Remaining()|
      {
        ghost var s := Remaining();
        var ch := generator.Next();
        if ch.Raise? { return Raise(ReadException); }
        var solidus := Peeks('/');
        done := ch.value == '*' && solidus;
        assert done ==> s[2..] == s[1..][1..];
        if !done && ch.value == '/' {
          var star := Peeks('*');
          if star { return Raise(ReadException); }
        }
      }
      var last := generator.Next();
      if last.Raise? { return Raise(ReadException); }
      return Return(());
    }

    /** `_assertNext` for each character of the word. */
    method ReadLiteral(word: string, value: Json) returns (r: Outcome<Json>)
      requires Valid() && word != ""
      modifies generator
      ensures Valid() && Agrees(r, ReadWord(word, value, old(Remaining())), Remaining())
      ensures r.Return? ==> generator.index < |generator.text|
    {
      for i := 0 to |word|
        invariant Valid()
        invariant i > 0 ==> generator.index < |generator.text|
        invariant ReadWord(word, value, old(Remaining())) == ReadWord(word[i..], value, Remaining())
      {
        var ch :- generator.Next();
        if ch != word[i] { return Raise(ReadException); }
        assert word[i..][1..] == word[i + 1..];
      }
      return Return(value);
    }

    method ReadNumber() returns (r: Outcome<Json>)
      requires Valid() && Remaining() != ""
      modifies generator
      ensures Valid() && Agrees(r, JsonText.ReadNumber(old(Remaining())), Remaining())
      ensures r.Return? ==> generator.index < |generator.text|
    {
      ghost var s := Remaining();
      var first := generator.Next();
      var result := [first.value];
      NumberFrom(s);
      var peek := generator.Peek();
      while peek.Return? && IsNumberChar(peek.value)
        invariant Valid() && generator.index < |generator.text|
        invariant NumberWith(result, Remaining()) == JsonText.ReadNumber(s)
        invariant peek.Return? <==> Remaining() != ""
        invariant peek.Return? ==> peek.value == Remaining()[0]
        decreases |Remaining()|
      {
        NumberTakes(result, Remaining());
        var c := generator.Next();
        result := result + [c.value];
        peek := generator.Peek();
      }
      assert Remaining()[..0] == "" && Remaining()[0..] == Remaining();
      assert result + "" == result;
      var value := NumberValue(result, "");
      if value.Err? { return Raise(value.error); }
      return Return(value.value);
    }

    method ReadString() returns (r: Outcome<Json>)
      requires Valid() && Remaining() != ""
      modifies generator
      ensures Valid()
      ensures Agrees(r, match ReadChars(Bytes(""), old(Remaining())[1..])
                        case Ok(t, rest) => Ok(JsonOfText(t), rest)
                        case Err(e) => Err(e), Remaining())
      ensures r.Return? ==> generator.index < |generator.text|
    {
      var _ := generator.Next();
      var result := Bytes("");
      var quote := Peeks('"');
      while !quote
        invariant Valid()
        invariant quote <==> Remaining() != "" && Remaining()[0] == '"'
        invariant ReadChars(result, Remaining()) == ReadChars(Bytes(""), old(Remaining())[1..])
        decreases |Remaining()|
      {
        ghost var s := Remaining();
        var piece := ReadCharacter();
        if piece.Raise? { return Raise(ReadException); }
        CharactersStep(result, s);
        var joined := Join(result, piece.value, "");
        if joined.Err? { return Raise(joined.error); }
        result := joined.value;
        quote := Peeks('"');
      }
      var _ := generator.Next();
      return Return(JsonOfText(result));
    }

    /** The four hex digits after \u. */
    method ReadCodeUnit() returns (r: Outcome<Text>)
      requires Valid()
      modifies generator
      ensures Valid()
      ensures var s := old(Remaining());
        if |s| < 4 then r.Raise?
        else if !IsHex(s[0]) || !IsHex(s[1]) || !IsHex(s[2]) || !IsHex(s[3]) then r.Raise?
        else r == Return(Wide([4096 * HexValue(s[0]) + 256 * HexValue(s[1]) + 16 * HexValue(s[2]) + HexValue(s[3])]))
             && Remaining() == s[4..]
    {
      ghost var s := Remaining();
      var ch4096 :- generator.Next();
      var ch256 :- generator.Next();
      var ch16 :- generator.Next();
      var ch1 :- generator.Next();
      assert |s| >= 4 && Remaining() == s[4..] && ch4096 == s[0] && ch256 == s[1] && ch16 == s[2] && ch1 == s[3];
      if !IsHex(ch4096) || !IsHex(ch256) || !IsHex(ch16) || !IsHex(ch1) { return Raise(ReadException); }
      return Return(Wide([4096 * HexValue(ch4096) + 256 * HexValue(ch256) + 16 * HexValue(ch16) + HexValue(ch1)]));
    }

    /** One character of the loop in `_readString`; every failure there is a ReadException. */
    method ReadCharacter() returns (r: Outcome<Text>)
      requires Valid()
      modifies generator
      ensures Valid()
      ensures old(Remaining()) == "" || ReadChar(old(Remaining())).Err? ==> r.Raise?
      ensures old(Remaining()) != "" && ReadChar(old(Remaining())).Ok? ==>
        Agrees(r, ReadChar(old(Remaining())), Remaining())
    {
      ghost var s := Remaining();
      var ch :- generator.Next();
      if ch != '\\' { return Return(Bytes([ch])); }
      var e :- generator.Next();
      assert Remaining() == s[2..] && e == s[1];
      match e {
        case 'b' => return Return(Bytes([8 as char]));
        case 'r' => return Return(Bytes("\r"));
        case 'n' => return Return(Bytes("\n"));
        case 'f' => return Return(Bytes([12 as char]));
        case 't' => return Return(Bytes("\t"));
        case 'u' =>
          assert |s| >= 6 ==> s[2..][4..] == s[6..];
          r := ReadCodeUnit();
        case _ =>
          if e != '"' && e != '/' && e != '\\' { return Raise(ReadException); }
          return Return(Bytes([e]));
      }
    }

    method ReadOne() returns (r: Outcome<Json>)
      requires Valid()
      modifies generator
      ensures Valid() && Agrees(r, JsonText.Read(old(Remaining())), Remaining())
      ensures r.Return? ==> generator.index < |generator.text|
      decreases |Remaining()|, 1
    {
      var _ :- EatWhitespace();
      var peek := generator.Peek();
      if peek.Raise? { return Raise(ReadException); }
      if peek.value == '{' {
        r := ReadObject();
      } else if peek.value == '[' {
        r := ReadArray();
      } else if peek.value == '"' {
        r := ReadString();
      } else if peek.value == '-' || IsDigit(peek.value) {
        r := ReadNumber();
      } else if peek.value == 't' {
        r := ReadLiteral("true", Bool(true));
      } else if peek.value == 'f' {
        r := ReadLiteral("false", Bool(false));
      } else if peek.value == 'n' {
        r := ReadLiteral("null", Null);
      } else {
        // The branch of the source for '/' is dead: _eatWhitespace has consumed every comment.
        assert peek.value != '/';
        return Raise(ReadException);
      }
    }

    /** After an element: the closing bracket is left for the caller, a comma is consumed. */
    method Separator(close: char) returns (r: Outcome<bool>)
      requires Valid()
      modifies generator
      ensures Valid()
      ensures match ReadSeparator(close, old(Remaining()))
        case Ok(done, rest) => r == Return(done)
          && (if done then Remaining() == [close] + rest else Remaining() == rest)
        case Err(e) => r == Raise(e)
    {
      var _ :- EatWhitespace();
      var done := Peeks(close);
      if !done {
        var ch :- generator.Next();
        if ch != ',' { return Raise(ReadException); }
      }
      return Return(done);
    }

    method ReadArray() returns (r: Outcome<Json>)
      requires Valid() && Remaining() != "" && Remaining()[0] == '['
      modifies generator
      ensures Valid() && Agrees(r, ReadValue(old(Remaining())), Remaining())
      ensures r.Return? ==> generator.index < |generator.text|
      decreases |Remaining()|, 0
    {
      ghost var s := Remaining();
      var result := [];
      var _ := generator.Next();
      var done := Peeks(']');
      assert done ==> s[2..] == s[1..][1..];
      while !done
        invariant Valid() && |Remaining()| < |s|
        invariant done ==> Remaining() != "" && ReadValue(s) == Ok(List(result), Remaining()[1..])
        invariant !done ==> ReadValue(s) == ReadItems(result, Remaining())
        decreases !done, |Remaining()|
      {
        var item :- ReadOne();
        result := result + [item];
        done :- Separator(']');
      }
      var _ := generator.Next();
      return Return(List(result));
    }

    method ReadObject() returns (r: Outcome<Json>)
      requires Valid() && Remaining() != "" && Remaining()[0] == '{'
      modifies generator
      ensures Valid() && Agrees(r, ReadValue(old(Remaining())), Remaining())
      ensures r.Return? ==> generator.index < |generator.text|
      decreases |Remaining()|, 0
    {
      ghost var s := Remaining();
      var result := map[];
      var _ := generator.Next();
      var done := Peeks('}');
      assert done ==> s[2..] == s[1..][1..];
      while !done
        invariant Valid() && |Remaining()| < |s|
        invariant done ==> Remaining() != "" && ReadValue(s) == Ok(Dict(result), Remaining()[1..])
        invariant !done ==> ReadValue(s) == ReadMembers(result, Remaining())
        decreases !done, |Remaining()|
      {
        var key :- ReadOne();
        if !key.Str? { return Raise(ReadException); }
        var _ :- EatWhitespace();
        var ch :- generator.Next();
        if ch != ':' { return Raise(ReadException); }
        var _ :- EatWhitespace();
        var val :- ReadOne();
        result := result[key.s := val];
        done :- Separator('}');
      }
      var _ := generator.Next();
      return Return(Dict(result));
    }

    /** The public entry: the value and the number of characters consumed. */
    method Read(s: string) returns (r: Outcome<(Json, nat)>)
      modifies this, generator
      ensures fresh(generator)
      ensures match JsonText.Read(s)
        case Ok(value, rest) => r == Return((value, |s| - |rest|)) && rest == s[|s| - |rest|..]
        case Err(e) => r == Raise(e)
    {
      generator := new StringGenerator(s);
      assert generator.Remaining() == s;
      var value := ReadOne();
      assert value.Return? ==> Remaining() == s[generator.index + 1..];
      if value.Raise? { return Raise(value.error); }
      return Return((value.value, generator.index + 1));
    }
  }
}
