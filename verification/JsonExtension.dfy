/** A successful read is stable: more text at the end does not change it, except for a number
    that ran up to the end of the text. */
module JsonExtension {
  import opened JsonText

  lemma {:induction false} BlockCommentExtends(s: string, x: string)
    requires BlockComment(s).Ok?
    ensures BlockComment(s + x) == Ok((), BlockComment(s).rest + x)
  {
    var e := s + x;
    assert |s| > 1;
    assert e[0] == s[0] && e[1] == s[1];
    if s[0] == '*' && s[1] == '/' {
      assert e[2..] == s[2..] + x;
    } else {
      assert e[1..] == s[1..] + x;
      BlockCommentExtends(s[1..], x);
    }
  }

  lemma {:induction false} LineCommentExtends(s: string, x: string)
    requires LineComment(s) != ""
    ensures LineComment(s + x) == LineComment(s) + x
  {
    var e := s + x;
    assert e[0] == s[0] && e[1..] == s[1..] + x;
    if s[0] != '\r' && s[0] != '\n' {
      LineCommentExtends(s[1..], x);
    }
  }

  lemma ReadCommentExtends(s: string, x: string)
    requires s != "" && s[0] == '/'
    requires ReadComment(s).Ok? && ReadComment(s).rest != ""
    ensures ReadComment(s + x) == Ok((), ReadComment(s).rest + x)
  {
    var e := s + x;
    assert e[1] == s[1] && e[2..] == s[2..] + x;
    if s[1] == '/' {
      LineCommentExtends(s[2..], x);
    } else {
      BlockCommentExtends(s[2..], x);
    }
  }

  lemma {:induction false} EatWhitespaceExtends(s: string, x: string)
    requires EatWhitespace(s).Ok? && EatWhitespace(s).rest != ""
    ensures EatWhitespace(s + x) == Ok((), EatWhitespace(s).rest + x)
    decreases |s|
  {
    var e := s + x;
    assert s != "" && e[0] == s[0] && e[1..] == s[1..] + x;
    if s[0] == '/' {
      ReadCommentExtends(s, x);
      EatWhitespaceExtends(ReadComment(s).rest, x);
    } else if IsSpace(s[0]) {
      EatWhitespaceExtends(s[1..], x);
    }
  }

  lemma {:induction false} NumberSpanExtends(s: string, x: string)
    requires NumberSpan(s) < |s| || x == "" || !IsNumberChar(x[0])
    ensures NumberSpan(s + x) == NumberSpan(s)
  {
    if s == "" {
      assert s + x == x;
    } else {
      assert (s + x)[0] == s[0] && (s + x)[1..] == s[1..] + x;
      if IsNumberChar(s[0]) {
        NumberSpanExtends(s[1..], x);
      }
    }
  }

  lemma {:induction false} SpanConcat(s: string, more: string)
    requires NumberSpan(s) == |s|
    ensures NumberSpan(s + more) == |s| + NumberSpan(more)
  {
    if s == "" {
      assert s + more == more;
    } else {
      assert (s + more)[0] == s[0] && (s + more)[1..] == s[1..] + more;
      SpanConcat(s[1..], more);
    }
  }

  /** What follows a number token when the text continues it. */
  lemma NumberContinues(token: string, more: string)
    requires token != "" && NumberSpan(token[1..]) == |token| - 1
    ensures (token + more)[1 + NumberSpan((token + more)[1..])..] == more[NumberSpan(more)..]
  {
    DropConcat(token, more, 1);
    SpanConcat(token[1..], more);
    DropConcat(token, more, |token| + NumberSpan(more));
  }

  lemma DropConcat(a: string, b: string, k: nat)
    requires k <= |a + b|
    ensures (a + b)[k..] == if k <= |a| then a[k..] + b else b[k - |a|..]
  {
  }

  /** Where the text goes on with neither a digit nor a dot, a number is complete. */
  lemma ReadNumberExtends(s: string, x: string)
    requires s != "" && ReadNumber(s).Ok?
    requires ReadNumber(s).rest != "" || x == "" || !IsNumberChar(x[0])
    ensures ReadNumber(s + x) == Ok(ReadNumber(s).value, ReadNumber(s).rest + x)
  {
    var e, k := s + x, 1 + NumberSpan(s[1..]);
    assert e[1..] == s[1..] + x;
    NumberSpanExtends(s[1..], x);
    assert e[..k] == s[..k] && e[k..] == s[k..] + x;
  }

  lemma ReadCharExtends(s: string, x: string)
    requires s != "" && ReadChar(s).Ok?
    ensures ReadChar(s + x) == Ok(ReadChar(s).value, ReadChar(s).rest + x)
  {
    var e := s + x;
    assert e[0] == s[0] && e[1..] == s[1..] + x;
    if s[0] == '\\' {
      assert e[1] == s[1] && e[2..] == s[2..] + x;
      if s[1] == 'u' {
        assert e[2] == s[2] && e[3] == s[3] && e[4] == s[4] && e[5] == s[5] && e[6..] == s[6..] + x;
      }
    }
  }

  lemma {:induction false} ReadCharsExtends(acc: Text, s: string, x: string)
    requires ReadChars(acc, s).Ok?
    ensures ReadChars(acc, s + x) == Ok(ReadChars(acc, s).value, ReadChars(acc, s).rest + x)
    decreases |s|
  {
    var e := s + x;
    assert e[0] == s[0] && e[1..] == s[1..] + x;
    if s[0] != '"' {
      ReadCharExtends(s, x);
      var Ok(piece, r) := ReadChar(s);
      assert Join(acc, piece, r + x).value == Join(acc, piece, r).value;
      ReadCharsExtends(Join(acc, piece, r).value, r, x);
    }
  }

  lemma {:induction false} ReadWordExtends(word: string, value: Json, s: string, x: string)
    requires ReadWord(word, value, s).Ok?
    ensures ReadWord(word, value, s + x) == Ok(value, ReadWord(word, value, s).rest + x)
  {
    if word != "" {
      assert (s + x)[0] == s[0] && (s + x)[1..] == s[1..] + x;
      ReadWordExtends(word[1..], value, s[1..], x);
    }
  }

  lemma ReadSeparatorExtends(close: char, s: string, x: string)
    requires ReadSeparator(close, s).Ok?
    ensures ReadSeparator(close, s + x) == Ok(ReadSeparator(close, s).value, ReadSeparator(close, s).rest + x)
  {
    EatWhitespaceExtends(s, x);
    var t := EatWhitespace(s).rest;
    assert (t + x)[0] == t[0] && (t + x)[1..] == t[1..] + x;
  }

  lemma ReadColonExtends(key: Json, s: string, x: string)
    requires ReadColon(key, s).Ok?
    ensures ReadColon(key, s + x) == Ok(ReadColon(key, s).value, ReadColon(key, s).rest + x)
  {
    EatWhitespaceExtends(s, x);
    var t := EatWhitespace(s).rest;
    assert (t + x)[0] == t[0] && (t + x)[1..] == t[1..] + x;
  }

  /** A read value that does not depend on what comes next. */
  predicate Settled(r: Parsed<Json>, x: string) {
    r.Ok? && (r.rest != "" || !r.value.IsNumber() || x == "" || !IsNumberChar(x[0]))
  }

  /** The main result: a settled read is the read of every longer text. */
  lemma {:induction false} ReadExtends(s: string, x: string)
    requires Settled(Read(s), x)
    ensures Read(s + x) == Ok(Read(s).value, Read(s).rest + x)
    decreases |s|, 1
  {
    EatWhitespaceExtends(s, x);
    ReadValueExtends(EatWhitespace(s).rest, x);
  }

  lemma {:induction false} ReadValueExtends(t: string, x: string)
    requires t != "" && Settled(ReadValue(t), x)
    ensures ReadValue(t + x) == Ok(ReadValue(t).value, ReadValue(t).rest + x)
    decreases |t|, 0
  {
    var e := t + x;
    assert e[0] == t[0] && e[1..] == t[1..] + x;
    if t[0] == '{' {
      assert |t| > 1;
      assert e[1] == t[1] && e[2..] == t[2..] + x;
      if t[1] != '}' { ReadMembersExtends(map[], t[1..], x); }
    } else if t[0] == '[' {
      assert |t| > 1;
      assert e[1] == t[1] && e[2..] == t[2..] + x;
      if t[1] != ']' { ReadItemsExtends([], t[1..], x); }
    } else if t[0] == '"' {
      ReadCharsExtends(Bytes(""), t[1..], x);
    } else if t[0] == '-' || IsDigit(t[0]) {
      ReadNumberExtends(t, x);
    } else if t[0] == 't' {
      ReadWordExtends("true", Bool(true), t, x);
    } else if t[0] == 'f' {
      ReadWordExtends("false", Bool(false), t, x);
    } else {
      ReadWordExtends("null", Null, t, x);
    }
  }

  lemma {:induction false} ReadItemsExtends(acc: seq<Json>, s: string, x: string)
    requires ReadItems(acc, s).Ok?
    ensures ReadItems(acc, s + x) == Ok(ReadItems(acc, s).value, ReadItems(acc, s).rest + x)
    decreases |s|, 2
  {
    var Ok(item, r) := Read(s);
    assert r != "";
    ReadExtends(s, x);
    ReadSeparatorExtends(']', r, x);
    var Ok(done, r') := ReadSeparator(']', r);
    if !done { ReadItemsExtends(acc + [item], r', x); }
  }

  lemma {:induction false} ReadMembersExtends(acc: map<string, Json>, s: string, x: string)
    requires ReadMembers(acc, s).Ok?
    ensures ReadMembers(acc, s + x) == Ok(ReadMembers(acc, s).value, ReadMembers(acc, s).rest + x)
    decreases |s|, 2
  {
    var Ok(k, r) := Read(s);
    assert r != "";
    ReadExtends(s, x);
    ReadColonExtends(k, r, x);
    var Ok(key, r') := ReadColon(k, r);
    EatWhitespaceExtends(r', x);
    var t := EatWhitespace(r').rest;
    var Ok(val, q) := Read(t);
    assert q != "";
    ReadExtends(t, x);
    ReadSeparatorExtends('}', q, x);
    var Ok(done, q') := ReadSeparator('}', q);
    if !done { ReadMembersExtends(acc[key := val], q', x); }
  }
}
