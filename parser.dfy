/**
 * The recursive-descent parser of ast/ast.go:275-647 on a mutable buffer.
 * Every method consumes from the front of `data`, as the Go methods reslice
 * `p.data`, and is proved to compute the function of module Grammar with the
 * same name: the same result, and on success the same remaining input.
 */
module DocParser {
  import opened Base
  import opened Lexer
  import opened Ast
  import opened Grammar
  import opened GrammarProps

  /** What a Go parse method returns, without the input left over. */
  function Outcome<T>(p: Parsed<T>): Result<T, ParseError>
  {
    match p
    case Parsed(v, _) => Ok(v)
    case Failed(e) => Err(e)
  }

  lemma {:induction false} NewlinesConcat(a: string, b: string)
    ensures Newlines(a + b) == Newlines(a) + Newlines(b)
  {
    if a != [] {
      assert (a + b)[0] == a[0];
      assert (a + b)[1..] == a[1..] + b;
      NewlinesConcat(a[1..], b);
    } else {
      assert a + b == b;
    }
  }

  lemma AfterWsNonBlank(s: string)
    ensures s == [] || !IsWhitespace(s[0]) ==> AfterWs(s) == s
  {
  }

  /** A value of the repeated-directive loop that is not followed by whitespace is
      followed by the end of input, by `]`, or by the next turn of the loop. */
  lemma AfterValue(uq: Unquoter, rest: string, acc: seq<Value>)
    ensures rest == [] ==> RepeatedValues(uq, rest, acc) == Failed(UnexpectedEof(InRepeatedDirective))
    ensures rest != [] && rest[0] == ']' ==> RepeatedValues(uq, rest, acc) == Parsed(acc, rest[1..])
  {
    AfterWsNonBlank(rest);
    RepeatedValuesUnfold(uq, rest, acc);
  }

  /** A turn of the repeated-directive loop that parses a value. */
  lemma ValueStep(uq: Unquoter, s: string, acc: seq<Value>)
    requires AfterWs(s) != [] && AfterWs(s)[0] != ']'
    ensures ParseValue(uq, AfterWs(s)).Failed? ==>
      RepeatedValues(uq, s, acc) == Failed(ParseValue(uq, AfterWs(s)).error)
    ensures ParseValue(uq, AfterWs(s)).Parsed? ==>
      RepeatedValues(uq, s, acc)
        == RepeatedValues(uq, ParseValue(uq, AfterWs(s)).rest, acc + [ParseValue(uq, AfterWs(s)).value])
  {
    RepeatedValuesUnfold(uq, s, acc);
  }

  class Parser {
    var data: string
    const unquote: Unquoter

    /** NewParser (ast/ast.go:279-283). */
    constructor(data: string, unquote: Unquoter)
      ensures this.data == data && this.unquote == unquote
    {
      this.data := data;
      this.unquote := unquote;
    }

    /** peekByte (ast/ast.go:296-302): the next byte, or a space at the end of input. */
    method PeekByte() returns (c: char, ok: bool)
      ensures ok <==> |data| > 0
      ensures c == if ok then data[0] else ' '
    {
      if |data| == 0 {
        return ' ', false;
      }
      return data[0], true;
    }

    /** consumeByte (ast/ast.go:304-312); indexing empty input is a panic in Go. */
    method ConsumeByte(b: char) returns (err: Option<ParseError>)
      requires |data| > 0
      modifies this
      ensures old(data)[0] == b ==> err == None && data == old(data)[1..]
      ensures old(data)[0] != b ==> err == Some(ExpectedByte(b)) && data == old(data)
    {
      if data[0] != b {
        return Some(ExpectedByte(b));
      }
      data := data[1..];
      return None;
    }

    /** consumeRegex (ast/ast.go:314-324): the matched prefix is taken off the input. */
    method ConsumeRegex(p: Pattern) returns (text: Result<string, ParseError>)
      modifies this
      ensures Match(p, old(data)).None? ==> text == Err(NoMatch(p)) && data == old(data)
      ensures Match(p, old(data)).Some? ==>
        var n := Match(p, old(data)).value;
        text == Ok(old(data)[..n]) && data == old(data)[n..]
    {
      var m := Match(p, data);
      if m.None? {
        return Err(NoMatch(p));
      }
      text := Ok(data[..m.value]);
      data := data[m.value..];
    }

    /** skipWhitespace (ast/ast.go:326-343): consumes the whitespace run and reports
        one marker per newline in it after the first. */
    method SkipWhitespace() returns (n: seq<Entry>)
      modifies this
      ensures data == AfterWs(old(data))
      ensures n == Blanks(old(data))
    {
      ghost var s := data;
      ghost var k := 0;
      var firstNewline := true;
      n := [];
      while true
        invariant k <= WsSpan(s) && data == s[k..]
        invariant firstNewline <==> Newlines(s[..k]) == 0
        invariant |n| == Max(0, Newlines(s[..k]) - 1)
        invariant forall i :: 0 <= i < |n| ==> n[i] == Whitespace
        decreases |data|
      {
        var c, ok := PeekByte();
        if c == '\n' {
          if !firstNewline {
            n := n + [Whitespace];
          }
          firstNewline := false;
        }
        if ok && IsWhitespace(c) {
          var _ := ConsumeByte(c);
          assert s[..k + 1] == s[..k] + [c];
          NewlinesConcat(s[..k], [c]);
          k := k + 1;
          continue;
        }
        break;
      }
      assert k == WsSpan(s);
    }

    /** skipSemi (ast/ast.go:345-349). */
    method SkipSemi()
      modifies this
      ensures data == Grammar.SkipSemi(old(data))
    {
      var b, _ := PeekByte();
      if b == ';' {
        var _ := ConsumeByte(';');
      }
    }

    /** parseIdentifier (ast/ast.go:463-471). */
    method ParseIdentifier() returns (r: Result<string, ParseError>)
      modifies this
      ensures Match(Identifier, old(data)).None? ==> r == Err(NoMatch(Identifier)) && data == old(data)
      ensures Match(Identifier, old(data)).Some? ==>
        var n := Match(Identifier, old(data)).value;
        r == Ok(old(data)[..n]) && data == old(data)[n..]
    {
      r := ConsumeRegex(Identifier);
    }

    /** parseContext (ast/ast.go:473-479): an `@` and then an identifier. */
    method ParseContext() returns (r: Result<string, ParseError>)
      requires |data| > 0
      modifies this
      ensures old(data)[0] == '@' ==>
        r == Outcome(Grammar.ParseName(old(data))) && (r.Ok? ==> data == Grammar.ParseName(old(data)).rest)
      ensures old(data)[0] != '@' ==> r == Err(ExpectedByte('@'))
    {
      var err := ConsumeByte('@');
      if err.Some? {
        return Err(err.value);
      }
      r := ConsumeRegex(Identifier);
    }

    /** The identifier of a directive: parseContext after an `@`, else parseIdentifier
        (ast/ast.go:393-404, 422-428). */
    method ParseName() returns (r: Result<string, ParseError>)
      requires |data| > 0
      modifies this
      ensures r == Outcome(Grammar.ParseName(old(data)))
      ensures r.Ok? ==> data == Grammar.ParseName(old(data)).rest
    {
      var c, _ := PeekByte();
      if c == '@' {
        r := ParseContext();
      } else {
        r := ParseIdentifier();
      }
    }

    /** parseDocument (ast/ast.go:357-383). */
    method ParseDocument() returns (r: Result<Document, ParseError>)
      modifies this
      ensures r == Grammar.ParseDocument(unquote, old(data))
      ensures r.Ok? ==> data == []
    {
      ghost var s := data;
      var entries: seq<Entry> := [];
      while true
        invariant DocumentEntries(unquote, data, entries) == DocumentEntries(unquote, s, [])
        decreases |data|
      {
        DocumentEntriesUnfold(unquote, data, entries);
        var ws := SkipWhitespace();
        entries := entries + ws;
        var c, ok := PeekByte();
        if !ok {
          return Ok(Document(entries));
        }
        var v := ParseEntry();
        if v.Err? {
          return Err(v.error);
        }
        entries := entries + [v.value];
      }
    }

    /** The branch parseDocument and parseObject both take on an entry's first byte
        (ast/ast.go:369-381, 580-594). */
    method ParseEntry() returns (r: Result<Entry, ParseError>)
      requires |data| > 0
      modifies this
      ensures r == Outcome(Grammar.ParseEntry(unquote, old(data)))
      ensures r.Ok? ==> data == Grammar.ParseEntry(unquote, old(data)).rest
      decreases |data|, 2
    {
      var c, _ := PeekByte();
      if c == '[' {
        r := ParseRepeated();
      } else {
        r := ParseDirective();
      }
    }

    /** Parser.Parse (ast/ast.go:285-287). */
    method Parse() returns (r: Result<Document, ParseError>)
      modifies this
      ensures r == Grammar.ParseDocument(unquote, old(data))
    {
      r := ParseDocument();
    }

    /** parseDirective (ast/ast.go:385-413). */
    method ParseDirective() returns (r: Result<Entry, ParseError>)
      modifies this
      ensures r == Outcome(Grammar.ParseDirective(unquote, old(data)))
      ensures r.Ok? ==> data == Grammar.ParseDirective(unquote, old(data)).rest
      decreases |data|, 1
    {
      ghost var s := data;
      var c, ok := PeekByte();
      if !ok {
        return Err(UnexpectedEof(InDirective));
      }
      var isContext := c == '@';
      var id := ParseName();
      if id.Err? {
        return Err(id.error);
      }
      var _ := SkipWhitespace();
      var v := ParseValue();
      SkipSemi();
      if v.Err? {
        return Err(v.error);
      }
      return Ok(Directive(id.value, isContext, v.value));
    }

    /** parseRepeatedDirective (ast/ast.go:415-432). */
    method ParseRepeated() returns (r: Result<Entry, ParseError>)
      requires |data| > 0
      modifies this
      ensures r == Outcome(Grammar.ParseRepeated(unquote, old(data)))
      ensures r.Ok? ==> data == Grammar.ParseRepeated(unquote, old(data)).rest
      decreases |data|, 1
    {
      ghost var s := data;
      var err := ConsumeByte('[');
      if err.Some? {
        return Err(err.value);
      }
      var c, ok := PeekByte();
      if !ok {
        return Err(UnexpectedEof(InRepeatedDirective));
      }
      var id := ParseName();
      if id.Err? {
        return Err(id.error);
      }
      r := ParseRepeatedTail(id.value);
    }

    /** The value loop of parseRepeatedDirective and the `;` after it (ast/ast.go:434-458). */
    method ParseRepeatedTail(id: string) returns (r: Result<Entry, ParseError>)
      modifies this
      ensures r == Outcome(RepeatedTail(unquote, id, old(data)))
      ensures r.Ok? ==> data == RepeatedTail(unquote, id, old(data)).rest
      decreases |data|, 3
    {
      ghost var s := data;
      var values: seq<Value> := [];
      while true
        invariant |data| <= |s|
        invariant RepeatedValues(unquote, data, values) == RepeatedValues(unquote, s, [])
        decreases |data|
      {
        ghost var d0 := data;
        RepeatedValuesUnfold(unquote, d0, values);
        var _ := SkipWhitespace();
        var closed, eof := TakeClose();
        if eof {
          return Err(UnexpectedEof(InRepeatedDirective));
        } else if closed {
          assert RepeatedValues(unquote, s, []) == Parsed(values, data);
          break;
        }
        ValueStep(unquote, d0, values);
        var v := ParseValue();
        if v.Err? {
          return Err(v.error);
        }
        values := values + [v.value];
        AfterValue(unquote, data, values);
        closed, eof := TakeClose();
        if eof {
          return Err(UnexpectedEof(InRepeatedDirective));
        } else if closed {
          assert RepeatedValues(unquote, s, []) == Parsed(values, data);
          break;
        }
      }
      SkipSemi();
      return Ok(RepeatedDirective(id, false, values));
    }

    /** The end-of-input and `]` test parseRepeatedDirective makes before and after
        each value (ast/ast.go:437-442, 450-455). */
    method TakeClose() returns (closed: bool, eof: bool)
      modifies this
      ensures eof <==> old(data) == []
      ensures closed <==> old(data) != [] && old(data)[0] == ']'
      ensures data == if closed then old(data)[1..] else old(data)
    {
      var c, ok := PeekByte();
      if !ok {
        return false, true;
      } else if c == ']' {
        var _ := ConsumeByte(']');
        return true, false;
      }
      return false, false;
    }

    /** parseValue (ast/ast.go:485-521). */
    method ParseValue() returns (r: Result<Value, ParseError>)
      modifies this
      ensures r == Outcome(Grammar.ParseValue(unquote, old(data)))
      ensures r.Ok? ==> data == Grammar.ParseValue(unquote, old(data)).rest
      decreases |data|, 1
    {
      ghost var s := data;
      var c, ok := PeekByte();
      if !ok {
        return Err(UnexpectedEof(InValue));
      } else if c == '"' || c == '\'' || c == '`' {
        r := ParseString();
      } else if c == '{' {
        r := ParseObject();
      } else if IsNumberByte(c) || c == '-' || c == '+' {
        assert Grammar.ParseValue(unquote, s) == ParseNumeric(s);
        assert Match(NumberPattern, s) == NumberLength(s) && Match(NotePattern, s) == NoteLength(s);
        r := ParseNumber();
        if r.Err? {
          r := ParseNote();
        }
      } else if c == '?' {
        assert Match(UnknownPattern, s) == UnknownLength(s);
        r := ParseUnknown();
      } else {
        r := Err(UnrecognizedChar(c));
      }
    }

    /** parseString (ast/ast.go:523-569). */
    method ParseString() returns (r: Result<Value, ParseError>)
      modifies this
      ensures r == Outcome(Grammar.ParseString(unquote, old(data)))
      ensures r.Ok? ==> data == Grammar.ParseString(unquote, old(data)).rest
    {
      var c, ok := PeekByte();
      if !ok {
        return Err(UnexpectedEof(InValue));
      }
      if c == '"' || c == '\'' || c == '`' {
        var text := ConsumeRegex(QuotePattern(c));
        if text.Err? {
          return Err(text.error);
        }
        var v := Unquote(unquote, text.value);
        if v.None? {
          return Err(BadLiteral(text.value));
        }
        return Ok(Str(v.value));
      }
      var _ := ConsumeByte(c);
      return Err(UnexpectedByte(c));
    }

    /** parseObject (ast/ast.go:571-596), reached only on an opening brace. */
    method ParseObject() returns (r: Result<Value, ParseError>)
      requires |data| > 0 && data[0] == '{'
      modifies this
      ensures r == Outcome(Grammar.ParseObject(unquote, old(data)))
      ensures r.Ok? ==> data == Grammar.ParseObject(unquote, old(data)).rest
      decreases |data|, 0
    {
      ghost var s := data;
      var _ := ConsumeByte('{');
      var entries: seq<Entry> := [];
      while true
        invariant |data| < |s|
        invariant ObjectEntries(unquote, data, entries) == ObjectEntries(unquote, s[1..], [])
        decreases |data|
      {
        ObjectEntriesUnfold(unquote, data, entries);
        var ws := SkipWhitespace();
        entries := entries + ws;
        var c, ok := PeekByte();
        if !ok {
          return Err(UnexpectedEof(InObject));
        } else if c == '}' {
          var _ := ConsumeByte('}');
          return Ok(Object(entries));
        }
        var v := ParseEntry();
        if v.Err? {
          return Err(v.error);
        }
        entries := entries + [v.value];
      }
    }

    /** parseNumber (ast/ast.go:598-613). */
    method ParseNumber() returns (r: Result<Value, ParseError>)
      modifies this
      ensures Match(NumberPattern, old(data)).None? ==> r == Err(NoMatch(NumberPattern)) && data == old(data)
      ensures Match(NumberPattern, old(data)).Some? ==>
        var n := Match(NumberPattern, old(data)).value;
        r == Ok(Number(old(data)[..n])) && data == old(data)[n..]
    {
      var text := ConsumeRegex(NumberPattern);
      if text.Err? {
        return Err(text.error);
      }
      return Ok(Number(text.value));
    }

    /** parseNote (ast/ast.go:615-630). */
    method ParseNote() returns (r: Result<Value, ParseError>)
      modifies this
      ensures Match(NotePattern, old(data)).None? ==> r == Err(NoMatch(NotePattern)) && data == old(data)
      ensures Match(NotePattern, old(data)).Some? ==>
        var n := Match(NotePattern, old(data)).value;
        r == Ok(Note(old(data)[..n])) && data == old(data)[n..]
    {
      var text := ConsumeRegex(NotePattern);
      if text.Err? {
        return Err(text.error);
      }
      return Ok(Note(text.value));
    }

    /** parseUnknown (ast/ast.go:632-647). */
    method ParseUnknown() returns (r: Result<Value, ParseError>)
      modifies this
      ensures Match(UnknownPattern, old(data)).None? ==> r == Err(NoMatch(UnknownPattern)) && data == old(data)
      ensures Match(UnknownPattern, old(data)).Some? ==>
        var n := Match(UnknownPattern, old(data)).value;
        r == Ok(Unknown(old(data)[..n])) && data == old(data)[n..]
    {
      var text := ConsumeRegex(UnknownPattern);
      if text.Err? {
        return Err(text.error);
      }
      return Ok(Unknown(text.value));
    }
  }
}
