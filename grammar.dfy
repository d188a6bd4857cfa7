/**
 * The grammar the recursive-descent parser of ast/ast.go:275-647 accepts, as
 * total functions from the remaining input to a parsed value and the input
 * left after it. Module Parser implements the same steps on a mutable buffer
 * and is proved to compute exactly these functions.
 */
module Grammar {
  import opened Base
  import opened Lexer
  import opened LexerProps
  import opened Ast

  /** The construct being parsed when the input ran out. */
  datatype Construct = InDirective | InRepeatedDirective | InValue | InObject

  datatype ParseError =
    | UnexpectedEof(within: Construct)
    | ExpectedByte(expected: char)      // consumeByte saw another byte
    | NoMatch(pattern: Pattern)         // consumeRegex found no match
    | BadLiteral(literal: string)       // strconv.Unquote refused the matched literal
    | UnexpectedByte(found: char)       // parseString called on a non-quote
    | UnrecognizedChar(found: char)     // parseValue saw no value start

  datatype Parsed<+T> = Parsed(value: T, rest: string) | Failed(error: ParseError)

  /** strconv.Unquote on a double- or single-quoted literal; Go's escape grammar is
      not part of this model, so the parser takes it as a parameter. */
  type Unquoter = string -> Option<string>

  /** The whitespace markers skipWhitespace reports for the run at the front of s:
      one per newline after the first. */
  function Blanks(s: string): (r: seq<Entry>)
    ensures |r| == Max(0, Newlines(s[..WsSpan(s)]) - 1)
    ensures forall i :: 0 <= i < |r| ==> r[i] == Whitespace
  {
    Markers(Max(0, Newlines(s[..WsSpan(s)]) - 1))
  }

  function Markers(n: nat): (r: seq<Entry>)
    ensures |r| == n
    ensures forall i :: 0 <= i < |r| ==> r[i] == Whitespace
  {
    if n == 0 then [] else Markers(n - 1) + [Whitespace]
  }

  function AfterWs(s: string): (r: string)
    ensures |r| <= |s|
  {
    s[WsSpan(s)..]
  }

  function SkipSemi(s: string): (r: string)
    ensures |r| <= |s|
  {
    if |s| > 0 && s[0] == ';' then s[1..] else s
  }

  function WithoutCR(s: string): (r: string)
    ensures forall k :: 0 <= k < |r| ==> r[k] != '\r'
    ensures |r| <= |s|
  {
    if s == [] then [] else (if s[0] == '\r' then [] else [s[0]]) + WithoutCR(s[1..])
  }

  /** strconv.Unquote on a matched literal: a raw literal is its content with
      carriage returns dropped, the other two forms go to `uq`. */
  function Unquote(uq: Unquoter, literal: string): Option<string>
    requires |literal| >= 2
  {
    if literal[0] == '`' then Some(WithoutCR(literal[1..|literal| - 1])) else uq(literal)
  }

  /** parseString (ast/ast.go:523-569). */
  function ParseString(uq: Unquoter, s: string): (r: Parsed<Value>)
    ensures r.Parsed? ==> |r.rest| < |s| && r.value.Str?
  {
    if |s| == 0 then Failed(UnexpectedEof(InValue))
    else if !IsQuote(s[0]) then Failed(UnexpectedByte(s[0]))
    else
      match LiteralLength(s)
      case None => Failed(NoMatch(QuotePattern(s[0])))
      case Some(n) =>
        match Unquote(uq, s[..n])
        case None => Failed(BadLiteral(s[..n]))
        case Some(v) => Parsed(Str(v), s[n..])
  }

  /** parseNumber, falling back to parseNote (ast/ast.go:503-511, 598-630). */
  function ParseNumeric(s: string): (r: Parsed<Value>)
    ensures r.Parsed? ==> |r.rest| < |s|
  {
    match NumberLength(s)
    case Some(n) => Parsed(Number(s[..n]), s[n..])
    case None =>
      match NoteLength(s)
      case Some(n) => Parsed(Note(s[..n]), s[n..])
      case None => Failed(NoMatch(NotePattern))
  }

  /** parseValue (ast/ast.go:485-521): the first byte chooses the kind of value. */
  function ParseValue(uq: Unquoter, s: string): (r: Parsed<Value>)
    ensures r.Parsed? ==> |r.rest| < |s|
    decreases |s|, 1
  {
    if |s| == 0 then Failed(UnexpectedEof(InValue))
    else if IsQuote(s[0]) then ParseString(uq, s)
    else if s[0] == '{' then ParseObject(uq, s)
    else if IsNumberByte(s[0]) || IsSign(s[0]) then ParseNumeric(s)
    else if s[0] == '?' then
      match UnknownLength(s)
      case Some(n) => Parsed(Unknown(s[..n]), s[n..])
      case None => Failed(NoMatch(UnknownPattern))
    else Failed(UnrecognizedChar(s[0]))
  }

  /** parseObject (ast/ast.go:571-596), called on an opening brace. */
  function ParseObject(uq: Unquoter, s: string): (r: Parsed<Value>)
    requires |s| > 0 && s[0] == '{'
    ensures r.Parsed? ==> |r.rest| < |s|
    decreases |s|, 0
  {
    match ObjectEntries(uq, s[1..], [])
    case Failed(e) => Failed(e)
    case Parsed(es, rest) => Parsed(Object(es), rest)
  }

  /** One turn of the loop of parseObject: whitespace markers, then `}` or an entry. */
  function ObjectEntries(uq: Unquoter, s: string, acc: seq<Entry>): (r: Parsed<seq<Entry>>)
    ensures r.Parsed? ==> |r.rest| < |s|
    decreases |s|, 3
  {
    var acc' := acc + Blanks(s);
    var t := AfterWs(s);
    if |t| == 0 then Failed(UnexpectedEof(InObject))
    else if t[0] == '}' then Parsed(acc', t[1..])
    else ObjectStep(uq, ParseEntry(uq, t), acc')
  }

  /** Continues the object loop after an entry (or stops at its error). */
  function ObjectStep(uq: Unquoter, p: Parsed<Entry>, acc: seq<Entry>): (r: Parsed<seq<Entry>>)
    ensures r.Parsed? && p.Parsed? ==> |r.rest| < |p.rest|
    decreases if p.Parsed? then |p.rest| else 0, 4
  {
    match p
    case Failed(e) => Failed(e)
    case Parsed(d, rest) => ObjectEntries(uq, rest, acc + [d])
  }

  /** The choice both loops make on an entry's first byte. */
  function ParseEntry(uq: Unquoter, s: string): (r: Parsed<Entry>)
    requires |s| > 0
    ensures r.Parsed? ==> |r.rest| < |s|
    decreases |s|, 2
  {
    if s[0] == '[' then ParseRepeated(uq, s) else ParseDirective(uq, s)
  }

  /** The identifier after an optional `@`, as parseContext and parseIdentifier take
      it, with the input after it. */
  function ParseName(s: string): (r: Parsed<string>)
    ensures r.Parsed? ==> |r.rest| < |s| && IsIdentifier(r.value)
  {
    var t := if |s| > 0 && s[0] == '@' then s[1..] else s;
    match IdentifierLength(t)
    case None => Failed(NoMatch(Identifier))
    case Some(n) => Parsed(t[..n], t[n..])
  }

  /** parseDirective (ast/ast.go:385-413). */
  function ParseDirective(uq: Unquoter, s: string): (r: Parsed<Entry>)
    ensures r.Parsed? ==> |r.rest| < |s|
    decreases |s|, 1
  {
    if |s| == 0 then Failed(UnexpectedEof(InDirective))
    else
      match ParseName(s)
      case Failed(e) => Failed(e)
      case Parsed(id, afterId) =>
        match ParseValue(uq, AfterWs(afterId))
        case Failed(e) => Failed(e)
        case Parsed(v, rest) => Parsed(Directive(id, s[0] == '@', v), SkipSemi(rest))
  }

  /** parseRepeatedDirective (ast/ast.go:415-459). The context flag is never set. */
  function ParseRepeated(uq: Unquoter, s: string): (r: Parsed<Entry>)
    requires |s| > 0
    ensures r.Parsed? ==> |r.rest| < |s|
    decreases |s|, 1
  {
    if s[0] != '[' then Failed(ExpectedByte('['))
    else if |s| == 1 then Failed(UnexpectedEof(InRepeatedDirective))
    else
      match ParseName(s[1..])
      case Failed(e) => Failed(e)
      case Parsed(id, afterId) => RepeatedTail(uq, id, afterId)
  }

  /** The values of a repeated directive named `id`, and the optional `;` after them. */
  function RepeatedTail(uq: Unquoter, id: string, s: string): (r: Parsed<Entry>)
    ensures r.Parsed? ==> |r.rest| < |s|
    decreases |s|, 3
  {
    match RepeatedValues(uq, s, [])
    case Failed(e) => Failed(e)
    case Parsed(vs, rest) => Parsed(RepeatedDirective(id, false, vs), SkipSemi(rest))
  }

  /** The value loop of parseRepeatedDirective: whitespace, then `]` or a value. */
  function RepeatedValues(uq: Unquoter, s: string, acc: seq<Value>): (r: Parsed<seq<Value>>)
    ensures r.Parsed? ==> |r.rest| < |s|
    decreases |s|, 2
  {
    var t := AfterWs(s);
    if |t| == 0 then Failed(UnexpectedEof(InRepeatedDirective))
    else if t[0] == ']' then Parsed(acc, t[1..])
    else
      RepeatedStep(uq, ParseValue(uq, t), acc)
  }

  /** Continues the value loop after a value (or stops at its error). */
  function RepeatedStep(uq: Unquoter, p: Parsed<Value>, acc: seq<Value>): (r: Parsed<seq<Value>>)
    ensures r.Parsed? && p.Parsed? ==> |r.rest| < |p.rest|
    decreases if p.Parsed? then |p.rest| else 0, 3
  {
    match p
    case Failed(e) => Failed(e)
    case Parsed(v, rest) => RepeatedValues(uq, rest, acc + [v])
  }

  /** The loop of parseDocument (ast/ast.go:357-383): entries until the input ends. */
  function DocumentEntries(uq: Unquoter, s: string, acc: seq<Entry>): (r: Result<seq<Entry>, ParseError>)
    ensures r.Ok? ==> |acc| <= |r.value| && r.value[..|acc|] == acc
    ensures AfterWs(s) == [] ==> r == Ok(acc + Blanks(s))
    decreases |s|, 0
  {
    var acc' := acc + Blanks(s);
    var t := AfterWs(s);
    if |t| == 0 then Ok(acc')
    else
      DocumentStep(uq, ParseEntry(uq, t), acc')
  }

  /** Continues the document loop after an entry (or stops at its error). */
  function DocumentStep(uq: Unquoter, p: Parsed<Entry>, acc: seq<Entry>): (r: Result<seq<Entry>, ParseError>)
    ensures r.Ok? ==> |acc| <= |r.value| && r.value[..|acc|] == acc
    decreases if p.Parsed? then |p.rest| else 0, 1
  {
    match p
    case Failed(e) => Err(e)
    case Parsed(d, rest) => DocumentEntries(uq, rest, acc + [d])
  }

  /** Parser.Parse (ast/ast.go:285-287). */
  function ParseDocument(uq: Unquoter, s: string): (r: Result<Document, ParseError>)
    ensures AfterWs(s) == [] ==> r == Ok(Document(Blanks(s)))
  {
    match DocumentEntries(uq, s, [])
    case Err(e) => Err(e)
    case Ok(es) => Ok(Document(es))
  }
}
