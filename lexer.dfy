/**
 * The lexical layer of the directive-document parser: the byte classes it
 * tests and one anchored scanner per regular expression of ast/ast.go.
 * Text is a `string` whose characters stand for the input's bytes.
 * Every scanner answers with the length of the prefix it matches, or None.
 */
module Lexer {
  import opened Base

  predicate IsWhitespace(c: char)
  {
    c == ' ' || c == '\t' || c == '\r' || c == '\n'
  }

  predicate IsDigit(c: char)
  {
    '0' <= c <= '9'
  }

  predicate IsLetter(c: char)
  {
    'a' <= c <= 'z' || 'A' <= c <= 'Z'
  }

  predicate IsIdentChar(c: char)
  {
    IsLetter(c) || IsDigit(c) || c == '_'
  }

  /** The characters `\b` treats as word characters. */
  predicate IsWordChar(c: char)
  {
    IsIdentChar(c)
  }

  predicate IsSign(c: char)
  {
    c == '+' || c == '-'
  }

  predicate IsAccidental(c: char)
  {
    c == '#' || c == 'b'
  }

  /** `unicode.IsNumber` applied to a single byte: the ASCII digits and the
      Latin-1 superscripts and vulgar fractions. */
  predicate IsNumberByte(c: char)
  {
    IsDigit(c) || c == '²' || c == '³' || c == '¹'
    || c == '¼' || c == '½' || c == '¾'
  }

  /** Length of the longest run of characters satisfying `p` from index `i`. */
  function Span(p: char -> bool, s: string, i: nat): (n: nat)
    requires i <= |s|
    ensures i + n <= |s|
    ensures forall k :: i <= k < i + n ==> p(s[k])
    ensures i + n == |s| || !p(s[i + n])
    decreases |s| - i
  {
    if i < |s| && p(s[i]) then 1 + Span(p, s, i + 1) else 0
  }

  predicate AllDigits(t: string)
  {
    forall k :: 0 <= k < |t| ==> IsDigit(t[k])
  }

  predicate AllAccidentals(t: string)
  {
    forall k :: 0 <= k < |t| ==> IsAccidental(t[k])
  }

  function SignWidth(s: string): (w: nat)
    ensures w <= |s| && w <= 1
  {
    if |s| > 0 && IsSign(s[0]) then 1 else 0
  }

  /** The language of `[a-zA-Z][a-zA-Z0-9_]+`. */
  predicate IsIdentifier(t: string)
  {
    |t| >= 2 && IsLetter(t[0]) && forall k :: 1 <= k < |t| ==> IsIdentChar(t[k])
  }

  /** The language of `[+-]?[0-9]+\.[0-9]*`. */
  predicate IsNumberText(t: string)
  {
    exists p :: SignWidth(t) < p < |t| && t[p] == '.'
      && AllDigits(t[SignWidth(t)..p]) && AllDigits(t[p + 1..])
  }

  /** The language of `[+-]?[0-9]+[#b]*`. */
  predicate IsNoteText(t: string)
  {
    exists p :: SignWidth(t) < p <= |t|
      && AllDigits(t[SignWidth(t)..p]) && AllAccidentals(t[p..])
  }

  /** `\b` between positions e-1 and e of s; the end of input counts as a non-word character. */
  predicate AtWordBoundary(s: string, e: nat)
    requires 0 < e <= |s|
  {
    IsWordChar(s[e - 1]) != (e < |s| && IsWordChar(s[e]))
  }

  /** Number of whitespace characters at the front of s (what skipWhitespace consumes). */
  function WsSpan(s: string): (n: nat)
    ensures n <= |s|
    ensures forall k :: 0 <= k < n ==> IsWhitespace(s[k])
    ensures n == |s| || !IsWhitespace(s[n])
  {
    Span(IsWhitespace, s, 0)
  }

  function Newlines(s: string): nat
  {
    if s == [] then 0 else (if s[0] == '\n' then 1 else 0) + Newlines(s[1..])
  }

  // ---------------------------------------------------------------------
  // The scanners

  /** `^[a-zA-Z][a-zA-Z0-9_]+` (ast/ast.go:461). */
  function IdentifierLength(s: string): (r: Option<nat>)
    ensures r.Some? ==> r.value <= |s| && IsIdentifier(s[..r.value])
    ensures r.Some? ==> r.value == |s| || !IsIdentChar(s[r.value])
    ensures r.None? <==> !(|s| >= 2 && IsLetter(s[0]) && IsIdentChar(s[1]))
  {
    if |s| > 0 && IsLetter(s[0]) then
      var n := 1 + Span(IsIdentChar, s, 1);
      if n >= 2 then Some(n) else None
    else None
  }

  /** `^([+-]?)[0-9]+(?:\.[0-9]*)\b?` (ast/ast.go:598); the optional `\b` always matches. */
  function NumberLength(s: string): (r: Option<nat>)
    ensures r.Some? ==> 2 <= r.value <= |s|
  {
    var w := SignWidth(s);
    var d := Span(IsDigit, s, w);
    if d > 0 && w + d < |s| && s[w + d] == '.' then Some(w + d + 1 + Span(IsDigit, s, w + d + 1))
    else None
  }

  /** `^([+-]?[0-9]+[#b]*)\b` (ast/ast.go:615). The engine gives back accidentals
      one at a time until a word boundary follows; giving back digits never helps,
      since a digit is followed by a digit there. */
  function NoteLength(s: string): (r: Option<nat>)
    ensures r.Some? ==> 0 < r.value <= |s|
  {
    var w := SignWidth(s);
    var d := Span(IsDigit, s, w);
    if d == 0 then None else NoteEnd(s, w + d, Span(IsAccidental, s, w + d))
  }

  function NoteEnd(s: string, base: nat, a: nat): (r: Option<nat>)
    requires 0 < base && base + a <= |s|
    ensures r.Some? ==> base <= r.value <= base + a
  {
    if AtWordBoundary(s, base + a) then Some(base + a)
    else if a == 0 then None
    else NoteEnd(s, base, a - 1)
  }

  /** `^(\?)` (ast/ast.go:632). */
  function UnknownLength(s: string): (r: Option<nat>)
    ensures r.Some? ==> r.value == 1 <= |s| && s[0] == '?'
  {
    if |s| > 0 && s[0] == '?' then Some(1) else None
  }

  /** A quoted literal `q(?:[^x\\]|\\.)*c` matched from index 0: the body takes any
      character but `x` and the backslash, or a backslash followed by anything but a
      newline; the engine then gives back body items until the closing `c` follows.
      `i` is the position after the body items taken so far, `best` the longest match seen. */
  function QuotedScan(s: string, excluded: char, close: char, i: nat, best: Option<nat>): (r: Option<nat>)
    requires 1 <= i <= |s|
    requires best.Some? ==> 2 <= best.value <= i
    ensures r.Some? ==> 2 <= r.value <= |s|
    ensures best.Some? ==> r.Some?
    decreases |s| - i
  {
    var best' := if i < |s| && s[i] == close then Some(i + 1) else best;
    if i == |s| || s[i] == excluded then best'
    else if s[i] == '\\' then
      if i + 1 < |s| && s[i + 1] != '\n' then QuotedScan(s, excluded, close, i + 2, best') else best'
    else QuotedScan(s, excluded, close, i + 1, best')
  }

  /** `"((?:[^"\\]|\\.)*)"` (ast/ast.go:481), anchored at the opening quote. */
  function DoubleQuotedLength(s: string): (r: Option<nat>)
    requires |s| > 0
  {
    QuotedScan(s, '"', '"', 1, None)
  }

  /** `'((?:[^"\\]|\\.)*)'` exactly as ast/ast.go:482 writes it, anchored: the body
      excludes the double quote, so it runs over single quotes. */
  function SingleQuotedAsWritten(s: string): (r: Option<nat>)
    requires |s| > 0
  {
    QuotedScan(s, '"', '\'', 1, None)
  }

  /** The single-quoted literal as evidently intended: `'((?:[^'\\]|\\.)*)'`. */
  function SingleQuotedLength(s: string): (r: Option<nat>)
    requires |s| > 0
  {
    QuotedScan(s, '\'', '\'', 1, None)
  }

  /** "`([^`]*)`" (ast/ast.go:483), anchored at the opening backtick. */
  function RawQuotedLength(s: string): (r: Option<nat>)
    requires |s| > 0
    ensures r.Some? ==> 2 <= r.value <= |s|
  {
    var n := Span(c => c != '`', s, 1);
    if 1 + n < |s| then Some(n + 2) else None
  }

  /** The quoted literal at the front of s, chosen by its opening character. */
  function LiteralLength(s: string): (r: Option<nat>)
    requires |s| > 0
    ensures r.Some? ==> 2 <= r.value <= |s|
  {
    if s[0] == '"' then DoubleQuotedLength(s)
    else if s[0] == '\'' then SingleQuotedLength(s)
    else if s[0] == '`' then RawQuotedLength(s)
    else None
  }

  /** The regular expressions the parser hands to consumeRegex. */
  datatype Pattern = Identifier | DoubleQuoted | SingleQuoted | RawQuoted | NumberPattern | NotePattern | UnknownPattern

  function Match(p: Pattern, s: string): (r: Option<nat>)
    ensures r.Some? ==> 0 < r.value <= |s|
    ensures r.Some? && (p.Identifier? || p.DoubleQuoted? || p.SingleQuoted? || p.RawQuoted?) ==> 2 <= r.value
  {
    match p
    case Identifier => IdentifierLength(s)
    case DoubleQuoted => if |s| > 0 && s[0] == '"' then DoubleQuotedLength(s) else None
    case SingleQuoted => if |s| > 0 && s[0] == '\'' then SingleQuotedLength(s) else None
    case RawQuoted => if |s| > 0 && s[0] == '`' then RawQuotedLength(s) else None
    case NumberPattern => NumberLength(s)
    case NotePattern => NoteLength(s)
    case UnknownPattern => UnknownLength(s)
  }

  function QuotePattern(c: char): Pattern
  {
    if c == '"' then DoubleQuoted else if c == '\'' then SingleQuoted else RawQuoted
  }

  predicate IsQuote(c: char)
  {
    c == '"' || c == '\'' || c == '`'
  }
}
