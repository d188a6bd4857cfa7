/**
 * The tokenizer of the pattern-expression evaluator (eval/eval.go:24-47).
 * FindAllString of the token expression takes, from the left, the first
 * alternative that matches at each position, and skips a character where none
 * does: fraction `[0-9]+/[0-9]+`, decimal `-?[0-9]+(?:\.[0-9]*)?`, `x`, or one
 * of the symbols `+ - & | % \ ( ) *`.
 */
module Tokens {
  import opened Base
  import opened Lexer

  predicate IsSymbol(c: char)
  {
    c == '+' || c == '-' || c == '&' || c == '|' || c == '%' || c == '\\'
    || c == '(' || c == ')' || c == '*'
  }

  /** `[0-9]+/[0-9]+` at the front of s. */
  function FractionLength(s: string): (r: Option<nat>)
    ensures r.Some? ==> 3 <= r.value <= |s|
  {
    var d := Span(IsDigit, s, 0);
    if d > 0 && d < |s| && s[d] == '/' then
      var e := Span(IsDigit, s, d + 1);
      if e > 0 then Some(d + 1 + e) else None
    else None
  }

  /** `-?[0-9]+(?:\.[0-9]*)?` at the front of s; the optional parts are greedy. */
  function DecimalLength(s: string): (r: Option<nat>)
    ensures r.Some? ==> 0 < r.value <= |s|
  {
    var w := if |s| > 0 && s[0] == '-' then 1 else 0;
    var d := Span(IsDigit, s, w);
    if d == 0 then None
    else if w + d < |s| && s[w + d] == '.' then Some(w + d + 1 + Span(IsDigit, s, w + d + 1))
    else Some(w + d)
  }

  /** The token the expression matches at the front of s, alternatives in order. */
  function TokenLength(s: string): (r: Option<nat>)
    requires |s| > 0
    ensures r.Some? ==> 0 < r.value <= |s|
  {
    if FractionLength(s).Some? then FractionLength(s)
    else if DecimalLength(s).Some? then DecimalLength(s)
    else if s[0] == 'x' || IsSymbol(s[0]) then Some(1)
    else None
  }

  /** Tokenize (eval/eval.go:40-47): the non-overlapping matches from left to right. */
  function Tokenize(s: string): seq<string>
    decreases |s|
  {
    if s == [] then []
    else
      match TokenLength(s)
      case Some(n) => [s[..n]] + Tokenize(s[n..])
      case None => Tokenize(s[1..])
  }

  // ---------------------------------------------------------------------
  // The token language, stated without the scanners

  predicate IsFractionText(t: string)
  {
    exists p :: 0 < p < |t| - 1 && t[p] == '/' && AllDigits(t[..p]) && AllDigits(t[p + 1..])
  }

  /** Digits, then optionally a point and more digits. */
  predicate IsUnsignedDecimal(u: string)
  {
    |u| > 0 && IsDigit(u[0])
    && (AllDigits(u) || exists p :: 0 < p < |u| && u[p] == '.' && AllDigits(u[..p]) && AllDigits(u[p + 1..]))
  }

  predicate IsDecimalText(t: string)
  {
    if |t| > 0 && t[0] == '-' then IsUnsignedDecimal(t[1..]) else IsUnsignedDecimal(t)
  }

  predicate IsTokenText(t: string)
  {
    IsFractionText(t) || IsDecimalText(t) || t == "x" || (|t| == 1 && IsSymbol(t[0]))
  }

  /** The tokens separated by single spaces, as strings.Join writes them. */
  function Join(ts: seq<string>): string
  {
    if ts == [] then []
    else if |ts| == 1 then ts[0]
    else ts[0] + " " + Join(ts[1..])
  }
}
