/** What Tokenize produces: tokens of the token language only, skipping everything
    else, with a `-` before a digit taken into the number; and that joining the
    tokens with spaces and tokenizing again gives them back. */
module TokenProps {
  import opened Base
  import opened Lexer
  import opened LexerProps
  import opened Tokens

  lemma FractionShape(s: string)
    requires FractionLength(s).Some?
    ensures IsFractionText(s[..FractionLength(s).value])
  {
    var n := FractionLength(s).value;
    var d := Span(IsDigit, s, 0);
    var t := s[..n];
    DigitsSlice(s, 0, d);
    DigitsSlice(s, d + 1, n);
    assert t[..d] == s[..d] && t[d + 1..] == s[d + 1..n];
    assert t[d] == '/';
  }

  lemma DecimalShape(s: string)
    requires DecimalLength(s).Some?
    ensures IsDecimalText(s[..DecimalLength(s).value])
  {
    var n := DecimalLength(s).value;
    var w := if |s| > 0 && s[0] == '-' then 1 else 0;
    var d := Span(IsDigit, s, w);
    var t := s[..n];
    var u := if w == 1 then t[1..] else t;
    assert u == s[w..n];
    assert u[0] == s[w];
    if w + d < |s| && s[w + d] == '.' {
      DigitsSlice(s, w, w + d);
      DigitsSlice(s, w + d + 1, n);
      assert u[..d] == s[w..w + d] && u[d + 1..] == s[w + d + 1..n];
      assert u[d] == '.';
    } else {
      DigitsSlice(s, w, n);
    }
  }

  lemma TokenShape(s: string)
    requires |s| > 0 && TokenLength(s).Some?
    ensures IsTokenText(s[..TokenLength(s).value])
  {
    if FractionLength(s).Some? {
      FractionShape(s);
    } else if DecimalLength(s).Some? {
      DecimalShape(s);
    } else {
      assert s[..1] == [s[0]];
    }
  }

  /** Every token Tokenize returns is in the token language. */
  lemma {:induction false} TokenizeInLanguage(s: string)
    ensures forall i :: 0 <= i < |Tokenize(s)| ==> IsTokenText(Tokenize(s)[i])
    decreases |s|
  {
    if s != [] {
      match TokenLength(s)
      case Some(n) =>
        TokenShape(s);
        TokenizeInLanguage(s[n..]);
      case None =>
        TokenizeInLanguage(s[1..]);
    }
  }

  /** A character that starts no token is skipped. */
  lemma SkipsNonToken(c: char, s: string)
    requires !IsDigit(c) && c != 'x' && !IsSymbol(c)
    ensures Tokenize([c] + s) == Tokenize(s)
  {
    var t := [c] + s;
    assert t[0] == c && t[1..] == s;
    assert Span(IsDigit, t, 0) == 0;
  }

  /** A `-` directly followed by a digit starts a decimal token, not a `-` token. */
  lemma MinusJoinsNumber(s: string)
    requires |s| >= 2 && s[0] == '-' && IsDigit(s[1])
    ensures TokenLength(s).Some? && TokenLength(s).value >= 2
    ensures IsDecimalText(s[..TokenLength(s).value])
  {
    assert Span(IsDigit, s, 0) == 0;
    assert Span(IsDigit, s, 1) > 0;
    DecimalShape(s);
  }

  // ---------------------------------------------------------------------
  // Round trip

  lemma FractionExact(t: string, r: string)
    requires IsFractionText(t) && (r == [] || r[0] == ' ')
    ensures TokenLength(t + r) == Some(|t|)
  {
    var s := t + r;
    var p :| 0 < p < |t| - 1 && t[p] == '/' && AllDigits(t[..p]) && AllDigits(t[p + 1..]);
    forall k | 0 <= k < p ensures IsDigit(s[k]) { assert s[k] == t[..p][k]; }
    forall k | p + 1 <= k < |t| ensures IsDigit(s[k]) { assert s[k] == t[p + 1..][k - p - 1]; }
    assert s[p] == '/';
    assert |t| == |s| || s[|t|] == ' ';
    SpanExact(IsDigit, s, 0, p);
    SpanExact(IsDigit, s, p + 1, |t| - p - 1);
  }

  /** Every character of s from i up to j is a digit. */
  predicate DigitsAt(s: string, i: nat, j: nat)
    requires i <= j <= |s|
  {
    forall k :: i <= k < j ==> IsDigit(s[k])
  }

  /** The digits-point-digits shape of an unsigned decimal, stated on the indices w..e of s. */
  predicate UnsignedAt(s: string, w: nat, e: nat)
    requires w <= e <= |s|
  {
    w < e && IsDigit(s[w])
    && (DigitsAt(s, w, e)
        || exists p :: w < p < e && s[p] == '.' && DigitsAt(s, w, p) && DigitsAt(s, p + 1, e))
  }

  lemma UnsignedAtSlice(s: string, w: nat, e: nat)
    requires w <= e <= |s| && IsUnsignedDecimal(s[w..e])
    ensures UnsignedAt(s, w, e)
  {
    var u := s[w..e];
    assert forall k :: w <= k < e ==> s[k] == u[k - w];
    if !AllDigits(u) {
      var p :| 0 < p < |u| && u[p] == '.' && AllDigits(u[..p]) && AllDigits(u[p + 1..]);
      assert forall k :: w <= k < w + p ==> IsDigit(s[k]) by {
        forall k | w <= k < w + p ensures IsDigit(s[k]) { assert u[..p][k - w] == s[k]; }
      }
      assert forall k :: w + p < k < e ==> IsDigit(s[k]) by {
        forall k | w + p < k < e ensures IsDigit(s[k]) { assert u[p + 1..][k - w - p - 1] == s[k]; }
      }
      assert s[w + p] == '.';
    }
  }

  /** An unsigned decimal followed by a space or the end is scanned to its end. */
  lemma UnsignedExact(s: string, w: nat, e: nat)
    requires w <= e <= |s| && UnsignedAt(s, w, e) && (e == |s| || s[e] == ' ')
    ensures Span(IsDigit, s, w) > 0
    ensures var d := Span(IsDigit, s, w);
      (if w + d < |s| && s[w + d] == '.' then w + d + 1 + Span(IsDigit, s, w + d + 1) else w + d) == e
  {
    if DigitsAt(s, w, e) {
      DigitsEnd(s, w, e);
    } else {
      var p :| w < p < e && s[p] == '.' && DigitsAt(s, w, p) && DigitsAt(s, p + 1, e);
      PointEnd(s, w, p, e);
    }
  }

  lemma DigitsEnd(s: string, w: nat, e: nat)
    requires w < e <= |s| && (e == |s| || s[e] == ' ')
    requires DigitsAt(s, w, e)
    ensures Span(IsDigit, s, w) == e - w
    ensures !(w + Span(IsDigit, s, w) < |s| && s[w + Span(IsDigit, s, w)] == '.')
  {
    SpanExact(IsDigit, s, w, e - w);
  }

  lemma PointEnd(s: string, w: nat, p: nat, e: nat)
    requires w < p < e <= |s| && s[p] == '.' && (e == |s| || s[e] == ' ')
    requires DigitsAt(s, w, p) && DigitsAt(s, p + 1, e)
    ensures Span(IsDigit, s, w) == p - w
    ensures Span(IsDigit, s, p + 1) == e - p - 1
  {
    SpanExact(IsDigit, s, w, p - w);
    SpanExact(IsDigit, s, p + 1, e - p - 1);
  }

  lemma DecimalExact(t: string, r: string)
    requires IsDecimalText(t) && (r == [] || r[0] == ' ')
    ensures TokenLength(t + r) == Some(|t|)
  {
    var s := t + r;
    var w := if t[0] == '-' then 1 else 0;
    assert UnsignedAt(s, w, |t|) by {
      assert s[w..|t|] == t[w..];
      UnsignedAtSlice(s, w, |t|);
    }
    assert |t| == |s| || s[|t|] == ' ';
    assert s[0] == t[0];
    DecimalScan(s, w, |t|);
  }

  lemma DecimalScan(s: string, w: nat, e: nat)
    requires w <= 1 && w <= e <= |s| && UnsignedAt(s, w, e) && (e == |s| || s[e] == ' ')
    requires w == 1 <==> s[0] == '-'
    ensures TokenLength(s) == Some(e)
  {
    UnsignedExact(s, w, e);
    var d := Span(IsDigit, s, w);
    if w == 0 {
      assert w + d == e || s[w + d] == '.';
      assert FractionLength(s).None?;
    } else {
      assert !IsDigit(s[0]);
      assert Span(IsDigit, s, 0) == 0;
      assert FractionLength(s).None?;
    }
    assert DecimalLength(s) == Some(e);
  }

  /** Every token is matched exactly when a space or the end follows it. */
  lemma TokenExact(t: string, r: string)
    requires IsTokenText(t) && (r == [] || r[0] == ' ')
    ensures TokenLength(t + r) == Some(|t|)
  {
    var s := t + r;
    if IsFractionText(t) {
      FractionExact(t, r);
    } else if IsDecimalText(t) {
      DecimalExact(t, r);
    } else {
      assert s[0] == t[0] && (|s| == 1 || s[1] == ' ');
      assert Span(IsDigit, s, 0) == 0;
      assert |s| == 1 || Span(IsDigit, s, 1) == 0;
    }
  }

  /** Joining tokens with spaces and tokenizing again gives the same tokens. */
  lemma {:induction false} TokenizeJoin(ts: seq<string>)
    requires forall i :: 0 <= i < |ts| ==> IsTokenText(ts[i])
    ensures Tokenize(Join(ts)) == ts
  {
    if |ts| == 1 {
      var t := ts[0];
      TokenExact(t, []);
      assert t + [] == t && |t| > 0;
      assert t[..|t|] == t && t[|t|..] == [];
    } else if ts != [] {
      var t := ts[0];
      var r := Join(ts[1..]);
      var s := t + " " + r;
      assert s == t + ([' '] + r);
      TokenExact(t, [' '] + r);
      assert |t| > 0;
      assert s[..|t|] == t;
      assert s[|t|..] == [' '] + r;
      SkipsNonToken(' ', r);
      TokenizeJoin(ts[1..]);
      assert ts == [t] + ts[1..];
    }
  }

  /** The tokens of any text survive a round trip through their spaced form. */
  lemma RetokenizeIsIdentity(s: string)
    ensures Tokenize(Join(Tokenize(s))) == Tokenize(s)
  {
    TokenizeInLanguage(s);
    TokenizeJoin(Tokenize(s));
  }

  /** `1-2` is two numbers: the `-` belongs to the second. */
  lemma TokenizeOneMinusTwo()
    ensures Tokenize("1-2") == ["1", "-2"]
  {
    var s := "1-2";
    var t := "-2";
    assert Span(IsDigit, s, 0) == 1 by { SpanExact(IsDigit, s, 0, 1); }
    assert TokenLength(s) == Some(1);
    assert s[..1] == "1" && s[1..] == t;
    assert Span(IsDigit, t, 0) == 0;
    assert Span(IsDigit, t, 1) == 1 by { SpanExact(IsDigit, t, 1, 1); }
    assert TokenLength(t) == Some(2);
    assert t[..2] == t && t[2..] == [];
    assert Tokenize(t) == [t] + Tokenize([]);
    assert Tokenize(s) == ["1"] + Tokenize(t);
  }
}
