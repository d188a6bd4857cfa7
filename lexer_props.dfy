/** What the scanners of module Lexer match, stated against the languages of the regular expressions. */
module LexerProps {
  import opened Base
  import opened Lexer

  /** Span counts exactly the run it is shown. */
  lemma {:induction false} SpanExact(p: char -> bool, s: string, i: nat, n: nat)
    requires i + n <= |s|
    requires forall k :: i <= k < i + n ==> p(s[k])
    requires i + n == |s| || !p(s[i + n])
    ensures Span(p, s, i) == n
    decreases n
  {
    if n > 0 {
      SpanExact(p, s, i + 1, n - 1);
    }
  }

  lemma {:induction false} SpanAtLeast(p: char -> bool, s: string, i: nat, n: nat)
    requires i + n <= |s|
    requires forall k :: i <= k < i + n ==> p(s[k])
    ensures Span(p, s, i) >= n
    decreases n
  {
    if n > 0 {
      SpanAtLeast(p, s, i + 1, n - 1);
    }
  }

  lemma DigitsSlice(s: string, i: nat, j: nat)
    requires i <= j <= |s|
    ensures AllDigits(s[i..j]) <==> forall k :: i <= k < j ==> IsDigit(s[k])
  {
    if forall k :: i <= k < j ==> IsDigit(s[k]) {
      forall k | 0 <= k < j - i ensures IsDigit(s[i..j][k]) { assert s[i..j][k] == s[i + k]; }
    }
    if AllDigits(s[i..j]) {
      forall k | i <= k < j ensures IsDigit(s[k]) { assert s[k] == s[i..j][k - i]; }
    }
  }

  lemma AccidentalsSlice(s: string, i: nat, j: nat)
    requires i <= j <= |s|
    ensures AllAccidentals(s[i..j]) <==> forall k :: i <= k < j ==> IsAccidental(s[k])
  {
    if forall k :: i <= k < j ==> IsAccidental(s[k]) {
      forall k | 0 <= k < j - i ensures IsAccidental(s[i..j][k]) { assert s[i..j][k] == s[i + k]; }
    }
    if AllAccidentals(s[i..j]) {
      forall k | i <= k < j ensures IsAccidental(s[k]) { assert s[k] == s[i..j][k - i]; }
    }
  }

  /** An identifier followed by a non-identifier character is matched exactly. */
  lemma IdentifierExact(id: string, rest: string)
    requires IsIdentifier(id)
    requires rest == [] || !IsIdentChar(rest[0])
    ensures IdentifierLength(id + rest) == Some(|id|)
  {
    var s := id + rest;
    forall k | 1 <= k < |id| ensures IsIdentChar(s[k]) { assert s[k] == id[k]; }
    if |id| < |s| { assert s[|id|] == rest[0]; }
    SpanExact(IsIdentChar, s, 1, |id| - 1);
  }

  lemma NumberPrefixShape(s: string, m: nat) returns (p: nat)
    requires 0 < m <= |s| && IsNumberText(s[..m])
    ensures SignWidth(s) < p < m && s[p] == '.'
    ensures forall k :: SignWidth(s) <= k < p ==> IsDigit(s[k])
    ensures forall k :: p < k < m ==> IsDigit(s[k])
  {
    var t := s[..m];
    assert SignWidth(t) == SignWidth(s);
    var w := SignWidth(s);
    p :| w < p < |t| && t[p] == '.' && AllDigits(t[w..p]) && AllDigits(t[p + 1..]);
    assert t[w..p] == s[w..p] && t[p + 1..] == s[p + 1..m];
    DigitsSlice(s, w, p);
    DigitsSlice(s, p + 1, m);
  }

  /** Every prefix in the Number language is covered by what NumberLength matches. */
  lemma NumberPrefixBound(s: string, m: nat)
    requires 0 < m <= |s| && IsNumberText(s[..m])
    ensures NumberLength(s).Some? && m <= NumberLength(s).value
  {
    var w := SignWidth(s);
    var p := NumberPrefixShape(s, m);
    SpanExact(IsDigit, s, w, p - w);
    SpanAtLeast(IsDigit, s, p + 1, m - p - 1);
  }

  /** NumberLength finds the longest prefix in the language of the Number pattern, and
      reports None exactly when no prefix is in it. */
  lemma NumberLongest(s: string)
    ensures NumberLength(s).Some? ==>
      IsNumberText(s[..NumberLength(s).value])
      && forall m :: NumberLength(s).value < m <= |s| ==> !IsNumberText(s[..m])
    ensures NumberLength(s).None? ==> forall m :: 0 < m <= |s| ==> !IsNumberText(s[..m])
  {
    var w := SignWidth(s);
    var d := Span(IsDigit, s, w);
    if NumberLength(s).Some? {
      var n := NumberLength(s).value;
      var p := w + d;
      var t := s[..n];
      assert SignWidth(t) == w;
      assert t[w..p] == s[w..p] && t[p + 1..] == s[p + 1..n];
      DigitsSlice(s, w, p);
      DigitsSlice(s, p + 1, n);
      assert IsNumberText(t);
    }
    forall m | 0 < m <= |s|
      ensures IsNumberText(s[..m]) ==> NumberLength(s).Some? && m <= NumberLength(s).value
    {
      if IsNumberText(s[..m]) {
        NumberPrefixBound(s, m);
      }
    }
  }

  /** A Number text followed by a non-digit is matched exactly. */
  lemma NumberExact(t: string, rest: string)
    requires IsNumberText(t)
    requires rest == [] || !IsDigit(rest[0])
    ensures NumberLength(t + rest) == Some(|t|)
  {
    var s := t + rest;
    assert s[..|t|] == t;
    var w := SignWidth(s);
    var p := NumberPrefixShape(s, |t|);
    SpanExact(IsDigit, s, w, p - w);
    if |t| < |s| { assert s[|t|] == rest[0]; }
    SpanExact(IsDigit, s, p + 1, |t| - p - 1);
  }

  lemma NoteTextSplit(s: string, m: nat) returns (p: nat)
    requires 0 < m <= |s| && IsNoteText(s[..m])
    ensures SignWidth(s) < p <= m
    ensures forall k :: SignWidth(s) <= k < p ==> IsDigit(s[k])
    ensures forall k :: p <= k < m ==> IsAccidental(s[k])
  {
    var t := s[..m];
    assert SignWidth(t) == SignWidth(s);
    var w := SignWidth(s);
    p :| w < p <= |t| && AllDigits(t[w..p]) && AllAccidentals(t[p..]);
    assert t[w..p] == s[w..p] && t[p..] == s[p..m];
    DigitsSlice(s, w, p);
    AccidentalsSlice(s, p, m);
  }

  lemma NotePrefixShape(s: string, m: nat)
    requires 0 < m <= |s| && IsNoteText(s[..m])
    ensures Span(IsDigit, s, SignWidth(s)) > 0
    ensures m <= SignWidth(s) + Span(IsDigit, s, SignWidth(s))
              + Span(IsAccidental, s, SignWidth(s) + Span(IsDigit, s, SignWidth(s)))
    ensures m < SignWidth(s) + Span(IsDigit, s, SignWidth(s)) ==> !AtWordBoundary(s, m)
  {
    var w := SignWidth(s);
    var base := w + Span(IsDigit, s, w);
    var p := NoteTextSplit(s, m);
    SpanAtLeast(IsDigit, s, w, p - w);
    if p < base {
      // s[p] is a digit, so the accidental run from p is empty
      assert IsDigit(s[p]) && !IsAccidental(s[p]);
      assert m == p;
      assert m < |s| && IsDigit(s[m - 1]) && IsDigit(s[m]);
      assert IsWordChar(s[m - 1]) && IsWordChar(s[m]);
    } else {
      assert p == base;
      SpanAtLeast(IsAccidental, s, base, m - base);
    }
  }

  lemma {:induction false} NoteEndLongest(s: string, base: nat, a: nat)
    requires 0 < base && base + a <= |s|
    ensures NoteEnd(s, base, a).Some? ==>
      AtWordBoundary(s, NoteEnd(s, base, a).value)
      && forall e :: NoteEnd(s, base, a).value < e <= base + a ==> !AtWordBoundary(s, e)
    ensures NoteEnd(s, base, a).None? ==> forall e :: base <= e <= base + a ==> !AtWordBoundary(s, e)
    decreases a
  {
    if !AtWordBoundary(s, base + a) && a > 0 {
      NoteEndLongest(s, base, a - 1);
    }
  }

  lemma NoteMatchShape(s: string)
    requires NoteLength(s).Some?
    ensures IsNoteText(s[..NoteLength(s).value]) && AtWordBoundary(s, NoteLength(s).value)
  {
    var w := SignWidth(s);
    var base := w + Span(IsDigit, s, w);
    NoteEndLongest(s, base, Span(IsAccidental, s, base));
    var n := NoteLength(s).value;
    var t := s[..n];
    assert SignWidth(t) == w;
    assert t[w..base] == s[w..base] && t[base..] == s[base..n];
    DigitsSlice(s, w, base);
    AccidentalsSlice(s, base, n);
  }

  /** Every boundary-terminated prefix in the Note language is covered by what NoteLength matches. */
  lemma NotePrefixBound(s: string, m: nat)
    requires 0 < m <= |s| && IsNoteText(s[..m]) && AtWordBoundary(s, m)
    ensures NoteLength(s).Some? && m <= NoteLength(s).value
  {
    var w := SignWidth(s);
    var base := w + Span(IsDigit, s, w);
    NotePrefixShape(s, m);
    NoteEndLongest(s, base, Span(IsAccidental, s, base));
  }

  /** NoteLength finds the longest prefix in the language of the Note pattern that is
      followed by a word boundary, and None exactly when there is none. */
  lemma NoteLongest(s: string)
    ensures NoteLength(s).Some? ==>
      IsNoteText(s[..NoteLength(s).value]) && AtWordBoundary(s, NoteLength(s).value)
      && forall m :: NoteLength(s).value < m <= |s| && IsNoteText(s[..m]) ==> !AtWordBoundary(s, m)
    ensures NoteLength(s).None? ==>
      forall m :: 0 < m <= |s| && IsNoteText(s[..m]) ==> !AtWordBoundary(s, m)
  {
    if NoteLength(s).Some? {
      NoteMatchShape(s);
    }
    forall m | 0 < m <= |s| && IsNoteText(s[..m]) && AtWordBoundary(s, m)
      ensures NoteLength(s).Some? && m <= NoteLength(s).value
    {
      NotePrefixBound(s, m);
    }
  }

  /** A bare integer (digits without a decimal point) is not a Number; it is a Note. */
  lemma BareIntegerIsNote(t: string, rest: string)
    requires |t| > 0 && AllDigits(t)
    requires rest == [] || (!IsWordChar(rest[0]) && rest[0] != '.' && rest[0] != '#')
    ensures NumberLength(t + rest).None?
    ensures NoteLength(t + rest) == Some(|t|)
  {
    var s := t + rest;
    assert SignWidth(s) == 0 by { assert IsDigit(s[0]); }
    forall k | 0 <= k < |t| ensures IsDigit(s[k]) { assert s[k] == t[k]; }
    if |t| < |s| { assert s[|t|] == rest[0]; }
    SpanExact(IsDigit, s, 0, |t|);
    SpanExact(IsAccidental, s, |t|, 0);
    assert AtWordBoundary(s, |t|) by {
      assert IsWordChar(s[|t| - 1]);
    }
  }

  /** The quoted scan only ever stops right after a closing quote. */
  lemma {:induction false} QuotedScanCloses(s: string, excluded: char, close: char, i: nat, best: Option<nat>)
    requires 1 <= i <= |s|
    requires best.Some? ==> 2 <= best.value <= i && s[best.value - 1] == close
    ensures var r := QuotedScan(s, excluded, close, i, best); r.Some? ==> s[r.value - 1] == close
    decreases |s| - i
  {
    var best' := if i < |s| && s[i] == close then Some(i + 1) else best;
    if i == |s| || s[i] == excluded {
    } else if s[i] == '\\' {
      if i + 1 < |s| && s[i + 1] != '\n' {
        QuotedScanCloses(s, excluded, close, i + 2, best');
      }
    } else {
      QuotedScanCloses(s, excluded, close, i + 1, best');
    }
  }

  /** A string literal ends with the quote that opened it; a backtick literal
      holds no backtick in between. The single-quote expression as written also
      ends at a single quote. */
  lemma LiteralCloses(s: string)
    requires |s| > 0
    ensures LiteralLength(s).Some? ==> s[LiteralLength(s).value - 1] == s[0]
    ensures s[0] == '`' && LiteralLength(s).Some? ==> forall k :: 1 <= k < LiteralLength(s).value - 1 ==> s[k] != '`'
    ensures SingleQuotedAsWritten(s).Some? ==> s[SingleQuotedAsWritten(s).value - 1] == '\''
  {
    QuotedScanCloses(s, '"', '"', 1, None);
    QuotedScanCloses(s, '\'', '\'', 1, None);
    QuotedScanCloses(s, '"', '\'', 1, None);
  }

  /** A quoted literal whose body holds neither its quote nor a backslash ends at its
      first closing quote, when the body class excludes the quote itself. */
  lemma QuotedEndsAtFirstClose(q: char, body: string, rest: string)
    requires q != '\\'
    requires forall k :: 0 <= k < |body| ==> body[k] != q && body[k] != '\\'
    ensures QuotedScan([q] + body + [q] + rest, q, q, 1, None) == Some(|body| + 2)
  {
    var s := [q] + body + [q] + rest;
    QuotedBodyScan(s, q, body, 1);
  }

  lemma QuotedBodyScan(s: string, q: char, body: string, i: nat)
    requires q != '\\'
    requires |s| >= |body| + 2 && s[|body| + 1] == q
    requires forall k :: 0 <= k < |body| ==> s[k + 1] == body[k] && body[k] != q && body[k] != '\\'
    requires 1 <= i <= |body| + 1
    ensures QuotedScan(s, q, q, i, None) == Some(|body| + 2)
    decreases |body| + 1 - i
  {
    if i <= |body| {
      assert s[i] == body[i - 1];
      QuotedBodyScan(s, q, body, i + 1);
    }
  }

  /** Finding: with the body class of ast/ast.go:482 the single-quoted scanner runs over
      the closing quote, so two literals `'a' 'b'` are taken as one. */
  lemma SingleQuotedAsWrittenSpansTwoLiterals()
    ensures SingleQuotedAsWritten("'a' 'b'") == Some(7)
    ensures SingleQuotedLength("'a' 'b'") == Some(3)
  {
  }
}
