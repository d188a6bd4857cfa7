/** Properties of the document grammar: how a value is chosen, the shape of a
    directive, the context flag, and the errors at the end of input. */
module GrammarFacts {
  import opened Base
  import opened Lexer
  import opened LexerProps
  import opened Ast
  import opened Grammar
  import opened GrammarProps

  /** parseValue looks at the first byte only; a scalar leaf holds exactly the text it
      consumed, and a Number is taken whenever the Number pattern matches, a Note
      only when it does not. */
  lemma ValueDispatch(uq: Unquoter, s: string)
    requires |s| > 0
    ensures IsQuote(s[0]) && ParseValue(uq, s).Parsed? ==> ParseValue(uq, s).value.Str?
    ensures s[0] == '{' && ParseValue(uq, s).Parsed? ==> ParseValue(uq, s).value.Object?
    ensures IsNumberByte(s[0]) || IsSign(s[0]) ==> ParseValue(uq, s) == ParseNumeric(s)
    ensures s[0] == '?' ==> ParseValue(uq, s) == Parsed(Unknown("?"), s[1..])
    ensures !IsQuote(s[0]) && s[0] != '{' && !IsNumberByte(s[0]) && !IsSign(s[0]) && s[0] != '?' ==>
      ParseValue(uq, s) == Failed(UnrecognizedChar(s[0]))
  {
    if s[0] == '?' {
      assert s[..1] == "?";
    }
  }

  /** A value starting with a digit or a sign is a Number whenever the Number pattern
      matches and otherwise a Note (the failed Number match consumed nothing); the leaf
      holds exactly the text consumed. */
  lemma NumericDispatch(s: string)
    ensures ParseNumeric(s).Parsed? <==> NumberLength(s).Some? || NoteLength(s).Some?
    ensures ParseNumeric(s).Parsed? ==>
      (ParseNumeric(s).value.Number? <==> NumberLength(s).Some?)
      && (ParseNumeric(s).value.Number? || ParseNumeric(s).value.Note?)
      && ParseNumeric(s).value.value + ParseNumeric(s).rest == s
  {
    match NumberLength(s)
    case Some(n) =>
      assert ParseNumeric(s) == Parsed(Number(s[..n]), s[n..]);
      assert s[..n] + s[n..] == s;
    case None =>
      match NoteLength(s)
      case Some(n) =>
        assert ParseNumeric(s) == Parsed(Note(s[..n]), s[n..]);
        assert s[..n] + s[n..] == s;
      case None =>
        assert ParseNumeric(s).Failed?;
  }

  /** A bare integer such as `120` is not a Number, since the Number pattern needs a
      decimal point: it is parsed as a Note. */
  lemma BareIntegerIsNoteValue(uq: Unquoter, t: string, rest: string)
    requires |t| > 0 && AllDigits(t)
    requires rest == [] || (!IsWordChar(rest[0]) && rest[0] != '.' && rest[0] != '#')
    ensures ParseValue(uq, t + rest) == Parsed(Note(t), rest)
  {
    BareIntegerIsNote(t, rest);
    assert (t + rest)[0] == t[0];
    assert (t + rest)[..|t|] == t && (t + rest)[|t|..] == rest;
  }

  /** Every Number the parser produces has a decimal point. */
  lemma NumberHasPoint(uq: Unquoter, s: string)
    requires ParseValue(uq, s).Parsed? && ParseValue(uq, s).value.Number?
    ensures exists k :: 0 <= k < |ParseValue(uq, s).value.value| && ParseValue(uq, s).value.value[k] == '.'
  {
    ValueSound(uq, s);
    var t := ParseValue(uq, s).value.value;
    var p :| SignWidth(t) < p < |t| && t[p] == '.' && AllDigits(t[SignWidth(t)..p]) && AllDigits(t[p + 1..]);
  }

  /** t starts with a letter that no identifier character follows. */
  predicate OneLetterKey(t: string)
  {
    |t| > 0 && IsLetter(t[0]) && (|t| == 1 || !IsIdentChar(t[1]))
  }

  lemma OneLetterName(t: string)
    requires OneLetterKey(t) || (|t| > 0 && t[0] == '@' && OneLetterKey(t[1..]))
    ensures ParseName(t) == Failed(NoMatch(Identifier))
  {
    if t[0] == '@' {
      assert IdentifierLength(t[1..]).None?;
    } else {
      assert IdentifierLength(t).None?;
    }
  }

  /** An identifier needs two characters: a one-letter key is an error in a
      directive, with or without `@`. */
  lemma OneLetterKeyIsError(uq: Unquoter, s: string)
    requires OneLetterKey(s) || (|s| > 0 && s[0] == '@' && OneLetterKey(s[1..]))
    ensures ParseDirective(uq, s) == Failed(NoMatch(Identifier))
  {
    OneLetterName(s);
  }

  /** The same holds for the name of a repeated directive. */
  lemma OneLetterRepeatedKeyIsError(uq: Unquoter, s: string)
    requires |s| > 1 && s[0] == '['
    requires OneLetterKey(s[1..]) || (s[1] == '@' && OneLetterKey(s[2..]))
    ensures ParseRepeated(uq, s) == Failed(NoMatch(Identifier))
  {
    assert s[1..][1..] == s[2..];
    OneLetterName(s[1..]);
  }

  /** A leading `@` sets the context flag of a directive. */
  lemma DirectiveContextFlag(uq: Unquoter, s: string)
    ensures ParseDirective(uq, s).Parsed? ==>
      |s| > 0 && (ParseDirective(uq, s).value.isContext <==> s[0] == '@')
  {
  }

  /** A repeated directive never has the context flag, even when its name is written
      with `@`. */
  lemma RepeatedContextFlag(uq: Unquoter, s: string)
    requires |s| > 0
    ensures ParseRepeated(uq, s).Parsed? ==>
      ParseRepeated(uq, s).value.RepeatedDirective? && !ParseRepeated(uq, s).value.isContext
  {
  }

  lemma WhitespaceRun(w: string, t: string)
    requires forall k :: 0 <= k < |w| ==> IsWhitespace(w[k])
    requires t == [] || !IsWhitespace(t[0])
    ensures WsSpan(w + t) == |w|
    ensures AfterWs(w + t) == t
    ensures Blanks(w + t) == Markers(Max(0, Newlines(w) - 1))
  {
    var s := w + t;
    forall k | 0 <= k < |w| ensures IsWhitespace(s[k]) { assert s[k] == w[k]; }
    if t != [] { assert s[|w|] == t[0]; }
    SpanExact(IsWhitespace, s, 0, |w|);
    assert s[..|w|] == w;
    assert s[|w|..] == t;
  }

  /** skipWhitespace takes the whole whitespace run and yields one marker per newline
      after the first: `\n\n\n` before an entry gives two blank-line markers. */
  lemma BlanksOfRun(w: string, t: string)
    requires forall k :: 0 <= k < |w| ==> IsWhitespace(w[k])
    requires t == [] || !IsWhitespace(t[0])
    ensures AfterWs(w + t) == t
    ensures |Blanks(w + t)| == Max(0, Newlines(w) - 1)
  {
    WhitespaceRun(w, t);
  }

  /** A directive is its identifier, the skipped whitespace (whose markers are
      dropped), its value, and at most one `;`. */
  lemma DirectiveShape(uq: Unquoter, id: string, w: string, t: string)
    requires IsIdentifier(id)
    requires forall k :: 0 <= k < |w| ==> IsWhitespace(w[k])
    requires t == [] || !IsWhitespace(t[0])
    requires w != [] || t == [] || !IsIdentChar(t[0])
    ensures ParseValue(uq, t).Failed? ==>
      ParseDirective(uq, id + w + t) == Failed(ParseValue(uq, t).error)
    ensures ParseValue(uq, t).Parsed? ==>
      ParseDirective(uq, id + w + t)
        == Parsed(Directive(id, false, ParseValue(uq, t).value), SkipSemi(ParseValue(uq, t).rest))
  {
    NameBeforeSpace(id, w, t);
    WhitespaceRun(w, t);
    var s := id + w + t;
    assert ParseDirective(uq, s) == match ParseValue(uq, AfterWs(w + t))
      case Failed(e) => Failed(e)
      case Parsed(v, rest) => Parsed(Directive(id, false, v), SkipSemi(rest));
  }

  /** The name of `id w t` is id, and what follows it is w + t. */
  lemma NameBeforeSpace(id: string, w: string, t: string)
    requires IsIdentifier(id)
    requires forall k :: 0 <= k < |w| ==> IsWhitespace(w[k])
    requires w != [] || t == [] || !IsIdentChar(t[0])
    ensures |id + w + t| > 0 && (id + w + t)[0] != '@'
    ensures ParseName(id + w + t) == Parsed(id, w + t)
  {
    var s := id + (w + t);
    assert id + w + t == s;
    if w + t != [] {
      if w != [] {
        assert (w + t)[0] == w[0];
        assert IsWhitespace(w[0]);
      } else {
        assert w + t == t;
      }
    }
    IdentifierExact(id, w + t);
    assert s[0] == id[0];
    assert s[..|id|] == id && s[|id|..] == w + t;
  }

  /** A repeated directive with no `]` in what follows its `[` cannot be parsed: it
      runs into the end of input or an error. */
  lemma {:induction false} RepeatedNeedsClose(uq: Unquoter, s: string, acc: seq<Value>)
    requires ']' !in s
    ensures RepeatedValues(uq, s, acc).Failed?
    decreases |s|
  {
    var t := AfterWs(s);
    RepeatedValuesUnfold(uq, s, acc);
    if |t| > 0 {
      assert t[0] == s[WsSpan(s)];
      ValueSuffix(uq, t);
      var p := ParseValue(uq, t);
      if p.Parsed? {
        assert p.rest == s[WsSpan(s)..][|t| - |p.rest|..];
        RepeatedNeedsClose(uq, p.rest, acc + [p.value]);
      }
    }
  }

  /** An object with no `}` in what follows its `{` cannot be parsed. */
  lemma {:induction false} ObjectNeedsClose(uq: Unquoter, s: string, acc: seq<Entry>)
    requires '}' !in s
    ensures ObjectEntries(uq, s, acc).Failed?
    decreases |s|
  {
    var t := AfterWs(s);
    ObjectEntriesUnfold(uq, s, acc);
    if |t| > 0 {
      assert t[0] == s[WsSpan(s)];
      EntrySuffix(uq, t);
      var p := ParseEntry(uq, t);
      if p.Parsed? {
        assert p.rest == s[WsSpan(s)..][|t| - |p.rest|..];
        ObjectNeedsClose(uq, p.rest, acc + Blanks(s) + [p.value]);
      }
    }
  }

  // ---------------------------------------------------------------------
  // The values of a repeated directive

  predicate Spaces(w: string)
  {
    forall k :: 0 <= k < |w| ==> IsWhitespace(w[k])
  }

  /** What may follow a value inside a repeated directive without joining it. */
  predicate EndsValue(y: string)
  {
    y == [] || IsWhitespace(y[0]) || y[0] == ']'
  }

  /** x is the whole text of the value v wherever it is followed by whitespace,
      a `]` or the end of input. */
  ghost predicate ValueText(uq: Unquoter, x: string, v: Value)
  {
    |x| > 0 && !IsWhitespace(x[0]) && x[0] != ']'
    && forall y {:trigger ParseValue(uq, x + y)} :: EndsValue(y) ==> ParseValue(uq, x + y) == Parsed(v, y)
  }

  /** ws[0] + ts[0] + ws[1] + ts[1] + ... */
  function Spaced(ws: seq<string>, ts: seq<string>): string
    requires |ws| == |ts|
  {
    if ws == [] then "" else ws[0] + ts[0] + Spaced(ws[1..], ts[1..])
  }

  /** Value texts each preceded by a non-empty run of whitespace give exactly
      their values, in order, after those already collected. */
  lemma {:induction false} RepeatedValuesShape(uq: Unquoter, ws: seq<string>, ts: seq<string>, vs: seq<Value>,
                                               z: string, acc: seq<Value>)
    requires |ws| == |ts| == |vs|
    requires forall i :: 0 <= i < |ws| ==> ws[i] != [] && Spaces(ws[i])
    requires forall i :: 0 <= i < |ts| ==> ValueText(uq, ts[i], vs[i])
    requires EndsValue(z)
    ensures RepeatedValues(uq, Spaced(ws, ts) + z, acc) == RepeatedValues(uq, z, acc + vs)
    decreases |ws|
  {
    if ws == [] {
      assert Spaced(ws, ts) + z == z && acc + vs == acc;
    } else {
      var y := Spaced(ws[1..], ts[1..]) + z;
      SpacedStart(ws[1..], ts[1..], z);
      assert Spaced(ws, ts) + z == ws[0] + ts[0] + y;
      RepeatedValuesStep(uq, ws[0], ts[0], vs[0], y, acc);
      RepeatedValuesShape(uq, ws[1..], ts[1..], vs[1..], z, acc + [vs[0]]);
      SnocCons(acc, vs);
    }
  }

  lemma SnocCons<T>(acc: seq<T>, vs: seq<T>)
    requires vs != []
    ensures acc + [vs[0]] + vs[1..] == acc + vs
  {
    assert vs == [vs[0]] + vs[1..];
  }

  /** One value of the loop: whitespace, then the whole text of a value. */
  lemma RepeatedValuesStep(uq: Unquoter, w: string, x: string, v: Value, y: string, acc: seq<Value>)
    requires w != [] && Spaces(w) && ValueText(uq, x, v) && EndsValue(y)
    ensures RepeatedValues(uq, w + x + y, acc) == RepeatedValues(uq, y, acc + [v])
  {
    var s := w + (x + y);
    assert w + x + y == s;
    WhitespaceRun(w, x + y);
    assert (x + y)[0] == x[0];
    RepeatedValuesUnfold(uq, s, acc);
    assert ParseValue(uq, x + y) == Parsed(v, y);
  }

  /** The loop stops at a `]` after whitespace. */
  lemma RepeatedValuesClose(uq: Unquoter, w: string, rest: string, acc: seq<Value>)
    requires Spaces(w)
    ensures EndsValue(w + "]" + rest)
    ensures RepeatedValues(uq, w + "]" + rest, acc) == Parsed(acc, rest)
  {
    var s := w + ("]" + rest);
    assert w + "]" + rest == s;
    WhitespaceRun(w, "]" + rest);
    if w != [] {
      assert s[0] == w[0];
    }
    RepeatedValuesUnfold(uq, s, acc);
    assert ("]" + rest)[1..] == rest;
  }

  /** Spaced text followed by what may end a value may itself end a value. */
  lemma SpacedStart(ws: seq<string>, ts: seq<string>, z: string)
    requires |ws| == |ts|
    requires forall i :: 0 <= i < |ws| ==> ws[i] != [] && Spaces(ws[i])
    requires EndsValue(z)
    ensures EndsValue(Spaced(ws, ts) + z)
  {
    if ws != [] {
      assert (Spaced(ws, ts) + z)[0] == ws[0][0];
    } else {
      assert Spaced(ws, ts) + z == z;
    }
  }

  /** A repeated directive `[id w1 t1 ... wn tn w]` holds exactly the values of
      t1 ... tn, in order; `[id]` holds none. At most one `;` after it is taken. */
  lemma RepeatedShape(uq: Unquoter, id: string, ws: seq<string>, ts: seq<string>, vs: seq<Value>,
                      w: string, rest: string)
    requires IsIdentifier(id)
    requires |ws| == |ts| == |vs|
    requires forall i :: 0 <= i < |ws| ==> ws[i] != [] && Spaces(ws[i])
    requires forall i :: 0 <= i < |ts| ==> ValueText(uq, ts[i], vs[i])
    requires Spaces(w)
    ensures ParseRepeated(uq, "[" + id + Spaced(ws, ts) + w + "]" + rest)
      == Parsed(RepeatedDirective(id, false, vs), SkipSemi(rest))
  {
    var e := w + "]" + rest;
    RepeatedValuesClose(uq, w, rest, [] + vs);
    SpacedStart(ws, ts, e);
    var z := Spaced(ws, ts) + e;
    RepeatedValuesShape(uq, ws, ts, vs, e, []);
    RepeatedOpen(uq, id, z);
    assert "[" + id + z == "[" + id + Spaced(ws, ts) + w + "]" + rest by {
      Regroup("[" + id, Spaced(ws, ts), w, "]", rest);
    }
    assert [] + vs == vs;
  }

  lemma Regroup<T>(a: seq<T>, b: seq<T>, c: seq<T>, d: seq<T>, e: seq<T>)
    ensures a + (b + (c + d + e)) == a + b + c + d + e
  {
  }

  /** After `[` and a name, the value loop starts at once on what may end a value. */
  lemma RepeatedOpen(uq: Unquoter, id: string, z: string)
    requires IsIdentifier(id) && EndsValue(z)
    ensures ParseRepeated(uq, "[" + id + z) == RepeatedTail(uq, id, z)
  {
    var s := "[" + id + z;
    NameAtClose(id, z);
    assert s[1..] == id + z;
    ParseRepeatedUnfold(uq, s);
  }

  lemma NameAtClose(id: string, z: string)
    requires IsIdentifier(id) && EndsValue(z)
    ensures ParseName(id + z) == Parsed(id, z)
  {
    if z != [] {
      assert !IsIdentChar(z[0]);
    }
    NameBeforeSpace(id, [], z);
    assert id + [] + z == id + z;
  }

  lemma ParseRepeatedUnfold(uq: Unquoter, s: string)
    requires |s| > 1 && s[0] == '[' && ParseName(s[1..]).Parsed?
    ensures ParseRepeated(uq, s) == RepeatedTail(uq, ParseName(s[1..]).value, ParseName(s[1..]).rest)
  {
  }

  /** `?` is the whole text of an Unknown value. */
  lemma UnknownText(uq: Unquoter)
    ensures ValueText(uq, "?", Unknown("?"))
  {
    forall y | EndsValue(y) ensures ParseValue(uq, "?" + y) == Parsed(Unknown("?"), y) {
      ValueDispatch(uq, "?" + y);
      assert ("?" + y)[1..] == y;
    }
  }

  /** `[ab ? ?]` holds two Unknown values. */
  lemma RepeatedTwoUnknowns(uq: Unquoter)
    ensures ParseRepeated(uq, "[ab ? ?]") == Parsed(RepeatedDirective("ab", false, [Unknown("?"), Unknown("?")]), "")
  {
    var ws, ts, vs := [" ", " "], ["?", "?"], [Unknown("?"), Unknown("?")];
    UnknownText(uq);
    assert IsIdentifier("ab");
    assert forall i :: 0 <= i < |ws| ==> ws[i] != [] && Spaces(ws[i]);
    assert forall i :: 0 <= i < |ts| ==> ts[i] == "?" && vs[i] == Unknown("?");
    RepeatedShape(uq, "ab", ws, ts, vs, "", "");
    TwoUnknownsText(ws, ts);
  }

  lemma TwoUnknownsText(ws: seq<string>, ts: seq<string>)
    requires ws == [" ", " "] && ts == ["?", "?"]
    ensures "[" + "ab" + Spaced(ws, ts) + "" + "]" + "" == "[ab ? ?]"
  {
    assert Spaced(ws[1..], ts[1..]) == " ?" by {
      assert ws[1..][1..] == [] && ts[1..][1..] == [];
    }
  }

  /** `[ab]` holds no values. */
  lemma RepeatedNoValues(uq: Unquoter)
    ensures ParseRepeated(uq, "[ab]") == Parsed(RepeatedDirective("ab", false, []), "")
  {
    assert IsIdentifier("ab");
    RepeatedShape(uq, "ab", [], [], [], "", "");
    assert "[" + "ab" + Spaced([], []) + "" + "]" + "" == "[ab]";
  }
}
