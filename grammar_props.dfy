/** What the grammar of module Grammar guarantees about the trees it builds and the
    input it consumes. */
module GrammarProps {
  import opened Base
  import opened Lexer
  import opened LexerProps
  import opened Ast
  import opened Grammar

  /** r is what is left of s after a prefix has been consumed. */
  predicate IsSuffix(r: string, s: string)
  {
    |r| <= |s| && s[|s| - |r|..] == r
  }

  lemma SuffixTrans(a: string, b: string, c: string)
    requires IsSuffix(a, b) && IsSuffix(b, c)
    ensures IsSuffix(a, c)
  {
    assert c[|c| - |a|..] == c[|c| - |b|..][|b| - |a|..];
  }

  lemma DropIsSuffix(s: string, n: nat)
    requires n <= |s|
    ensures IsSuffix(s[n..], s)
  {
  }

  lemma EntriesAppend(acc: seq<Entry>, more: seq<Entry>)
    requires EntriesWellFormed(acc) && EntriesWellFormed(more)
    ensures EntriesWellFormed(acc + more)
  {
    forall i | 0 <= i < |acc + more| ensures EntryWellFormed((acc + more)[i]) {
      if i >= |acc| { assert (acc + more)[i] == more[i - |acc|]; }
    }
  }

  lemma BlanksWellFormed(s: string)
    ensures EntriesWellFormed(Blanks(s))
  {
  }

  // One turn of each loop of the grammar, stated once so that proofs about a
  // loop need not unfold the whole grammar.

  lemma RepeatedValuesUnfold(uq: Unquoter, s: string, acc: seq<Value>)
    ensures AfterWs(s) == [] ==> RepeatedValues(uq, s, acc) == Failed(UnexpectedEof(InRepeatedDirective))
    ensures AfterWs(s) != [] && AfterWs(s)[0] == ']' ==> RepeatedValues(uq, s, acc) == Parsed(acc, AfterWs(s)[1..])
    ensures AfterWs(s) != [] && AfterWs(s)[0] != ']' ==>
      RepeatedValues(uq, s, acc) == RepeatedStep(uq, ParseValue(uq, AfterWs(s)), acc)
  {
  }

  lemma ObjectEntriesUnfold(uq: Unquoter, s: string, acc: seq<Entry>)
    ensures AfterWs(s) == [] ==> ObjectEntries(uq, s, acc) == Failed(UnexpectedEof(InObject))
    ensures AfterWs(s) != [] && AfterWs(s)[0] == '}' ==>
      ObjectEntries(uq, s, acc) == Parsed(acc + Blanks(s), AfterWs(s)[1..])
    ensures AfterWs(s) != [] && AfterWs(s)[0] != '}' ==>
      ObjectEntries(uq, s, acc) == ObjectStep(uq, ParseEntry(uq, AfterWs(s)), acc + Blanks(s))
  {
  }

  lemma DocumentEntriesUnfold(uq: Unquoter, s: string, acc: seq<Entry>)
    ensures AfterWs(s) == [] ==> DocumentEntries(uq, s, acc) == Ok(acc + Blanks(s))
    ensures AfterWs(s) != [] ==>
      DocumentEntries(uq, s, acc) == DocumentStep(uq, ParseEntry(uq, AfterWs(s)), acc + Blanks(s))
  {
  }

  lemma ValueSuffix(uq: Unquoter, s: string)
    ensures ParseValue(uq, s).Parsed? ==> IsSuffix(ParseValue(uq, s).rest, s)
  {
    ValueSound(uq, s);
  }

  lemma EntrySuffix(uq: Unquoter, s: string)
    requires |s| > 0
    ensures ParseEntry(uq, s).Parsed? ==> IsSuffix(ParseEntry(uq, s).rest, s)
  {
    EntrySound(uq, s);
  }

  // ---------------------------------------------------------------------
  // Soundness: every tree the parser returns is well formed, and the input left
  // over is a suffix of the input it was given.

  lemma StringSound(uq: Unquoter, s: string)
    ensures var r := ParseString(uq, s); r.Parsed? ==> IsSuffix(r.rest, s)
  {
    var r := ParseString(uq, s);
    if r.Parsed? {
      DropIsSuffix(s, |s| - |r.rest|);
    }
  }

  lemma NumericSound(s: string)
    ensures var r := ParseNumeric(s);
      r.Parsed? ==> ValueWellFormed(r.value) && IsSuffix(r.rest, s)
  {
    NumberLongest(s);
    NoteLongest(s);
    var r := ParseNumeric(s);
    if r.Parsed? {
      DropIsSuffix(s, |s| - |r.rest|);
    }
  }

  lemma {:induction false} ValueSound(uq: Unquoter, s: string)
    ensures var r := ParseValue(uq, s);
      r.Parsed? ==> ValueWellFormed(r.value) && IsSuffix(r.rest, s)
    decreases |s|, 1
  {
    if |s| == 0 {
    } else if IsQuote(s[0]) {
      StringSound(uq, s);
    } else if s[0] == '{' {
      ObjectSound(uq, s);
    } else if IsNumberByte(s[0]) || IsSign(s[0]) {
      NumericSound(s);
    } else if s[0] == '?' && UnknownLength(s).Some? {
      DropIsSuffix(s, 1);
    }
  }

  lemma {:induction false} ObjectSound(uq: Unquoter, s: string)
    requires |s| > 0 && s[0] == '{'
    ensures var r := ParseObject(uq, s);
      r.Parsed? ==> ValueWellFormed(r.value) && IsSuffix(r.rest, s)
    decreases |s|, 0
  {
    ObjectEntriesSound(uq, s[1..], []);
    var r := ObjectEntries(uq, s[1..], []);
    if r.Parsed? {
      DropIsSuffix(s, 1);
      SuffixTrans(r.rest, s[1..], s);
    }
  }

  lemma {:induction false} ObjectEntriesSound(uq: Unquoter, s: string, acc: seq<Entry>)
    requires EntriesWellFormed(acc)
    ensures var r := ObjectEntries(uq, s, acc);
      r.Parsed? ==> EntriesWellFormed(r.value) && IsSuffix(r.rest, s)
    decreases |s|, 3
  {
    var t := AfterWs(s);
    BlanksWellFormed(s);
    EntriesAppend(acc, Blanks(s));
    DropIsSuffix(s, WsSpan(s));
    if |t| > 0 && t[0] == '}' {
      DropIsSuffix(t, 1);
      SuffixTrans(t[1..], t, s);
    } else if |t| > 0 {
      EntrySound(uq, t);
      var p := ParseEntry(uq, t);
      if p.Parsed? {
        EntriesAppend(acc + Blanks(s), [p.value]);
        ObjectEntriesSound(uq, p.rest, acc + Blanks(s) + [p.value]);
        var r := ObjectEntries(uq, p.rest, acc + Blanks(s) + [p.value]);
        if r.Parsed? {
          SuffixTrans(r.rest, p.rest, t);
          SuffixTrans(r.rest, t, s);
        }
      }
    }
  }

  lemma {:induction false} EntrySound(uq: Unquoter, s: string)
    requires |s| > 0
    ensures var r := ParseEntry(uq, s);
      r.Parsed? ==> EntryWellFormed(r.value) && IsSuffix(r.rest, s)
    decreases |s|, 2
  {
    if s[0] == '[' {
      RepeatedSound(uq, s);
    } else {
      DirectiveSound(uq, s);
    }
  }

  lemma NameSound(s: string)
    ensures var r := ParseName(s);
      r.Parsed? ==> IsIdentifier(r.value) && IsSuffix(r.rest, s)
  {
    var r := ParseName(s);
    if r.Parsed? {
      DropIsSuffix(s, |s| - |r.rest|);
    }
  }

  lemma {:induction false} DirectiveSound(uq: Unquoter, s: string)
    ensures var r := ParseDirective(uq, s);
      r.Parsed? ==> EntryWellFormed(r.value) && IsSuffix(r.rest, s)
    decreases |s|, 1
  {
    if |s| > 0 {
      NameSound(s);
      var n := ParseName(s);
      if n.Parsed? {
        DirectiveValueSound(uq, n.rest);
        var r := ParseDirective(uq, s);
        if r.Parsed? {
          SuffixTrans(r.rest, n.rest, s);
        }
      }
    }
  }

  /** The value part of a directive, after its name. */
  lemma {:induction false} DirectiveValueSound(uq: Unquoter, s: string)
    ensures var v := ParseValue(uq, AfterWs(s));
      v.Parsed? ==> ValueWellFormed(v.value) && IsSuffix(SkipSemi(v.rest), s)
    decreases |s|, 2
  {
    var t := AfterWs(s);
    DropIsSuffix(s, WsSpan(s));
    ValueSound(uq, t);
    var v := ParseValue(uq, t);
    if v.Parsed? {
      SemiSuffix(v.rest, t, s);
    }
  }

  /** Dropping a `;` from what is left keeps it a suffix. */
  lemma SemiSuffix(r: string, t: string, s: string)
    requires IsSuffix(r, t) && IsSuffix(t, s)
    ensures IsSuffix(SkipSemi(r), s)
  {
    DropIsSuffix(r, |r| - |SkipSemi(r)|);
    SuffixTrans(SkipSemi(r), r, t);
    SuffixTrans(SkipSemi(r), t, s);
  }

  lemma {:induction false} RepeatedSound(uq: Unquoter, s: string)
    requires |s| > 0
    ensures var r := ParseRepeated(uq, s);
      r.Parsed? ==> EntryWellFormed(r.value) && IsSuffix(r.rest, s)
    decreases |s|, 1
  {
    if s[0] == '[' && |s| > 1 {
      NameSound(s[1..]);
      var n := ParseName(s[1..]);
      if n.Parsed? {
        RepeatedTailSound(uq, n.value, n.rest);
        var r := RepeatedTail(uq, n.value, n.rest);
        if r.Parsed? {
          DropIsSuffix(s, 1);
          SuffixTrans(r.rest, n.rest, s[1..]);
          SuffixTrans(r.rest, s[1..], s);
        }
      }
    }
  }

  lemma {:induction false} RepeatedTailSound(uq: Unquoter, id: string, s: string)
    requires IsIdentifier(id)
    ensures var r := RepeatedTail(uq, id, s);
      r.Parsed? ==> EntryWellFormed(r.value) && IsSuffix(r.rest, s)
    decreases |s|, 3
  {
    RepeatedValuesSound(uq, s, []);
    var r := RepeatedValues(uq, s, []);
    if r.Parsed? {
      var rest := SkipSemi(r.rest);
      DropIsSuffix(r.rest, |r.rest| - |rest|);
      SuffixTrans(rest, r.rest, s);
    }
  }

  lemma {:induction false} RepeatedValuesSound(uq: Unquoter, s: string, acc: seq<Value>)
    requires ValuesWellFormed(acc)
    ensures var r := RepeatedValues(uq, s, acc);
      r.Parsed? ==> ValuesWellFormed(r.value) && IsSuffix(r.rest, s)
    decreases |s|, 2
  {
    var t := AfterWs(s);
    DropIsSuffix(s, WsSpan(s));
    if |t| > 0 && t[0] == ']' {
      DropIsSuffix(t, 1);
      SuffixTrans(t[1..], t, s);
    } else if |t| > 0 {
      ValueSound(uq, t);
      var p := ParseValue(uq, t);
      if p.Parsed? {
        ValuesSnoc(acc, p.value);
        RepeatedValuesSound(uq, p.rest, acc + [p.value]);
        var r := RepeatedValues(uq, p.rest, acc + [p.value]);
        if r.Parsed? {
          SuffixTrans(r.rest, p.rest, t);
          SuffixTrans(r.rest, t, s);
        }
      }
    }
  }

  lemma ValuesSnoc(acc: seq<Value>, v: Value)
    requires ValuesWellFormed(acc) && ValueWellFormed(v)
    ensures ValuesWellFormed(acc + [v])
  {
    forall i | 0 <= i < |acc + [v]| ensures ValueWellFormed((acc + [v])[i]) {
      if i < |acc| { assert (acc + [v])[i] == acc[i]; }
    }
  }

  lemma {:induction false} DocumentEntriesSound(uq: Unquoter, s: string, acc: seq<Entry>)
    requires EntriesWellFormed(acc)
    ensures var r := DocumentEntries(uq, s, acc); r.Ok? ==> EntriesWellFormed(r.value)
    decreases |s|
  {
    var t := AfterWs(s);
    BlanksWellFormed(s);
    EntriesAppend(acc, Blanks(s));
    if |t| > 0 {
      EntrySound(uq, t);
      var p := ParseEntry(uq, t);
      if p.Parsed? {
        EntriesAppend(acc + Blanks(s), [p.value]);
        DocumentEntriesSound(uq, p.rest, acc + Blanks(s) + [p.value]);
      }
    }
  }

  /** Every document the parser accepts is well formed: identifiers in the identifier
      language, numbers and notes in their patterns' languages, no context flag on a
      repeated directive. */
  lemma DocumentWellFormed(uq: Unquoter, s: string)
    ensures ParseDocument(uq, s).Ok? ==> EntriesWellFormed(ParseDocument(uq, s).value.entries)
  {
    DocumentEntriesSound(uq, s, []);
  }
}
