/**
 * The syntax tree of a directive document (ast/ast.go:59-273).
 * Go keeps every node behind one `Node` interface; here the two roles a node can
 * play are two types: an Entry stands in a Document or an Object, a Value is
 * what a directive carries. The scalar leaves keep their matched text.
 */
module Ast {
  import opened Lexer

  datatype Value =
    | Str(value: string)        // the literal after unquoting
    | Number(value: string)     // the matched text of the Number pattern
    | Note(value: string)       // the matched text of the Note pattern
    | Unknown(value: string)    // the matched `?`
    | Object(entries: seq<Entry>)

  datatype Entry =
    | Whitespace                // a blank line between entries
    | Directive(identifier: string, isContext: bool, value: Value)
    | RepeatedDirective(identifier: string, isContext: bool, values: seq<Value>)

  datatype Document = Document(entries: seq<Entry>)

  /** What every tree the parser builds satisfies: identifiers in the identifier
      language, leaves in their patterns' languages, and no context flag on a
      repeated directive. */
  predicate ValueWellFormed(v: Value)
    decreases v
  {
    match v
    case Str(_) => true
    case Number(t) => IsNumberText(t)
    case Note(t) => IsNoteText(t)
    case Unknown(t) => t == "?"
    case Object(es) => forall i :: 0 <= i < |es| ==> EntryWellFormed(es[i])
  }

  predicate EntryWellFormed(e: Entry)
    decreases e
  {
    match e
    case Whitespace => true
    case Directive(id, _, v) => IsIdentifier(id) && ValueWellFormed(v)
    case RepeatedDirective(id, isContext, vs) =>
      IsIdentifier(id) && !isContext && forall i :: 0 <= i < |vs| ==> ValueWellFormed(vs[i])
  }

  predicate EntriesWellFormed(es: seq<Entry>)
  {
    forall i :: 0 <= i < |es| ==> EntryWellFormed(es[i])
  }

  predicate ValuesWellFormed(vs: seq<Value>)
  {
    forall i :: 0 <= i < |vs| ==> ValueWellFormed(vs[i])
  }
}
