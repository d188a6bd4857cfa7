# directive: a verified model of the document parser, the binder and the pattern evaluator

`directive` reads a small configuration language and binds it onto a Go value
through reflection. A document is a sequence of entries:

- `name value;` is a directive, with `@name` marking a context directive;
- `[name v1 v2 ...]` is a repeated directive;
- blank lines are kept as whitespace markers.

A value is one of:

- a quoted string (`"..."`, `'...'` or a backtick literal);
- a Number (digits with a decimal point);
- a Note (digits with `#`/`b` accidentals, which includes a bare integer);
- the unknown marker `?`;
- an object `{ ... }` holding entries of its own.

Binding walks the tree and, for each directive, calls the target's exported
method of that name or sets its exported field. Object values are bound into
the child that `get` fetches.

A second package evaluates pattern expressions such as `1 2 + 3 4` or
`0 % 0.33 0 2` to lists of numbers, as follows:

1. a regular-expression tokenizer;
2. a parser that collects parenthesised groups;
3. `compact`, which splits at the leftmost operator of the first precedence level that has one;
4. evaluators for `+`, `-` (cross products, left operand outer), `%` (the range between bounds) and `*` (repetition).

The model is organised as follows.

- **Lexer** and **LexerProps**: the byte classes and one anchored scanner per
  regular expression of `ast/ast.go`. The lemmas prove that the Number and Note
  scanners return the longest match of their languages, that a bare integer is a
  Note, and that a quoted literal ends at a closing quote (at the first one when
  its body holds no quote or backslash).
- **Ast**: the typed syntax tree, and the well-formedness every parsed tree has.
- **Grammar**, **GrammarProps** and **GrammarFacts**: the recursive-descent
  grammar as total functions from the input to a parsed value and the rest of
  the input. The lemmas prove:
  - soundness: parsed trees are well formed, and the rest is a suffix of the input;
  - the dispatch on the first byte;
  - the one-letter-name rejection;
  - the whitespace markers;
  - the exact value list of a repeated directive, such as `[id ? ?]` and `[id]`;
  - what an unclosed object or repeated directive does.
- **DocParser**: class `Parser`, which owns the unread input `data` and
  consumes it in place, as the Go `Parser` does. Every method is proved to
  compute the Grammar function of the same role.
- **Bind**, **Binding** and **BindProps**: binding, with reflection replaced by
  an explicit capability table (`World`). The bodies of the target's methods are
  a parameter (`Host`): what a call does to the objects, and which object a
  getter returns. Both may depend on the calls made so far.
  - Bind states `get`, `set` and the Execute methods as functions.
  - Class `Binding.Binder` runs them with a mutable world and is proved to
    compute them.
  - The BindProps lemmas cover methods before fields, what a failure changes,
    error propagation and panic recovery, and the one call get makes. They also
    show that a factory getter gives each block of a repeated directive its own
    child.
- **Tokens** and **TokenProps**: the evaluator's tokenizer. It is proved to
  yield only tokens of its language, and to give back the same tokens from
  their space-joined text.
- **EvalSyntax**, **EvalParser** and **EvalSyntaxProps**: the parse tree,
  `compact`, and class `EvalParser.Parser`, which consumes its token list in
  place. The lemmas prove two things. Every successful parse reads back as
  exactly its tokens. A parse fails exactly when some `(` is not closed
  before the next `(`.
- **EvalSemantics**, **Evaluator** and **EvalProps**: what each operator
  computes, as functions over the reals. The Evaluate methods keep Go's loops
  (an array filled by index for `+`/`-`, and the three `%` loops) and are
  proved to compute those functions. The lemmas state:
  - the cross-product index law;
  - that `%` puts every value in `[min, max)` by whole steps;
  - the length and contents of `*`.
- **EvalExamples**: every expression of the package's own tests, evaluated
  end to end from its text.

Conventions used throughout:

- Strings are `seq<char>`, and each character stands for one byte of input.
- A Go panic or a failed `log.Fatalf` becomes an explicit outcome: a
  `Status`, `ParseError` or `Fault` value.
- Floating-point numbers become reals.
- `strconv.Unquote`, `strconv.ParseInt` and `strconv.ParseFloat` are
  parameters (`Unquoter`, `Numerals`, `num`); their own grammars are not
  modelled. The target's method bodies are the parameter `Host`.

The package's test of `4 3 4 2 + 0 -1` (eval/eval_test.go:81-86) lists the
sums right operand outer (`4 3 4 2 3 2 3 1`). That disagrees with the loops of
eval/node.go:38-47, which put the left operand outer, and with the `-` test at
eval/eval_test.go:51-54. The model follows the code:
`EvalExamples.ExampleThing` proves the result `4 3 3 2 4 3 2 1`.

## Model

| member | source | states |
|---|---|---|
| Lexer.Span | ast/ast.go:289-294 | the length of the longest run of bytes of a class from an index: all of it lies in the class, and the next byte is outside it or the input ends |
| Lexer.WsSpan | ast/ast.go:326-343 | the whitespace run skipWhitespace consumes: every byte of it is whitespace, and the byte after it is not |
| Lexer.IdentifierLength | ast/ast.go:461 | a match of `^[a-zA-Z][a-zA-Z0-9_]+` is an identifier followed by a non-identifier byte, and there is none exactly when the input does not start with a letter and an identifier byte |
| Lexer.NumberLength | ast/ast.go:598 | a Number match is at least two bytes long and within the input |
| Lexer.NoteLength | ast/ast.go:615 | a Note match is non-empty and within the input |
| Lexer.UnknownLength | ast/ast.go:632 | the unknown pattern matches exactly one `?` |
| Lexer.RawQuotedLength | ast/ast.go:483 | a backtick literal spans at least its two backticks |
| Lexer.LiteralLength | ast/ast.go:481-483 | the literal chosen by the opening quote spans at least two bytes |
| Lexer.Match | ast/ast.go:314-324 | the prefix consumeRegex takes is non-empty, and at least two bytes for an identifier or a string literal |
| LexerProps.SpanExact | ast/ast.go:326-343 | a run of a class ended by a byte outside it is measured exactly |
| LexerProps.IdentifierExact | ast/ast.go:461-471 | an identifier followed by a non-identifier byte is matched with exactly its length |
| LexerProps.NumberLongest | ast/ast.go:598 | NumberLength is the longest prefix in the Number language, and None when no prefix is in it |
| LexerProps.NumberExact | ast/ast.go:598-613 | a Number text followed by a non-digit is matched exactly |
| LexerProps.NoteLongest | ast/ast.go:615 | NoteLength is the longest prefix in the Note language that ends at a word boundary, and None when there is none |
| LexerProps.NoteMatchShape | ast/ast.go:615-630 | every Note match is Note text ending at a word boundary |
| LexerProps.BareIntegerIsNote | ast/ast.go:598-615 | digits without a point are no Number but are a Note of exactly that length |
| LexerProps.QuotedEndsAtFirstClose | ast/ast.go:481 | a quoted literal without quotes or backslashes in its body ends at the first closing quote |
| LexerProps.SingleQuotedAsWrittenSpansTwoLiterals | ast/ast.go:482 | on `'a' 'b'` the single-quote expression as written matches all 7 bytes, while the intended one matches `'a'` |
| LexerProps.QuotedScanCloses | ast/ast.go:481-482 | a quoted-literal scan that matches ends on the closing quote it looks for |
| LexerProps.LiteralCloses | ast/ast.go:481-483 | a literal ends with the quote it opened with, a backtick literal holds no backtick inside, and the single-quote expression as written also ends on a `'` |
| Grammar.Blanks | ast/ast.go:326-343 | skipWhitespace yields one whitespace marker per newline after the first of the run it skips, and nothing else |
| Grammar.Markers | ast/ast.go:330-335 | n markers, each a Whitespace entry |
| Grammar.AfterWs | ast/ast.go:326-343 | skipping whitespace never lengthens the input |
| Grammar.SkipSemi | ast/ast.go:345-349 | skipping an optional `;` never lengthens the input |
| Grammar.WithoutCR | ast/ast.go:555-565 | what Unquote leaves of a backtick literal holds no carriage return and is no longer than the literal |
| Grammar.ParseString | ast/ast.go:523-569 | a parsed string is a Str and consumes input; its suffix law is GrammarProps.StringSound |
| Grammar.ParseNumeric | ast/ast.go:503-511 | a Number, or else a Note, consumes input; which one is GrammarFacts.NumericDispatch |
| Grammar.ParseValue | ast/ast.go:485-521 | a parsed value consumes input; its meaning is GrammarFacts.ValueDispatch and GrammarProps.ValueSound |
| Grammar.ParseObject | ast/ast.go:571-596 | a parsed object consumes input; GrammarProps.ObjectSound and GrammarFacts.ObjectNeedsClose say more |
| Grammar.ObjectEntries | ast/ast.go:574-595 | each turn of the object loop consumes input |
| Grammar.ParseEntry | ast/ast.go:369-381 | an entry started by `[` or a name consumes input |
| Grammar.ParseName | ast/ast.go:389-404 | a parsed name is an identifier and consumes input |
| Grammar.ParseDirective | ast/ast.go:385-413 | a parsed directive consumes input; its shape is GrammarFacts.DirectiveShape |
| Grammar.ParseRepeated | ast/ast.go:415-432 | a parsed repeated directive consumes input; GrammarFacts.RepeatedShape states its values |
| Grammar.RepeatedTail | ast/ast.go:434-458 | the value list and its `;` consume input; the values are those GrammarFacts.RepeatedShape states |
| Grammar.RepeatedValues | ast/ast.go:434-456 | each turn of the value loop consumes input; GrammarFacts.RepeatedValuesShape states the values it collects |
| Grammar.DocumentEntries | ast/ast.go:357-383 | the document loop keeps the entries already collected in front; on input that is all whitespace it yields exactly its markers |
| Grammar.DocumentStep | ast/ast.go:369-381 | after an entry, the loop keeps the entries already collected in front |
| Grammar.ParseDocument | ast/ast.go:285-287 | a document of whitespace only is its markers and nothing else |
| GrammarProps.ValueSound | ast/ast.go:485-521 | every parsed value is well formed, and the input left is a suffix of the input |
| GrammarProps.StringSound | ast/ast.go:523-569 | the input left after a string is a suffix of the input |
| GrammarProps.NumericSound | ast/ast.go:598-630 | a parsed Number or Note is in its pattern's language and leaves a suffix |
| GrammarProps.ObjectSound | ast/ast.go:571-596 | a parsed object holds only well-formed entries and leaves a suffix |
| GrammarProps.ObjectEntriesSound | ast/ast.go:574-595 | the object loop keeps its entries well formed and leaves a suffix |
| GrammarProps.EntrySound | ast/ast.go:369-381 | every parsed entry is well formed and leaves a suffix |
| GrammarProps.NameSound | ast/ast.go:463-479 | a parsed name is an identifier and leaves a suffix |
| GrammarProps.DirectiveSound | ast/ast.go:385-413 | a parsed directive is well formed and leaves a suffix |
| GrammarProps.DirectiveValueSound | ast/ast.go:406-412 | the value after a directive's name, and the `;` after it, leave a suffix |
| GrammarProps.RepeatedSound | ast/ast.go:415-459 | a parsed repeated directive is well formed, never a context directive, and leaves a suffix |
| GrammarProps.RepeatedTailSound | ast/ast.go:434-458 | the values of a repeated directive are well formed and leave a suffix |
| GrammarProps.RepeatedValuesSound | ast/ast.go:434-456 | the value loop keeps its values well formed and leaves a suffix |
| GrammarProps.DocumentEntriesSound | ast/ast.go:357-383 | the document loop keeps its entries well formed |
| GrammarProps.DocumentWellFormed | ast/ast.go:357-383 | every document Parse returns consists of well-formed entries |
| GrammarProps.RepeatedValuesUnfold | ast/ast.go:434-456 | one turn of the value loop: end of input is an error, `]` ends the list, anything else is a value |
| GrammarProps.ObjectEntriesUnfold | ast/ast.go:574-595 | one turn of the object loop: end of input is an error, `}` ends the object, anything else is an entry |
| GrammarProps.DocumentEntriesUnfold | ast/ast.go:361-382 | one turn of the document loop: end of input ends the document, anything else is an entry |
| GrammarProps.ValueSuffix | ast/ast.go:485-521 | the input left after a value is a suffix of the input |
| GrammarProps.EntrySuffix | ast/ast.go:369-381 | the input left after an entry is a suffix of the input |
| GrammarFacts.ValueDispatch | ast/ast.go:485-521 | the first byte decides: a quote gives a Str, `{` an Object, a sign or a digit a Number or Note, `?` the Unknown, and any other byte the unrecognised-character error |
| GrammarFacts.NumericDispatch | ast/ast.go:503-511 | the numeric branch succeeds exactly when a Number or a Note matches, and gives a Number exactly when the Number pattern matches; the value's text followed by the rest is the input |
| GrammarFacts.BareIntegerIsNoteValue | ast/ast.go:503-511 | a bare integer value parses as a Note of its digits |
| GrammarFacts.NumberHasPoint | ast/ast.go:598-613 | every Number the parser yields contains a decimal point |
| GrammarFacts.OneLetterName | ast/ast.go:461 | a one-letter name, with or without `@`, does not match the identifier pattern |
| GrammarFacts.OneLetterKeyIsError | ast/ast.go:461 | a directive with a one-letter name is a parse error |
| GrammarFacts.OneLetterRepeatedKeyIsError | ast/ast.go:461 | a repeated directive with a one-letter name is a parse error |
| GrammarFacts.DirectiveContextFlag | ast/ast.go:393-398 | a directive is a context directive exactly when it starts with `@` |
| GrammarFacts.RepeatedContextFlag | ast/ast.go:424-425 | a parsed repeated directive never has the context flag, even after `@` |
| GrammarFacts.WhitespaceRun | ast/ast.go:326-343 | a whitespace run followed by a non-blank is skipped entirely, with one marker per newline after the first |
| GrammarFacts.BlanksOfRun | ast/ast.go:326-343 | the number of markers for a run is its newlines minus one, never negative |
| GrammarFacts.DirectiveShape | ast/ast.go:385-413 | `id ws value` parses to the directive of that id and value, with an optional `;` skipped, and fails with the value's error |
| GrammarFacts.RepeatedNeedsClose | ast/ast.go:434-456 | a repeated directive without a `]` after it cannot be parsed |
| GrammarFacts.ObjectNeedsClose | ast/ast.go:574-581 | an object without a `}` after it cannot be parsed |
| GrammarFacts.RepeatedValuesStep | ast/ast.go:437-455 | whitespace and then the whole text of a value give that value, and the loop goes on right after it |
| GrammarFacts.RepeatedValuesShape | ast/ast.go:434-456 | value texts each after whitespace give exactly their values, in order, after those already collected |
| GrammarFacts.RepeatedValuesClose | ast/ast.go:440-445 | whitespace and a `]` end a value text, so the loop stops there |
| GrammarFacts.RepeatedOpen | ast/ast.go:415-432 | `[` and an identifier start the value loop right after the identifier, with no values yet |
| GrammarFacts.RepeatedShape | ast/ast.go:415-458 | `[id ws1 v1 ... wsn vn ws]` parses to the repeated directive of id with exactly v1 ... vn, and an optional `;` after it is skipped |
| GrammarFacts.UnknownText | ast/ast.go:632-647 | `?` is the whole text of an Unknown wherever whitespace, a `]` or the end follows |
| GrammarFacts.RepeatedTwoUnknowns | ast/ast.go:415-458 | `[ab ? ?]` holds exactly two Unknown values |
| GrammarFacts.RepeatedNoValues | ast/ast.go:415-458 | `[ab]` holds no values |
| DocParser.Parser.constructor | ast/ast.go:279-283 | a parser holds exactly the given input |
| DocParser.Parser.PeekByte | ast/ast.go:296-302 | the next byte, or a space with false at the end of input |
| DocParser.Parser.ConsumeByte | ast/ast.go:304-312 | the expected byte is taken off the input; any other byte is an error and leaves the input unchanged |
| DocParser.Parser.ConsumeRegex | ast/ast.go:314-324 | the matched prefix is returned and removed; without a match the input is unchanged and the error names the pattern |
| DocParser.Parser.SkipWhitespace | ast/ast.go:326-343 | consumes the leading whitespace and returns its markers, as Grammar.AfterWs and Grammar.Blanks |
| DocParser.Parser.SkipSemi | ast/ast.go:345-349 | consumes one leading `;`, if any |
| DocParser.Parser.ParseIdentifier | ast/ast.go:463-471 | returns and removes the identifier match, or the no-match error with the input unchanged |
| DocParser.Parser.ParseContext | ast/ast.go:473-479 | after a leading `@` it parses the name; any other byte is the expected-`@` error |
| DocParser.Parser.ParseName | ast/ast.go:389-404 | the name of a directive, with or without `@`, as Grammar.ParseName |
| DocParser.Parser.ParseDocument | ast/ast.go:357-383 | the document loop computes Grammar.ParseDocument and, on success, consumes all input |
| DocParser.Parser.ParseEntry | ast/ast.go:369-381 | one entry, as Grammar.ParseEntry, leaving the rest it names |
| DocParser.Parser.Parse | ast/ast.go:285-287 | Parse is Grammar.ParseDocument of the whole input |
| DocParser.Parser.ParseDirective | ast/ast.go:385-413 | as Grammar.ParseDirective, leaving the rest it names |
| DocParser.Parser.ParseRepeated | ast/ast.go:415-432 | as Grammar.ParseRepeated, leaving the rest it names |
| DocParser.Parser.ParseRepeatedTail | ast/ast.go:434-458 | the value loop and the `;` after it, as Grammar.RepeatedTail |
| DocParser.Parser.TakeClose | ast/ast.go:437-455 | reports the end of input, and takes a `]` off the input when one is next |
| DocParser.Parser.ParseValue | ast/ast.go:485-521 | as Grammar.ParseValue, leaving the rest it names |
| DocParser.Parser.ParseString | ast/ast.go:523-569 | as Grammar.ParseString, leaving the rest it names |
| DocParser.Parser.ParseObject | ast/ast.go:571-596 | as Grammar.ParseObject, leaving the rest it names |
| DocParser.Parser.ParseNumber | ast/ast.go:600-613 | a Number of the matched text, or the no-match error with the input unchanged |
| DocParser.Parser.ParseNote | ast/ast.go:617-630 | a Note of the matched text, or the no-match error with the input unchanged |
| DocParser.Parser.ParseUnknown | ast/ast.go:634-647 | the Unknown of the matched `?`, or the no-match error with the input unchanged |
| BindProps.EntriesConcat | ast/ast.go:109-117 | binding a + b is binding a and then, only if that succeeded, binding b on the resulting world |
| BindProps.EntriesStopAtFirstFailure | ast/ast.go:110-116 | the first entry that does not succeed ends the loop with its own outcome |
| BindProps.RepeatedConcat | ast/ast.go:221-258 | the values of a repeated directive are bound left to right, stopping at the first that does not succeed |
| BindProps.RepeatedNeverPanics | ast/ast.go:214-219 | a repeated directive never ends in a panic: the deferred recover turns it into an error |
| BindProps.RepeatedDropsNestedError | ast/ast.go:223-229 | an error returned while binding an object value of a repeated directive is dropped, and binding goes on with the next value |
| BindProps.DirectiveKeepsNestedError | ast/ast.go:176-182 | a plain directive with an object value returns the error of binding that object |
| BindProps.RepeatedRecoversNestedPanic | ast/ast.go:214-236 | a panic while binding an object value of a repeated directive becomes the Recovered error |
| BindProps.ContextFlagIgnored | ast/ast.go:175-260 | the context flag does not change what binding does |
| BindProps.SetFailureChangesNothing | ast/ast.go:665-717 | a set that does not succeed leaves the world as it was |
| BindProps.SetPrefersMethod | ast/ast.go:668-690 | with a method of the name set calls it exactly when it takes one argument of a supported kind that converts, and then the world is that call's effect; otherwise nothing changes, and a failed conversion is the method-argument error |
| BindProps.SetFieldOnly | ast/ast.go:692-714 | a successful set of a field only stores the converted text in that field: no call, no other field and no other object changes |
| BindProps.SetFieldBadText | ast/ast.go:699-708 | a field value that does not convert gives the field error and changes nothing |
| BindProps.SetMissingName | ast/ast.go:716 | set reports the missing-name error exactly when there is neither a method nor a field of that name |
| BindProps.GetMakesOneCall | ast/ast.go:649-655 | with a method of the name that takes no argument, get makes exactly that call: it fetches what the call returns when the method has a result and panics when it has none; any other get changes nothing |
| BindProps.GetAgreesOnMethods | ast/ast.go:650-655 | with a method of that name, the corrected get is get as written |
| BindProps.GetAsWrittenIgnoresFields | ast/ast.go:650-655 | get as written panics whenever there is no method of the name |
| BindProps.GetAsWrittenPanicsOnChildField | ast/ast.go:650-660 | on a target whose only member is a non-nil pointer field `child`, get as written panics while the corrected get fetches the child |
| BindProps.GetUsesChildField | ast/ast.go:657-662 | without a method, the corrected get fetches a non-nil pointer field, and reports the missing-name error exactly when no such field holds a child |
| BindProps.RepeatedObjectsGetOwnChildren | ast/ast.go:221-229 | binding `[id {a} {b}]` through a getter without parameters calls it once per block: a is bound into the child the first call returns, and b into the child a second call returns on the world a left, unless binding a panicked, exited or removed the getter |
| BindProps.FactoryBindsEachBlock | ast/ast.go:221-229 | with a `note` method that makes a new child per call, `[note {pitch 1.0} {pitch 2.0}]` calls it twice and sets the pitch of each child once |
| Bind.Coerce | ast/ast.go:668-714 | a converted text has the kind asked for; a string is the text itself; other kinds never convert |
| Bind.SetMember | ast/ast.go:665-717 | set makes at most one call and only appends it to the log; it reports the missing name exactly when there is neither a method nor a field of that name |
| Bind.GetAsWritten | ast/ast.go:649-663 | get as written fetches only through a method with no parameters and a result; everything else is a panic |
| Bind.Get | ast/ast.go:649-663 | get makes at most one call and only appends it to the log; it stops only with a panic or the missing-name error |
| Bind.BindEntries | ast/ast.go:109-117 | binding entries only appends to the call log |
| Bind.BindEntry | ast/ast.go:175-204 | binding one entry only appends to the call log, and a whitespace marker does nothing |
| Bind.BindRepeated | ast/ast.go:213-249 | binding a repeated directive only appends to the call log |
| Binding.Binder.constructor | ast/ast.go:109-117 | a binder holds the given world, numeral parsers and method bodies |
| Binding.Binder.Set | ast/ast.go:665-717 | the new world and the status are those of Bind.SetMember |
| Binding.Binder.Get | ast/ast.go:649-663 | the fetch is Bind.Get, and the world becomes the one it leaves |
| Binding.Binder.ExecuteEntries | ast/ast.go:109-117 | the new world and the status are those of Bind.BindEntries |
| Binding.Binder.ExecuteEntry | ast/ast.go:175-194 | the new world and the status are those of Bind.BindEntry |
| Binding.Binder.ExecuteRepeated | ast/ast.go:213-249 | the new world and the status are those of Bind.BindRepeated |
| Binding.Binder.ExecuteDocument | ast/ast.go:109-117 | the new world and the status are those of Bind.BindDocument |
| Tokens.FractionLength | eval/eval.go:38 | a fraction match is at least three bytes long and within the input |
| Tokens.DecimalLength | eval/eval.go:38 | a decimal match is non-empty and within the input |
| Tokens.TokenLength | eval/eval.go:38 | the token at the front is non-empty and within the input |
| TokenProps.FractionShape | eval/eval.go:38 | a fraction match is digits, `/`, digits |
| TokenProps.DecimalShape | eval/eval.go:38 | a decimal match is an optional `-`, digits and an optional point with digits |
| TokenProps.TokenShape | eval/eval.go:24-38 | every match is a fraction, a decimal, `x` or one of the symbols |
| TokenProps.TokenizeInLanguage | eval/eval.go:40-47 | every token Tokenize returns is in the token language |
| TokenProps.SkipsNonToken | eval/eval.go:38-41 | a byte that starts no token is skipped |
| TokenProps.MinusJoinsNumber | eval/eval.go:38 | a `-` followed by a digit starts a decimal token, not a minus token |
| TokenProps.FractionExact | eval/eval.go:38 | a fraction followed by a space or the end is matched exactly |
| TokenProps.DecimalExact | eval/eval.go:38 | a decimal followed by a space or the end is matched exactly |
| TokenProps.TokenExact | eval/eval.go:38 | any token followed by a space or the end is matched exactly |
| TokenProps.TokenizeJoin | eval/eval.go:40-47 | tokens joined by spaces tokenize back to the same tokens |
| TokenProps.RetokenizeIsIdentity | eval/eval.go:40-47 | the tokens of any text survive a round trip through their spaced form |
| TokenProps.TokenizeOneMinusTwo | eval/eval.go:38-47 | `1-2` is the two numbers `1` and `-2` |
| EvalSyntax.SplitAt | eval/eval.go:74-81 | the leftmost token of a level: it is one, and none comes before it; None when there is none |
| EvalSyntax.Split | eval/eval.go:73-92 | the first level with an operator in the items, and its leftmost operator; no earlier level has one; None when no level has one |
| EvalSyntax.FindClose | eval/eval.go:125-131 | the index of the first `)`, with none before it; None when there is none |
| EvalSyntax.GroupCut | eval/eval.go:121-136 | a parsed group leaves a strictly shorter suffix of the tokens |
| EvalSyntaxProps.CompactLeaves | eval/eval.go:72-103 | compact loses, adds and reorders nothing: the items read back from its tree are its input |
| EvalSyntaxProps.CompactText | eval/eval.go:72-103 | the tokens read back from compact's tree are the tokens of its items |
| EvalSyntaxProps.CompactList | eval/eval.go:93-102 | compact yields a List exactly when no item is an operator of any level; the List has a Value per token and the group itself per group, in order |
| EvalSyntaxProps.CompactOperator | eval/eval.go:73-92 | an Operator's op is of a level that no earlier level precedes with an operator in the items, and its left side holds no operator of that level |
| EvalSyntaxProps.TokensRoundTrip | eval/eval.go:53-70 | a successful parse reads back as exactly its tokens |
| EvalSyntaxProps.ItemsRoundTrip | eval/eval.go:55-67 | the items the parse loop collects are tokens and groups, and read back as its tokens |
| EvalSyntaxProps.GroupRoundTrip | eval/eval.go:121-136 | a parsed group is a Group and reads back as the tokens it consumed, parentheses included |
| EvalSyntaxProps.NoCloseBalanced | eval/eval.go:121-136 | without any `)`, tokens are balanced exactly when they have no `(` |
| EvalSyntaxProps.BalancedGroup | eval/eval.go:121-136 | a group is balanced exactly when it has no inner `(` and what follows it is balanced |
| EvalSyntaxProps.TokensFailIff | eval/eval.go:53-70 | the parse succeeds exactly when the tokens are balanced, and otherwise fails with the index panic |
| EvalSyntaxProps.ItemsFailIff | eval/eval.go:55-67 | the parse loop succeeds exactly when the tokens are balanced, and otherwise fails with the index panic |
| EvalSyntaxProps.ParseFailsIffUnbalanced | eval/eval.go:121-136 | a parse fails exactly when some `(` is not closed by a `)` before the next `(`, and that failure is the index panic |
| EvalParser.Parser.constructor | eval/eval.go:18-20 | a parser holds exactly the given tokens |
| EvalParser.Parser.ParseAny | eval/eval.go:112-120 | the first token, removed; no token is the out-of-tokens panic |
| EvalParser.Parser.MustParse | eval/eval.go:105-111 | the first token when it is the expected one, removed; another token is the expected-token panic, and none the index panic |
| EvalParser.Parser.ParseGroup | eval/eval.go:121-136 | the group EvalSyntax.GroupCut describes, or its failure, leaving the tokens after its `)` |
| EvalParser.Parser.Parse | eval/eval.go:53-70 | the tree of EvalSyntax.ParseTokens, with every token consumed on success |
| EvalSemantics.FirstIndex | eval/node.go:97 | the index of the first `/`: the byte there is `/` and none comes before; None when there is no `/` |
| EvalSemantics.Down | eval/node.go:63-65 | the loop that lowers v by whole steps ends below min, within one step of it, and leaves a v already below min alone |
| EvalSemantics.Up | eval/node.go:66-68 | the loop that raises v by whole steps ends at or above min, below min + mod, and leaves a v already at or above min alone |
| EvalSemantics.Normalize | eval/node.go:63-68 | the two loops put every value into [min, min + mod) |
| EvalSemantics.Steps | eval/node.go:69-71 | the stepping loop yields nothing exactly when v ≥ max, and every value it yields lies in [v, max) |
| EvalSemantics.Reps | eval/node.go:74-78 | a count below 1 repeats nothing; otherwise the number of repetitions is the count rounded down |
| EvalSemantics.ValueOf | eval/node.go:96-103 | a token without `/` is its number; the only failure is the non-finite fault of a token with `/` |
| Evaluator.Trunc | eval/node.go:77 | int(count) truncates toward zero: it rounds a non-negative count down and a negative one up |
| EvalSyntax.Compact | eval/eval.go:72-103 | compact yields a List or an Operator, and an Operator's op is one of its items |
| EvalSyntax.ParseItems | eval/eval.go:55-67 | the parse loop yields at most one item per token, and none exactly when there are no tokens |
| EvalProps.ValueOfQuotient | eval/node.go:96-101 | a token n/d is the quotient of its halves, split at its first `/`; a zero denominator is the non-finite fault |
| EvalProps.ValueOfPlain | eval/node.go:102-103 | a token without `/` is the number its text denotes |
| EvalProps.CrossAt | eval/node.go:38-57 | `+` and `-` yield \|left\|·\|right\| values, and the value at i·\|right\| + j combines left[i] with right[j] |
| EvalProps.NormalizeStep | eval/node.go:63-68 | values one step apart normalise to the same value |
| EvalProps.NormalizeFixed | eval/node.go:63-68 | a value already in [min, min + mod) is left alone |
| EvalProps.StepsShape | eval/node.go:69-71 | the stepping loop yields v, v + mod, … while below max: it starts at v, consecutive values are one step apart, and the last is within a step of max |
| EvalProps.RangeInBounds | eval/node.go:62-72 | every value `%` yields lies in [min, max) |
| EvalProps.ModRangeFails | eval/node.go:58-73 | `%` fails with the index panic exactly when the right operand has fewer than three values, diverges exactly when there is a left value and the step is at most 0, and otherwise yields values in [min, max) |
| EvalProps.RepeatRowLength | eval/node.go:76-80 | one count repeats every left value: \|left\|·n values |
| EvalProps.RepeatRowAt | eval/node.go:76-80 | with one count n, the value at i·n + j is left[i] |
| EvalProps.RepeatAllLength | eval/node.go:74-82 | `*` yields \|left\| values for each repetition the counts ask for, counts below 1 asking none |
| EvalProps.RepeatAllFromLeft | eval/node.go:74-82 | every value `*` yields is a left value |
| EvalProps.RepeatRowIn | eval/node.go:76-80 | every value one count yields is a left value |
| Evaluator.CrossLength | eval/node.go:38-57 | the cross product has \|left\|·\|right\| values, the size of the buffer Go allocates |
| Evaluator.FillRow | eval/node.go:42-45 | the inner loop of + (and of - at eval/node.go:52-55) writes left value x combined with every right value, from index i, and keeps what is before i |
| Evaluator.CrossInto | eval/node.go:38-57 | the buffer filled by the two loops is EvalSemantics.Cross |
| Evaluator.RangeLoops | eval/node.go:62-72 | the three loops per left value compute EvalSemantics.RangeAll |
| Evaluator.RangeGenerate | eval/node.go:58-73 | the `%` case, with its index and step failures, is EvalSemantics.ModRange |
| Evaluator.RepeatEach | eval/node.go:74-82 | the three nested loops compute EvalSemantics.RepeatAll |
| Evaluator.ListPrefixFails | eval/node.go:114-119 | once a prefix of a list fails, the whole list fails the same way |
| Evaluator.Evaluate | eval/eval.go:11-14 | Evaluate on every kind of node computes EvalSemantics.EvalNode |
| Evaluator.Eval | eval/eval.go:16-22 | tokenizing, parsing and evaluating a text computes EvalSemantics.EvalText |
| EvalExamples.ItemsPlain | eval/eval.go:55-67 | without any `(` the parse loop collects every token as it is |
| EvalExamples.CompactPlain | eval/eval.go:93-102 | operands only: compact makes a List of their Values |
| EvalExamples.CompactBinary | eval/eval.go:72-92 | one operator between operands: compact splits there |
| EvalExamples.ValuesEvaluate | eval/node.go:114-119 | a List of Values evaluates to their numbers, in order |
| EvalExamples.EvalPlain | eval/eval.go:16-22 | a text that tokenizes to operands evaluates to their numbers, in order |
| EvalExamples.ParseBinary | eval/eval.go:40-70 | the text `a op b` tokenizes back to its tokens and parses to op over the two lists |
| EvalExamples.EvalBinary | eval/eval.go:16-22 | the text `a op b` evaluates to the operator applied to the two lists of numbers |
| EvalExamples.ExampleList | eval/eval_test.go:29-34 | `0 1 2` evaluates to 0, 1, 2 |
| EvalExamples.ExampleAddOne | eval/eval_test.go:37-40 | `1 + 2` evaluates to 3 |
| EvalExamples.ExampleAdd | eval/eval_test.go:41-44 | `1 2 + 3 4` evaluates to 4, 5, 5, 6 |
| EvalExamples.ExampleSubOne | eval/eval_test.go:47-50 | `1 - 2` evaluates to -1 |
| EvalExamples.ExampleSub | eval/eval_test.go:51-54 | `1 2 - 3 4` evaluates to -2, -3, -1, -2 |
| EvalExamples.ExampleRange | eval/eval_test.go:57-60 | `0 % 1 0 8` evaluates to 0 through 7 |
| EvalExamples.ExampleRangeStep | eval/eval_test.go:61-64 | `0 % 0.33 0 2` evaluates to 0, 0.33, …, 1.98 |
| EvalExamples.ExampleRangeThirds | eval/eval_test.go:65-68 | `1/3 2/3 % 1 0 2` evaluates to 1/3, 4/3, 2/3, 5/3 |
| EvalExamples.ExampleRepeatOne | eval/eval_test.go:71-74 | `0 * 8` evaluates to eight zeros |
| EvalExamples.ExampleRepeat | eval/eval_test.go:75-78 | `4 5 6 * 1 2 3` evaluates to 4 5 6, then each twice, then each three times |
| EvalExamples.ExampleThing | eval/eval_test.go:81-86 | `4 3 4 2 + 0 -1` evaluates to 4 3 3 2 4 3 2 1, left operand outer as eval/node.go:38-47 computes it |

## Findings

| source | as written | input that shows it | evidently intended | confidence | as-written member | corrected member |
|---|---|---|---|---|---|---|
| ast/ast.go:482 | the body of a single-quoted literal excludes `"` instead of `'`, so the leftmost-first match runs on over later single quotes | `'a' 'b'` is matched as one 7-byte literal | the body excludes `'`, so the literal is `'a'` | not executed | LexerProps.SingleQuotedAsWrittenSpansTwoLiterals | Lexer.SingleQuotedLength |
| ast/ast.go:650-655 | get calls `IsNil` on the zero Value that MethodByName returns for a missing name, which panics, so the field branch (lines 657-660) is never reached | a target whose only member is a non-nil pointer field `child`, and the directive `child { ... }` | get falls back to the field and returns the child it points to | not executed | BindProps.GetAsWrittenPanicsOnChildField | BindProps.GetUsesChildField |

The as-written halves are `Lexer.SingleQuotedAsWritten` and `Bind.GetAsWritten`.
The rest of the model uses the corrected halves:
- `Lexer.SingleQuotedLength` has its first-close law in `LexerProps.QuotedEndsAtFirstClose`.
- `Bind.Get` agrees with the code on methods (`BindProps.GetAgreesOnMethods`).

## Left out

- format/, rfmt/, main/ and directive.go are not part of this model. That includes `Prepare`, and `exeggutor.Execute`, which calls itself forever. `Binding.Binder.ExecuteDocument` stands for the binding step they would run.
- logit and all logging are left out: they have no effect on results.
- `Position`, `Begin`, `End`, `Text` and the String printers are left out: they only render or locate nodes.
- skipComma (ast/ast.go:351-355) is never called, so it is not modelled. It tests for `,` and then calls consumeByte(';'), which fails on that `,`.
- In the identifier error message, `p.data[:10]` (ast/ast.go:468) slices ten bytes. Go panics there only when the capacity of the input slice is below ten; otherwise it reads past the input's length into the rest of the slice. The model returns the no-match error in both cases.
- strconv.Unquote for `"` and `'` literals is the parameter `Unquoter`; Go's escape grammar is not modelled. A backtick literal is its raw content with carriage returns removed, which is what Unquote does for it.
- The regular expressions are modelled as hand-written scanners over bytes that match at the front of the input. Go's regexp engine is not modelled.
- Lexer.Match: the three string expressions (ast/ast.go:481-483) have no `^`. Go's FindSubmatch finds their leftmost match anywhere in the input, and consumeRegex (ast/ast.go:314-324) then drops that many bytes from the front. The model only matches at the front. On the value `"a\` newline `b" "c"` Go yields the String of `" "`, a single space, and leaves newline `b" "c"`; the model reports no match.
- DocParser.Parser.ConsumeRegex: matches only at the front, as Lexer.Match does (the unanchored string search above is not modelled).
- Grammar.ParseString: inherits the front-only string match of Lexer.Match.
- DocParser.Parser.ParseString: inherits the front-only string match of Lexer.Match.
- Lexer.LiteralLength: a `'` literal uses the corrected body `[^'\\]` (Lexer.SingleQuotedLength), not the expression of ast/ast.go:482 (Lexer.SingleQuotedAsWritten); see Findings.
- Lexer.Match: for the single-quote pattern it uses the corrected scan, as Lexer.LiteralLength does.
- Grammar.ParseString: parses `'` literals with the corrected scan, not the one ast/ast.go:482 writes.
- DocParser.Parser.ParseString: parses `'` literals with the corrected scan, as Grammar.ParseString does.
- Bind.Get: is the corrected get. Without a method it falls back to a non-nil pointer field instead of panicking as ast/ast.go:650-655 does (Bind.GetAsWritten; see Findings). A working Go fix would also need `t.Elem()` before FieldByName, as set does at ast/ast.go:691; the model's field lookup is that of the pointed-to struct.
- Bind.BindEntry: binds object values through the corrected get (Bind.Get).
- Bind.BindRepeated: binds object values through the corrected get (Bind.Get).
- Binding.Binder.Get: computes the corrected get (Bind.Get), not the panicking get as written.
- GrammarFacts.RepeatedNeedsClose: covers only input with no `]` anywhere after the name; input like `[ab "]"`, where the only `]` sits inside a value, is not covered.
- GrammarFacts.ObjectNeedsClose: covers only input with no `}` anywhere after the `{`.
- GrammarFacts.RepeatedShape: takes as a premise that each value text parses to its value on its own (GrammarFacts.ValueText); that premise is proved here for `?` (GrammarFacts.UnknownText) only.
- What a method of the target does is the parameter `Host`: any change to the objects and any returned object. A getter that returns a nil pointer, a non-pointer result or an interface holding something else is not modelled: its result is always an object id.
- strconv.ParseInt, Atoi and ParseFloat are the parameters `Numerals` and `num`. Bit-size limits, range errors and float syntax are not modelled.
- The evaluator computes on reals: float64 rounding is not modelled, so `0.33` steps are exact. A zero denominator in a fraction token is the `NonFinite` fault, where Go would yield Inf or NaN and go on.
- EvalSemantics.ModRange: a step of at most 0 with a left value makes Go loop forever. The model reports it as the `Diverges` fault, and does not model that a NaN step ends the loops.
- EvalParser.Parser.ParseGroup: when it fails, the tokens left in the parser are unspecified. Go panics then, so nothing reads them.
- Go reflection is replaced by the capability table of module Bind: methods and fields by name, with parameter and field kinds. Not modelled: unexported members, non-pointer targets, methods with several results, and kinds other than string, int and float. A member of another kind is `KOther`, and its `log.Fatalf` is the status `Exit`.
- The `log.Fatalf` branches for unhandled value types (ast/ast.go:192, 255) cannot occur in the typed tree, so they are not modelled.
- The precedence table `order` of the evaluator is a parameter of the model; it is not defined in the files modelled.
- The test harness (eval/eval_test.go:14-27) compares one-sidedly and is not modelled; the examples state exact results instead.
- TestTokenize (eval/eval_test.go:88-90) asserts nothing, so no lemma states its tokens.
- TestParseDocument (ast/ast_test.go) is not restated as a lemma.
