# A verified model of a tiny LISP front end

This project models the core of a small Python LISP experiment in Dafny. It
covers the following parts:

- **Tokenizer** (`lisp/s_tokenizer.py`). It splits text into parentheses and
  runs of symbol characters, and drops the whitespace (space, tab, carriage
  return, newline).
- **Tuple parser** (`lisp/s_parser.py`). A token queue ends with the sentinel
  `(EOL)` and is read by recursive descent into nested tuples of atom
  strings. The unparser renders such tuples back to text.
- **List parser** (`lisp/parser.py`). It is the same parser, building nested
  lists instead of tuples.
- **S-expression object** (`lisp/s_expression.py`). It wraps parsed data and
  precomputes head and tail objects. Nil is its own head and tail. Atoms
  compare by value, and non-empty lists compare by identity.
- **Evaluator prototype** (`lisp/eval.py`).
  - Atoms; nodes chained through `next` and ended by `nil`.
  - The list builder `li` and the flattening `vals`.
  - An `eval` that knows self-evaluating atoms, `quote` and `atom`.
- **Binding table** (`lisp/njak.py`). A dictionary wrapper that copies a
  dictionary it is built from. It shares the storage of another table it is
  built from.
- **Symbols and cons cells** (`lisp/symbol.py`, `lisp/cons.py`). Symbols
  are compared by name. A cons cell's `cdr` is a cell or `NIL`, and its
  rendering walks the `cdr` chain.

Each Python module of the core becomes one Dafny module, except that the
tokenizer copies inside both parsers share the `Tokenizer` module. Two small
modules have no Python counterpart: `Results` holds the result and option
types, and `Text` holds string joining and filtering. Code that changes state
in place becomes a class or a method with loop invariants:

- the two token queues;
- the tokenizer loop;
- the binding table and its dictionary;
- the `cons` rendering loop.

`vals` is a recursive method without a loop or state. The source's in-place
`ret.insert(0, ...)` on the fresh list from the recursive call becomes a
sequence concatenation.

The S-expression wrapper is a class because its equality is object identity
and nil refers to itself. Everything else is datatypes and functions.

Each method is proved against a specification function:

| method | specification function |
|---|---|
| `Tokenize` | `Tokens` |
| `ParseETuple` | `ETupleOf` |
| `ParseEList` | `EListOf` |
| `Vals` | `Elements` |
| `Render` | `Show` |

The laws the source promises are lemmas about those functions.

Files:

- `results.dfy`: the `Option` and `Result` datatypes;
- `text.dfy`: `Join`, `Flatten` and `Filter` over strings;
- `tokenizer.dfy`;
- `sparser.dfy`;
- `parser.dfy`;
- `s_expression.dfy`;
- `eval.dfy`;
- `njak.dfy`;
- `symbol.dfy`;
- `cons.dfy`.

### Behaviour of the code that differs from its documentation

The model follows the code. The code disagrees with its own doctests or
intent in these places:

- **A bare symbol is rejected.** `parse_expr` checks `len(self.tokens) > 1`
  (`lisp/s_parser.py:77`, `lisp/parser.py:50`), and that count includes the
  `(EOL)` sentinel. So `parse('foo')` always fails with "extra stuff after
  expression", yet the doctest at `lisp/s_expression.py:90-91` expects `foo`.
  See `SParser.BareSymbolIsExtraStuff` and `Parser.BareSymbolIsExtraStuff`.
- **Trailing text is ignored.** The `(` branch of `parse_expr` does not
  consume the closing parenthesis or check what follows. So `parse('(a) b')`
  returns `('a',)`, yet the doctest at `lisp/s_expression.py:105-107` expects
  an error. See `SParser.TrailingTextIgnored`.
- **`_close` never raises.** It builds a `ValueError` without raising it. The
  model shows this is harmless: whenever the recursive call returns, the next
  token is `)`, as the contract of `SParser.ETupleOf` states.
- **Line 87 is unreachable.** The `return ret` at `lisp/s_parser.py:87` comes
  after another `return`.
- **Identity, not value, in `Node`.** `Node`'s check `_next == nil`
  (`lisp/eval.py:72`) compares object identity. The model compares atoms by
  name.

## Model

| member | source | states |
|---|---|---|
| Tokenizer.Tokenize | lisp/s_tokenizer.py:24-39 | the loop over the characters, with its pending-run start, yields exactly the token stream `Tokens(s)` |
| Tokenizer.TokensWellFormed | lisp/s_tokenizer.py:26-39 | every token is a single parenthesis or a non-empty run of symbol characters |
| Tokenizer.NoTokenIsEOL | lisp/s_tokenizer.py:26-39 | no token equals the parsers' end sentinel `(EOL)` |
| Tokenizer.ConcatIsInputWithoutWhitespace | lisp/s_tokenizer.py:25-39 | the tokens, concatenated, are the input with its whitespace removed |
| Tokenizer.ParenTokensFollowInput | lisp/s_tokenizer.py:30-34 | the parenthesis tokens are exactly the input's parentheses, one token each, in input order |
| Tokenizer.TokenAtOffset | lisp/s_tokenizer.py:25-39 | each token is the slice of the input at its offset |
| Tokenizer.TokensInOrder | lisp/s_tokenizer.py:25-39 | tokens do not overlap and appear in input order |
| Tokenizer.WhitespaceBeforeFirst | lisp/s_tokenizer.py:26-29 | every character before the first token (all, if there is none) is whitespace |
| Tokenizer.WhitespaceBetween | lisp/s_tokenizer.py:26-29 | every character between two consecutive tokens is whitespace |
| Tokenizer.WhitespaceAfterLast | lisp/s_tokenizer.py:26-29 | every character after the last token is whitespace |
| Tokenizer.SymbolEndsRun | lisp/s_tokenizer.py:26-34 | a symbol token is never followed directly by a symbol character |
| Tokenizer.SymbolStartsRun | lisp/s_tokenizer.py:35-37 | a symbol token is never preceded directly by a symbol character |
| Tokenizer.SymbolTokensSeparatedByWhitespace | lisp/s_tokenizer.py:26-29 | two consecutive symbol tokens have a whitespace character between them |
| Tokenizer.FinalRunIsEmitted | lisp/s_tokenizer.py:38-39 | a symbol run reaching the end of the input is still emitted, as the last token |
| Tokenizer.NoTokensIffWhitespace | lisp/s_tokenizer.py:25-39 | there are no tokens exactly when the input is all whitespace |
| Tokenizer.TokensAppend | lisp/s_tokenizer.py:25-39 | when the first text does not end inside a symbol run that the second continues, the tokens of the concatenation are the two token lists concatenated |
| Tokenizer.SymbolIsOneToken | lisp/s_tokenizer.py:35-39 | a text made only of symbol characters is one token |
| Tokenizer.TokensOfSeparator | lisp/s_tokenizer.py:26-34 | a leading whitespace character yields nothing, and a leading parenthesis yields itself as a token |
| Tokenizer.TokensParenthesized | lisp/s_tokenizer.py:30-34 | tokens of a parenthesized text are the parentheses around the inner text's tokens |
| Tokenizer.TokensSpaced | lisp/s_tokenizer.py:26-29 | a space between two texts separates their tokens |
| Tokenizer.DocExampleEmpty | lisp/s_tokenizer.py:9-10 | `()` gives `(` and `)` |
| Tokenizer.DocExampleList | lisp/s_tokenizer.py:15-16 | `(foo)` gives three tokens, for any symbol in place of `foo` |
| Tokenizer.DocExamplePair | lisp/s_tokenizer.py:18-19 | `(foo bar)` gives four tokens, for any symbols |
| Tokenizer.DocExampleNested | lisp/s_tokenizer.py:21-22 | `(cdr (quote (a b c)))` gives its eleven tokens, for any symbols |
| SParser.ETupleOf | lisp/s_parser.py:81-95 | reading tuple items stops in front of a `)` that is still in the queue, never consumes more than it has, and fails only with premature EOL |
| SParser.ExprOf | lisp/s_parser.py:68-79 | a successful expression read is always a tuple, since a lone symbol is rejected because of the sentinel |
| SParser.Tokens.constructor | lisp/s_parser.py:53-55 | the queue is the input's tokens followed by `(EOL)` |
| SParser.Tokens.Head | lisp/s_parser.py:57-58 | the next token; a queue holding one token holds only the sentinel |
| SParser.Tokens.Next | lisp/s_parser.py:60-61 | drops the first token (an empty queue stays empty, as slicing does) |
| SParser.Tokens.Close | lisp/s_parser.py:63-66 | drops the first token whether or not it is `)`, since the error is never raised |
| SParser.Tokens.ParseETuple | lisp/s_parser.py:81-95 | returns the items `ETupleOf` reads and leaves the queue at the rest it names, or fails with the same error |
| SParser.Tokens.ParseExpr | lisp/s_parser.py:68-79 | returns exactly `ExprOf` of the queue; on success the input began with `(` and the queue left behind is what the tuple read leaves, headed by the unconsumed `)`, with whatever follows it unchecked |
| SParser.Parse | lisp/s_parser.py:6-24 | the result is `ParseOf(s)`, and a success is a tuple |
| SParser.Unparse | lisp/s_parser.py:45-49 | a tuple renders inside parentheses |
| SParser.UnparseTokens | lisp/s_parser.py:45-49 | the tokens of a rendered datum are its token image: parentheses around its items' tokens |
| SParser.ReadItems | lisp/s_parser.py:81-95 | reading the token image of well-formed items followed by `)` gives back those items and stops at the `)` |
| SParser.ItemsRead | lisp/s_parser.py:81-95 | conversely, whatever a successful read returns, the tokens consumed are exactly the image of the items read |
| SParser.ReadNeedsClose | lisp/s_parser.py:88-91 | a successful tuple read needs a `)` in the queue |
| SParser.RoundTrip | lisp/s_parser.py:6-49 | parsing the rendering of a well-formed tuple gives the tuple back |
| SParser.TrailingTextIgnored | lisp/s_parser.py:69-71 | any text after a rendered tuple is ignored by the parser |
| SParser.ParsedPrefix | lisp/s_parser.py:68-95 | the token image of a parse result is a prefix of the input's tokens |
| SParser.ExprOfTuple | lisp/s_parser.py:69-71 | an opening parenthesis followed by a successful tuple read parses to that tuple |
| SParser.ExprOk | lisp/s_parser.py:68-79 | a successful parse began with `(` and is the tuple read after it |
| SParser.LeadingCloseIsUnmatched | lisp/s_parser.py:72-73 | text starting with `)` fails with unmatched `)` |
| SParser.BlankIsPrematureEOL | lisp/s_parser.py:74-75 | blank text fails with premature EOL |
| SParser.LeadingSymbolIsExtraStuff | lisp/s_parser.py:76-78 | text whose first token is a symbol fails with extra stuff |
| SParser.BareSymbolIsExtraStuff | lisp/s_parser.py:77-78 | a bare symbol fails with extra stuff |
| SParser.UnclosedIsPrematureEOL | lisp/s_parser.py:90-91 | text opening a tuple with no `)` anywhere fails with premature EOL |
| SParser.EmptyTupleExample | lisp/s_parser.py:9-10 | `()` parses to the empty tuple and renders back as `()` |
| SParser.PairExample | lisp/s_parser.py:15-16 | `(foo bar)` parses to the pair and the pair renders to it, for any symbols |
| SParser.NestedExample | lisp/s_parser.py:18-19 | `((foo))` parses to the nested singleton and renders back, for any symbol |
| SParser.PairText | lisp/s_parser.py:49 | a pair renders as its two items spaced inside parentheses |
| SParser.TripleText | lisp/s_parser.py:49 | a triple renders as its three items spaced inside parentheses |
| SParser.CdrExample | lisp/s_parser.py:21-22 | `(cdr (cons (quote a) (quote (b c))))` parses to its nested tuple and renders back, for any symbols |
| Parser.EListOf | lisp/parser.py:54-69 | reading list items stops in front of a `)`, and fails only with premature EOL |
| Parser.ExprOf | lisp/parser.py:41-52 | a successful expression read is always a list |
| Parser.Tokens.constructor | lisp/parser.py:26-28 | the queue is the input's tokens followed by `(EOL)` |
| Parser.Tokens.Head | lisp/parser.py:30-31 | the next token; a queue holding one token holds only the sentinel |
| Parser.Tokens.Next | lisp/parser.py:33-34 | drops the first token |
| Parser.Tokens.Close | lisp/parser.py:36-39 | drops the first token, never raising |
| Parser.Tokens.ParseEList | lisp/parser.py:54-69 | returns the items `EListOf` reads, built by extending, and leaves the queue at the rest it names |
| Parser.Tokens.ParseExpr | lisp/parser.py:41-52 | returns exactly `ExprOf` of the queue; on success the input began with `(` and the queue left behind is what the list read leaves, headed by the unconsumed `)`, with whatever follows it unchecked |
| Parser.Parse | lisp/parser.py:21-22 | the result is `ParseOf(s)`, and a success is a list |
| Parser.SameShape | lisp/parser.py:54-69 | the list reader behaves exactly as the tuple reader, with tuples turned into lists, on every queue |
| Parser.SameParse | lisp/parser.py:21-52 | parsing to lists is parsing to tuples followed by conversion, errors included |
| Parser.ReadsUnparsedTuple | lisp/parser.py:41-52 | the text of a well-formed tuple, with anything after it, parses to the corresponding list |
| Parser.LeadingCloseIsUnmatched | lisp/parser.py:45-46 | text starting with `)` fails with unmatched `)` |
| Parser.BlankIsPrematureEOL | lisp/parser.py:47-48 | blank text fails with premature EOL |
| Parser.BareSymbolIsExtraStuff | lisp/parser.py:49-51 | a bare symbol fails with extra stuff |
| Parser.UnclosedIsPrematureEOL | lisp/parser.py:63-64 | text opening a list with no `)` fails with premature EOL |
| Parser.EmptyListExample | lisp/parser.py:4-5 | `()` parses to the empty list |
| Parser.PairExample | lisp/parser.py:10-11 | `(foo bar)` parses to a two-element list, for any symbols |
| Parser.NestedExample | lisp/parser.py:13-14 | `((foo))` parses to a nested singleton list, for any symbol |
| SExpression.S.constructor | lisp/s_expression.py:46-56 | builds the object graph: nil is its own head and tail, a non-empty tuple gets fresh head and tail objects for its first element and the rest |
| SExpression.S.Head | lisp/s_expression.py:145-151 | only for tuples: nil's head is nil itself, otherwise an object holding the first element |
| SExpression.S.Tail | lisp/s_expression.py:153-159 | only for tuples: nil's tail is nil itself, otherwise an object holding the other elements |
| SExpression.S.Len | lisp/s_expression.py:175-188 | zero exactly for nil; 1 for an atom string; the element count for a tuple |
| SExpression.S.Eq | lisp/s_expression.py:190-209 | two objects are equal exactly when they are the same object or an atom holding the same data; equal objects hold equal data |
| SExpression.S.EqStr | lisp/s_expression.py:205-206 | equal to a string exactly when the object is that atom string |
| SExpression.S.Show | lisp/s_expression.py:67-83 | the text of a well-formed tuple parses back to the object's data |
| SExpression.S.Cons | lisp/s_expression.py:161-173 | fails exactly when the tail holds an atom string (the `TypeError` of the tuple concatenation); otherwise a new valid object holding the head's data in front of the tail's elements, one longer than the tail |
| SExpression.S.Parse | lisp/s_expression.py:84-110 | a new valid object holding the parser's result, or the parser's error |
| SExpression.ConsData | lisp/s_expression.py:173 | the consed tuple has the head first and the tail's elements after it |
| SExpression.NilIsOwnHead | lisp/s_expression.py:50-56 | an object is nil exactly when it is a tuple that is its own head |
| SExpression.S.IsNil | lisp/s_expression.py:112-121 | nil exactly when the data is the empty tuple |
| SExpression.S.IsVar | lisp/s_expression.py:123-132 | an atom string exactly when the data is not a tuple |
| SExpression.S.IsAtom | lisp/s_expression.py:134-143 | an object is an atom exactly when it is not a non-empty tuple |
| SExpression.ConsOfHeadAndTail | lisp/s_expression.py:161-173 | consing a non-empty tuple's head onto its tail gives its data back |
| SExpression.TailIsShorter | lisp/s_expression.py:153-159 | a non-empty tuple's tail is one element shorter |
| SExpression.EqReflexiveSymmetric | lisp/s_expression.py:207-209 | equality is reflexive and symmetric |
| SExpression.EqualAtomsAreEqual | lisp/s_expression.py:207-208 | atoms holding the same data are equal, whatever objects hold them |
| SExpression.DistinctListsAreUnequal | lisp/s_expression.py:209 | two distinct objects for the same non-empty tuple are unequal |
| SExpression.ShowAfterParse | lisp/s_expression.py:67-82 | an object parsed from a well-formed tuple's text shows that text and has its length |
| SExpression.ParsedEmptyIsNil | lisp/s_expression.py:112-143 | the object parsed from `()` is nil, an atom, not an atom string, and of length 0 |
| SExpression.ParseTwiceUnequal | lisp/s_expression.py:200-201 | parsing the same non-empty tuple text twice gives unequal objects |
| Evaluator.IsAtom | lisp/eval.py:49-50 | an atom exactly when the value is its own `value()`; a node's value is a part of it |
| Evaluator.IsNil | lisp/eval.py:52-53 | true exactly for nil; a node is never nil |
| Evaluator.ValueOf | lisp/eval.py:55-56 | an atom is its own value; a node's value is a part of it |
| Evaluator.Vals | lisp/eval.py:86-89 | flattening the chain by inserting each value in front of the rest gives `Elements`, and never fails on a well-formed list |
| Evaluator.Li | lisp/eval.py:98-105 | builds a list ending in nil, which is nil exactly for no elements |
| Evaluator.LiWellFormed | lisp/eval.py:69-72 | lists built by `li` from well-formed values satisfy the node constructor's check |
| Evaluator.ElementsOfLi | lisp/eval.py:98-105 | flattening a list built by `li` gives its elements back |
| Evaluator.LiOfElements | lisp/eval.py:86-89 | building with `li` from a well-formed list's elements gives the list back |
| Evaluator.WellFormedNodesHaveElements | lisp/eval.py:72 | a well-formed node flattens without error, to at least one element |
| Evaluator.AtomElements | lisp/eval.py:58-61 | flattening nil gives no elements, and any other atom fails |
| Evaluator.Show | lisp/eval.py:91-95 | a node renders in parentheses |
| Evaluator.ShowChain | lisp/eval.py:91-95 | the texts along a chain are empty exactly for an atom |
| Evaluator.ShowChainIsElements | lisp/eval.py:91-95 | a node renders the texts of its flattened elements, in order |
| Evaluator.Eval | lisp/eval.py:108-118 | an atom evaluates to itself; the only failure is not-yet-implemented; `atom` yields `t` or nil |
| Evaluator.QuoteReturnsArgument | lisp/eval.py:114-115 | `quote` returns its first argument unevaluated, ignoring the rest |
| Evaluator.BareQuoteIsNil | lisp/eval.py:114-115 | `(quote)` gives nil |
| Evaluator.AtomTestsArgument | lisp/eval.py:116-117 | `atom` gives `t` when its argument evaluates to an atom, nil when it evaluates to a list, and passes errors on |
| Evaluator.OtherFormsAreNotImplemented | lisp/eval.py:113-118 | a list headed by a list, or by an atom other than `quote` and `atom`, fails as not implemented |
| Evaluator.SelfEvaluatingIffAtom | lisp/eval.py:108-118 | a value evaluates to itself exactly when it is an atom |
| Evaluator.QuoteExamples | lisp/eval.py:29-35 | `(quote a)` gives `a`, and `(quote (a b c))` gives `(a b c)` |
| Evaluator.FixtureExamples | lisp/eval.py:130-132 | `(atom (quote a))` and `(atom (quote ()))` give `t`; `(atom (quote (a b c)))` gives nil |
| Evaluator.ShowPairExample | lisp/eval.py:17-18 | a two-atom list renders as `(foo bar)`, for any names |
| Evaluator.ShowNestedExample | lisp/eval.py:100-101 | `li(a, b, li(c), d)` renders as `(a b (c) d)`, for any names |
| Bindings.Njak.constructor | lisp/njak.py:17-22 | no argument gives a new empty dictionary, a dictionary gives a new copy of it, and another table gives that table's own dictionary |
| Bindings.Njak.Get | lisp/njak.py:24-30 | succeeds exactly for bound keys, with the bound value |
| Bindings.Njak.Set | lisp/njak.py:32-37 | the shared dictionary binds the key to the value, and nothing else changes |
| Bindings.Njak.Update | lisp/njak.py:39-51 | nothing changes for no argument; otherwise the other's bindings are merged in, replacing those of the same keys |
| Bindings.MergedBinding | lisp/njak.py:39-51 | after a merge a key has its incoming binding if it has one, and its old binding otherwise |
| Bindings.SetThenGet | lisp/njak.py:32-37 | after `n[k] = v`, `n[k]` is `v` and every other key reads as before |
| Bindings.CopyIsInsulated | lisp/njak.py:21-22 | a table built from a dictionary does not see later writes to that dictionary |
| Bindings.SharingIsAliasing | lisp/njak.py:19-20 | two tables sharing a dictionary see each other's writes |
| Bindings.UpdateKinds | lisp/njak.py:46-51 | updating with nothing changes nothing; updating with a dictionary and with a table merge alike |
| Bindings.LookupExamples | lisp/njak.py:26-35 | the documented lookups give 33 and 444, and after the overwrite 5 |
| Bindings.UpdateExample | lisp/njak.py:43-44 | updating `{aa: 33, bb: 444}` with a table `{bb: 123, cc: 7}` gives `{aa: 33, bb: 123, cc: 7}` |
| Symbols.Equals | lisp/symbol.py:36-37 | two symbols are equal exactly when they are the same symbol, that is, have the same name |
| Symbols.Hash | lisp/symbol.py:33-34 | the hash of a symbol is the string hash of the name of every symbol equal to it |
| Symbols.Show | lisp/symbol.py:39-40 | a symbol shows as a name that rebuilds the same symbol |
| Symbols.HashAgreesWithEquality | lisp/symbol.py:33-34 | equal symbols have equal hashes, for any string hash |
| Symbols.IsNIL | lisp/symbol.py:42-46 | a symbol is NIL exactly when it is the symbol named `NIL` |
| Symbols.NamesDistinguish | lisp/symbol.py:36-40 | symbols are equal exactly when their names are, and show as their names |
| Symbols.ConstantsExample | lisp/symbol.py:2-21 | `NIL` and `T` show as their names, only `NIL` is NIL, `A` equals `A` and not `B` |
| Cells.IsNILObj | lisp/symbol.py:42-46 | NIL exactly for the NIL symbol; a cell never is |
| Cells.Render | lisp/cons.py:23-29 | the loop collecting the `car`s until NIL renders the cell exactly as `Show` |
| Cells.Show | lisp/cons.py:23-29 | a cell renders in parentheses |
| Cells.ShowChain | lisp/cons.py:23-29 | one text per `car` along the chain |
| Cells.ShowChainIsShowEachCar | lisp/cons.py:29 | a cell renders the texts of its `car`s in order |
| Cells.ChainRoundTrip | lisp/cons.py:15-21 | a chain of cells built from objects passes the constructor's checks, and the walk gives the objects back |
| Cells.ChainOfCars | lisp/cons.py:15-21 | every well-formed chain is the chain built from its `car`s |
| Cells.SingletonExamples | lisp/cons.py:6-10 | NIL in `car` position is an element: `(NIL)` and `(T)` |
| Cells.TripleExample | lisp/cons.py:12-13 | three symbols chained render as `(A B C)`, for any names |

## Left out

- The tokenizer copies at `lisp/s_parser.py:98-130` and `lisp/parser.py:72-92` are the same code as `lisp/s_tokenizer.py`. Both parsers use the one `Tokenizer` model.
- Generator laziness is not modelled. `tokenize` yields lazily, and the model produces the whole token sequence at once; every caller in the core forces the whole sequence with `list(...)`.
- Error messages are not modelled. Errors are tags (`Unmatched`, `PrematureEOL`, `ExtraStuff`, `NoValues`, `NYI`, `KeyMissing`, `TailNotTuple`) rather than the texts of the raised exceptions.
- `S._validate` and the type assertions in the constructors are not modelled. The Dafny types enforce them: data is an atom string or a tuple, a symbol name is a string, and a `car` is a cell or a symbol. The `AssertionError` doctests at `lisp/s_expression.py:39-44` therefore have no counterpart.
- S.Head, S.Tail: the source asserts that the data is a tuple, and the model makes this assertion a precondition. Calling either on an atom string raises `AssertionError` in the source, and the model has no counterpart for that call.
- Python's recursion limit is not modelled. `parse_etuple` (`lisp/s_parser.py:95`, `lisp/parser.py:68`), the `S` constructor (`lisp/s_expression.py:56`), `li` (`lisp/eval.py:105`) and `vals` (`lisp/eval.py:87`) recurse once per element, so a long enough flat list raises `RecursionError` in the source. The results stated for all inputs, such as `SParser.RoundTrip`, `SParser.TrailingTextIgnored`, `SExpression.ShowAfterParse` and `Evaluator.ElementsOfLi`, hold only within the host's recursion depth.
- `S.__hash__` and the `repr` of the binding table are not modelled. They rely on the host language's hash and dictionary formatting. `Symbols.Hash` takes the string hash as a parameter.
- Models of documented examples over all symbols: most doctests are stated for arbitrary symbol names rather than the literal names. `Tokenizer.DocExampleNested` shows `(cdr (quote (a b c)))` for any five symbols.
- Identity of atoms in `lisp/eval.py` is not modelled. A second atom named `()` is nil in the model, while `Node`'s check `_next == nil` and object identity tell them apart. The reference count `_refcount` is not modelled.
- The unused environment parameter `a` of `eval` is left out.
- Node values other than atoms and nodes, such as Python strings, are left out. Where such a value is the head of a form, `eval` reaches its not-implemented branch. As the argument of `quote`, it is returned unchanged. As the argument of `atom`, the recursive `eval` fails its first assertion.
- `Evaluator.Eval`: its contract states only a summary. The lemmas beside it state each form.
- Key order of the binding table is not modelled: Python dictionaries keep insertion order, and Dafny maps do not. Building a table from an arbitrary iterable of pairs (which `dict(d)` also accepts) is not modelled either; only dictionaries and tables are.
- `lisp/s_njak.py` is not part of this model.
