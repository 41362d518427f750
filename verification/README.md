# A verified model of the JSONPath engine

The engine compiles a query text of RFC 9535 and evaluates it over decoded JSON. This project models, over strings
of Unicode scalar values:

- **Lexer and parser** — the character cursor of the lexer, the token cursor of the recursive-descent parser with its
  rewinding of function arguments, and the tracking of the first token that keeps a query from being singular.
- **Printer** — the writers that produce the canonical text of a syntax tree.
- **Two evaluators** — the plain one and the located one, both with explicit stacks for descendant segments.
- **Exact arithmetic** — decimals with unbounded digits and exponents, comparison across number kinds, slice bounds
  in 64-bit integers.
- **Normalized paths** — order, text, JSON Pointer, precomputed lengths, and in-place removal of repeated locations.
- **The I-Regexp recogniser** — one loop with a group stack and a flag, standing in for a recursive grammar.

Imperative code is modelled as classes and methods (`Lexing.Lexer`, `Parsing.Parser`, `RegexpChecker.IRegexpChecker`,
`Buffers.Buffer`, the loops of both evaluators, the in-place array of `Deduplicate`), each proved against a
specification function; the theorems are about those functions.

## Main results

1. **The parser decides the grammar.** A token list parses to a query if and only if it spells that query in the
   grammar of RFC 9535, shorthands included, and the query obeys its typing rules (`ParserSound.ParsesIffSpells`).
   The parser class terminates, stays within its tokens and agrees with that function, failures and offsets included.
   Short sources are settled character by character: names behind `$.`, keywords included, are exactly those of the RFC
   (`Shorthands.DotNameParsesIff`), indexes exactly those within 2^53 - 1, blank space exactly four scalars.
2. **Round trip.** Lexing and parsing the canonical text of any well-typed root query gives back that query
   (`RoundTrip.PrintParses`), and so does any other layout of its lexemes (`RoundTrip.LaidOutParses`); printing is
   idempotent through the parser and injective. Re-spacing any source keeps its tokens, and so its outcome
   (`Respacing.RespacingKeepsStream`, `Respacing.RespacingKeepsOutcome`).
3. **Located paths are queries.** The text of the path of every selected node parses to a singular query that selects
   exactly that node from the same document (`PathQueries.LocatedPathsAreQueries`), unless an index in it is 2^53 or
   more, which no query can write (`PathQueries.PathParsesIffWritable`).
4. **Plain and located evaluation agree**, element by element, with one recursive pre-order specification. What its
   filters pick is stated without the evaluator: a test or comparison by walking paths in the document
   (`FilterLaws.ExistPicks`, `FilterLaws.PathComparisonPicks`), `!`, `||` and `&&` by complement, union and intersection.
5. **Run-time type soundness.** While any accepted query runs, no callback receives arguments of other than its
   declared types (`TypedCalls.ParsedQueriesCallTyped`).
6. **Exact comparison.** Comparison returns the sign of the exact difference for all number kinds, where floats report
   their true magnitude, and none exactly if an operand is no number (`NumberMeaning.CompareStandsFor`,
   `NumberMeaning.NoOrderIffNoNumber`); deep equality is equality of what two documents stand for
   (`CompareMeaning.JsonEqualIsSameMeaning`). Whatever they report, comparison of comparable numbers is antisymmetric and reflexive, equality
   of documents is symmetric, and it is reflexive exactly where every number in them is comparable.
7. **Slices, deduplication, normalized paths** meet the RFC sequences, the first-occurrence specification and exact
   UTF-8 lengths; the order of names is the order of their UTF-8 bytes (`Utf8.CompareTextIsByteOrder`).
8. **The I-Regexp loop decides the recursive grammar**, and the characters and property names it takes are listed
   pattern by pattern (`RegexpCharacters`).

Three places where the obvious statement is false of the code are settled by an exact condition:

- A float is compared exactly with every decimal if and only if the decimal magnitude of its shortest rendering is its
  true magnitude (`Numbers.ExactIffTrueMagnitude`); the float nearest 10^23 has no such rendering and differs from the
  decimal of the same value (`Numbers.TenToThe23Falls`).
- `<=` and `>=` are the unions section 2.3.5.2.2 of RFC 9535 defines unless both operands are missing, arrays or
  objects and are equal (`Compare.LessEqualIsUnion`, `Compare.NothingIsNotLessEqual`).
- The character-class check reads `^` after `[` as negation always; it agrees with the grammar printed in section 3 of
  RFC 9485 on a pattern unless that grammar derives the pattern and it shows an unescaped `[^]`
  (`RegexpCaret.AcceptsIffPrintedWithoutBareCaret`, `RegexpCaret.AgreesWithPrinted`).

Check the project with `dafny verify dfyconfig.toml`.

## Model

| member | source | states |
|---|---|---|
| Tokens.TokenAt | internal/lexer/lex.go:187-297 | a token begins where it was asked for, is never EOF, and a valid one is not empty and ends inside the source |
| Tokens.AllTokens | internal/parser/parse.go:67-96 | the token list ends with the one EOF or with the first invalid token |
| Layout.TokenRead | internal/parser/parse.go:67-96 | the tokens of the list are consecutive: each is the next token from where the one before it ends |
| NumberText.ScanComplete | internal/lexer/lex.go:326-375 | wherever a number of section 6 of RFC 8259 stands and nothing continues it, the scan reads exactly it and classifies it |
| NumberText.ScanSound | internal/lexer/lex.go:326-375 | the text the scan reads is a number of that grammar |
| NumberText.SplitInverts | internal/ast/number.go:132-160 | a text spells the parts of one number only |
| NumberText.NumberTextIsGrammar | internal/ast/number.go:132-136 | a string is one scanned number if and only if the grammar derives it |
| Lexing.Lexer.Next | internal/lexer/lex.go:140-154 | the cursor moves one scalar on and never past the end |
| Lexing.Lexer.Scan | internal/lexer/lex.go:176-297 | the token returned is the specified next token; a valid one leaves the cursor at its end |
| Lexing.Lexer.ScanIdent | internal/lexer/lex.go:301-322 | the longest name, as keyword or identifier |
| Lexing.Lexer.ScanNumberToken | internal/lexer/lex.go:326-375 | the token agrees with the number scan |
| Lexing.Lexer.ScanString | internal/lexer/lex.go:389-424 | the decoded content and end of a string literal, or an invalid token |
| Lexing.Lexer.ScanEscape | internal/lexer/lex.go:432-460 | one escape, short or `\u` |
| Lexing.Lexer.ScanUnicodeEscape | internal/lexer/lex.go:463-503 | a code unit or a surrogate pair as one scalar; lone surrogates fail |
| Lexing.Tokenize | internal/parser/parse.go:67-96 | all tokens of the source, ending with EOF or the first invalid one |
| StringGrammar.DecodesIffWritten | internal/lexer/lex.go:389-503 | a string literal is read with a content and an end if and only if the grammar of section 2.3.1.1 of RFC 9535 derives it there with that content |
| StringRoundTrip.EscapedDecodes | internal/ast/selector.go:110-146 | reading an escaped literal in either quote gives back the string it was written from |
| Shorthands.BlankScalars | internal/lexer/lex.go:534-537 | the lexer skips exactly the scalars 0x20, 0x09, 0x0A and 0x0D |
| Shorthands.BlankSkipped | internal/lexer/lex.go:176-180 | skipping one of them leaves the next token the same |
| Layout.TokensInOrder | internal/lexer/lex.go:99-107 | tokens lie in order and tile the source, with only blank space before, between and after them |
| Layout.LayoutIndependence | internal/parser/parse.go:104-109 | sources with the same kinds, texts and adjacency, and with a blank edge both or neither, parse to the same query or both fail; without a blank edge they fail at the same token |
| Respacing.TokenIsolates | internal/lexer/lex.go:176-297 | lexing is local: the text of a token, on its own, is that token |
| Respacing.RespacingKeepsStream | internal/lexer/lex.go:176-180 | any change of blank space that joins no tokens and parts none that must touch leaves the lexemes unchanged |
| Respacing.RespacingKeepsOutcome | internal/parser/parse.go:801-807 | so the source in its new layout parses to the same query, or fails as the source does |
| Layout.FailureOffset | internal/parser/parse.go:817-825 | every reported offset lies in the source or at its end |
| Grammar.FirstNonSingularExists | internal/parser/parse.go:589-601 | an offending token exists if and only if the parsed segments are not all singular |
| Parsing.Parser.Match | internal/parser/parse.go:761-767 | a match consumes exactly one token of that kind, otherwise nothing |
| Parsing.Parser.MarkNonSingular | internal/parser/parse.go:724-728 | the first mark is kept while tracking; nothing changes otherwise |
| Parsing.Parser.ParseSegments | internal/parser/parse.go:128-157 | outcome and position of the specified parse; the mark of the first offending token; settled tracking is untouched |
| Parsing.Parser.ParseDescendantSegment | internal/parser/parse.go:160-182 | the same for what follows `..`, blank space rejected |
| Parsing.Parser.ParseDotChild | internal/parser/parse.go:184-198 | the same for what follows `.`, blank space rejected |
| Parsing.Parser.ParseBracketedSelection | internal/parser/parse.go:210-232 | the same for a bracketed selection; a second selector marks the comma before it |
| Parsing.Parser.ParseSelector | internal/parser/parse.go:234-265 | the same for one selector |
| Parsing.Parser.ParseJsonInteger | internal/parser/parse.go:709-722 | integers within 2^53-1, no `-0`; other texts fail at their token |
| Parsing.Parser.ParseIndexOrSlice | internal/parser/parse.go:695-707 | an index, or a slice whose colon is marked |
| Parsing.Parser.ParseSlice | internal/parser/parse.go:734-759 | the end and step of a slice, both optional |
| Parsing.Parser.ParseLogicalOr | internal/parser/parse.go:276-295 | agrees with the specified parse and leaves the tracking as it was |
| Parsing.Parser.ParseLogicalAnd | internal/parser/parse.go:297-316 | agrees with the specified parse and leaves the tracking as it was |
| Parsing.Parser.ParseBasicExpr | internal/parser/parse.go:318-402 | agrees with the specified parse and leaves the tracking as it was |
| Parsing.Parser.ParseTestOrComparison | internal/parser/parse.go:404-432 | a query that is not singular before an operator is reported at its first offending token; the fallback branch is dead |
| Parsing.Parser.ParseComparisonFromLiteral | internal/parser/parse.go:434-456 | agrees with the specified parse of a test that starts with a literal |
| Parsing.Parser.ParseFilterQueryWithSingularOffset | internal/parser/parse.go:589-602 | the offset is nonnegative if and only if the query is not singular, is its first offending token's, and the outer tracking is restored |
| Parsing.Parser.ParseCompValue | internal/parser/parse.go:604-637 | agrees with the specified parse of a right operand; its fallback branch is dead |
| Parsing.Parser.ParseLiteralValue | internal/parser/parse.go:639-657 | agrees with the specified parse of a literal |
| Parsing.Parser.ParseFunctionExpr | internal/parser/parse.go:458-511 | agrees with the specified parse of a call, unknown names, counts and types included |
| Parsing.Parser.ParseFunctionArg | internal/parser/parse.go:513-551 | agrees with the specified parse although the position is rewound |
| Grammar.OperatorContinues | internal/parser/parse.go:513-551 | a query or call that one of the eight operators follows is parsed again as a logical argument, whatever the parameter wants |
| Parsing.Parser.Parse | internal/parser/parse.go:103-126 | the query of the whole source, or the offset of the failure |
| Parsing.ParseSource | internal/parser/parse.go:67-126 | lexing and parsing by the classes is the specified outcome of the source |
| Shorthands.DotNameParsesIff | internal/parser/parse.go:184-207 | the text behind `$.` is read as the member of that name if and only if it is a name of section 2.5.1.1 of RFC 9535, `true`, `false` and `null` included |
| Shorthands.DescendantNameParses | internal/parser/parse.go:160-182 | every such name may follow `$..` and selects the members of that name |
| Shorthands.IndexParsesIff | internal/parser/parse.go:709-722 | an integer in brackets is accepted exactly from -9007199254740991 to 9007199254740991 and is read as that index |
| Spelling.OperatorRead | internal/parser/parse.go:404-456 | the six comparison operators are read each as itself, and nothing else is one |
| ParserComplete.SpelledParses | internal/parser/parse.go:103-126 | lexemes that spell a well-typed query, in any shorthand, parse to it |
| ParserSound.ParsedSpells | internal/parser/parse.go:103-126 | whatever parses is spelled by the whole token list |
| ParserSound.ParsesIffSpells | internal/parser/parse.go:103-825 | parsing succeeds with a query if and only if the lexemes spell it and it is well typed |
| ParserSound.SpellingUnique | internal/parser/parse.go:103-825 | no token list spells two well-typed queries |
| ParserSound.SourceParsesIff | internal/parser/parse.go:67-126 | a source is accepted as a query if and only if it lexes, has no blank edge, spells the query and the query is well typed |
| TypeSafety.ParsedQueriesTyped | internal/parser/parse.go:318-455 | every accepted query is well typed: comparands, tests and arguments |
| TypeSafety.CompiledTyped | internal/ast/function.go:125-168 | compiled arguments have the declared number and types |
| TypedCalls.CallHasType | internal/ast/function.go:239-245 | a well-typed call receives its declared types and returns its declared type, given callbacks that honour theirs |
| TypedCalls.ComparandIsValue | internal/ast/filter.go:264-345 | a comparand is a JSON value or Nothing |
| TypedCalls.TestIsResult | internal/ast/function.go:249-259 | a function test never meets a result of the wrong kind |
| TypedCalls.SelectAgrees | internal/ast/function.go:170-190 | callbacks that agree on well-typed arguments select the same nodes for every well-typed query |
| TypedCalls.ParsedQueriesCallTyped | internal/ast/function.go:170-245 | evaluating any accepted source depends on callbacks only through calls of the declared types |
| Buffers.WriteQuoted | internal/ast/selector.go:110-146 | appends the quoted literal, escape by escape, and nothing else |
| Printing.WriteQuery | internal/ast/query.go:38-45 | appends exactly the rendering of the query's lexemes |
| Printing.WriteSegment | internal/ast/segment.go:44-57 | appends exactly the rendering of the segment's lexemes |
| Printing.WriteSelector | internal/ast/selector.go:94-108 | appends exactly the rendering of the selector's lexemes |
| Printing.WriteSlice | internal/ast/selector.go:222-234 | appends exactly the rendering of the slice's lexemes |
| Printing.WriteOr | internal/ast/filter.go:44-51 | appends exactly the rendering of a disjunction |
| Printing.WriteAnd | internal/ast/filter.go:67-74 | appends exactly the rendering of a conjunction |
| Printing.WriteBasic | internal/ast/filter.go:85-262 | appends exactly the rendering of a test or comparison |
| Printing.WriteLiteral | internal/ast/filter.go:347-385 | appends exactly the rendering of a literal |
| Printing.WriteCall | internal/ast/function.go:262-273 | appends exactly the rendering of a call |
| Printing.QueryString | internal/ast/query.go:47-51 | the canonical text |
| CanonicalTexts.ControlsEscaped | internal/ast/selector.go:110-154 | each control character is written as its short escape or as four lower-case hexadecimal digits, by a table of all 32 |
| CanonicalTexts.NamesQuoted | internal/ast/selector.go:94-146 | names that need no escape stand in double quotes in a query and in single quotes in a normalized path |
| CanonicalTexts.RegisteredCallParses | options.go:222-240 | the names that may be registered are the function names of the RFC without the keywords, and a call by each of them parses |
| LexPrinted.RenderingStream | internal/lexer/lex.go:176-297 | a rendering with any blank space, whose neighbours do not run together, lexes to exactly the lexemes it was rendered from and EOF |
| PrintedChain.PrintedLexes | internal/ast/query.go:38-51 | the canonical text of every well-typed query lexes to exactly its lexemes |
| RoundTrip.ItemsParse | internal/parser/parse.go:103-126 | a stream of exactly those lexemes parses to the query |
| RoundTrip.LaidOutParses | internal/parser/parse.go:103-126 | any layout and spelling of the lexemes of a well-typed root query reads back to that query |
| RoundTrip.PrintParses | internal/ast/query.go:47-51 | parsing the canonical text of a well-typed root query gives back that query |
| RoundTrip.ParsePrintParse | internal/ast/query.go:47-51 | what an accepted source means survives printing and parsing again |
| RoundTrip.PrintInjective | internal/ast/query.go:47-51 | queries with the same canonical text are the same |
| PrintedChain.FunctionNameLexes | options.go:222-240 | a name that may be registered lexes as an identifier and no keyword |
| Json.Sorted | internal/ast/child.go:66-68 | the names in ascending order, each once |
| Json.SortedUnique | internal/ast/child.go:66-68 | any ascending listing of the names is the canonical one |
| Json.ForEachChild | internal/ast/child.go:29-44 | the children in index order or name order |
| Json.ForEachChildReverse | internal/ast/child.go:47-63 | the same children, last first |
| Json.ChildrenComplete | internal/ast/child.go:29-44 | every step that leads somewhere leads to a listed child |
| Json.ChildrenDistinct | internal/ast/child.go:29-44 | no two children share a step |
| Traversal.StackStep | internal/ast/segment.go:94-109 | popping a node and pushing its children in reverse leaves the recursive pre-order to do, with strictly less on the stack |
| PlainSelect.Select | internal/ast/query.go:56-67 | the values of the specified nodes, in order |
| PlainSelect.Apply | internal/ast/segment.go:66-84 | one segment applied to a list of nodes |
| PlainSelect.AppendDescendant | internal/ast/segment.go:94-109 | the stack loop appends what the selectors pick in recursive pre-order |
| PlainSelect.AppendSelector | internal/ast/selector.go:163-200 | one selector appends exactly what it picks from a node |
| PlainSelect.AppendSlice | internal/ast/selector.go:202-219 | a slice appends the elements at the selected indexes, in order |
| FilterLaws.ExistPicks | internal/ast/filter.go:102-138 | a test on a path below the node or the root picks the children in which, or exactly if in the root, the path leads somewhere; its negation picks the others |
| FilterLaws.NotPicksComplement | internal/ast/filter.go:119-188 | `!` before a query, a group or a call picks exactly the children its operand leaves out |
| FilterLaws.OrPicksUnion | internal/ast/filter.go:34-42 | `or` picks the union of what its parts pick |
| FilterLaws.AndPicksIntersection | internal/ast/filter.go:57-65 | `&&` picks the intersection |
| FilterLaws.ParenPicksSame | internal/ast/filter.go:145-148 | parentheses change nothing |
| FilterLaws.PathComparisonPicks | internal/ast/filter.go:230-250 | comparing two paths compares the values they lead to, or Nothing, left against right |
| FilterLaws.LiteralComparisonPicks | internal/ast/filter.go:280-284 | comparing a path with a literal compares what the path leads to with the JSON value written |
| FilterLaws.CallPicks | internal/ast/function.go:249-260 | a call as a test succeeds if its callback, given the arguments in order, returns true or at least one node in the declared kind |
| FilterLaws.CallOperand | internal/ast/function.go:239-245 | a call as an operand is what its callback returns for the arguments in order |
| FilterLaws.LiteralArgument | internal/ast/function.go:170-174 | a literal argument hands over the JSON value written |
| FilterLaws.NodesArgument | internal/ast/function.go:174-178 | a Nodes argument hands over the values selected, in order |
| FilterLaws.PathArgument | internal/ast/function.go:174-182 | a singular query as a Value argument hands over what its path leads to, or Nothing |
| FilterLaws.LogicalArgument | internal/ast/function.go:183-184 | a logical argument is true exactly for the children that the expression as a filter picks |
| FilterLaws.CallArgument | internal/ast/function.go:185-186 | a call as an argument hands over what its callback returns |
| LocatedSelect.SelectLocated | jsonpath.go:38-48 | the specified nodes with their paths, in order; so its values are those of plain selection |
| LocatedSelect.ApplySegmentLocated | jsonpath.go:54-86 | one segment applied to located nodes, in both of its branches |
| LocatedSelect.AppendDescendantLocated | jsonpath.go:88-107 | the located stack loop is the recursive pre-order, paths included |
| LocatedSelect.AppendSelectorLocated | jsonpath.go:116-150 | one selector appends its picks under the extended path |
| LocatedSelect.AppendSliceLocated | jsonpath.go:152-169 | a slice appends the selected elements under their indexes |
| Locations.StorableIffWalked | internal/ast/array.go:22-58 | the documents the evaluators take are those in which no path leads to an array of more than 2^63 - 2^53 elements |
| Locations.SelectedNodesResolve | jsonpath.go:38-169 | walking the path of every selected node from the start reaches exactly its value |
| Locations.VisitAscends | internal/ast/segment.go:94-109 | pre-order visits locations in strictly ascending path order, so each once |
| Locations.VisitComplete | internal/ast/segment.go:94-109 | every location below a node is visited |
| Locations.SingularSelectsAtMostOne | internal/ast/query.go:28-35 | a singular query selects at most one node |
| Locations.NoDuplicateLocations | jsonpath.go:54-169 | one selector per segment and at most one descendant segment select no location twice |
| Locations.QueryOfPathSelects | internal/ast/query.go:56-67 | the query of a path selects exactly the node the path leads to, or nothing |
| PathQueries.PathParses | normalized.go:246-254 | the string of a path whose indexes a query can write parses to the query of its steps under any registry |
| PathQueries.PathParsesIffWritable | normalized.go:155-168 | the string of any path parses if and only if every index is within 2^53 - 1 |
| PathQueries.LocatedPathsAreQueries | normalized.go:39-78 | the path text of every selected node is a singular query selecting exactly that node, if and only if its indexes are within 2^53 - 1; in documents without an array of more than 2^53 elements they are |
| PathQueries.PathTextInjective | normalized.go:246-254 | paths with the same string are the same |
| NormalizedPaths.Compare | normalized.go:269-293 | the specified order; 0 if and only if the paths are equal |
| Utf8.DecodeEncode | normalized.go:269-293 | the UTF-8 form of a scalar is the pattern of RFC 3629 that decodes to it |
| Utf8.CompareTextIsByteOrder | normalized.go:269-293 | the code point order of names is the byte order of their UTF-8 forms, which the source compares |
| NormalizedPaths.ComparePathsAntisymmetric | normalized.go:269-293 | swapping the operands flips the sign |
| NormalizedPaths.ComparePathsTransitive | normalized.go:269-293 | the order is transitive, strictly where one step is strict |
| NormalizedPaths.String | normalized.go:246-254 | the string of section 2.7 of RFC 9535 |
| NormalizedPaths.Pointer | normalized.go:257-265 | the pointer of section 3 of RFC 6901 |
| NormalizedPaths.PointerRoundTrip | normalized.go:80-91 | cutting and unescaping a pointer gives back the names and indexes |
| NormalizedPaths.NormalizedLength | normalized.go:300-323 | the precomputed length is the exact UTF-8 length of the string |
| NormalizedPaths.PointerLength | normalized.go:325-343 | the precomputed length is the exact UTF-8 length of the pointer |
| NormalizedPaths.Digits10 | normalized.go:368-382 | the number of decimal digits of an index |
| Deduplicate.DeduplicateWithHasher | result.go:54-90 | for any hash function, the first occurrences in order at the front of the list itself, every slot behind them cleared |
| Deduplicate.IsDuplicate | result.go:68-80 | the two-level index finds a path if and only if it was kept |
| Deduplicate.FirstOccurrencesDistinct | result.go:50-52 | no two kept nodes share a location |
| Deduplicate.FirstOccurrencesCover | result.go:50-52 | exactly the locations of the list are kept |
| Deduplicate.DeduplicateIdempotent | result.go:50-52 | removing duplicates twice is removing them once |
| Deduplicate.DeduplicateKeepsDistinctResults | result.go:50-52 | results that cannot repeat a location are left as they are |
| Slices.NormalizeIndex | internal/ast/array.go:4-12 | the index from the front, if it is inside the array, without 64-bit overflow |
| Slices.ResolveSliceBounds | internal/ast/array.go:22-58 | bounds that step through exactly the sequence of section 2.3.4.2.2 of RFC 9535, without 64-bit overflow |
| Slices.NormalizeSliceBounds | internal/ast/array.go:60-81 | partial clamping steps through the same indexes as the RFC's full clamping |
| Slices.Count | internal/ast/array.go:85-96 | the number of indexes yielded |
| Slices.SliceIndexes | internal/ast/array.go:99-114 | the indexes yielded, without 64-bit overflow |
| Slices.SelectedMembers | internal/ast/array.go:22-114 | an index is selected if and only if it lies inside the array, before the end bound, a whole number of steps from the first index |
| Slices.SelectedInOrder | internal/ast/array.go:99-114 | the selected indexes ascend with a positive step and descend with a negative one |
| Slices.SelectedDistinct | internal/ast/array.go:99-114 | no index is yielded twice |
| Decimals.NormalFormValue | internal/ast/number.go:162-177 | trimming zeros on both sides keeps the number |
| Decimals.NormalizeDecimal | internal/ast/number.go:162-177 | the loops produce the normal form |
| Decimals.ParseDecimalNumber | internal/ast/number.go:132-160 | the decimal of a lexeme, or nothing if it is no number |
| Decimals.PartsDecimalValue | internal/ast/number.go:132-160 | the decimal read from a lexeme denotes the lexeme's number |
| Decimals.NormalFormUnique | internal/ast/number.go:162-177 | normal forms denote the same number if and only if they are identical |
| Decimals.LexemesEqual | internal/ast/number.go:132-177 | two lexemes denote the same number if and only if they are read as the same decimal |
| Decimals.CompareDecimalMagnitudes | internal/ast/number.go:228-248 | the digit loop returns the order of two magnitudes |
| Decimals.CompareDecimalsExact | internal/ast/number.go:197-226 | the sign of the exact difference, digits and exponents unbounded |
| Numbers.CompareDecimalToFloatExact | internal/ast/number.go:250-286 | the sign of the exact difference, given the true magnitude of the float |
| Numbers.CompareNumbersExact | internal/ast/number.go:29-63 | the sign of the exact difference for every pair of kinds |
| NumberMeaning.CompareStandsFor | internal/ast/number.go:29-63 | the order of two numbers of any kinds is the order of the reals they stand for, lexemes by the grammar of RFC 8259 |
| NumberMeaning.StandsForSomething | internal/ast/number.go:88-130 | every number stands for a real unless it is no number or a float with another reported magnitude than its own |
| NumberMeaning.CompareLexemes | internal/ast/number.go:132-177 | lexemes with any fraction and exponent are compared as the numbers they spell |
| NumberMeaning.NoOrderIffNoNumber | internal/ast/number.go:88-130 | there is no order exactly if an operand is NaN, an infinity or a text that spells no number |
| NumberMeaning.EqualsItselfUnlessNoNumber | internal/ast/number.go:88-130 | every integer, finite float and well-formed lexeme equals itself |
| NumberOrder.CompareNumbersAntisymmetric | internal/ast/number.go:29-63 | swapping any two operands flips the sign, whatever magnitudes floats report; an order exists if and only if both are comparable |
| NumberOrder.CompareNumbersReflexive | internal/ast/number.go:29-63 | a number equals itself if and only if it is comparable, which excludes NaN and malformed lexemes |
| NumberOrder.CompareNumbersTransitive | internal/ast/number.go:29-63 | comparison across kinds is transitive, strictly where a step is strict, where larger floats report no smaller magnitude |
| NumberOrder.TrueMagnitudesAgree | internal/ast/number.go:276-293 | floats that report their true magnitudes meet that condition |
| NumberOrder.EqualNumbers | internal/ast/number.go:29-63 | two comparable numbers are equal if and only if they denote the same number and, if one is a float and the other a decimal, the float reports the magnitude of the decimal |
| NumberOrder.EqualNumbersTransitive | internal/ast/number.go:29-63 | equality is transitive if the reported magnitude is a function of the absolute value of a float |
| Numbers.ExactIffTrueMagnitude | internal/ast/number.go:276-293 | comparison with every decimal is exact if and only if the shortest rendering reports the true magnitude |
| Numbers.TenToThe23Falls | internal/ast/number.go:288-293 | the float nearest 10^23 has a shortest rendering with another magnitude and does not equal the decimal that denotes the same number |
| CompareMeaning.JsonEqualIsSameMeaning | internal/ast/filter.go:426-457 | documents are deeply equal if and only if they stand for the same document over the reals |
| CompareMeaning.JsonEqualIsEquality | internal/ast/filter.go:426-457 | without numbers, deep equality is equality |
| CompareMeaning.EqualHolds | internal/ast/filter.go:387-424 | `==` holds of two missing operands and of two deeply equal values, and of nothing else |
| CompareMeaning.NotEqualNegates | internal/ast/filter.go:238-239 | `!=` is the negation of `==` for all operands |
| CompareMeaning.LessHolds | internal/ast/filter.go:240-241 | `<` holds of two numbers and two strings in order, and of nothing else |
| CompareMeaning.GreaterIsLessSwapped | internal/ast/filter.go:244-247 | `>` and `>=` are `<` and `<=` with their operands swapped |
| CompareMeaning.NumbersCompareAsReals | internal/ast/filter.go:230-250 | on numbers that stand for reals the six operators are those of the reals |
| Compare.JsonEqualReflexive | internal/ast/filter.go:426-457 | a value deeply equals itself if and only if every number in it is comparable |
| Compare.JsonEqualSymmetric | internal/ast/filter.go:426-457 | deep equality of any two values is symmetric, through arrays and objects |
| Compare.JsonEqualTransitive | internal/ast/filter.go:426-457 | and transitive, if the reported magnitude is a function of the absolute value of a float |
| Compare.Trichotomy | internal/ast/filter.go:231-250 | of two numbers or two strings exactly one of `<`, `==` and `>` holds if and only if both are comparable |
| Compare.LessEqualIsUnion | internal/ast/filter.go:242-247 | `<=` and `>=` are the unions unless the operands are equal and both missing, arrays or objects |
| Compare.NothingIsNotLessEqual | internal/ast/filter.go:387-413 | two missing operands are equal but not `<=` |
| RegexpChecker.IRegexpChecker.Check | internal/functions/iregexp.go:23-71 | the loop with its group stack and flag accepts exactly what the recogniser accepts |
| RegexpChecker.IRegexpChecker.CheckEscape | internal/functions/iregexp.go:73-89 | where an escape ends, or that it is malformed |
| RegexpChecker.IRegexpChecker.CheckQuantifier | internal/functions/iregexp.go:111-142 | where a quantifier ends, or that it is malformed |
| RegexpChecker.IRegexpChecker.CheckCharacterClass | internal/functions/iregexp.go:144-183 | where a class ends, or that it is malformed |
| RegexpChecker.IRegexpChecker.CheckCharacterClassElement | internal/functions/iregexp.go:185-212 | where a class element ends, or that it is malformed |
| RegexpCharacters.BareCharacters | internal/functions/iregexp.go:244-251 | a pattern of one character is accepted unless it is one of the ten that cannot stand alone |
| RegexpCharacters.ClassCharacters | internal/functions/iregexp.go:259-264 | a class of one character is accepted unless it is a bracket, a backslash or `^` |
| RegexpCharacters.LaterClassCharacters | internal/functions/iregexp.go:259-264 | behind another element `^` stands for itself |
| RegexpCharacters.EscapedCharacters | internal/functions/iregexp.go:253-257 | the characters that a backslash may stand before, inside classes and outside |
| RegexpCharacters.PropertyNames | internal/functions/iregexp.go:266-279 | the property names that `\p` and `\P` take, by major and minor letter |
| RegexpComplete.GrammarAccepted | internal/functions/iregexp.go:23-238 | whatever the grammar of RFC 9485 derives is accepted |
| RegexpSound.AcceptsIffDerives | internal/functions/iregexp.go:23-238 | a pattern is accepted if and only if the grammar derives it, reading `^` after `[` as negation |
| RegexpSound.CheckIRegexp | internal/functions/iregexp.go:15-21 | the checker decides that grammar |
| RegexpSound.CaretAloneRejected | internal/functions/iregexp.go:147-155 | `[^]` is a class of the printed grammar and is rejected |
| RegexpCaret.AcceptsIffPrintedWithoutBareCaret | internal/functions/iregexp.go:147-155 | accepted patterns are exactly the derivable ones of the printed grammar that show no unescaped `[^]` |
| RegexpCaret.AgreesWithPrinted | internal/functions/iregexp.go:147-155 | the checker and the printed grammar agree on a pattern unless it is derivable and shows `[^]` |

## Left out

- JSON decoding and readers (json.go): evaluation starts from a decoded tree; objects are maps with their names in canonical order.
- Function callbacks (internal/functions/builtins.go): regexp compilation and execution, caching and the built-in functions are abstract typed callbacks given to evaluation.
- Parser options (options.go): a registry is a map from names to signatures; only the grammar of names is stated, not the other checks of registration.
- UTF-8 decoding in the lexer: sources are scalar sequences, so offsets count scalars and invalid bytes do not occur; only the encoded length of a scalar is modelled, for the length computations.
- Tokens.TokenAt: its contract states the span only; what a token holds is stated by the lemmas on numbers, string literals and renderings.
- Tokens.AllTokens: its contract states how the list ends; that its tokens are consecutive is `Layout.TokenRead`.
- Lexing.Lexer.Scan: the end and message of an invalid token are not specified, only that it is invalid and where it starts.
- Lexing.Tokenize: an invalid token is identified by where it starts alone, as for `Lexing.Lexer.Scan`.
- Error values: wording, snippets, wrapping and `ParseError` are left out; a failure is its offset.
- Float formatting and rounding: a finite float is a dyadic rational and the magnitude of its shortest rendering is a parameter.
- Literals of Go types other than those the parser stores are not printed.
- Arrays longer than 2^63 - 2^53 elements, which no machine holds: there slice arithmetic with a step of 2^53 - 1 could leave 64 bits, so both evaluators assume shorter ones.
- Capacity growth (`OutputEstimate`, `slices.Grow`, `slices.Clip`) has no effect on results.
- The hash function of paths (normalized.go:346-359): deduplication is proved for every hash function.
- `Sort`, the iterator wrappers, `Equal`, text marshalling and element conversion of paths: thin wrappers over what is modelled.
- The callbacks of filter expressions inside the evaluators' loops are the specification predicates: filter evaluation itself has no state to model.
