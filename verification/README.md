# Routing policy front end and event-stream decoders

A Dafny model of two parts of the repository, with proofs.

**The Routing Policy DSL front end** (`sdk/go/policy/parser.go`, `sdk/go/policy/ast.go`). The byte
lexer and the recursive-descent parser are modelled branch by branch: a `Lexer` and a `Parser` class
with a moving cursor, and beside them functions of the source and of the token list that the methods
are proved to compute. The theorems speak about those functions.

**The three decoders of chat event streams** (`chatStream` in `sdk/typescript/src/index.ts`,
`chat_stream` in `sdk/python/noetivela/client.py`, `sseScanner` in `sdk/go/client/sse.go`): a `Decoder`
class with a growing buffer for the first two, an `SseScanner` class for the third.

## Modules

| module | content |
|---|---|
| ByteClasses, Numerals, Words, Blanks, StreamContents | the tables everything else is built on, pinned by code points and literal words: bytes, numbers, words and signs, white space and line ends, what a client yields |
| Outcomes, PolicyAst, Chars, Decimals, Tokens, Spans | results, the abstract syntax, byte classes, decimal numerals, tokens, occurrences in sequences |
| Lexing, LexerMachine, Layout | lexing as functions and as a declarative relation; the lexer; renderings in arbitrary layout |
| Parsing, ParserMachine | parsing as functions of a token list and a cursor; the parser |
| Grammar, Soundness, Completeness | the implemented grammar as trees, and its equivalence with the parser |
| Expressions, Safety, Accepted, Bodies | meaning of expressions, reads past the end, what accepted policies look like, composition of bodies |
| Printing, RoundTrip, NormalForm | a printer, parsing undoes it, and its image is exactly the accepted policies |
| Unambiguous | every legal token list has one tree |
| Documented, Coverage | the grammar of the documentation, which of it the parser accepts, and what comes out as documented |
| EventStream, StreamDecoder | streams as whole strings, the incremental decoders |
| StreamLines, BytewiseText | streams line by line; texts decoded byte by byte |
| ClientAgreement, LineScanner | agreement of the three clients |

## What came out

Four facts are worth knowing before the table.

- `Parse` panics on some sources. It does so exactly when the tokens are a policy header, then a legal
  clause list that does not end in a lexicographic clause, then `optimize`, then the end of the source
  (`Safety.CrashExactly`). The error of `parser.go:182` is ignored, and `parseNumber` takes a token too many.
- `optimize` is not among the words that stop a lexicographic list (`parser.go:185`). An optimize clause
  directly behind a lexicographic one is read as more dimensions. This is the only way in which two clause
  bodies fail to compose, and `Bodies.BodiesComposeExactly` says when even that does no harm.
- The documentation is wider than the code. `contracts/dsl/grammar.ebnf` lets a `require` be any
  `and`/`or` expression; the parser rejects all but a single comparison or list test. A list item `"]"`
  and a call argument `")"` end their list, because lookahead compares texts and not kinds, and the policy
  is rejected, too. `Coverage.AcceptedExactly` says that these are all the documented policies the parser
  rejects. The EBNF puts a weight behind each lexicographic dimension; the parser reads each weight as one
  more, nameless dimension (`Coverage.LexicographicWeights`). `Coverage.CoverageExactly` gives the exact
  part of the documented language that comes out as documented. The documented grammar here is the EBNF
  with, beside its lexicographic form, the one without weights, and with `safety`, of
  `contracts/dsl/routing-policy.md:36`. Where code and documents differ the model follows the code: the
  words `policy`, `weight`, `only_if` and `expected_gain` may be any identifiers, and nothing behind the closing brace is looked at.

- The Python client decodes every byte on its own (`client.py:193-196`), so a character outside ASCII becomes
  two to four replacement characters. Events and lines stay where they are (`BytewiseText.SeenCut`), but a
  payload with such a character does not come out as sent (`ClientAgreement.NonAsciiDiffers`). The results
  about the Python client are therefore about a text sent and what the client holds of it, `Seen(text)`. The
  TypeScript client's decoder drops a byte-order mark in front of the text, and it holds `Held(text)`.

The parser's loops and its mutual recursion terminate because the cursor never moves back and every
operand and every clause takes a token: the measures are distances to the end of the token list.

In the model's results, `Ok`, `Err` and `Crash` are success, a returned error and an index-out-of-range panic.
All lemmas carry `{:induction false}`: where there is induction it is written out, and default induction
would get in the way.

## Model

| member | source | states |
|---|---|---|
| LexerMachine.Lexer.SkipBlanks | sdk/go/policy/parser.go:32-46 | moves the cursor over white space and comments, to the position `SkipTrivia` gives, which is neither |
| LexerMachine.Lexer.TakeRun | sdk/go/policy/parser.go:67-70 | consumes the longest run of characters of a class and returns exactly that slice |
| LexerMachine.Lexer.ReadToken | sdk/go/policy/parser.go:50-87 | reads one string, number, identifier or punctuation token and moves behind it; an open string is the only error |
| LexerMachine.Lexer.Next | sdk/go/policy/parser.go:31-88 | returns the token `NextToken` specifies and moves behind it, or the end marker |
| LexerMachine.Tokenize | sdk/go/policy/parser.go:95-108 | the loop over `next` yields `LexFrom(input, 0)`, the list `LexExact` characterises |
| Lexing.LexExact | sdk/go/policy/parser.go:31-88 | lossless lexing with maximal munch, both ways: the lexer returns a list of positioned tokens if and only if the list covers the source with token spans that could not be longer, separated by nothing but white space and comments |
| Lexing.LexedShape | sdk/go/policy/parser.go:98-108 | positions strictly increase and exactly one end marker closes the list, at the source's length |
| Lexing.LexFromBoundary | sdk/go/policy/parser.go:98-108 | lexing again from the end of any token gives exactly the tokens after it |
| Layout.RenderLexes | sdk/go/policy/parser.go:31-88 | lexing undoes layout: legal tokens written with any gaps that keep neighbours apart lex to exactly those tokens |
| Layout.NonEmptyGapsOk | sdk/go/policy/parser.go:32-46 | any non-empty runs of white space and newline-terminated comments between tokens are such gaps |
| Layout.LexedTokensLegal | sdk/go/policy/parser.go:50-87 | every token of a lexed ASCII source can be written again |
| ByteClasses.Tables | sdk/go/policy/parser.go:34-74 | by code point: which bytes are white space, start a name, go on with one, belong to a number, or are quotes |
| ByteClasses.NameLexes | sdk/go/policy/parser.go:71-75 | a text of letters, digits, `_` and `-` (by code point) that starts with a letter or `_` is one identifier, up to the first other byte |
| ByteClasses.NumberLexes | sdk/go/policy/parser.go:66-70 | digits and dots, a leading dot before a digit included, are one number token, up to the first other byte |
| ByteClasses.StringLexes | sdk/go/policy/parser.go:53-65 | a quoted text is one string with everything up to the next quote of its kind; without one it is an error |
| ByteClasses.OneByte | sdk/go/policy/parser.go:32-87 | what every single byte, 0 to 255, lexes to |
| ByteClasses.TwoBytes | sdk/go/policy/parser.go:77-86 | the operators of two bytes are `==`, `!=`, `>=` and `<=`, and no others |
| ByteClasses.SpaceExactly | sdk/go/policy/parser.go:34 | two names with one byte between them are two tokens if and only if that byte is 9 to 13, 32, 133 or 160 |
| ByteClasses.CommentSkipped | sdk/go/policy/parser.go:38-44 | a comment reaches to the line feed and no further |
| Decimals.DecimalRoundTrip | sdk/go/policy/parser.go:267-273 | reading the numeral written for a decimal gives the decimal back |
| Decimals.ParseFloatExactly | sdk/go/policy/parser.go:267-273 | a number text is read as v if and only if it is digits, or digits around a single dot with at least one digit, and v is its decimal value |
| Decimals.ParseFloatIsDecimal | sdk/go/policy/parser.go:267-282 | every number the parser reads is a non-negative decimal, and reads as an integer too |
| Numerals.DigitReads | sdk/go/policy/parser.go:267-273 | one digit is worth its code point less 48 |
| Numerals.DigitsRead | sdk/go/policy/parser.go:267-273 | one more digit behind others makes ten times their value and its own |
| Numerals.DotEnds | sdk/go/policy/parser.go:267-273 | a dot behind digits changes nothing; a dot alone is an error |
| Numerals.DotMoves | sdk/go/policy/parser.go:267-273 | moving the dot one digit to the right makes a number ten times as great |
| Numerals.NumberTexts | sdk/go/policy/parser.go:267-273 | a text is a number if and only if it is digits, or digits with one dot and at least one digit |
| Numerals.IntegerCutsOff | sdk/go/policy/parser.go:275-282 | an integer is the number cut off behind the dot |
| ParserMachine.Parser.Peek | sdk/go/policy/parser.go:113 | the token at the cursor, or a crash behind the end; the cursor stays |
| ParserMachine.Parser.Take | sdk/go/policy/parser.go:115-119 | the token at the cursor, which moves by one, or a crash |
| ParserMachine.Parser.ExpectPunct | sdk/go/policy/parser.go:121-127 | succeeds exactly on the given punctuation token |
| ParserMachine.Parser.ExpectIdent | sdk/go/policy/parser.go:129-135 | returns an identifier or an error, and takes the token in both cases |
| ParserMachine.Parser.ParseNumber | sdk/go/policy/parser.go:267-273 | the value of a number token (Numerals says which), one token taken |
| ParserMachine.Parser.ParseInteger | sdk/go/policy/parser.go:275-282 | the truncated value of a number token, one token taken |
| ParserMachine.Parser.ParseOperand | sdk/go/policy/parser.go:362-423 | result and new cursor are those of `Operand`: literals, `not`, dotted paths and calls |
| ParserMachine.Parser.ParseItems | sdk/go/policy/parser.go:329-345 | the list loop computes `Items` |
| ParserMachine.Parser.ParseArgs | sdk/go/policy/parser.go:393-406 | the argument loop computes `Args`, which keeps literals only |
| ParserMachine.Parser.ParseSegments | sdk/go/policy/parser.go:409-417 | the path loop computes `Segments` behind the first segment |
| ParserMachine.Parser.ParseCmp | sdk/go/policy/parser.go:316-360 | result and new cursor are those of `Cmp` |
| ParserMachine.Parser.ParseAnd | sdk/go/policy/parser.go:300-314 | the loop that rebuilds its left side computes `AndChain` |
| ParserMachine.Parser.ParseOr | sdk/go/policy/parser.go:284-298 | the loop that rebuilds its left side computes `OrChain` |
| ParserMachine.Parser.ParseOrder | sdk/go/policy/parser.go:185-188 | the lexicographic loop computes `Order` |
| ParserMachine.Parser.ParseDimWeights | sdk/go/policy/parser.go:193-199 | the weight loop, which updates its map, computes `DimWeights` |
| ParserMachine.Parser.ParseOptimize | sdk/go/policy/parser.go:180-200 | result and new cursor are those of `OptimizeAt`, with the ignored errors |
| ParserMachine.Parser.ParseClause | sdk/go/policy/parser.go:151-242 | one turn of the clause loop reads what `ClauseAt` specifies and changes the policy as `Apply` does |
| ParserMachine.Parser.ParsePolicy | sdk/go/policy/parser.go:137-248 | result and new cursor are those of `PolicyAt`, crash included |
| ParserMachine.Parse | sdk/go/policy/parser.go:95-111 | the two machines together compute `ParseSource` |
| Words.LiteralExactly | sdk/go/policy/parser.go:365-372 | exactly strings, numbers, `true` and `false` are literals, of their kinds |
| Words.CompareExactly | sdk/go/policy/parser.go:348-357 | between two literals exactly `==`, `!=`, `>=`, `<=`, `>` and `<` compare |
| Words.InExactly | sdk/go/policy/parser.go:322-345 | exactly `in` tests a list |
| Words.ConnectivesExactly | sdk/go/policy/parser.go:289-311 | exactly `and` and `or` join atoms |
| Words.DimensionExactly | sdk/go/policy/parser.go:193-199 | the weight loop goes on at exactly the six dimension names |
| Words.StopExactly | sdk/go/policy/parser.go:185-188 | exactly the end, `}`, `fallback`, `switch`, `require` and `prefer` end a lexicographic list; what is no identifier becomes an empty name |
| Words.KeywordExactly | sdk/go/policy/parser.go:155-242 | every word but the five clause keywords is an error |
| Words.ArgumentsKept | sdk/go/policy/parser.go:394-406 | a call keeps the texts of all literal arguments in order |
| Words.ItemsKept | sdk/go/policy/parser.go:330-345 | a list keeps the texts of all its literals in order |
| Words.PathsDropped | sdk/go/policy/parser.go:399-401 | a path among arguments is dropped, among list items it is an error |
| Words.AnyPreferWord | sdk/go/policy/parser.go:172-174 | any identifier stands for `weight` |
| Words.AnySwitchWords | sdk/go/policy/parser.go:217-222 | any identifiers stand for `only_if` and `expected_gain` |
| Words.AnyPolicyWord | sdk/go/policy/parser.go:138-140 | any identifier stands for `policy` |
| Words.AnyFirstName | sdk/go/policy/parser.go:182-192 | any token stands for the first name of a weighted clause |
| Soundness.SoundPolicy | sdk/go/policy/parser.go:137-248 | every accepted policy comes with a legal grammar tree that spells the consumed tokens and means the policy |
| Completeness.CompletePolicy | sdk/go/policy/parser.go:137-248 | tokens that start with the spelling of a legal tree are accepted with the meaning of the tree, and exactly that spelling is consumed |
| Completeness.PolicyExact | sdk/go/policy/parser.go:137-248 | the grammar is exactly the parser, on every token list: policy p comes out with k tokens consumed if and only if the first k tokens derive p |
| Expressions.OrChainNests | sdk/go/policy/parser.go:284-314 | the parsed tree is the left-nested `or` of the left-nested `and`s of the groups of atoms, and fails exactly when the atoms fail |
| Expressions.ExpressionMeaning | sdk/go/policy/parser.go:284-314 | under every truth valuation of its atoms a parsed expression is the disjunction over its groups of their conjunctions |
| Safety.ClauseCrash | sdk/go/policy/parser.go:180-191 | a clause reads past the end if and only if it is `optimize` directly before the end marker |
| Safety.CrashExactly | sdk/go/policy/parser.go:113-119 | on a token list with its only end marker last, the parser reads past the end if and only if a header, a legal clause list not ending in a lexicographic clause, `optimize` and the end marker are all there is |
| Safety.ParseCrashesExactly | sdk/go/policy/parser.go:95-119 | `Parse` panics on a source if and only if it lexes to such a list |
| Safety.PanickingSource | sdk/go/policy/parser.go:182-190 | a source text that makes `Parse` panic: `policy p { optimize` |
| Accepted.AcceptedIsFlat | sdk/go/policy/parser.go:156-166 | in an accepted policy every require is a comparison or list test over operands without connectives; no list holds "]" and no call ")" |
| Accepted.ConnectiveRejected | sdk/go/policy/parser.go:161-165 | wherever the clause loop meets a require with a connective behind its first atom, the whole body fails, whatever comes after |
| Accepted.AcceptedOptimize | sdk/go/policy/parser.go:180-200 | a lexicographic optimize has no weights; a weighted one has no order, some weight, and keys among the six dimensions, one further name and the empty name |
| Accepted.WeightsKeys | sdk/go/policy/parser.go:258-265 | the keys of a weight map are exactly the names written |
| Accepted.LastWriteWins | sdk/go/policy/parser.go:258-265 | each key holds the weight written last for it |
| Accepted.PrefixDeterminism | sdk/go/policy/parser.go:244-247 | a successful parse is the same on every token list that agrees on the tokens it consumed |
| Accepted.AcceptedSourceExtends | sdk/go/policy/parser.go:95-111 | whatever is written behind an accepted source, the result is the same policy if the longer source lexes and an error if it does not |
| Bodies.BodyExact | sdk/go/policy/parser.go:149-243 | a token list is a complete body with a policy if and only if a legal clause list spells it and means that policy |
| Bodies.BodiesCompose | sdk/go/policy/parser.go:149-243 | outside the exception two bodies in a row read as the merge: requires and prefers concatenate, the other clauses are the second body's if present, else the first's |
| Bodies.BodiesComposeExactly | sdk/go/policy/parser.go:149-243 | two bodies in a row read as the merge of their policies if and only if it is not the case that a lexicographic clause meets a run of optimize clauses, or the whole run is swallowed and a later optimize clause overwrites the result |
| Bodies.ClashingBodies | sdk/go/policy/parser.go:185-188 | two bodies that do not compose: each is one lexicographic clause |
| Unambiguous.OneBodyTree | sdk/go/policy/parser.go:149-243 | the tokens of a body are spelled by one list of clauses only, so what is said of a body's clauses does not depend on a choice |
| Unambiguous.OneTree | sdk/go/policy/parser.go:137-248 | the implemented grammar is unambiguous: two legal trees with the same tokens are the same |
| RoundTrip.RenderedTreeParses | sdk/go/policy/parser.go:95-248 | a legal tree written in any layout parses to its meaning |
| RoundTrip.LayoutRoundTrip | sdk/go/policy/parser.go:31-423 | a printable policy written in any layout parses back to itself |
| RoundTrip.PrintRoundTrip | sdk/go/policy/parser.go:31-423 | parsing the text printed for a printable policy gives the policy back |
| NormalForm.AcceptedIsPrintable | sdk/go/policy/parser.go:95-248 | every accepted source has a printable policy |
| NormalForm.PrintIsNormalForm | sdk/go/policy/parser.go:95-248 | for every accepted source, the text printed for its policy is accepted with the same policy |
| NormalForm.PrintableExactly | sdk/go/policy/parser.go:95-248 | a policy is printable if and only if some source parses to it |
| NormalForm.RelayoutSame | sdk/go/policy/parser.go:31-111 | another layout of a source's tokens lexes to the same tokens and parses to the same result, success or not |
| NormalForm.ReformatSame | sdk/go/policy/parser.go:31-111 | an ASCII source rewritten with single spaces and without comments parses to the same result |
| Coverage.SupportedIsAccepted | contracts/dsl/grammar.ebnf:3-35 | every policy of the documented grammar whose requires are single comparisons or list tests (without the two literals that end a list or call) is accepted whole, and nothing but its optimize clause can differ from the documented meaning |
| Coverage.UnsupportedIsRejected | contracts/dsl/grammar.ebnf:6-22 | every other policy of the documented grammar is an error, never a panic and never accepted with another meaning |
| Coverage.AcceptedExactly | sdk/go/policy/parser.go:137-248 | a documented policy is accepted if and only if its requires are of that kind, and an error if and only if one is not |
| Coverage.CoverageExactly | contracts/dsl/grammar.ebnf:3-35 | a documented policy is accepted with its documented meaning if and only if its requires are of that kind, its last optimize clause is not swallowed by a lexicographic one, and that clause is not lexicographic with weights |
| Coverage.SourceExactly | sdk/go/policy/parser.go:95-111 | the two results for source texts: they hold of every layout of a documented policy |
| Coverage.AbsorbMeans | sdk/go/policy/parser.go:185-188 | swallowing changes nothing but the optimize clause, and not even that exactly when the last one survives |
| Coverage.LexicographicWeights | contracts/dsl/grammar.ebnf:8 | where the last optimize clause of an accepted documented policy is lexicographic with weights and not swallowed, the parser returns it with every weight as a dimension with an empty name |
| Coverage.RejectedDisjunction | contracts/dsl/grammar.ebnf:19-22 | a documented policy that is an error: its require is a disjunction |
| Coverage.RejectedBracket | sdk/go/policy/parser.go:330 | another one: its list holds the string "]" |
| Coverage.MisreadOptimize | sdk/go/policy/parser.go:185 | a documented policy that is accepted with another meaning: its second optimize clause is swallowed |
| EventStream.CutExact | sdk/typescript/src/index.ts:115-117 | splitting at leftmost blank lines is the only decomposition of a stream into events without breaks, each closed by a blank line, and a rest without a break |
| EventStream.CutAppend | sdk/typescript/src/index.ts:113-117 | what arrives later is cut together with the rest and changes no earlier event |
| EventStream.SplitExact | sdk/typescript/src/index.ts:118 | splitting an event at line feeds is the inverse of joining lines with them |
| EventStream.TrimExact | sdk/typescript/src/index.ts:120 | trimming removes the white space around a text, all of it and nothing else |
| EventStream.WholeAppend | sdk/python/noetivela/client.py:191-214 | more input continues the outcome of the input so far, and changes nothing once the stream has ended |
| EventStream.HandleAllEnded | sdk/typescript/src/index.ts:121-123 | after the end nothing more is yielded |
| StreamContents.YieldsExactly | sdk/typescript/src/index.ts:121-126 | what comes out of a list of payloads is all the contents of all payloads up to the first that ends the stream, in order, and the stream ends as that one says |
| StreamContents.StreamYields | sdk/python/noetivela/client.py:197-214 | the same for a whole stream and each client |
| StreamContents.TwoContents | sdk/python/noetivela/client.py:210-214 | two contents in one payload are both yielded |
| Blanks.TypeScriptPayload | sdk/typescript/src/index.ts:118-120 | the payload of a data line is its text, without the blanks, tabs and carriage returns around it |
| Blanks.GoPayload | sdk/go/client/sse.go:22-26 | the same for the Go client |
| Blanks.PythonPayload | sdk/python/noetivela/client.py:199-201 | the same for the Python client, where no line end of Python stands in the line |
| Blanks.TypeScriptTrims | sdk/typescript/src/index.ts:120 | by code point: which characters are trimmed in front of a payload, and that no others are |
| Blanks.GoTrims | sdk/go/client/sse.go:22-26 | the same for the Go client |
| Blanks.PythonTrims | sdk/python/noetivela/client.py:199-201 | the same for the Python client, and which characters end a line for it |
| Blanks.PyLinesExact | sdk/python/noetivela/client.py:199 | how Python cuts an event into lines, both ways: the lines are separated by "\r\n" or one of ten characters by code point, and the last needs no end |
| Blanks.GoLines | sdk/go/client/sse.go:21-22 | the first line the Go client sees ends at the first line feed and leaves out one carriage return before it |
| Blanks.BreakExactly | sdk/typescript/src/index.ts:115 | an event boundary is two line feeds in a row, and nothing else |
| StreamDecoder.Decoder.constructor | sdk/python/noetivela/client.py:191 | starts with an empty buffer and nothing yielded |
| StreamDecoder.Decoder.Take | sdk/typescript/src/index.ts:120-126 | one payload: all its contents come behind what was yielded, in order, and it ends the stream as its kind says |
| StreamDecoder.Decoder.TakeEvent | sdk/typescript/src/index.ts:118-127 | the line loop handles the payloads of the event in order, up to a terminator |
| StreamDecoder.Decoder.Receive | sdk/typescript/src/index.ts:113-129 | after each chunk the yields are those of everything received taken as one string; while the stream is open, the events handled, each with its blank line, and the buffer are exactly what was received, and the buffer holds no blank line |
| StreamDecoder.ChatStream | sdk/typescript/src/index.ts:107-131 | chunk-boundary independence: for every way of cutting a stream into chunks the outcome is that of the whole string |
| StreamDecoder.PythonChatStream | sdk/python/noetivela/client.py:190-214 | reading byte by byte gives the outcome of the whole text of singly decoded bytes |
| StreamDecoder.Utf8Exactly | sdk/python/noetivela/client.py:196 | the bytes of a character are those UTF-8 defines |
| StreamDecoder.BytesOfText | sdk/python/noetivela/client.py:193-196 | a text sent as UTF-8 arrives as it was sent if and only if it is ASCII; every byte of a longer character becomes a replacement character |
| ClientAgreement.PayloadsAgreeExactly | sdk/python/noetivela/client.py:193-201 | the Python and the TypeScript client find the same payloads in a text sent to both as UTF-8 if and only if, of every line of its events as the Python client holds it (decoded byte by byte), the first of its own lines has the data of the line sent, trimmed alike, and the others have none |
| ClientAgreement.SkippingExactly | sdk/python/noetivela/client.py:204-207 | a client that throws on invalid JSON and one that skips it make the same of the same payloads if and only if no invalid JSON is met before the end, or what follows it brings nothing and throws as well; the one that throws never yields more |
| ClientAgreement.ClientsAgreeExactly | sdk/python/noetivela/client.py:190-214 | on every text sent, the two clients make the same of it, whatever its payloads mean as long as they are JSON, if and only if they find the same payloads in it up to the first `[DONE]` |
| ClientAgreement.ClientsAgree | sdk/python/noetivela/client.py:190-214 | on texts whose lines both clients see alike, they yield the same and end alike if and only if invalid JSON does not matter in that sense |
| ClientAgreement.ClientsAgreeOnPlain | sdk/python/noetivela/client.py:190-214 | the same on ASCII text without the control characters that only one client takes for a line end or white space |
| ClientAgreement.NonAsciiDiffers | sdk/python/noetivela/client.py:193-196 | no data line with a non-ASCII character in its payload is seen alike, unless that character is U+FFFD |
| ClientAgreement.ReplacementAgrees | sdk/python/noetivela/client.py:193-196 | that exception is needed: a line with U+FFFD in its payload that is seen alike |
| ClientAgreement.AccentDiffers | sdk/python/noetivela/client.py:193-196 | a text on which the clients differ: one accented letter arrives as two replacement characters |
| ClientAgreement.ReturnDivides | sdk/python/noetivela/client.py:199 | a carriage return inside an ASCII payload cuts it short for the Python client only |
| ClientAgreement.MarkDiffers | sdk/python/noetivela/client.py:193-201 | a byte-order mark hides the data line behind it from the Python client, while the decoder of the TypeScript client drops it |
| BytewiseText.SeenCut | sdk/python/noetivela/client.py:193-198 | decoding byte by byte moves no event: the events of the text held are those of the text sent, decoded byte by byte |
| BytewiseText.SeenSplit | sdk/python/noetivela/client.py:193-199 | nor any line between line feeds |
| LineScanner.SseScanner.Scan | sdk/go/client/sse.go:21-22 | the next line, without its line end, and the cursor behind it |
| LineScanner.SseScanner.Next | sdk/go/client/sse.go:20-29 | returns the first payload of the unread text and leaves the text behind it, or fails when there is none |
| LineScanner.Drain | sdk/go/client/sse.go:20-29 | repeated calls of `Next` deliver the payloads of all lines in order and then fail |
| LineScanner.LineAgrees | sdk/go/client/sse.go:22-26 | the scanner finds the payload of the event-based client in a line if and only if the line is no indented data line and both trim functions do the same to its payload; it never finds less |
| LineScanner.ScannerAgreesExactly | sdk/go/client/sse.go:20-29 | on a text sent to both, the scanner finds the payloads of the TypeScript client if and only if all lines of the complete events are of that kind and the unfinished rest holds no data line |
| LineScanner.ScannerAgreesOnPlain | sdk/go/client/sse.go:20-29 | on a text without indented lines that is empty or ends in a blank line, they agree if and only if all payloads are trimmed alike |
| LineScanner.ScannerAgreesOnAscii | sdk/go/client/sse.go:20-29 | on an ASCII text of that kind they agree |
| LineScanner.UnfinishedEvent | sdk/go/client/sse.go:20-29 | a stream on which they differ: its only event is not finished |
| LineScanner.IndentedLine | sdk/go/client/sse.go:22 | another one: its data line is indented |
| LineScanner.MarkedText | sdk/go/client/sse.go:22-23 | a third one: a byte-order mark stands before its data line |

## Left out

- Parsing.ParseSource: numbers are exact decimals, so float64 rounding, range errors of `ParseFloat` and integers above 2^53 are not modelled.
- Decimals.ParseFloat: defined on the texts a number token can have, digits and dots.
- Lexing.NextToken: bytes are characters classified by the Latin-1 tables of Go's unicode package; a source that is not ASCII is modelled byte by byte, as the lexer reads it.
- Layout.LexedTokensLegal: of a source that is not ASCII some punctuation tokens cannot be spelled again, because a single byte becomes a two-byte text.
- Bodies.BodiesComposeExactly: assumes no end marker inside the second body, which the lexer never produces (Lexing.LexedShape).
- Safety.CrashExactly: assumes the only end marker is the last token, as Lexing.LexedShape guarantees; Safety.ParseCrashesExactly has no such assumption.
- ClientAgreement.PayloadsAgreeExactly: not for a text that starts with a byte-order mark directly before `data:`, which only the TypeScript client's decoder drops (ClientAgreement.MarkDiffers).
- ClientAgreement.ClientsAgree: the same, and it assumes that JSON decoding makes the same of a payload in both clients and that both see all lines alike.
- LineScanner.ScannerAgreesExactly: not for a text that starts with a byte-order mark directly before `data:` (LineScanner.MarkedText).
- Error wording and the positions reported in errors; only success, error and panic are kept, so parser tokens carry no position.
- The methods `SkipBlanks`, `TakeRun`, `ReadToken`, `ParseDotted`, `ParseSegments`, `ParseArgs`, `ParseItems`, `ParseOrder`, `ParseDimWeights`, `ParseOptimize`, `ParseOptionalInteger` and `ParseClause` are parts of longer functions in the source, one per loop or case.
- One decoder class serves the TypeScript and the Python client; what differs (line splitting, trimming, invalid JSON) is a parameter.
- JSON decoding is a parameter from payloads to a done marker, contents, contents followed by an exception, or no JSON.
- Bytes that are no UTF-8, and how the decoder of the TypeScript client puts together a character that is cut by a chunk; texts are sequences of Unicode scalar values.
- The line-length limit of Go's line scanner and the handling of what its `Next` returns, including that the Go client does not know the text `[DONE]`.
- Joining several data lines of one event, event names and ids of WHATWG HTML section 9.2: none of the clients does it.
- HTTP, headers, timeouts, channels, wire types, the command line, the extension interface, the schemas: input and output, library calls, or plain data.
