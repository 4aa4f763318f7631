# Monkey interpreter core, modelled in Dafny

This project models the interpreter core of a TypeScript implementation of the
Monkey language: the tokens, the lexer, the syntax tree and its rendering, the
Pratt parser, the runtime values, the environments, the builtin functions and
the tree-walking evaluator. The REPL is not modelled.

- `token.dfy` (module `Token`): the `TokenType` table, `createToken` and
  `lookupIdentity`.
- `lexer.dfy` (module `Lexer`): `getNextToken` as a pure function of the input
  and a cursor.
  - `Tokens` is the stream that repeated calls produce.
  - `StreamMatchesCursor` ties the n-th call to the n-th element of `Tokens`.
- `lexer_examples.dfy` (module `LexerExamples`): the repository's two lexer
  tests as proved facts.
- `decimal.dfy` (module `Decimal`): reading a digit run and rendering integers
  in decimal.
- `ast.dfy` (module `Ast`): the node types and every `String()` and
  `tokenLiteral()` of them.
- `parser.dfy` (module `Parser`): the parser over a token stream.
  - `PState` holds the cursor and the error list.
  - Fuel bounds the recursion depth.
- `parser_laws.dfy` (module `ParserLaws`) and `parser_examples.dfy` (module
  `ParserExamples`): how operators group, statements, and the precedence tests.
- `object.dfy` (module `Object`): runtime values, type tags, `inspect()` and
  hash keys.
- `environment.dfy` (module `Environment`): environments as an arena of frames.
  - A frame has a store and an optional outer frame.
  - A closure holds its frame's index.
- `builtins.dfy` (module `Builtins`): `len`, `first`, `last`, `rest`, `push` and
  `log`.
- `evaluator.dfy` (module `Evaluator`): `Eval` and its helpers, with fuel.
  - A `State` holds the frames and the next allocation number.
  - Allocation numbers give arrays, hashes, functions and return values the
    reference identity they have in the source.
- `evaluator_laws.dfy`, `evaluator_examples.dfy`, `evaluator_fuel.dfy`: laws of
  the evaluator, the repository's evaluator tests, and the fact that more fuel
  never changes a finished evaluation.

## Behaviour of the code that its tests and comments do not show

The model follows the code in each of these cases.

- The lexer in `src/lexer/lexer.ts` knows only these punctuation characters:
  `= ! + - ( ) { } , ;`.
  - There are no string literals.
  - There is no `==` or `!=` lookahead. `==` lexes as two `=` tokens
    (`Lexer.EqualsIsTwoAssigns`).
  - There is no `[ ] : * / < >`: each of those is an ILLEGAL token.
  - The parser and the evaluator are modelled over the full token kinds
    anyway, because their own code handles all of them.
- An `if` whose condition is falsy and that has no `else` evaluates to nothing,
  not to `Null`.
  - The parser sets the `alternative` field only when there is an `else`;
    otherwise the field stays undefined.
  - The evaluator tests `alternative !== null`, which undefined passes, so it
    evaluates undefined, and that gives no value. The branch returning `NULL`
    is never reached (`EvaluatorLaws.IfWithoutElseHasNoValue`).
- The message for a token without a prefix parser is
  `No prefix parse function for <kind> found.`, capitalised as in the code.
- Parsing a program records an error only for an ILLEGAL token that is the
  very first token. An ILLEGAL token at the start of a later statement ends the
  program silently.
- Integers are JavaScript numbers, not 64-bit integers.
  - They are modelled as unbounded `int`.
  - `/` is real division, so a quotient that is not an integer leaves the
    model (see "Left out").

## Model

Where the code as written has one of the defects listed under "## Findings",
the operations the rest of the model uses are the corrected program:
`Token.LookupIdentity`, `Lexer.NextToken`, `Parser.Precedence`,
`Parser.BlockLoop` and `Ast.ExprString` behave as the repository's tests and
the surrounding code expect. The code as written is modelled beside them, in
`Token.LookupIdentityAsWritten`, `Lexer.NextTokenAsWritten`,
`Parser.PrecedencesAsWritten`, `ParserLaws.BlockLoopAsWritten` and
`Ast.IfStringAsWritten`, and the lemmas in the "## Findings" table relate the
two.

| member | source | states |
|---|---|---|
| Token.KindStringInjective | src/token/token.ts:1-35 | two token kinds have the same spelling exactly when they are the same kind |
| Token.SpellingKindInverse | src/token/token.ts:1-35 | the spelling-to-kind table, written out independently, reads every kind's spelling back as that kind |
| Token.KindStringNotUndefined | src/token/token.ts:1-35 | no kind is spelled `undefined`, so a member key that evaluates to `undefined` names no kind |
| Token.KeysEndInLowerCase | src/token/token.ts:1-35 | every key of the token table ends in a lower-case letter |
| Token.TableLookup | src/token/token.ts:52-57 | a lookup of a key returns the kind filed under it, or None exactly when no kind has that key |
| Token.TableLookupInverse | src/token/token.ts:1-35 | looking up a kind's own key gives that kind |
| Token.TableLookupComplete | src/token/token.ts:52-57 | a lookup by key finds nothing exactly when no kind has that key |
| Token.CreateToken | src/token/token.ts:52-57 | the token keeps the literal; its kind is defined exactly when the item is a key of the table, and is then the kind filed under it |
| Token.CreateTokenByKey | src/token/token.ts:52-57 | creating a token from a kind's own key gives that kind |
| Token.KindNameInjective | src/token/token.ts:1-35 | no two kinds share a key, so a key names one kind |
| Token.NoKeyNoKind | src/token/token.ts:52-57 | a string that does not end in a lower-case letter is no key, so a token created from it has no kind |
| Token.Keyword | src/token/token.ts:59-67 | the keyword object has an own entry exactly for the seven keyword spellings |
| Token.LookupIdentity | src/token/token.ts:69-75 | each keyword spelling maps to its own keyword kind and back; every other word is an identifier |
| Token.KeywordsAreOwn | src/token/token.ts:59-67 | no keyword spelling is the name of a member inherited from Object.prototype |
| Token.KeywordsGet | src/token/token.ts:59-70 | reading the keyword object finds a value exactly for a keyword spelling or an inherited member name; a keyword finds its kind's key |
| Token.LookupIdentityAsWritten | src/token/token.ts:69-75 | a keyword gives its kind's key, any word that is neither a keyword nor an inherited member name gives the key `Ident`, and an inherited member name gives the inherited object |
| Token.PrototypeKeysAreNoKeys | src/token/token.ts:52-75 | the string conversion of every inherited member is no key of the token table |
| Token.InheritedKindAsWritten | src/token/token.ts:52-75 | an inherited member name that is not a keyword gets a token of no kind from the lookup as written |
| Token.IdentityKindsAsWritten | src/token/token.ts:52-75 | the kind that `createToken` of `lookupIdentity` gives a word equals the corrected lookup for every word that is not an inherited member name, and is undefined for the inherited names |
| Token.LookupIdentityConstructor | src/token/token.ts:69-75 | `constructor` is an identifier in the corrected lookup and, derived through the keyword object's inherited member, has no kind in the lookup as written |
| Decimal.DigitChar | src/parser/parser.ts:272-286 | the character for a digit value is a digit and reads back as that value |
| Decimal.ParseDigits | src/parser/parser.ts:272-286 | a literal parses to a number exactly when every character of it is a decimal digit, so the empty literal parses too, as `Number("")` does; the value read is stated by `Decimal.ParseNatToString` |
| Decimal.NatToString | src/object/object.ts:32-34 | the rendering of a natural number is a non-empty digit run with no leading zero |
| Decimal.IntToString | src/object/object.ts:32-34 | the rendering is non-empty and starts with `-` exactly for negative numbers |
| Decimal.ParseNatToString | src/object/object.ts:32-34 | reading a natural number's rendering gives the number back |
| Decimal.IntToStringInjective | src/object/object.ts:32-34 | distinct integers render differently |
| Lexer.EatWhitespaceSpec | src/lexer/lexer.ts:96-105 | the cursor moves past exactly the maximal run of spaces, tabs, newlines and carriage returns |
| Lexer.IdentEndSpec | src/lexer/lexer.ts:107-115 | an identifier run is the maximal run of letters and underscores, so a digit ends it |
| Lexer.NumberEndSpec | src/lexer/lexer.ts:117-125 | a number run is the maximal run of digits |
| Lexer.NextToken | src/lexer/lexer.ts:39-94 | after the whitespace, the token is ILLEGAL exactly when the cursor does not move; it is EOF exactly at NUL or the end, with literal `eof`; any other token's literal is the non-empty, whitespace-free text it consumed; a punctuation character gives its own kind, a letter gives the keyword lookup of the word read and a digit gives INT |
| Lexer.ReadIdentity | src/lexer/lexer.ts:107-115 | the literal is the maximal letter run at the cursor, and its kind is the keyword lookup of that literal |
| Lexer.ReadNumber | src/lexer/lexer.ts:117-125 | the token is an INT whose literal is the maximal digit run at the cursor |
| Lexer.Tokens | src/lexer/lexer.ts:39-94 | the stream of repeated calls is non-empty and its last token is ILLEGAL or EOF; it stops at the first ILLEGAL token or once the cursor has passed the end of the input, so the EOF that a NUL inside the input gives does not end it |
| Lexer.IllegalOnlyLast | src/lexer/lexer.ts:86-92 | no ILLEGAL token appears before the end of the stream |
| Lexer.IllegalRepeats | src/lexer/lexer.ts:86-92 | after an ILLEGAL token the cursor has not moved, so the next call returns the same token again |
| Lexer.EofRepeats | src/lexer/lexer.ts:77-79 | at or past the end of the input every call returns EOF |
| Lexer.TokensStep | src/lexer/lexer.ts:39-94 | the stream is the next token followed by the stream from where that token ends |
| Lexer.PunctuationStep | src/lexer/lexer.ts:45-76 | each of `= ! + - ( ) { } , ;` lexes as a one-character token of its own kind and advances by one |
| Lexer.PunctuationRun | src/lexer/lexer.ts:45-76 | a run of punctuation lexes one token per character |
| Lexer.PunctuationInput | src/lexer/lexer.ts:45-79 | an all-punctuation input lexes to one token per character followed by EOF |
| Lexer.PunctuationExample | src/lexer/__test__/lexer.test.ts:4-23 | `=+(){},;` lexes to the eight tokens the repository's first lexer test expects, followed by EOF |
| Lexer.StreamMatchesCursor | src/lexer/lexer.ts:39-94 | the n-th call of the stateful lexer returns element n of the stream, where reading past its end repeats the last token |
| Lexer.StreamStep | src/lexer/lexer.ts:39-94 | a cursor that agrees with the stream from the next position agrees with it one step earlier |
| Lexer.StripAppend | src/lexer/lexer.ts:96-105 | removing whitespace distributes over concatenation |
| Lexer.TokensRoundTrip | src/lexer/lexer.ts:39-125 | for input made of characters the lexer accepts, the literals of the tokens before EOF concatenate to the input without its whitespace |
| Lexer.StripSkipped | src/lexer/lexer.ts:96-105 | skipping whitespace does not change the whitespace-free text ahead |
| Lexer.StripToken | src/lexer/lexer.ts:39-94 | a consumed whitespace-free slice is a prefix of the whitespace-free text ahead |
| Lexer.KindStringIsNoKey | src/lexer/lexer.ts:44-89 | no kind's spelling ends in a lower-case letter, so a token created from a spelling has no kind |
| Lexer.NextTokenAsWrittenLosesKinds | src/lexer/lexer.ts:44-89 | the lexer as written agrees with the corrected one on cursor and literal, but has a kind only for keywords and for words that are not inherited member names; every punctuation, INT, EOF and ILLEGAL token has none |
| Lexer.IdentityLiteral | src/lexer/lexer.ts:81-83 | an identifier or keyword token's kind is the keyword lookup of its own literal |
| Lexer.AssignLosesKind | src/lexer/__test__/lexer.test.ts:4-23 | `=` lexes as an ASSIGN token in the corrected lexer and as a token with no kind in the lexer as written |
| Lexer.EofLosesKind | src/lexer/lexer.ts:77-79 | the end of the input lexes as EOF in the corrected lexer and as a token with no kind in the lexer as written |
| Lexer.EqualsIsTwoAssigns | src/lexer/lexer.ts:45-50 | `==` lexes as two ASSIGN tokens, because there is no two-character lookahead |
| LexerExamples.WhitespaceRun | src/lexer/lexer.ts:96-105 | a whitespace run followed by a non-whitespace character is skipped exactly to that character |
| LexerExamples.IdentEndAt | src/lexer/lexer.ts:107-115 | a letter run followed by a non-letter ends exactly there |
| LexerExamples.NumberEndAt | src/lexer/lexer.ts:117-125 | a digit run followed by a non-digit ends exactly there |
| LexerExamples.WordToken | src/lexer/lexer.ts:81-83 | a word of letters after whitespace lexes to the keyword lookup of the word, ending right after it |
| LexerExamples.NumberToken | src/lexer/lexer.ts:84-85 | a digit run after whitespace lexes to an INT token of exactly those digits |
| LexerExamples.PunctuationToken | src/lexer/lexer.ts:45-76 | a punctuation character after whitespace lexes to its one-character token |
| LexerExamples.TwoLets | src/lexer/__test__/lexer.test.ts:25-50 | `let five = 5;` and `let ten = 10;` on two lines lex to the eleven tokens the repository's second lexer test expects |
| Ast.ProgramTokenLiteral | src/ast/ast.ts:34-40 | a program's token literal is its first statement's, or empty for an empty program |
| Ast.CompleteIsRenderable | src/ast/ast.ts:276-539 | an expression with every child the parser can leave out present can be rendered without a missing-child error |
| Ast.StmtsCompleteIsRenderable | src/ast/ast.ts:42-177 | a list of complete statements can be rendered |
| Ast.StmtsRenderableAppend | src/ast/ast.ts:42-50 | a joined statement list is renderable exactly when both parts are |
| Ast.StmtsStringAppend | src/ast/ast.ts:42-50 | a program's rendering of two joined statement lists is the two renderings joined |
| Ast.ExprsRenderableAppend | src/ast/ast.ts:422-437 | a joined argument list is renderable exactly when both parts are |
| Ast.ExprsStringAppend | src/ast/ast.ts:422-437 | the rendering of two non-empty joined lists is the two renderings joined by `, ` |
| Ast.CallRendering | src/parser/__test__/parser.test.ts:540-541 | the call `add(6, 7 * 8)` as a tree renders as `add(6, (7 * 8))` |
| Ast.SingleStatementProgram | src/ast/ast.ts:42-50 | a one-statement program renders as that statement |
| Ast.RenderingShowsGrouping | src/ast/ast.ts:311-321 | `((a op b) op c)` and `(a op (b op c))` render differently when `a` does not start with a parenthesis, so the rendering shows how operators group |
| Ast.RenderingShowsPrefixScope | src/ast/ast.ts:276-321 | a prefix operator applied to the left operand renders differently from one applied to the whole infix expression |
| Ast.IfElseExtendsIf | src/ast/ast.ts:346-360 | an `if` with `else` renders as the same `if` without it followed by `else ` and the alternative; the rendering as written agrees exactly on the `if`s that have an `else` |
| Ast.IfWithoutElseThrows | src/ast/ast.ts:331-361 | an `if` without `else` renders in the corrected rendering, and the rendering as written fails on it |
| Ast.LetRendering | src/ast/__test__/ast.test.ts:4-14 | the let statement of the repository's syntax tree test renders as `let arg = fooBazBar;` |
| Parser.Precedence | src/parser/parser.ts:24-47 | each operator kind has the precedence level of the table, `[` has INDEX, everything else LOWEST, and no kind has PREFIX |
| Parser.MemberKeysAsWritten | src/parser/parser.ts:36-47 | the precedence object as written is the literal of parser.ts with each computed key `TokenType.<name>` evaluated by a lookup in the token table; `TokenType.LBracket` names no kind and evaluates to `undefined` |
| Parser.BracketAtLowestAsWritten | src/parser/parser.ts:36-47 | in the object as written the INDEX level is filed under `undefined`, and a lookup of `[` by its spelling finds nothing, giving LOWEST where the corrected table gives INDEX |
| Parser.PrecedencesAgreeAsWritten | src/parser/parser.ts:36-47 | every kind other than `[` gets the same level from the object as written as from the corrected table |
| Parser.Advance | src/parser/parser.ts:95-98 | moving on advances the cursor by one and keeps the errors |
| Parser.AddError | src/parser/parser.ts:122-132 | recording an error appends it and keeps the cursor |
| Parser.ExpectPeek | src/parser/parser.ts:108-126 | the result is true exactly when the next token has the expected kind; then the cursor moves on, and otherwise the peek error is recorded and the cursor stays |
| Parser.SkipSemicolon | src/parser/parser.ts:193-195 | an optional `;` is consumed when it is next and nothing changes otherwise |
| Parser.ParseExpression | src/parser/parser.ts:223-246 | the parse only grows the position and the errors, and yields a complete tree when it adds no error; a token without a prefix parser gives nothing and the no-prefix error |
| Parser.InfixLoop | src/parser/parser.ts:231-243 | the loop returns the left expression untouched when the next token is `;` or does not bind tighter than the current level |
| Parser.ParseOperator | src/parser/parser.ts:309-323 | an infix operator builds an infix node whose left side is the expression so far and whose operator is the current token's literal |
| Parser.ParseCall | src/parser/parser.ts:425-430 | a call node has the expression so far as its callee |
| Parser.ParseIndex | src/parser/parser.ts:438-451 | an index node has the expression so far as its collection |
| Parser.ParsePrefix | src/parser/parser.ts:64-75 | every registered prefix parser only grows the position and the errors and yields a complete tree when it adds no error |
| Parser.ParseIntegerLiteral | src/parser/parser.ts:272-286 | a literal gives an integer node exactly when it is a digit run, with the value of those digits; otherwise the could-not-parse error is recorded |
| Parser.ParsePrefixOperator | src/parser/parser.ts:292-307 | a prefix operator builds a prefix node whose operator is the current token's literal |
| Parser.ParseGrouped | src/parser/parser.ts:329-337 | a grouped expression only grows the position and errors and is complete when it adds no error; what it yields is stated by `ParserLaws.GroupedStep` |
| Parser.ParseIf | src/parser/parser.ts:339-363 | an `if` expression only grows the position and errors and is complete when it adds no error; what it yields is stated by `ParserLaws.IfStep` and `ParserLaws.IfElseStep` |
| Parser.ParseFunctionLiteral | src/parser/parser.ts:383-397 | a function literal only grows the position and errors and is complete when it adds no error; what it yields is stated by `ParserLaws.FunctionLiteralStep` |
| Parser.ParseParameters | src/parser/parser.ts:399-423 | an immediate `)` gives the empty list; otherwise the list is defined whenever no error is added; the names read are stated by `ParserLaws.TwoParameters` |
| Parser.ParameterLoop | src/parser/parser.ts:411-418 | each further `, name` extends the parameter list, which keeps the names read before |
| Parser.ParseArray | src/parser/parser.ts:432-436 | an array literal only grows the position and errors and is complete when it adds no error; its elements are stated by `ParserLaws.ArrayStep` |
| Parser.ParseExpressionList | src/parser/parser.ts:453-478 | an immediate end token gives the empty list; otherwise the list is complete whenever no error is added; its elements are stated by `ParserLaws.ListLoopStep` and `ParserLaws.TwoElements` |
| Parser.OptionToSeq | src/parser/parser.ts:453-478 | a parsed element joins the list and a missing one is dropped, so the list is complete exactly when the element is |
| Parser.ListLoop | src/parser/parser.ts:466-472 | each further `, expression` keeps the list complete when no error is added |
| Parser.ParseHash | src/parser/parser.ts:480-505 | a hash literal only grows the position and errors and is complete when it adds no error; its pairs are stated by `ParserLaws.HashStep` |
| Parser.HashLoop | src/parser/parser.ts:484-499 | each further `key : value` pair keeps the pair list complete when no error is added |
| Parser.ParseStatement | src/parser/parser.ts:155-168 | a statement only grows the position and errors, is complete when it adds no error and carries the current token; `let` gives a let statement or nothing, `return` always a return statement, and every other token an expression statement |
| Parser.ParseLet | src/parser/parser.ts:170-197 | a let statement carries the current token; without a name after `let` it gives nothing and the expected-IDENT error; without `=` after the name, nothing and the expected-ASSIGN error; otherwise it binds the name to the expression parsed after `=` and consumes an optional `;` |
| Parser.ParseReturn | src/parser/parser.ts:199-210 | a return statement is always produced, carrying the current token and the expression parsed after `return`, and an optional `;` after it is consumed |
| Parser.ParseExpressionStatement | src/parser/parser.ts:212-221 | an expression statement is always produced, carrying the current token and the expression parsed from it, and an optional `;` after it is consumed |
| Parser.ParseBlock | src/parser/parser.ts:365-381 | a block carries the current token, its statements are complete when no error is added, and it stops on `}`, EOF or ILLEGAL; its statements are stated by `ParserLaws.BlockInTurn`, `ParserLaws.EmptyBlock` and `ParserLaws.OneStatementBlock` |
| Parser.StatementLoop | src/parser/parser.ts:143-150 | the loop keeps the statements read so far and stops only on one of its stop kinds |
| Parser.BlockLoop | src/parser/parser.ts:370-378 | a block keeps the statements read so far, they are complete when no error is added, and it stops only on `}`, EOF or ILLEGAL |
| Parser.ParseProgram | src/parser/parser.ts:134-153 | parsing stops at EOF or ILLEGAL; with no errors every statement is complete; a leading ILLEGAL gives the empty program and exactly the illegal-token error, and any other first token starts the statement loop at the first token with no error |
| Parser.ExprsCompleteAppend | src/parser/parser.ts:453-478 | a joined expression list is complete exactly when both parts are |
| Parser.StmtsCompleteAppend | src/parser/parser.ts:134-153 | a joined statement list is complete exactly when both parts are |
| ParserLaws.Atom | src/parser/parser.ts:268-270 | an identifier token parses to an identifier node carrying that token |
| ParserLaws.BinaryPrecedence | src/parser/parser.ts:36-47 | every binary operator binds more loosely than a prefix operator |
| ParserLaws.AtomExpression | src/parser/parser.ts:223-246 | an identifier before `;` or a looser token parses to itself without moving the cursor |
| ParserLaws.OperatorStep | src/parser/parser.ts:231-243 | a tighter binary operator replaces the left expression with an infix node whose right side is parsed at that operator's level |
| ParserLaws.OneOperatorExpression | src/parser/parser.ts:309-323 | `a op b` parses to the infix node of `a` and `b` |
| ParserLaws.LooserSecondGroupsLeft | src/parser/__test__/parser.test.ts:460-461 | in `a op1 b op2 c` with op2 no tighter than op1, the parse is `((a op1 b) op2 c)` |
| ParserLaws.TighterSecondNestsRight | src/parser/__test__/parser.test.ts:472-473 | in `a op1 b op2 c` with op2 tighter than op1, the parse is `(a op1 (b op2 c))` |
| ParserLaws.PrefixOperatorExpression | src/parser/parser.ts:292-307 | a prefix operator's operand is parsed at PREFIX level and the infix loop continues from the prefix node |
| ParserLaws.PrefixBindsTighter | src/parser/__test__/parser.test.ts:448-449 | `-a op b` parses as `((-a) op b)` for every binary operator |
| ParserLaws.PrefixOperatorsNest | src/parser/__test__/parser.test.ts:452-453 | two prefix operators nest: `!-a` is `(!(-a))` |
| ParserLaws.EmptyCall | src/parser/parser.ts:425-430 | `f()` parses to a call of `f` with no arguments |
| ParserLaws.LetStatement | src/parser/__test__/parser.test.ts:19-66 | `let x = y` parses to a let statement binding `x` to `y`, consuming an optional `;` |
| ParserLaws.LetWithoutAssign | src/parser/parser.ts:170-197 | `let x` not followed by `=` gives no statement and the expected-ASSIGN error |
| ParserLaws.StatementDispatch | src/parser/parser.ts:155-168 | a statement starting with `let` is a let statement, one starting with `return` a return statement, and any other an expression statement |
| ParserLaws.ExpressionStatementParse | src/parser/parser.ts:212-221 | a statement that does not start with `let` or `return` is the expression statement holding the expression parsed from its first token, with an optional `;` consumed |
| ParserLaws.ReturnStatementParse | src/parser/parser.ts:199-210 | `return e` is the return statement holding the expression parsed after `return`, with an optional `;` consumed |
| ParserLaws.SingleExpressionProgram | src/parser/parser.ts:134-153 | a program of one expression followed by EOF parses without errors to that one expression statement and renders as the expression |
| ParserLaws.OneStatementProgram | src/parser/parser.ts:134-153 | a program whose first statement is followed by EOF parses without errors to exactly that statement |
| ParserLaws.LoopStep | src/parser/parser.ts:143-150 | a parsed statement is appended and the loop continues after it |
| ParserLaws.LoopReads | src/parser/parser.ts:143-150 | a statement read off every stop token is appended and the loop continues from the state after it |
| ParserLaws.LoopStop | src/parser/parser.ts:143-150 | the loop ends at once on a stop kind and returns the statements so far |
| ParserLaws.IndexExpression | src/parser/parser.ts:438-451 | with `[` at INDEX, `a[b]` parses to the index node of `a` and `b` |
| ParserLaws.BracketStopsLoopAsWritten | src/parser/parser.ts:36-47 | with the table as written, `[` never continues the infix loop at any level, so `a[b]` is never parsed as indexing |
| ParserLaws.BlockLoopAsWritten | src/parser/parser.ts:370-378 | the block loop as written stops only on `}` or EOF |
| ParserLaws.IllegalBlockNeverEndsAsWritten | src/parser/parser.ts:370-378 | at a trailing ILLEGAL token, which the lexer repeats, the block loop as written never finishes, whatever the fuel |
| ParserLaws.IllegalEndsBlock | src/parser/parser.ts:370-378 | the corrected block loop stops at an ILLEGAL token and keeps the statements read |
| ParserLaws.GroupedStep | src/parser/parser.ts:329-337 | `( e )` parses to `e` itself, past the `)`; without the `)` it gives nothing and the expected-RPAREN error |
| ParserLaws.IfStep | src/parser/parser.ts:339-363 | `if ( c ) { B }` with no `else` parses to the `if` node of `c` and `B` with no alternative |
| ParserLaws.IfElseStep | src/parser/parser.ts:339-363 | `if ( c ) { B } else { A }` parses to the `if` node of `c`, `B` and the alternative `A` |
| ParserLaws.FunctionLiteralStep | src/parser/parser.ts:383-397 | `fn ( params ) { B }` parses to the function literal of the parameters read and the block `B` |
| ParserLaws.TwoParameters | src/parser/parser.ts:399-423 | `a , b )` parses to the two names `a` and `b`, in order, ending on the `)` |
| ParserLaws.ListLoopStep | src/parser/parser.ts:466-472 | each `, e` of a list appends the expression parsed after the comma and goes on from there |
| ParserLaws.TwoElements | src/parser/parser.ts:453-478 | `e1 , e2` followed by the end token parses to the two-element list of `e1` and `e2`, past the end token |
| ParserLaws.ArrayStep | src/parser/parser.ts:432-436 | `[ e1 , e2 ]` parses to the array literal of `e1` and `e2` |
| ParserLaws.HashStep | src/parser/parser.ts:480-505 | `{ k : v }` parses to the hash literal of the one pair `k : v` |
| ParserLaws.EmptyBlock | src/parser/parser.ts:365-381 | `{ }` parses to the block with no statements, past the `}` |
| ParserLaws.OneStatementBlock | src/parser/parser.ts:365-381 | `{ s }` parses to the block of the one statement `s`, past the `}` |
| ParserLaws.ParsesInTurnTail | src/parser/parser.ts:143-150 | once the first statement is read, the remaining statements are read in turn with one unit of fuel less |
| ParserLaws.FirstInTurn | src/parser/parser.ts:143-150 | with its first statement read, the loop returns what it returns from the state after that statement, with the statement added |
| ParserLaws.StatementsInTurn | src/parser/parser.ts:143-150 | any number of statements read one after another up to a stop token are exactly the statements the loop returns, after those it already had, and the loop ends on that stop token |
| ParserLaws.BlockInTurn | src/parser/parser.ts:365-381 | a block whose statements, however many, are read in turn up to `}`, EOF or ILLEGAL holds exactly those statements, in order |
| ParserLaws.ProgramInTurn | src/parser/parser.ts:134-153 | a program whose first token is not ILLEGAL and whose statements are read in turn up to EOF or ILLEGAL is exactly those statements, in order |
| ParserExamples.MinusTimesParse | src/parser/__test__/parser.test.ts:448-449 | the tokens of `-a * b` parse to the tree of `((-a) * b)` |
| ParserExamples.MinusTimes | src/parser/__test__/parser.test.ts:448-449 | the program `-a * b` parses without errors and renders as `((-a) * b)` |
| ParserExamples.BangMinusParse | src/parser/__test__/parser.test.ts:452-453 | the tokens of `!-a` parse to the tree of `(!(-a))` |
| ParserExamples.BangMinus | src/parser/__test__/parser.test.ts:452-453 | the program `!-a` parses without errors and renders as `(!(-a))` |
| ParserExamples.PlusMinusParse | src/parser/__test__/parser.test.ts:460-461 | the tokens of `a + b - c` parse to the tree of `((a + b) - c)` |
| ParserExamples.PlusMinus | src/parser/__test__/parser.test.ts:460-461 | the program `a + b - c` parses without errors and renders as `((a + b) - c)` |
| ParserExamples.PlusSlashParse | src/parser/__test__/parser.test.ts:472-473 | the tokens of `a + b / c` parse to the tree of `(a + (b / c))` |
| ParserExamples.PlusSlash | src/parser/__test__/parser.test.ts:472-473 | the program `a + b / c` parses without errors and renders as `(a + (b / c))` |
| Object.TagsDecideVariant | src/object/object.ts:6-14 | two values have the same type tag exactly when they are of the same class |
| Object.BoolString | src/object/object.ts:64-66 | a boolean renders as `true` or `false` |
| Object.InspectIntegerRoundTrip | src/object/object.ts:32-34 | an integer's rendering reads back as the integer, after its sign for negative ones |
| Object.InspectUnwraps | src/object/object.ts:94-96 | a return value renders as the value under all its wrappers |
| Object.Unwrapped | src/object/object.ts:83-96 | unwrapping yields a value that is not a return value |
| Object.HashKeyOf | src/eval/evaluator.ts:395-409 | a value has a hash key exactly when it is an integer, boolean or string |
| Object.HashKeyInjective | src/object/__test__/object.test.ts:3-18 | two hashable values share a key exactly when they are equal, so equal strings share one and different ones do not |
| Environment.CreateNew | src/object/environment/environment.ts:11-14 | a new environment is a fresh empty frame with no outer frame, and every existing frame is kept |
| Environment.NewEnclosed | src/object/environment/environment.ts:3-9 | an enclosed environment is a fresh empty frame whose outer frame is the given one, and every existing frame is kept |
| Environment.Set | src/object/environment/environment.ts:40-42 | binding changes only the named entry of the given frame; other frames are unchanged |
| Environment.GetSetSame | src/object/environment/environment.ts:30-42 | a name reads back the value just bound to it in that frame |
| Environment.GetSetOther | src/object/environment/environment.ts:30-42 | binding one name does not change what any other name reads from any frame |
| Environment.GetDelegates | src/object/environment/environment.ts:30-38 | a name missing from a frame is looked up in its outer frame |
| Environment.NewFrameGet | src/object/environment/environment.ts:3-38 | a new enclosed frame reads what its outer frame reads; a new top-level frame reads nothing |
| Environment.GetAppend | src/object/environment/environment.ts:30-38 | adding frames does not change what an existing frame reads |
| Environment.Chain | src/object/environment/environment.ts:30-38 | the chain of outer frames starts at the frame itself and stays inside the arena |
| Environment.GetIsFirstBinding | src/object/environment/environment.ts:30-38 | lookup finds nothing exactly when no frame on the outer chain binds the name, and otherwise returns the nearest frame's binding |
| Builtins.Len | src/eval/builtins/builtins.ts:16-33 | `len` of one array or string is its length; a wrong argument count or another type gives the corresponding error |
| Builtins.First | src/eval/builtins/builtins.ts:34-53 | `first` is element 0 of an array, NULL for an empty one, and an error for a wrong count or a non-array |
| Builtins.Last | src/eval/builtins/builtins.ts:54-73 | `last` is the final element, NULL for an empty array, and an error for a wrong count or a non-array |
| Builtins.Rest | src/eval/builtins/builtins.ts:74-96 | `rest` is a fresh array of all but element 0, NULL for an empty array, and an error naming `last` otherwise |
| Builtins.Push | src/eval/builtins/builtins.ts:97-114 | `push` returns a fresh array of the elements followed by the new one, and the argument is unchanged |
| Builtins.Apply | src/eval/builtins/builtins.ts:16-121 | a builtin allocates at most one fresh array, which takes the next allocation number; `log` gives NULL and allocates nothing, and each other name runs the builtin of that name |
| Builtins.PushThenLast | src/eval/builtins/builtins.ts:54-114 | `last` of `push(a, x)` is `x` |
| Builtins.PushLenFirst | src/eval/builtins/builtins.ts:16-114 | `push` grows the length by one and keeps the first element |
| Builtins.FirstAndRest | src/eval/builtins/builtins.ts:34-96 | an array is its `first` followed by the elements of its `rest` |
| Builtins.ErrorsOnMisuse | src/eval/builtins/builtins.ts:16-114 | a wrong argument count or argument type always gives an error and allocates nothing |
| Evaluator.NativeBool | src/eval/evaluator.ts:225-229 | the boolean object carries the given truth value |
| Evaluator.Bang | src/eval/evaluator.ts:231-242 | `!v` is the boolean opposite of `v`'s truthiness |
| Evaluator.Minus | src/eval/evaluator.ts:244-251 | `-v` is the negation of an integer and the unknown-operator error for anything else |
| Evaluator.IntegerInfix | src/eval/evaluator.ts:264-294 | integer arithmetic leaves the model exactly for a `/` whose quotient is not an integer; a kept quotient times the divisor is the dividend |
| Evaluator.StringInfix | src/eval/evaluator.ts:441-455 | two strings give a string exactly for `+`, and an error for every other operator |
| Evaluator.ArrayIndex | src/eval/evaluator.ts:475-484 | an in-range index gives that element and any other index gives NULL, never an error |
| Evaluator.HashIndex | src/eval/evaluator.ts:421-439 | an unhashable index is an error; a filed key gives its value; a missing key gives NULL |
| Evaluator.ConfinedTrans | src/eval/evaluator.ts:51-164 | changes confined to one frame compose |
| Evaluator.Eval | src/eval/evaluator.ts:51-164 | evaluating an expression changes no frame but the current one, never removes a frame and never reuses an allocation number |
| Evaluator.EvalOpt | src/eval/evaluator.ts:51-164 | a missing child evaluates to nothing and changes nothing |
| Evaluator.EvalPrefix | src/eval/evaluator.ts:115-121 | a prefix expression changes no frame but the current one; its value is stated by `EvaluatorLaws.PrefixStep` |
| Evaluator.EvalInfix | src/eval/evaluator.ts:123-133 | an infix expression changes no frame but the current one; its value is stated by `EvaluatorLaws.InfixStep` and `EvaluatorLaws.InfixLeftErrorWins` |
| Evaluator.EvalIf | src/eval/evaluator.ts:346-361 | an if expression changes no frame but the current one; its value is stated by `EvaluatorLaws.IfStep` and `EvaluatorLaws.IfWithoutElseHasNoValue` |
| Evaluator.EvalCall | src/eval/evaluator.ts:147-157 | a call changes no frame of the caller but the current one; the callee's frame is fresh; its value is stated by `EvaluatorLaws.CallStep` |
| Evaluator.EvalArray | src/eval/evaluator.ts:72-79 | an array literal is an error or a fresh array of error-free elements, one per element expression that gave a value; its elements are stated by `EvaluatorLaws.ArrayInTurn` and `EvaluatorLaws.IntegerArray` |
| Evaluator.EvalIndex | src/eval/evaluator.ts:101-113 | an index expression changes no frame but the current one; its value is stated by `EvaluatorLaws.IndexStep` |
| Evaluator.EvalHash | src/eval/evaluator.ts:384-419 | a hash literal changes no frame but the current one; its value is stated by `EvaluatorLaws.HashStep` |
| Evaluator.EvalExprs | src/eval/evaluator.ts:363-382 | evaluating a list gives either the single first error or a list of error-free values that extends the values gathered before; the values themselves are stated by `EvaluatorLaws.ExprsEvaluateInTurn` and `EvaluatorLaws.ExprsStep` |
| Evaluator.EvalPairs | src/eval/evaluator.ts:384-419 | filing pairs keeps every pair's key hashable and the pairs filed before, and a failure is an error value; the pairs filed are stated by `EvaluatorLaws.PairsStep` |
| Evaluator.EvalStmt | src/eval/evaluator.ts:60-87 | a statement changes no frame but the current one; its value is stated by `EvaluatorLaws.StatementStep` and the `let` laws |
| Evaluator.EvalBlock | src/eval/evaluator.ts:187-209 | a block changes no frame but the current one; its value is stated by `EvaluatorLaws.BlockStep` and `EvaluatorLaws.BlockLoopAppend` |
| Evaluator.ApplyFunction | src/eval/evaluator.ts:486-498 | applying a function changes only frames it creates; a value that is neither a function nor a builtin gives the `not a function: <type>.` error and changes nothing; a builtin runs `Builtins.Apply` on the arguments |
| Evaluator.BindParams | src/eval/evaluator.ts:500-513 | binding parameters changes only the new frame and no frame's outer link |
| Evaluator.UnwrapReturnValue | src/eval/evaluator.ts:515-521 | a return value is replaced by what it wraps and any other result is kept |
| Evaluator.ProgramLoop | src/eval/evaluator.ts:166-185 | a program changes no frame but the global one |
| Evaluator.Interpret | src/eval/evaluator.ts:166-185 | a finished program leaves at least the global frame |
| EvaluatorLaws.DoubleBang | src/eval/__test__/eval.test.ts:171-206 | `!!v` is the truthiness of `v` as a boolean |
| EvaluatorLaws.MinusInvolution | src/eval/evaluator.ts:244-251 | negating an integer twice gives it back |
| EvaluatorLaws.InfixErrorsExactlyWhenUnsupported | src/eval/evaluator.ts:296-331 | an infix result is an error exactly when the operand classes and operator are not supported, and leaves the model only for inexact integer division |
| EvaluatorLaws.NotEqualNegatesEqual | src/eval/evaluator.ts:296-331 | `!=` is the negation of `==` for every pair of values, and both fail together |
| EvaluatorLaws.EqualsSymmetric | src/eval/evaluator.ts:296-331 | `==` is symmetric for values of the same class |
| EvaluatorLaws.EqualsReflexive | src/eval/evaluator.ts:296-331 | every value other than a string equals itself; a string compared with `==` is an unknown-operator error |
| EvaluatorLaws.OnlyNullAndFalseAreFalsy | src/eval/evaluator.ts:333-344 | a value is falsy exactly when it is NULL or FALSE, so 0 and the empty string are truthy |
| EvaluatorLaws.LessIsConverseOfGreater | src/eval/evaluator.ts:281-284 | `a < b` is `b > a` and is the boolean of the integer comparison |
| EvaluatorLaws.FirstLastAreIndexing | src/eval/builtins/builtins.ts:34-73 | `first` and `last` agree with indexing at 0 and at length minus 1 |
| EvaluatorLaws.FilePairsLastWins | src/eval/evaluator.ts:409-412 | a key is filed exactly when some pair has it, and it holds the last such pair |
| EvaluatorLaws.HashIndexLastWins | src/eval/evaluator.ts:421-439 | indexing a hash literal gives the value of the last pair with that key |
| EvaluatorLaws.UnhashableLiteralKey | src/eval/evaluator.ts:395-403 | an unhashable first key in a hash literal gives the `unusuable as hash key` error with its type tag |
| EvaluatorLaws.PrefixStep | src/eval/evaluator.ts:115-121 | a prefix expression whose operand gives a value that is not an error gives the operator applied to that value |
| EvaluatorLaws.InfixStep | src/eval/evaluator.ts:123-133 | an infix expression whose operands give values that are not errors gives the operator applied to them, the left operand evaluated first |
| EvaluatorLaws.IfStep | src/eval/evaluator.ts:346-361 | a truthy condition runs the consequence from where the condition left off, and a falsy one runs the alternative when there is one |
| EvaluatorLaws.CallStep | src/eval/evaluator.ts:147-157 | a call whose callee and arguments give values that are not errors applies the callee's value to the arguments' values |
| EvaluatorLaws.IndexStep | src/eval/evaluator.ts:101-113 | an index expression whose operands give values that are not errors indexes the left value by the index value |
| EvaluatorLaws.HashStep | src/eval/evaluator.ts:384-419 | a hash literal whose pairs are all filed is a fresh hash of the filed pairs |
| EvaluatorLaws.StatementStep | src/eval/evaluator.ts:60-70 | an expression statement gives its expression's value, and `return` wraps the value in a fresh return value |
| EvaluatorLaws.BlockStep | src/eval/evaluator.ts:187-209 | a block ends at its first statement when that gives a return value or an error, and otherwise runs the rest from where it left off |
| EvaluatorLaws.InfixLeftErrorWins | src/eval/evaluator.ts:123-133 | an error on the left of an infix expression is its result, after the right side is evaluated |
| EvaluatorLaws.IfWithoutElseHasNoValue | src/eval/evaluator.ts:346-361 | a falsy condition without an `else` gives no value and only the condition's effects |
| EvaluatorLaws.BlockLoopAppend | src/eval/evaluator.ts:187-209 | running two statement lists in turn is running them joined, stopping at the first return or error |
| EvaluatorLaws.ProgramIsUnwrappedBlock | src/eval/evaluator.ts:166-185 | a program runs like a block and then unwraps a return value |
| EvaluatorLaws.LetBindsInCurrentFrame | src/eval/evaluator.ts:81-87 | `let` binds the value in the current frame, gives no value and changes no other name |
| EvaluatorLaws.LetErrorBindsNothing | src/eval/evaluator.ts:81-87 | a `let` whose value is an error gives that error and binds nothing |
| EvaluatorLaws.IdentifierResolution | src/eval/evaluator.ts:211-223 | a name resolves to its nearest binding, else to the builtin of that name, else to the identifier-not-found error |
| EvaluatorLaws.BindParamsOther | src/eval/evaluator.ts:500-513 | binding parameters does not change any other name |
| EvaluatorLaws.BindParamsPositional | src/eval/evaluator.ts:500-513 | the i-th parameter reads the i-th argument when there is one |
| EvaluatorLaws.CallReadsArgument | src/eval/evaluator.ts:486-513 | a function whose body reads a parameter returns the argument at that position |
| EvaluatorLaws.CallReadsCapturedFrame | src/eval/evaluator.ts:486-513 | a function whose body reads a non-parameter reads it from the frame it was created in |
| EvaluatorLaws.BodyReadsName | src/eval/evaluator.ts:187-223 | a block of one identifier gives that identifier's value and changes nothing |
| EvaluatorLaws.ExprsStep | src/eval/evaluator.ts:363-382 | a list whose first expression gives a value that is not an error goes on with that value appended |
| EvaluatorLaws.ExprsEvaluateInTurn | src/eval/evaluator.ts:363-382 | a list of any length whose expressions evaluate one after another to values that are not errors gives those values in order, after the values gathered before, and the state the last one left |
| EvaluatorLaws.ArrayInTurn | src/eval/evaluator.ts:72-79 | an array literal whose elements evaluate one after another to values that are not errors is a fresh array of those values, in order |
| EvaluatorLaws.ExprsErrorStops | src/eval/evaluator.ts:363-382 | a list whose first expression gives an error evaluates to exactly that error and stops |
| EvaluatorLaws.IntegerLiteralsEvaluate | src/eval/evaluator.ts:363-382 | a list of integer literals evaluates to their integers in order and changes nothing |
| EvaluatorLaws.IntegerArray | src/eval/evaluator.ts:72-79 | an array literal of integer literals evaluates to a fresh array of those integers, in order |
| EvaluatorLaws.PairsStep | src/eval/evaluator.ts:384-419 | a pair whose key gives a hashable value and whose value gives a value that is not an error is filed, and filing goes on from there |
| EvaluatorExamples.Compare | src/eval/__test__/eval.test.ts:82-100 | `10 > 1` evaluates to TRUE |
| EvaluatorExamples.InnerIf | src/eval/evaluator.ts:346-361 | `if (10 > 1) { return 10; }` gives a fresh return value wrapping 10 |
| EvaluatorExamples.NestedReturn | src/eval/__test__/eval.test.ts:275-278 | the nested-return program gives 10, so an inner `return` ends the outer block too |
| EvaluatorExamples.ErrorEndsProgram | src/eval/__test__/eval.test.ts:298-301 | `5 + true; 5;` gives the type-mismatch error and does not reach `5` |
| EvaluatorFuel.EvalMore | src/eval/evaluator.ts:51-164 | an evaluation that finishes with some fuel finishes with the same value and state given more |
| EvaluatorFuel.BlockMore | src/eval/evaluator.ts:187-209 | a block that finishes with some fuel finishes the same way with more |
| EvaluatorFuel.ApplyMore | src/eval/evaluator.ts:486-498 | a call that finishes with some fuel finishes the same way with more |
| EvaluatorFuel.InterpretMore | src/eval/evaluator.ts:166-185 | a program that finishes with some fuel gives the same result with more |

## Left out

- The REPL (`src/repl/repl.ts`): reading lines and printing results is I/O.
- Recursion depth: the parser and the evaluator take a fuel argument and stop
  with `OutOfFuel` when it runs out. A parse or evaluation that would need more
  depth than the fuel, or that never ends in the source, is not described past
  the bound. `EvaluatorFuel` shows that the bound never changes a finished
  result.
- Floating point: integers are JavaScript numbers in the source.
  - `Integer` holds an unbounded `int`, so precision loss above 2^53 is not
    modelled.
  - An integer `/` whose quotient is not an integer gives a fraction in the
    source. The model stops with the `NotAnInteger` outcome there.
- `Number()` on a literal is modelled as reading the decimal digit run.
  Parser tokens are produced by the lexer, which only emits digit runs as INT.
- String lengths are counted in characters, not UTF-16 code units.
- The string hash: the source hashes string content; the model uses the
  content itself as the key, so hash collisions are not modelled.
- `log` prints its arguments; only its NULL result is modelled.
- The missing-`]` case of `parseIndexExpression` throws an exception in the
  source; the model stops with the `Thrown` outcome.
- Array, hash and builtin values have no `inspect()` in the source files
  modelled here; `Object.Inspect` gives None for them.
- The `Hash` and `Array` classes, the `BuiltIn` wrapper and `hashKey()` are
  used by the evaluator but are not part of this model's source files. They
  are modelled from their uses in `src/eval/evaluator.ts` and
  `src/eval/builtins/builtins.ts`.
- Builtins are looked up in a plain object, so a name inherited from
  `Object.prototype` could resolve to a non-builtin value. The model knows only
  the six builtin names.
- Branches the source guards against but that cannot arise from parsed trees
  are left out (an `Eval` of a node type the parser never builds).
- Environment.Get: it has no contract of its own; what it returns is stated by
  `Environment.GetIsFirstBinding` and `Environment.GetDelegates`.
- Object.Inspect: it has no contract of its own; what it returns is stated by
  `Object.InspectIntegerRoundTrip` and `Object.InspectUnwraps`.
- Ast.ExprString: the rendering has no contract of its own; what it promises is
  stated by `Ast.RenderingShowsGrouping`, `Ast.RenderingShowsPrefixScope`,
  `Ast.ExprsStringAppend` and the rendering examples.
- Ast.StmtString: stated through `Ast.StmtsStringAppend`,
  `Ast.SingleStatementProgram` and `Ast.LetRendering`.
  - The renderings of `{}` hashes, `return` and function literals are modelled
    but have no law of their own.
- Evaluator.IsTruthy: stated by `EvaluatorLaws.OnlyNullAndFalseAreFalsy`.
- Evaluator.PrefixOp: stated by `Evaluator.Bang`, `Evaluator.Minus`,
  `EvaluatorLaws.DoubleBang` and `EvaluatorLaws.MinusInvolution`.
- Evaluator.InfixOp: stated by `EvaluatorLaws.InfixErrorsExactlyWhenUnsupported`
  and the equality and comparison laws.
- Evaluator.IndexOp: stated by `Evaluator.ArrayIndex`, `Evaluator.HashIndex`
  and `EvaluatorLaws.FirstLastAreIndexing`.
- Evaluator.EvalIdentifier: stated by `EvaluatorLaws.IdentifierResolution`.
- Evaluator.FilePairs: stated by `EvaluatorLaws.FilePairsLastWins`.
- Evaluator.Eval: its contract is the frame condition only; values are stated
  per construct by the laws and examples.
- EvalPrefix: its contract is the frame condition only; its value is stated by
  `EvaluatorLaws.PrefixStep`, with the operators' results in `Evaluator.Bang`
  and `Evaluator.Minus`.
- EvalInfix: its contract is the frame condition only; its value is stated by
  `EvaluatorLaws.InfixStep`, `EvaluatorLaws.InfixLeftErrorWins` and
  `EvaluatorLaws.InfixErrorsExactlyWhenUnsupported`.
- EvalIf: its contract is the frame condition only; its value is stated by
  `EvaluatorLaws.IfStep` and `EvaluatorLaws.IfWithoutElseHasNoValue`.
- EvalCall: its contract is the frame condition only; its value is stated by
  `EvaluatorLaws.CallStep`, `EvaluatorLaws.CallReadsArgument` and
  `EvaluatorLaws.CallReadsCapturedFrame`.
- EvalIndex: its contract is the frame condition only; its value is stated by
  `EvaluatorLaws.IndexStep`, `Evaluator.ArrayIndex` and `Evaluator.HashIndex`.
- EvalHash: its contract is the frame condition only; its value is stated by
  `EvaluatorLaws.HashStep`, `EvaluatorLaws.PairsStep`,
  `EvaluatorLaws.HashIndexLastWins` and `EvaluatorLaws.UnhashableLiteralKey`.
- EvalStmt: its contract is the frame condition only; its value is stated by
  `EvaluatorLaws.StatementStep`, `EvaluatorLaws.LetBindsInCurrentFrame` and
  `EvaluatorLaws.LetErrorBindsNothing`.
- EvalBlock: its contract is the frame condition only; its value is stated by
  `EvaluatorLaws.BlockStep`, `EvaluatorLaws.BlockLoopAppend` and
  `EvaluatorLaws.BodyReadsName`.
- EvalArray: its contract gives the result's shape; its elements are stated by
  `EvaluatorLaws.ArrayInTurn` for elements that evaluate without error, and by
  `EvaluatorLaws.IntegerArray` for integer literals.
- EvalExprs: its contract gives the result's shape and that it extends the
  values gathered before; the values are stated by
  `EvaluatorLaws.ExprsEvaluateInTurn`, `EvaluatorLaws.ExprsStep`,
  `EvaluatorLaws.ExprsErrorStops` and `EvaluatorLaws.IntegerLiteralsEvaluate`.
- EvalPairs: its contract gives the result's shape; the pairs filed are stated
  by `EvaluatorLaws.PairsStep` and `EvaluatorLaws.FilePairsLastWins`.
- ParseGrouped: its contract gives the result's shape; what `( e )` yields is
  stated by `ParserLaws.GroupedStep`, from the inner expression's parse.
- ParseIf: its contract gives the result's shape; the condition, consequence
  and alternative are stated by `ParserLaws.IfStep` and `ParserLaws.IfElseStep`,
  from their parses.
- ParseFunctionLiteral: its contract gives the result's shape; the parameters
  and body are stated by `ParserLaws.FunctionLiteralStep`, from their parses.
- ParseParameters: its contract gives the empty list and the result's shape;
  the names read are stated by `Parser.ParameterLoop` and, for two names, by
  `ParserLaws.TwoParameters`.
- ParseArray: its contract gives the result's shape; the elements are stated by
  `ParserLaws.ArrayStep` for two elements.
- ParseExpressionList: its contract gives the empty list and the result's
  shape; the elements are stated by `ParserLaws.ListLoopStep`, one comma at a
  time, and by `ParserLaws.TwoElements`.
- ParseHash: its contract gives the result's shape; the pairs are stated by
  `ParserLaws.HashStep` for one pair.
- ParseBlock: its contract gives the result's shape and where it stops; the
  statements are stated by `ParserLaws.BlockInTurn` for any number of them,
  from their parses, and by `ParserLaws.EmptyBlock` and
  `ParserLaws.OneStatementBlock`.

## Findings

| source | as written | input that shows it | evidently intended | confidence | as-written member | corrected member |
|---|---|---|---|---|---|---|
| src/lexer/lexer.ts:44-89 | every punctuation, INT, EOF and ILLEGAL token is created with the kind's spelling (`TokenType.Assign`, which is `=`), but `createToken` looks its first argument up by key, so the token's kind is undefined; EOF loses its kind too (`Lexer.EofLosesKind`), so a parsing loop that waits for EOF never sees it | `=` | a token of kind ASSIGN, as the lexer test expects | not executed | Lexer.NextTokenAsWrittenLosesKinds | Lexer.NextToken |
| src/token/token.ts:69-75 | the keyword lookup indexes a plain object, so a word naming a member inherited from `Object.prototype` finds that member, which is truthy and is returned in place of a key; the token created from it has no kind | `constructor` | an IDENT token | not executed | Token.LookupIdentityConstructor | Token.LookupIdentity |
| src/parser/parser.ts:36-47 | the token table has no member `LBracket`, so the computed key `[TokenType.LBracket]` of the precedence object is the string `undefined`; a `[` token's type finds no entry, `[` has LOWEST precedence and the infix loop never calls the index parser | `a[1]` | `[` at INDEX precedence, giving an index expression | not executed | ParserLaws.BracketStopsLoopAsWritten | ParserLaws.IndexExpression |
| src/ast/ast.ts:331-361 | the `if` rendering tests `alternative !== null`, but a missing alternative is `undefined`, so rendering an `if` without `else` calls `String()` on undefined | `if (x) { y }` | `ifx y`, with no else part | not executed | Ast.IfWithoutElseThrows | Ast.IfElseExtendsIf |
| src/parser/parser.ts:365-381 | the block loop stops only on `}` or EOF, and the lexer returns the same ILLEGAL token forever, so a block reaching an ILLEGAL token never ends | `{ x ?` | the block ends at the ILLEGAL token, as a program does | not executed | ParserLaws.IllegalBlockNeverEndsAsWritten | ParserLaws.IllegalEndsBlock |
