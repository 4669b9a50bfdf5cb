# Monkey interpreter core, modelled in Dafny

This project models the core of the Monkey language implementation in Go
(kitasuke/monkey-go). It covers these parts:

- **token**: the token types, and the keyword table that `LookupIdentifierType`
  consults.
- **lexer**: the `Lexer` object with its `input`, `position`, `nextPosition` and
  `ch` fields. `NextToken`, `readChar`, `readIdentifier`, `readNumber`,
  `skipWhitespace` and `peekChar` update it in place. The pure function
  `Lexer.Scan` says which token and which next position each call produces.
- **parser**: the Pratt parser. `Grammar` has one pure function per Go parse
  function, over a token sequence and a cursor. The cursor is the position of
  `currentToken` plus the error list. `Parser.Parser` is the `Parser` object with
  its fields. Each of its methods is proved to compute exactly what the
  matching `Grammar` function computes. `GrammarFacts` proves what the grammar
  promises:
  - the precedence table;
  - that an expression ends at an operator binding no tighter than its context;
  - left associativity;
  - tighter operators and prefix operators grouping first;
  - the two outcomes of an expression list;
  - how integer literals are read;
  - which statements the program and block loops keep.

  The parser takes a statement filter. `AsWritten` is the Go code's
  `stmt != nil` test, which keeps a failed `let` statement (see Findings).
  `Intended` drops it. `FilterFacts` proves that the filter changes nothing
  else: both read the same tokens and report the same errors.
- **object and evaluator**: the object kinds and their `Inspect` text. Also
  `isTruthy`, and the prefix and infix operators with Go's int64 wrap-around
  and truncating division. `Eval` covers the node kinds the Go `Eval` handles.
  A Go nil result (a node `Eval` does not handle) is `None`. A Go runtime panic
  (calling a method on nil, dividing by zero) is the `Panic` outcome.
- **builtins**: `len`, `puts`, `first`, `last`, `rest` and `push` from the
  `object.Builtins` table, and `GetBuiltinByName`. Also the evaluator's own
  `len`, which accepts only strings.
- **code**: the bytecode helpers that `code/code_test.go` exercises:
  - `Lookup`, `Make` and `ReadOperands`;
  - `Instructions.String`, which is the method `Code.InstructionsString`;
  - for the four opcodes those tests use: `OpConstant` (one 2-byte operand),
    `OpAdd` (none), `OpGetLocal` (one 1-byte operand) and `OpClosure` (a
    2-byte and a 1-byte operand).
  
  `code/code.go` is not part of this model: its behaviour is taken from the
  tests and from the documented meaning of the operations. The opcode byte
  values are chosen to be distinct, because nothing in the tests fixes them.
- **symbol table**: the `SymbolTable` class. It has `Define`, `DefineBuiltin`,
  `Resolve` and the enclosed-table constructor. `compiler/symbol_table.go` is
  not part of this model. Its behaviour is the one that
  `compiler/symbol_table_test.go` fixes.
- **vm/frame**: the `Frame` class, with `NewFrame` and `Instructions`.

Sizes and widths are explicit where Go's matter:

- Integers are `int64`, and overflow wraps through `Int64.Wrap64`.
- Integer division truncates toward zero (`Int64.TruncDiv`).
- Operand bytes are big-endian.
- Source text is a sequence of 8-bit characters. A one-byte token's literal
  is Go's `string(ch)`, the UTF-8 encoding of that byte's code point, so a
  byte from 0x80 on becomes two bytes.

## Model

| member | source | states |
|---|---|---|
| Token.TypeNamesDistinct | token/token.go:10-52 | no two token types share a string value, so a token type is determined by its name |
| Token.TypeName | token/token.go:10-52 | the string value of each token type (distinct per type, by `Token.TypeNamesDistinct`) |
| Token.LookupIdentifierType | token/token.go:64-69 | a keyword yields its token type; any other word yields IDENTIFIER |
| Token.LookupIdentifierTypeRange | token/token.go:54-69 | the result is IDENTIFIER or a keyword type, and it is a keyword type exactly when the word is in the keyword table |
| Token.KeywordExamples | token/token.go:54-62 | each of the seven keywords maps to its own token type |
| Token.CaseSensitiveKeywords | token/token.go:64-69 | keyword lookup is exact: "Let" is an identifier |
| Lexer.RunEnd | lexer/lexer.go:99-127 | the end of a run of letters, digits or whitespace: every byte before it is in the class, and the byte at it (or NUL past the end) is not |
| Lexer.ScanToken | lexer/lexer.go:25-86 | the token that one `NextToken` call reads after the whitespace, and the position after it (its properties are the lemmas below) |
| Lexer.Scan | lexer/lexer.go:20-87 | one `NextToken` call: skip the whitespace run, then `Lexer.ScanToken` |
| Bytes.RuneOfByte | lexer/lexer.go:89-91 | `string(ch)` of a byte: one byte below 0x80; otherwise a lead byte 0xC2 or 0xC3 and a continuation byte. Either way the encoding decodes back to the byte's value |
| Lexer.NewToken | lexer/lexer.go:89-91 | a one-byte token's literal encodes that byte's code point in UTF-8; for ASCII it is the byte itself |
| Lexer.ScanProgress | lexer/lexer.go:20-87 | each call skips whitespace and then moves strictly forward. It yields EOF exactly at a NUL byte or at the end of the input. The literal of any other token except ILLEGAL is the bytes it consumed; an ILLEGAL token consumes one byte and spells it in UTF-8 |
| Lexer.ScanTokenProgress | lexer/lexer.go:25-86 | the same, for the token that starts after the whitespace |
| Lexer.SkipsWhitespace | lexer/lexer.go:23 | leading whitespace does not change the token that is read |
| Lexer.EofForever | lexer/lexer.go:68-70 | at the end of the input the lexer yields EOF, and it yields EOF again on every later call |
| Lexer.TwoByteOperators | lexer/lexer.go:26-47 | `==` and `!=` are read only when the next byte is `=`; otherwise `=` and `!` are one-byte tokens |
| Lexer.WordsAreMaximal | lexer/lexer.go:72-75 | an identifier or keyword is the longest run of letters, and its type is the keyword lookup of that run |
| Lexer.NumbersAreMaximal | lexer/lexer.go:76-79 | an integer token is the longest run of digits |
| Lexer.IllegalBytes | lexer/lexer.go:80-82 | a byte that starts no token becomes an ILLEGAL token and the lexer moves one byte on. The literal is the byte itself for ASCII, and two bytes from 0x80 on |
| Lexer.BracketsAreIllegal | lexer/lexer.go:25-82 | `[` and `]` have no case in this lexer, so they are ILLEGAL |
| Lexer.Lex | lexer/lexer_test.go:110-122 | repeated NextToken calls up to EOF yield the scanned stream. The stream ends with exactly one EOF |
| Lexer.LexExample | lexer/lexer_test.go:10-11 | `let five = 5;` lexes to LET, IDENTIFIER five, ASSIGN, INT 5, SEMICOLON, EOF |
| Lexer.Lexer.constructor | lexer/lexer.go:14-18 | a new lexer is positioned on the first byte, or on NUL for empty input |
| Lexer.Lexer.PeekChar | lexer/lexer.go:129-135 | the byte after the current one, or NUL past the end |
| Lexer.Lexer.ReadChar | lexer/lexer.go:93-97 | advances one byte; the current byte becomes NUL past the end |
| Lexer.Lexer.SkipWhitespace | lexer/lexer.go:123-127 | stops at the end of the whitespace run |
| Lexer.Lexer.ReadIdentifier | lexer/lexer.go:99-105 | returns the letter run and stops at its end |
| Lexer.Lexer.ReadNumber | lexer/lexer.go:107-113 | returns the digit run and stops at its end |
| Lexer.Lexer.NextToken | lexer/lexer.go:20-87 | the token and new position are those of `Lexer.Scan` |
| Lexer.Lexer.ReadToken | lexer/lexer.go:25-86 | the token after whitespace and its new position are those of `Lexer.ScanToken` |
| Grammar.Precedence | parser/parser.go:24-35 | every token has a precedence between LOWEST and INDEX. It is above LOWEST exactly for the tokens that have an infix parse function |
| Grammar.ExpectPeek | parser/parser.go:417-425 | succeeds exactly when the peek token has the expected type. It then advances; otherwise it stays and adds the peek error |
| Grammar.ParseIntLiteral | parser/parser.go:199-211 | a literal is accepted only if it is all digits; without a leading 0 its value is its decimal value |
| Grammar.SkipSemicolon | parser/parser.go:137-139 | an optional trailing semicolon is consumed |
| Grammar.ProgramLoop | parser/parser.go:92-98 | the statement loop finishes on EOF, never moving back and only appending errors |
| Grammar.BlockLoop | parser/parser.go:283-289 | the block loop finishes on `}` or EOF, never moving back and only appending errors |
| Grammar.ParseProgram | parser/parser.go:88-101 | the program of all statements the loop keeps, and the cursor at EOF. |
| Grammar.ParseStatement | parser/parser.go:109-118 | dispatches on LET, RETURN or an expression statement. Its ensures: the cursor never moves back and errors are only appended. |
| Grammar.ParseLetStatement | parser/parser.go:120-141 | `let <name> = <value>`, or the failed statement at the first failed expectation. Its ensures: the cursor never moves back and errors are only appended. |
| Grammar.ParseReturnStatement | parser/parser.go:143-155 | `return <value>` with an optional `;`. Its ensures: the cursor never moves back and errors are only appended. |
| Grammar.ParseExpressionStatement | parser/parser.go:157-167 | an expression with an optional `;`. Its ensures: the cursor never moves back and errors are only appended. |
| Grammar.ParseBlockStatement | parser/parser.go:277-292 | the statements after `{` up to `}` or EOF. Its ensures: the cursor never moves back and errors are only appended. |
| Grammar.ParseExpression | parser/parser.go:171-191 | no expression and the no-prefix error, or the prefix result run through the infix loop. Its ensures: the cursor never moves back and errors are only appended. |
| Grammar.InfixLoop | parser/parser.go:180-188 | applies infix parse functions while the peek token binds tighter than the context and is not `;`. Its ensures: the cursor never moves back and errors are only appended. |
| Grammar.ParsePrefix | parser/parser.go:172-178 | the prefix parse function registered for the current token type. Its ensures: the cursor never moves back and errors are only appended. |
| Grammar.ParseIntegerLiteral | parser/parser.go:199-211 | an integer node or the parse error, without moving. Its ensures: the cursor never moves back and errors are only appended. |
| Grammar.ParsePrefixExpression | parser/parser.go:213-224 | the operand parsed at PREFIX precedence. Its ensures: the cursor never moves back and errors are only appended. |
| Grammar.ParseGroupedExpression | parser/parser.go:230-240 | the inner expression, kept only when `)` follows. Its ensures: the cursor never moves back and errors are only appended. |
| Grammar.ParseIfExpression | parser/parser.go:242-275 | no expression when `(` is missing, otherwise the condition and branches. Its ensures: the cursor never moves back and errors are only appended. |
| Grammar.IfCondition | parser/parser.go:249-259 | the condition, then `)` and `{` expected in turn. Its ensures: the cursor never moves back and errors are only appended. |
| Grammar.IfBranches | parser/parser.go:261-274 | the consequence block, and an alternative block after `else {`. Its ensures: the cursor never moves back and errors are only appended. |
| Grammar.ParseFunctionLiteral | parser/parser.go:294-310 | `fn ( <parameters> ) { <body> }`, or none at the first missing token. Its ensures: the cursor never moves back and errors are only appended. |
| Grammar.ParseFunctionParameters | parser/parser.go:312-338 | no parameters when `)` follows at once; otherwise the comma loop. Its ensures: the cursor never moves back and errors are only appended. |
| Grammar.ParameterLoop | parser/parser.go:326-337 | each comma takes the next token as a parameter; a missing `)` gives none. Its ensures: the cursor never moves back and errors are only appended. |
| Grammar.ParseArrayLiteral | parser/parser.go:344-350 | the elements up to `]`. Its ensures: the cursor never moves back and errors are only appended. |
| Grammar.ParseExpressionList | parser/parser.go:352-374 | an empty list when the closer follows at once; otherwise the first expression and the comma loop. Its ensures: the cursor never moves back and errors are only appended. |
| Grammar.ListLoop | parser/parser.go:363-373 | each comma adds one expression; a missing closer gives none and the peek error. Its ensures: the cursor never moves back and errors are only appended. |
| Grammar.ParseInfix | parser/parser.go:180-187 | dispatches `(` to calls, `[` to indexing and the rest to binary operators. Its ensures: the cursor never moves back and errors are only appended. |
| Grammar.ParseInfixExpression | parser/parser.go:391-402 | the right operand parsed at the operator's own precedence. Its ensures: the cursor never moves back and errors are only appended. |
| Grammar.ParseCallExpression | parser/parser.go:404-408 | the arguments up to `)`. Its ensures: the cursor never moves back and errors are only appended. |
| Grammar.ParseIndexExpression | parser/parser.go:376-387 | the index expression, kept only when `]` follows. Its ensures: the cursor never moves back and errors are only appended. |
| Grammar.ExpressionWithoutPrefix | parser/parser.go:171-176 | a token without a prefix parse function yields no expression and records the no-prefix error |
| Grammar.ExpressionWithPrefix | parser/parser.go:177-191 | otherwise the prefix result enters the infix loop |
| Grammar.ListEmpty | parser/parser.go:352-360 | an immediately closed list is empty, and the closer is consumed |
| Parser.Parser.Here | parser/parser.go:41-50 | the parser state as a grammar cursor, whose current and peek tokens are `currentToken` and `peekToken` |
| Parser.Parser.constructor | parser/parser.go:53-86 | a new parser starts on the first token with no errors |
| Parser.Parser.NextToken | parser/parser.go:412-415 | moves the cursor one token forward; the old peek token becomes current |
| Parser.Parser.SetNextTokenIf | parser/parser.go:417-425 | does what `Grammar.ExpectPeek` says: advance on a match, record the peek error otherwise |
| Parser.Parser.SkipSemicolon | parser/parser.go:137-139 | consumes an optional semicolon, as `Grammar.SkipSemicolon` says |
| Parser.Parser.PeekError | parser/parser.go:455-458 | appends the peek error and changes nothing else |
| Parser.Parser.NoPrefixParseFnError | parser/parser.go:460-463 | appends the no-prefix error and changes nothing else |
| Parser.Parser.PeekPrecedence | parser/parser.go:437-443 | above LOWEST exactly when the peek token has an infix parse function |
| Parser.Parser.CurrentPrecedence | parser/parser.go:445-451 | above LOWEST exactly when the current token has an infix parse function |
| Parser.Parser.ParseProgram | parser/parser.go:88-101 | the statements and the final state are those of `Grammar.ProgramLoop` under the parser's filter |
| Parser.Parser.ParseStatement | parser/parser.go:109-118 | the statement and the state are those of `Grammar.ParseStatement` |
| Parser.Parser.ParseLetStatement | parser/parser.go:120-141 | a let statement, or the missing statement after a failed expectation, as in `Grammar.ParseLetStatement` |
| Parser.Parser.ParseReturnStatement | parser/parser.go:143-155 | as `Grammar.ParseReturnStatement` |
| Parser.Parser.ParseExpressionStatement | parser/parser.go:157-167 | as `Grammar.ParseExpressionStatement` |
| Parser.Parser.ParseBlockStatement | parser/parser.go:277-292 | as `Grammar.ParseBlockStatement` under the parser's filter |
| Parser.Parser.ParseExpression | parser/parser.go:171-191 | the expression and the state are those of the Pratt function `Grammar.ParseExpression` |
| Parser.Parser.ParseInfixLoop | parser/parser.go:180-188 | the operator loop computes `Grammar.InfixLoop` |
| Parser.Parser.ParsePrefix | parser/parser.go:172-178 | dispatches on the current token as `Grammar.ParsePrefix` does |
| Parser.Parser.ParseIdentifier | parser/parser.go:195-197 | an identifier node, without moving |
| Parser.Parser.ParseIntegerLiteral | parser/parser.go:199-211 | an integer node, or no node plus the parse error, as `Grammar.ParseIntegerLiteral` says |
| Parser.Parser.ParsePrefixExpression | parser/parser.go:213-224 | as `Grammar.ParsePrefixExpression` |
| Parser.Parser.ParseBoolean | parser/parser.go:226-228 | a boolean node, without moving |
| Parser.Parser.ParseGroupedExpression | parser/parser.go:230-240 | as `Grammar.ParseGroupedExpression` |
| Parser.Parser.ParseIfExpression | parser/parser.go:242-275 | as `Grammar.ParseIfExpression` |
| Parser.Parser.ParseFunctionLiteral | parser/parser.go:294-310 | as `Grammar.ParseFunctionLiteral` |
| Parser.Parser.ParseFunctionParameters | parser/parser.go:312-338 | as `Grammar.ParseFunctionParameters` |
| Parser.Parser.ParseStringLiteral | parser/parser.go:340-342 | a string node, without moving |
| Parser.Parser.ParseArrayLiteral | parser/parser.go:344-350 | as `Grammar.ParseArrayLiteral` |
| Parser.Parser.ParseExpressionList | parser/parser.go:352-374 | as `Grammar.ParseExpressionList` |
| Parser.Parser.ParseListLoop | parser/parser.go:363-373 | the comma loop and the closing check compute `Grammar.ListLoop` |
| Parser.Parser.ParseInfix | parser/parser.go:180-187 | dispatches on the operator as `Grammar.ParseInfix` does |
| Parser.Parser.ParseIndexExpression | parser/parser.go:376-387 | as `Grammar.ParseIndexExpression` |
| Parser.Parser.ParseInfixExpression | parser/parser.go:391-402 | as `Grammar.ParseInfixExpression` |
| Parser.Parser.ParseCallExpression | parser/parser.go:404-408 | as `Grammar.ParseCallExpression` |
| Parser.Parse | parser/parser.go:53-101 | a new parser's `ParseProgram` returns the program and errors of `Grammar.ParseProgram` under the given filter; `AsWritten` is the Go code |
| GrammarFacts.PrecedenceTable | parser/parser.go:12-35 | LOWEST < EQUALS < LESSGREATER < SUM < PRODUCT < PREFIX < CALL < INDEX, and each operator has its level. `;` and EOF are LOWEST |
| GrammarFacts.InfixLoopStops | parser/parser.go:180-188 | the infix loop ends only before `;` or an operator that binds no tighter than the context |
| GrammarFacts.ExpressionStops | parser/parser.go:171-191 | the same for a whole expression that has a prefix parse function |
| GrammarFacts.SingleName | parser/parser.go:171-197 | an identifier followed by a weaker token parses as that identifier alone |
| GrammarFacts.BinaryStep | parser/parser.go:391-402 | an infix expression takes its right operand at its operator's precedence |
| GrammarFacts.OperatorRound | parser/parser.go:180-188 | one round of the loop wraps the left expression in the next tighter operator |
| GrammarFacts.NameOperand | parser/parser.go:180-188 | a round whose right operand is a single identifier |
| GrammarFacts.LeftAssociative | parser/parser.go:180-188 | `a op b op c` with equal precedences groups as `(a op b) op c` |
| GrammarFacts.TighterBindsFirst | parser/parser.go:180-188 | `a op1 b op2 c` with op2 tighter groups as `a op1 (b op2 c)` |
| GrammarFacts.OneOperator | parser/parser.go:180-188 | an identifier with one operator whose right side ends the expression |
| GrammarFacts.RightOperandTakesTighter | parser/parser.go:391-402 | `a op b` followed by a weaker token is one infix node |
| GrammarFacts.PrefixBindsTighter | parser/parser.go:213-224 | `-a op b` and `!a op b` group as `(-a) op b` for every binary operator |
| GrammarFacts.PrefixOfName | parser/parser.go:213-224 | a prefix operator applies to the identifier that follows it |
| GrammarFacts.ListLoopOutcome | parser/parser.go:363-373 | the list loop either ends on the closer, keeping the elements so far, or yields an empty list with the closer's peek error last |
| GrammarFacts.ExpressionListOutcome | parser/parser.go:352-374 | an immediately closed list is empty; any other list is non-empty and ends on the closer, or is empty with the error |
| GrammarFacts.ProgramLoopKeeps | parser/parser.go:92-98 | the statement loop ends on EOF and appends exactly the statements it parses that the filter keeps, in order |
| GrammarFacts.BlockLoopKeeps | parser/parser.go:283-289 | the block loop appends exactly the statements it parses that the filter keeps, in order |
| GrammarFacts.KeptDropsOnlyFailedLets | parser/parser.go:92-98 | as written every statement is kept; the intended filter drops the failed let statements and nothing else |
| GrammarFacts.KeptStep | parser/parser.go:92-98 | one loop round keeps the statement exactly when the filter does |
| FilterFacts.ProgramSameNext | parser/parser.go:88-101 | both filters end at the same token with the same errors, and parse equally many top-level statements with failed lets at the same places |
| FilterFacts.RunSameShape | parser/parser.go:92-98 | a statement loop parses equally many statements under both filters, failed lets at the same places |
| FilterFacts.ProgramLoopSameNext | parser/parser.go:92-98 | the program loop's final cursor does not depend on the filter |
| FilterFacts.StatementSameNext | parser/parser.go:109-118 | a statement's cursor, and whether it is a failed let, do not depend on the filter |
| FilterFacts.LetSameNext | parser/parser.go:120-141 | the same for a let statement |
| FilterFacts.BlockSameNext | parser/parser.go:277-292 | a block's final cursor does not depend on the filter |
| FilterFacts.BlockLoopSameNext | parser/parser.go:283-289 | the block loop's final cursor does not depend on the filter |
| FilterFacts.ExpressionSameNext | parser/parser.go:171-191 | an expression's final cursor does not depend on the filter |
| FilterFacts.InfixLoopSameNext | parser/parser.go:180-188 | the same for the infix loop |
| FilterFacts.PrefixSameNext | parser/parser.go:172-178 | the same for a prefix parse |
| FilterFacts.IfSameNext | parser/parser.go:242-275 | the same for an if expression |
| FilterFacts.IfConditionSameNext | parser/parser.go:249-259 | the same from the condition on |
| FilterFacts.IfBranchesSameNext | parser/parser.go:261-274 | the same for the branches |
| FilterFacts.FunctionLiteralSameNext | parser/parser.go:294-310 | the same for a function literal |
| FilterFacts.ExpressionListSameNext | parser/parser.go:352-374 | the same for an expression list |
| FilterFacts.ListLoopSameNext | parser/parser.go:363-373 | the same for the list loop |
| FilterFacts.InfixSameNext | parser/parser.go:180-187 | the same for an infix parse |
| GrammarFacts.ProgramHasNoFailedLets | parser/parser.go:88-101 | a parsed program ends on EOF and holds no failed let statement |
| GrammarFacts.BlockHasNoFailedLets | parser/parser.go:277-292 | a parsed block holds no failed let statement |
| GrammarFacts.FailedLetKeptAsWritten | parser/parser.go:92-98 | for `let 5`, the loop as written keeps the failed let next to `5`; the corrected loop keeps only `5` |
| GrammarFacts.LetWithoutName | parser/parser.go:120-125 | `let` followed by no identifier gives the missing statement and the identifier peek error |
| GrammarFacts.LetThenStatement | parser/parser.go:92-98 | what the loop keeps after a failed let, as written and corrected |
| GrammarFacts.FiveStatement | parser/parser.go:157-167 | `5` before EOF is one expression statement |
| GrammarFacts.IntLiteralRoundTrip | parser/parser.go:199-211 | the decimal text of any int64 value in range reads back as that value |
| GrammarFacts.IntLiteralOutOfRange | parser/parser.go:199-206 | the decimal text of a value beyond int64 is rejected |
| GrammarFacts.IntLiteralEdges | parser/parser.go:199-206 | a leading 0 reads octal, `08` is rejected, and the empty literal is rejected |
| Objects.TypeOf | object/object.go:7-43 | each object kind has its own type tag |
| Objects.TypeNamesDistinct | object/object.go:7-12 | the type names identify the types |
| Objects.Inspect | object/object.go:24-43 | the `Inspect` text of integers, booleans, null and return values (its properties are the lemmas below) |
| Objects.InspectInteger | object/object.go:24 | an integer's text is its decimal digits, with `-` before a negative value |
| Objects.InspectDistinguishesKinds | object/object.go:19-43 | equal texts mean equal kinds, and boolean texts tell true from false |
| Objects.InspectUnwraps | object/object.go:43 | a return value is shown as the value it wraps |
| Objects.Unwrapped | object/object.go:38-43 | unwrapping return values ends on a non-return value |
| Decimal.NatToStringRoundTrip | object/object.go:24 | the `%d` text of a number reads back as the number |
| Decimal.IntToStringRoundTrip | object/object.go:24 | the same for negative numbers, after the sign |
| Decimal.Pad4 | code/code_test.go:41-46 | the `%04d` offset is all digits, at least four wide, and reads back as the offset |
| Decimal.LeadingZero | code/code_test.go:41-46 | a leading zero does not change a digit string's value |
| Int64.Wrap64 | evaluator/evaluator.go:114-119 | an int64 congruent to the exact result, equal to it when it is in range |
| Int64.TruncDiv | evaluator/evaluator.go:120-121 | Go's truncating quotient: the remainder is smaller than the divisor and has the dividend's sign |
| Int64.TruncDivInRange | evaluator/evaluator.go:120-121 | the quotient of two int64 values is in range, except `MinInt64 / -1` |
| Builtins.LenBuiltin | object/builtins.go:18-37 | the length of an array or string; otherwise an argument-count or not-supported error |
| Builtins.PutsBuiltin | object/builtins.go:38-48 | returns Go nil |
| Builtins.CheckOneArray | object/builtins.go:49-115 | the shared checks of `first`, `last` and `rest`: one argument, which must be an array |
| Builtins.FirstBuiltin | object/builtins.go:49-69 | the first element, nil for an empty array, or the check's error |
| Builtins.LastBuiltin | object/builtins.go:70-91 | the last element, nil for an empty array, or the check's error |
| Builtins.RestBuiltin | object/builtins.go:92-115 | a new array without the first element, nil for an empty array, or the check's error |
| Builtins.PushBuiltin | object/builtins.go:116-138 | a new array with the argument appended, leaving the original unchanged, or an error |
| Builtins.FirstNamed | object/builtins.go:145-152 | finds the first registry entry with the name, and only when one exists |
| Builtins.GetBuiltinByName | object/builtins.go:145-152 | the loop returns the first entry with that name, or nil |
| Builtins.RegistryLookup | object/builtins.go:14-139 | every registered builtin is found by its name |
| Builtins.RegistryNamesDistinct | object/builtins.go:5-12 | no two registry entries share a name |
| Builtins.PushThenLast | object/builtins.go:18-138 | `last(push(a, x))` is `x`, and `len` grows by one |
| Builtins.FirstAndRest | object/builtins.go:49-115 | `first(a)` followed by `rest(a)` rebuilds `a` |
| Builtins.RestThenPush | object/builtins.go:92-138 | `push(rest(a), x)` drops the head and appends `x` |
| EvalBuiltins.StringLenBuiltin | evaluator/builtins.go:9-24 | the length of a string argument; otherwise an argument-count or not-supported error |
| EvalBuiltins.OnlyLen | evaluator/builtins.go:9-10 | the evaluator registers only `len` |
| EvalBuiltins.StringLenAgreesWithLen | evaluator/builtins.go:9-24 | agrees with the object package's `len` on everything except an array, where only that one gives a length |
| Evaluator.IsTruthy | evaluator/evaluator.go:135-146 | only null and false are falsy; integer 0 is truthy |
| Evaluator.NativeBool | evaluator/evaluator.go:148-154 | a shared boolean, truthy exactly when `b` holds |
| Evaluator.EvalBang | evaluator/evaluator.go:87-98 | the shared boolean for "the operand is falsy" |
| Evaluator.BangNegatesTruth | evaluator/evaluator.go:87-98 | `!x` is the shared boolean for "x is falsy", and `!!b` is `b` for booleans |
| Evaluator.EvalMinus | evaluator/evaluator.go:100-107 | negates an integer modulo 2^64, gives null for other objects, and panics on nil |
| Evaluator.MinusTwice | evaluator/evaluator.go:100-107 | negating twice gives back the integer; `MinInt64` is its own negation |
| Evaluator.EvalPrefix | evaluator/evaluator.go:63-72 | `!` and `-` pick their operations; any other operator gives null |
| Evaluator.EvalIntegerInfix | evaluator/evaluator.go:109-133 | panics exactly on `/` by zero; `+ - *` give integers congruent to the exact result modulo 2^64; comparisons give booleans; any other operator gives null |
| Evaluator.EvalInfix | evaluator/evaluator.go:74-85 | a nil left operand panics. With an integer on the left, a nil right panics; two integers use integer arithmetic |
| Evaluator.StatementsKeepLast | evaluator/evaluator.go:41-49 | a statement list panics exactly when one statement does; otherwise its value is the last statement's value |
| Evaluator.EvalExpression | evaluator/evaluator.go:15-39 | `Eval` on expressions: nil for unhandled nodes, and a panic in an operand ends the evaluation (its properties are the lemmas here) |
| Evaluator.EvalIf | evaluator/evaluator.go:51-61 | the if expression, as `Evaluator.IfChooses` states |
| Evaluator.EvalBlock | evaluator/evaluator.go:21-22 | a block evaluates its statements |
| Evaluator.EvalStatement | evaluator/evaluator.go:19-20 | only expression statements have a value |
| Evaluator.EvalStatements | evaluator/evaluator.go:41-49 | the statement loop, as `Evaluator.StatementsKeepLast` states |
| Evaluator.EvalProgram | evaluator/evaluator.go:17-18 | a program evaluates its statements |
| Evaluator.IfChooses | evaluator/evaluator.go:51-61 | a panicking condition panics; a truthy one (nil included) evaluates the consequence, a falsy one the alternative, or gives null without one |
| Evaluator.LiteralValues | evaluator/evaluator.go:32-35 | an integer literal evaluates to its value, a boolean literal to the shared boolean |
| Evaluator.ArithmeticWithoutOverflow | evaluator/evaluator.go:114-119 | `+`, `-` and `*` are exact when the result is in range, and `MaxInt64 + 1` wraps to `MinInt64` |
| Evaluator.DivisionCases | evaluator/evaluator.go:120-121 | division panics exactly on a zero divisor, and it truncates without wrapping except for `MinInt64 / -1` |
| Evaluator.SlashSelectsDivision | evaluator/evaluator.go:120-121 | `/` is truncating division, wrapped to int64 |
| Evaluator.DivisionExamples | evaluator/evaluator.go:120-121 | `-7 / 2` is `-3`, and `MinInt64 / -1` is `MinInt64` |
| Evaluator.LessIsSwappedGreater | evaluator/evaluator.go:122-125 | `a < b` equals `b > a` |
| Evaluator.IntegerEquality | evaluator/evaluator.go:126-129 | integer `==` compares values, and `!=` is its negation |
| Evaluator.NotEqualIsBangEqual | evaluator/evaluator.go:74-85 | for any operands without a panic, `!=` is the negation of `==` |
| Evaluator.NonIntegerOperands | evaluator/evaluator.go:74-85 | whenever the operands are not two integers and no nil operand is asked for its type: `==` is identity, `!=` its negation, any other operator gives null; booleans are identical when equal, other objects never |
| Evaluator.IfElseExample | evaluator/evaluator.go:51-61 | `if (1 < 2) { 10 } else { 20 }` evaluates to 10 |
| Evaluator.OneLessThanTwo | evaluator/evaluator.go:28-31 | `1 < 2` evaluates to true |
| Evaluator.IfWithoutElseExample | evaluator/evaluator.go:51-61 | a false condition without else gives null |
| Code.Lookup | code/code_test.go:73-76 | finds the definition of a defined opcode; any other byte is an undefined-opcode error |
| Code.LookupTable | code/code_test.go:59-88 | the four opcodes and their operand widths |
| Code.PutOperand | code/code_test.go:11-14 | an operand takes exactly its width in bytes |
| Code.ReadOperandAt | code/code_test.go:78 | the value read fits the operand's width |
| Code.Make | code/code_test.go:11-22 | the opcode byte followed by the operands; its length is one plus the operand widths |
| Code.ReadOperands | code/code_test.go:78-81 | one operand per width, and the bytes read are the sum of the widths |
| Code.DecodeEncode | code/code_test.go:59-88 | decoding encoded operands that fit their widths gives them back |
| Code.ReadOperandsInvertsMake | code/code_test.go:59-88 | `ReadOperands` after `Make` returns the operands and the byte count |
| Code.MakeExamples | code/code_test.go:11-14 | the four encodings in the Make test |
| Code.ReadOperandsConstantExample | code/code_test.go:65 | `OpConstant 65535` reads back with 2 bytes read |
| Code.ReadOperandsGetLocalExample | code/code_test.go:66 | `OpGetLocal 255` reads back with 1 byte read |
| Code.ReadOperandsClosureExample | code/code_test.go:67 | `OpClosure 65535 255` reads back with 3 bytes read |
| Code.Step | code/code_test.go:32-56 | each line takes at least one byte and never more than remain |
| Code.DecodeAt | code/code_test.go:32-56 | decodes the line at an offset as `Code.Step` says |
| Code.InstructionsString | code/code_test.go:32-56 | the loop renders every line of the buffer, in order |
| Code.Render | code/code_test.go:32-56 | the text of one disassembly line: the padded offset, the name and the operands |
| Code.Disassemble | code/code_test.go:32-56 | the text of every line from offset 0, as `Code.DisassembleAssemble` states |
| Code.Encode | code/code_test.go:33-39 | one encoded instruction per program instruction |
| Code.Flatten | code/code_test.go:48-51 | the concatenation is as long as all the parts |
| Code.Concatenate | code/code_test.go:48-51 | the append loop yields the concatenation of the instructions |
| Code.DisassembleAssemble | code/code_test.go:32-56 | disassembling concatenated `Make` results lists each instruction at its byte offset with its operands |
| Code.InstructionsStringExample | code/code_test.go:32-56 | the five instructions of the test render to the expected text |
| Frame.Closure.constructor | vm/frame.go:9 | a closure over a compiled function |
| Frame.Frame.constructor | vm/frame.go:14-19 | a new frame holds the closure, `ip` is -1, and the base pointer is the given one |
| Frame.Frame.Instructions | vm/frame.go:22-24 | the frame's instructions are those of its closure's function |
| Frame.NewFrameListsProgram | vm/frame.go:14-24 | a frame over an assembled program exposes those bytes, which disassemble to the program's listing |
| SymbolTable.SymbolTable.Outermost | compiler/symbol_table_test.go:153-160 | every table chain ends in a table without an outer table |
| SymbolTable.SymbolTable.constructor | compiler/symbol_table_test.go:15 | a new table is outermost and empty |
| SymbolTable.SymbolTable.Enclosed | compiler/symbol_table_test.go:27 | an enclosed table is empty and points at its outer table |
| SymbolTable.SymbolTable.Define | compiler/symbol_table_test.go:5-50 | the new symbol is global in the outermost table and local elsewhere. Its index is the count of earlier definitions, and it then resolves to itself |
| SymbolTable.SymbolTable.DefineBuiltin | compiler/symbol_table_test.go:153-168 | a builtin symbol at the given index, without counting as a definition |
| SymbolTable.SymbolTable.Resolve | compiler/symbol_table_test.go:52-100 | a name stored here resolves to its own symbol; an unknown name in an outermost table does not resolve |
| SymbolTable.SymbolTable.ResolvesAsOutermost | compiler/symbol_table_test.go:153-181 | a name bound only in the outermost table resolves there from every enclosed table |
| SymbolTable.SymbolTable.ResolvedScope | compiler/symbol_table_test.go:74-151 | a resolved symbol carries the name. A global one is the outermost table's own, and a local one comes from an enclosed table |
| SymbolTable.DefineExample | compiler/symbol_table_test.go:5-50 | the six symbols of the define test |
| SymbolTable.NestedTables | compiler/symbol_table_test.go:102-113 | three nested tables with two definitions each |
| SymbolTable.OutermostWithTwo | compiler/symbol_table_test.go:52-60 | two globals at indexes 0 and 1 |
| SymbolTable.EnclosedWithTwo | compiler/symbol_table_test.go:74-81 | two locals at indexes 0 and 1 |
| SymbolTable.ResolveLocalExample | compiler/symbol_table_test.go:74-100 | a local table resolves its own locals and the outer globals |
| SymbolTable.ResolveNestedLocalExample | compiler/symbol_table_test.go:102-151 | the innermost table resolves its locals and the globals |
| SymbolTable.BuiltinsExample | compiler/symbol_table_test.go:153-181 | builtins defined in the global table resolve the same from every nested table |

## Left out

- `code/code.go` is not part of this model. `Make`, `Lookup`, `ReadOperands` and `Instructions.String` follow what `code/code_test.go` requires. They cover only the four opcodes those tests use.
- `compiler/symbol_table.go` is not part of this model. The table follows `compiler/symbol_table_test.go`, so it does not model free-variable capture.
- The compiler and the VM's run loop are left out. Of `vm`, only `Frame` is modelled. A closure holds only its compiled function; free variables and the function's locals and parameter counts are left out.
- The evaluator handles only the node kinds Go's `Eval` handles. Let, return, identifiers, functions, strings, arrays, calls and indexing evaluate to `None`, as in Go.
- `Evaluator.EvalStatements` is a recursive function, not a loop, because it is mutually recursive with `Eval`.
- Error messages are kinds with their data (`WrongArgumentCount(got, want)`, `NotSupported(name, type)`, `MustBeArray(name, type)`), not formatted strings.
- Builtins.PutsBuiltin: it returns nil and does not model what it prints.
- Pointer identity is modelled only where it matters. Only the shared `TRUE`, `FALSE` and `NULL` objects compare equal under `==`.
- A Go nil argument inside a builtin's argument list is not modelled.
- `Inspect` covers only the object kinds `object/object.go` defines. Strings, arrays, errors and builtins have a type tag but no text.
- Go nil slices are modelled as empty sequences.
- Grammar.ParseIntLiteral: it accepts decimal and leading-0 octal digit strings, within int64 range. `strconv.ParseInt` with base 0 also accepts a sign, `0x`, `0b`, `0o` and underscores. This lexer never produces them, so the model rejects them.
- Grammar.ParseIntLiteral: its ensures states the decimal reading only. The octal case is covered by `GrammarFacts.IntLiteralEdges`.
- A NUL byte inside the input reads as EOF, as in Go, which uses 0 as its end marker. Like Go's `NextToken`, `Lexer.ScanToken` then steps past it and lexing can go on. `Lexer.Lex` and the parser stop at the first EOF, so what follows a NUL is not parsed.
- The parser works on the token sequence the lexer would produce, as if all NextToken calls had been made ahead of time. Past the end it sees EOF, as Go's lexer keeps returning EOF.
- Parser.Parser.constructor: it sets the current and peek tokens directly. Go's `New` calls `nextToken` twice, and the effect is the same. The prefix and infix function tables are fixed dispatch on the token type, not maps.
- Grammar's parse functions: their own ensures state only that the cursor never moves back and errors are only appended. What each one returns is given by its definition, by the `Parser.Parser` methods, and by the `GrammarFacts` and `FilterFacts` lemmas.
- Code.Step: the ERROR lines for an undefined opcode and for an instruction cut short by the end of the buffer are this model's own. `code/code.go` is not part of this model, so their exact text is not taken from it.
- Code.Make: its requires (a defined opcode and one operand per width) are this model's choice, since `code/code.go` is not part of this model. Calls outside them are not modelled.
- `Parser.Parser.SkipSemicolon`, `ParseInfixLoop` and `ParseListLoop` are helper methods. Each holds a stretch of code that is inline in the Go functions.

## Findings

| source | as written | input that shows it | evidently intended | confidence | as-written member | corrected member |
|---|---|---|---|---|---|---|
| parser/parser.go:92-98, 120-141, 283-289 | `parseLetStatement` returns a nil `*ast.LetStatement` when it fails. `parseStatement` returns that as an `ast.Statement` interface, which is not nil, so the `stmt != nil` test keeps the failed statement | `let 5` | a statement that failed to parse is not added to the program or block | not executed | GrammarFacts.FailedLetKeptAsWritten | GrammarFacts.ProgramHasNoFailedLets |
