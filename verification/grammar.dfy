/** The Pratt parser of parser/parser.go as pure functions over a token
    stream. Each function takes a `Cursor` (the index of the current token and
    the errors reported so far) and returns what it parsed together with the
    cursor after it, exactly as the Go method leaves the parser. The class in
    parser.dfy runs the same steps in place and is proved equal to these
    functions.

    The lexer is replaced by the sequence of tokens it produces; reading past
    the end yields EOF again and again, as the lexer does once its input is
    exhausted. */
module Grammar {
  import opened Wrappers
  import opened Int64
  import opened Token
  import opened Ast
  import Decimal

  /* Binding powers, weakest first (`iota` from 1). */
  const Lowest := 1
  const Equals := 2
  const LessOrGreater := 3
  const Sum := 4
  const Product := 5
  const Prefix := 6
  const Call := 7
  const Index := 8

  /** `precedences`, with `Lowest` for every token type it does not list.
      Exactly the types with an infix parser bind more tightly than `Lowest`. */
  function Precedence(t: TokenType): (p: int)
    ensures Lowest <= p <= Index
    ensures p > Lowest <==> HasInfixParser(t)
  {
    if t == Equal || t == NotEqual then Equals
    else if t == LessThan || t == GreaterThan then LessOrGreater
    else if t == Plus || t == Minus then Sum
    else if t == Slash || t == Asterisk then Product
    else if t == LeftParen then Call
    else if t == LeftBracket then Index
    else Lowest
  }

  /** The token types `New` registers a prefix parse function for. */
  predicate HasPrefixParser(t: TokenType) {
    t.Identifier? || t.Int? || t.Bang? || t.Minus? || t.True? || t.False?
    || t.LeftParen? || t.If? || t.Function? || t.String? || t.LeftBracket?
  }

  /** The token types `New` registers an infix parse function for. */
  predicate HasInfixParser(t: TokenType) {
    IsBinaryOperator(t) || t.LeftParen? || t.LeftBracket?
  }

  /** The operators parsed by `parseInfixExpression`. */
  predicate IsBinaryOperator(t: TokenType) {
    t.Plus? || t.Minus? || t.Slash? || t.Asterisk?
    || t.Equal? || t.NotEqual? || t.LessThan? || t.GreaterThan?
  }

  /** A parse error, by kind: the formatted message text is not modelled. */
  datatype ParseError =
    | PeekError(expected: TokenType, got: TokenType)
    | NoPrefixParseFn(tokenType: TokenType)
    | CouldNotParseInt(literal: string)

  /** What the lexer returns once its input is exhausted. */
  const EofToken := Token(EOF, "")

  /** The `i`-th token the lexer hands out. */
  function At(ts: seq<Token>, i: nat): Token {
    if i < |ts| then ts[i] else EofToken
  }

  /** The parser's position: the index of `currentToken` in the stream (the
      peek token is the next one) and the errors collected so far. */
  datatype Cursor = Cursor(pos: nat, errors: seq<ParseError>)

  /** A parse result and the cursor after it. */
  datatype Parsed<T> = Parsed(value: T, next: Cursor)

  /** `d` is reached from `c` by parsing: no token is given back and no
      error is taken back. */
  predicate Later(c: Cursor, d: Cursor) {
    c.pos <= d.pos && c.errors <= d.errors
  }

  /** The termination measure: tokens left before the end of the stream. */
  function Remaining(ts: seq<Token>, pos: nat): nat {
    if pos < |ts| then |ts| - pos else 0
  }

  function Current(ts: seq<Token>, c: Cursor): Token {
    At(ts, c.pos)
  }

  function Peek(ts: seq<Token>, c: Cursor): Token {
    At(ts, c.pos + 1)
  }

  /** `nextToken`: the peek token becomes the current one. */
  function Advance(c: Cursor): Cursor {
    c.(pos := c.pos + 1)
  }

  function WithError(c: Cursor, e: ParseError): Cursor {
    c.(errors := c.errors + [e])
  }

  /** `setNextTokenIf`: advance when the peek token has type `t`, otherwise
      report that `t` was expected and stay. */
  function ExpectPeek(ts: seq<Token>, c: Cursor, t: TokenType): (r: Parsed<bool>)
    ensures r.value <==> Peek(ts, c).tokenType == t
    ensures r.value ==> r.next == Advance(c)
    ensures !r.value ==> r.next.pos == c.pos && r.next.errors == c.errors + [PeekError(t, Peek(ts, c).tokenType)]
  {
    if Peek(ts, c).tokenType == t then Parsed(true, Advance(c))
    else Parsed(false, WithError(c, PeekError(t, Peek(ts, c).tokenType)))
  }

  /** Whether the loops of `ParseProgram` and `parseBlockStatement` keep a
      parsed statement. The Go test `stmt != nil` compares a statement
      interface with nil; a failed let statement is a nil `*LetStatement`
      inside that interface, which is not nil, so as written every statement
      is kept. `Intended` drops the failed let statements. */
  datatype StatementFilter = AsWritten | Intended

  predicate Keeps(f: StatementFilter, s: Statement) {
    f == AsWritten || !s.MissingLet?
  }

  /** `strconv.ParseInt(literal, 0, 64)` on the digit strings the lexer
      produces: a leading 0 makes the rest octal, and a value beyond the int64
      range is an error. */
  function ParseIntLiteral(literal: string): (r: Option<Int64>)
    ensures r.Some? ==> literal != [] && Decimal.AllDigits(literal)
    ensures r.Some? && literal[0] != '0' ==> r.value == Decimal.DigitsValue(literal, 10)
  {
    if literal == [] || !Decimal.AllDigits(literal) then None
    else if |literal| > 1 && literal[0] == '0' then
      var digits := literal[1..];
      if OctalDigits(digits) && Decimal.DigitsValue(digits, 8) <= MaxInt64
      then Some(Decimal.DigitsValue(digits, 8)) else None
    else if Decimal.DigitsValue(literal, 10) <= MaxInt64 then Some(Decimal.DigitsValue(literal, 10))
    else None
  }

  predicate OctalDigits(s: string) {
    forall i :: 0 <= i < |s| ==> '0' <= s[i] <= '7'
  }

  // Statements

  /** `ParseProgram`: statements up to EOF, each followed by one `nextToken`. */
  function ParseProgram(ts: seq<Token>, f: StatementFilter): Parsed<Program> {
    var r := ProgramLoop(ts, f, [], Cursor(0, []));
    Parsed(Program(r.value), r.next)
  }

  function ProgramLoop(ts: seq<Token>, f: StatementFilter, acc: seq<Statement>, c: Cursor): (r: Parsed<seq<Statement>>)
    ensures Later(c, r.next) && Current(ts, r.next).tokenType == EOF
    decreases Remaining(ts, c.pos)
  {
    if Current(ts, c).tokenType == EOF then Parsed(acc, c)
    else
      var s := ParseStatement(ts, f, c);
      ProgramLoop(ts, f, if Keeps(f, s.value) then acc + [s.value] else acc, Advance(s.next))
  }

  /** `parseStatement`: dispatch on the current token. */
  function ParseStatement(ts: seq<Token>, f: StatementFilter, c: Cursor): (r: Parsed<Statement>)
    ensures Later(c, r.next)
    decreases Remaining(ts, c.pos), 8
  {
    var t := Current(ts, c).tokenType;
    if t == Let then ParseLetStatement(ts, f, c)
    else if t == Return then ParseReturnStatement(ts, f, c)
    else ParseExpressionStatement(ts, f, c)
  }

  /** `parseLetStatement`: `let <identifier> = <expression>` with an optional
      `;`; a missing identifier or `=` gives a failed let statement. */
  function ParseLetStatement(ts: seq<Token>, f: StatementFilter, c: Cursor): (r: Parsed<Statement>)
    requires Current(ts, c).tokenType == Let
    ensures Later(c, r.next)
    decreases Remaining(ts, c.pos), 7
  {
    var letToken := Current(ts, c);
    var name := ExpectPeek(ts, c, TokenType.Identifier);
    if !name.value then Parsed(MissingLet, name.next)
    else
      var id := Ast.Identifier(Current(ts, name.next), Current(ts, name.next).literal);
      var assign := ExpectPeek(ts, name.next, Assign);
      if !assign.value then Parsed(MissingLet, assign.next)
      else
        var value := ParseExpression(ts, f, Advance(assign.next), Lowest);
        Parsed(LetStatement(letToken, id, value.value), SkipSemicolon(ts, value.next))
  }

  /** The optional `;` that ends a statement. */
  function SkipSemicolon(ts: seq<Token>, c: Cursor): (d: Cursor)
    ensures d == (if Peek(ts, c).tokenType == Semicolon then Advance(c) else c)
  {
    if Peek(ts, c).tokenType == Semicolon then Advance(c) else c
  }

  /** `parseReturnStatement`: `return <expression>` with an optional `;`. */
  function ParseReturnStatement(ts: seq<Token>, f: StatementFilter, c: Cursor): (r: Parsed<Statement>)
    requires Current(ts, c).tokenType == Return
    ensures Later(c, r.next)
    decreases Remaining(ts, c.pos), 7
  {
    var value := ParseExpression(ts, f, Advance(c), Lowest);
    Parsed(ReturnStatement(Current(ts, c), value.value), SkipSemicolon(ts, value.next))
  }

  /** `parseExpressionStatement`: an expression with an optional `;`. */
  function ParseExpressionStatement(ts: seq<Token>, f: StatementFilter, c: Cursor): (r: Parsed<Statement>)
    ensures Later(c, r.next)
    decreases Remaining(ts, c.pos), 7
  {
    var e := ParseExpression(ts, f, c, Lowest);
    Parsed(ExpressionStatement(Current(ts, c), e.value), SkipSemicolon(ts, e.next))
  }

  /** `parseBlockStatement`: statements after the `{` up to `}` or EOF. */
  function ParseBlockStatement(ts: seq<Token>, f: StatementFilter, c: Cursor): (r: Parsed<BlockStatement>)
    requires Current(ts, c).tokenType == LeftBrace
    ensures Later(c, r.next)
    decreases Remaining(ts, c.pos), 1
  {
    var r := BlockLoop(ts, f, [], Advance(c));
    Parsed(BlockStatement(Current(ts, c), r.value), r.next)
  }

  function BlockLoop(ts: seq<Token>, f: StatementFilter, acc: seq<Statement>, c: Cursor): (r: Parsed<seq<Statement>>)
    ensures Later(c, r.next)
    ensures Current(ts, r.next).tokenType == RightBrace || Current(ts, r.next).tokenType == EOF
    decreases Remaining(ts, c.pos), 9
  {
    var t := Current(ts, c).tokenType;
    if t == RightBrace || t == EOF then Parsed(acc, c)
    else
      var s := ParseStatement(ts, f, c);
      BlockLoop(ts, f, if Keeps(f, s.value) then acc + [s.value] else acc, Advance(s.next))
  }

  // Expressions

  /** `parseExpression`: a prefix parse, then infix parses for as long as the
      peek token binds more tightly than `precedence`. */
  function ParseExpression(ts: seq<Token>, f: StatementFilter, c: Cursor, precedence: int): (r: Parsed<Option<Expression>>)
    ensures Later(c, r.next)
    decreases Remaining(ts, c.pos), 6
  {
    var t := Current(ts, c).tokenType;
    if !HasPrefixParser(t) then Parsed(None, WithError(c, NoPrefixParseFn(t)))
    else
      var left := ParsePrefix(ts, f, c);
      InfixLoop(ts, f, left.value, left.next, precedence)
  }

  /** The loop of `parseExpression`. */
  function InfixLoop(ts: seq<Token>, f: StatementFilter, left: Option<Expression>, c: Cursor, precedence: int)
    : (r: Parsed<Option<Expression>>)
    ensures Later(c, r.next)
    decreases Remaining(ts, c.pos), 5
  {
    var t := Peek(ts, c).tokenType;
    if t == Semicolon || precedence >= Precedence(t) then Parsed(left, c)
    else if !HasInfixParser(t) then Parsed(left, c)
    else
      var step := ParseInfix(ts, f, left, Advance(c));
      InfixLoop(ts, f, step.value, step.next, precedence)
  }

  /** The prefix parse function registered for the current token. */
  function ParsePrefix(ts: seq<Token>, f: StatementFilter, c: Cursor): (r: Parsed<Option<Expression>>)
    requires HasPrefixParser(Current(ts, c).tokenType)
    ensures Later(c, r.next)
    decreases Remaining(ts, c.pos), 5
  {
    var tok := Current(ts, c);
    match tok.tokenType
    case Identifier => Parsed(Some(Ident(Ast.Identifier(tok, tok.literal))), c)
    case Int => ParseIntegerLiteral(ts, c)
    case Bang => ParsePrefixExpression(ts, f, c)
    case Minus => ParsePrefixExpression(ts, f, c)
    case True => Parsed(Some(BooleanLiteral(tok, true)), c)
    case False => Parsed(Some(BooleanLiteral(tok, false)), c)
    case LeftParen => ParseGroupedExpression(ts, f, c)
    case If => ParseIfExpression(ts, f, c)
    case Function => ParseFunctionLiteral(ts, f, c)
    case String => Parsed(Some(StringLiteral(tok, tok.literal)), c)
    case LeftBracket => ParseArrayLiteral(ts, f, c)
  }

  /** `parseIntegerLiteral`: the literal's value, or an error and nil. */
  function ParseIntegerLiteral(ts: seq<Token>, c: Cursor): (r: Parsed<Option<Expression>>)
    ensures r.next.pos == c.pos && Later(c, r.next)
  {
    var tok := Current(ts, c);
    match ParseIntLiteral(tok.literal)
    case Some(v) => Parsed(Some(IntegerLiteral(tok, v)), c)
    case None => Parsed(None, WithError(c, CouldNotParseInt(tok.literal)))
  }

  /** `parsePrefixExpression`: the operand is parsed at `Prefix` precedence. */
  function ParsePrefixExpression(ts: seq<Token>, f: StatementFilter, c: Cursor): (r: Parsed<Option<Expression>>)
    requires Current(ts, c).tokenType == Bang || Current(ts, c).tokenType == Minus
    ensures Later(c, r.next)
    decreases Remaining(ts, c.pos), 4
  {
    var tok := Current(ts, c);
    var right := ParseExpression(ts, f, Advance(c), Prefix);
    Parsed(Some(PrefixExpression(tok, tok.literal, right.value)), right.next)
  }

  /** `parseGroupedExpression`: `( <expression> )`. */
  function ParseGroupedExpression(ts: seq<Token>, f: StatementFilter, c: Cursor): (r: Parsed<Option<Expression>>)
    requires Current(ts, c).tokenType == LeftParen
    ensures Later(c, r.next)
    decreases Remaining(ts, c.pos), 4
  {
    var e := ParseExpression(ts, f, Advance(c), Lowest);
    var close := ExpectPeek(ts, e.next, RightParen);
    Parsed(if close.value then e.value else None, close.next)
  }

  /** `parseIfExpression`: `if ( <condition> ) { ... }` with an optional
      `else { ... }`. */
  function ParseIfExpression(ts: seq<Token>, f: StatementFilter, c: Cursor): (r: Parsed<Option<Expression>>)
    requires Current(ts, c).tokenType == If
    ensures Later(c, r.next)
    decreases Remaining(ts, c.pos), 4
  {
    var open := ExpectPeek(ts, c, LeftParen);
    if !open.value then Parsed(None, open.next)
    else IfCondition(ts, f, Current(ts, c), Advance(open.next))
  }

  /** The part of `parseIfExpression` from the condition to the `{` of the
      consequence. */
  function IfCondition(ts: seq<Token>, f: StatementFilter, tok: Token, c: Cursor): (r: Parsed<Option<Expression>>)
    ensures Later(c, r.next)
    decreases Remaining(ts, c.pos), 7
  {
    var condition := ParseExpression(ts, f, c, Lowest);
    var close := ExpectPeek(ts, condition.next, RightParen);
    if !close.value then Parsed(None, close.next)
    else
      var brace := ExpectPeek(ts, close.next, LeftBrace);
      if !brace.value then Parsed(None, brace.next)
      else IfBranches(ts, f, tok, condition.value, brace.next)
  }

  /** The part of `parseIfExpression` from the `{` of the consequence on. */
  function IfBranches(ts: seq<Token>, f: StatementFilter, tok: Token, condition: Option<Expression>, c: Cursor)
    : (r: Parsed<Option<Expression>>)
    requires Current(ts, c).tokenType == LeftBrace
    ensures Later(c, r.next)
    decreases Remaining(ts, c.pos), 2
  {
    var consequence := ParseBlockStatement(ts, f, c);
    if Peek(ts, consequence.next).tokenType != Else then
      Parsed(Some(IfExpression(tok, condition, consequence.value, None)), consequence.next)
    else
      var elseBrace := ExpectPeek(ts, Advance(consequence.next), LeftBrace);
      if !elseBrace.value then Parsed(None, elseBrace.next)
      else
        var alternative := ParseBlockStatement(ts, f, elseBrace.next);
        Parsed(Some(IfExpression(tok, condition, consequence.value, Some(alternative.value))), alternative.next)
  }

  /** `parseFunctionLiteral`: `fn ( <parameters> ) { ... }`. */
  function ParseFunctionLiteral(ts: seq<Token>, f: StatementFilter, c: Cursor): (r: Parsed<Option<Expression>>)
    requires Current(ts, c).tokenType == Function
    ensures Later(c, r.next)
    decreases Remaining(ts, c.pos), 4
  {
    var tok := Current(ts, c);
    var open := ExpectPeek(ts, c, LeftParen);
    if !open.value then Parsed(None, open.next)
    else
      var parameters := ParseFunctionParameters(ts, open.next);
      var brace := ExpectPeek(ts, parameters.next, LeftBrace);
      if !brace.value then Parsed(None, brace.next)
      else
        var body := ParseBlockStatement(ts, f, brace.next);
        Parsed(Some(FunctionLiteral(tok, parameters.value, body.value)), body.next)
  }

  /** `parseFunctionParameters`: comma-separated tokens up to `)`; each is
      taken as an identifier whatever its type. A missing `)` gives none. */
  function ParseFunctionParameters(ts: seq<Token>, c: Cursor): (r: Parsed<seq<Ast.Identifier>>)
    ensures Later(c, r.next)
  {
    if Peek(ts, c).tokenType == RightParen then Parsed([], Advance(c))
    else
      var first := Current(ts, Advance(c));
      ParameterLoop(ts, [Ast.Identifier(first, first.literal)], Advance(c))
  }

  function ParameterLoop(ts: seq<Token>, acc: seq<Ast.Identifier>, c: Cursor): (r: Parsed<seq<Ast.Identifier>>)
    ensures Later(c, r.next)
    decreases Remaining(ts, c.pos)
  {
    if Peek(ts, c).tokenType == Comma then
      var d := Advance(Advance(c));
      ParameterLoop(ts, acc + [Ast.Identifier(Current(ts, d), Current(ts, d).literal)], d)
    else
      var close := ExpectPeek(ts, c, RightParen);
      Parsed(if close.value then acc else [], close.next)
  }

  /** `parseArrayLiteral`: the elements up to `]`. */
  function ParseArrayLiteral(ts: seq<Token>, f: StatementFilter, c: Cursor): (r: Parsed<Option<Expression>>)
    requires Current(ts, c).tokenType == LeftBracket
    ensures Later(c, r.next)
    decreases Remaining(ts, c.pos), 4
  {
    var elements := ParseExpressionList(ts, f, c, RightBracket);
    Parsed(Some(ArrayLiteral(Current(ts, c), elements.value)), elements.next)
  }

  /** `parseExpressionList`: comma-separated expressions up to `end`; an
      empty list when `end` follows at once, and none (with an error) when
      `end` is missing after the last expression. */
  function ParseExpressionList(ts: seq<Token>, f: StatementFilter, c: Cursor, end: TokenType)
    : (r: Parsed<seq<Option<Expression>>>)
    requires Current(ts, c).tokenType == LeftParen || Current(ts, c).tokenType == LeftBracket
    ensures Later(c, r.next)
    decreases Remaining(ts, c.pos), 3
  {
    if Peek(ts, c).tokenType == end then Parsed([], Advance(c))
    else
      var first := ParseExpression(ts, f, Advance(c), Lowest);
      ListLoop(ts, f, [first.value], first.next, end)
  }

  function ListLoop(ts: seq<Token>, f: StatementFilter, acc: seq<Option<Expression>>, c: Cursor, end: TokenType)
    : (r: Parsed<seq<Option<Expression>>>)
    ensures Later(c, r.next)
    decreases Remaining(ts, c.pos), 2
  {
    if Peek(ts, c).tokenType == Comma then
      var e := ParseExpression(ts, f, Advance(Advance(c)), Lowest);
      ListLoop(ts, f, acc + [e.value], e.next, end)
    else
      var close := ExpectPeek(ts, c, end);
      Parsed(if close.value then acc else [], close.next)
  }

  /** The infix parse function registered for the current token, applied to
      the expression on its left. */
  function ParseInfix(ts: seq<Token>, f: StatementFilter, left: Option<Expression>, c: Cursor)
    : (r: Parsed<Option<Expression>>)
    requires HasInfixParser(Current(ts, c).tokenType)
    ensures Later(c, r.next)
    decreases Remaining(ts, c.pos), 5
  {
    var t := Current(ts, c).tokenType;
    if t == LeftParen then ParseCallExpression(ts, f, left, c)
    else if t == LeftBracket then ParseIndexExpression(ts, f, left, c)
    else ParseInfixExpression(ts, f, left, c)
  }

  /** `parseInfixExpression`: the right operand is parsed at the operator's
      own precedence. */
  function ParseInfixExpression(ts: seq<Token>, f: StatementFilter, left: Option<Expression>, c: Cursor)
    : (r: Parsed<Option<Expression>>)
    requires IsBinaryOperator(Current(ts, c).tokenType)
    ensures Later(c, r.next)
    decreases Remaining(ts, c.pos), 4
  {
    var tok := Current(ts, c);
    var right := ParseExpression(ts, f, Advance(c), Precedence(tok.tokenType));
    Parsed(Some(InfixExpression(tok, left, tok.literal, right.value)), right.next)
  }

  /** `parseCallExpression`: the arguments up to `)`. */
  function ParseCallExpression(ts: seq<Token>, f: StatementFilter, callee: Option<Expression>, c: Cursor)
    : (r: Parsed<Option<Expression>>)
    requires Current(ts, c).tokenType == LeftParen
    ensures Later(c, r.next)
    decreases Remaining(ts, c.pos), 4
  {
    var arguments := ParseExpressionList(ts, f, c, RightParen);
    Parsed(Some(CallExpression(Current(ts, c), callee, arguments.value)), arguments.next)
  }

  /** `parseIndexExpression`: `[ <expression> ]` after the indexed one. */
  function ParseIndexExpression(ts: seq<Token>, f: StatementFilter, left: Option<Expression>, c: Cursor)
    : (r: Parsed<Option<Expression>>)
    requires Current(ts, c).tokenType == LeftBracket
    ensures Later(c, r.next)
    decreases Remaining(ts, c.pos), 4
  {
    var index := ParseExpression(ts, f, Advance(c), Lowest);
    var close := ExpectPeek(ts, index.next, RightBracket);
    Parsed(if close.value then Some(IndexExpression(Current(ts, c), left, index.value)) else None, close.next)
  }

  // One-step unfoldings, stated for the parser class's proofs

  lemma ExpressionWithoutPrefix(ts: seq<Token>, f: StatementFilter, c: Cursor, precedence: int)
    requires !HasPrefixParser(Current(ts, c).tokenType)
    ensures ParseExpression(ts, f, c, precedence) == Parsed(None, WithError(c, NoPrefixParseFn(Current(ts, c).tokenType)))
  {
  }

  lemma ExpressionWithPrefix(ts: seq<Token>, f: StatementFilter, c: Cursor, precedence: int, left: Parsed<Option<Expression>>)
    requires HasPrefixParser(Current(ts, c).tokenType) && left == ParsePrefix(ts, f, c)
    ensures ParseExpression(ts, f, c, precedence) == InfixLoop(ts, f, left.value, left.next, precedence)
  {
  }

  lemma InfixLoopDone(ts: seq<Token>, f: StatementFilter, left: Option<Expression>, c: Cursor, precedence: int)
    requires Peek(ts, c).tokenType == Semicolon || precedence >= Precedence(Peek(ts, c).tokenType)
             || !HasInfixParser(Peek(ts, c).tokenType)
    ensures InfixLoop(ts, f, left, c, precedence) == Parsed(left, c)
  {
  }

  lemma InfixLoopStep(ts: seq<Token>, f: StatementFilter, left: Option<Expression>, c: Cursor, precedence: int,
                      step: Parsed<Option<Expression>>)
    requires Peek(ts, c).tokenType != Semicolon && precedence < Precedence(Peek(ts, c).tokenType)
    requires HasInfixParser(Peek(ts, c).tokenType) && step == ParseInfix(ts, f, left, Advance(c))
    ensures InfixLoop(ts, f, left, c, precedence) == InfixLoop(ts, f, step.value, step.next, precedence)
  {
  }

  lemma ListEmpty(ts: seq<Token>, f: StatementFilter, c: Cursor, end: TokenType)
    requires Current(ts, c).tokenType == LeftParen || Current(ts, c).tokenType == LeftBracket
    requires Peek(ts, c).tokenType == end
    ensures ParseExpressionList(ts, f, c, end) == Parsed([], Advance(c))
  {
  }

  lemma ListFirst(ts: seq<Token>, f: StatementFilter, c: Cursor, end: TokenType, first: Parsed<Option<Expression>>)
    requires Current(ts, c).tokenType == LeftParen || Current(ts, c).tokenType == LeftBracket
    requires Peek(ts, c).tokenType != end && first == ParseExpression(ts, f, Advance(c), Lowest)
    ensures ParseExpressionList(ts, f, c, end) == ListLoop(ts, f, [first.value], first.next, end)
  {
  }

  lemma ListLoopStep(ts: seq<Token>, f: StatementFilter, acc: seq<Option<Expression>>, c: Cursor, end: TokenType,
                     e: Parsed<Option<Expression>>)
    requires Peek(ts, c).tokenType == Comma && e == ParseExpression(ts, f, Advance(Advance(c)), Lowest)
    ensures ListLoop(ts, f, acc, c, end) == ListLoop(ts, f, acc + [e.value], e.next, end)
  {
  }

  lemma ListLoopDone(ts: seq<Token>, f: StatementFilter, acc: seq<Option<Expression>>, c: Cursor, end: TokenType,
                     close: Parsed<bool>)
    requires Peek(ts, c).tokenType != Comma && close == ExpectPeek(ts, c, end)
    ensures ListLoop(ts, f, acc, c, end) == Parsed(if close.value then acc else [], close.next)
  {
  }
}
