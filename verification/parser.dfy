/** The parser object of parser/parser.go: the current and peek tokens are
    overwritten by `NextToken`, errors are appended in place, and the program,
    block, list and infix loops grow their results step by step. Every method
    is proved to leave the parser exactly where the matching function of
    `Grammar` says, with the result that function computes. The statement
    loops keep what the parser's `filter` keeps: with `AsWritten` every
    statement, failed lets included, as the Go code does; with `Intended`
    only the statements that parsed. */
module Parser {
  import opened Wrappers
  import opened Token
  import opened Ast
  import opened Grammar

  class Parser {
    /** The tokens the lexer hands out, in order (EOF once they run out). */
    const tokens: seq<Token>
    /** Which statements the program and block loops keep: `AsWritten` is the
        Go code's `stmt != nil` test, `Intended` also drops failed lets. */
    const filter: StatementFilter
    /** How far the lexer has been read: the index of `currentToken`. */
    var position: nat
    var currentToken: Token
    var peekToken: Token
    var errors: seq<ParseError>

    /** The two token fields hold the tokens at `position` and after it. */
    ghost predicate Valid()
      reads this
    {
      currentToken == At(tokens, position) && peekToken == At(tokens, position + 1)
    }

    /** The parser's state as the pure functions see it. */
    function Here(): (c: Cursor)
      reads this
      ensures c.pos == position
      ensures Valid() ==> Current(tokens, c) == currentToken && Peek(tokens, c) == peekToken
    {
      Cursor(position, errors)
    }

    /** `New`: no errors, and the first two tokens read into the current and
        peek token. */
    constructor (tokens: seq<Token>, filter: StatementFilter)
      ensures Valid() && this.tokens == tokens && this.filter == filter && Here() == Cursor(0, [])
      ensures currentToken == At(tokens, 0) && peekToken == At(tokens, 1)
    {
      this.tokens := tokens;
      this.filter := filter;
      position := 0;
      currentToken := At(tokens, 0);
      peekToken := At(tokens, 1);
      errors := [];
    }

    /** `nextToken`: the peek token becomes the current one and the lexer's
        next token the peek token. */
    method NextToken()
      requires Valid()
      modifies this
      ensures Valid() && Here() == Advance(old(Here()))
      ensures currentToken == old(peekToken)
    {
      currentToken := peekToken;
      peekToken := At(tokens, position + 2);
      position := position + 1;
    }

    /** `setNextTokenIf`. */
    method SetNextTokenIf(t: TokenType) returns (ok: bool)
      requires Valid()
      modifies this
      ensures Valid() && Parsed(ok, Here()) == ExpectPeek(tokens, old(Here()), t)
      ensures ok ==> currentToken.tokenType == t
    {
      if peekToken.tokenType == t {
        NextToken();
        ok := true;
      } else {
        PeekError(t);
        ok := false;
      }
    }

    /** The optional `;` after a statement: skipped when it is the peek token. */
    method SkipSemicolon()
      requires Valid()
      modifies this
      ensures Valid() && Here() == Grammar.SkipSemicolon(tokens, old(Here()))
    {
      if peekToken.tokenType == Semicolon {
        NextToken();
      }
    }

    /** `peekError`: one error naming the expected and the actual peek type. */
    method PeekError(t: TokenType)
      requires Valid()
      modifies this
      ensures Valid() && Here() == WithError(old(Here()), ParseError.PeekError(t, peekToken.tokenType))
    {
      errors := errors + [ParseError.PeekError(t, peekToken.tokenType)];
    }

    /** `noPrefixParseFnError`. */
    method NoPrefixParseFnError(t: TokenType)
      requires Valid()
      modifies this
      ensures Valid() && Here() == WithError(old(Here()), NoPrefixParseFn(t))
    {
      errors := errors + [NoPrefixParseFn(t)];
    }

    /** `peekPrecedence`. */
    function PeekPrecedence(): (p: int)
      reads this
      ensures p > Lowest <==> HasInfixParser(peekToken.tokenType)
    {
      Precedence(peekToken.tokenType)
    }

    /** `currentPrecedence`. */
    function CurrentPrecedence(): (p: int)
      reads this
      ensures p > Lowest <==> HasInfixParser(currentToken.tokenType)
    {
      Precedence(currentToken.tokenType)
    }

    /** `ParseProgram`. */
    method ParseProgram() returns (program: Program)
      requires Valid()
      modifies this
      ensures Valid() && Parsed(program.statements, Here()) == ProgramLoop(tokens, filter, [], old(Here()))
    {
      var statements := [];
      while currentToken.tokenType != EOF
        invariant Valid()
        invariant ProgramLoop(tokens, filter, statements, Here()) == ProgramLoop(tokens, filter, [], old(Here()))
        decreases Remaining(tokens, position)
      {
        var stmt := ParseStatement();
        if Keeps(filter, stmt) {
          statements := statements + [stmt];
        }
        NextToken();
      }
      program := Program(statements);
    }

    /** `parseStatement`. */
    method ParseStatement() returns (stmt: Statement)
      requires Valid()
      modifies this
      ensures Valid() && Parsed(stmt, Here()) == Grammar.ParseStatement(tokens, filter, old(Here()))
      decreases Remaining(tokens, position), 8
    {
      if currentToken.tokenType == Let {
        stmt := ParseLetStatement();
      } else if currentToken.tokenType == Return {
        stmt := ParseReturnStatement();
      } else {
        stmt := ParseExpressionStatement();
      }
    }

    /** `parseLetStatement`. */
    method ParseLetStatement() returns (stmt: Statement)
      requires Valid() && currentToken.tokenType == Let
      modifies this
      ensures Valid() && Parsed(stmt, Here()) == Grammar.ParseLetStatement(tokens, filter, old(Here()))
      decreases Remaining(tokens, position), 7
    {
      var letToken := currentToken;
      var ok := SetNextTokenIf(TokenType.Identifier);
      if !ok {
        return MissingLet;
      }
      var name := Ast.Identifier(currentToken, currentToken.literal);
      ok := SetNextTokenIf(Assign);
      if !ok {
        return MissingLet;
      }
      NextToken();
      var value := ParseExpression(Lowest);
      SkipSemicolon();
      stmt := LetStatement(letToken, name, value);
    }

    /** `parseReturnStatement`. */
    method ParseReturnStatement() returns (stmt: Statement)
      requires Valid() && currentToken.tokenType == Return
      modifies this
      ensures Valid() && Parsed(stmt, Here()) == Grammar.ParseReturnStatement(tokens, filter, old(Here()))
      decreases Remaining(tokens, position), 7
    {
      var returnToken := currentToken;
      NextToken();
      var value := ParseExpression(Lowest);
      SkipSemicolon();
      stmt := ReturnStatement(returnToken, value);
    }

    /** `parseExpressionStatement`. */
    method ParseExpressionStatement() returns (stmt: Statement)
      requires Valid()
      modifies this
      ensures Valid() && Parsed(stmt, Here()) == Grammar.ParseExpressionStatement(tokens, filter, old(Here()))
      decreases Remaining(tokens, position), 7
    {
      var tok := currentToken;
      var e := ParseExpression(Lowest);
      SkipSemicolon();
      stmt := ExpressionStatement(tok, e);
    }

    /** `parseBlockStatement`. */
    method ParseBlockStatement() returns (block: BlockStatement)
      requires Valid() && currentToken.tokenType == LeftBrace
      modifies this
      ensures Valid() && Parsed(block, Here()) == Grammar.ParseBlockStatement(tokens, filter, old(Here()))
      decreases Remaining(tokens, position), 1
    {
      var tok := currentToken;
      var statements := [];
      NextToken();
      while currentToken.tokenType != RightBrace && currentToken.tokenType != EOF
        invariant Valid() && old(position) < position
        invariant BlockLoop(tokens, filter, statements, Here()) == BlockLoop(tokens, filter, [], Advance(old(Here())))
        decreases Remaining(tokens, position)
      {
        var stmt := ParseStatement();
        if Keeps(filter, stmt) {
          statements := statements + [stmt];
        }
        NextToken();
      }
      block := BlockStatement(tok, statements);
    }

    /** `parseExpression`. */
    method ParseExpression(precedence: int) returns (e: Option<Expression>)
      requires Valid()
      modifies this
      ensures Valid() && Parsed(e, Here()) == Grammar.ParseExpression(tokens, filter, old(Here()), precedence)
      decreases Remaining(tokens, position), 6
    {
      ghost var start := Here();
      if !HasPrefixParser(currentToken.tokenType) {
        ExpressionWithoutPrefix(tokens, filter, start, precedence);
        NoPrefixParseFnError(currentToken.tokenType);
        return None;
      }
      e := ParsePrefix();
      ExpressionWithPrefix(tokens, filter, start, precedence, Parsed(e, Here()));
      e := ParseInfixLoop(e, precedence);
    }

    /** The loop of `parseExpression`: while the peek token is no `;` and binds
        tighter than `precedence`, its infix parse function extends `left`. */
    method ParseInfixLoop(left: Option<Expression>, precedence: int) returns (e: Option<Expression>)
      requires Valid()
      modifies this
      ensures Valid() && Parsed(e, Here()) == InfixLoop(tokens, filter, left, old(Here()), precedence)
      decreases Remaining(tokens, position), 5
    {
      e := left;
      while peekToken.tokenType != Semicolon && precedence < PeekPrecedence()
        invariant Valid() && old(position) <= position
        invariant InfixLoop(tokens, filter, e, Here(), precedence)
               == InfixLoop(tokens, filter, left, old(Here()), precedence)
        decreases Remaining(tokens, position)
      {
        ghost var here := Here();
        if !HasInfixParser(peekToken.tokenType) {
          InfixLoopDone(tokens, filter, e, here, precedence);
          return;
        }
        assert position + 1 < |tokens|;
        ghost var before := e;
        NextToken();
        e := ParseInfix(e);
        InfixLoopStep(tokens, filter, before, here, precedence, Parsed(e, Here()));
      }
      InfixLoopDone(tokens, filter, e, Here(), precedence);
    }

    /** The prefix parse function registered for the current token. */
    method ParsePrefix() returns (e: Option<Expression>)
      requires Valid() && HasPrefixParser(currentToken.tokenType)
      modifies this
      ensures Valid() && Parsed(e, Here()) == Grammar.ParsePrefix(tokens, filter, old(Here()))
      decreases Remaining(tokens, position), 5
    {
      match currentToken.tokenType
      case Identifier => e := ParseIdentifier();
      case Int => e := ParseIntegerLiteral();
      case Bang => e := ParsePrefixExpression();
      case Minus => e := ParsePrefixExpression();
      case True => e := ParseBoolean();
      case False => e := ParseBoolean();
      case LeftParen => e := ParseGroupedExpression();
      case If => e := ParseIfExpression();
      case Function => e := ParseFunctionLiteral();
      case String => e := ParseStringLiteral();
      case LeftBracket => e := ParseArrayLiteral();
    }

    /** `parseIdentifier`. */
    method ParseIdentifier() returns (e: Option<Expression>)
      requires Valid() && currentToken.tokenType == TokenType.Identifier
      ensures Parsed(e, Here()) == Grammar.ParsePrefix(tokens, filter, Here())
    {
      e := Some(Ident(Ast.Identifier(currentToken, currentToken.literal)));
    }

    /** `parseIntegerLiteral`. */
    method ParseIntegerLiteral() returns (e: Option<Expression>)
      requires Valid() && currentToken.tokenType == Int
      modifies this
      ensures Valid() && Parsed(e, Here()) == Grammar.ParseIntegerLiteral(tokens, old(Here()))
    {
      var value := ParseIntLiteral(currentToken.literal);
      if value.None? {
        errors := errors + [CouldNotParseInt(currentToken.literal)];
        return None;
      }
      e := Some(IntegerLiteral(currentToken, value.value));
    }

    /** `parsePrefixExpression`. */
    method ParsePrefixExpression() returns (e: Option<Expression>)
      requires Valid() && (currentToken.tokenType == Bang || currentToken.tokenType == Minus)
      modifies this
      ensures Valid() && Parsed(e, Here()) == Grammar.ParsePrefixExpression(tokens, filter, old(Here()))
      decreases Remaining(tokens, position), 4
    {
      var tok := currentToken;
      NextToken();
      var right := ParseExpression(Prefix);
      e := Some(PrefixExpression(tok, tok.literal, right));
    }

    /** `parseBoolean`. */
    method ParseBoolean() returns (e: Option<Expression>)
      requires Valid() && (currentToken.tokenType == True || currentToken.tokenType == False)
      ensures Parsed(e, Here()) == Grammar.ParsePrefix(tokens, filter, Here())
    {
      e := Some(BooleanLiteral(currentToken, currentToken.tokenType == True));
    }

    /** `parseGroupedExpression`. */
    method ParseGroupedExpression() returns (e: Option<Expression>)
      requires Valid() && currentToken.tokenType == LeftParen
      modifies this
      ensures Valid() && Parsed(e, Here()) == Grammar.ParseGroupedExpression(tokens, filter, old(Here()))
      decreases Remaining(tokens, position), 4
    {
      NextToken();
      e := ParseExpression(Lowest);
      var ok := SetNextTokenIf(RightParen);
      if !ok {
        return None;
      }
    }

    /** `parseIfExpression`. */
    method ParseIfExpression() returns (e: Option<Expression>)
      requires Valid() && currentToken.tokenType == If
      modifies this
      ensures Valid() && Parsed(e, Here()) == Grammar.ParseIfExpression(tokens, filter, old(Here()))
      decreases Remaining(tokens, position), 4
    {
      var tok := currentToken;
      var ok := SetNextTokenIf(LeftParen);
      if !ok {
        return None;
      }
      NextToken();
      ghost var atCondition := Here();
      assert Grammar.ParseIfExpression(tokens, filter, old(Here())) == IfCondition(tokens, filter, tok, atCondition);
      var condition := ParseExpression(Lowest);
      ok := SetNextTokenIf(RightParen);
      if !ok {
        return None;
      }
      ok := SetNextTokenIf(LeftBrace);
      if !ok {
        return None;
      }
      assert IfCondition(tokens, filter, tok, atCondition) == IfBranches(tokens, filter, tok, condition, Here());
      var consequence := ParseBlockStatement();
      if peekToken.tokenType != Else {
        return Some(IfExpression(tok, condition, consequence, None));
      }
      NextToken();
      ok := SetNextTokenIf(LeftBrace);
      if !ok {
        return None;
      }
      var alternative := ParseBlockStatement();
      e := Some(IfExpression(tok, condition, consequence, Some(alternative)));
    }

    /** `parseFunctionLiteral`. */
    method ParseFunctionLiteral() returns (e: Option<Expression>)
      requires Valid() && currentToken.tokenType == Function
      modifies this
      ensures Valid() && Parsed(e, Here()) == Grammar.ParseFunctionLiteral(tokens, filter, old(Here()))
      decreases Remaining(tokens, position), 4
    {
      var tok := currentToken;
      var ok := SetNextTokenIf(LeftParen);
      if !ok {
        return None;
      }
      var parameters := ParseFunctionParameters();
      ok := SetNextTokenIf(LeftBrace);
      if !ok {
        return None;
      }
      var body := ParseBlockStatement();
      e := Some(FunctionLiteral(tok, parameters, body));
    }

    /** `parseFunctionParameters`. */
    method ParseFunctionParameters() returns (identifiers: seq<Ast.Identifier>)
      requires Valid()
      modifies this
      ensures Valid() && Parsed(identifiers, Here()) == Grammar.ParseFunctionParameters(tokens, old(Here()))
    {
      if peekToken.tokenType == RightParen {
        NextToken();
        return [];
      }
      NextToken();
      identifiers := [Ast.Identifier(currentToken, currentToken.literal)];
      while peekToken.tokenType == Comma
        invariant Valid()
        invariant ParameterLoop(tokens, identifiers, Here()) == Grammar.ParseFunctionParameters(tokens, old(Here()))
        decreases Remaining(tokens, position)
      {
        NextToken();
        NextToken();
        identifiers := identifiers + [Ast.Identifier(currentToken, currentToken.literal)];
      }
      var ok := SetNextTokenIf(RightParen);
      if !ok {
        return [];
      }
    }

    /** `parseStringLiteral`. */
    method ParseStringLiteral() returns (e: Option<Expression>)
      requires Valid() && currentToken.tokenType == String
      ensures Parsed(e, Here()) == Grammar.ParsePrefix(tokens, filter, Here())
    {
      e := Some(StringLiteral(currentToken, currentToken.literal));
    }

    /** `parseArrayLiteral`. */
    method ParseArrayLiteral() returns (e: Option<Expression>)
      requires Valid() && currentToken.tokenType == LeftBracket
      modifies this
      ensures Valid() && Parsed(e, Here()) == Grammar.ParseArrayLiteral(tokens, filter, old(Here()))
      decreases Remaining(tokens, position), 4
    {
      var tok := currentToken;
      var elements := ParseExpressionList(RightBracket);
      e := Some(ArrayLiteral(tok, elements));
    }

    /** `parseExpressionList`. */
    method ParseExpressionList(end: TokenType) returns (list: seq<Option<Expression>>)
      requires Valid() && (currentToken.tokenType == LeftParen || currentToken.tokenType == LeftBracket)
      modifies this
      ensures Valid() && Parsed(list, Here()) == Grammar.ParseExpressionList(tokens, filter, old(Here()), end)
      decreases Remaining(tokens, position), 3
    {
      ghost var start := Here();
      if peekToken.tokenType == end {
        ListEmpty(tokens, filter, start, end);
        NextToken();
        return [];
      }
      NextToken();
      var first := ParseExpression(Lowest);
      ListFirst(tokens, filter, start, end, Parsed(first, Here()));
      list := ParseListLoop([first], end);
    }

    /** The loop of `parseExpressionList`: one more expression after each
        `,`, then the closing `end`, whose absence empties the list. */
    method ParseListLoop(elements: seq<Option<Expression>>, end: TokenType) returns (list: seq<Option<Expression>>)
      requires Valid()
      modifies this
      ensures Valid() && Parsed(list, Here()) == ListLoop(tokens, filter, elements, old(Here()), end)
      decreases Remaining(tokens, position), 2
    {
      list := elements;
      while peekToken.tokenType == Comma
        invariant Valid() && old(position) <= position
        invariant ListLoop(tokens, filter, list, Here(), end)
               == ListLoop(tokens, filter, elements, old(Here()), end)
        decreases Remaining(tokens, position)
      {
        ghost var here := Here();
        assert position + 1 < |tokens|;
        NextToken();
        NextToken();
        var next := ParseExpression(Lowest);
        ListLoopStep(tokens, filter, list, here, end, Parsed(next, Here()));
        list := list + [next];
      }
      ghost var here := Here();
      var ok := SetNextTokenIf(end);
      ListLoopDone(tokens, filter, list, here, end, Parsed(ok, Here()));
      if !ok {
        return [];
      }
    }

    /** The infix parse function registered for the current token. */
    method ParseInfix(left: Option<Expression>) returns (e: Option<Expression>)
      requires Valid() && HasInfixParser(currentToken.tokenType)
      modifies this
      ensures Valid() && Parsed(e, Here()) == Grammar.ParseInfix(tokens, filter, left, old(Here()))
      decreases Remaining(tokens, position), 5
    {
      if currentToken.tokenType == LeftParen {
        e := ParseCallExpression(left);
      } else if currentToken.tokenType == LeftBracket {
        e := ParseIndexExpression(left);
      } else {
        e := ParseInfixExpression(left);
      }
    }

    /** `parseIndexExpression`. */
    method ParseIndexExpression(left: Option<Expression>) returns (e: Option<Expression>)
      requires Valid() && currentToken.tokenType == LeftBracket
      modifies this
      ensures Valid() && Parsed(e, Here()) == Grammar.ParseIndexExpression(tokens, filter, left, old(Here()))
      decreases Remaining(tokens, position), 4
    {
      var tok := currentToken;
      NextToken();
      var index := ParseExpression(Lowest);
      var ok := SetNextTokenIf(RightBracket);
      if !ok {
        return None;
      }
      e := Some(IndexExpression(tok, left, index));
    }

    /** `parseInfixExpression`: the right operand is parsed at the operator's
        own precedence. */
    method ParseInfixExpression(left: Option<Expression>) returns (e: Option<Expression>)
      requires Valid() && IsBinaryOperator(currentToken.tokenType)
      modifies this
      ensures Valid() && Parsed(e, Here()) == Grammar.ParseInfixExpression(tokens, filter, left, old(Here()))
      decreases Remaining(tokens, position), 4
    {
      var tok := currentToken;
      var precedence := CurrentPrecedence();
      NextToken();
      var right := ParseExpression(precedence);
      e := Some(InfixExpression(tok, left, tok.literal, right));
    }

    /** `parseCallExpression`. */
    method ParseCallExpression(callee: Option<Expression>) returns (e: Option<Expression>)
      requires Valid() && currentToken.tokenType == LeftParen
      modifies this
      ensures Valid() && Parsed(e, Here()) == Grammar.ParseCallExpression(tokens, filter, callee, old(Here()))
      decreases Remaining(tokens, position), 4
    {
      var tok := currentToken;
      var arguments := ParseExpressionList(RightParen);
      e := Some(CallExpression(tok, callee, arguments));
    }
  }

  /** A parser over the tokens, then `ParseProgram`: the program and the
      errors are those of `Grammar.ParseProgram`. */
  method Parse(tokens: seq<Token>, filter: StatementFilter) returns (program: Program, errors: seq<ParseError>)
    ensures program == Grammar.ParseProgram(tokens, filter).value
    ensures errors == Grammar.ParseProgram(tokens, filter).next.errors
  {
    var p := new Parser(tokens, filter);
    program := p.ParseProgram();
    errors := p.errors;
  }
}
