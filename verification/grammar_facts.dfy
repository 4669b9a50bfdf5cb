/** Properties of the Pratt parser's grammar: the precedence table, where the
    expression loop stops, how binary and prefix operators group, how an
    expression list ends, which statements a program keeps, and how integer
    literals read back. */
module GrammarFacts {
  import opened Wrappers
  import opened Int64
  import opened Token
  import opened Ast
  import opened Grammar
  import Decimal

  // Precedence

  /** The binding powers rise strictly from `Lowest` to `Index`, and each
      operator sits at its own level. */
  lemma PrecedenceTable()
    ensures Lowest < Equals < LessOrGreater < Sum < Product < Prefix < Call < Index
    ensures Precedence(Equal) == Equals && Precedence(NotEqual) == Equals
    ensures Precedence(LessThan) == LessOrGreater && Precedence(GreaterThan) == LessOrGreater
    ensures Precedence(Plus) == Sum && Precedence(Minus) == Sum
    ensures Precedence(Slash) == Product && Precedence(Asterisk) == Product
    ensures Precedence(LeftParen) == Call && Precedence(LeftBracket) == Index
    ensures Precedence(Semicolon) == Lowest && Precedence(EOF) == Lowest
  {
  }

  // Where an expression ends

  /** A token type at which an expression parsed at `precedence` stops. */
  predicate EndsAt(t: TokenType, precedence: int) {
    t == Semicolon || Precedence(t) <= precedence
  }

  /** The infix loop gives control back only at a `;` or at a peek token that
      binds no more tightly than `precedence`. */
  lemma {:induction false} InfixLoopStops(ts: seq<Token>, f: StatementFilter, left: Option<Expression>, c: Cursor,
                                          precedence: int)
    requires precedence >= Lowest
    ensures EndsAt(Peek(ts, InfixLoop(ts, f, left, c, precedence).next).tokenType, precedence)
    decreases Remaining(ts, c.pos)
  {
    var t := Peek(ts, c).tokenType;
    if t != Semicolon && precedence < Precedence(t) {
      assert c.pos + 1 < |ts|;
      var step := ParseInfix(ts, f, left, Advance(c));
      InfixLoopStep(ts, f, left, c, precedence, step);
      InfixLoopStops(ts, f, step.value, step.next, precedence);
    }
  }

  /** An expression that starts with a prefix parse function ends where its
      infix loop stops. */
  lemma ExpressionStops(ts: seq<Token>, f: StatementFilter, c: Cursor, precedence: int)
    requires precedence >= Lowest && HasPrefixParser(Current(ts, c).tokenType)
    ensures EndsAt(Peek(ts, ParseExpression(ts, f, c, precedence).next).tokenType, precedence)
  {
    var left := ParsePrefix(ts, f, c);
    ExpressionWithPrefix(ts, f, c, precedence, left);
    InfixLoopStops(ts, f, left.value, left.next, precedence);
  }

  // How operators group

  /** An identifier as an expression. */
  function Name(t: Token): Expression {
    Ident(Ast.Identifier(t, t.literal))
  }

  /** A binary operation as `parseInfixExpression` builds it. */
  function Binary(left: Expression, op: Token, right: Expression): Expression {
    InfixExpression(op, Some(left), op.literal, Some(right))
  }

  /** A lone identifier followed by a token that ends the expression. */
  lemma SingleName(ts: seq<Token>, f: StatementFilter, c: Cursor, precedence: int)
    requires Current(ts, c).tokenType == TokenType.Identifier
    requires EndsAt(Peek(ts, c).tokenType, precedence)
    ensures ParseExpression(ts, f, c, precedence) == Parsed(Some(Name(Current(ts, c))), c)
  {
    var left := ParsePrefix(ts, f, c);
    assert left == Parsed(Some(Name(Current(ts, c))), c);
    ExpressionWithPrefix(ts, f, c, precedence, left);
    InfixLoopDone(ts, f, left.value, c, precedence);
  }

  /** A binary operator's infix parse: the right operand is parsed at the
      operator's own precedence. */
  lemma BinaryStep(ts: seq<Token>, f: StatementFilter, left: Option<Expression>, c: Cursor,
                   right: Parsed<Option<Expression>>)
    requires IsBinaryOperator(Current(ts, c).tokenType)
    requires right == ParseExpression(ts, f, Advance(c), Precedence(Current(ts, c).tokenType))
    ensures ParseInfix(ts, f, left, c)
         == Parsed(Some(InfixExpression(Current(ts, c), left, Current(ts, c).literal, right.value)), right.next)
  {
  }

  /** One round of the infix loop over a binary operator, given the parse of
      its right operand at the operator's own precedence. */
  lemma OperatorRound(ts: seq<Token>, f: StatementFilter, left: Option<Expression>, c: Cursor, precedence: int,
                      right: Parsed<Option<Expression>>)
    requires IsBinaryOperator(Peek(ts, c).tokenType) && precedence < Precedence(Peek(ts, c).tokenType)
    requires right == ParseExpression(ts, f, Advance(Advance(c)), Precedence(Peek(ts, c).tokenType))
    ensures InfixLoop(ts, f, left, c, precedence)
         == InfixLoop(ts, f, Some(InfixExpression(Peek(ts, c), left, Peek(ts, c).literal, right.value)), right.next, precedence)
  {
    var op := Advance(c);
    BinaryStep(ts, f, left, op, right);
    InfixLoopStep(ts, f, left, c, precedence, ParseInfix(ts, f, left, op));
  }

  /** One round of the infix loop over `<operator> <identifier>`, when the
      token after the identifier binds no more tightly than the operator. */
  lemma NameOperand(ts: seq<Token>, f: StatementFilter, left: Expression, c: Cursor, precedence: int)
    requires IsBinaryOperator(Peek(ts, c).tokenType) && precedence < Precedence(Peek(ts, c).tokenType)
    requires At(ts, c.pos + 2).tokenType == TokenType.Identifier
    requires EndsAt(At(ts, c.pos + 3).tokenType, Precedence(Peek(ts, c).tokenType))
    ensures InfixLoop(ts, f, Some(left), c, precedence)
         == InfixLoop(ts, f, Some(Binary(left, Peek(ts, c), Name(At(ts, c.pos + 2)))), Cursor(c.pos + 2, c.errors), precedence)
  {
    var operand := Advance(Advance(c));
    SingleName(ts, f, operand, Precedence(Peek(ts, c).tokenType));
    OperatorRound(ts, f, Some(left), c, precedence, ParseExpression(ts, f, operand, Precedence(Peek(ts, c).tokenType)));
  }

  /** `a o1 b o2 c` with two operators of the same precedence groups as
      `(a o1 b) o2 c`: the loop stops the right operand of `o1` before `o2`. */
  lemma LeftAssociative(ts: seq<Token>, f: StatementFilter, p: nat, errors: seq<ParseError>, precedence: int)
    requires At(ts, p).tokenType == TokenType.Identifier && At(ts, p + 2).tokenType == TokenType.Identifier
    requires At(ts, p + 4).tokenType == TokenType.Identifier
    requires IsBinaryOperator(At(ts, p + 1).tokenType) && IsBinaryOperator(At(ts, p + 3).tokenType)
    requires Precedence(At(ts, p + 1).tokenType) == Precedence(At(ts, p + 3).tokenType)
    requires precedence < Precedence(At(ts, p + 1).tokenType) && EndsAt(At(ts, p + 5).tokenType, precedence)
    ensures ParseExpression(ts, f, Cursor(p, errors), precedence)
         == Parsed(Some(Binary(Binary(Name(At(ts, p)), At(ts, p + 1), Name(At(ts, p + 2))), At(ts, p + 3), Name(At(ts, p + 4)))),
                   Cursor(p + 4, errors))
  {
    var c := Cursor(p, errors);
    var a := Name(At(ts, p));
    ExpressionWithPrefix(ts, f, c, precedence, ParsePrefix(ts, f, c));
    NameOperand(ts, f, a, c, precedence);
    var ab := Binary(a, At(ts, p + 1), Name(At(ts, p + 2)));
    NameOperand(ts, f, ab, Cursor(p + 2, errors), precedence);
    InfixLoopDone(ts, f, Some(Binary(ab, At(ts, p + 3), Name(At(ts, p + 4)))), Cursor(p + 4, errors), precedence);
  }

  /** `a o1 b o2 c` with `o2` binding more tightly than `o1` groups as
      `a o1 (b o2 c)`: the right operand of `o1`, parsed at `o1`'s
      precedence, takes `o2` along. */
  lemma TighterBindsFirst(ts: seq<Token>, f: StatementFilter, p: nat, errors: seq<ParseError>, precedence: int)
    requires At(ts, p).tokenType == TokenType.Identifier && At(ts, p + 2).tokenType == TokenType.Identifier
    requires At(ts, p + 4).tokenType == TokenType.Identifier
    requires IsBinaryOperator(At(ts, p + 1).tokenType) && IsBinaryOperator(At(ts, p + 3).tokenType)
    requires Precedence(At(ts, p + 1).tokenType) < Precedence(At(ts, p + 3).tokenType)
    requires precedence < Precedence(At(ts, p + 1).tokenType) && EndsAt(At(ts, p + 5).tokenType, precedence)
    ensures ParseExpression(ts, f, Cursor(p, errors), precedence)
         == Parsed(Some(Binary(Name(At(ts, p)), At(ts, p + 1), Binary(Name(At(ts, p + 2)), At(ts, p + 3), Name(At(ts, p + 4))))),
                   Cursor(p + 4, errors))
  {
    var inner := Precedence(At(ts, p + 1).tokenType);
    RightOperandTakesTighter(ts, f, p + 2, errors, inner);
    OneOperator(ts, f, p, errors, precedence, ParseExpression(ts, f, Cursor(p + 2, errors), inner));
  }

  /** `a o <right>`: an identifier, a binary operator binding more tightly
      than `precedence`, and the parse of the right operand at the operator's
      precedence, which ends where the whole expression does. */
  lemma OneOperator(ts: seq<Token>, f: StatementFilter, p: nat, errors: seq<ParseError>, precedence: int,
                    right: Parsed<Option<Expression>>)
    requires At(ts, p).tokenType == TokenType.Identifier
    requires IsBinaryOperator(At(ts, p + 1).tokenType) && precedence < Precedence(At(ts, p + 1).tokenType)
    requires right == ParseExpression(ts, f, Cursor(p + 2, errors), Precedence(At(ts, p + 1).tokenType))
    requires EndsAt(Peek(ts, right.next).tokenType, precedence)
    ensures ParseExpression(ts, f, Cursor(p, errors), precedence)
         == Parsed(Some(InfixExpression(At(ts, p + 1), Some(Name(At(ts, p))), At(ts, p + 1).literal, right.value)), right.next)
  {
    var c := Cursor(p, errors);
    var a := Some(Name(At(ts, p)));
    ExpressionWithPrefix(ts, f, c, precedence, ParsePrefix(ts, f, c));
    OperatorRound(ts, f, a, c, precedence, right);
    InfixLoopDone(ts, f, Some(InfixExpression(At(ts, p + 1), a, At(ts, p + 1).literal, right.value)), right.next, precedence);
  }

  /** `b o c` parsed at a precedence below `o`'s, up to a token that ends it. */
  lemma RightOperandTakesTighter(ts: seq<Token>, f: StatementFilter, p: nat, errors: seq<ParseError>, precedence: int)
    requires At(ts, p).tokenType == TokenType.Identifier && At(ts, p + 2).tokenType == TokenType.Identifier
    requires IsBinaryOperator(At(ts, p + 1).tokenType) && precedence < Precedence(At(ts, p + 1).tokenType)
    requires EndsAt(At(ts, p + 3).tokenType, precedence)
    ensures ParseExpression(ts, f, Cursor(p, errors), precedence)
         == Parsed(Some(Binary(Name(At(ts, p)), At(ts, p + 1), Name(At(ts, p + 2)))), Cursor(p + 2, errors))
  {
    var c := Cursor(p, errors);
    ExpressionWithPrefix(ts, f, c, precedence, ParsePrefix(ts, f, c));
    NameOperand(ts, f, Name(At(ts, p)), c, precedence);
    InfixLoopDone(ts, f, Some(Binary(Name(At(ts, p)), At(ts, p + 1), Name(At(ts, p + 2)))), Cursor(p + 2, errors), precedence);
  }

  /** `-a o b` (or `!a o b`) groups as `(-a) o b`: the operand of a prefix
      operator is parsed at `Prefix` precedence, above every binary operator. */
  lemma PrefixBindsTighter(ts: seq<Token>, f: StatementFilter, p: nat, errors: seq<ParseError>, precedence: int)
    requires At(ts, p).tokenType == Minus || At(ts, p).tokenType == Bang
    requires At(ts, p + 1).tokenType == TokenType.Identifier && At(ts, p + 3).tokenType == TokenType.Identifier
    requires IsBinaryOperator(At(ts, p + 2).tokenType)
    requires precedence < Precedence(At(ts, p + 2).tokenType) && EndsAt(At(ts, p + 4).tokenType, precedence)
    ensures ParseExpression(ts, f, Cursor(p, errors), precedence)
         == Parsed(Some(Binary(PrefixExpression(At(ts, p), At(ts, p).literal, Some(Name(At(ts, p + 1)))),
                               At(ts, p + 2), Name(At(ts, p + 3)))),
                   Cursor(p + 3, errors))
  {
    var c := Cursor(p, errors);
    var negated := PrefixExpression(At(ts, p), At(ts, p).literal, Some(Name(At(ts, p + 1))));
    PrefixOfName(ts, f, p, errors);
    ExpressionWithPrefix(ts, f, c, precedence, Parsed(Some(negated), Cursor(p + 1, errors)));
    NameOperand(ts, f, negated, Cursor(p + 1, errors), precedence);
    InfixLoopDone(ts, f, Some(Binary(negated, At(ts, p + 2), Name(At(ts, p + 3)))), Cursor(p + 3, errors), precedence);
  }

  /** A prefix operator applied to an identifier that a binary operator
      follows: the operand stops before the binary operator. */
  lemma PrefixOfName(ts: seq<Token>, f: StatementFilter, p: nat, errors: seq<ParseError>)
    requires At(ts, p).tokenType == Minus || At(ts, p).tokenType == Bang
    requires At(ts, p + 1).tokenType == TokenType.Identifier && IsBinaryOperator(At(ts, p + 2).tokenType)
    ensures ParsePrefix(ts, f, Cursor(p, errors))
         == Parsed(Some(PrefixExpression(At(ts, p), At(ts, p).literal, Some(Name(At(ts, p + 1))))), Cursor(p + 1, errors))
  {
    SingleName(ts, f, Cursor(p + 1, errors), Prefix);
    assert ParsePrefixExpression(ts, f, Cursor(p, errors))
        == Parsed(Some(PrefixExpression(At(ts, p), At(ts, p).literal, Some(Name(At(ts, p + 1))))), Cursor(p + 1, errors));
  }

  // Expression lists

  /** The last error reported is `e`. */
  predicate LastErrorIs(c: Cursor, e: ParseError) {
    c.errors != [] && c.errors[|c.errors| - 1] == e
  }

  /** After the first element, the list loop either ends on the closing token
      with the elements collected so far still in front, or ends without it,
      with no elements and the error that names the missing closer. */
  lemma {:induction false} ListLoopOutcome(ts: seq<Token>, f: StatementFilter, acc: seq<Option<Expression>>, c: Cursor,
                                           end: TokenType)
    ensures var r := ListLoop(ts, f, acc, c, end);
      (Current(ts, r.next).tokenType == end && acc <= r.value)
      || (r.value == [] && LastErrorIs(r.next, PeekError(end, Peek(ts, r.next).tokenType)))
    decreases Remaining(ts, c.pos)
  {
    if Peek(ts, c).tokenType == Comma {
      assert c.pos + 1 < |ts|;
      var e := ParseExpression(ts, f, Advance(Advance(c)), Lowest);
      ListLoopStep(ts, f, acc, c, end, e);
      ListLoopOutcome(ts, f, acc + [e.value], e.next, end);
    } else {
      ListLoopDone(ts, f, acc, c, end, ExpectPeek(ts, c, end));
    }
  }

  /** `parseExpressionList`: no elements and one step when the closer follows
      at once; otherwise at least one element and the closer reached, or no
      elements and an error naming the missing closer. */
  lemma ExpressionListOutcome(ts: seq<Token>, f: StatementFilter, c: Cursor, end: TokenType)
    requires Current(ts, c).tokenType == LeftParen || Current(ts, c).tokenType == LeftBracket
    ensures var r := ParseExpressionList(ts, f, c, end);
      if Peek(ts, c).tokenType == end then r == Parsed([], Advance(c))
      else (Current(ts, r.next).tokenType == end && |r.value| >= 1)
           || (r.value == [] && LastErrorIs(r.next, PeekError(end, Peek(ts, r.next).tokenType)))
  {
    if Peek(ts, c).tokenType == end {
      ListEmpty(ts, f, c, end);
    } else {
      var first := ParseExpression(ts, f, Advance(c), Lowest);
      ListFirst(ts, f, c, end, first);
      ListLoopOutcome(ts, f, [first.value], first.next, end);
    }
  }

  // Statements

  /** Nothing in `statements` is a failed let statement. */
  predicate NoFailedLets(statements: seq<Statement>) {
    forall i :: 0 <= i < |statements| ==> !statements[i].MissingLet?
  }

  /** Where a statement loop stops: EOF, and in a block also `}`. */
  predicate LoopEnds(t: TokenType, inBlock: bool) {
    t == EOF || (inBlock && t == RightBrace)
  }

  /** Every statement a statement loop parses from `c` on, before any
      filtering, in order. */
  function StatementRun(ts: seq<Token>, f: StatementFilter, c: Cursor, inBlock: bool): seq<Statement>
    decreases Remaining(ts, c.pos)
  {
    if LoopEnds(Current(ts, c).tokenType, inBlock) then []
    else
      var s := ParseStatement(ts, f, c);
      [s.value] + StatementRun(ts, f, Advance(s.next), inBlock)
  }

  /** The statements of `stmts` a filter keeps, in order. */
  function Kept(f: StatementFilter, stmts: seq<Statement>): (k: seq<Statement>)
    ensures |k| <= |stmts|
  {
    if stmts == [] then []
    else (if Keeps(f, stmts[0]) then [stmts[0]] else []) + Kept(f, stmts[1..])
  }

  /** As written the filter keeps every statement; the intended filter drops
      the failed let statements and nothing else, in order. */
  lemma {:induction false} KeptDropsOnlyFailedLets(stmts: seq<Statement>)
    ensures Kept(AsWritten, stmts) == stmts
    ensures NoFailedLets(Kept(Intended, stmts))
    ensures forall s :: s in Kept(Intended, stmts) <==> s in stmts && !s.MissingLet?
    ensures (forall i :: 0 <= i < |stmts| ==> !stmts[i].MissingLet?) ==> Kept(Intended, stmts) == stmts
  {
    if stmts != [] {
      KeptDropsOnlyFailedLets(stmts[1..]);
      assert stmts == [stmts[0]] + stmts[1..];
      forall s | s in stmts
        ensures s in stmts[1..] || s == stmts[0]
      {
      }
    }
  }

  /** The program loop runs to EOF and appends to what it was given exactly
      the statements it parses that the filter keeps, in order. */
  lemma {:induction false} ProgramLoopKeeps(ts: seq<Token>, f: StatementFilter, acc: seq<Statement>, c: Cursor)
    ensures var r := ProgramLoop(ts, f, acc, c);
      Current(ts, r.next).tokenType == EOF
      && r.value == acc + Kept(f, StatementRun(ts, f, c, false))
      && (f == Intended && NoFailedLets(acc) ==> NoFailedLets(r.value))
    decreases Remaining(ts, c.pos)
  {
    if Current(ts, c).tokenType != EOF {
      assert c.pos < |ts|;
      var s := ParseStatement(ts, f, c);
      var acc' := if Keeps(f, s.value) then acc + [s.value] else acc;
      ProgramLoopKeeps(ts, f, acc', Advance(s.next));
      KeptStep(f, s.value, StatementRun(ts, f, Advance(s.next), false), acc);
    }
  }

  /** The block loop stops at `}` or EOF and appends to what it was given
      exactly the statements it parses that the filter keeps, in order. */
  lemma {:induction false} BlockLoopKeeps(ts: seq<Token>, f: StatementFilter, acc: seq<Statement>, c: Cursor)
    ensures var r := BlockLoop(ts, f, acc, c);
      r.value == acc + Kept(f, StatementRun(ts, f, c, true))
      && (f == Intended && NoFailedLets(acc) ==> NoFailedLets(r.value))
    decreases Remaining(ts, c.pos)
  {
    var t := Current(ts, c).tokenType;
    if t != RightBrace && t != EOF {
      assert c.pos < |ts|;
      var s := ParseStatement(ts, f, c);
      var acc' := if Keeps(f, s.value) then acc + [s.value] else acc;
      BlockLoopKeeps(ts, f, acc', Advance(s.next));
      KeptStep(f, s.value, StatementRun(ts, f, Advance(s.next), true), acc);
    }
  }

  /** One statement of a loop: appending it if kept, then the kept rest, is
      appending the kept statements of both. */
  lemma KeptStep(f: StatementFilter, s: Statement, rest: seq<Statement>, acc: seq<Statement>)
    ensures (if Keeps(f, s) then acc + [s] else acc) + Kept(f, rest) == acc + Kept(f, [s] + rest)
    ensures f == Intended && NoFailedLets(acc) && NoFailedLets(Kept(f, rest)) ==>
      NoFailedLets((if Keeps(f, s) then acc + [s] else acc) + Kept(f, rest))
  {
    assert ([s] + rest)[1..] == rest;
  }

  /** `ParseProgram` with the intended filter: it reads up to EOF and the
      program holds no failed let statement. */
  lemma ProgramHasNoFailedLets(ts: seq<Token>)
    ensures Current(ts, ParseProgram(ts, Intended).next).tokenType == EOF
    ensures NoFailedLets(ParseProgram(ts, Intended).value.statements)
  {
    ProgramLoopKeeps(ts, Intended, [], Cursor(0, []));
  }

  /** `parseBlockStatement` with the intended filter holds no failed let
      statement. */
  lemma BlockHasNoFailedLets(ts: seq<Token>, c: Cursor)
    requires Current(ts, c).tokenType == LeftBrace
    ensures NoFailedLets(ParseBlockStatement(ts, Intended, c).value.statements)
  {
    BlockLoopKeeps(ts, Intended, [], Advance(c));
  }

  /** `let 5`: the let statement fails at the missing identifier. As written
      the failed statement stays in the program, ahead of the statement `5`;
      with the intended filter only `5` remains. Both report the one error. */
  lemma FailedLetKeptAsWritten()
    ensures ParseProgram(LetFive(), AsWritten)
         == Parsed(Program([MissingLet, Five()]), Cursor(2, [PeekError(TokenType.Identifier, Int)]))
    ensures ParseProgram(LetFive(), Intended)
         == Parsed(Program([Five()]), Cursor(2, [PeekError(TokenType.Identifier, Int)]))
  {
    var ts := LetFive();
    var errors := [PeekError(TokenType.Identifier, Int)];
    FiveStatement(ts, AsWritten, errors);
    FiveStatement(ts, Intended, errors);
    LetThenStatement(ts, AsWritten, errors, ParseStatement(ts, AsWritten, Cursor(1, errors)));
    LetThenStatement(ts, Intended, errors, ParseStatement(ts, Intended, Cursor(1, errors)));
  }

  /** The tokens of `let 5`. */
  function LetFive(): seq<Token> {
    [Token(Let, "let"), Token(Int, "5"), EofToken]
  }

  /** The statement `5` as the parser builds it from the token `5`. */
  function Five(): Statement {
    ExpressionStatement(Token(Int, "5"), Some(IntegerLiteral(Token(Int, "5"), 5)))
  }

  /** The token `5` followed by EOF parses to the statement `5`. */
  lemma FiveStatement(ts: seq<Token>, f: StatementFilter, errors: seq<ParseError>)
    requires At(ts, 1) == Token(Int, "5") && At(ts, 2).tokenType == EOF
    ensures ParseStatement(ts, f, Cursor(1, errors)) == Parsed(Five(), Cursor(1, errors))
  {
    assert ParseIntLiteral("5") == Some(5) by {
      assert Decimal.AllDigits("5");
      assert Decimal.DigitsValue("5", 10) == 5;
    }
    var c := Cursor(1, errors);
    ExpressionWithPrefix(ts, f, c, Lowest, ParsePrefix(ts, f, c));
    InfixLoopDone(ts, f, Some(IntegerLiteral(Token(Int, "5"), 5)), c, Lowest);
  }

  /** `let` without a name, then one statement that is no failed let and ends
      on its own token, then EOF: the program holds the failed let only as
      written, and both filters report the one error. */
  lemma LetThenStatement(ts: seq<Token>, f: StatementFilter, errors: seq<ParseError>, s: Parsed<Statement>)
    requires At(ts, 0).tokenType == Let && At(ts, 1).tokenType == Int && At(ts, 2).tokenType == EOF
    requires errors == [PeekError(TokenType.Identifier, Int)]
    requires s == ParseStatement(ts, f, Cursor(1, errors)) && s.next == Cursor(1, errors) && !s.value.MissingLet?
    ensures ProgramLoop(ts, f, [], Cursor(0, []))
         == Parsed(if f == AsWritten then [MissingLet, s.value] else [s.value], Cursor(2, errors))
  {
    LetWithoutName(ts, f);
    var acc := if f == AsWritten then [MissingLet] else [];
    assert acc == if Keeps(f, MissingLet) then [] + [MissingLet] else [];
    ProgramLoopStep(ts, f, [], Cursor(0, []), Parsed(MissingLet, Cursor(0, errors)));
    assert Keeps(f, s.value) && acc + [s.value] == if f == AsWritten then [MissingLet, s.value] else [s.value];
    ProgramLoopStep(ts, f, acc, Cursor(1, errors), s);
    ProgramLoopDone(ts, f, acc + [s.value], Cursor(2, errors));
  }

  /** `let` followed by an integer: the identifier is missing. */
  lemma LetWithoutName(ts: seq<Token>, f: StatementFilter)
    requires At(ts, 0).tokenType == Let && At(ts, 1).tokenType == Int
    ensures ParseStatement(ts, f, Cursor(0, [])) == Parsed(MissingLet, Cursor(0, [PeekError(TokenType.Identifier, Int)]))
  {
  }

  /** The program loop at EOF. */
  lemma ProgramLoopDone(ts: seq<Token>, f: StatementFilter, acc: seq<Statement>, c: Cursor)
    requires Current(ts, c).tokenType == EOF
    ensures ProgramLoop(ts, f, acc, c) == Parsed(acc, c)
  {
  }

  /** One round of the program loop. */
  lemma ProgramLoopStep(ts: seq<Token>, f: StatementFilter, acc: seq<Statement>, c: Cursor, s: Parsed<Statement>)
    requires Current(ts, c).tokenType != EOF && s == ParseStatement(ts, f, c)
    ensures ProgramLoop(ts, f, acc, c) == ProgramLoop(ts, f, if Keeps(f, s.value) then acc + [s.value] else acc, Advance(s.next))
  {
  }

  // Integer literals

  /** Every int64 value written in decimal reads back as itself. */
  lemma IntLiteralRoundTrip(v: nat)
    requires v <= MaxInt64
    ensures ParseIntLiteral(Decimal.NatToString(v)) == Some(v as Int64)
  {
    Decimal.NatToStringRoundTrip(v);
  }

  /** A decimal literal beyond the int64 maximum is rejected. */
  lemma IntLiteralOutOfRange(v: nat)
    requires v > MaxInt64
    ensures ParseIntLiteral(Decimal.NatToString(v)) == None
  {
    Decimal.NatToStringRoundTrip(v);
  }

  /** A leading 0 makes the rest octal, an 8 after it is no octal digit, and
      the empty literal is no number. */
  lemma IntLiteralEdges()
    ensures ParseIntLiteral("010") == Some(8)
    ensures ParseIntLiteral("08") == None
    ensures ParseIntLiteral("") == None
  {
    assert Decimal.DigitsValue("10", 8) == 8;
    assert !('0' <= "8"[0] <= '7');
  }
}
