/** What the statement filter does not change. The two filters differ only in
    which parsed statements the program and block loops keep, so every parse
    function reads the same tokens and reports the same errors under both:
    the cursor it returns does not depend on the filter, nor does whether a
    statement is a failed let. Each lemma follows one parse function, with
    the same termination measure. */
module FilterFacts {
  import opened Wrappers
  import opened Token
  import opened Ast
  import opened Grammar
  import opened GrammarFacts

  // Statements

  lemma {:induction false} ProgramLoopSameNext(ts: seq<Token>, f1: StatementFilter, f2: StatementFilter,
                                               acc1: seq<Statement>, acc2: seq<Statement>, c: Cursor)
    ensures ProgramLoop(ts, f1, acc1, c).next == ProgramLoop(ts, f2, acc2, c).next
    decreases Remaining(ts, c.pos)
  {
    if Current(ts, c).tokenType != EOF {
      var s1 := ParseStatement(ts, f1, c);
      var s2 := ParseStatement(ts, f2, c);
      StatementSameNext(ts, f1, f2, c);
      ProgramLoopSameNext(ts, f1, f2, if Keeps(f1, s1.value) then acc1 + [s1.value] else acc1,
        if Keeps(f2, s2.value) then acc2 + [s2.value] else acc2, Advance(s1.next));
    }
  }

  lemma {:induction false} StatementSameNext(ts: seq<Token>, f1: StatementFilter, f2: StatementFilter, c: Cursor)
    ensures ParseStatement(ts, f1, c).next == ParseStatement(ts, f2, c).next
    ensures ParseStatement(ts, f1, c).value.MissingLet? <==> ParseStatement(ts, f2, c).value.MissingLet?
    decreases Remaining(ts, c.pos), 8
  {
    var t := Current(ts, c).tokenType;
    if t == Let {
      LetSameNext(ts, f1, f2, c);
    } else if t == Return {
      ExpressionSameNext(ts, f1, f2, Advance(c), Lowest);
    } else {
      ExpressionSameNext(ts, f1, f2, c, Lowest);
    }
  }

  lemma {:induction false} LetSameNext(ts: seq<Token>, f1: StatementFilter, f2: StatementFilter, c: Cursor)
    requires Current(ts, c).tokenType == Let
    ensures ParseLetStatement(ts, f1, c).next == ParseLetStatement(ts, f2, c).next
    ensures ParseLetStatement(ts, f1, c).value.MissingLet? <==> ParseLetStatement(ts, f2, c).value.MissingLet?
    decreases Remaining(ts, c.pos), 7
  {
    var name := ExpectPeek(ts, c, TokenType.Identifier);
    if name.value {
      var assign := ExpectPeek(ts, name.next, Assign);
      if assign.value {
        ExpressionSameNext(ts, f1, f2, Advance(assign.next), Lowest);
      }
    }
  }

  lemma {:induction false} BlockSameNext(ts: seq<Token>, f1: StatementFilter, f2: StatementFilter, c: Cursor)
    requires Current(ts, c).tokenType == LeftBrace
    ensures ParseBlockStatement(ts, f1, c).next == ParseBlockStatement(ts, f2, c).next
    decreases Remaining(ts, c.pos), 1
  {
    BlockLoopSameNext(ts, f1, f2, [], [], Advance(c));
  }

  lemma {:induction false} BlockLoopSameNext(ts: seq<Token>, f1: StatementFilter, f2: StatementFilter,
                                             acc1: seq<Statement>, acc2: seq<Statement>, c: Cursor)
    ensures BlockLoop(ts, f1, acc1, c).next == BlockLoop(ts, f2, acc2, c).next
    decreases Remaining(ts, c.pos), 9
  {
    var t := Current(ts, c).tokenType;
    if t != RightBrace && t != EOF {
      var s1 := ParseStatement(ts, f1, c);
      var s2 := ParseStatement(ts, f2, c);
      StatementSameNext(ts, f1, f2, c);
      BlockLoopSameNext(ts, f1, f2, if Keeps(f1, s1.value) then acc1 + [s1.value] else acc1,
        if Keeps(f2, s2.value) then acc2 + [s2.value] else acc2, Advance(s1.next));
    }
  }

  // Expressions

  lemma {:induction false} ExpressionSameNext(ts: seq<Token>, f1: StatementFilter, f2: StatementFilter,
                                              c: Cursor, precedence: int)
    ensures ParseExpression(ts, f1, c, precedence).next == ParseExpression(ts, f2, c, precedence).next
    decreases Remaining(ts, c.pos), 6
  {
    if HasPrefixParser(Current(ts, c).tokenType) {
      var left1 := ParsePrefix(ts, f1, c);
      var left2 := ParsePrefix(ts, f2, c);
      PrefixSameNext(ts, f1, f2, c);
      InfixLoopSameNext(ts, f1, f2, left1.value, left2.value, left1.next, precedence);
    }
  }

  lemma {:induction false} InfixLoopSameNext(ts: seq<Token>, f1: StatementFilter, f2: StatementFilter,
                                             left1: Option<Expression>, left2: Option<Expression>, c: Cursor, precedence: int)
    ensures InfixLoop(ts, f1, left1, c, precedence).next == InfixLoop(ts, f2, left2, c, precedence).next
    decreases Remaining(ts, c.pos), 5
  {
    var t := Peek(ts, c).tokenType;
    if !(t == Semicolon || precedence >= Precedence(t)) && HasInfixParser(t) {
      var step1 := ParseInfix(ts, f1, left1, Advance(c));
      var step2 := ParseInfix(ts, f2, left2, Advance(c));
      InfixSameNext(ts, f1, f2, left1, left2, Advance(c));
      InfixLoopSameNext(ts, f1, f2, step1.value, step2.value, step1.next, precedence);
    }
  }

  lemma {:induction false} PrefixSameNext(ts: seq<Token>, f1: StatementFilter, f2: StatementFilter, c: Cursor)
    requires HasPrefixParser(Current(ts, c).tokenType)
    ensures ParsePrefix(ts, f1, c).next == ParsePrefix(ts, f2, c).next
    decreases Remaining(ts, c.pos), 5
  {
    match Current(ts, c).tokenType
    case Bang => ExpressionSameNext(ts, f1, f2, Advance(c), Prefix);
    case Minus => ExpressionSameNext(ts, f1, f2, Advance(c), Prefix);
    case LeftParen => ExpressionSameNext(ts, f1, f2, Advance(c), Lowest);
    case If => IfSameNext(ts, f1, f2, c);
    case Function => FunctionLiteralSameNext(ts, f1, f2, c);
    case LeftBracket => ExpressionListSameNext(ts, f1, f2, c, RightBracket);
    case _ =>
  }

  lemma {:induction false} IfSameNext(ts: seq<Token>, f1: StatementFilter, f2: StatementFilter, c: Cursor)
    requires Current(ts, c).tokenType == If
    ensures ParseIfExpression(ts, f1, c).next == ParseIfExpression(ts, f2, c).next
    decreases Remaining(ts, c.pos), 4
  {
    var open := ExpectPeek(ts, c, LeftParen);
    if open.value {
      IfConditionSameNext(ts, f1, f2, Current(ts, c), Advance(open.next));
    }
  }

  lemma {:induction false} IfConditionSameNext(ts: seq<Token>, f1: StatementFilter, f2: StatementFilter,
                                               tok: Token, c: Cursor)
    ensures IfCondition(ts, f1, tok, c).next == IfCondition(ts, f2, tok, c).next
    decreases Remaining(ts, c.pos), 7
  {
    var condition1 := ParseExpression(ts, f1, c, Lowest);
    var condition2 := ParseExpression(ts, f2, c, Lowest);
    ExpressionSameNext(ts, f1, f2, c, Lowest);
    var close := ExpectPeek(ts, condition1.next, RightParen);
    if close.value {
      var brace := ExpectPeek(ts, close.next, LeftBrace);
      if brace.value {
        IfBranchesSameNext(ts, f1, f2, tok, condition1.value, condition2.value, brace.next);
      }
    }
  }

  lemma {:induction false} IfBranchesSameNext(ts: seq<Token>, f1: StatementFilter, f2: StatementFilter,
                                              tok: Token, condition1: Option<Expression>, condition2: Option<Expression>, c: Cursor)
    requires Current(ts, c).tokenType == LeftBrace
    ensures IfBranches(ts, f1, tok, condition1, c).next == IfBranches(ts, f2, tok, condition2, c).next
    decreases Remaining(ts, c.pos), 2
  {
    BlockSameNext(ts, f1, f2, c);
    var consequence := ParseBlockStatement(ts, f1, c);
    if Peek(ts, consequence.next).tokenType == Else {
      var elseBrace := ExpectPeek(ts, Advance(consequence.next), LeftBrace);
      if elseBrace.value {
        BlockSameNext(ts, f1, f2, elseBrace.next);
      }
    }
  }

  lemma {:induction false} FunctionLiteralSameNext(ts: seq<Token>, f1: StatementFilter, f2: StatementFilter, c: Cursor)
    requires Current(ts, c).tokenType == Function
    ensures ParseFunctionLiteral(ts, f1, c).next == ParseFunctionLiteral(ts, f2, c).next
    decreases Remaining(ts, c.pos), 4
  {
    var open := ExpectPeek(ts, c, LeftParen);
    if open.value {
      var parameters := ParseFunctionParameters(ts, open.next);
      var brace := ExpectPeek(ts, parameters.next, LeftBrace);
      if brace.value {
        BlockSameNext(ts, f1, f2, brace.next);
      }
    }
  }

  lemma {:induction false} ExpressionListSameNext(ts: seq<Token>, f1: StatementFilter, f2: StatementFilter,
                                                  c: Cursor, end: TokenType)
    requires Current(ts, c).tokenType == LeftParen || Current(ts, c).tokenType == LeftBracket
    ensures ParseExpressionList(ts, f1, c, end).next == ParseExpressionList(ts, f2, c, end).next
    decreases Remaining(ts, c.pos), 3
  {
    if Peek(ts, c).tokenType != end {
      var first1 := ParseExpression(ts, f1, Advance(c), Lowest);
      var first2 := ParseExpression(ts, f2, Advance(c), Lowest);
      ExpressionSameNext(ts, f1, f2, Advance(c), Lowest);
      ListLoopSameNext(ts, f1, f2, [first1.value], [first2.value], first1.next, end);
    }
  }

  lemma {:induction false} ListLoopSameNext(ts: seq<Token>, f1: StatementFilter, f2: StatementFilter,
                                            acc1: seq<Option<Expression>>, acc2: seq<Option<Expression>>, c: Cursor, end: TokenType)
    ensures ListLoop(ts, f1, acc1, c, end).next == ListLoop(ts, f2, acc2, c, end).next
    decreases Remaining(ts, c.pos), 2
  {
    if Peek(ts, c).tokenType == Comma {
      var e1 := ParseExpression(ts, f1, Advance(Advance(c)), Lowest);
      var e2 := ParseExpression(ts, f2, Advance(Advance(c)), Lowest);
      ExpressionSameNext(ts, f1, f2, Advance(Advance(c)), Lowest);
      ListLoopSameNext(ts, f1, f2, acc1 + [e1.value], acc2 + [e2.value], e1.next, end);
    }
  }

  lemma {:induction false} InfixSameNext(ts: seq<Token>, f1: StatementFilter, f2: StatementFilter,
                                         left1: Option<Expression>, left2: Option<Expression>, c: Cursor)
    requires HasInfixParser(Current(ts, c).tokenType)
    ensures ParseInfix(ts, f1, left1, c).next == ParseInfix(ts, f2, left2, c).next
    decreases Remaining(ts, c.pos), 5
  {
    var t := Current(ts, c).tokenType;
    if t == LeftParen {
      ExpressionListSameNext(ts, f1, f2, c, RightParen);
    } else if t == LeftBracket {
      ExpressionSameNext(ts, f1, f2, Advance(c), Lowest);
    } else {
      ExpressionSameNext(ts, f1, f2, Advance(c), Precedence(t));
    }
  }

  // Programs

  /** Both filters leave the parser at the same place with the same errors,
      and their programs differ only in the failed let statements they keep:
      the two loops parse equally many statements, failed lets at the same
      places. */
  lemma ProgramSameNext(ts: seq<Token>)
    ensures ParseProgram(ts, AsWritten).next == ParseProgram(ts, Intended).next
    ensures var run1 := StatementRun(ts, AsWritten, Cursor(0, []), false);
      var run2 := StatementRun(ts, Intended, Cursor(0, []), false);
      |run1| == |run2| && forall i :: 0 <= i < |run1| ==> (run1[i].MissingLet? <==> run2[i].MissingLet?)
  {
    ProgramLoopSameNext(ts, AsWritten, Intended, [], [], Cursor(0, []));
    RunSameShape(ts, AsWritten, Intended, Cursor(0, []), false);
  }

  /** The statements a loop parses under two filters: equally many, failed
      lets at the same places. */
  lemma {:induction false} RunSameShape(ts: seq<Token>, f1: StatementFilter, f2: StatementFilter, c: Cursor, inBlock: bool)
    ensures var run1 := StatementRun(ts, f1, c, inBlock);
      var run2 := StatementRun(ts, f2, c, inBlock);
      |run1| == |run2| && forall i :: 0 <= i < |run1| ==> (run1[i].MissingLet? <==> run2[i].MissingLet?)
    decreases Remaining(ts, c.pos)
  {
    if !LoopEnds(Current(ts, c).tokenType, inBlock) {
      var s1 := ParseStatement(ts, f1, c);
      StatementSameNext(ts, f1, f2, c);
      RunSameShape(ts, f1, f2, Advance(s1.next), inBlock);
    }
  }
}
