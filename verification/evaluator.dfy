/** The tree-walking evaluator. It handles programs, blocks, expression
    statements, if/else, prefix and infix operators, and integer and boolean
    literals; every other node evaluates to nil. */
module Evaluator {
  import opened Wrappers
  import opened Int64
  import Tok = Token
  import opened Ast
  import opened Objects

  /** The result of an evaluation: an object, nil (`None`), or a Go runtime
      panic, which ends the evaluation there. */
  datatype Outcome = Value(result: Option<Object>) | Panic

  /** The operator texts: the token types' string values. */
  const BangOp := Tok.TypeName(Tok.Bang)
  const MinusOp := Tok.TypeName(Tok.Minus)
  const PlusOp := Tok.TypeName(Tok.Plus)
  const AsteriskOp := Tok.TypeName(Tok.Asterisk)
  const SlashOp := Tok.TypeName(Tok.Slash)
  const LessThanOp := Tok.TypeName(Tok.LessThan)
  const GreaterThanOp := Tok.TypeName(Tok.GreaterThan)
  const EqualOp := Tok.TypeName(Tok.Equal)
  const NotEqualOp := Tok.TypeName(Tok.NotEqual)

  /** `nativeBoolToBooleanObject`: the shared `True` or `False` object. Since
      the two booleans are singletons, a boolean object is identified by its
      value. */
  function NativeBool(b: bool): (o: Object)
    ensures o.Boolean? && IsTruthy(Some(o)) == b
  {
    Boolean(b)
  }

  /** `isTruthy`: `Null` and `False` are false, anything else is true,
      including integer 0 and nil. */
  function IsTruthy(obj: Option<Object>): (t: bool)
    ensures !t <==> obj == Some(Null) || obj == Some(Boolean(false))
  {
    match obj
    case None => true
    case Some(Null) => false
    case Some(Boolean(b)) => b
    case Some(_) => true
  }

  /** `evalBangOperatorExpression`: the shared boolean for "the operand is
      falsy". */
  function EvalBang(right: Option<Object>): (o: Object)
    ensures o == NativeBool(!IsTruthy(right))
  {
    if right == Some(Boolean(true)) then NativeBool(false)
    else if right == Some(Boolean(false)) then NativeBool(true)
    else if right == Some(Null) then NativeBool(true)
    else NativeBool(false)
  }

  /** `!` is the negation of truthiness, for every operand, nil included; so
      applied twice to a boolean it gives the boolean back. */
  lemma BangNegatesTruth(right: Option<Object>)
    ensures EvalBang(right) == NativeBool(!IsTruthy(right))
    ensures right.Some? && right.value.Boolean? ==> EvalBang(Some(EvalBang(right))) == right.value
  {
  }

  /** `evalMinusPrefixOperatorExpression`: the negated integer, wrapped to 64
      bits; any other object gives `Null`, and nil has no type to ask for. */
  function EvalMinus(right: Option<Object>): (r: Outcome)
    ensures right == None <==> r == Panic
    ensures right.Some? && right.value.Integer? ==>
      r.Value? && r.result.Some? && r.result.value.Integer?
      && (r.result.value.intValue + right.value.intValue) % Modulus == 0
    ensures right.Some? && !right.value.Integer? ==> r == Value(Some(Null))
  {
    match right
    case None => Panic
    case Some(Integer(v)) => Value(Some(Integer(Wrap64(-(v as int)))))
    case Some(_) => Value(Some(Null))
  }

  /** Negating twice gives the integer back, even for the most negative
      `int64`, which is its own negation. */
  lemma MinusTwice(v: Int64)
    ensures EvalMinus(Some(EvalMinus(Some(Integer(v))).result.value)) == Value(Some(Integer(v)))
    ensures v == MinInt64 ==> EvalMinus(Some(Integer(v))) == Value(Some(Integer(v)))
  {
    if v == MinInt64 {
      assert Wrap64(-(v as int)) == v;
    } else {
      assert Wrap64(-(v as int)) == -(v as int);
    }
  }

  /** `evalPrefixExpression`: `!` and `-` are the prefix operators. */
  function EvalPrefix(operator: string, right: Option<Object>): (r: Outcome)
    ensures operator == BangOp ==> r == Value(Some(EvalBang(right)))
    ensures operator == MinusOp ==> r == EvalMinus(right)
    ensures operator != BangOp && operator != MinusOp ==> r == Value(Some(Null))
  {
    if operator == BangOp then Value(Some(EvalBang(right)))
    else if operator == MinusOp then EvalMinus(right)
    else Value(Some(Null))
  }

  /** `evalIntegerInfixExpression`: arithmetic wraps around to 64 bits,
      division truncates and panics on a zero divisor, comparisons give
      booleans, and any other operator gives `Null`. */
  function EvalIntegerInfix(operator: string, left: Int64, right: Int64): (r: Outcome)
    ensures r.Panic? <==> operator == SlashOp && right == 0
    ensures r.Value? ==> r.result.Some?
    ensures operator == PlusOp ==>
      r.result.value.Integer? && (r.result.value.intValue - (left + right)) % Modulus == 0
    ensures operator == MinusOp ==>
      r.result.value.Integer? && (r.result.value.intValue - (left - right)) % Modulus == 0
    ensures operator == AsteriskOp ==>
      r.result.value.Integer? && (r.result.value.intValue - left * right) % Modulus == 0
    ensures operator in {LessThanOp, GreaterThanOp, EqualOp, NotEqualOp} ==> r.result.value.Boolean?
    ensures operator !in {PlusOp, MinusOp, AsteriskOp, SlashOp, LessThanOp, GreaterThanOp, EqualOp, NotEqualOp} ==>
      r == Value(Some(Null))
  {
    if operator == PlusOp then Value(Some(Integer(Wrap64(left as int + right as int))))
    else if operator == MinusOp then Value(Some(Integer(Wrap64(left as int - right as int))))
    else if operator == AsteriskOp then Value(Some(Integer(Wrap64(left as int * right as int))))
    else if operator == SlashOp then
      if right == 0 then Panic else Value(Some(Integer(Wrap64(TruncDiv(left, right)))))
    else if operator == LessThanOp then Value(Some(NativeBool(left < right)))
    else if operator == GreaterThanOp then Value(Some(NativeBool(left > right)))
    else if operator == EqualOp then Value(Some(NativeBool(left == right)))
    else if operator == NotEqualOp then Value(Some(NativeBool(left != right)))
    else Value(Some(Null))
  }

  /** Pointer identity of two objects, as `==` on interfaces compares them.
      Only the shared booleans and `Null` are ever the same object: every
      other object the evaluator makes is freshly allocated. */
  predicate Identical(left: Object, right: Option<Object>) {
    right == Some(left) && (left.Boolean? || left.Null?)
  }

  /** `evalInfixExpression`: two integers go to integer arithmetic; otherwise
      `==` and `!=` compare identity and every other operator gives `Null`.
      The left operand's type is asked for first, and the right one's only
      when the left is an integer; asking nil for its type panics. */
  function EvalInfix(operator: string, left: Option<Object>, right: Option<Object>): (r: Outcome)
    ensures left == None ==> r == Panic
    ensures left.Some? && left.value.Integer? && right == None ==> r == Panic
    ensures left.Some? && left.value.Integer? && right.Some? && right.value.Integer? ==>
      r == EvalIntegerInfix(operator, left.value.intValue, right.value.intValue)
  {
    match left
    case None => Panic
    case Some(l) =>
      if l.Integer? && right == None then Panic
      else if l.Integer? && right.value.Integer? then EvalIntegerInfix(operator, l.intValue, right.value.intValue)
      else if operator == EqualOp then Value(Some(NativeBool(Identical(l, right))))
      else if operator == NotEqualOp then Value(Some(NativeBool(!Identical(l, right))))
      else Value(Some(Null))
  }

  /** `Eval` on an expression, where nil and node kinds without a case
      evaluate to nil. */
  function EvalExpression(e: Option<Expression>): Outcome
    decreases e
  {
    match e
    case None => Value(None)
    case Some(IfExpression(_, _, _, _)) => EvalIf(e.value)
    case Some(PrefixExpression(_, operator, right)) =>
      var r := EvalExpression(right);
      if r.Panic? then Panic else EvalPrefix(operator, r.result)
    case Some(InfixExpression(_, operator_left, operator, right)) =>
      var l := EvalExpression(operator_left);
      if l.Panic? then Panic
      else
        var r := EvalExpression(right);
        if r.Panic? then Panic else EvalInfix(operator, l.result, r.result)
    case Some(IntegerLiteral(_, value)) => Value(Some(Integer(value)))
    case Some(BooleanLiteral(_, flag)) => Value(Some(NativeBool(flag)))
    case Some(_) => Value(None)
  }

  /** `evalIfExpression`. */
  function EvalIf(ie: Expression): Outcome
    requires ie.IfExpression?
    decreases ie
  {
    var c := EvalExpression(ie.condition);
    if c.Panic? then Panic
    else if IsTruthy(c.result) then EvalBlock(ie.consequence)
    else if ie.alternative.Some? then EvalBlock(ie.alternative.value)
    else Value(Some(Null))
  }

  function EvalBlock(b: BlockStatement): Outcome
    decreases b
  {
    EvalStatements(b.statements)
  }

  /** `Eval` on a statement: only expression statements have a case. */
  function EvalStatement(s: Statement): Outcome
    decreases s
  {
    match s
    case ExpressionStatement(_, expression) => EvalExpression(expression)
    case _ => Value(None)
  }

  /** `evalStatements`: every statement is evaluated in order and the last
      result is kept; nil when there are none. The loop is a recursive
      function here because it and `Eval` call each other. */
  function EvalStatements(stmts: seq<Statement>): Outcome
    decreases stmts
  {
    if stmts == [] then Value(None)
    else
      var first := EvalStatement(stmts[0]);
      if first.Panic? then Panic
      else if |stmts| == 1 then first
      else EvalStatements(stmts[1..])
  }

  function EvalProgram(p: Program): Outcome {
    EvalStatements(p.statements)
  }

  /** A statement list evaluates to its last statement's result, or nil when
      it is empty, provided no statement panics; it panics exactly when one of
      its statements does. */
  lemma {:induction false} StatementsKeepLast(stmts: seq<Statement>)
    ensures EvalStatements(stmts).Panic? <==> exists i :: 0 <= i < |stmts| && EvalStatement(stmts[i]).Panic?
    ensures (forall i :: 0 <= i < |stmts| ==> EvalStatement(stmts[i]).Value?) ==>
      EvalStatements(stmts) == if stmts == [] then Value(None) else EvalStatement(stmts[|stmts| - 1])
  {
    if |stmts| > 1 {
      StatementsKeepLast(stmts[1..]);
      assert forall i :: 1 <= i < |stmts| ==> stmts[i] == stmts[1..][i - 1];
      if EvalStatement(stmts[0]).Value? && exists i :: 0 <= i < |stmts| && EvalStatement(stmts[i]).Panic? {
        var i :| 0 <= i < |stmts| && EvalStatement(stmts[i]).Panic?;
        assert EvalStatement(stmts[1..][i - 1]).Panic?;
      }
    }
  }

  /** Without overflow, `+ - *` are the mathematical operations; with it they
      wrap around modulo 2^64. */
  lemma ArithmeticWithoutOverflow(a: Int64, b: Int64)
    ensures MinInt64 <= a + b <= MaxInt64 ==> EvalIntegerInfix(PlusOp, a, b) == Value(Some(Integer(a + b)))
    ensures MinInt64 <= a - b <= MaxInt64 ==> EvalIntegerInfix(MinusOp, a, b) == Value(Some(Integer(a - b)))
    ensures MinInt64 <= a * b <= MaxInt64 ==> EvalIntegerInfix(AsteriskOp, a, b) == Value(Some(Integer(a * b)))
    ensures EvalIntegerInfix(PlusOp, MaxInt64, 1) == Value(Some(Integer(MinInt64)))
  {
  }

  /** Division truncates toward zero, panics on a zero divisor, and wraps the
      one overflowing quotient, the most negative `int64` divided by -1. */
  lemma DivisionCases(a: Int64, b: Int64)
    ensures b == 0 <==> EvalIntegerInfix(SlashOp, a, b) == Panic
    ensures b != 0 && !(a == MinInt64 && b == -1) ==>
      Wrap64(TruncDiv(a, b)) == TruncDiv(a, b)
      && EvalIntegerInfix(SlashOp, a, b) == Value(Some(Integer(Wrap64(TruncDiv(a, b)))))
  {
    SlashSelectsDivision(a, b);
    if b != 0 && !(a == MinInt64 && b == -1) {
      TruncDivInRange(a, b);
      assert Wrap64(TruncDiv(a, b)) == TruncDiv(a, b);
    }
  }

  lemma SlashSelectsDivision(a: Int64, b: Int64)
    ensures EvalIntegerInfix(SlashOp, a, b) ==
      if b == 0 then Panic else Value(Some(Integer(Wrap64(TruncDiv(a, b)))))
  {
  }

  /** Two quotients: -7 / 2 is -3, not -4, and the most negative `int64`
      divided by -1 wraps around to itself. */
  lemma DivisionExamples()
    ensures EvalIntegerInfix(SlashOp, -7, 2) == Value(Some(Integer(-3)))
    ensures EvalIntegerInfix(SlashOp, MinInt64, -1) == Value(Some(Integer(MinInt64)))
  {
    assert TruncDiv(-7, 2) == -3;
    assert TruncDiv(MinInt64, -1) == -MinInt64;
  }

  /** On integers, `a < b` is `b > a`. */
  lemma LessIsSwappedGreater(a: Int64, b: Int64)
    ensures EvalIntegerInfix(LessThanOp, a, b) == Value(Some(NativeBool(a < b)))
    ensures EvalIntegerInfix(GreaterThanOp, b, a) == Value(Some(NativeBool(a < b)))
  {
  }

  /** On integers, `==` is equality and `!=` its negation. */
  lemma IntegerEquality(a: Int64, b: Int64)
    ensures EvalIntegerInfix(EqualOp, a, b) == Value(Some(NativeBool(a == b)))
    ensures EvalIntegerInfix(NotEqualOp, a, b) == Value(Some(EvalBang(EvalIntegerInfix(EqualOp, a, b).result)))
  {
    assert EvalIntegerInfix(NotEqualOp, a, b) == Value(Some(NativeBool(a != b)));
  }

  /** For any operands at all, `!=` is `!` applied to `==`, whether they are
      compared as integers or by identity. */
  lemma NotEqualIsBangEqual(left: Option<Object>, right: Option<Object>)
    requires EvalInfix(EqualOp, left, right).Value?
    ensures EvalInfix(NotEqualOp, left, right) == Value(Some(EvalBang(EvalInfix(EqualOp, left, right).result)))
  {
    if left.value.Integer? && right.value.Integer? {
      IntegerEquality(left.value.intValue, right.value.intValue);
    }
  }

  /** Whenever the operands are not two integers (and no nil operand is
      asked for its type), `==` is identity, `!=` its negation, and every
      other operator gives `Null`. Two booleans are identical exactly when
      they are equal; any object but a boolean or `Null` is identical to
      nothing, so `==` on it is false even against an equal value. */
  lemma NonIntegerOperands(left: Object, right: Option<Object>, operator: string)
    requires !left.Integer? || (right.Some? && !right.value.Integer?)
    ensures EvalInfix(EqualOp, Some(left), right) == Value(Some(NativeBool(Identical(left, right))))
    ensures EvalInfix(NotEqualOp, Some(left), right) == Value(Some(NativeBool(!Identical(left, right))))
    ensures operator != EqualOp && operator != NotEqualOp ==> EvalInfix(operator, Some(left), right) == Value(Some(Null))
    ensures left.Boolean? && right.Some? && right.value.Boolean? ==>
      EvalInfix(EqualOp, Some(left), right) == Value(Some(NativeBool(left.boolValue == right.value.boolValue)))
    ensures !left.Boolean? && !left.Null? ==> EvalInfix(EqualOp, Some(left), right) == Value(Some(NativeBool(false)))
  {
  }

  /** `Eval` on an if expression: a panicking condition panics; otherwise a
      truthy condition (nil included) evaluates the consequence's
      statements, and a falsy one the alternative's, or gives `Null` when
      there is none. */
  lemma IfChooses(t: Tok.Token, cond: Option<Expression>, cons: BlockStatement, alt: Option<BlockStatement>)
    ensures var r := EvalExpression(Some(IfExpression(t, cond, cons, alt)));
      var c := EvalExpression(cond);
      (c.Panic? ==> r == Panic)
      && (c.Value? && IsTruthy(c.result) ==> r == EvalStatements(cons.statements))
      && (c.Value? && !IsTruthy(c.result) && alt.Some? ==> r == EvalStatements(alt.value.statements))
      && (c.Value? && !IsTruthy(c.result) && alt.None? ==> r == Value(Some(Null)))
  {
    var ie := IfExpression(t, cond, cons, alt);
    assert EvalExpression(Some(ie)) == EvalIf(ie);
    assert EvalBlock(cons) == EvalStatements(cons.statements);
    if alt.Some? {
      assert EvalBlock(alt.value) == EvalStatements(alt.value.statements);
    }
  }

  /** Literals evaluate to their own value: an integer literal to a fresh
      integer, a boolean literal to the shared boolean. */
  lemma LiteralValues(t: Tok.Token, v: Int64, b: bool)
    ensures EvalExpression(Some(IntegerLiteral(t, v))) == Value(Some(Integer(v)))
    ensures EvalExpression(Some(BooleanLiteral(t, b))) == Value(Some(NativeBool(b)))
    ensures EvalProgram(Program([ExpressionStatement(t, Some(IntegerLiteral(t, v)))])) == Value(Some(Integer(v)))
  {
    assert EvalStatement(ExpressionStatement(t, Some(IntegerLiteral(t, v)))) == Value(Some(Integer(v)));
  }

  /** `if (1 < 2) { 10 } else { 20 }` evaluates to 10. */
  lemma IfElseExample(t: Tok.Token)
    ensures EvalExpression(Some(IfExpression(t,
              Some(InfixExpression(t, Some(IntegerLiteral(t, 1)), LessThanOp, Some(IntegerLiteral(t, 2)))),
              BlockStatement(t, [ExpressionStatement(t, Some(IntegerLiteral(t, 10)))]),
              Some(BlockStatement(t, [ExpressionStatement(t, Some(IntegerLiteral(t, 20)))])))))
            == Value(Some(Integer(10)))
  {
    var cond := Some(InfixExpression(t, Some(IntegerLiteral(t, 1)), LessThanOp, Some(IntegerLiteral(t, 2))));
    OneLessThanTwo(t);
    var ten := ExpressionStatement(t, Some(IntegerLiteral(t, 10)));
    assert EvalStatement(ten) == Value(Some(Integer(10)));
    assert EvalStatements([ten]) == Value(Some(Integer(10)));
    var ie := IfExpression(t, cond, BlockStatement(t, [ten]),
      Some(BlockStatement(t, [ExpressionStatement(t, Some(IntegerLiteral(t, 20)))])));
    assert EvalIf(ie) == Value(Some(Integer(10)));
  }

  lemma OneLessThanTwo(t: Tok.Token)
    ensures EvalExpression(Some(InfixExpression(t, Some(IntegerLiteral(t, 1)), LessThanOp, Some(IntegerLiteral(t, 2)))))
            == Value(Some(Boolean(true)))
  {
    assert EvalExpression(Some(IntegerLiteral(t, 1))) == Value(Some(Integer(1)));
    assert EvalExpression(Some(IntegerLiteral(t, 2))) == Value(Some(Integer(2)));
    LessIsSwappedGreater(1, 2);
  }

  /** `if (false) { 10 }` has no alternative and evaluates to `Null`. */
  lemma IfWithoutElseExample(t: Tok.Token)
    ensures EvalExpression(Some(IfExpression(t, Some(BooleanLiteral(t, false)),
              BlockStatement(t, [ExpressionStatement(t, Some(IntegerLiteral(t, 10)))]), None)))
            == Value(Some(Null))
  {
    var ie := IfExpression(t, Some(BooleanLiteral(t, false)),
      BlockStatement(t, [ExpressionStatement(t, Some(IntegerLiteral(t, 10)))]), None);
    assert EvalExpression(ie.condition) == Value(Some(Boolean(false)));
    assert EvalIf(ie) == Value(Some(Null));
  }
}
