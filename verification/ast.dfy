/** The syntax tree the parser builds and the evaluator walks. A field the
    parser may leave nil is an `Option`. */
module Ast {
  import opened Wrappers
  import opened Int64
  import opened Token

  datatype Identifier = Identifier(token: Token, value: string)

  datatype Expression =
    | Ident(id: Identifier)
    | IntegerLiteral(token: Token, value: Int64)
    | PrefixExpression(token: Token, operator: string, right: Option<Expression>)
    | InfixExpression(token: Token, left: Option<Expression>, operator: string, right: Option<Expression>)
    | BooleanLiteral(token: Token, flag: bool)
    | IfExpression(token: Token, condition: Option<Expression>, consequence: BlockStatement,
                   alternative: Option<BlockStatement>)
    | FunctionLiteral(token: Token, parameters: seq<Identifier>, body: BlockStatement)
    | StringLiteral(token: Token, text: string)
    | ArrayLiteral(token: Token, elements: seq<Option<Expression>>)
    | CallExpression(token: Token, callee: Option<Expression>, arguments: seq<Option<Expression>>)
    | IndexExpression(token: Token, collection: Option<Expression>, index: Option<Expression>)

  /** A statement. `MissingLet` is a nil `*LetStatement` held in a statement
      interface: what a let statement that failed to parse is returned as. */
  datatype Statement =
    | LetStatement(token: Token, name: Identifier, value: Option<Expression>)
    | MissingLet
    | ReturnStatement(token: Token, returnValue: Option<Expression>)
    | ExpressionStatement(token: Token, expression: Option<Expression>)

  datatype BlockStatement = BlockStatement(token: Token, statements: seq<Statement>)

  datatype Program = Program(statements: seq<Statement>)
}
