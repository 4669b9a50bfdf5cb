/** Token types, tokens and keyword lookup. In the Go code a token type is a
    string constant; the model gives each constant a datatype constructor and
    keeps the string it stands for in `TypeName`. */
module Token {
  import opened Wrappers

  datatype TokenType =
    | Illegal | EOF
    | Identifier | Int | String
    | Assign | Plus | Minus | Bang | Asterisk | Slash | Equal | NotEqual
    | LessThan | GreaterThan
    | Comma | Semicolon | Colon
    | LeftParen | RightParen | LeftBrace | RightBrace | LeftBracket | RightBracket
    | Function | Let | True | False | If | Else | Return

  /** A token: its type and the source text it was read from. */
  datatype Token = Token(tokenType: TokenType, literal: string)

  /** The string value of each token-type constant. */
  function TypeName(t: TokenType): string {
    match t
    case Illegal => "Illegal"
    case EOF => "EOF"
    case Identifier => "Identifier"
    case Int => "Int"
    case String => "String"
    case Assign => "="
    case Plus => "+"
    case Minus => "-"
    case Bang => "!"
    case Asterisk => "*"
    case Slash => "/"
    case Equal => "=="
    case NotEqual => "!="
    case LessThan => "<"
    case GreaterThan => ">"
    case Comma => ","
    case Semicolon => ";"
    case Colon => ":"
    case LeftParen => "("
    case RightParen => ")"
    case LeftBrace => "{"
    case RightBrace => "}"
    case LeftBracket => "["
    case RightBracket => "]"
    case Function => "Function"
    case Let => "Let"
    case True => "True"
    case False => "False"
    case If => "If"
    case Else => "Else"
    case Return => "Return"
  }

  /** The token type whose constant string has the given length and first
      character. No two constants agree on both, so this identifies them. */
  function TypeFromKey(length: nat, first: char): Option<TokenType> {
    if length == 7 && first == 'I' then Some(Illegal)
    else if length == 3 && first == 'E' then Some(EOF)
    else if length == 10 && first == 'I' then Some(Identifier)
    else if length == 3 && first == 'I' then Some(Int)
    else if length == 6 && first == 'S' then Some(String)
    else if length == 1 && first == '=' then Some(Assign)
    else if length == 1 && first == '+' then Some(Plus)
    else if length == 1 && first == '-' then Some(Minus)
    else if length == 1 && first == '!' then Some(Bang)
    else if length == 1 && first == '*' then Some(Asterisk)
    else if length == 1 && first == '/' then Some(Slash)
    else if length == 2 && first == '=' then Some(Equal)
    else if length == 2 && first == '!' then Some(NotEqual)
    else if length == 1 && first == '<' then Some(LessThan)
    else if length == 1 && first == '>' then Some(GreaterThan)
    else if length == 1 && first == ',' then Some(Comma)
    else if length == 1 && first == ';' then Some(Semicolon)
    else if length == 1 && first == ':' then Some(Colon)
    else if length == 1 && first == '(' then Some(LeftParen)
    else if length == 1 && first == ')' then Some(RightParen)
    else if length == 1 && first == '{' then Some(LeftBrace)
    else if length == 1 && first == '}' then Some(RightBrace)
    else if length == 1 && first == '[' then Some(LeftBracket)
    else if length == 1 && first == ']' then Some(RightBracket)
    else if length == 8 && first == 'F' then Some(Function)
    else if length == 3 && first == 'L' then Some(Let)
    else if length == 4 && first == 'T' then Some(True)
    else if length == 5 && first == 'F' then Some(False)
    else if length == 2 && first == 'I' then Some(If)
    else if length == 4 && first == 'E' then Some(Else)
    else if length == 6 && first == 'R' then Some(Return)
    else None
  }

  /** Every constant's string is identified by its length and first character,
      so no two token types share a string value. */
  lemma TypeNamesDistinct(a: TokenType, b: TokenType)
    ensures |TypeName(a)| > 0 && TypeFromKey(|TypeName(a)|, TypeName(a)[0]) == Some(a)
    ensures TypeName(a) == TypeName(b) ==> a == b
  {
    KeyOfName(a);
    KeyOfName(b);
  }

  lemma KeyOfName(a: TokenType)
    ensures |TypeName(a)| > 0 && TypeFromKey(|TypeName(a)|, TypeName(a)[0]) == Some(a)
  {
    if a.Illegal? || a.EOF? || a.Identifier? || a.Int? || a.String? {
      KeyOfLiterals(a);
    } else if a.Assign? || a.Plus? || a.Minus? || a.Bang? || a.Asterisk? || a.Slash? || a.Equal? || a.NotEqual? || a.LessThan? || a.GreaterThan? {
      KeyOfOperators(a);
    } else if a.Comma? || a.Semicolon? || a.Colon? || a.LeftParen? || a.RightParen? || a.LeftBrace? || a.RightBrace? || a.LeftBracket? || a.RightBracket? {
      KeyOfDelimiters(a);
    } else if a.Function? || a.Let? || a.True? || a.False? || a.If? || a.Else? || a.Return? {
      KeyOfKeywords(a);
    }
  }

  lemma KeyOfLiterals(a: TokenType)
    requires a.Illegal? || a.EOF? || a.Identifier? || a.Int? || a.String?
    ensures |TypeName(a)| > 0 && TypeFromKey(|TypeName(a)|, TypeName(a)[0]) == Some(a)
  {
  }

  lemma KeyOfOperators(a: TokenType)
    requires a.Assign? || a.Plus? || a.Minus? || a.Bang? || a.Asterisk? || a.Slash? || a.Equal? || a.NotEqual? || a.LessThan? || a.GreaterThan?
    ensures |TypeName(a)| > 0 && TypeFromKey(|TypeName(a)|, TypeName(a)[0]) == Some(a)
  {
  }

  lemma KeyOfDelimiters(a: TokenType)
    requires a.Comma? || a.Semicolon? || a.Colon? || a.LeftParen? || a.RightParen? || a.LeftBrace? || a.RightBrace? || a.LeftBracket? || a.RightBracket?
    ensures |TypeName(a)| > 0 && TypeFromKey(|TypeName(a)|, TypeName(a)[0]) == Some(a)
  {
  }

  lemma KeyOfKeywords(a: TokenType)
    requires a.Function? || a.Let? || a.True? || a.False? || a.If? || a.Else? || a.Return?
    ensures |TypeName(a)| > 0 && TypeFromKey(|TypeName(a)|, TypeName(a)[0]) == Some(a)
  {
  }

  /** The keywords and the token types they read as. */
  const Keywords: map<string, TokenType> := map[
    "fn" := Function,
    "let" := Let,
    "true" := True,
    "false" := False,
    "if" := If,
    "else" := Else,
    "return" := Return]

  predicate IsKeywordType(t: TokenType) {
    t.Function? || t.Let? || t.True? || t.False? || t.If? || t.Else? || t.Return?
  }

  /** The type of a word read by the lexer: its keyword type when it is one of
      the keywords, compared exactly, and `Identifier` otherwise. */
  function LookupIdentifierType(identifier: string): (t: TokenType)
    ensures identifier in Keywords ==> t == Keywords[identifier]
    ensures identifier !in Keywords ==> t == Identifier
  {
    if identifier in Keywords then Keywords[identifier] else Identifier
  }

  /** The result is `Identifier` or a keyword type, and a keyword type exactly
      when the word is a keyword. */
  lemma LookupIdentifierTypeRange(identifier: string)
    ensures LookupIdentifierType(identifier) == Identifier || IsKeywordType(LookupIdentifierType(identifier))
    ensures IsKeywordType(LookupIdentifierType(identifier)) <==> identifier in Keywords
  {
  }

  /** The seven keywords read as their own token types. */
  lemma KeywordExamples()
    ensures LookupIdentifierType("fn") == Function && LookupIdentifierType("let") == Let
    ensures LookupIdentifierType("true") == True && LookupIdentifierType("false") == False
    ensures LookupIdentifierType("if") == If && LookupIdentifierType("else") == Else
    ensures LookupIdentifierType("return") == Return
  {
    FirstKeywords();
    LastKeywords();
  }

  lemma FirstKeywords()
    ensures LookupIdentifierType("fn") == Function && LookupIdentifierType("let") == Let
    ensures LookupIdentifierType("true") == True
  {
  }

  lemma LastKeywords()
    ensures LookupIdentifierType("false") == False && LookupIdentifierType("if") == If
    ensures LookupIdentifierType("else") == Else && LookupIdentifierType("return") == Return
  {
  }

  /** Keywords are matched exactly: an upper-case spelling is an identifier. */
  lemma CaseSensitiveKeywords()
    ensures LookupIdentifierType("Let") == Identifier
  {
  }
}
