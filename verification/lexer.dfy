/** The lexer: a cursor over the bytes of the input that hands out one token
    per call. The pure functions below say which token the cursor produces
    from a given position; the `Lexer` class moves the cursor the way the Go
    code does and is proved to follow them. */
module Lexer {
  import opened Bytes
  import opened Token

  /** The byte Go's `peekChar` reports past the end of the input. A zero byte
      inside the input reads the same way. */
  const NUL: Char8 := 0 as char

  /** The byte at `p`, or NUL at and past the end. */
  function CharAt(input: ByteString, p: nat): Char8 {
    if p < |input| then input[p] else NUL
  }

  predicate IsLetter(c: char) {
    'a' <= c <= 'z' || 'A' <= c <= 'Z' || c == '_'
  }

  predicate IsDigit(c: char) {
    '0' <= c <= '9'
  }

  predicate IsWhitespace(c: char) {
    c == ' ' || c == '\t' || c == '\n' || c == '\r'
  }

  /** The three kinds of runs the lexer reads in a loop. */
  datatype CharClass = Letters | Digits | Spaces

  predicate InClass(c: char, cls: CharClass) {
    match cls
    case Letters => IsLetter(c)
    case Digits => IsDigit(c)
    case Spaces => IsWhitespace(c)
  }

  /** Where the longest run of `cls` bytes starting at `p` ends. */
  function RunEnd(input: ByteString, p: nat, cls: CharClass): (e: nat)
    ensures p <= e && (e == p || e <= |input|)
    ensures forall k :: p <= k < e ==> InClass(CharAt(input, k), cls)
    ensures !InClass(CharAt(input, e), cls)
    decreases |input| - p
  {
    if p < |input| && InClass(input[p], cls) then RunEnd(input, p + 1, cls) else p
  }

  /** The bytes that form a token on their own, and their token types. */
  const SingleChars: map<char, TokenType> := map[
    '+' := Plus, '-' := Minus, '*' := Asterisk, '/' := Slash,
    '<' := LessThan, '>' := GreaterThan, ',' := Comma, ';' := Semicolon,
    '(' := LeftParen, ')' := RightParen, '{' := LeftBrace, '}' := RightBrace]

  /** `newToken`: a token whose literal is `string(ch)`, the UTF-8 text of
      the byte it was read from; for an ASCII byte that is the byte itself. */
  function NewToken(t: TokenType, c: Char8): (tok: Token)
    ensures tok.tokenType == t && RuneValue(tok.literal) == c as int
    ensures c as int < 0x80 ==> tok.literal == [c]
  {
    Token(t, RuneOfByte(c))
  }

  /** The token that starts at `q`, where no whitespace is, and the position
      right after it. */
  function ScanToken(input: ByteString, q: nat): (Token, nat) {
    var c := CharAt(input, q);
    if c == '=' then
      if CharAt(input, q + 1) == '=' then (Token(Equal, "=="), q + 2) else (NewToken(Assign, c), q + 1)
    else if c == '!' then
      if CharAt(input, q + 1) == '=' then (Token(NotEqual, "!="), q + 2) else (NewToken(Bang, c), q + 1)
    else if c in SingleChars then (NewToken(SingleChars[c], c), q + 1)
    else if c == NUL then (Token(EOF, ""), q + 1)
    else if IsLetter(c) then
      var e := RunEnd(input, q, Letters);
      (Token(LookupIdentifierType(input[q..e]), input[q..e]), e)
    else if IsDigit(c) then
      var e := RunEnd(input, q, Digits);
      (Token(Int, input[q..e]), e)
    else (NewToken(Illegal, c), q + 1)
  }

  /** `NextToken` from cursor position `p`: whitespace is skipped, then one
      token is read. */
  function Scan(input: ByteString, p: nat): (Token, nat) {
    ScanToken(input, RunEnd(input, p, Spaces))
  }

  /** The tokens from position `p` on, up to and including the first EOF. */
  function TokensFrom(input: ByteString, p: nat): (toks: seq<Token>)
    decreases |input| + 1 - p
  {
    var (tok, next) := Scan(input, p);
    ScanProgress(input, p);
    if tok.tokenType == EOF then [tok] else [tok] + TokensFrom(input, next)
  }

  /** Every token consumes at least one byte after the whitespace; EOF is read
      exactly where a NUL byte or the end is; the literal of every other
      token but `Illegal` is exactly the bytes it consumed, and an `Illegal`
      token consumes one byte and spells it in UTF-8. */
  lemma ScanProgress(input: ByteString, p: nat)
    ensures var (tok, next) := Scan(input, p);
      var q := RunEnd(input, p, Spaces);
      p <= q < next
      && (tok.tokenType == EOF <==> CharAt(input, q) == NUL)
      && (tok.tokenType != EOF && tok.tokenType != Illegal ==> next <= |input| && tok.literal == input[q..next])
      && (tok.tokenType == Illegal ==> next == q + 1 <= |input| && tok.literal == RuneOfByte(input[q]))
  {
    var q := RunEnd(input, p, Spaces);
    ScanTokenProgress(input, q);
  }

  lemma ScanTokenProgress(input: ByteString, q: nat)
    ensures var (tok, next) := ScanToken(input, q);
      q < next
      && (tok.tokenType == EOF <==> CharAt(input, q) == NUL)
      && (tok.tokenType != EOF && tok.tokenType != Illegal ==> next <= |input| && tok.literal == input[q..next])
      && (tok.tokenType == Illegal ==> next == q + 1 <= |input| && tok.literal == RuneOfByte(input[q]))
  {
    var c := CharAt(input, q);
    var (tok, next) := ScanToken(input, q);
    if c == '=' || c == '!' {
      if CharAt(input, q + 1) == '=' {
        assert input[q..q + 2] == [c, '='];
      } else {
        assert input[q..q + 1] == [c];
      }
    } else if c in SingleChars {
      assert input[q..q + 1] == [c];
    } else if c == NUL {
    } else if IsLetter(c) || IsDigit(c) {
    } else {
      assert input[q..q + 1] == [c];
    }
  }

  /** A run that starts with a byte of its class ends where the run from the
      next byte ends; one that does not is empty. */
  lemma RunEndStep(input: ByteString, p: nat, cls: CharClass)
    ensures InClass(CharAt(input, p), cls) ==> RunEnd(input, p, cls) == RunEnd(input, p + 1, cls)
    ensures !InClass(CharAt(input, p), cls) ==> RunEnd(input, p, cls) == p
  {
    assert !InClass(NUL, cls);
  }

  /** A run ends at the first byte outside its class: any `e` with only class
      bytes before it and none at it is where the run ends. */
  lemma {:induction false} RunEndIs(input: ByteString, p: nat, e: nat, cls: CharClass)
    requires p <= e
    requires forall k :: p <= k < e ==> InClass(CharAt(input, k), cls)
    requires !InClass(CharAt(input, e), cls)
    ensures RunEnd(input, p, cls) == e
    decreases e - p
  {
    RunEndStep(input, p, cls);
    if p < e {
      RunEndIs(input, p + 1, e, cls);
    }
  }

  /** Whitespace in front of a token changes nothing about the token. */
  lemma SkipsWhitespace(input: ByteString, p: nat)
    requires IsWhitespace(CharAt(input, p))
    ensures Scan(input, p) == Scan(input, p + 1)
  {
    RunEndStep(input, p, Spaces);
  }

  /** At and past the end the lexer reads EOF with an empty literal, and the
      position after it is past the end again, so EOF repeats forever. */
  lemma EofForever(input: ByteString, p: nat)
    requires p >= |input|
    ensures Scan(input, p) == (Token(EOF, ""), p + 1)
    ensures Scan(input, Scan(input, p).1).0 == Token(EOF, "")
  {
    RunEndStep(input, p, Spaces);
    RunEndStep(input, p + 1, Spaces);
  }

  /** `=` and `!` followed by `=` read as the two-byte operators `==` and `!=`;
      followed by anything else they read as `=` and `!` alone. */
  lemma TwoByteOperators(input: ByteString, q: nat)
    requires CharAt(input, q) == '=' || CharAt(input, q) == '!'
    ensures var (tok, next) := ScanToken(input, q);
      var two := CharAt(input, q + 1) == '=';
      (tok.tokenType == Equal <==> CharAt(input, q) == '=' && two)
      && (tok.tokenType == Assign <==> CharAt(input, q) == '=' && !two)
      && (tok.tokenType == NotEqual <==> CharAt(input, q) == '!' && two)
      && (tok.tokenType == Bang <==> CharAt(input, q) == '!' && !two)
      && next == if two then q + 2 else q + 1
  {
  }

  /** A letter starts a word that runs to the end of the letters. */
  lemma ScanWord(input: ByteString, q: nat)
    requires IsLetter(CharAt(input, q))
    ensures var e := RunEnd(input, q, Letters);
      q < e <= |input| && ScanToken(input, q) == (Token(LookupIdentifierType(input[q..e]), input[q..e]), e)
  {
    RunEndStep(input, q, Letters);
    assert CharAt(input, q) !in SingleChars;
  }

  /** A digit starts a number that runs to the end of the digits. */
  lemma ScanNumber(input: ByteString, q: nat)
    requires IsDigit(CharAt(input, q))
    ensures var e := RunEnd(input, q, Digits);
      q < e <= |input| && ScanToken(input, q) == (Token(Int, input[q..e]), e)
  {
    RunEndStep(input, q, Digits);
    assert CharAt(input, q) !in SingleChars;
  }

  /** A word is the longest run of letters from where it starts; its type is
      what keyword lookup says of exactly those bytes. */
  lemma WordsAreMaximal(input: ByteString, q: nat)
    requires IsLetter(CharAt(input, q))
    ensures var (tok, next) := ScanToken(input, q);
      q < next <= |input| && tok.literal == input[q..next]
      && (forall k :: q <= k < next ==> IsLetter(input[k]))
      && !IsLetter(CharAt(input, next))
      && tok.tokenType == LookupIdentifierType(tok.literal)
  {
    ScanWord(input, q);
    var e := RunEnd(input, q, Letters);
    forall k | q <= k < e
      ensures IsLetter(input[k])
    {
      assert InClass(CharAt(input, k), Letters);
    }
  }

  /** A number is the longest run of digits from where it starts, of type `Int`. */
  lemma NumbersAreMaximal(input: ByteString, q: nat)
    requires IsDigit(CharAt(input, q))
    ensures var (tok, next) := ScanToken(input, q);
      q < next <= |input| && tok.literal == input[q..next]
      && (forall k :: q <= k < next ==> IsDigit(input[k]))
      && !IsDigit(CharAt(input, next))
      && tok.tokenType == Int
  {
    ScanNumber(input, q);
    var e := RunEnd(input, q, Digits);
    forall k | q <= k < e
      ensures IsDigit(input[k])
    {
      assert InClass(CharAt(input, k), Digits);
    }
  }

  /** A byte that starts no token (brackets, quotes, colons and every byte
      from 0x80 on among them) reads as `Illegal`, and the lexer moves on by
      exactly one byte. The literal is the byte for ASCII, and its two-byte
      UTF-8 encoding otherwise. */
  lemma IllegalBytes(input: ByteString, q: nat)
    requires var c := CharAt(input, q);
      c != '=' && c != '!' && c !in SingleChars && c != NUL && !IsLetter(c) && !IsDigit(c)
    ensures ScanToken(input, q) == (Token(Illegal, RuneOfByte(CharAt(input, q))), q + 1)
    ensures CharAt(input, q) as int < 0x80 ==> ScanToken(input, q).0.literal == [CharAt(input, q)]
    ensures CharAt(input, q) as int >= 0x80 ==> |ScanToken(input, q).0.literal| == 2
  {
  }

  lemma BracketsAreIllegal(input: ByteString, q: nat)
    requires CharAt(input, q) in "[]\":"
    ensures ScanToken(input, q) == (Token(Illegal, [CharAt(input, q)]), q + 1)
  {
    IllegalBytes(input, q);
  }

  /** The stream from a position where a token other than EOF is read is that
      token followed by the stream after it. */
  lemma TokensStep(input: ByteString, p: nat)
    requires Scan(input, p).0.tokenType != EOF
    ensures TokensFrom(input, p) == [Scan(input, p).0] + TokensFrom(input, Scan(input, p).1)
  {
  }

  /** The stream from where EOF is read ends with it. */
  lemma TokensEnd(input: ByteString, p: nat)
    requires Scan(input, p).0.tokenType == EOF
    ensures TokensFrom(input, p) == [Scan(input, p).0]
  {
  }

  /** Reads tokens until EOF, as the lexer tests do: the stream `TokensFrom`
      describes, ending with the first EOF. */
  method Lex(input: ByteString) returns (toks: seq<Token>)
    ensures toks == TokensFrom(input, 0)
    ensures |toks| > 0 && toks[|toks| - 1].tokenType == EOF
    ensures forall k :: 0 <= k < |toks| - 1 ==> toks[k].tokenType != EOF
  {
    var l := new Lexer(input);
    ghost var prev := 0;
    toks := [];
    var tok := l.NextToken();
    while tok.tokenType != EOF
      invariant l.Valid() && l.input == input
      invariant (tok, l.position) == Scan(input, prev)
      invariant toks + TokensFrom(input, prev) == TokensFrom(input, 0)
      invariant forall k :: 0 <= k < |toks| ==> toks[k].tokenType != EOF
      decreases |input| + 1 - prev
    {
      ScanProgress(input, prev);
      TokensStep(input, prev);
      AppendStep(toks, tok, TokensFrom(input, l.position), TokensFrom(input, 0));
      toks := toks + [tok];
      prev := l.position;
      tok := l.NextToken();
    }
    TokensEnd(input, prev);
    toks := toks + [tok];
  }

  lemma AppendStep<T>(done: seq<T>, x: T, rest: seq<T>, whole: seq<T>)
    requires done + ([x] + rest) == whole
    ensures (done + [x]) + rest == whole
  {
  }

  /** The first line of the lexer test, `let five = 5;`, reads as a keyword,
      an identifier, `=`, a number and `;`, then EOF. */
  lemma LexExample(input: ByteString)
    requires input == "let five = 5;"
    ensures TokensFrom(input, 0) == [Token(Let, "let"), Token(Identifier, "five"), Token(Assign, "="),
                                     Token(Int, "5"), Token(Semicolon, ";"), Token(EOF, "")]
  {
    ExampleLet(input);
    ExampleFive(input);
    ExampleAssign(input);
    ExampleNumber(input);
    ExampleSemicolon(input);
    ExampleEnd(input);
    ExampleStreamTail(input);
    ExampleStream(input);
  }

  /** The stream of the example, from the scans of its first two tokens and
      the stream after them. */
  lemma ExampleStream(input: ByteString)
    requires Scan(input, 0) == (Token(Let, "let"), 3)
    requires Scan(input, 3) == (Token(Identifier, "five"), 8)
    requires TokensFrom(input, 8) == [Token(Assign, "="), Token(Int, "5"), Token(Semicolon, ";"), Token(EOF, "")]
    ensures TokensFrom(input, 0) == [Token(Let, "let"), Token(Identifier, "five"), Token(Assign, "="),
                                     Token(Int, "5"), Token(Semicolon, ";"), Token(EOF, "")]
  {
    var r := [Token(Assign, "="), Token(Int, "5"), Token(Semicolon, ";"), Token(EOF, "")];
    TokensCons(input, 3, 8, r);
    TokensCons(input, 0, 3, [Token(Identifier, "five")] + r);
  }

  lemma ExampleStreamTail(input: ByteString)
    requires Scan(input, 8) == (Token(Assign, "="), 10)
    requires Scan(input, 10) == (Token(Int, "5"), 12)
    requires Scan(input, 12) == (Token(Semicolon, ";"), 13)
    requires Scan(input, 13) == (Token(EOF, ""), 14)
    ensures TokensFrom(input, 8) == [Token(Assign, "="), Token(Int, "5"), Token(Semicolon, ";"), Token(EOF, "")]
  {
    var r := [Token(EOF, "")];
    TokensEnd(input, 13);
    TokensCons(input, 12, 13, r);
    TokensCons(input, 10, 12, [Token(Semicolon, ";")] + r);
    TokensCons(input, 8, 10, [Token(Int, "5"), Token(Semicolon, ";")] + r);
  }

  /** The stream from a token that is not EOF is that token in front of the
      stream from where it ends. */
  lemma TokensCons(input: ByteString, p: nat, next: nat, rest: seq<Token>)
    requires Scan(input, p).0.tokenType != EOF && Scan(input, p).1 == next
    requires TokensFrom(input, next) == rest
    ensures TokensFrom(input, p) == [Scan(input, p).0] + rest
  {
    TokensStep(input, p);
  }

  lemma ExampleLet(input: ByteString)
    requires input == "let five = 5;"
    ensures Scan(input, 0) == (Token(Let, "let"), 3)
  {
    WordAt(input, 0, 0, 3);
    var w := input[0..3];
    assert w == "let";
    FirstKeywords();
  }

  lemma ExampleFive(input: ByteString)
    requires input == "let five = 5;"
    ensures Scan(input, 3) == (Token(Identifier, "five"), 8)
  {
    WordAt(input, 3, 4, 8);
    var w := input[4..8];
    assert w == "five";
    FiveIsNoKeyword(w);
  }

  /** Whitespace from `p` to `q` and letters from `q` to `e` read as a word. */
  lemma WordAt(input: ByteString, p: nat, q: nat, e: nat)
    requires p <= q < e
    requires forall k :: p <= k < q ==> IsWhitespace(CharAt(input, k))
    requires forall k :: q <= k < e ==> IsLetter(CharAt(input, k))
    requires !IsWhitespace(CharAt(input, q)) && !IsLetter(CharAt(input, e))
    ensures e <= |input| && Scan(input, p) == (Token(LookupIdentifierType(input[q..e]), input[q..e]), e)
  {
    RunEndIs(input, p, q, Spaces);
    RunEndIs(input, q, e, Letters);
    ScanWord(input, q);
  }

  lemma FiveIsNoKeyword(w: string)
    requires w == "five"
    ensures LookupIdentifierType(w) == Identifier
  {
  }

  lemma ExampleAssign(input: ByteString)
    requires input == "let five = 5;"
    ensures Scan(input, 8) == (Token(Assign, "="), 10)
  {
    RunEndStep(input, 8, Spaces);
    RunEndStep(input, 9, Spaces);
  }

  lemma ExampleNumber(input: ByteString)
    requires input == "let five = 5;"
    ensures Scan(input, 10) == (Token(Int, "5"), 12)
  {
    RunEndStep(input, 10, Spaces);
    RunEndStep(input, 11, Spaces);
    ScanNumber(input, 11);
    RunEndStep(input, 11, Digits);
    RunEndStep(input, 12, Digits);
    assert input[11..12] == "5";
  }

  lemma ExampleSemicolon(input: ByteString)
    requires input == "let five = 5;"
    ensures Scan(input, 12) == (Token(Semicolon, ";"), 13)
  {
    RunEndStep(input, 12, Spaces);
  }

  lemma ExampleEnd(input: ByteString)
    requires input == "let five = 5;"
    ensures Scan(input, 13) == (Token(EOF, ""), 14)
  {
    EofForever(input, 13);
  }

  /** The cursor of the Go lexer: the input, the position of the current byte,
      the position of the next one and the current byte itself. */
  class Lexer {
    const input: ByteString
    var position: nat
    var nextPosition: nat
    var ch: Char8

    /** The cursor is one step behind `nextPosition` and `ch` is the byte at
        the cursor, NUL past the end. */
    ghost predicate Valid()
      reads this
    {
      nextPosition == position + 1 && ch == CharAt(input, position)
    }

    /** `New`: the cursor starts on the first byte, or on NUL for empty input. */
    constructor (input: ByteString)
      ensures Valid() && this.input == input && position == 0
      ensures ch == if input == [] then NUL else input[0]
    {
      this.input := input;
      position := 0;
      nextPosition := 0;
      ch := NUL;
      new;
      ReadChar();
    }

    /** The byte after the cursor, or NUL at and past the end: it never
        indexes outside the input. */
    function PeekChar(): (c: Char8)
      reads this
      ensures nextPosition < |input| ==> c == input[nextPosition]
      ensures nextPosition >= |input| ==> c == NUL
    {
      if nextPosition >= |input| then NUL else input[nextPosition]
    }

    /** Moves the cursor one byte on. */
    method ReadChar()
      modifies this
      ensures position == old(nextPosition) && nextPosition == position + 1
      ensures ch == CharAt(input, position) && Valid()
    {
      ch := PeekChar();
      position := nextPosition;
      nextPosition := nextPosition + 1;
    }

    method SkipWhitespace()
      requires Valid()
      modifies this
      ensures Valid() && position == RunEnd(input, old(position), Spaces)
    {
      while IsWhitespace(ch)
        invariant Valid() && old(position) <= position
        invariant RunEnd(input, position, Spaces) == RunEnd(input, old(position), Spaces)
        decreases |input| - position
      {
        RunEndStep(input, position, Spaces);
        ReadChar();
      }
      RunEndStep(input, position, Spaces);
    }

    /** Reads the letters from the cursor on and returns them. */
    method ReadIdentifier() returns (s: ByteString)
      requires Valid() && position <= |input|
      modifies this
      ensures Valid() && position == RunEnd(input, old(position), Letters)
      ensures s == input[old(position)..position]
    {
      var pos := position;
      while IsLetter(ch)
        invariant Valid() && pos <= position <= |input|
        invariant RunEnd(input, position, Letters) == RunEnd(input, pos, Letters)
        decreases |input| - position
      {
        RunEndStep(input, position, Letters);
        ReadChar();
      }
      RunEndStep(input, position, Letters);
      s := input[pos..position];
    }

    /** Reads the digits from the cursor on and returns them. */
    method ReadNumber() returns (s: ByteString)
      requires Valid() && position <= |input|
      modifies this
      ensures Valid() && position == RunEnd(input, old(position), Digits)
      ensures s == input[old(position)..position]
    {
      var pos := position;
      while IsDigit(ch)
        invariant Valid() && pos <= position <= |input|
        invariant RunEnd(input, position, Digits) == RunEnd(input, pos, Digits)
        decreases |input| - position
      {
        RunEndStep(input, position, Digits);
        ReadChar();
      }
      RunEndStep(input, position, Digits);
      s := input[pos..position];
    }

    /** `NextToken`: skips whitespace, reads one token and leaves the cursor
        on the byte after it. */
    method NextToken() returns (tok: Token)
      requires Valid()
      modifies this
      ensures Valid() && (tok, position) == Scan(input, old(position))
    {
      SkipWhitespace();
      tok := ReadToken();
    }

    /** The switch of `NextToken`, from a cursor with no whitespace under it. */
    method ReadToken() returns (tok: Token)
      requires Valid()
      modifies this
      ensures Valid() && (tok, position) == ScanToken(input, old(position))
    {
      ghost var q := position;
      if ch == '=' {
        if PeekChar() == '=' {
          var c := ch;
          ReadChar();
          tok := Token(Equal, [c] + [ch]);
          assert tok == Token(Equal, "==");
        } else {
          tok := NewToken(Assign, ch);
        }
      } else if ch == '!' {
        if PeekChar() == '=' {
          var c := ch;
          ReadChar();
          tok := Token(NotEqual, [c] + [ch]);
          assert tok == Token(NotEqual, "!=");
        } else {
          tok := NewToken(Bang, ch);
        }
      } else if ch in SingleChars {
        tok := NewToken(SingleChars[ch], ch);
      } else if ch == NUL {
        tok := Token(EOF, "");
      } else if IsLetter(ch) {
        ScanWord(input, position);
        var literal := ReadIdentifier();
        tok := Token(LookupIdentifierType(literal), literal);
        return;
      } else if IsDigit(ch) {
        ScanNumber(input, position);
        var literal := ReadNumber();
        tok := Token(Int, literal);
        return;
      } else {
        tok := NewToken(Illegal, ch);
      }
      assert ScanToken(input, q) == (tok, position + 1);
      ReadChar();
    }
  }
}
