/**
 The scanner of the C front end. `Scan` says what one call of `Lexer.Next` returns and what input it
 leaves; `Lex` is the token list the driver loop collects. Character classes are those of the "C"
 locale: characters outside ASCII belong to none of them.
 */
module Lexing {
  import opened Sequences
  import opened Wrappers

  datatype TokenType = Identifier | ConstantNumberLiteral | Keyword | Symbol | EndOfFile

  datatype Token = Token(kind: TokenType, text: string)

  datatype LexerError = InvalidCharacter(c: char)

  const KEYWORDS: set<string> :=
    {"int", "long", "bool", "short", "float", "double", "return", "if", "else", "while", "for", "void"}

  const SYMBOLS: set<char> :=
    {'+', '-', '*', '/', '=', ';', '(', ')', '{', '}', '[', ']', '<', '>', ',', '.', '&', '|', '^', '!', '~', '%',
     '?', ':', '#'}

  // ---------- Character classes ----------

  predicate IsSpace(c: char) {
    c == ' ' || 9 <= c as int <= 13
  }

  predicate IsDigit(c: char) {
    '0' <= c <= '9'
  }

  predicate IsAlpha(c: char) {
    'a' <= c <= 'z' || 'A' <= c <= 'Z'
  }

  predicate StartsWord(c: char) {
    IsAlpha(c) || c == '_'
  }

  predicate IsDigitForBase(c: char, base: int) {
    if base == 2 then c == '0' || c == '1'
    else if base == 8 then '0' <= c <= '7'
    else if base == 10 then IsDigit(c)
    else if base == 16 then IsDigit(c) || 'a' <= c <= 'f' || 'A' <= c <= 'F'
    else false
  }

  datatype CharClass = Space | Word | DigitOf(base: int) | Suffix

  predicate In(k: CharClass, c: char) {
    match k
    case Space => IsSpace(c)
    case Word => StartsWord(c) || IsDigit(c)
    case DigitOf(base) => IsDigitForBase(c, base)
    case Suffix => c in {'u', 'U', 'l', 'L', 'f', 'F'}
  }

  predicate AllIn(t: string, k: CharClass) {
    forall i | 0 <= i < |t| :: In(k, t[i])
  }

  // ---------- One token ----------

  /** The end of the longest run of class `k` from `i` on. */
  function SpanEnd(t: string, i: nat, k: CharClass): (e: nat)
    requires i <= |t|
    ensures i <= e <= |t|
    ensures forall j | i <= j < e :: In(k, t[j])
    ensures e < |t| ==> !In(k, t[e])
    decreases |t| - i
  {
    if i < |t| && In(k, t[i]) then SpanEnd(t, i + 1, k) else i
  }

  predicate IsHexMark(c: char) { c == 'x' || c == 'X' }
  predicate IsBinaryMark(c: char) { c == 'b' || c == 'B' }
  predicate IsExponentMark(c: char) { c == 'e' || c == 'E' }
  predicate IsSign(c: char) { c == '+' || c == '-' }

  function BodyEnd(t: string): (e: nat)
    requires t != ""
    ensures e <= |t|
  {
    if t[0] != '0' then SpanEnd(t, 0, DigitOf(10))
    else if 1 < |t| && IsHexMark(t[1]) then SpanEnd(t, 2, DigitOf(16))
    else if 1 < |t| && IsBinaryMark(t[1]) then SpanEnd(t, 2, DigitOf(2))
    else if 1 < |t| && IsDigit(t[1]) then SpanEnd(t, 1, DigitOf(8))
    else 1
  }

  function FractionEnd(t: string, i: nat): (e: nat)
    requires i <= |t|
    ensures i <= e <= |t|
  {
    if i < |t| && t[i] == '.' then SpanEnd(t, i + 1, DigitOf(10)) else i
  }

  function ExponentEnd(t: string, i: nat): (e: nat)
    requires i <= |t|
    ensures i <= e <= |t|
  {
    if i < |t| && IsExponentMark(t[i]) then
      if i + 1 < |t| && IsSign(t[i + 1]) then SpanEnd(t, i + 2, DigitOf(10)) else SpanEnd(t, i + 1, DigitOf(10))
    else i
  }

  function TailEnd(t: string, i: nat): (e: nat)
    requires i <= |t|
    ensures i <= e <= |t|
  {
    SpanEnd(t, ExponentEnd(t, FractionEnd(t, i)), Suffix)
  }

  predicate StartsNumber(t: string) {
    t != "" && (IsDigit(t[0]) || (t[0] == '.' && 1 < |t| && IsDigit(t[1])))
  }

  function NumberEnd(t: string): (e: nat)
    requires StartsNumber(t)
    ensures 0 < e <= |t|
  {
    TailEnd(t, BodyEnd(t))
  }

  function WordToken(text: string): Token {
    Token(if text in KEYWORDS then Keyword else Identifier, text)
  }

  /** The token at the start of `t`, if a token starts there. */
  function TokenOf(t: string): (r: Option<Token>)
    requires t != "" && !IsSpace(t[0])
    ensures r.Some? ==> r.value.text != "" && r.value.text <= t
  {
    if StartsWord(t[0]) then Some(WordToken(t[..SpanEnd(t, 0, Word)]))
    else if StartsNumber(t) then Some(Token(ConstantNumberLiteral, t[..NumberEnd(t)]))
    else if t[0] in SYMBOLS then Some(Token(Symbol, t[..1]))
    else None
  }

  datatype Scanned = Scanned(result: Result<Token, LexerError>, rest: string)

  const EOF := Token(EndOfFile, "")

  /** What one call returns on the remaining input `t`, and the input it leaves. */
  function Scan(t: string): (r: Scanned)
    ensures r.result == Ok(EOF) ==> r.rest == ""
    ensures r.result != Ok(EOF) ==> |r.rest| < |t|
  {
    var u := t[SpanEnd(t, 0, Space)..];
    if u == "" then Scanned(Ok(EOF), "")
    else match TokenOf(u)
         case Some(token) => Scanned(Ok(token), u[|token.text|..])
         case None => Scanned(Err(InvalidCharacter(u[0])), u[1..])
  }

  /** The token list of a whole input, without the end of file, or the first error. */
  function Lex(t: string): Result<seq<Token>, LexerError>
    decreases |t|
  {
    var s := Scan(t);
    match s.result
    case Err(e) => Err(e)
    case Ok(token) =>
      if token.kind == EndOfFile then Ok([])
      else Prepend([token], Lex(s.rest))
  }

  // ---------- The scanner object ----------

  class Lexer {
    const input: string
    var pos: nat

    ghost predicate Valid()
      reads this
    {
      pos <= |input|
    }

    ghost function Rest(): string
      requires Valid()
      reads this
    {
      input[pos..]
    }

    constructor (input: string)
      ensures Valid() && this.input == input && Rest() == input
    {
      this.input := input;
      pos := 0;
    }

    /** The loop that steps over a run of one character class. */
    method Skip(k: CharClass, ghost t: string, ghost from: nat)
      requires Valid() && from <= pos && t == input[from..]
      modifies `pos
      ensures Valid() && pos == from + SpanEnd(t, old(pos) - from, k)
    {
      while pos < |input| && In(k, input[pos])
        invariant from <= pos <= |input|
        invariant SpanEnd(t, pos - from, k) == SpanEnd(t, old(pos) - from, k)
      {
        pos := pos + 1;
      }
    }

    method Next() returns (r: Result<Token, LexerError>)
      requires Valid()
      modifies `pos
      ensures Valid()
      ensures r == Scan(old(Rest())).result && Rest() == Scan(old(Rest())).rest
      ensures pos > old(pos) || (r == Ok(EOF) && pos == |input|)
    {
      ghost var t := Rest();
      Skip(Space, t, pos);
      ghost var skipped := SpanEnd(t, 0, Space);
      assert Rest() == t[skipped..];
      if pos >= |input| {
        return Ok(EOF);
      }
      r := NextHere();
    }

    /** The token or error at a position that is not white space. */
    method NextHere() returns (r: Result<Token, LexerError>)
      requires Valid() && pos < |input| && !IsSpace(input[pos])
      modifies `pos
      ensures Valid() && pos > old(pos)
      ensures var u := old(Rest());
              match TokenOf(u)
              case Some(token) => r == Ok(token) && Rest() == u[|token.text|..]
              case None => r == Err(InvalidCharacter(u[0])) && Rest() == u[1..]
    {
      var c := input[pos];
      ghost var u := Rest();
      if StartsWord(c) {
        var token := WordHere();
        return Ok(token);
      }
      if IsDigit(c) || (c == '.' && pos + 1 < |input| && IsDigit(input[pos + 1])) {
        assert StartsNumber(u);
        var token := NumberHere();
        return Ok(token);
      }
      pos := pos + 1;
      assert Rest() == u[1..] && u[..1] == [c];
      if c in SYMBOLS {
        return Ok(Token(Symbol, [c]));
      }
      return Err(InvalidCharacter(c));
    }

    method WordHere() returns (token: Token)
      requires Valid() && pos < |input| && StartsWord(input[pos])
      modifies `pos
      ensures Valid() && pos > old(pos)
      ensures var u := old(Rest());
              token == WordToken(u[..SpanEnd(u, 0, Word)]) && Rest() == u[|token.text|..]
    {
      var start := pos;
      ghost var u := Rest();
      Skip(Word, u, start);
      var text := TextFrom(start, u);
      return Token(if text in KEYWORDS then Keyword else Identifier, text);
    }

    method NumberHere() returns (token: Token)
      requires Valid() && pos < |input| && StartsNumber(Rest())
      modifies `pos
      ensures Valid() && pos > old(pos)
      ensures var u := old(Rest());
              token == Token(ConstantNumberLiteral, u[..NumberEnd(u)]) && Rest() == u[|token.text|..]
    {
      var start := pos;
      ghost var u := Rest();
      Number(u);
      var text := TextFrom(start, u);
      return Token(ConstantNumberLiteral, text);
    }

    /** The text from `start` to the position. */
    method TextFrom(start: nat, ghost u: string) returns (text: string)
      requires Valid() && start <= pos && u == input[start..]
      ensures text == u[..pos - start] && Rest() == u[|text|..]
    {
      text := input[start..pos];
    }

    /** A whole numeral: its digits, and then fraction, exponent and suffix, each optional. */
    method Number(ghost u: string)
      requires Valid() && pos < |input| && u == Rest() && StartsNumber(u)
      modifies `pos
      ensures Valid() && pos == old(pos) + NumberEnd(u)
    {
      ghost var start := pos;
      NumberBody(u, start);
      NumberTail(u, start);
    }

    method NumberTail(ghost u: string, ghost start: nat)
      requires Valid() && start <= pos && u == input[start..]
      modifies `pos
      ensures Valid() && pos == start + TailEnd(u, old(pos) - start)
    {
      Fraction(u, start);
      Exponent(u, start);
      Skip(Suffix, u, start);
    }

    /** The digits of a numeral, in the base its first characters select. */
    method NumberBody(ghost u: string, ghost start: nat)
      requires Valid() && start == pos < |input| && u == input[start..]
      modifies `pos
      ensures Valid() && pos == start + BodyEnd(u)
    {
      if input[pos] == '0' {
        if pos + 1 < |input| && IsHexMark(input[pos + 1]) {
          pos := pos + 2;
          Skip(DigitOf(16), u, start);
        } else if pos + 1 < |input| && IsBinaryMark(input[pos + 1]) {
          pos := pos + 2;
          Skip(DigitOf(2), u, start);
        } else if pos + 1 < |input| && IsDigit(input[pos + 1]) {
          pos := pos + 1;
          Skip(DigitOf(8), u, start);
        } else {
          pos := pos + 1;
        }
      } else {
        Skip(DigitOf(10), u, start);
      }
    }

    method Fraction(ghost u: string, ghost start: nat)
      requires Valid() && start <= pos && u == input[start..]
      modifies `pos
      ensures Valid() && pos == start + FractionEnd(u, old(pos) - start)
    {
      if pos < |input| && input[pos] == '.' {
        pos := pos + 1;
        Skip(DigitOf(10), u, start);
      }
    }

    method Exponent(ghost u: string, ghost start: nat)
      requires Valid() && start <= pos && u == input[start..]
      modifies `pos
      ensures Valid() && pos == start + ExponentEnd(u, old(pos) - start)
    {
      if pos < |input| && IsExponentMark(input[pos]) {
        pos := pos + 1;
        if pos < |input| && IsSign(input[pos]) {
          pos := pos + 1;
        }
        Skip(DigitOf(10), u, start);
      }
    }
  }

  /** `tokens` followed by the tokens of `r`, unless `r` is an error. */
  function Prepend(tokens: seq<Token>, r: Result<seq<Token>, LexerError>): Result<seq<Token>, LexerError> {
    match r case Err(e) => Err(e) case Ok(more) => Ok(tokens + more)
  }

  lemma PrependTwice(a: seq<Token>, b: seq<Token>, r: Result<seq<Token>, LexerError>)
    ensures Prepend(a, Prepend(b, r)) == Prepend(a + b, r)
    ensures Prepend([], r) == r
  {
    if r.Ok? {
      Assoc(a, b, r.value);
      ConcatEmpty(r.value);
    }
  }

  /** At the end of the input nothing more is prepended to. */
  lemma PrependNone(tokens: seq<Token>)
    ensures Prepend(tokens, Ok([])) == Ok(tokens)
  {
    ConcatEmpty(tokens);
  }

  lemma LexStep(t: string)
    ensures match Scan(t).result
            case Err(e) => Lex(t) == Err(e)
            case Ok(token) => if token.kind == EndOfFile then Lex(t) == Ok([]) && token == EOF
                              else Lex(t) == Prepend([token], Lex(Scan(t).rest))
  {
  }

  /** The driver's tokenising loop: it ends on every input, at the end of file or at the first error. */
  method Tokenize(source: string) returns (r: Result<seq<Token>, LexerError>)
    ensures r == Lex(source)
  {
    var lexer := new Lexer(source);
    var tokens: seq<Token> := [];
    ghost var rest := source;
    PrependTwice([], [], Lex(source));
    while true
      invariant lexer.Valid() && lexer.input == source && lexer.Rest() == rest
      invariant Lex(source) == Prepend(tokens, Lex(rest))
      decreases |rest|
    {
      LexStep(rest);
      var re := lexer.Next();
      match re
      case Err(e) => return Err(e);
      case Ok(tok) =>
        if tok.kind == EndOfFile {
          PrependNone(tokens);
          return Ok(tokens);
        }
        rest := lexer.Rest();
        PrependTwice(tokens, [tok], Lex(rest));
        tokens := tokens + [tok];
    }
  }
}
