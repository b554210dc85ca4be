/**
 What the scanner returns, by the lexical syntax alone: which token an input begins with, which inputs
 scan, and what the first error is in the others.
 */
module LexicalRules {
  import opened Wrappers
  import opened Lexing
  import opened LexicalSyntax
  import opened LexingTheory
  import opened Numerals
  import opened Sequences

  // ---------- One token ----------

  predicate NumeralStart(u: string) {
    u != "" && (DecimalDigit(u[0]) || (u[0] == '.' && |u| > 1 && DecimalDigit(u[1])))
  }

  /** The first `n` characters are a word, and no longer prefix is one. */
  predicate LongestWord(u: string, n: nat) {
    && 0 < n <= |u| && WordStart(u[0])
    && (forall j | 0 <= j < n :: WordPart(u[j]))
    && (n < |u| ==> !WordPart(u[n]))
  }

  /** `token` is the one with which `u` begins. */
  ghost predicate TokenRule(u: string, token: Token) {
    && u != "" && token.text <= u
    && if WordStart(u[0]) then
         LongestWord(u, |token.text|) && token.kind == if KeywordText(token.text) then Keyword else Identifier
       else if NumeralStart(u) then
         GreedyNumeral(u, |token.text|) && token.kind == ConstantNumberLiteral
       else
         Punctuator(u[0]) && |token.text| == 1 && token.kind == Symbol
  }

  lemma LongestWordIff(u: string, n: nat)
    requires u != "" && WordStart(u[0])
    ensures LongestWord(u, n) <==> n == SpanEnd(u, 0, Word)
  {
    var e := SpanEnd(u, 0, Word);
    SpanIsAllFrom(u, 0, Words);
    assert Among(Words, u[0]);
    if LongestWord(u, n) {
      assert AllFrom(u, 0, n, Words);
      AllFromReach(u, 0, n, Words);
    }
  }

  lemma StartsNumberIff(u: string)
    ensures StartsNumber(u) <==> NumeralStart(u)
  {
  }

  lemma PrefixIs(u: string, x: string)
    ensures x <= u <==> |x| <= |u| && x == u[..|x|]
  {
  }

  /** The scanner's token is the one the rule names, and there is none where the rule names none. */
  lemma TokenIffRule(u: string, token: Token)
    requires u != "" && !WhiteSpace(u[0])
    ensures !IsSpace(u[0]) && (TokenOf(u) == Some(token) <==> TokenRule(u, token))
  {
    PrefixIs(u, token.text);
    StartsNumberIff(u);
    if WordStart(u[0]) {
      LongestWordIff(u, |token.text|);
    } else if NumeralStart(u) {
      NumeralEndIff(u, |token.text|);
    }
  }

  /** Where no token begins, the character belongs to no source. */
  lemma NoTokenIff(u: string)
    requires u != "" && !WhiteSpace(u[0])
    ensures !IsSpace(u[0]) && (TokenOf(u).None? <==> !Alphabet(u[0]))
  {
  }

  /** What one call returns, with `g` characters of white space before the first other one. */
  lemma ScanRule(t: string, g: nat)
    requires g <= |t| && Blank(t[..g]) && (g < |t| ==> !WhiteSpace(t[g]))
    ensures g == |t| ==> Scan(t) == Scanned(Ok(Token(EndOfFile, "")), "")
    ensures forall token | g < |t| && TokenRule(t[g..], token) ::
              Scan(t) == Scanned(Ok(token), t[g + |token.text|..])
    ensures g < |t| && !Alphabet(t[g]) ==> Scan(t) == Scanned(Err(InvalidCharacter(t[g])), t[g + 1..])
  {
    forall j | 0 <= j < g ensures In(Space, t[j]) {
      assert t[..g][j] == t[j];
    }
    SpanIs(t, 0, Space, g);
    var u := t[g..];
    if g < |t| {
      assert u[0] == t[g];
      NoTokenIff(u);
      assert u[1..] == t[g + 1..];
      forall token | TokenRule(u, token) ensures Scan(t) == Scanned(Ok(token), t[g + |token.text|..]) {
        TokenIffRule(u, token);
        DropTwice(t, g, |token.text|);
      }
    }
  }

  // ---------- Whole inputs ----------

  predicate InAlphabet(t: string) {
    forall i | 0 <= i < |t| :: Alphabet(t[i])
  }

  lemma RunInAlphabet(t: string, i: nat, e: nat, k: Letters)
    requires AllFrom(t, i, e, k)
    ensures forall j | i <= j < e :: Alphabet(t[j])
  {
  }

  lemma BodyInAlphabet(t: string, a: nat)
    requires a <= |t| && BodyPart(t, a)
    ensures InAlphabet(t[..a])
  {
  }

  lemma TailInAlphabet(t: string, a: nat, b: nat, c: nat, k: nat)
    requires SplitsTail(t, a, b, c, k)
    ensures forall j | a <= j < k :: Alphabet(t[j])
  {
    RunInAlphabet(t, c, k, Suffixes);
  }

  lemma NumeralInAlphabet(t: string, k: nat)
    requires k <= |t| && NumeralPrefix(t, k)
    ensures InAlphabet(t[..k])
  {
    var a: nat, b: nat, c: nat :| SplitsNumeral(t, a, b, c, k);
    BodyInAlphabet(t, a);
    TailInAlphabet(t, a, b, c, k);
    forall j | 0 <= j < k ensures Alphabet(t[j]) {
      if j < a {
        assert t[..a][j] == t[j];
      }
    }
  }

  /** Tokens consist of characters of the alphabet. */
  lemma TokenInAlphabet(u: string)
    requires u != "" && !WhiteSpace(u[0]) && !IsSpace(u[0]) && TokenOf(u).Some?
    ensures InAlphabet(TokenOf(u).value.text)
  {
    var token := TokenOf(u).value;
    TokenIffRule(u, token);
    if !WordStart(u[0]) && NumeralStart(u) {
      NumeralInAlphabet(u, |token.text|);
    }
  }

  lemma AlphabetJoin(a: string, b: string)
    ensures InAlphabet(a + b) <==> InAlphabet(a) && InAlphabet(b)
  {
    forall i | 0 <= i < |a| ensures (a + b)[i] == a[i] {}
    forall i | 0 <= i < |b| ensures (a + b)[|a| + i] == b[i] {}
  }

  /** `i` is the place of the first character outside the alphabet. */
  predicate FirstOutside(t: string, i: nat) {
    i < |t| && !Alphabet(t[i]) && InAlphabet(t[..i])
  }

  lemma OutsideBehind(a: string, b: string, i: nat)
    requires InAlphabet(a) && FirstOutside(a + b, i)
    ensures |a| <= i && FirstOutside(b, i - |a|) && (a + b)[i] == b[i - |a|]
  {
    assert forall j | 0 <= j < |a| :: a[j] == (a + b)[j];
    assert (a + b)[..i] == a + b[..i - |a|];
    AlphabetJoin(a, b[..i - |a|]);
  }

  lemma FirstTokenParts(t: string, g: nat)
    requires g < |t| && Blank(t[..g]) && !WhiteSpace(t[g]) && Alphabet(t[g])
    ensures var s := Scan(t);
            && s.result.Ok? && s.result.value.kind != EndOfFile && |s.rest| < |t|
            && t == t[..|t| - |s.rest|] + s.rest && InAlphabet(t[..|t| - |s.rest|])
  {
    var u := t[g..];
    NoTokenIff(u);
    var token := TokenOf(u).value;
    TokenIffRule(u, token);
    ScanRule(t, g);
    TextDeterminesClass(u);
    TokenInAlphabet(u);
    PrefixIs(u, token.text);
    BlankInAlphabet(t, g);
    TakenParts(t, g, |token.text|);
  }

  /** What is taken of `t` is `g` characters, and then `n` more. */
  lemma TakenParts(t: string, g: nat, n: nat)
    requires g + n <= |t| && (forall j | 0 <= j < g :: Alphabet(t[j])) && InAlphabet(t[g..][..n])
    ensures var rest := t[g + n..];
            |t| - |rest| == g + n && t == t[..g + n] + rest && InAlphabet(t[..g + n])
  {
    TakeDrop(t, g + n);
    forall j | 0 <= j < g + n ensures Alphabet(t[j]) {
      if j >= g {
        assert t[g..][..n][j - g] == t[j];
      }
    }
  }

  /** The white space an input begins with. */
  lemma {:induction false} LeadingBlank(t: string) returns (g: nat)
    ensures g <= |t| && Blank(t[..g]) && (g < |t| ==> !WhiteSpace(t[g]))
  {
    if t == "" || !WhiteSpace(t[0]) {
      return 0;
    }
    var h := LeadingBlank(t[1..]);
    assert t[..h + 1] == [t[0]] + t[1..][..h];
    return h + 1;
  }

  /** An input scans iff all its characters are of the alphabet. */
  lemma {:induction false} ScansIffInAlphabet(t: string)
    ensures Lex(t).Ok? <==> InAlphabet(t)
    decreases |t|
  {
    LexStep(t);
    var g := LeadingBlank(t);
    ScanRule(t, g);
    if g == |t| {
      assert t[..g] == t;
    } else if Alphabet(t[g]) {
      FirstTokenParts(t, g);
      var rest := Scan(t).rest;
      ScansIffInAlphabet(rest);
      AlphabetJoin(t[..|t| - |rest|], rest);
    }
  }

  /** The error is the first character outside the alphabet. */
  lemma {:induction false} ErrorIsFirstOutside(t: string, i: nat)
    requires FirstOutside(t, i)
    ensures Lex(t) == Err(InvalidCharacter(t[i]))
    decreases |t|
  {
    LexStep(t);
    var g := LeadingBlank(t);
    ScanRule(t, g);
    BlankInAlphabet(t, g);
    if g < |t| && Alphabet(t[g]) {
      FirstTokenParts(t, g);
      var rest := Scan(t).rest;
      var taken := t[..|t| - |rest|];
      OutsideBehind(taken, rest, i);
      ErrorIsFirstOutside(rest, i - |taken|);
    } else if g < |t| {
      OutsideIsFirst(t, g, i);
    }
  }

  lemma BlankInAlphabet(t: string, g: nat)
    requires g <= |t| && Blank(t[..g])
    ensures forall j | 0 <= j < g :: Alphabet(t[j])
  {
    forall j | 0 <= j < g ensures Alphabet(t[j]) {
      assert WhiteSpace(t[..g][j]);
    }
  }

  lemma OutsideIsFirst(t: string, g: nat, i: nat)
    requires g < |t| && Blank(t[..g]) && !Alphabet(t[g]) && FirstOutside(t, i)
    ensures i == g
  {
    BlankInAlphabet(t, g);
    forall j | 0 <= j < i ensures Alphabet(t[j]) {
      assert Alphabet(t[..i][j]);
    }
  }

  lemma {:induction false} FirstOutsideExists(t: string) returns (i: nat)
    requires !InAlphabet(t)
    ensures FirstOutside(t, i)
  {
    if !Alphabet(t[0]) {
      return 0;
    }
    var j := FirstOutsideExists(t[1..]);
    assert t[..j + 1] == [t[0]] + t[1..][..j];
    AlphabetJoin([t[0]], t[1..][..j]);
    return j + 1;
  }
}
