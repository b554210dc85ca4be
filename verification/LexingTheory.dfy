/**
 What scanning means: the class of a token is fixed by its text, nothing of the input is lost, and
 tokens written apart scan back to themselves.
 */
module LexingTheory {
  import opened Wrappers
  import opened Lexing
  import opened LexicalSyntax
  import opened Sequences

  // ---------- The text of a token determines its class ----------

  /** The class a text has, decided without scanning it. */
  function ClassOf(text: string): TokenType {
    if text == "" then EndOfFile
    else if KeywordText(text) then Keyword
    else if WordStart(text[0]) then Identifier
    else if DecimalDigit(text[0]) || (text[0] == '.' && |text| > 1) then ConstantNumberLiteral
    else Symbol
  }

  lemma KeywordsStartWords()
    ensures forall k | KeywordText(k) :: k != "" && WordStart(k[0])
  {
  }

  lemma NumberTakesItsStart(t: string)
    requires StartsNumber(t)
    ensures t[0] == '.' ==> NumberEnd(t) > 1
  {
    if t[0] == '.' {
      assert BodyEnd(t) == 0;
      assert FractionEnd(t, 0) > 1;
    }
  }

  lemma TextDeterminesClass(t: string)
    requires t != "" && !IsSpace(t[0]) && TokenOf(t).Some?
    ensures TokenOf(t).value.kind == ClassOf(TokenOf(t).value.text)
    ensures TokenOf(t).value.kind != EndOfFile
  {
    var token := TokenOf(t).value;
    KeywordsStartWords();
    assert token.text[0] == t[0];
    if !StartsWord(t[0]) && StartsNumber(t) {
      NumberTakesItsStart(t);
    }
  }

  // ---------- A token does not depend on what follows it ----------

  /** `v` begins with the first `n` characters of `u` and goes on with white space, if at all. */
  ghost predicate CutAt(u: string, n: nat, v: string) {
    && n <= |u| && n <= |v|
    && (forall j | 0 <= j < n :: v[j] == u[j])
    && (n < |v| ==> IsSpace(v[n]))
  }

  lemma {:induction false} SpanIs(t: string, i: nat, k: CharClass, e: nat)
    requires i <= e <= |t|
    requires forall j | i <= j < e :: In(k, t[j])
    requires e < |t| ==> !In(k, t[e])
    ensures SpanEnd(t, i, k) == e
    decreases e - i
  {
    if i < e {
      SpanIs(t, i + 1, k, e);
    }
  }

  lemma SpanCut(u: string, n: nat, v: string, i: nat, k: CharClass)
    requires CutAt(u, n, v) && i <= n && SpanEnd(u, i, k) <= n
    requires k != Space
    ensures SpanEnd(v, i, k) == SpanEnd(u, i, k)
  {
    SpanIs(v, i, k, SpanEnd(u, i, k));
  }

  lemma FractionCut(u: string, n: nat, v: string, i: nat)
    requires CutAt(u, n, v) && i <= n && FractionEnd(u, i) <= n
    ensures FractionEnd(v, i) == FractionEnd(u, i)
  {
    if i < |u| && u[i] == '.' {
      SpanCut(u, n, v, i + 1, DigitOf(10));
    }
  }

  lemma ExponentCut(u: string, n: nat, v: string, i: nat)
    requires CutAt(u, n, v) && i <= n && ExponentEnd(u, i) <= n
    ensures ExponentEnd(v, i) == ExponentEnd(u, i)
  {
    if i < |u| && IsExponentMark(u[i]) {
      if i + 1 < |u| && IsSign(u[i + 1]) {
        SpanCut(u, n, v, i + 2, DigitOf(10));
      } else {
        SpanCut(u, n, v, i + 1, DigitOf(10));
      }
    }
  }

  lemma BodyCut(u: string, n: nat, v: string)
    requires CutAt(u, n, v) && 0 < n && BodyEnd(u) <= n
    ensures BodyEnd(v) == BodyEnd(u)
  {
    if u[0] != '0' {
      SpanCut(u, n, v, 0, DigitOf(10));
    } else if 1 < |u| && IsHexMark(u[1]) {
      SpanCut(u, n, v, 2, DigitOf(16));
    } else if 1 < |u| && IsBinaryMark(u[1]) {
      SpanCut(u, n, v, 2, DigitOf(2));
    } else if 1 < |u| && IsDigit(u[1]) {
      SpanCut(u, n, v, 1, DigitOf(8));
    }
  }

  lemma NumberCut(u: string, n: nat, v: string)
    requires StartsNumber(u) && n == NumberEnd(u) && CutAt(u, n, v)
    ensures StartsNumber(v) && NumberEnd(v) == n
  {
    NumberTakesItsStart(u);
    var b := BodyEnd(u);
    BodyCut(u, n, v);
    FractionCut(u, n, v, b);
    ExponentCut(u, n, v, FractionEnd(u, b));
    SpanCut(u, n, v, ExponentEnd(u, FractionEnd(u, b)), Suffix);
  }

  lemma TokenCut(u: string, v: string)
    requires u != "" && !IsSpace(u[0]) && TokenOf(u).Some?
    requires CutAt(u, |TokenOf(u).value.text|, v)
    ensures v != "" && !IsSpace(v[0]) && TokenOf(v) == TokenOf(u)
  {
    var n := |TokenOf(u).value.text|;
    assert v[..n] == u[..n];
    if StartsWord(u[0]) {
      SpanCut(u, n, v, 0, Word);
    } else if StartsNumber(u) {
      NumberCut(u, n, v);
    }
  }

  /** A token whose text scans to it: what the scanner produces, and what may be printed. */
  ghost predicate StandsAlone(token: Token) {
    token.text != "" && !IsSpace(token.text[0]) && TokenOf(token.text) == Some(token)
  }

  lemma ScannedStandsAlone(u: string)
    requires u != "" && !IsSpace(u[0]) && TokenOf(u).Some?
    ensures StandsAlone(TokenOf(u).value)
  {
    TokenCut(u, TokenOf(u).value.text);
  }

  ghost predicate CleanToken(token: Token) {
    StandsAlone(token) && token.kind == ClassOf(token.text)
  }

  /** Every token of a token list stands alone and has the class of its text. */
  ghost predicate Clean(tokens: seq<Token>) {
    forall k | 0 <= k < |tokens| :: CleanToken(tokens[k])
  }

  lemma CleanCons(token: Token, tokens: seq<Token>)
    requires CleanToken(token) && Clean(tokens)
    ensures Clean([token] + tokens)
  {
  }

  lemma TokenParts(u: string)
    requires u != "" && !IsSpace(u[0]) && TokenOf(u).Some?
    ensures var token := TokenOf(u).value; CleanToken(token) && u == token.text + u[|token.text|..]
  {
    TextDeterminesClass(u);
    ScannedStandsAlone(u);
    TakeDrop(u, |TokenOf(u).value.text|);
  }

  /** White space, and then nothing, an error, or a token and the rest. */
  lemma ScanParts(t: string)
    ensures var gap, u := t[..SpanEnd(t, 0, Space)], t[SpanEnd(t, 0, Space)..];
            && t == gap + u && Blank(gap)
            && (u == "" ==> Scan(t).result == Ok(EOF))
            && (u != "" && TokenOf(u).None? ==> Scan(t).result.Err?)
            && (u != "" && TokenOf(u).Some? ==> Scan(t) == Scanned(Ok(TokenOf(u).value), u[|TokenOf(u).value.text|..]))
  {
    TakeDrop(t, SpanEnd(t, 0, Space));
  }

  lemma CleanIsNoEof(token: Token)
    requires CleanToken(token)
    ensures token.kind != EndOfFile && token != EOF
  {
    TextDeterminesClass(token.text);
  }

  /** An input that scans is white space, or white space, a token, and an input that scans. */
  lemma LexOk(t: string) returns (gap: string, rest: string)
    ensures Blank(gap)
    ensures Lex(t) == Ok([]) ==> gap == t
    ensures Lex(t).Ok? && Lex(t).value != [] ==>
              var token := Lex(t).value[0];
              && t == gap + (token.text + rest) && |rest| < |t|
              && Lex(rest).Ok? && Lex(t).value == [token] + Lex(rest).value
              && CleanToken(token)
  {
    LexStep(t);
    ScanParts(t);
    var e := SpanEnd(t, 0, Space);
    gap, rest := t[..e], Scan(t).rest;
    var u := t[e..];
    if u == "" {
      ConcatEmpty(gap);
    } else if TokenOf(u).Some? && Lex(t).Ok? {
      TokenParts(u);
      CleanIsNoEof(TokenOf(u).value);
      HeadTail(TokenOf(u).value, Lex(rest).value);
    }
  }

  lemma {:induction false} LexedIsClean(t: string)
    ensures Lex(t).Ok? ==> Clean(Lex(t).value)
    decreases |t|
  {
    var gap, rest := LexOk(t);
    if Lex(t).Ok? && Lex(t).value != [] {
      LexedIsClean(rest);
      CleanCons(Lex(t).value[0], Lex(rest).value);
    }
  }

  // ---------- Text woven from tokens and gaps ----------

  ghost predicate AllGaps(gaps: seq<string>) {
    forall k | 0 <= k < |gaps| :: Blank(gaps[k])
  }

  /** `gaps[0]`, the first token, `gaps[1]`, the second token, and so on. */
  function Weave(gaps: seq<string>, tokens: seq<Token>): string
    requires |gaps| == |tokens| + 1
  {
    if tokens == [] then gaps[0] else gaps[0] + (tokens[0].text + Weave(gaps[1..], tokens[1..]))
  }

  lemma WeaveCons(gap: string, gaps: seq<string>, token: Token, tokens: seq<Token>)
    requires |gaps| == |tokens| + 1
    ensures Weave([gap] + gaps, [token] + tokens) == gap + (token.text + Weave(gaps, tokens))
  {
    assert ([gap] + gaps)[1..] == gaps && ([token] + tokens)[1..] == tokens;
  }

  /** Nothing is lost: an input that scans is its token texts with white space around them. */
  lemma {:induction false} ScanLosesNothing(t: string) returns (gaps: seq<string>)
    ensures Lex(t).Ok? ==>
              |gaps| == |Lex(t).value| + 1 && AllGaps(gaps) && Weave(gaps, Lex(t).value) == t
    decreases |t|
  {
    var gap, rest := LexOk(t);
    gaps := [t];
    if Lex(t).Ok? && Lex(t).value != [] {
      var tokens := Lex(t).value;
      var more := ScanLosesNothing(rest);
      gaps := [gap] + more;
      GapsCons(gap, more);
      WeaveCons(gap, more, tokens[0], Lex(rest).value);
    }
  }

  lemma GapsCons(gap: string, gaps: seq<string>)
    requires Blank(gap) && AllGaps(gaps)
    ensures AllGaps([gap] + gaps)
  {
  }

  lemma SpacesSkipped(gap: string, u: string)
    requires Blank(gap) && (u != "" ==> !IsSpace(u[0]))
    ensures SpanEnd(gap + u, 0, Space) == |gap|
    ensures (gap + u)[|gap|..] == u
  {
    DropJoin(gap, u, |gap|);
    SpanIs(gap + u, 0, Space, |gap|);
  }

  /** White space ends the text or separates the tokens that follow. */
  ghost predicate Separates(gaps: seq<string>) {
    forall k | 0 < k < |gaps| - 1 :: gaps[k] != ""
  }

  lemma WovenStart(gaps: seq<string>, tokens: seq<Token>)
    requires |gaps| == |tokens| + 1 && AllGaps(gaps) && (tokens == [] || gaps[0] != "")
    ensures var r := Weave(gaps, tokens); r != "" ==> IsSpace(r[0])
  {
    if gaps[0] != "" {
      assert WhiteSpace(gaps[0][0]);
    }
  }

  /** Tokens that stand alone, written with white space between them, scan back to themselves. */
  lemma {:induction false} WovenTokensScan(gaps: seq<string>, tokens: seq<Token>)
    requires |gaps| == |tokens| + 1 && AllGaps(gaps) && Separates(gaps)
    requires Clean(tokens)
    ensures Lex(Weave(gaps, tokens)) == Ok(tokens)
  {
    if tokens == [] {
      var t := gaps[0];
      SpacesSkipped(t, "");
      ConcatEmpty(t);
      LexStep(t);
    } else {
      var token, r := tokens[0], Weave(gaps[1..], tokens[1..]);
      WovenTail(gaps, tokens);
      WovenTokensScan(gaps[1..], tokens[1..]);
      WovenStart(gaps[1..], tokens[1..]);
      TokenWithGap(gaps[0], token, r);
      SplitHead(tokens);
    }
  }

  lemma WovenTail(gaps: seq<string>, tokens: seq<Token>)
    requires |gaps| == |tokens| + 1 && AllGaps(gaps) && Separates(gaps) && Clean(tokens) && tokens != []
    ensures AllGaps(gaps[1..]) && Separates(gaps[1..]) && Clean(tokens[1..])
    ensures Blank(gaps[0]) && CleanToken(tokens[0]) && (|tokens| > 1 ==> gaps[1] != "")
  {
    forall k | 0 <= k < |gaps[1..]| ensures Blank(gaps[1..][k]) {
      assert Blank(gaps[k + 1]);
    }
    forall k | 0 <= k < |tokens[1..]| ensures CleanToken(tokens[1..][k]) {
      assert CleanToken(tokens[k + 1]);
    }
  }

  /** White space, a token that stands alone, and text that does not touch it. */
  lemma TokenWithGap(gap: string, token: Token, r: string)
    requires Blank(gap) && CleanToken(token) && (r != "" ==> IsSpace(r[0]))
    ensures Lex(gap + (token.text + r)) == Prepend([token], Lex(r))
  {
    var u := token.text + r;
    assert CutAt(token.text, |token.text|, u);
    TokenCut(token.text, u);
    SpacesSkipped(gap, u);
    DropJoin(token.text, r, |token.text|);
    TextDeterminesClass(token.text);
    assert Scan(gap + u) == Scanned(Ok(token), r);
    LexStep(gap + u);
  }

  // ---------- Joining with single spaces ----------

  /** The token texts with one space between neighbours. */
  function Join(tokens: seq<Token>): string {
    if tokens == [] then ""
    else if |tokens| == 1 then tokens[0].text
    else tokens[0].text + " " + Join(tokens[1..])
  }

  function SingleSpaces(n: nat): (gaps: seq<string>)
    requires n > 0
    ensures |gaps| == n + 1
  {
    seq(n + 1, k => if 0 < k < n then " " else "")
  }

  lemma {:induction false} JoinIsWoven(tokens: seq<Token>, first: string)
    requires tokens != []
    ensures var gaps := SingleSpaces(|tokens|)[0 := first];
            Weave(gaps, tokens) == first + Join(tokens)
  {
    var gaps := SingleSpaces(|tokens|)[0 := first];
    if |tokens| == 1 {
      assert Weave(gaps[1..], tokens[1..]) == "";
      assert tokens[0].text + "" == tokens[0].text;
    } else {
      JoinIsWoven(tokens[1..], " ");
      assert gaps[1..] == SingleSpaces(|tokens| - 1)[0 := " "];
      assert tokens[0].text + (" " + Join(tokens[1..])) == Join(tokens);
    }
  }

  lemma SpacesAreGaps(n: nat)
    requires n > 0
    ensures AllGaps(SingleSpaces(n)) && Separates(SingleSpaces(n))
    ensures SingleSpaces(n)[0 := ""] == SingleSpaces(n)
  {
  }

  lemma JoinedTokensScan(tokens: seq<Token>)
    requires Clean(tokens)
    ensures Lex(Join(tokens)) == Ok(tokens)
  {
    if tokens == [] {
      SpanIs("", 0, Space, 0);
      LexStep("");
    } else {
      JoinIsWoven(tokens, "");
      SpacesAreGaps(|tokens|);
      ConcatEmpty(Join(tokens));
      WovenTokensScan(SingleSpaces(|tokens|), tokens);
    }
  }

  /** Re-tokenisation: joining the tokens of any input that scans, and scanning again, changes nothing. */
  lemma Retokenise(t: string)
    ensures Lex(t).Ok? ==> Lex(Join(Lex(t).value)) == Lex(t)
  {
    if Lex(t).Ok? {
      LexedIsClean(t);
      JoinedTokensScan(Lex(t).value);
    }
  }
}
