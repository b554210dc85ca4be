/**
 The numerals the scanner accepts, given as a language of their own, and how much of the input the
 scanner takes: part by part as much as there is, which is the longest numeral unless a hexadecimal
 one ends in `e` before a sign.
 */
module Numerals {
  import opened Wrappers
  import opened Lexing
  import opened LexicalSyntax
  import opened LexingTheory

  // ---------- Runs of characters ----------

  datatype Letters = Words | Decimals | Binaries | Octals | Hexes | Suffixes

  predicate Among(k: Letters, c: char) {
    match k
    case Words => WordPart(c)
    case Decimals => DecimalDigit(c)
    case Binaries => BinaryDigit(c)
    case Octals => OctalDigit(c)
    case Hexes => HexDigit(c)
    case Suffixes => SuffixLetter(c)
  }

  /** The characters of `t` from `i` up to `e` are among `k`. */
  predicate AllFrom(t: string, i: nat, e: nat, k: Letters) {
    i <= e <= |t| && forall j | i <= j < e :: Among(k, t[j])
  }

  /** The class of characters the scanner has for `k`. */
  function ClassFor(k: Letters): CharClass {
    match k
    case Words => Word
    case Decimals => DigitOf(10)
    case Binaries => DigitOf(2)
    case Octals => DigitOf(8)
    case Hexes => DigitOf(16)
    case Suffixes => Suffix
  }

  /** The scanner's classes of characters are the ones written out. */
  lemma ClassesAreExact(k: Letters, c: char)
    ensures In(ClassFor(k), c) <==> Among(k, c)
    ensures In(Space, c) <==> WhiteSpace(c)
  {
  }

  // ---------- Integer constants of ISO/IEC 9899:1999, section 6.4.4.1 ----------

  predicate UnsignedSuffix(x: string) { x in {"u", "U"} }

  predicate LongSuffix(x: string) { x in {"l", "L", "ll", "LL"} }

  /** Nothing, an unsigned suffix, a long suffix, or one of each in either order. */
  predicate IntegerSuffix(x: string) {
    || x == "" || UnsignedSuffix(x) || LongSuffix(x)
    || (|x| > 1 && UnsignedSuffix(x[..1]) && LongSuffix(x[1..]))
    || (|x| > 1 && LongSuffix(x[..|x| - 1]) && UnsignedSuffix(x[|x| - 1..]))
  }

  predicate IntegerDigits(b: string) {
    && b != ""
    && if b[0] != '0' then AllFrom(b, 0, |b|, Decimals)
       else AllFrom(b, 1, |b|, Octals) || (|b| > 2 && b[1] in {'x', 'X'} && AllFrom(b, 2, |b|, Hexes))
  }

  predicate SplitsInteger(t: string, a: nat) {
    a <= |t| && IntegerDigits(t[..a]) && IntegerSuffix(t[a..])
  }

  ghost predicate IntegerConstant(t: string) {
    exists a: nat :: SplitsInteger(t, a)
  }

  lemma SuffixLetters(x: string)
    requires IntegerSuffix(x)
    ensures AllFrom(x, 0, |x|, Suffixes)
    ensures x != "" ==> x[0] in {'u', 'U', 'l', 'L'}
  {
    if |x| > 1 && UnsignedSuffix(x[..1]) && LongSuffix(x[1..]) {
      assert x == x[..1] + x[1..];
    } else if |x| > 1 && LongSuffix(x[..|x| - 1]) && UnsignedSuffix(x[|x| - 1..]) {
      assert x == x[..|x| - 1] + x[|x| - 1..];
    }
  }

  lemma IntegerBodyEnd(t: string, a: nat)
    requires SplitsInteger(t, a)
    ensures BodyEnd(t) == a && IsDigit(t[0])
    ensures a < |t| ==> t[a] in {'u', 'U', 'l', 'L'}
  {
    SuffixLetters(t[a..]);
    var b := t[..a];
    forall j | 0 <= j < a ensures t[j] == b[j] {}
    if t[0] != '0' {
      SpanIs(t, 0, DigitOf(10), a);
    } else if AllIn(b[1..], DigitOf(8)) {
      forall j | 1 <= j < a ensures In(DigitOf(8), t[j]) {
        assert b[1..][j - 1] == t[j];
      }
      if 1 < a {
        SpanIs(t, 1, DigitOf(8), a);
      }
    } else {
      forall j | 2 <= j < a ensures In(DigitOf(16), t[j]) {
        assert b[2..][j - 2] == t[j];
      }
      SpanIs(t, 2, DigitOf(16), a);
    }
  }

  /** Every integer constant is one literal token. */
  lemma IntegerConstantsStandAlone(t: string)
    requires IntegerConstant(t)
    ensures CleanToken(Token(ConstantNumberLiteral, t))
  {
    var a: nat :| SplitsInteger(t, a);
    IntegerBodyEnd(t, a);
    SuffixLetters(t[a..]);
    forall j | a <= j < |t| ensures In(Suffix, t[j]) {
      assert t[a..][j - a] == t[j];
    }
    SpanIs(t, a, Suffix, |t|);
    assert NumberEnd(t) == |t|;
    assert t[..|t|] == t;
    TextDeterminesClass(t);
  }

  /** An integer constant followed by white space, or by nothing, is scanned whole. */
  lemma IntegerConstantsScanWhole(t: string, rest: string)
    requires IntegerConstant(t) && (rest != "" ==> WhiteSpace(rest[0]))
    ensures Scan(t + rest) == Scanned(Ok(Token(ConstantNumberLiteral, t)), rest)
  {
    IntegerConstantsStandAlone(t);
    var u := t + rest;
    assert CutAt(t, |t|, u);
    TokenCut(t, u);
    SpanIs(u, 0, Space, 0);
    assert u[0..] == u && u[|t|..] == rest;
  }

  // ---------- Identifiers ----------

  lemma AllFromReach(t: string, i: nat, e: nat, k: Letters)
    requires AllFrom(t, i, e, k)
    ensures e <= SpanEnd(t, i, ClassFor(k))
  {
    var s := SpanEnd(t, i, ClassFor(k));
    if s < e {
      ClassesAreExact(k, t[s]);
    }
  }

  lemma SpanIsAllFrom(t: string, i: nat, k: Letters)
    requires i <= |t|
    ensures AllFrom(t, i, SpanEnd(t, i, ClassFor(k)), k)
    ensures var e := SpanEnd(t, i, ClassFor(k)); e < |t| ==> !Among(k, t[e])
  {
    forall j | i <= j < SpanEnd(t, i, ClassFor(k)) ensures Among(k, t[j]) {
      ClassesAreExact(k, t[j]);
    }
  }

  predicate WordPrefix(t: string, k: nat) {
    0 < k <= |t| && WordStart(t[0]) && AllFrom(t, 0, k, Words)
  }

  /** A scanned word is the longest one its input begins with. */
  lemma WordsAreLongest(t: string)
    requires t != "" && WordStart(t[0])
    ensures var e := SpanEnd(t, 0, Word);
            WordPrefix(t, e) && forall k: nat | WordPrefix(t, k) :: k <= e
  {
    assert In(Word, t[0]);
    forall k: nat | WordPrefix(t, k) ensures k <= SpanEnd(t, 0, Word) {
      AllFromReach(t, 0, k, Words);
    }
  }

  // ---------- The language of numerals ----------

  predicate BodyPart(t: string, a: nat)
    requires a <= |t|
  {
    if a == 0 || t[0] != '0' then AllFrom(t, 0, a, Decimals)
    else || AllFrom(t, 1, a, Octals)
         || (a > 1 && t[1] in {'x', 'X'} && AllFrom(t, 2, a, Hexes))
         || (a > 1 && t[1] in {'b', 'B'} && AllFrom(t, 2, a, Binaries))
  }

  predicate FractionPart(t: string, a: nat, b: nat)
    requires a <= b <= |t|
  {
    a == b || (t[a] == '.' && AllFrom(t, a + 1, b, Decimals))
  }

  predicate ExponentPart(t: string, b: nat, c: nat)
    requires b <= c <= |t|
  {
    || b == c
    || (t[b] in {'e', 'E'} && AllFrom(t, b + 1, c, Decimals))
    || (t[b] in {'e', 'E'} && b + 1 < c && t[b + 1] in {'+', '-'} && AllFrom(t, b + 2, c, Decimals))
  }

  /** What may follow the digits of a numeral: from `a` a fraction, an exponent and suffix letters up to `k`. */
  predicate SplitsTail(t: string, a: nat, b: nat, c: nat, k: nat) {
    && a <= b <= c <= k <= |t|
    && FractionPart(t, a, b) && ExponentPart(t, b, c) && AllFrom(t, c, k, Suffixes)
  }

  /** Without digits before it, a fraction must have some. */
  predicate SplitsNumeral(t: string, a: nat, b: nat, c: nat, k: nat) {
    && SplitsTail(t, a, b, c, k) && BodyPart(t, a)
    && (if a == 0 then b > 1 else DecimalDigit(t[0]))
  }

  /** The first `k` characters of `t` are a numeral. */
  ghost predicate NumeralPrefix(t: string, k: nat) {
    exists a: nat, b: nat, c: nat :: SplitsNumeral(t, a, b, c, k)
  }

  lemma ScannedSplits(t: string)
    requires StartsNumber(t)
    ensures var a := BodyEnd(t);
            var b := FractionEnd(t, a);
            SplitsNumeral(t, a, b, ExponentEnd(t, b), NumberEnd(t))
  {
    var a := BodyEnd(t);
    var b := FractionEnd(t, a);
    var c := ExponentEnd(t, b);
    assert BodyPart(t, a);
    FractionIsGreedy(t, a);
    ExponentIsGreedy(t, b);
    SpanIsAllFrom(t, c, Suffixes);
  }

  /** What the scanner takes is a numeral. */
  lemma ScannedIsNumeral(t: string)
    requires StartsNumber(t)
    ensures NumeralPrefix(t, NumberEnd(t))
  {
    ScannedSplits(t);
  }

  // ---------- How far a numeral can reach ----------

  lemma ExponentReach(t: string, b: nat, c: nat, k: nat)
    requires b <= c <= k <= |t| && ExponentPart(t, b, c) && AllFrom(t, c, k, Suffixes)
    ensures k <= SpanEnd(t, ExponentEnd(t, b), Suffix)
    ensures b < k ==> In(Suffix, t[b]) || IsExponentMark(t[b])
  {
    AllFromReach(t, c, k, Suffixes);
  }

  lemma TailReach(t: string, a: nat, b: nat, c: nat, k: nat)
    requires SplitsTail(t, a, b, c, k)
    ensures k <= TailEnd(t, a)
    ensures a < k ==> t[a] == '.' || In(Suffix, t[a]) || IsExponentMark(t[a])
  {
    ExponentReach(t, b, c, k);
    FractionIsGreedy(t, a);
    if b < FractionEnd(t, a) {
      InFraction(t, a, b);
      assert k == b;
    }
  }

  lemma InFraction(t: string, a: nat, b: nat)
    requires a <= b <= |t| && b < FractionEnd(t, a)
    ensures !In(Suffix, t[b]) && !IsExponentMark(t[b])
  {
    if a < b {
      assert In(DigitOf(10), t[b]);
    }
  }

  /** Hexadecimal digits up to `h`, of which the last is an `e`, and then a sign. */
  predicate SignAfterE(t: string, h: nat) {
    2 < h < |t| && AllFrom(t, 2, h, Hexes) && t[h - 1] in {'e', 'E'} && t[h] in {'+', '-'}
  }

  /** A hexadecimal numeral whose digits end in `e` before a sign. */
  ghost predicate SignAfterHexE(t: string) {
    |t| > 2 && t[0] == '0' && t[1] in {'x', 'X'} && exists h: nat :: SignAfterE(t, h)
  }

  /** A sign ends the digits, so there is one such place at most. */
  lemma SignEndsDigits(t: string, h: nat)
    requires SignAfterE(t, h)
    ensures SpanEnd(t, 2, DigitOf(16)) == h
  {
    SpanIs(t, 2, DigitOf(16), h);
  }

  lemma SignAfterSpan(t: string)
    requires |t| > 2 && t[0] == '0' && t[1] in {'x', 'X'} && !SignAfterHexE(t)
    ensures var h := SpanEnd(t, 2, DigitOf(16));
            2 < h < |t| && t[h - 1] in {'e', 'E'} ==> t[h] !in {'+', '-'}
  {
    var h := SpanEnd(t, 2, DigitOf(16));
    SpanIsAllFrom(t, 2, Hexes);
    assert !SignAfterE(t, h);
  }

  /** An exponent that begins among hexadecimal digits ends with them, but for a sign after an `e`. */
  lemma ExponentInHex(t: string, a: nat, c: nat)
    requires |t| > 1 && t[0] == '0' && IsHexMark(t[1]) && !SignAfterHexE(t)
    requires 2 <= a < SpanEnd(t, 2, DigitOf(16)) && a <= c <= |t| && ExponentPart(t, a, c)
    ensures c <= SpanEnd(t, 2, DigitOf(16))
  {
    var h := SpanEnd(t, 2, DigitOf(16));
    SignAfterSpan(t);
    assert In(DigitOf(16), t[a]);
    assert a + 1 < h ==> In(DigitOf(16), t[a + 1]);
  }

  /** Suffix letters that begin no later than the digits end are all taken by the scanner. */
  lemma SuffixPastBody(t: string, c: nat, e: nat, k: nat)
    requires c <= e <= |t| && AllFrom(t, c, k, Suffixes)
    ensures k <= TailEnd(t, e)
  {
    if e < k {
      assert In(Suffix, t[e]);
      AllFromReach(t, e, k, Suffixes);
    }
  }

  /** A numeral that gives some digits of the scanned body to its tail. */
  lemma ShortBodyReach(t: string, a: nat, b: nat, c: nat, k: nat)
    requires StartsNumber(t) && !SignAfterHexE(t)
    requires SplitsNumeral(t, a, b, c, k) && a < BodyEnd(t)
    ensures k <= NumberEnd(t)
  {
    TailReach(t, a, b, c, k);
    if t[0] == '0' && 1 < |t| && IsHexMark(t[1]) && 1 < a {
      assert In(DigitOf(16), t[a]);
      ExponentInHex(t, a, c);
      SuffixPastBody(t, c, BodyEnd(t), k);
    } else {
      ShortPlainReach(t, a, k);
    }
  }

  lemma ShortPlainReach(t: string, a: nat, k: nat)
    requires StartsNumber(t) && a < BodyEnd(t) && a <= k
    requires BodyPart(t, a) && (a > 0 ==> IsDigit(t[0])) && (a == 0 ==> t[0] == '.')
    requires t[0] == '0' && 1 < |t| && IsHexMark(t[1]) ==> a <= 1
    requires a < k ==> k <= |t| && (t[a] == '.' || In(Suffix, t[a]) || IsExponentMark(t[a]))
    ensures k <= NumberEnd(t)
  {
  }

  lemma BodyReach(t: string, a: nat)
    requires StartsNumber(t) && a <= |t| && BodyPart(t, a)
    ensures a <= BodyEnd(t)
  {
  }

  lemma PlainNumeralReach(t: string, k: nat)
    requires StartsNumber(t) && !SignAfterHexE(t) && NumeralPrefix(t, k)
    ensures k <= NumberEnd(t)
  {
    var a: nat, b: nat, c: nat :| SplitsNumeral(t, a, b, c, k);
    BodyReach(t, a);
    if a < BodyEnd(t) {
      ShortBodyReach(t, a, b, c, k);
    } else {
      TailReach(t, a, b, c, k);
    }
  }

  lemma SplitNumeralReach(t: string, h: nat)
    requires |t| > 2 && t[0] == '0' && t[1] in {'x', 'X'} && SignAfterE(t, h)
    ensures StartsNumber(t) && NumberEnd(t) == h && NumeralPrefix(t, h + 1)
  {
    SignEndsDigits(t, h);
    assert BodyEnd(t) == h && FractionEnd(t, h) == h && ExponentEnd(t, h) == h;
    SpanIs(t, h, Suffix, h);
    assert SplitsNumeral(t, h - 1, h - 1, h + 1, h + 1);
  }

  /** The scanner takes the longest numeral exactly when no sign follows a hexadecimal `e`. */
  lemma NumeralsAreLongest(t: string)
    requires StartsNumber(t)
    ensures (forall k: nat | NumeralPrefix(t, k) :: k <= NumberEnd(t)) <==> !SignAfterHexE(t)
  {
    if SignAfterHexE(t) {
      var h: nat :| SignAfterE(t, h);
      SplitNumeralReach(t, h);
    } else {
      forall k: nat | NumeralPrefix(t, k) ensures k <= NumberEnd(t) {
        PlainNumeralReach(t, k);
      }
    }
  }

  // ---------- Part by part ----------

  /** No part of the split could be longer, given the parts before it. */
  ghost predicate Greedy(t: string, a: nat, b: nat, c: nat, k: nat)
    requires a <= b <= c <= k <= |t|
  {
    && (forall x: nat | x <= |t| && BodyPart(t, x) :: x <= a)
    && (forall x: nat | a <= x <= |t| && FractionPart(t, a, x) :: x <= b)
    && (forall x: nat | b <= x <= |t| && ExponentPart(t, b, x) :: x <= c)
    && (forall x: nat | c <= x <= |t| && AllFrom(t, c, x, Suffixes) :: x <= k)
  }

  /** `k` is where a numeral ends when each of its parts takes as much as it can. */
  ghost predicate GreedyNumeral(t: string, k: nat) {
    exists a: nat, b: nat, c: nat :: SplitsNumeral(t, a, b, c, k) && Greedy(t, a, b, c, k)
  }

  lemma FractionIsGreedy(t: string, a: nat)
    requires a <= |t|
    ensures FractionPart(t, a, FractionEnd(t, a))
    ensures forall x: nat | a <= x <= |t| && FractionPart(t, a, x) :: x <= FractionEnd(t, a)
  {
    if a < |t| && t[a] == '.' {
      SpanIsAllFrom(t, a + 1, Decimals);
      forall x: nat | a < x <= |t| && FractionPart(t, a, x) ensures x <= FractionEnd(t, a) {
        AllFromReach(t, a + 1, x, Decimals);
      }
    }
  }

  lemma ExponentIsGreedy(t: string, b: nat)
    requires b <= |t|
    ensures ExponentPart(t, b, ExponentEnd(t, b))
    ensures forall x: nat | b <= x <= |t| && ExponentPart(t, b, x) :: x <= ExponentEnd(t, b)
  {
    if b < |t| && t[b] in {'e', 'E'} {
      SpanIsAllFrom(t, b + 1, Decimals);
      if b + 1 < |t| && t[b + 1] in {'+', '-'} {
        SpanIsAllFrom(t, b + 2, Decimals);
      }
      forall x: nat | b < x <= |t| && ExponentPart(t, b, x) ensures x <= ExponentEnd(t, b) {
        if AllFrom(t, b + 1, x, Decimals) {
          AllFromReach(t, b + 1, x, Decimals);
        } else {
          AllFromReach(t, b + 2, x, Decimals);
        }
      }
    }
  }

  /** Where the scanner ends a numeral, given by the language alone. */
  lemma NumeralEndIff(t: string, k: nat)
    requires StartsNumber(t)
    ensures k == NumberEnd(t) <==> GreedyNumeral(t, k)
  {
    var a := BodyEnd(t);
    var b := FractionEnd(t, a);
    var c := ExponentEnd(t, b);
    var e := NumberEnd(t);
    ScannedSplits(t);
    forall x: nat | x <= |t| && BodyPart(t, x) ensures x <= a {
      BodyReach(t, x);
    }
    FractionIsGreedy(t, a);
    ExponentIsGreedy(t, b);
    forall x: nat | c <= x <= |t| && AllFrom(t, c, x, Suffixes) ensures x <= e {
      AllFromReach(t, c, x, Suffixes);
    }
    assert Greedy(t, a, b, c, e);
    if GreedyNumeral(t, k) {
      var a', b', c' :| SplitsNumeral(t, a', b', c', k) && Greedy(t, a', b', c', k);
      GreedyIsUnique(t, a, b, c, e, a', b', c', k);
    }
  }

  lemma GreedyIsUnique(t: string, a: nat, b: nat, c: nat, k: nat, a': nat, b': nat, c': nat, k': nat)
    requires SplitsNumeral(t, a, b, c, k) && Greedy(t, a, b, c, k)
    requires SplitsNumeral(t, a', b', c', k') && Greedy(t, a', b', c', k')
    ensures k == k'
  {
    assert a == a';
    assert b == b';
    assert c == c';
  }

  lemma HexExponentIsNumeral()
    ensures NumeralPrefix("0x1e+5", 6)
  {
    assert SplitsNumeral("0x1e+5", 3, 3, 6, 6);
  }

  /** Such an input: the scanner takes only `0x1e` of the numeral `0x1e+5`. */
  lemma HexExponentIsSplit()
    ensures NumeralPrefix("0x1e+5", 6) && Scan("0x1e+5").result == Ok(Token(ConstantNumberLiteral, "0x1e"))
  {
    var t := "0x1e+5";
    HexExponentIsNumeral();
    SpanIs(t, 0, Space, 0);
    SpanIs(t, 2, DigitOf(16), 4);
    SpanIs(t, 4, Suffix, 4);
    assert BodyEnd(t) == 4 && NumberEnd(t) == 4;
    assert t[0..] == t && t[..4] == "0x1e";
  }
}
