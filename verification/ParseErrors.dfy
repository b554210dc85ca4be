/**
 Which error a parse ends with: the longest beginning of a unit that the tokens have, and what was
 expected behind it.
 */
module ParseErrors {
  import opened Wrappers
  import opened Lexing
  import opened LexicalSyntax
  import opened LexingTheory
  import opened Parsing
  import opened Grammar
  import opened Sequences

  // ---------- Derivations that break off ----------

  /** A statement that breaks off, by the tokens it has. */
  datatype BrokenStmt =
    | Nothing
    | DeclType(kind: Token)
    | DeclName(kind: Token, name: Token)
    | DeclEquals(kind: Token, name: Token)
    | DeclValue(kind: Token, name: Token, value: Token)
    | ReturnWord
    | ReturnValue(value: Token)
    | AssignName(name: Token)
    | AssignEquals(name: Token)
    | AssignValue(name: Token, value: Token)

  predicate ProperBroken(s: BrokenStmt) {
    match s
    case Nothing => true
    case DeclType(kind) => IsType(kind)
    case DeclName(kind, name) => IsType(kind) && IsName(name)
    case DeclEquals(kind, name) => IsType(kind) && IsName(name)
    case DeclValue(kind, name, value) => IsType(kind) && IsName(name) && IsLeaf(value)
    case ReturnWord => true
    case ReturnValue(value) => IsLeaf(value)
    case AssignName(name) => IsName(name)
    case AssignEquals(name) => IsName(name)
    case AssignValue(name, value) => IsName(name) && IsLeaf(value)
  }

  function BrokenYield(s: BrokenStmt): seq<Token> {
    match s
    case Nothing => []
    case DeclType(kind) => [kind]
    case DeclName(kind, name) => [kind, name]
    case DeclEquals(kind, name) => [kind, name, Sym("=")]
    case DeclValue(kind, name, value) => [kind, name, Sym("="), value]
    case ReturnWord => [RETURN]
    case ReturnValue(value) => [RETURN, value]
    case AssignName(name) => [name]
    case AssignEquals(name) => [name, Sym("=")]
    case AssignValue(name, value) => [name, Sym("="), value]
  }

  predicate Begins(rest: seq<Token>, t: Token) {
    rest != [] && rest[0] == t
  }

  predicate BeginsWithName(rest: seq<Token>) {
    rest != [] && IsName(rest[0])
  }

  predicate BeginsWithLeaf(rest: seq<Token>) {
    rest != [] && IsLeaf(rest[0])
  }

  predicate BeginsWithType(rest: seq<Token>) {
    rest != [] && IsType(rest[0])
  }

  /** `rest` does not continue the statement, and that is reported as `e`. */
  predicate Stops(s: BrokenStmt, rest: seq<Token>, e: ParserError) {
    match s
    case Nothing =>
      && rest != [] && rest[0] !in {Sym("}"), RETURN} && !BeginsWithType(rest) && !BeginsWithName(rest)
      && e == UnexpectedToken(rest[0].text)
    case DeclType(_) => !BeginsWithName(rest) && e == ExpectedVariableName
    case DeclName(_, _) => !Begins(rest, Sym("=")) && !Begins(rest, Sym(";")) && e == ExpectedText(";")
    case DeclEquals(_, _) => !BeginsWithLeaf(rest) && e == UnsupportedExpression
    case DeclValue(_, _, _) => !Begins(rest, Sym(";")) && e == ExpectedText(";")
    case ReturnWord => !BeginsWithLeaf(rest) && e == UnsupportedExpression
    case ReturnValue(_) => !Begins(rest, Sym(";")) && e == ExpectedText(";")
    case AssignName(_) => !Begins(rest, Sym("=")) && e == ExpectedText("=")
    case AssignEquals(_) => !BeginsWithLeaf(rest) && e == UnsupportedExpression
    case AssignValue(_, _) => !Begins(rest, Sym(";")) && e == ExpectedText(";")
  }

  /** A function that breaks off: before its body, in it, or at the end of the tokens. */
  datatype BrokenFunction =
    | NoType
    | NoName(kind: Token)
    | NoPunctuation(kind: Token, name: Token, n: nat)
    | InBody(kind: Token, name: Token, body: seq<StmtTree>, last: BrokenStmt)
    | Unclosed(kind: Token, name: Token, body: seq<StmtTree>)

  const PUNCTUATION: seq<string> := ["(", ")", "{"]

  /** The first `n` of `(`, `)` and `{`. */
  function Punctuation(n: nat): seq<Token>
    requires n <= 3
  {
    [Sym("("), Sym(")"), Sym("{")][..n]
  }

  predicate ProperBrokenFunction(f: BrokenFunction) {
    match f
    case NoType => true
    case NoName(kind) => IsType(kind)
    case NoPunctuation(kind, name, n) => IsType(kind) && IsName(name) && n < 3
    case InBody(kind, name, body, last) => IsType(kind) && IsName(name) && ProperBody(body) && ProperBroken(last)
    case Unclosed(kind, name, body) => IsType(kind) && IsName(name) && ProperBody(body)
  }

  function BrokenFunctionYield(f: BrokenFunction): seq<Token>
    requires ProperBrokenFunction(f)
  {
    match f
    case NoType => []
    case NoName(kind) => [kind]
    case NoPunctuation(kind, name, n) => [kind, name] + Punctuation(n)
    case InBody(kind, name, body, last) =>
      [kind, name, Sym("("), Sym(")"), Sym("{")] + (BodyYield(body) + BrokenYield(last))
    case Unclosed(kind, name, body) => [kind, name, Sym("("), Sym(")"), Sym("{")] + BodyYield(body)
  }

  predicate StopsFunction(f: BrokenFunction, rest: seq<Token>, e: ParserError)
    requires ProperBrokenFunction(f)
  {
    match f
    case NoType =>
      rest != [] && rest[0].kind != EndOfFile && !BeginsWithType(rest) && e == ExpectedReturnType
    case NoName(_) => !BeginsWithName(rest) && e == ExpectedFunctionName
    case NoPunctuation(_, _, n) =>
      !Begins(rest, Sym(PUNCTUATION[n])) && e == ExpectedText(PUNCTUATION[n])
    case InBody(_, _, _, last) => Stops(last, rest, e)
    case Unclosed(_, _, _) => rest == [] && e == ExpectedText("}")
  }

  /** The tokens are whole functions, a function that breaks off, and `rest`, which does not continue it. */
  ghost predicate BreaksOff(ts: seq<Token>, fs: seq<FunctionTree>, f: BrokenFunction, rest: seq<Token>,
                            e: ParserError)
  {
    && ProperUnit(fs) && ProperBrokenFunction(f)
    && ts == UnitYield(fs) + (BrokenFunctionYield(f) + rest)
    && StopsFunction(f, rest, e)
  }

  // ---------- What the parser does at such a place ----------

  lemma NextIsSymbol(ts: seq<Token>, text: string)
    requires AllClassed(ts) && text in {"(", ")", "{", "}", "=", ";"}
    ensures NextIs(ts, text) <==> Begins(ts, Sym(text))
  {
    if NextIs(ts, text) {
      assert Classed(ts[0]);
      SymbolText(ts[0]);
    }
  }

  lemma ExprFails(rest: seq<Token>)
    requires AllClassed(rest) && !BeginsWithLeaf(rest)
    ensures ParseExpr(rest) == Failed(UnsupportedExpression)
  {
    if rest != [] {
      assert Classed(rest[0]);
    }
  }

  /** Right of `=` or `return`: no expression, or no semicolon behind it. */
  lemma AssignedFails(lhs: string, value: Option<Token>, rest: seq<Token>)
    requires AllClassed(rest)
    requires if value.None? then !BeginsWithLeaf(rest) else IsLeaf(value.value) && !Begins(rest, Sym(";"))
    ensures var ts := if value.None? then rest else [value.value] + rest;
            var e := if value.None? then UnsupportedExpression else ExpectedText(";");
            ParseAssigned(lhs, ts) == Failed(e)
  {
    NextIsSymbol(rest, ";");
    if value.None? {
      ExprFails(rest);
    } else {
      HeadTail(value.value, rest);
    }
  }

  /** What the first token of a statement decides. */
  lemma StmtDispatch(ts: seq<Token>)
    requires ts != [] && Classed(ts[0])
    ensures ParseStmt(ts) ==
            if IsType(ts[0]) then ParseVarDecl(ts)
            else if ts[0] == RETURN then ParseAssigned("return", ts[1..])
            else if IsName(ts[0]) then ParseAssignment(ts)
            else Failed(UnexpectedToken(ts[0].text))
    ensures IsType(ts[0]) ==> ts[0] != RETURN && !IsName(ts[0])
    ensures IsName(ts[0]) ==> ts[0] != RETURN
  {
  }

  /** What the first two tokens of a function decide. */
  lemma FunctionDispatch(ts: seq<Token>)
    requires AllClassed(ts)
    ensures !BeginsWithType(ts) ==> ParseFunction(ts) == Failed(ExpectedReturnType)
    ensures BeginsWithType(ts) && !BeginsWithName(ts[1..]) ==> ParseFunction(ts) == Failed(ExpectedFunctionName)
    ensures BeginsWithType(ts) && BeginsWithName(ts[1..]) && ParseHeader(ts[2..]).Failed? ==>
              ParseFunction(ts) == Failed(ParseHeader(ts[2..]).error)
  {
    if |ts| > 1 {
      assert Classed(ts[1]) && ts[1..][0] == ts[1];
    }
  }

  lemma ClassedJoin(a: seq<Token>, b: seq<Token>)
    requires AllClassed(a + b)
    ensures AllClassed(a) && AllClassed(b)
  {
    forall k | 0 <= k < |a| ensures Classed(a[k]) {
      assert (a + b)[k] == a[k];
    }
    ClassedRest(a, b);
  }

  lemma DeclStops(s: BrokenStmt, rest: seq<Token>, e: ParserError)
    requires s.DeclType? || s.DeclName? || s.DeclEquals? || s.DeclValue?
    requires ProperBroken(s) && AllClassed(rest) && Stops(s, rest, e)
    ensures ParseVarDecl(BrokenYield(s) + rest) == Failed(e)
  {
    var ts := BrokenYield(s) + rest;
    NextIsSymbol(rest, "=");
    NextIsSymbol(rest, ";");
    match s
    case DeclType(kind) =>
      if rest != [] {
        assert Classed(rest[0]);
      }
    case DeclName(_, _) => assert ts[2..] == rest;
    case DeclEquals(_, _) =>
      assert ts[2..][1..] == rest;
      ExprFails(rest);
    case DeclValue(_, _, value) =>
      assert ts[2..][1..] == [value] + rest;
      assert ([value] + rest)[1..] == rest;
  }

  lemma AssignStops(s: BrokenStmt, rest: seq<Token>, e: ParserError)
    requires s.AssignName? || s.AssignEquals? || s.AssignValue?
    requires ProperBroken(s) && AllClassed(rest) && Stops(s, rest, e)
    ensures ParseAssignment(BrokenYield(s) + rest) == Failed(e)
  {
    var ts := BrokenYield(s) + rest;
    match s
    case AssignName(_) =>
      assert ts[1..] == rest;
      NextIsSymbol(rest, "=");
    case AssignEquals(_) =>
      assert ts[2..] == rest;
      AssignedFails(s.name.text, None, rest);
    case AssignValue(_, value) =>
      assert ts[2..] == [value] + rest;
      AssignedFails(s.name.text, Some(value), rest);
  }

  lemma ReturnStops(s: BrokenStmt, rest: seq<Token>, e: ParserError)
    requires s.ReturnWord? || s.ReturnValue?
    requires ProperBroken(s) && AllClassed(rest) && Stops(s, rest, e)
    ensures ParseAssigned("return", (BrokenYield(s) + rest)[1..]) == Failed(e)
  {
    var ts := BrokenYield(s) + rest;
    match s
    case ReturnWord =>
      assert ts[1..] == rest;
      AssignedFails("return", None, rest);
    case ReturnValue(value) =>
      assert ts[1..] == [value] + rest;
      AssignedFails("return", Some(value), rest);
  }

  /** The parser reports a statement that breaks off as it says. */
  lemma StmtStops(s: BrokenStmt, rest: seq<Token>, e: ParserError)
    requires ProperBroken(s) && AllClassed(rest) && Stops(s, rest, e)
    ensures var ts := BrokenYield(s) + rest;
            ts != [] && !NextIs(ts, "}") && ParseStmt(ts) == Failed(e)
  {
    var ts := BrokenYield(s) + rest;
    match s
    case Nothing =>
      assert ts == rest && Classed(rest[0]);
      NextIsSymbol(rest, "}");
    case ReturnWord | ReturnValue(_) => ReturnStops(s, rest, e);
    case AssignName(name) => AssignStops(s, rest, e); NameIsNoSymbol(name);
    case AssignEquals(name) => AssignStops(s, rest, e); NameIsNoSymbol(name);
    case AssignValue(name, _) => AssignStops(s, rest, e); NameIsNoSymbol(name);
    case DeclType(kind) => DeclStops(s, rest, e); NameIsNoSymbol(kind);
    case DeclName(kind, _) => DeclStops(s, rest, e); NameIsNoSymbol(kind);
    case DeclEquals(kind, _) => DeclStops(s, rest, e); NameIsNoSymbol(kind);
    case DeclValue(kind, _, _) => DeclStops(s, rest, e); NameIsNoSymbol(kind);
  }

  lemma {:induction false} BodyStops(body: seq<StmtTree>, last: BrokenStmt, rest: seq<Token>, e: ParserError)
    requires ProperBody(body) && ProperBroken(last) && AllClassed(rest) && Stops(last, rest, e)
    ensures ParseBody(BodyYield(body) + (BrokenYield(last) + rest)) == Failed(e)
  {
    var tail := BrokenYield(last) + rest;
    StmtStops(last, rest, e);
    if body == [] {
      ConcatEmpty(tail);
    } else {
      Assoc(StmtYield(body[0]), BodyYield(body[1..]), tail);
      StmtComplete(body[0], BodyYield(body[1..]) + tail);
      BodyStops(body[1..], last, rest, e);
    }
  }

  /** A body up to the end of the tokens is parsed, and its brace is missed afterwards. */
  lemma {:induction false} BodyEnds(body: seq<StmtTree>)
    requires ProperBody(body)
    ensures ParseBody(BodyYield(body)) == Parsed(BodyAst(body), [])
  {
    if body != [] {
      StmtComplete(body[0], BodyYield(body[1..]));
      BodyEnds(body[1..]);
    }
  }

  lemma HeaderStops(n: nat, rest: seq<Token>)
    requires n < 3 && AllClassed(rest) && !Begins(rest, Sym(PUNCTUATION[n]))
    ensures ParseHeader(Punctuation(n) + rest) == Failed(ExpectedText(PUNCTUATION[n]))
  {
    NextIsSymbol(rest, PUNCTUATION[n]);
    var ts := Punctuation(n) + rest;
    if n == 0 {
      assert ts == rest;
    } else if n == 1 {
      assert ts[1..] == rest;
    } else {
      assert ts[1..][1..] == rest;
    }
  }

  lemma OpenedFunction(kind: Token, name: Token, inner: seq<Token>)
    requires IsType(kind) && IsName(name)
    ensures var ts := [kind, name, Sym("("), Sym(")"), Sym("{")] + inner;
            && !AtEnd(ts) && IsTypeKeyword(ts[0]) && IsIdentifier(ts[1])
            && ParseHeader(ts[2..]) == Parsed((), inner)
  {
    var ts := [kind, name, Sym("("), Sym(")"), Sym("{")] + inner;
    assert ts[2..] == [Sym("("), Sym(")"), Sym("{")] + inner;
    HeaderComplete(inner);
  }

  lemma BodyBreaksOff(f: BrokenFunction, rest: seq<Token>, e: ParserError)
    requires f.InBody? && ProperBrokenFunction(f) && AllClassed(rest) && StopsFunction(f, rest, e)
    ensures var ts := BrokenFunctionYield(f) + rest; !AtEnd(ts) && ParseFunction(ts) == Failed(e)
  {
    var opening := [f.kind, f.name, Sym("("), Sym(")"), Sym("{")];
    Assoc(BodyYield(f.body), BrokenYield(f.last), rest);
    Assoc(opening, BodyYield(f.body) + BrokenYield(f.last), rest);
    OpenedFunction(f.kind, f.name, BodyYield(f.body) + (BrokenYield(f.last) + rest));
    BodyStops(f.body, f.last, rest, e);
  }

  lemma NameBreaksOff(f: BrokenFunction, rest: seq<Token>, e: ParserError)
    requires f.NoName? && ProperBrokenFunction(f) && AllClassed(rest) && StopsFunction(f, rest, e)
    ensures var ts := BrokenFunctionYield(f) + rest; !AtEnd(ts) && ParseFunction(ts) == Failed(e)
  {
    var ts := BrokenFunctionYield(f) + rest;
    assert ts[0] == f.kind;
    if rest != [] {
      assert ts[1] == rest[0] && Classed(rest[0]);
    }
  }

  lemma PunctuationBreaksOff(f: BrokenFunction, rest: seq<Token>, e: ParserError)
    requires f.NoPunctuation? && ProperBrokenFunction(f) && AllClassed(rest) && StopsFunction(f, rest, e)
    ensures var ts := BrokenFunctionYield(f) + rest; !AtEnd(ts) && ParseFunction(ts) == Failed(e)
  {
    var ts := BrokenFunctionYield(f) + rest;
    assert ts[2..] == Punctuation(f.n) + rest;
    HeaderStops(f.n, rest);
  }

  lemma FunctionStops(f: BrokenFunction, rest: seq<Token>, e: ParserError)
    requires ProperBrokenFunction(f) && AllClassed(rest) && StopsFunction(f, rest, e)
    ensures var ts := BrokenFunctionYield(f) + rest; !AtEnd(ts) && ParseFunction(ts) == Failed(e)
  {
    var ts := BrokenFunctionYield(f) + rest;
    match f
    case NoType =>
      assert ts == rest;
      FunctionDispatch(rest);
    case NoName(_) => NameBreaksOff(f, rest, e);
    case NoPunctuation(_, _, _) => PunctuationBreaksOff(f, rest, e);
    case InBody(_, _, _, _) => BodyBreaksOff(f, rest, e);
    case Unclosed(kind, name, body) =>
      ConcatEmpty(BrokenFunctionYield(f));
      OpenedFunction(kind, name, BodyYield(body));
      BodyEnds(body);
  }

  lemma {:induction false} UnitStops(fs: seq<FunctionTree>, f: BrokenFunction, rest: seq<Token>, e: ParserError)
    requires ProperUnit(fs) && ProperBrokenFunction(f) && AllClassed(rest) && StopsFunction(f, rest, e)
    ensures ParseUnit(UnitYield(fs) + (BrokenFunctionYield(f) + rest)) == Failed(e)
  {
    var tail := BrokenFunctionYield(f) + rest;
    if fs == [] {
      FunctionStops(f, rest, e);
      ConcatEmpty(tail);
    } else {
      ProperTail(fs);
      Assoc(FunctionYield(fs[0]), UnitYield(fs[1..]), tail);
      FunctionComplete(fs[0], UnitYield(fs[1..]) + tail);
      UnitStops(fs[1..], f, rest, e);
    }
  }

  // ---------- Every failure is such a place ----------

  lemma ClassedFrom(ts: seq<Token>, n: nat)
    requires AllClassed(ts) && n <= |ts|
    ensures AllClassed(ts[n..])
    ensures forall k | 0 <= k < n :: Classed(ts[k])
  {
    TakeDrop(ts, n);
    ClassedRest(ts[..n], ts[n..]);
  }

  lemma LeafIff(ts: seq<Token>)
    requires AllClassed(ts)
    ensures BeginsWithLeaf(ts) <==> ParseExpr(ts).Parsed?
  {
    if ts != [] {
      assert Classed(ts[0]);
    }
  }

  lemma DeclError(ts: seq<Token>) returns (s: BrokenStmt, rest: seq<Token>)
    requires AllClassed(ts) && ts != [] && IsType(ts[0]) && ParseVarDecl(ts).Failed?
    ensures ProperBroken(s) && ts == BrokenYield(s) + rest && AllClassed(rest)
    ensures Stops(s, rest, ParseVarDecl(ts).error)
  {
    if |ts| == 1 || ts[1].kind != Identifier {
      s, rest := DeclType(ts[0]), ts[1..];
      ClassedFrom(ts, 1);
      return;
    }
    ClassedFrom(ts, 2);
    var u := ts[2..];
    NextIsSymbol(u, "=");
    NextIsSymbol(u, ";");
    if !NextIs(u, "=") {
      s, rest := DeclName(ts[0], ts[1]), u;
      return;
    }
    ClassedFrom(ts, 3);
    assert u[1..] == ts[3..];
    LeafIff(ts[3..]);
    if !BeginsWithLeaf(ts[3..]) {
      s, rest := DeclEquals(ts[0], ts[1]), ts[3..];
      return;
    }
    ClassedFrom(ts, 4);
    NextIsSymbol(ts[4..], ";");
    assert ts[3..][1..] == ts[4..];
    s, rest := DeclValue(ts[0], ts[1], ts[3]), ts[4..];
  }

  /** How an expression and a semicolon fail, `n` tokens into the statement. */
  lemma AssignedError(lhs: string, ts: seq<Token>, n: nat) returns (hasValue: bool)
    requires AllClassed(ts) && n <= |ts| && ParseAssigned(lhs, ts[n..]).Failed?
    ensures AllClassed(ts[n..])
    ensures var e := ParseAssigned(lhs, ts[n..]).error;
            if hasValue then
              && |ts| > n && IsLeaf(ts[n]) && AllClassed(ts[n + 1..])
              && !Begins(ts[n + 1..], Sym(";")) && e == ExpectedText(";")
            else !BeginsWithLeaf(ts[n..]) && e == UnsupportedExpression
  {
    ClassedFrom(ts, n);
    LeafIff(ts[n..]);
    hasValue := BeginsWithLeaf(ts[n..]);
    if hasValue {
      ClassedFrom(ts, n + 1);
      assert ts[n..][1..] == ts[n + 1..];
      NextIsSymbol(ts[n + 1..], ";");
    }
  }

  lemma AssignError(ts: seq<Token>) returns (s: BrokenStmt, rest: seq<Token>)
    requires AllClassed(ts) && ts != [] && IsName(ts[0]) && ParseAssignment(ts).Failed?
    ensures ProperBroken(s) && ts == BrokenYield(s) + rest && AllClassed(rest)
    ensures Stops(s, rest, ParseAssignment(ts).error)
  {
    ClassedFrom(ts, 1);
    NextIsSymbol(ts[1..], "=");
    if !NextIs(ts[1..], "=") {
      s, rest := AssignName(ts[0]), ts[1..];
      return;
    }
    var hasValue := AssignedError(ts[0].text, ts, 2);
    if hasValue {
      s, rest := AssignValue(ts[0], ts[2]), ts[3..];
    } else {
      s, rest := AssignEquals(ts[0]), ts[2..];
    }
  }

  lemma StmtError(ts: seq<Token>) returns (s: BrokenStmt, rest: seq<Token>)
    requires AllClassed(ts) && ts != [] && !NextIs(ts, "}") && ParseStmt(ts).Failed?
    ensures ProperBroken(s) && ts == BrokenYield(s) + rest && AllClassed(rest)
    ensures Stops(s, rest, ParseStmt(ts).error)
  {
    StmtDispatch(ts);
    if IsType(ts[0]) {
      s, rest := DeclError(ts);
    } else if ts[0] == RETURN {
      var hasValue := AssignedError("return", ts, 1);
      if hasValue {
        s, rest := ReturnValue(ts[1]), ts[2..];
      } else {
        s, rest := ReturnWord, ts[1..];
      }
    } else if IsName(ts[0]) {
      s, rest := AssignError(ts);
    } else {
      s, rest := Nothing, ts;
    }
  }

  lemma {:induction false} BodyError(ts: seq<Token>) returns (body: seq<StmtTree>, last: BrokenStmt, rest: seq<Token>)
    requires AllClassed(ts) && ParseBody(ts).Failed?
    ensures ProperBody(body) && ProperBroken(last) && AllClassed(rest)
    ensures ts == BodyYield(body) + (BrokenYield(last) + rest)
    ensures Stops(last, rest, ParseBody(ts).error)
    decreases |ts|
  {
    if ParseStmt(ts).Failed? {
      last, rest := StmtError(ts);
      body := [];
      ConcatEmpty(ts);
    } else {
      var s := StmtSound(ts);
      var after := ParseStmt(ts).rest;
      ClassedRest(StmtYield(s), after);
      var more;
      more, last, rest := BodyError(after);
      body := [s] + more;
      BodyCons(s, more);
      Assoc(StmtYield(s), BodyYield(more), BrokenYield(last) + rest);
    }
  }

  lemma HeaderError(ts: seq<Token>) returns (n: nat)
    requires AllClassed(ts) && ParseHeader(ts).Failed?
    ensures n < 3 && n <= |ts| && ts == Punctuation(n) + ts[n..] && AllClassed(ts[n..])
    ensures !Begins(ts[n..], Sym(PUNCTUATION[n])) && ParseHeader(ts).error == ExpectedText(PUNCTUATION[n])
  {
    n := if !NextIs(ts, "(") then 0 else if !NextIs(ts[1..], ")") then 1 else 2;
    ClassedFrom(ts, n);
    NextIsSymbol(ts, "(");
    NextIsSymbol(ts[n..], PUNCTUATION[n]);
    if n > 0 {
      ClassedFrom(ts, 1);
      NextIsSymbol(ts[1..], ")");
    }
    if n == 2 {
      assert ts[1..][1..] == ts[2..];
    }
    TakeDrop(ts, n);
  }

  lemma OpenedSound(ts: seq<Token>)
    requires AllClassed(ts) && |ts| > 1 && IsType(ts[0]) && IsName(ts[1]) && ParseHeader(ts[2..]).Parsed?
    ensures |ts| >= 5 && AllClassed(ts[5..]) && ParseHeader(ts[2..]) == Parsed((), ts[5..])
    ensures ts == [ts[0], ts[1], Sym("("), Sym(")"), Sym("{")] + ts[5..]
  {
    assert ParseHeader(ts[2..]).rest == ts[2..][1..][1..][1..] == ts[5..];
    ClassedFrom(ts, 5);
    SymbolText(ts[2]);
    SymbolText(ts[3]);
    SymbolText(ts[4]);
    TakeDrop(ts, 5);
  }

  /** A function that fails behind its opening brace. */
  lemma InnerError(ts: seq<Token>) returns (f: BrokenFunction, rest: seq<Token>)
    requires AllClassed(ts) && |ts| > 1 && IsType(ts[0]) && IsName(ts[1])
    requires ParseHeader(ts[2..]).Parsed? && ParseFunction(ts).Failed?
    ensures ProperBrokenFunction(f) && AllClassed(rest) && ts == BrokenFunctionYield(f) + rest
    ensures StopsFunction(f, rest, ParseFunction(ts).error)
  {
    OpenedSound(ts);
    var opening, inner := [ts[0], ts[1], Sym("("), Sym(")"), Sym("{")], ts[5..];
    if ParseBody(inner).Failed? {
      var body, last;
      body, last, rest := BodyError(inner);
      f := InBody(ts[0], ts[1], body, last);
      Assoc(BodyYield(body), BrokenYield(last), rest);
      Assoc(opening, BodyYield(body) + BrokenYield(last), rest);
    } else {
      var body := BodySound(inner);
      f, rest := Unclosed(ts[0], ts[1], body), [];
      ConcatEmpty(BodyYield(body));
      ConcatEmpty(ts);
    }
  }

  lemma FunctionError(ts: seq<Token>) returns (f: BrokenFunction, rest: seq<Token>)
    requires AllClassed(ts) && !AtEnd(ts) && ParseFunction(ts).Failed?
    ensures ProperBrokenFunction(f) && AllClassed(rest) && ts == BrokenFunctionYield(f) + rest
    ensures StopsFunction(f, rest, ParseFunction(ts).error)
  {
    FunctionDispatch(ts);
    ClassedFrom(ts, 1);
    if !IsType(ts[0]) {
      f, rest := NoType, ts;
      return;
    }
    if !BeginsWithName(ts[1..]) {
      f, rest := NoName(ts[0]), ts[1..];
      return;
    }
    ClassedFrom(ts, 2);
    if ParseHeader(ts[2..]).Failed? {
      var n := HeaderError(ts[2..]);
      f, rest := NoPunctuation(ts[0], ts[1], n), ts[2..][n..];
      return;
    }
    f, rest := InnerError(ts);
  }

  lemma {:induction false} UnitError(ts: seq<Token>)
      returns (fs: seq<FunctionTree>, f: BrokenFunction, rest: seq<Token>)
    requires AllClassed(ts) && ParseUnit(ts).Failed?
    ensures AllClassed(rest) && BreaksOff(ts, fs, f, rest, ParseUnit(ts).error)
    decreases |ts|
  {
    if ParseFunction(ts).Failed? {
      f, rest := FunctionError(ts);
      fs := [];
      ConcatEmpty(ts);
    } else {
      var g := FunctionSound(ts);
      var after := ParseFunction(ts).rest;
      ClassedRest(FunctionYield(g), after);
      var more;
      more, f, rest := UnitError(after);
      fs := [g] + more;
      UnitCons(g, more);
      Assoc(FunctionYield(g), UnitYield(more), BrokenFunctionYield(f) + rest);
    }
  }

  ghost predicate BreaksOffAs(ts: seq<Token>, e: ParserError) {
    exists fs, f, rest :: BreaksOff(ts, fs, f, rest, e)
  }

  /**
   Parsing fails with an error iff the tokens begin like a unit up to a place where that error says
   what was expected, and do not go on like one.
   */
  lemma ErrorIff(ts: seq<Token>, e: ParserError)
    requires AllClassed(ts)
    ensures Parse(ts) == Err(e) <==> BreaksOffAs(ts, e)
  {
    if ParseUnit(ts).Failed? {
      var fs, f, rest := UnitError(ts);
    }
    if BreaksOffAs(ts, e) {
      var fs, f, rest :| BreaksOff(ts, fs, f, rest, e);
      ClassedJoin(UnitYield(fs), BrokenFunctionYield(f) + rest);
      ClassedJoin(BrokenFunctionYield(f), rest);
      UnitStops(fs, f, rest, e);
    }
  }
}
