/**
 Scanner and parser together: printing a syntax tree, in any layout and with any choice of
 expressions, and reading it back gives that tree. Also how parses compose, on any tokens.
 */
module FrontEnd {
  import opened Wrappers
  import opened Lexing
  import opened LexicalSyntax
  import opened LexingTheory
  import opened Parsing
  import opened Grammar
  import opened LexicalRules
  import opened Numerals
  import opened ParseErrors
  import opened Sequences

  // ---------- Composition ----------

  lemma AssignedExtends(lhs: string, ts: seq<Token>, more: seq<Token>)
    requires ParseAssigned(lhs, ts).Parsed?
    ensures ParseAssigned(lhs, ts + more) == Parsed(ParseAssigned(lhs, ts).value, ParseAssigned(lhs, ts).rest + more)
  {
    assert (ts + more)[1..] == ts[1..] + more;
    assert (ts[1..] + more)[1..] == ts[1..][1..] + more;
  }

  lemma InitExtends(ts: seq<Token>, more: seq<Token>)
    requires Then(ParseInit(ts), ";").Parsed?
    ensures Then(ParseInit(ts + more), ";") ==
            Parsed(Then(ParseInit(ts), ";").value, Then(ParseInit(ts), ";").rest + more)
  {
    assert (ts + more)[1..] == ts[1..] + more;
    if NextIs(ts, "=") {
      assert (ts[1..] + more)[1..] == ts[1..][1..] + more;
      assert (ts[1..][1..] + more)[1..] == ts[1..][1..][1..] + more;
    }
  }

  /** A parse that succeeded does not depend on the tokens behind it. */
  lemma StmtExtends(ts: seq<Token>, more: seq<Token>)
    requires ts != [] && ParseStmt(ts).Parsed?
    ensures ParseStmt(ts + more) == Parsed(ParseStmt(ts).value, ParseStmt(ts).rest + more)
  {
    if IsTypeKeyword(ts[0]) {
      assert (ts + more)[2..] == ts[2..] + more;
      InitExtends(ts[2..], more);
    } else if IsReturn(ts[0]) {
      assert (ts + more)[1..] == ts[1..] + more;
      AssignedExtends("return", ts[1..], more);
    } else {
      assert (ts + more)[1..] == ts[1..] + more && (ts + more)[2..] == ts[2..] + more;
      AssignedExtends(ts[0].text, ts[2..], more);
    }
  }

  lemma {:induction false} BodyExtends(ts: seq<Token>, more: seq<Token>)
    requires ParseBody(ts).Parsed? && ParseBody(ts).rest != []
    ensures ParseBody(ts + more) == Parsed(ParseBody(ts).value, ParseBody(ts).rest + more)
    decreases |ts|
  {
    if !NextIs(ts, "}") {
      StmtExtends(ts, more);
      BodyExtends(ParseStmt(ts).rest, more);
    }
  }

  lemma HeaderExtends(ts: seq<Token>, more: seq<Token>)
    requires ParseHeader(ts).Parsed?
    ensures ParseHeader(ts + more) == Parsed((), ParseHeader(ts).rest + more)
  {
    DropJoin(ts, more, 1);
    DropJoin(ts[1..], more, 1);
    DropJoin(ts[1..][1..], more, 1);
  }

  lemma FunctionExtends(ts: seq<Token>, more: seq<Token>)
    requires ParseFunction(ts).Parsed?
    ensures ParseFunction(ts + more) == Parsed(ParseFunction(ts).value, ParseFunction(ts).rest + more)
  {
    DropJoin(ts, more, 2);
    HeaderExtends(ts[2..], more);
    var inner := ParseHeader(ts[2..]).rest;
    BodyExtends(inner, more);
    DropJoin(ParseBody(inner).rest, more, 1);
    assert (ts + more)[0] == ts[0] && (ts + more)[1] == ts[1];
  }

  /** Parsing composes: units written one after the other parse to their declarations in order. */
  lemma {:induction false} UnitsCompose(a: seq<Token>, b: seq<Token>)
    requires ParseUnit(a).Parsed? && ParseUnit(a).rest == []
    ensures ParseUnit(a + b) == More(ParseUnit(a).value, ParseUnit(b))
    decreases |a|
  {
    if a == [] {
      assert a + b == b;
      MoreTwice([], [], ParseUnit(b));
    } else {
      FunctionExtends(a, b);
      var rest := ParseFunction(a).rest;
      UnitsCompose(rest, b);
      MoreTwice([ParseFunction(a).value], ParseUnit(rest).value, ParseUnit(b));
    }
  }

  lemma {:induction false} NoEofConsumesAll(a: seq<Token>)
    requires ParseUnit(a).Parsed? && forall k | 0 <= k < |a| :: a[k].kind != EndOfFile
    ensures ParseUnit(a).rest == []
    decreases |a|
  {
    if a != [] {
      var rest := ParseFunction(a).rest;
      FunctionLeavesSuffix(a);
      NoEofConsumesAll(rest);
    }
  }

  lemma StmtLeavesSuffix(ts: seq<Token>)
    requires ts != [] && ParseStmt(ts).Parsed?
    ensures ParseStmt(ts).rest == ts[|ts| - |ParseStmt(ts).rest|..]
  {
  }

  lemma {:induction false} BodyLeavesSuffix(ts: seq<Token>)
    requires ParseBody(ts).Parsed?
    ensures ParseBody(ts).rest == ts[|ts| - |ParseBody(ts).rest|..]
    decreases |ts|
  {
    if ts != [] && !NextIs(ts, "}") {
      var after := ParseStmt(ts).rest;
      StmtLeavesSuffix(ts);
      BodyLeavesSuffix(after);
      DropTwice(ts, |ts| - |after|, |after| - |ParseBody(after).rest|);
    }
  }

  lemma FunctionLeavesSuffix(ts: seq<Token>)
    requires ParseFunction(ts).Parsed?
    ensures ParseFunction(ts).rest == ts[|ts| - |ParseFunction(ts).rest|..]
  {
    assert ParseHeader(ts[2..]).rest == ts[5..];
    BodyLeavesSuffix(ts[5..]);
  }

  /** Token lists without an end of file that parse also parse one after the other. */
  lemma ParsesCompose(a: seq<Token>, b: seq<Token>)
    requires Parse(a).Ok? && Parse(b).Ok?
    requires forall k | 0 <= k < |a| :: a[k].kind != EndOfFile
    ensures Parse(a + b) == Ok(TranslationUnit(Parse(a).value.decls + Parse(b).value.decls))
  {
    NoEofConsumesAll(a);
    UnitsCompose(a, b);
  }

  // ---------- A trailing end of file ----------

  lemma StmtFailsBeforeEof(ts: seq<Token>)
    requires ts != [] && ParseStmt(ts).Failed?
    ensures ParseStmt(ts + [EOF]).Failed?
  {
  }

  lemma {:induction false} BodyFailsBeforeEof(ts: seq<Token>)
    requires ParseBody(ts).Failed? || ParseBody(ts).rest == []
    ensures ParseBody(ts + [EOF]).Failed?
    decreases |ts|
  {
    if ts == [] {
      assert ts + [EOF] == [EOF];
      assert ParseStmt([EOF]).Failed?;
    } else if ParseStmt(ts).Failed? {
      StmtFailsBeforeEof(ts);
    } else {
      StmtExtends(ts, [EOF]);
      BodyFailsBeforeEof(ParseStmt(ts).rest);
    }
  }

  lemma HeaderFailsBeforeEof(ts: seq<Token>)
    requires ParseHeader(ts).Failed?
    ensures ParseHeader(ts + [EOF]).Failed?
  {
  }

  lemma FunctionFailsBeforeEof(ts: seq<Token>)
    requires ParseFunction(ts).Failed? && ts != []
    ensures ParseFunction(ts + [EOF]).Failed?
  {
    if IsTypeKeyword(ts[0]) && |ts| > 1 && IsIdentifier(ts[1]) {
      assert (ts + [EOF])[2..] == ts[2..] + [EOF];
      if ParseHeader(ts[2..]).Failed? {
        HeaderFailsBeforeEof(ts[2..]);
      } else {
        HeaderExtends(ts[2..], [EOF]);
        var inner := ParseHeader(ts[2..]).rest;
        if ParseBody(inner).Failed? || ParseBody(inner).rest == [] {
          BodyFailsBeforeEof(inner);
        }
      }
    }
  }

  /** A trailing end of file changes neither success nor the tree, on any tokens. */
  lemma {:induction false} TrailingEofIsImmaterial(ts: seq<Token>)
    ensures Parse(ts + [EOF]).Ok? <==> Parse(ts).Ok?
    ensures Parse(ts).Ok? ==> Parse(ts + [EOF]) == Parse(ts)
    decreases |ts|
  {
    if ts == [] {
      assert ts + [EOF] == [EOF];
    } else if !AtEnd(ts) {
      if ParseFunction(ts).Failed? {
        FunctionFailsBeforeEof(ts);
      } else {
        FunctionExtends(ts, [EOF]);
        TrailingEofIsImmaterial(ParseFunction(ts).rest);
      }
    }
  }

  // ---------- Printing ----------

  predicate PrintableStmt(s: Stmt) {
    match s
    case VarDecl(typeName, name, _) => TypeText(typeName) && IdentifierText(name)
    case AssignmentExpr(lhs, _) => lhs == "return" || IdentifierText(lhs)
  }

  predicate PrintableBody(body: seq<Stmt>) {
    forall k | 0 <= k < |body| :: PrintableStmt(body[k])
  }

  predicate PrintableFunction(f: FunctionDecl) {
    TypeText(f.returnType) && IdentifierText(f.name) && PrintableBody(f.body)
  }

  /** Names are identifiers and types are the type keywords. */
  predicate Printable(decls: seq<FunctionDecl>) {
    forall k | 0 <= k < |decls| :: PrintableFunction(decls[k])
  }

  /** A token that may be written for an expression. */
  ghost predicate ExprToken(t: Token) {
    CleanToken(t) && (t.kind == Identifier || t.kind == ConstantNumberLiteral)
  }

  function StmtPrinted(s: Stmt, expr: Token): StmtTree {
    match s
    case VarDecl(typeName, name, init) =>
      DeclTree(Token(Keyword, typeName), Token(Identifier, name), if init.Some? then Some(expr) else None)
    case AssignmentExpr(lhs, _) =>
      if lhs == "return" then ReturnTree(expr) else AssignTree(Token(Identifier, lhs), expr)
  }

  /** Each statement has at most one expression: the choice for it comes from `exprs`, by position. */
  function BodyPrinted(body: seq<Stmt>, exprs: nat -> Token, from: nat): seq<StmtTree>
    decreases |body|
  {
    if body == [] then [] else [StmtPrinted(body[0], exprs(from))] + BodyPrinted(body[1..], exprs, from + 1)
  }

  function FunctionPrinted(f: FunctionDecl, exprs: nat -> Token, from: nat): FunctionTree {
    FunctionTree(Token(Keyword, f.returnType), Token(Identifier, f.name), BodyPrinted(f.body, exprs, from))
  }

  function UnitPrinted(decls: seq<FunctionDecl>, exprs: nat -> Token, from: nat): seq<FunctionTree>
    decreases |decls|
  {
    if decls == [] then []
    else [FunctionPrinted(decls[0], exprs, from)] + UnitPrinted(decls[1..], exprs, from + |decls[0].body|)
  }

  /** The tokens written for `decls`. */
  function Printed(decls: seq<FunctionDecl>, exprs: nat -> Token): seq<Token> {
    UnitYield(UnitPrinted(decls, exprs, 0))
  }

  // ---------- What is printed stands alone ----------

  lemma WordIsClean(x: string)
    requires x != "" && StartsWord(x[0]) && AllIn(x, Word)
    ensures CleanToken(WordToken(x))
  {
    SpanIs(x, 0, Word, |x|);
    assert x[..|x|] == x;
    TextDeterminesClass(x);
  }

  /** Every integer constant, and every identifier, may be written for an expression. */
  lemma ConstantsAreExpressions(x: string)
    requires IntegerConstant(x) || IdentifierText(x)
    ensures ExprToken(Token(if IdentifierText(x) then Identifier else ConstantNumberLiteral, x))
  {
    if IdentifierText(x) {
      WordIsClean(x);
    } else {
      IntegerConstantsStandAlone(x);
    }
  }

  lemma SymbolIsClean(c: char)
    requires c in SYMBOLS
    ensures CleanToken(Sym([c]))
  {
    assert [c][..1] == [c];
    TextDeterminesClass([c]);
  }

  lemma TypeKeywordsAreWords(x: string)
    requires TypeText(x) || x == "return"
    ensures x in KEYWORDS && AllIn(x, Word)
  {
  }

  lemma TypeIsClean(x: string)
    requires TypeText(x) || x == "return"
    ensures CleanToken(Token(Keyword, x))
  {
    TypeKeywordsAreWords(x);
    KeywordsStartWords();
    WordIsClean(x);
  }

  lemma PunctuationIsClean()
    ensures CleanToken(Sym("(")) && CleanToken(Sym(")")) && CleanToken(Sym("{")) && CleanToken(Sym("}"))
    ensures CleanToken(Sym("=")) && CleanToken(Sym(";"))
  {
    SymbolIsClean('(');
    SymbolIsClean(')');
    SymbolIsClean('{');
    SymbolIsClean('}');
    SymbolIsClean('=');
    SymbolIsClean(';');
  }

  lemma CleanJoin(a: seq<Token>, b: seq<Token>)
    requires Clean(a) && Clean(b)
    ensures Clean(a + b)
  {
  }

  lemma StmtPrintedOk(s: Stmt, expr: Token)
    requires PrintableStmt(s) && ExprToken(expr)
    ensures var t := StmtPrinted(s, expr); ProperStmt(t) && StmtAst(t) == s && Clean(StmtYield(t))
  {
    PunctuationIsClean();
    match s
    case VarDecl(typeName, name, init) =>
      TypeIsClean(typeName);
      WordIsClean(name);
      assert init.Some? ==> init.value == AstNode;
    case AssignmentExpr(lhs, _) =>
      if lhs == "return" {
        TypeIsClean(lhs);
      } else {
        WordIsClean(lhs);
      }
  }

  lemma {:induction false} BodyPrintedOk(body: seq<Stmt>, exprs: nat -> Token, from: nat)
    requires PrintableBody(body) && forall k: nat :: ExprToken(exprs(k))
    ensures BodyPrintsAs(body, BodyPrinted(body, exprs, from))
    decreases |body|
  {
    if body != [] {
      assert PrintableStmt(body[0]);
      StmtPrintedOk(body[0], exprs(from));
      BodyPrintedOk(body[1..], exprs, from + 1);
      BodyPrintedCons(body, StmtPrinted(body[0], exprs(from)), BodyPrinted(body[1..], exprs, from + 1));
    } else {
      assert BodyPrinted(body, exprs, from) == [];
    }
  }

  /** A derivation of `body` whose tokens can be printed. */
  ghost predicate BodyPrintsAs(body: seq<Stmt>, trees: seq<StmtTree>) {
    ProperBody(trees) && BodyAst(trees) == body && Clean(BodyYield(trees))
  }

  lemma BodyPrintedCons(body: seq<Stmt>, s: StmtTree, more: seq<StmtTree>)
    requires body != [] && StmtAst(s) == body[0] && ProperStmt(s) && Clean(StmtYield(s))
    requires BodyPrintsAs(body[1..], more)
    ensures BodyPrintsAs(body, [s] + more)
  {
    BodyCons(s, more);
    CleanJoin(StmtYield(s), BodyYield(more));
    SplitHead(body);
  }

  lemma FunctionPrintedOk(f: FunctionDecl, exprs: nat -> Token, from: nat)
    requires PrintableFunction(f) && forall k: nat :: ExprToken(exprs(k))
    ensures var t := FunctionPrinted(f, exprs, from);
            ProperFunction(t) && FunctionAst(t) == f && Clean(FunctionYield(t))
  {
    PunctuationIsClean();
    TypeIsClean(f.returnType);
    WordIsClean(f.name);
    BodyPrintedOk(f.body, exprs, from);
    var t := FunctionPrinted(f, exprs, from);
    CleanJoin(BodyYield(t.body), [Sym("}")]);
    CleanJoin([t.kind, t.name, Sym("("), Sym(")"), Sym("{")], BodyYield(t.body) + [Sym("}")]);
  }

  lemma PrintableTail(decls: seq<FunctionDecl>)
    requires Printable(decls) && decls != []
    ensures PrintableFunction(decls[0]) && Printable(decls[1..])
  {
  }

  lemma UnitPrintedSplits(decls: seq<FunctionDecl>, exprs: nat -> Token, from: nat)
    ensures if decls == [] then UnitPrinted(decls, exprs, from) == [] && PrintsAs([], []) else
            UnitPrinted(decls, exprs, from) ==
            [FunctionPrinted(decls[0], exprs, from)] + UnitPrinted(decls[1..], exprs, from + |decls[0].body|)
  {
  }

  lemma {:induction false} UnitPrintedOk(decls: seq<FunctionDecl>, exprs: nat -> Token, from: nat)
    requires Printable(decls) && forall k: nat :: ExprToken(exprs(k))
    ensures PrintsAs(decls, UnitPrinted(decls, exprs, from))
    decreases |decls|
  {
    UnitPrintedSplits(decls, exprs, from);
    if decls != [] {
      var next := from + |decls[0].body|;
      PrintableTail(decls);
      FunctionPrintedOk(decls[0], exprs, from);
      UnitPrintedOk(decls[1..], exprs, next);
      var trees := UnitPrinted(decls, exprs, from);
      UnitPrintedCons(decls, trees, FunctionPrinted(decls[0], exprs, from), UnitPrinted(decls[1..], exprs, next));
    }
  }

  /** A derivation of `decls` whose tokens can be printed. */
  ghost predicate PrintsAs(decls: seq<FunctionDecl>, fs: seq<FunctionTree>) {
    ProperUnit(fs) && UnitAst(fs) == decls && Clean(UnitYield(fs))
  }

  lemma UnitPrintedCons(decls: seq<FunctionDecl>, trees: seq<FunctionTree>, f: FunctionTree, more: seq<FunctionTree>)
    requires trees == [f] + more
    requires decls != [] && FunctionAst(f) == decls[0] && ProperFunction(f) && Clean(FunctionYield(f))
    requires PrintsAs(decls[1..], more)
    ensures PrintsAs(decls, trees)
  {
    UnitCons(f, more);
    CleanJoin(FunctionYield(f), UnitYield(more));
    assert decls == [decls[0]] + decls[1..];
  }

  // ---------- Reading back ----------

  datatype FrontEndError = Lexical(lexer: LexerError) | Syntactic(parser: ParserError)

  /** Scanning without the end of file, and then parsing. */
  function Read(source: string): Result<TranslationUnit, FrontEndError> {
    match Lex(source)
    case Err(e) => Err(Lexical(e))
    case Ok(tokens) => match Parse(tokens) case Err(e) => Err(Syntactic(e)) case Ok(unit) => Ok(unit)
  }

  method ReadSource(source: string) returns (r: Result<TranslationUnit, FrontEndError>)
    ensures r == Read(source)
  {
    var lexed := Tokenize(source);
    match lexed
    case Err(e) => return Err(Lexical(e));
    case Ok(tokens) =>
      var parser := new Parser(tokens);
      var parsed := parser.ParseTranslationUnit();
      match parsed
      case Err(e) => return Err(Syntactic(e));
      case Ok(unit) => return Ok(unit);
  }

  lemma PrintedParses(unit: TranslationUnit, exprs: nat -> Token)
    requires Printable(unit.decls) && forall k: nat :: ExprToken(exprs(k))
    ensures Clean(Printed(unit.decls, exprs)) && Parse(Printed(unit.decls, exprs)) == Ok(unit)
  {
    UnitPrintedOk(unit.decls, exprs, 0);
    var fs := UnitPrinted(unit.decls, exprs, 0);
    UnitComplete(fs, []);
    assert UnitYield(fs) + [] == UnitYield(fs);
  }

  /**
   Round trip: for every printable unit, every choice of expressions and every layout with white
   space between tokens, reading what is printed gives the unit back.
   */
  lemma SourceRoundTrip(unit: TranslationUnit, exprs: nat -> Token, gaps: seq<string>)
    requires Printable(unit.decls) && forall k: nat :: ExprToken(exprs(k))
    requires |gaps| == |Printed(unit.decls, exprs)| + 1 && AllGaps(gaps) && Separates(gaps)
    ensures Read(Weave(gaps, Printed(unit.decls, exprs))) == Ok(unit)
  {
    PrintedParses(unit, exprs);
    WovenTokensScan(gaps, Printed(unit.decls, exprs));
  }

  lemma SpacedSourceRoundTrip(unit: TranslationUnit, exprs: nat -> Token)
    requires Printable(unit.decls) && forall k: nat :: ExprToken(exprs(k))
    ensures Read(Join(Printed(unit.decls, exprs))) == Ok(unit)
  {
    PrintedParses(unit, exprs);
    JoinedTokensScan(Printed(unit.decls, exprs));
  }

  lemma LexedIsClassed(source: string)
    requires Lex(source).Ok?
    ensures AllClassed(Lex(source).value)
    ensures forall k | 0 <= k < |Lex(source).value| :: Lex(source).value[k].kind != EndOfFile
  {
    var tokens := Lex(source).value;
    LexedIsClean(source);
    forall k | 0 <= k < |tokens| ensures Classed(tokens[k]) && tokens[k].kind != EndOfFile {
      assert CleanToken(tokens[k]);
      TextDeterminesClass(tokens[k].text);
    }
  }

  /** Whatever is read is what the grammar makes of the tokens, whose only derivation it is. */
  lemma ReadIsGrammar(source: string, unit: TranslationUnit)
    ensures Read(source) == Ok(unit) <==> Lex(source).Ok? && exists fs :: Derives(fs, Lex(source).value, unit)
  {
    if Lex(source).Ok? {
      var tokens := Lex(source).value;
      LexedIsClassed(source);
      ParserIsGrammar(tokens, unit);
      UpToEofSplits(tokens, []);
      assert tokens + [] == tokens;
    }
  }

  /** What must hold of a source for reading it to fail with `e`. */
  ghost predicate FailsWith(source: string, e: FrontEndError) {
    match e
    case Lexical(InvalidCharacter(c)) => exists i: nat :: FirstOutside(source, i) && source[i] == c
    case Syntactic(error) => Lex(source).Ok? && BreaksOffAs(Lex(source).value, error)
  }

  /**
   Reading fails at the first character outside the alphabet, and if there is none, at the place where
   the tokens stop being the beginning of a unit.
   */
  lemma ReadErrorIff(source: string, e: FrontEndError)
    ensures Read(source) == Err(e) <==> FailsWith(source, e)
  {
    ScansIffInAlphabet(source);
    forall i: nat | FirstOutside(source, i) ensures Lex(source) == Err(InvalidCharacter(source[i])) {
      ErrorIsFirstOutside(source, i);
    }
    if Lex(source).Ok? {
      LexedIsClassed(source);
      if e.Syntactic? {
        ErrorIff(Lex(source).value, e.parser);
      }
    } else {
      var i := FirstOutsideExists(source);
      assert FirstOutside(source, i);
    }
  }
}
