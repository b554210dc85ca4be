/**
 The grammar of the C front end, and the parser measured against it: on tokens as the scanner
 produces them it accepts exactly what the grammar derives, and returns the tree of the only
 derivation.

   unit      = function*
   function  = type identifier `(` `)` `{` statement* `}`
   statement = type identifier [`=` expression] `;` | `return` expression `;` | identifier `=` expression `;`
   expression = identifier | constant
 */
module Grammar {
  import opened Wrappers
  import opened Lexing
  import opened LexicalSyntax
  import opened LexingTheory
  import opened Parsing
  import opened Sequences

  // ---------- Derivations ----------

  /** A derivation of a statement, by the tokens the grammar leaves open. */
  datatype StmtTree =
    | DeclTree(kind: Token, name: Token, init: Option<Token>)
    | ReturnTree(value: Token)
    | AssignTree(name: Token, value: Token)

  datatype FunctionTree = FunctionTree(kind: Token, name: Token, body: seq<StmtTree>)

  /** The class of the token is the one its text has, as in everything the scanner returns. */
  predicate Classed(t: Token) {
    t.kind == ClassOf(t.text)
  }

  predicate AllClassed(ts: seq<Token>) {
    forall k | 0 <= k < |ts| :: Classed(ts[k])
  }

  predicate IsName(t: Token) {
    t.kind == Identifier && Classed(t)
  }

  predicate IsLeaf(t: Token) {
    (t.kind == Identifier || t.kind == ConstantNumberLiteral) && Classed(t)
  }

  predicate IsType(t: Token) {
    t.kind == Keyword && TypeText(t.text)
  }

  predicate ProperStmt(s: StmtTree) {
    match s
    case DeclTree(kind, name, init) => IsType(kind) && IsName(name) && (init.Some? ==> IsLeaf(init.value))
    case ReturnTree(value) => IsLeaf(value)
    case AssignTree(name, value) => IsName(name) && IsLeaf(value)
  }

  predicate ProperBody(body: seq<StmtTree>) {
    forall k | 0 <= k < |body| :: ProperStmt(body[k])
  }

  predicate ProperFunction(f: FunctionTree) {
    IsType(f.kind) && IsName(f.name) && ProperBody(f.body)
  }

  predicate ProperUnit(fs: seq<FunctionTree>) {
    forall k | 0 <= k < |fs| :: ProperFunction(fs[k])
  }

  function Sym(text: string): Token {
    Token(Symbol, text)
  }

  const RETURN := Token(Keyword, "return")

  // ---------- The tokens derived ----------

  function StmtYield(s: StmtTree): seq<Token> {
    match s
    case DeclTree(kind, name, None) => [kind, name, Sym(";")]
    case DeclTree(kind, name, Some(value)) => [kind, name, Sym("="), value, Sym(";")]
    case ReturnTree(value) => [RETURN, value, Sym(";")]
    case AssignTree(name, value) => [name, Sym("="), value, Sym(";")]
  }

  function BodyYield(body: seq<StmtTree>): seq<Token> {
    if body == [] then [] else StmtYield(body[0]) + BodyYield(body[1..])
  }

  function FunctionYield(f: FunctionTree): seq<Token> {
    [f.kind, f.name, Sym("("), Sym(")"), Sym("{")] + (BodyYield(f.body) + [Sym("}")])
  }

  function UnitYield(fs: seq<FunctionTree>): seq<Token> {
    if fs == [] then [] else FunctionYield(fs[0]) + UnitYield(fs[1..])
  }

  // ---------- The syntax tree of a derivation ----------

  function StmtAst(s: StmtTree): Stmt {
    match s
    case DeclTree(kind, name, init) => VarDecl(kind.text, name.text, if init.Some? then Some(AstNode) else None)
    case ReturnTree(value) => AssignmentExpr("return", AstNode)
    case AssignTree(name, value) => AssignmentExpr(name.text, AstNode)
  }

  function BodyAst(body: seq<StmtTree>): seq<Stmt> {
    if body == [] then [] else [StmtAst(body[0])] + BodyAst(body[1..])
  }

  function FunctionAst(f: FunctionTree): FunctionDecl {
    FunctionDecl(f.kind.text, f.name.text, BodyAst(f.body))
  }

  function UnitAst(fs: seq<FunctionTree>): seq<FunctionDecl> {
    if fs == [] then [] else [FunctionAst(fs[0])] + UnitAst(fs[1..])
  }

  // ---------- Completeness: what the grammar derives is parsed ----------

  lemma NameIsNoSymbol(t: Token)
    requires IsName(t) || IsType(t) || t == RETURN
    ensures t.text !in {"(", ")", "{", "}", "=", ";", "return"} || t == RETURN
    ensures IsName(t) ==> !KeywordText(t.text)
  {
    KeywordsStartWords();
  }

  lemma StmtComplete(s: StmtTree, more: seq<Token>)
    requires ProperStmt(s)
    ensures var ts := StmtYield(s) + more;
            ParseStmt(ts) == Parsed(StmtAst(s), more) && !NextIs(ts, "}")
  {
    var ts := StmtYield(s) + more;
    match s
    case DeclTree(kind, name, init) =>
      NameIsNoSymbol(kind);
      if init.Some? {
        assert ts[2..][1..] == [init.value, Sym(";")] + more;
        assert ([init.value, Sym(";")] + more)[1..] == [Sym(";")] + more;
      } else {
        assert ts[2..] == [Sym(";")] + more;
      }
      assert ([Sym(";")] + more)[1..] == more;
    case ReturnTree(value) =>
      assert ts[1..] == [value, Sym(";")] + more;
      assert ts[1..][1..] == [Sym(";")] + more;
      assert ([Sym(";")] + more)[1..] == more;
    case AssignTree(name, value) =>
      NameIsNoSymbol(name);
      assert ts[2..] == [value, Sym(";")] + more;
      assert ts[2..][1..] == [Sym(";")] + more;
      assert ([Sym(";")] + more)[1..] == more;
  }

  lemma {:induction false} BodyComplete(body: seq<StmtTree>, more: seq<Token>)
    requires ProperBody(body) && NextIs(more, "}")
    ensures ParseBody(BodyYield(body) + more) == Parsed(BodyAst(body), more)
  {
    if body == [] {
      assert [] + more == more;
    } else {
      var after := BodyYield(body[1..]) + more;
      assert BodyYield(body) + more == StmtYield(body[0]) + after;
      StmtComplete(body[0], after);
      BodyComplete(body[1..], more);
    }
  }

  lemma HeaderComplete(more: seq<Token>)
    ensures ParseHeader([Sym("("), Sym(")"), Sym("{")] + more) == Parsed((), more)
  {
    var ts := [Sym("("), Sym(")"), Sym("{")] + more;
    assert ts[1..] == [Sym(")"), Sym("{")] + more;
    assert ts[1..][1..] == [Sym("{")] + more;
    assert ts[1..][1..][1..] == more;
  }

  lemma FunctionComplete(f: FunctionTree, more: seq<Token>)
    requires ProperFunction(f)
    ensures ParseFunction(FunctionYield(f) + more) == Parsed(FunctionAst(f), more)
    ensures !AtEnd(FunctionYield(f) + more)
  {
    var opening, inner := [f.kind, f.name, Sym("("), Sym(")"), Sym("{")], BodyYield(f.body) + ([Sym("}")] + more);
    FunctionYieldSplits(f, more);
    DropJoin(opening, inner, 2);
    assert opening[2..] == [Sym("("), Sym(")"), Sym("{")];
    HeaderComplete(inner);
    HeadTail(Sym("}"), more);
    BodyComplete(f.body, [Sym("}")] + more);
  }

  lemma ProperTail(fs: seq<FunctionTree>)
    requires ProperUnit(fs) && fs != []
    ensures ProperFunction(fs[0]) && ProperUnit(fs[1..])
  {
  }

  lemma {:induction false} UnitComplete(fs: seq<FunctionTree>, more: seq<Token>)
    requires ProperUnit(fs) && AtEnd(more)
    ensures ParseUnit(UnitYield(fs) + more) == Parsed(UnitAst(fs), more)
  {
    if fs == [] {
      assert [] + more == more;
    } else {
      var after := UnitYield(fs[1..]) + more;
      Assoc(FunctionYield(fs[0]), UnitYield(fs[1..]), more);
      ProperTail(fs);
      FunctionComplete(fs[0], after);
      UnitComplete(fs[1..], more);
    }
  }

  // ---------- Soundness: what is parsed has a derivation ----------

  lemma SymbolText(t: Token)
    requires Classed(t) && t.text in {"(", ")", "{", "}", "=", ";"}
    ensures t == Sym(t.text)
  {
    KeywordsStartWords();
  }

  lemma StmtSound(ts: seq<Token>) returns (s: StmtTree)
    requires AllClassed(ts) && ts != [] && ParseStmt(ts).Parsed?
    ensures ProperStmt(s) && StmtAst(s) == ParseStmt(ts).value
    ensures ts == StmtYield(s) + ParseStmt(ts).rest
  {
    assert Classed(ts[0]);
    if IsTypeKeyword(ts[0]) {
      assert Classed(ts[1]) && Classed(ts[2]);
      if NextIs(ts[2..], "=") {
        assert Classed(ts[3]) && Classed(ts[4]);
        SymbolText(ts[2]);
        SymbolText(ts[4]);
        s := DeclTree(ts[0], ts[1], Some(ts[3]));
      } else {
        SymbolText(ts[2]);
        s := DeclTree(ts[0], ts[1], None);
      }
    } else if IsReturn(ts[0]) {
      assert Classed(ts[1]) && Classed(ts[2]);
      SymbolText(ts[2]);
      s := ReturnTree(ts[1]);
    } else {
      assert Classed(ts[1]) && Classed(ts[2]) && Classed(ts[3]);
      SymbolText(ts[1]);
      SymbolText(ts[3]);
      s := AssignTree(ts[0], ts[2]);
    }
  }

  lemma ClassedRest(a: seq<Token>, b: seq<Token>)
    requires AllClassed(a + b)
    ensures AllClassed(b)
  {
    forall k | 0 <= k < |b| ensures Classed(b[k]) {
      assert (a + b)[|a| + k] == b[k];
    }
  }

  lemma BodyCons(s: StmtTree, more: seq<StmtTree>)
    ensures BodyYield([s] + more) == StmtYield(s) + BodyYield(more)
    ensures BodyAst([s] + more) == [StmtAst(s)] + BodyAst(more)
    ensures ProperStmt(s) && ProperBody(more) ==> ProperBody([s] + more)
  {
    assert ([s] + more)[1..] == more;
  }

  lemma UnitCons(f: FunctionTree, more: seq<FunctionTree>)
    ensures UnitYield([f] + more) == FunctionYield(f) + UnitYield(more)
    ensures UnitAst([f] + more) == [FunctionAst(f)] + UnitAst(more)
    ensures ProperFunction(f) && ProperUnit(more) ==> ProperUnit([f] + more)
  {
    assert ([f] + more)[1..] == more;
  }

  lemma {:induction false} BodySound(ts: seq<Token>) returns (body: seq<StmtTree>)
    requires AllClassed(ts) && ParseBody(ts).Parsed?
    ensures ProperBody(body) && BodyAst(body) == ParseBody(ts).value
    ensures ts == BodyYield(body) + ParseBody(ts).rest
    decreases |ts|
  {
    if ts == [] || NextIs(ts, "}") {
      body := [];
    } else {
      var s := StmtSound(ts);
      var rest := ParseStmt(ts).rest;
      ClassedRest(StmtYield(s), rest);
      var more := BodySound(rest);
      body := [s] + more;
      BodyCons(s, more);
      Assoc(StmtYield(s), BodyYield(more), ParseBody(rest).rest);
    }
  }

  lemma HeaderSound(ts: seq<Token>) returns (opening: seq<Token>)
    requires AllClassed(ts) && ParseFunction(ts).Parsed?
    ensures |ts| > 5 && IsType(ts[0]) && IsName(ts[1])
    ensures opening == [ts[0], ts[1], Sym("("), Sym(")"), Sym("{")]
    ensures ParseHeader(ts[2..]) == Parsed((), ts[5..]) && ts == opening + ts[5..]
  {
    assert ParseHeader(ts[2..]).rest == ts[2..][1..][1..][1..] == ts[5..];
    assert Classed(ts[0]) && Classed(ts[1]) && Classed(ts[2]) && Classed(ts[3]) && Classed(ts[4]);
    SymbolText(ts[2]);
    SymbolText(ts[3]);
    SymbolText(ts[4]);
    opening := ts[..5];
    TakeDrop(ts, 5);
  }

  lemma FunctionSound(ts: seq<Token>) returns (f: FunctionTree)
    requires AllClassed(ts) && ParseFunction(ts).Parsed?
    ensures ProperFunction(f) && FunctionAst(f) == ParseFunction(ts).value
    ensures ts == FunctionYield(f) + ParseFunction(ts).rest
  {
    var opening := HeaderSound(ts);
    var inner := ts[5..];
    ClassedRest(opening, inner);
    var body := BodySound(inner);
    var closing := ParseBody(inner).rest;
    ClassedRest(BodyYield(body), closing);
    assert Classed(closing[0]);
    SymbolText(closing[0]);
    var rest := closing[1..];
    SplitHead(closing);
    f := FunctionTree(ts[0], ts[1], body);
    Assoc(BodyYield(body), [Sym("}")], rest);
    Assoc(opening, BodyYield(body) + [Sym("}")], rest);
  }

  lemma {:induction false} UnitSound(ts: seq<Token>) returns (fs: seq<FunctionTree>)
    requires AllClassed(ts) && ParseUnit(ts).Parsed?
    ensures ProperUnit(fs) && UnitAst(fs) == ParseUnit(ts).value
    ensures ts == UnitYield(fs) + ParseUnit(ts).rest
    decreases |ts|
  {
    if AtEnd(ts) {
      fs := [];
    } else {
      var f := FunctionSound(ts);
      var rest := ParseFunction(ts).rest;
      ClassedRest(FunctionYield(f), rest);
      var more := UnitSound(rest);
      fs := [f] + more;
      UnitCons(f, more);
      Assoc(FunctionYield(f), UnitYield(more), ParseUnit(rest).rest);
    }
  }

  // ---------- Unambiguity ----------

  lemma StmtUnique(s1: StmtTree, r1: seq<Token>, s2: StmtTree, r2: seq<Token>)
    requires ProperStmt(s1) && ProperStmt(s2)
    requires StmtYield(s1) + r1 == StmtYield(s2) + r2
    ensures s1 == s2 && r1 == r2
  {
    var y1, y2 := StmtYield(s1), StmtYield(s2);
    var ts := y1 + r1;
    assert ts[0] == y1[0] == y2[0] && ts[1] == y1[1] == y2[1] && ts[2] == y1[2] == y2[2];
    if s1.DeclTree? && s1.init.Some? {
      assert ts[3] == y1[3] == y2[3] && ts[4] == y1[4] == y2[4];
    } else if s1.AssignTree? {
      assert ts[3] == y1[3] == y2[3];
    }
    assert r1 == ts[|y1|..] && r2 == (y2 + r2)[|y2|..];
  }

  /** A body followed by a brace starts with the brace only if it is empty. */
  lemma BodyHead(body: seq<StmtTree>, r: seq<Token>)
    requires ProperBody(body)
    ensures (BodyYield(body) + ([Sym("}")] + r))[0] == Sym("}") <==> body == []
  {
    if body != [] {
      assert ProperStmt(body[0]);
    }
  }

  lemma {:induction false} BodyUnique(b1: seq<StmtTree>, r1: seq<Token>, b2: seq<StmtTree>, r2: seq<Token>)
    requires ProperBody(b1) && ProperBody(b2)
    requires BodyYield(b1) + ([Sym("}")] + r1) == BodyYield(b2) + ([Sym("}")] + r2)
    ensures b1 == b2 && r1 == r2
  {
    var c1, c2 := [Sym("}")] + r1, [Sym("}")] + r2;
    BodyHead(b1, r1);
    BodyHead(b2, r2);
    if b1 == [] {
      assert [] + c1 == c1 && [] + c2 == c2;
      assert r1 == c1[1..] && r2 == c2[1..];
    } else {
      Assoc(StmtYield(b1[0]), BodyYield(b1[1..]), c1);
      Assoc(StmtYield(b2[0]), BodyYield(b2[1..]), c2);
      StmtUnique(b1[0], BodyYield(b1[1..]) + c1, b2[0], BodyYield(b2[1..]) + c2);
      BodyUnique(b1[1..], r1, b2[1..], r2);
      assert b1 == [b1[0]] + b1[1..] && b2 == [b2[0]] + b2[1..];
    }
  }

  lemma FunctionUnique(f1: FunctionTree, r1: seq<Token>, f2: FunctionTree, r2: seq<Token>)
    requires ProperFunction(f1) && ProperFunction(f2)
    requires FunctionYield(f1) + r1 == FunctionYield(f2) + r2
    ensures f1 == f2 && r1 == r2
  {
    var o1, o2 := [f1.kind, f1.name, Sym("("), Sym(")"), Sym("{")], [f2.kind, f2.name, Sym("("), Sym(")"), Sym("{")];
    var t1, t2 := BodyYield(f1.body) + ([Sym("}")] + r1), BodyYield(f2.body) + ([Sym("}")] + r2);
    FunctionYieldSplits(f1, r1);
    FunctionYieldSplits(f2, r2);
    SamePrefix(o1, t1, o2, t2);
    assert o1[0] == o2[0] && o1[1] == o2[1];
    BodyUnique(f1.body, r1, f2.body, r2);
  }

  lemma FunctionYieldSplits(f: FunctionTree, r: seq<Token>)
    ensures FunctionYield(f) + r ==
            [f.kind, f.name, Sym("("), Sym(")"), Sym("{")] + (BodyYield(f.body) + ([Sym("}")] + r))
  {
    var opening := [f.kind, f.name, Sym("("), Sym(")"), Sym("{")];
    Assoc(opening, BodyYield(f.body) + [Sym("}")], r);
    Assoc(BodyYield(f.body), [Sym("}")], r);
  }

  lemma SamePrefix<T>(a: seq<T>, b: seq<T>, c: seq<T>, d: seq<T>)
    requires a + b == c + d && |a| == |c|
    ensures a == c && b == d
  {
    assert a == (a + b)[..|a|] && c == (c + d)[..|c|];
    DropJoin(a, b, |a|);
    DropJoin(c, d, |c|);
  }

  /** The grammar is unambiguous: no token list has two derivations. */
  lemma {:induction false} UnitUnique(f1: seq<FunctionTree>, f2: seq<FunctionTree>)
    requires ProperUnit(f1) && ProperUnit(f2) && UnitYield(f1) == UnitYield(f2)
    ensures f1 == f2
  {
    if f1 != [] && f2 != [] {
      FunctionUnique(f1[0], UnitYield(f1[1..]), f2[0], UnitYield(f2[1..]));
      UnitUnique(f1[1..], f2[1..]);
      assert f1 == [f1[0]] + f1[1..] && f2 == [f2[0]] + f2[1..];
    }
  }

  // ---------- The parser is the grammar ----------

  /** The tokens before the first end of file. */
  function UpToEof(ts: seq<Token>): (r: seq<Token>)
    ensures |r| <= |ts|
  {
    if ts == [] || ts[0].kind == EndOfFile then [] else [ts[0]] + UpToEof(ts[1..])
  }

  ghost predicate Derives(fs: seq<FunctionTree>, ts: seq<Token>, unit: TranslationUnit) {
    ProperUnit(fs) && UnitYield(fs) == ts && UnitAst(fs) == unit.decls
  }

  lemma {:induction false} UpToEofSplits(a: seq<Token>, b: seq<Token>)
    requires AtEnd(b) && forall k | 0 <= k < |a| :: a[k].kind != EndOfFile
    ensures UpToEof(a + b) == a
  {
    if a == [] {
      assert a + b == b;
    } else {
      assert (a + b)[1..] == a[1..] + b;
      UpToEofSplits(a[1..], b);
    }
  }

  lemma {:induction false} UpToEofPrefix(ts: seq<Token>)
    ensures UpToEof(ts) <= ts && AtEnd(ts[|UpToEof(ts)|..])
    ensures ts == UpToEof(ts) + ts[|UpToEof(ts)|..]
  {
    if !AtEnd(ts) {
      UpToEofPrefix(ts[1..]);
      assert ts == [ts[0]] + ts[1..];
      assert ts[1..][|UpToEof(ts[1..])|..] == ts[|UpToEof(ts)|..];
    }
  }

  lemma {:induction false} BodyHasNoEof(body: seq<StmtTree>)
    requires ProperBody(body)
    ensures forall k | 0 <= k < |BodyYield(body)| :: BodyYield(body)[k].kind != EndOfFile
  {
    if body != [] {
      BodyHasNoEof(body[1..]);
      assert ProperStmt(body[0]);
    }
  }

  lemma {:induction false} UnitHasNoEof(fs: seq<FunctionTree>)
    requires ProperUnit(fs)
    ensures forall k | 0 <= k < |UnitYield(fs)| :: UnitYield(fs)[k].kind != EndOfFile
  {
    if fs != [] {
      BodyHasNoEof(fs[0].body);
      UnitHasNoEof(fs[1..]);
      assert ProperFunction(fs[0]);
    }
  }

  /**
   Sound and complete: parsing succeeds with a tree iff the tokens up to the first end of file have
   a derivation with that tree; the parser then stands right behind them.
   */
  lemma ParserIsGrammar(ts: seq<Token>, unit: TranslationUnit)
    requires AllClassed(ts)
    ensures Parse(ts) == Ok(unit) <==> exists fs :: Derives(fs, UpToEof(ts), unit)
    ensures Parse(ts).Ok? ==> ParseUnit(ts).rest == ts[|UpToEof(ts)|..]
  {
    if ParseUnit(ts).Parsed? {
      var fs := UnitSound(ts);
      UnitHasNoEof(fs);
      UpToEofSplits(UnitYield(fs), ParseUnit(ts).rest);
      assert Derives(fs, UpToEof(ts), TranslationUnit(ParseUnit(ts).value));
    }
    forall fs | Derives(fs, UpToEof(ts), unit) ensures Parse(ts) == Ok(unit) {
      UpToEofPrefix(ts);
      UnitComplete(fs, ts[|UpToEof(ts)|..]);
    }
  }

  /** A node assigning to `return` comes from a return statement and from nothing else. */
  lemma ReturnNodesAreReturns(s: StmtTree)
    requires ProperStmt(s)
    ensures StmtAst(s) == AssignmentExpr("return", AstNode) <==> s.ReturnTree?
  {
    if s.AssignTree? {
      NameIsNoSymbol(s.name);
    }
  }
}
