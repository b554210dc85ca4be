/**
 The parser of the C front end: a recursive descent over the token vector. The functions say what
 each method makes of the tokens that remain; the class does it by moving its position.
 */
module Parsing {
  import opened Wrappers
  import opened Lexing

  // ---------- Syntax trees ----------

  /** Expressions lose their text: the parser builds a bare node for an identifier or a constant. */
  datatype Expr = AstNode

  datatype Stmt =
    | VarDecl(typeName: string, name: string, init: Option<Expr>)
    | AssignmentExpr(lhs: string, rhs: Expr)

  datatype FunctionDecl = FunctionDecl(returnType: string, name: string, body: seq<Stmt>)

  datatype TranslationUnit = TranslationUnit(decls: seq<FunctionDecl>)

  datatype ParserError =
    | ExpectedReturnType | ExpectedFunctionName | ExpectedText(text: string) | UnexpectedToken(text: string)
    | ExpectedVariableType | ExpectedVariableName | ExpectedIdentifier | UnsupportedExpression

  // ---------- Token predicates ----------

  const TYPE_KEYWORDS: set<string> := {"int", "float", "double", "long", "short", "bool", "void"}

  predicate IsTypeKeyword(t: Token) {
    t.kind == Keyword && t.text in TYPE_KEYWORDS
  }

  predicate IsIdentifier(t: Token) {
    t.kind == Identifier
  }

  predicate IsConstant(t: Token) {
    t.kind == ConstantNumberLiteral
  }

  predicate IsReturn(t: Token) {
    t.kind == Keyword && t.text == "return"
  }

  // ---------- What the tokens say ----------

  datatype Parsed<+T> = Parsed(value: T, rest: seq<Token>) | Failed(error: ParserError)

  predicate NextIs(ts: seq<Token>, text: string) {
    ts != [] && ts[0].text == text
  }

  /** The rest of `p`, past one token with the given text. */
  function Then<T>(p: Parsed<T>, text: string): Parsed<T> {
    match p
    case Failed(e) => Failed(e)
    case Parsed(value, rest) => if NextIs(rest, text) then Parsed(value, rest[1..]) else Failed(ExpectedText(text))
  }

  function ParseExpr(ts: seq<Token>): Parsed<Expr> {
    if ts != [] && (IsConstant(ts[0]) || IsIdentifier(ts[0])) then Parsed(AstNode, ts[1..])
    else Failed(UnsupportedExpression)
  }

  function ParseInit(ts: seq<Token>): Parsed<Option<Expr>> {
    if NextIs(ts, "=") then
      match ParseExpr(ts[1..])
      case Failed(e) => Failed(e)
      case Parsed(expr, rest) => Parsed(Some(expr), rest)
    else Parsed(None, ts)
  }

  function ParseVarDecl(ts: seq<Token>): Parsed<Stmt> {
    if !(ts != [] && IsTypeKeyword(ts[0])) then Failed(ExpectedVariableType)
    else if !(|ts| > 1 && IsIdentifier(ts[1])) then Failed(ExpectedVariableName)
    else match Then(ParseInit(ts[2..]), ";")
         case Failed(e) => Failed(e)
         case Parsed(init, rest) => Parsed(VarDecl(ts[0].text, ts[1].text, init), rest)
  }

  function ParseAssigned(lhs: string, ts: seq<Token>): Parsed<Stmt> {
    match Then(ParseExpr(ts), ";")
    case Failed(e) => Failed(e)
    case Parsed(expr, rest) => Parsed(AssignmentExpr(lhs, expr), rest)
  }

  function ParseAssignment(ts: seq<Token>): Parsed<Stmt> {
    if !(ts != [] && IsIdentifier(ts[0])) then Failed(ExpectedIdentifier)
    else if !NextIs(ts[1..], "=") then Failed(ExpectedText("="))
    else ParseAssigned(ts[0].text, ts[2..])
  }

  function ParseStmt(ts: seq<Token>): (r: Parsed<Stmt>)
    requires ts != []
    ensures r.Parsed? ==> |r.rest| < |ts|
  {
    if IsTypeKeyword(ts[0]) then ParseVarDecl(ts)
    else if IsReturn(ts[0]) then ParseAssigned("return", ts[1..])
    else if IsIdentifier(ts[0]) then ParseAssignment(ts)
    else Failed(UnexpectedToken(ts[0].text))
  }

  /** Statements up to a closing brace or the end of the tokens. */
  function ParseBody(ts: seq<Token>): (r: Parsed<seq<Stmt>>)
    ensures r.Parsed? ==> |r.rest| <= |ts| && (r.rest == [] || NextIs(r.rest, "}"))
    decreases |ts|
  {
    if ts == [] || NextIs(ts, "}") then Parsed([], ts)
    else match ParseStmt(ts)
         case Failed(e) => Failed(e)
         case Parsed(stmt, rest) => More([stmt], ParseBody(rest))
  }

  function More<T>(first: seq<T>, p: Parsed<seq<T>>): Parsed<seq<T>> {
    match p case Failed(e) => Failed(e) case Parsed(more, rest) => Parsed(first + more, rest)
  }

  /** `(`, `)` and `{` in a row. */
  function ParseHeader(ts: seq<Token>): (r: Parsed<()>)
    ensures r.Parsed? ==> |r.rest| < |ts|
  {
    Then(Then(Then(Parsed((), ts), "("), ")"), "{")
  }

  function ParseFunction(ts: seq<Token>): (r: Parsed<FunctionDecl>)
    ensures r.Parsed? ==> |r.rest| < |ts|
  {
    if !(ts != [] && IsTypeKeyword(ts[0])) then Failed(ExpectedReturnType)
    else if !(|ts| > 1 && IsIdentifier(ts[1])) then Failed(ExpectedFunctionName)
    else match ParseHeader(ts[2..])
         case Failed(e) => Failed(e)
         case Parsed(_, inner) =>
           match Then(ParseBody(inner), "}")
           case Failed(e) => Failed(e)
           case Parsed(body, rest) => Parsed(FunctionDecl(ts[0].text, ts[1].text, body), rest)
  }

  predicate AtEnd(ts: seq<Token>) {
    ts == [] || ts[0].kind == EndOfFile
  }

  function ParseUnit(ts: seq<Token>): (r: Parsed<seq<FunctionDecl>>)
    ensures r.Parsed? ==> AtEnd(r.rest)
    decreases |ts|
  {
    if AtEnd(ts) then Parsed([], ts)
    else match ParseFunction(ts)
         case Failed(e) => Failed(e)
         case Parsed(decl, rest) => More([decl], ParseUnit(rest))
  }

  /** What `Parse` returns on a token vector. */
  function Parse(ts: seq<Token>): Result<TranslationUnit, ParserError> {
    match ParseUnit(ts) case Failed(e) => Err(e) case Parsed(decls, _) => Ok(TranslationUnit(decls))
  }

  lemma MoreTwice<T>(a: seq<T>, b: seq<T>, p: Parsed<seq<T>>)
    ensures More(a, More(b, p)) == More(a + b, p) && More([], p) == p
  {
    if p.Parsed? {
      assert a + (b + p.value) == (a + b) + p.value && [] + p.value == p.value;
    }
  }

  // ---------- The parser object ----------

  class Parser {
    const tokens: seq<Token>
    var pos: nat

    ghost predicate Valid()
      reads this
    {
      pos <= |tokens|
    }

    ghost function Rest(): seq<Token>
      requires Valid()
      reads this
    {
      tokens[pos..]
    }

    constructor (tokens: seq<Token>)
      ensures Valid() && this.tokens == tokens && pos == 0 && Rest() == tokens
    {
      this.tokens := tokens;
      pos := 0;
    }

    /** Whether a result and the position it leaves are what the remaining tokens say. */
    ghost predicate Agrees<T>(p: Parsed<T>, r: Result<T, ParserError>)
      requires Valid()
      reads this
    {
      match p
      case Failed(e) => r == Err(e)
      case Parsed(value, rest) => r == Ok(value) && Rest() == rest
    }

    /** Steps over a token with this text, or fails. */
    method Expect(text: string) returns (r: Result<(), ParserError>)
      requires Valid()
      modifies `pos
      ensures Valid() && pos >= old(pos)
      ensures Agrees(Then(Parsed((), old(Rest())), text), r)
    {
      if !(pos < |tokens| && tokens[pos].text == text) {
        return Err(ExpectedText(text));
      }
      pos := pos + 1;
      return Ok(());
    }

    method ParseExprNode() returns (r: Result<Expr, ParserError>)
      requires Valid()
      modifies `pos
      ensures Valid() && Agrees(ParseExpr(old(Rest())), r)
    {
      if pos < |tokens| && IsConstant(tokens[pos]) {
        pos := pos + 1;
        return Ok(AstNode);
      } else if pos < |tokens| && IsIdentifier(tokens[pos]) {
        pos := pos + 1;
        return Ok(AstNode);
      } else {
        return Err(UnsupportedExpression);
      }
    }

    method ParseVarDeclNode() returns (r: Result<Stmt, ParserError>)
      requires Valid()
      modifies `pos
      ensures Valid() && Agrees(ParseVarDecl(old(Rest())), r)
    {
      ghost var ts := Rest();
      if !(pos < |tokens| && IsTypeKeyword(tokens[pos])) {
        return Err(ExpectedVariableType);
      }
      var typeName := tokens[pos].text;
      pos := pos + 1;
      if !(pos < |tokens| && IsIdentifier(tokens[pos])) {
        return Err(ExpectedVariableName);
      }
      var name := tokens[pos].text;
      pos := pos + 1;
      assert Rest() == ts[2..];
      var init: Option<Expr> := None;
      if pos < |tokens| && tokens[pos].text == "=" {
        pos := pos + 1;
        assert Rest() == ts[2..][1..];
        var expr := ParseExprNode();
        if expr.Err? {
          return Err(expr.error);
        }
        init := Some(expr.value);
      }
      var semicolon := Expect(";");
      if semicolon.Err? {
        return Err(semicolon.error);
      }
      return Ok(VarDecl(typeName, name, init));
    }

    /** An expression and a semicolon, as the right side of `lhs`. */
    method ParseAssignedNode(lhs: string) returns (r: Result<Stmt, ParserError>)
      requires Valid()
      modifies `pos
      ensures Valid() && Agrees(ParseAssigned(lhs, old(Rest())), r)
    {
      var expr := ParseExprNode();
      if expr.Err? {
        return Err(expr.error);
      }
      var semicolon := Expect(";");
      if semicolon.Err? {
        return Err(semicolon.error);
      }
      return Ok(AssignmentExpr(lhs, expr.value));
    }

    method ParseAssignmentNode() returns (r: Result<Stmt, ParserError>)
      requires Valid()
      modifies `pos
      ensures Valid() && Agrees(ParseAssignment(old(Rest())), r)
    {
      ghost var ts := Rest();
      if !(pos < |tokens| && IsIdentifier(tokens[pos])) {
        return Err(ExpectedIdentifier);
      }
      var lhs := tokens[pos].text;
      pos := pos + 1;
      assert Rest() == ts[1..];
      var equals := Expect("=");
      if equals.Err? {
        return Err(equals.error);
      }
      assert Rest() == ts[2..];
      r := ParseAssignedNode(lhs);
    }

    method ParseBodyNodes() returns (r: Result<seq<Stmt>, ParserError>)
      requires Valid()
      modifies `pos
      ensures Valid() && Agrees(ParseBody(old(Rest())), r)
    {
      var body: seq<Stmt> := [];
      ghost var ts := Rest();
      MoreTwice([], [], ParseBody(ts));
      while pos < |tokens| && tokens[pos].text != "}"
        invariant Valid()
        invariant ParseBody(ts) == More(body, ParseBody(Rest()))
        decreases |tokens| - pos
      {
        ghost var now := Rest();
        var stmt: Result<Stmt, ParserError>;
        if IsTypeKeyword(tokens[pos]) {
          stmt := ParseVarDeclNode();
        } else if IsReturn(tokens[pos]) {
          pos := pos + 1;
          assert Rest() == now[1..];
          stmt := ParseAssignedNode("return");
        } else if IsIdentifier(tokens[pos]) {
          stmt := ParseAssignmentNode();
        } else {
          return Err(UnexpectedToken(tokens[pos].text));
        }
        assert Agrees(ParseStmt(now), stmt);
        if stmt.Err? {
          return Err(stmt.error);
        }
        MoreTwice(body, [stmt.value], ParseBody(Rest()));
        body := body + [stmt.value];
      }
      assert body + [] == body;
      return Ok(body);
    }

    method ParseFunctionNode() returns (r: Result<FunctionDecl, ParserError>)
      requires Valid()
      modifies `pos
      ensures Valid() && Agrees(ParseFunction(old(Rest())), r)
    {
      ghost var ts := Rest();
      if !(pos < |tokens| && IsTypeKeyword(tokens[pos])) {
        return Err(ExpectedReturnType);
      }
      var returnType := tokens[pos].text;
      pos := pos + 1;
      if !(pos < |tokens| && IsIdentifier(tokens[pos])) {
        return Err(ExpectedFunctionName);
      }
      var name := tokens[pos].text;
      pos := pos + 1;
      assert Rest() == ts[2..];
      var opening := Expect("(");
      if opening.Err? {
        return Err(opening.error);
      }
      var closing := Expect(")");
      if closing.Err? {
        return Err(closing.error);
      }
      var brace := Expect("{");
      if brace.Err? {
        return Err(brace.error);
      }
      assert ParseHeader(ts[2..]) == Parsed((), Rest());
      var body := ParseBodyNodes();
      if body.Err? {
        return Err(body.error);
      }
      var end := Expect("}");
      if end.Err? {
        return Err(end.error);
      }
      return Ok(FunctionDecl(returnType, name, body.value));
    }

    /** On success the parser stands at the end of the tokens or at the first end of file it met. */
    method ParseTranslationUnit() returns (r: Result<TranslationUnit, ParserError>)
      requires Valid()
      modifies `pos
      ensures Valid()
      ensures r == Parse(old(Rest()))
      ensures r.Ok? ==> Rest() == ParseUnit(old(Rest())).rest
    {
      var decls: seq<FunctionDecl> := [];
      ghost var ts := Rest();
      MoreTwice([], [], ParseUnit(ts));
      while pos < |tokens| && tokens[pos].kind != EndOfFile
        invariant Valid()
        invariant ParseUnit(ts) == More(decls, ParseUnit(Rest()))
        decreases |tokens| - pos
      {
        ghost var now := Rest();
        var decl := ParseFunctionNode();
        if decl.Err? {
          return Err(decl.error);
        }
        MoreTwice(decls, [decl.value], ParseUnit(Rest()));
        decls := decls + [decl.value];
      }
      assert decls + [] == decls;
      return Ok(TranslationUnit(decls));
    }
  }
}
