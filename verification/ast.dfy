/** The syntax tree and its canonical rendering (src/ast/ast.ts).

    A field the source declares with `!` and the parser leaves unset when a
    sub-parse fails is an `Option` here. The renderers dereference some of
    those fields unconditionally; `Renderable` says exactly which must be
    present for `String()` not to throw, and `Complete` says that every one
    is, which is what an error-free parse delivers. */
module Ast {
  import opened Wrappers
  import opened Token

  /** An `Identifier` node: its token and its name. */
  datatype Name = Name(token: Token, value: string)

  datatype Expr =
    | Identifier(id: Name)
    | IntegerLiteral(token: Token, intValue: int)
    | StringLiteral(token: Token, strValue: string)
    | BooleanLiteral(token: Token, boolValue: bool)
    | PrefixExpr(token: Token, op: string, right: Option<Expr>)
    | InfixExpr(token: Token, left: Expr, op: string, right: Option<Expr>)
    | IfExpr(token: Token, condition: Option<Expr>, consequence: Block, alternative: Option<Block>)
    | FunctionLiteral(token: Token, params: seq<Name>, body: Block)
    | CallExpr(token: Token, fn: Expr, args: seq<Expr>)
    | ArrayLiteral(token: Token, elements: seq<Expr>)
    | IndexExpr(token: Token, left: Expr, index: Option<Expr>)
    /** The pairs of the source's `Map`, keyed by node identity: two
        syntactically equal keys are still two entries, in insertion order. */
    | HashLiteral(token: Token, pairs: seq<Pair>)

  /** One key-value entry of a hash literal. */
  datatype Pair = Pair(key: Expr, value: Expr)

  datatype Block = Block(token: Token, statements: seq<Stmt>)

  datatype Stmt =
    | LetStmt(token: Token, name: Name, value: Option<Expr>)
    | ReturnStmt(token: Token, value: Option<Expr>)
    | ExprStmt(token: Token, expression: Option<Expr>)

  datatype Program = Program(statements: seq<Stmt>)

  /** `TokenLiteral()` of a statement. */
  function StmtTokenLiteral(s: Stmt): string {
    s.token.literal
  }

  /** `Program.TokenLiteral()`: the first statement's token literal, or the
      empty string for an empty program. */
  function ProgramTokenLiteral(p: Program): (r: string)
    ensures |p.statements| == 0 ==> r == ""
    ensures |p.statements| > 0 ==> r == p.statements[0].token.literal
  {
    if |p.statements| > 0 then StmtTokenLiteral(p.statements[0]) else ""
  }

  // ---------------------------------------------------------------------
  // Which fields must be present

  /** The fields `String()` dereferences are present: the operand of a
      prefix or infix node, the condition of an `if`, the index of an index
      node, the value of a `return` and the expression of an expression
      statement. A `let` checks its value with `!= null`, and a hash
      literal never looks at its pairs. */
  predicate Renderable(e: Expr)
    decreases e
  {
    match e
    case Identifier(_) => true
    case IntegerLiteral(_, _) => true
    case StringLiteral(_, _) => true
    case BooleanLiteral(_, _) => true
    case PrefixExpr(_, _, right) => right.Some? && Renderable(right.value)
    case InfixExpr(_, left, _, right) => Renderable(left) && right.Some? && Renderable(right.value)
    case IfExpr(_, cond, cons, alt) =>
      cond.Some? && Renderable(cond.value) && StmtsRenderable(cons.statements)
      && (alt.Some? ==> StmtsRenderable(alt.value.statements))
    case FunctionLiteral(_, _, body) => StmtsRenderable(body.statements)
    case CallExpr(_, fn, args) => Renderable(fn) && ExprsRenderable(args)
    case ArrayLiteral(_, elements) => ExprsRenderable(elements)
    case IndexExpr(_, left, index) => Renderable(left) && index.Some? && Renderable(index.value)
    case HashLiteral(_, _) => true
  }

  predicate ExprsRenderable(es: seq<Expr>)
    decreases es
  {
    |es| > 0 ==> Renderable(es[0]) && ExprsRenderable(es[1..])
  }

  predicate StmtsRenderable(ss: seq<Stmt>)
    decreases ss
  {
    |ss| > 0 ==> StmtRenderable(ss[0]) && StmtsRenderable(ss[1..])
  }

  predicate StmtRenderable(s: Stmt)
    decreases s
  {
    match s
    case LetStmt(_, _, value) => value.Some? ==> Renderable(value.value)
    case ReturnStmt(_, value) => value.Some? && Renderable(value.value)
    case ExprStmt(_, expression) => expression.Some? && Renderable(expression.value)
  }

  /** Every optional field is present, throughout the tree (the `else`
      branch of an `if` stays optional). */
  predicate Complete(e: Expr)
    decreases e
  {
    match e
    case Identifier(_) => true
    case IntegerLiteral(_, _) => true
    case StringLiteral(_, _) => true
    case BooleanLiteral(_, _) => true
    case PrefixExpr(_, _, right) => right.Some? && Complete(right.value)
    case InfixExpr(_, left, _, right) => Complete(left) && right.Some? && Complete(right.value)
    case IfExpr(_, cond, cons, alt) =>
      cond.Some? && Complete(cond.value) && StmtsComplete(cons.statements)
      && (alt.Some? ==> StmtsComplete(alt.value.statements))
    case FunctionLiteral(_, _, body) => StmtsComplete(body.statements)
    case CallExpr(_, fn, args) => Complete(fn) && ExprsComplete(args)
    case ArrayLiteral(_, elements) => ExprsComplete(elements)
    case IndexExpr(_, left, index) => Complete(left) && index.Some? && Complete(index.value)
    case HashLiteral(_, pairs) => PairsComplete(pairs)
  }

  predicate ExprsComplete(es: seq<Expr>)
    decreases es
  {
    |es| > 0 ==> Complete(es[0]) && ExprsComplete(es[1..])
  }

  predicate PairsComplete(ps: seq<Pair>)
    decreases ps
  {
    |ps| > 0 ==> PairComplete(ps[0]) && PairsComplete(ps[1..])
  }

  predicate PairComplete(p: Pair)
    decreases p
  {
    Complete(p.key) && Complete(p.value)
  }

  predicate StmtsComplete(ss: seq<Stmt>)
    decreases ss
  {
    |ss| > 0 ==> StmtComplete(ss[0]) && StmtsComplete(ss[1..])
  }

  predicate StmtComplete(s: Stmt)
    decreases s
  {
    match s
    case LetStmt(_, _, value) => value.Some? && Complete(value.value)
    case ReturnStmt(_, value) => value.Some? && Complete(value.value)
    case ExprStmt(_, expression) => expression.Some? && Complete(expression.value)
  }

  predicate ProgramComplete(p: Program) {
    StmtsComplete(p.statements)
  }

  /** A complete tree can be rendered. */
  lemma {:induction false} CompleteIsRenderable(e: Expr)
    requires Complete(e)
    ensures Renderable(e)
    decreases e
  {
    match e
    case Identifier(_) =>
    case IntegerLiteral(_, _) =>
    case StringLiteral(_, _) =>
    case BooleanLiteral(_, _) =>
    case PrefixExpr(_, _, right) => CompleteIsRenderable(right.value);
    case InfixExpr(_, left, _, right) =>
      CompleteIsRenderable(left);
      CompleteIsRenderable(right.value);
    case IfExpr(_, cond, cons, alt) =>
      CompleteIsRenderable(cond.value);
      StmtsCompleteIsRenderable(cons.statements);
      if alt.Some? {
        StmtsCompleteIsRenderable(alt.value.statements);
      }
    case FunctionLiteral(_, _, body) => StmtsCompleteIsRenderable(body.statements);
    case CallExpr(_, fn, args) =>
      CompleteIsRenderable(fn);
      ExprsCompleteIsRenderable(args);
    case ArrayLiteral(_, elements) => ExprsCompleteIsRenderable(elements);
    case IndexExpr(_, left, index) =>
      CompleteIsRenderable(left);
      CompleteIsRenderable(index.value);
    case HashLiteral(_, _) =>
  }

  lemma {:induction false} ExprsCompleteIsRenderable(es: seq<Expr>)
    requires ExprsComplete(es)
    ensures ExprsRenderable(es)
    decreases es
  {
    if |es| > 0 {
      CompleteIsRenderable(es[0]);
      ExprsCompleteIsRenderable(es[1..]);
    }
  }

  lemma {:induction false} StmtsCompleteIsRenderable(ss: seq<Stmt>)
    requires StmtsComplete(ss)
    ensures StmtsRenderable(ss)
    decreases ss
  {
    if |ss| > 0 {
      StmtCompleteIsRenderable(ss[0]);
      StmtsCompleteIsRenderable(ss[1..]);
    }
  }

  lemma {:induction false} StmtCompleteIsRenderable(s: Stmt)
    requires StmtComplete(s)
    ensures StmtRenderable(s)
    decreases s
  {
    match s
    case LetStmt(_, _, value) => CompleteIsRenderable(value.value);
    case ReturnStmt(_, value) => CompleteIsRenderable(value.value);
    case ExprStmt(_, expression) => CompleteIsRenderable(expression.value);
  }

  // ---------------------------------------------------------------------
  // Rendering

  /** `String()` of an expression node. */
  function ExprString(e: Expr): string
    requires Renderable(e)
    decreases e
  {
    match e
    case Identifier(id) => id.value
    case IntegerLiteral(token, _) => token.literal
    case StringLiteral(token, _) => token.literal
    case BooleanLiteral(token, _) => token.literal
    case PrefixExpr(_, op, right) => "(" + op + ExprString(right.value) + ")"
    case InfixExpr(_, left, op, right) =>
      "(" + ExprString(left) + " " + op + " " + ExprString(right.value) + ")"
    case IfExpr(_, cond, cons, alt) =>
      "if" + ExprString(cond.value) + " " + StmtsString(cons.statements)
      + (if alt.Some? then "else " + StmtsString(alt.value.statements) else "")
    case FunctionLiteral(token, params, body) =>
      token.literal + "(" + NamesString(params) + ") " + StmtsString(body.statements)
    case CallExpr(_, fn, args) => ExprString(fn) + "(" + ExprsString(args) + ")"
    case ArrayLiteral(_, elements) => "[" + ExprsString(elements) + "]"
    case IndexExpr(_, left, index) =>
      "(" + ExprString(left) + "[" + ExprString(index.value) + "])"
    case HashLiteral(_, _) => "{}"
  }

  /** The renderings of a list of expressions joined with ", ". */
  function ExprsString(es: seq<Expr>): string
    requires ExprsRenderable(es)
    decreases es
  {
    if |es| == 0 then ""
    else if |es| == 1 then ExprString(es[0])
    else ExprString(es[0]) + ", " + ExprsString(es[1..])
  }

  /** Parameter names joined with ", ". */
  function NamesString(ns: seq<Name>): string
  {
    if |ns| == 0 then ""
    else if |ns| == 1 then ns[0].value
    else ns[0].value + ", " + NamesString(ns[1..])
  }

  /** `String()` of a statement. */
  function StmtString(s: Stmt): string
    requires StmtRenderable(s)
    decreases s
  {
    match s
    case LetStmt(token, name, value) =>
      token.literal + " " + name.value + " = "
      + (if value.Some? then ExprString(value.value) else "") + ";"
    case ReturnStmt(token, value) => token.literal + " " + ExprString(value.value) + ";"
    case ExprStmt(_, expression) => ExprString(expression.value)
  }

  /** The renderings of statements, concatenated with no separator: both
      `BlockStatement.String()` (no braces) and `Program.String()`. */
  function StmtsString(ss: seq<Stmt>): string
    requires StmtsRenderable(ss)
    decreases ss
  {
    if |ss| == 0 then "" else StmtString(ss[0]) + StmtsString(ss[1..])
  }

  function ProgramString(p: Program): string
    requires StmtsRenderable(p.statements)
  {
    StmtsString(p.statements)
  }

  lemma {:induction false} StmtsRenderableAppend(a: seq<Stmt>, b: seq<Stmt>)
    ensures StmtsRenderable(a + b) <==> StmtsRenderable(a) && StmtsRenderable(b)
    decreases a
  {
    if |a| > 0 {
      assert (a + b)[1..] == a[1..] + b;
      StmtsRenderableAppend(a[1..], b);
    } else {
      assert a + b == b;
    }
  }

  /** Rendering distributes over concatenation of statement lists: the
      program (or block) renders as its statements' renderings, in order,
      with nothing between them. */
  lemma {:induction false} StmtsStringAppend(a: seq<Stmt>, b: seq<Stmt>)
    requires StmtsRenderable(a) && StmtsRenderable(b)
    ensures StmtsRenderable(a + b)
    ensures StmtsString(a + b) == StmtsString(a) + StmtsString(b)
    decreases a
  {
    StmtsRenderableAppend(a, b);
    if |a| > 0 {
      assert (a + b)[1..] == a[1..] + b;
      StmtsStringAppend(a[1..], b);
    } else {
      assert a + b == b;
    }
  }

  lemma {:induction false} ExprsRenderableAppend(a: seq<Expr>, b: seq<Expr>)
    ensures ExprsRenderable(a + b) <==> ExprsRenderable(a) && ExprsRenderable(b)
    decreases a
  {
    if |a| > 0 {
      assert (a + b)[1..] == a[1..] + b;
      ExprsRenderableAppend(a[1..], b);
    } else {
      assert a + b == b;
    }
  }

  /** The renderings of two non-empty argument lists, joined: the list of
      a call or an array renders as its parts with one ", " between them. */
  lemma {:induction false} ExprsStringAppend(a: seq<Expr>, b: seq<Expr>)
    requires |a| > 0 && |b| > 0 && ExprsRenderable(a) && ExprsRenderable(b)
    ensures ExprsRenderable(a + b)
    ensures ExprsString(a + b) == ExprsString(a) + ", " + ExprsString(b)
    decreases a
  {
    ExprsRenderableAppend(a, b);
    assert (a + b)[0] == a[0];
    assert (a + b)[1..] == a[1..] + b;
    if |a| > 1 {
      ExprsStringAppend(a[1..], b);
    }
  }

  /** The call of the parser's precedence test, `add(6, 7 * 8)` as a tree,
      renders as `add(6, (7 * 8))`. */
  lemma CallRendering()
    ensures var seven := IntegerLiteral(Token(Int, "7"), 7);
      var eight := IntegerLiteral(Token(Int, "8"), 8);
      var call := CallExpr(Token(LParen, "("), Identifier(Name(Token(Ident, "add"), "add")),
                           [IntegerLiteral(Token(Int, "6"), 6),
                            InfixExpr(Token(Asterisk, "*"), seven, "*", Some(eight))]);
      Renderable(call) && ExprString(call) == "add(6, (7 * 8))"
  {
    var seven := IntegerLiteral(Token(Int, "7"), 7);
    var eight := IntegerLiteral(Token(Int, "8"), 8);
    var six := IntegerLiteral(Token(Int, "6"), 6);
    var product := InfixExpr(Token(Asterisk, "*"), seven, "*", Some(eight));
    assert ExprString(product) == "(7 * 8)";
    assert [six, product][1..] == [product];
    assert Renderable(six) && Renderable(product);
    assert [product][1..] == [];
    assert ExprsRenderable([]);
    assert ExprsRenderable([product]) by {
      assert |[product]| > 0 && [product][0] == product;
    }
    assert ExprsRenderable([six, product]);
    assert ExprsString([product]) == "(7 * 8)";
    assert ExprsString([six, product]) == "6, (7 * 8)";
  }

  /** A one-statement program renders as that statement. */
  lemma SingleStatementProgram(s: Stmt)
    requires StmtRenderable(s)
    ensures StmtsRenderable([s])
    ensures ProgramString(Program([s])) == StmtString(s)
  {
    assert [s][1..] == [];
    assert StmtsString([s]) == StmtString(s) + StmtsString([]);
    assert StmtString(s) + "" == StmtString(s);
  }

  /** The rendering shows how two binary operators group: `((a op b) op c)`
      and `(a op (b op c))` differ at their second character whenever `a`'s
      own rendering does not start with a parenthesis, which is what lets
      the parser's precedence tests compare strings instead of trees. */
  lemma RenderingShowsGrouping(a: Expr, b: Expr, c: Expr, op1: Token, op2: Token)
    requires Renderable(a) && Renderable(b) && Renderable(c)
    requires |ExprString(a)| > 0 && ExprString(a)[0] != '('
    ensures var left := InfixExpr(op2, InfixExpr(op1, a, op1.literal, Some(b)), op2.literal, Some(c));
      var right := InfixExpr(op1, a, op1.literal, Some(InfixExpr(op2, b, op2.literal, Some(c))));
      ExprString(left) != ExprString(right)
  {
    var left := InfixExpr(op2, InfixExpr(op1, a, op1.literal, Some(b)), op2.literal, Some(c));
    var right := InfixExpr(op1, a, op1.literal, Some(InfixExpr(op2, b, op2.literal, Some(c))));
    var sa := ExprString(a);
    var sl := "(" + ExprString(InfixExpr(op1, a, op1.literal, Some(b))) + " " + op2.literal + " " + ExprString(c) + ")";
    var sr := "(" + sa + " " + op1.literal + " " + ExprString(InfixExpr(op2, b, op2.literal, Some(c))) + ")";
    assert ExprString(left) == sl;
    assert ExprString(right) == sr;
    assert sl[1] == '(';
    assert sr[1] == sa[0];
  }

  /** Likewise for a prefix operator before a binary one: `((-a) * b)` and
      `(-(a * b))` differ at their second character. */
  lemma RenderingShowsPrefixScope(a: Expr, b: Expr, pre: Token, op: Token)
    requires Renderable(a) && Renderable(b)
    requires |pre.literal| > 0 && pre.literal[0] != '('
    ensures var outside := InfixExpr(op, PrefixExpr(pre, pre.literal, Some(a)), op.literal, Some(b));
      var inside := PrefixExpr(pre, pre.literal, Some(InfixExpr(op, a, op.literal, Some(b))));
      ExprString(outside) != ExprString(inside)
  {
    var outside := InfixExpr(op, PrefixExpr(pre, pre.literal, Some(a)), op.literal, Some(b));
    var inside := PrefixExpr(pre, pre.literal, Some(InfixExpr(op, a, op.literal, Some(b))));
    var so := "(" + ExprString(PrefixExpr(pre, pre.literal, Some(a))) + " " + op.literal + " " + ExprString(b) + ")";
    var si := "(" + pre.literal + ExprString(InfixExpr(op, a, op.literal, Some(b))) + ")";
    assert ExprString(outside) == so;
    assert ExprString(inside) == si;
    assert so[1] == '(';
    assert si[1] == pre.literal[0];
  }

  /** `IfExpression.String()` as written: it tests `alternative !== null`,
      but an `if` without `else` leaves the field `undefined`, so it goes on
      to call `String()` on `undefined` and throws (None here). */
  function IfStringAsWritten(e: Expr): (r: Option<string>)
    requires e.IfExpr? && Renderable(e)
  {
    if e.alternative.None? then None
    else Some(ExprString(e))
  }

  /** The corrected rendering: an `if` with an `else` renders as the same
      `if` without one, followed by `else ` and the alternative, and the
      rendering as written agrees with it exactly on the `if`s that have an
      `else`. */
  lemma IfElseExtendsIf(t: Token, cond: Expr, cons: Block, alt: Block)
    requires Renderable(IfExpr(t, Some(cond), cons, Some(alt)))
    ensures Renderable(IfExpr(t, Some(cond), cons, None))
    ensures ExprString(IfExpr(t, Some(cond), cons, Some(alt)))
         == ExprString(IfExpr(t, Some(cond), cons, None)) + "else " + StmtsString(alt.statements)
    ensures IfStringAsWritten(IfExpr(t, Some(cond), cons, Some(alt)))
         == Some(ExprString(IfExpr(t, Some(cond), cons, Some(alt))))
    ensures IfStringAsWritten(IfExpr(t, Some(cond), cons, None)).None?
  {
  }

  /** Counterexample: `if (x) { y }` renders, in the corrected renderer, as
      `ifx y`, while the renderer as written throws. */
  lemma IfWithoutElseThrows()
    ensures var x := Identifier(Name(Token(Ident, "x"), "x"));
      var y := ExprStmt(Token(Ident, "y"), Some(Identifier(Name(Token(Ident, "y"), "y"))));
      var e := IfExpr(Token(If, "if"), Some(x), Block(Token(LSquirly, "{"), [y]), None);
      && Renderable(e)
      && ExprString(e) == "ifx y"
      && IfStringAsWritten(e).None?
  {
    var y := ExprStmt(Token(Ident, "y"), Some(Identifier(Name(Token(Ident, "y"), "y"))));
    SingleStatementProgram(y);
  }

  /** The tree of the AST module's own test: `let arg = fooBazBar;`. */
  lemma LetRendering()
    ensures var s := LetStmt(Token(Let, "let"), Name(Token(Ident, "arg"), "arg"),
                             Some(Identifier(Name(Token(Ident, "fooBazBar"), "fooBazBar"))));
      && StmtsRenderable([s])
      && ProgramString(Program([s])) == "let arg = fooBazBar;"
  {
    var s := LetStmt(Token(Let, "let"), Name(Token(Ident, "arg"), "arg"),
                     Some(Identifier(Name(Token(Ident, "fooBazBar"), "fooBazBar"))));
    SingleStatementProgram(s);
  }
}
