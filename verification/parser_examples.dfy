/** The operator-precedence cases of the parser's tests, on their token
    streams: each parses without error into one expression statement whose
    rendering is the string the test expects. */
module ParserExamples {
  import opened Wrappers
  import opened Token
  import opened Ast
  import opened Parser
  import opened ParserLaws

  function Var(name: string): Expr {
    Atom(Token(Ident, name))
  }

  /** The program the parser builds for one expression on its own. */
  function Single(ts: Stream, e: Expr): Program {
    Program([ExprStmt(ts[0], Some(e))])
  }

  /** Parsing ends without error in the one-statement program `e`, which
      renders as `s`. */
  predicate ParsesAndRenders(ts: Stream, fuel: nat, e: Expr, s: string) {
    var r := ParseProgram(ts, fuel);
    && r.Parsed? && r.st.errors == [] && r.value == Single(ts, e)
    && StmtsRenderable(r.value.statements) && ProgramString(r.value) == s
  }

  /** An expression that is the whole input, followed by EOF, is the whole
      program. */
  lemma Assemble(ts: Stream, fuel: nat, e: Expr, n: nat, s: string)
    requires fuel >= 4
    requires ParseExpression(ts, LOWEST, PState(0, []), fuel - 3) == Parsed(Some(e), PState(n, []))
    requires ts[0].kind != Let && ts[0].kind != Return && ts[0].kind != Eof && ts[0].kind != Illegal
    requires StreamAt(ts, n + 1).kind == Eof
    requires Renderable(e) && ExprString(e) == s
    ensures ParsesAndRenders(ts, fuel, e, s)
  {
    SingleExpressionProgram(ts, fuel, e, n);
  }

  // ---------------------------------------------------------------------
  // `-a * b` is `((-a) * b)`

  function MinusTimesTree(): Expr {
    Binary(Token(Asterisk, "*"), PrefixExpr(Token(Minus, "-"), "-", Some(Var("a"))), Var("b"))
  }

  lemma MinusTimesParse(ts: Stream)
    requires ts == [Token(Minus, "-"), Token(Ident, "a"), Token(Asterisk, "*"),
                    Token(Ident, "b"), Token(Eof, "eof")]
    ensures ParseExpression(ts, LOWEST, PState(0, []), 10) == Parsed(Some(MinusTimesTree()), PState(3, []))
    ensures ts[0].kind !in {Let, Return, Eof, Illegal} && StreamAt(ts, 4).kind == Eof
  {
    var st := PState(0, []);
    assert Cur(ts, st) == Token(Minus, "-") && Peek(ts, st) == Token(Ident, "a");
    assert StreamAt(ts, 2) == Token(Asterisk, "*") && StreamAt(ts, 3) == Token(Ident, "b");
    assert StreamAt(ts, 4) == Token(Eof, "eof");
    PrefixBindsTighter(ts, st, 10);
  }

  lemma MinusTimesString()
    ensures Renderable(MinusTimesTree()) && ExprString(MinusTimesTree()) == "((-a) * b)"
  {
  }

  /** The parser test's `-a * b`. */
  lemma MinusTimes(ts: Stream)
    requires ts == [Token(Minus, "-"), Token(Ident, "a"), Token(Asterisk, "*"),
                    Token(Ident, "b"), Token(Eof, "eof")]
    ensures ParsesAndRenders(ts, 13, MinusTimesTree(), "((-a) * b)")
  {
    MinusTimesParse(ts);
    MinusTimesString();
    Assemble(ts, 13, MinusTimesTree(), 3, "((-a) * b)");
  }

  // ---------------------------------------------------------------------
  // `!-a` is `(!(-a))`

  function BangMinusTree(): Expr {
    PrefixExpr(Token(Bang, "!"), "!", Some(PrefixExpr(Token(Minus, "-"), "-", Some(Var("a")))))
  }

  lemma BangMinusParse(ts: Stream)
    requires ts == [Token(Bang, "!"), Token(Minus, "-"), Token(Ident, "a"), Token(Eof, "eof")]
    ensures ParseExpression(ts, LOWEST, PState(0, []), 10) == Parsed(Some(BangMinusTree()), PState(2, []))
    ensures ts[0].kind !in {Let, Return, Eof, Illegal} && StreamAt(ts, 3).kind == Eof
  {
    var st := PState(0, []);
    assert Cur(ts, st) == Token(Bang, "!") && Peek(ts, st) == Token(Minus, "-");
    assert StreamAt(ts, 2) == Token(Ident, "a") && StreamAt(ts, 3) == Token(Eof, "eof");
    PrefixOperatorsNest(ts, st, 10);
  }

  lemma BangMinusString()
    ensures Renderable(BangMinusTree()) && ExprString(BangMinusTree()) == "(!(-a))"
  {
  }

  /** The parser test's `!-a`. */
  lemma BangMinus(ts: Stream)
    requires ts == [Token(Bang, "!"), Token(Minus, "-"), Token(Ident, "a"), Token(Eof, "eof")]
    ensures ParsesAndRenders(ts, 13, BangMinusTree(), "(!(-a))")
  {
    BangMinusParse(ts);
    BangMinusString();
    Assemble(ts, 13, BangMinusTree(), 2, "(!(-a))");
  }

  // ---------------------------------------------------------------------
  // `a + b - c` is `((a + b) - c)`

  function PlusMinusTree(): Expr {
    Binary(Token(Minus, "-"), Binary(Token(Plus, "+"), Var("a"), Var("b")), Var("c"))
  }

  lemma PlusMinusParse(ts: Stream)
    requires ts == [Token(Ident, "a"), Token(Plus, "+"), Token(Ident, "b"), Token(Minus, "-"),
                    Token(Ident, "c"), Token(Eof, "eof")]
    ensures ParseExpression(ts, LOWEST, PState(0, []), 10) == Parsed(Some(PlusMinusTree()), PState(4, []))
    ensures ts[0].kind !in {Let, Return, Eof, Illegal} && StreamAt(ts, 5).kind == Eof
  {
    var st := PState(0, []);
    assert Cur(ts, st) == Token(Ident, "a") && Peek(ts, st) == Token(Plus, "+");
    assert StreamAt(ts, 2) == Token(Ident, "b") && StreamAt(ts, 3) == Token(Minus, "-");
    assert StreamAt(ts, 4) == Token(Ident, "c") && StreamAt(ts, 5) == Token(Eof, "eof");
    LooserSecondGroupsLeft(ts, st, 10);
  }

  lemma PlusMinusString()
    ensures Renderable(PlusMinusTree()) && ExprString(PlusMinusTree()) == "((a + b) - c)"
  {
  }

  /** The parser test's `a + b - c`. */
  lemma PlusMinus(ts: Stream)
    requires ts == [Token(Ident, "a"), Token(Plus, "+"), Token(Ident, "b"), Token(Minus, "-"),
                    Token(Ident, "c"), Token(Eof, "eof")]
    ensures ParsesAndRenders(ts, 13, PlusMinusTree(), "((a + b) - c)")
  {
    PlusMinusParse(ts);
    PlusMinusString();
    Assemble(ts, 13, PlusMinusTree(), 4, "((a + b) - c)");
  }

  // ---------------------------------------------------------------------
  // `a + b / c` is `(a + (b / c))`

  function PlusSlashTree(): Expr {
    Binary(Token(Plus, "+"), Var("a"), Binary(Token(Slash, "/"), Var("b"), Var("c")))
  }

  lemma PlusSlashParse(ts: Stream)
    requires ts == [Token(Ident, "a"), Token(Plus, "+"), Token(Ident, "b"), Token(Slash, "/"),
                    Token(Ident, "c"), Token(Eof, "eof")]
    ensures ParseExpression(ts, LOWEST, PState(0, []), 10) == Parsed(Some(PlusSlashTree()), PState(4, []))
    ensures ts[0].kind !in {Let, Return, Eof, Illegal} && StreamAt(ts, 5).kind == Eof
  {
    var st := PState(0, []);
    assert Cur(ts, st) == Token(Ident, "a") && Peek(ts, st) == Token(Plus, "+");
    assert StreamAt(ts, 2) == Token(Ident, "b") && StreamAt(ts, 3) == Token(Slash, "/");
    assert StreamAt(ts, 4) == Token(Ident, "c") && StreamAt(ts, 5) == Token(Eof, "eof");
    TighterSecondNestsRight(ts, st, 10);
  }

  lemma PlusSlashString()
    ensures Renderable(PlusSlashTree()) && ExprString(PlusSlashTree()) == "(a + (b / c))"
  {
  }

  /** The parser test's `a + b / c`. */
  lemma PlusSlash(ts: Stream)
    requires ts == [Token(Ident, "a"), Token(Plus, "+"), Token(Ident, "b"), Token(Slash, "/"),
                    Token(Ident, "c"), Token(Eof, "eof")]
    ensures ParsesAndRenders(ts, 13, PlusSlashTree(), "(a + (b / c))")
  {
    PlusSlashParse(ts);
    PlusSlashString();
    Assemble(ts, 13, PlusSlashTree(), 4, "(a + (b / c))");
  }
}
