/** What the Pratt parser does with short operator chains, for every token
    stream of the given shape and every sufficient fuel: the precedence and
    associativity laws the parser's tests check through the rendering
    (src/parser/__test__/parser.test.ts), and the two parser defects about
    `[` and ILLEGAL inside a block. */
module ParserLaws {
  import opened Wrappers
  import opened Token
  import opened Ast
  import opened Parser

  /** The identifier node the parser builds for an IDENT token. */
  function Atom(t: Token): (e: Expr)
    ensures e.Identifier? && e.id.token == t
  {
    Identifier(Name(t, t.literal))
  }

  /** The kinds whose infix parse function is `parseInfixExpression`. */
  predicate IsBinaryOperator(k: Kind) {
    HasInfix(k) && k != LParen && k != LBracket
  }

  /** Every binary operator binds tighter than LOWEST and less tightly
      than PREFIX. */
  lemma BinaryPrecedence(k: Kind)
    requires IsBinaryOperator(k)
    ensures EQUALS <= Precedence(k) <= PRODUCT
  {
  }

  /** A token after which the infix loop stops at any precedence. */
  predicate EndsExpression(t: Token) {
    t.kind == Semicolon || Precedence(t.kind) == LOWEST
  }

  function Binary(op: Token, left: Expr, right: Expr): Expr {
    InfixExpr(op, left, op.literal, Some(right))
  }

  // ---------------------------------------------------------------------
  // Single steps

  /** An identifier is its own prefix parse; the infix loop takes over. */
  lemma IdentifierExpression(ts: Stream, prec: int, st: PState, fuel: nat)
    requires fuel >= 2 && Cur(ts, st).kind == Ident
    ensures ParseExpression(ts, prec, st, fuel)
         == InfixLoop(ts, prec, Some(Atom(Cur(ts, st))), st, fuel - 1)
  {
    assert ParsePrefix(ts, st, fuel - 1) == Parsed(Some(Atom(Cur(ts, st))), st);
  }

  /** An identifier followed by a token that does not bind tighter is the
      whole expression, and the cursor stays on it. */
  lemma AtomExpression(ts: Stream, prec: int, st: PState, fuel: nat)
    requires fuel >= 2 && Cur(ts, st).kind == Ident
    requires Peek(ts, st).kind == Semicolon || prec >= Precedence(Peek(ts, st).kind)
    ensures ParseExpression(ts, prec, st, fuel) == Parsed(Some(Atom(Cur(ts, st))), st)
  {
    IdentifierExpression(ts, prec, st, fuel);
  }

  /** One turn of the infix loop on a binary operator that binds tighter
      than `prec`: the right operand is parsed at the operator's own
      precedence and the loop goes on with the combined node. */
  lemma OperatorStep(ts: Stream, prec: int, left: Expr, st: PState, fuel: nat, right: Expr, st': PState)
    requires fuel >= 3
    requires IsBinaryOperator(Peek(ts, st).kind) && prec < Precedence(Peek(ts, st).kind)
    requires ParseExpression(ts, Precedence(Peek(ts, st).kind), Advance(Advance(st)), fuel - 3)
          == Parsed(Some(right), st')
    ensures InfixLoop(ts, prec, Some(left), st, fuel)
         == InfixLoop(ts, prec, Some(Binary(Peek(ts, st), left, right)), st', fuel - 1)
  {
    var op := Peek(ts, st);
    assert Cur(ts, Advance(st)) == op;
    assert ParseOperator(ts, left, Advance(st), fuel - 2) == Parsed(Binary(op, left, right), st');
    assert ParseInfix(ts, left, Advance(st), fuel - 1) == Parsed(Binary(op, left, right), st');
  }

  /** One turn of the infix loop whose right operand is a single
      identifier: the operator after it does not bind tighter than this
      one. */
  lemma OperatorAtomStep(ts: Stream, prec: int, left: Expr, st: PState, fuel: nat)
    requires fuel >= 5
    requires IsBinaryOperator(Peek(ts, st).kind) && prec < Precedence(Peek(ts, st).kind)
    requires StreamAt(ts, st.pos + 2).kind == Ident
    requires StreamAt(ts, st.pos + 3).kind == Semicolon
          || Precedence(StreamAt(ts, st.pos + 3).kind) <= Precedence(Peek(ts, st).kind)
    ensures InfixLoop(ts, prec, Some(left), st, fuel)
         == InfixLoop(ts, prec, Some(Binary(Peek(ts, st), left, Atom(StreamAt(ts, st.pos + 2)))),
                      Advance(Advance(st)), fuel - 1)
  {
    var st2 := Advance(Advance(st));
    AtomExpression(ts, Precedence(Peek(ts, st).kind), st2, fuel - 3);
    OperatorStep(ts, prec, left, st, fuel, Atom(StreamAt(ts, st.pos + 2)), st2);
  }

  /** An identifier followed by a binary operator that binds tighter than
      `prec`: the operator's node, and the loop goes on after its right
      operand. */
  lemma IdentifierThenOperator(ts: Stream, prec: int, st: PState, fuel: nat, right: Expr, st': PState)
    requires fuel >= 4 && Cur(ts, st).kind == Ident
    requires IsBinaryOperator(Peek(ts, st).kind) && prec < Precedence(Peek(ts, st).kind)
    requires ParseExpression(ts, Precedence(Peek(ts, st).kind), Advance(Advance(st)), fuel - 4)
          == Parsed(Some(right), st')
    ensures ParseExpression(ts, prec, st, fuel)
         == InfixLoop(ts, prec, Some(Binary(Peek(ts, st), Atom(Cur(ts, st)), right)), st', fuel - 2)
  {
    var op, a := Peek(ts, st), Atom(Cur(ts, st));
    assert ParsePrefix(ts, st, fuel - 1) == Parsed(Some(a), st);
    assert Cur(ts, Advance(st)) == op;
    assert ParseOperator(ts, a, Advance(st), fuel - 3) == Parsed(Binary(op, a, right), st');
    assert ParseInfix(ts, a, Advance(st), fuel - 2) == Parsed(Binary(op, a, right), st');
  }

  /** `b op c` followed by a token that ends the expression, parsed at a
      precedence below `op`'s. */
  lemma OneOperatorExpression(ts: Stream, prec: int, st: PState, fuel: nat)
    requires fuel >= 6 && Cur(ts, st).kind == Ident
    requires IsBinaryOperator(Peek(ts, st).kind) && prec < Precedence(Peek(ts, st).kind)
    requires StreamAt(ts, st.pos + 2).kind == Ident && EndsExpression(StreamAt(ts, st.pos + 3))
    requires LOWEST <= prec
    ensures ParseExpression(ts, prec, st, fuel)
         == Parsed(Some(Binary(Peek(ts, st), Atom(Cur(ts, st)), Atom(StreamAt(ts, st.pos + 2)))),
                   Advance(Advance(st)))
  {
    var op, a, b := Peek(ts, st), Atom(Cur(ts, st)), Atom(StreamAt(ts, st.pos + 2));
    var st2 := Advance(Advance(st));
    BinaryPrecedence(op.kind);
    assert ParsePrefix(ts, st2, fuel - 4) == Parsed(Some(b), st2);
    assert InfixLoop(ts, Precedence(op.kind), Some(b), st2, fuel - 4) == Parsed(Some(b), st2);
    IdentifierThenOperator(ts, prec, st, fuel, b, st2);
  }

  /** The infix loop stops at once before a token that ends the
      expression. */
  lemma LoopEnds(ts: Stream, prec: int, left: Option<Expr>, st: PState, fuel: nat)
    requires EndsExpression(Peek(ts, st)) && LOWEST <= prec
    ensures InfixLoop(ts, prec, left, st, fuel) == Parsed(left, st)
  {
  }

  /** A binary operator whose right operand is a lone identifier closes
      the expression when the token after that identifier ends it. */
  lemma TrailingOperand(ts: Stream, prec: int, left: Expr, st: PState, fuel: nat)
    requires fuel >= 6 && LOWEST <= prec
    requires IsBinaryOperator(Peek(ts, st).kind) && prec < Precedence(Peek(ts, st).kind)
    requires StreamAt(ts, st.pos + 2).kind == Ident && EndsExpression(StreamAt(ts, st.pos + 3))
    ensures InfixLoop(ts, prec, Some(left), st, fuel)
         == Parsed(Some(Binary(Peek(ts, st), left, Atom(StreamAt(ts, st.pos + 2)))), Advance(Advance(st)))
  {
    BinaryPrecedence(Peek(ts, st).kind);
    OperatorAtomStep(ts, prec, left, st, fuel);
    LoopEnds(ts, prec, Some(Binary(Peek(ts, st), left, Atom(StreamAt(ts, st.pos + 2)))),
             Advance(Advance(st)), fuel - 1);
  }

  /** `a op b` where the operator after `b` does not bind tighter than
      `op`: the loop goes on with the node `(a op b)`. */
  lemma IdentifierThenAtom(ts: Stream, prec: int, st: PState, fuel: nat, r: Parsed<Option<Expr>>)
    requires fuel >= 6 && Cur(ts, st).kind == Ident
    requires IsBinaryOperator(Peek(ts, st).kind) && prec < Precedence(Peek(ts, st).kind)
    requires StreamAt(ts, st.pos + 2).kind == Ident
    requires StreamAt(ts, st.pos + 3).kind == Semicolon
          || Precedence(StreamAt(ts, st.pos + 3).kind) <= Precedence(Peek(ts, st).kind)
    requires InfixLoop(ts, prec, Some(Binary(Peek(ts, st), Atom(Cur(ts, st)), Atom(StreamAt(ts, st.pos + 2)))),
                       st.(pos := st.pos + 2), fuel - 2) == r
    ensures ParseExpression(ts, prec, st, fuel) == r
  {
    var st2 := Advance(Advance(st));
    assert st2 == st.(pos := st.pos + 2);
    AtomExpression(ts, Precedence(Peek(ts, st).kind), st2, fuel - 4);
    IdentifierThenOperator(ts, prec, st, fuel, Atom(StreamAt(ts, st.pos + 2)), st2);
  }

  /** An identifier, a binary operator and a right operand after which the
      expression ends. */
  lemma IdentifierThenOperand(ts: Stream, prec: int, st: PState, fuel: nat, right: Expr, st': PState)
    requires fuel >= 4 && Cur(ts, st).kind == Ident && LOWEST <= prec
    requires IsBinaryOperator(Peek(ts, st).kind) && prec < Precedence(Peek(ts, st).kind)
    requires ParseExpression(ts, Precedence(Peek(ts, st).kind), Advance(Advance(st)), fuel - 4)
          == Parsed(Some(right), st')
    requires EndsExpression(Peek(ts, st'))
    ensures ParseExpression(ts, prec, st, fuel)
         == Parsed(Some(Binary(Peek(ts, st), Atom(Cur(ts, st)), right)), st')
  {
    IdentifierThenOperator(ts, prec, st, fuel, right, st');
    LoopEnds(ts, prec, Some(Binary(Peek(ts, st), Atom(Cur(ts, st)), right)), st', fuel - 2);
  }

  // ---------------------------------------------------------------------
  // Operator chains

  /** The shape `a op1 b op2 c` followed by a token that ends the
      expression, starting at the cursor. */
  predicate ThreeOperands(ts: Stream, st: PState) {
    Cur(ts, st).kind == Ident && StreamAt(ts, st.pos + 2).kind == Ident
    && StreamAt(ts, st.pos + 4).kind == Ident
    && IsBinaryOperator(Peek(ts, st).kind) && IsBinaryOperator(StreamAt(ts, st.pos + 3).kind)
    && EndsExpression(StreamAt(ts, st.pos + 5))
  }

  /** When the second operator does not bind tighter than the first, the
      chain groups to the left: `a + b - c` is `((a + b) - c)` and
      `a * b + c` is `((a * b) + c)`. */
  lemma LooserSecondGroupsLeft(ts: Stream, st: PState, fuel: nat)
    requires ThreeOperands(ts, st) && fuel >= 10
    requires Precedence(StreamAt(ts, st.pos + 3).kind) <= Precedence(Peek(ts, st).kind)
    ensures ParseExpression(ts, LOWEST, st, fuel)
         == Parsed(Some(Binary(StreamAt(ts, st.pos + 3),
                               Binary(Peek(ts, st), Atom(Cur(ts, st)), Atom(StreamAt(ts, st.pos + 2))),
                               Atom(StreamAt(ts, st.pos + 4)))),
                   st.(pos := st.pos + 4))
  {
    var ab := Binary(Peek(ts, st), Atom(Cur(ts, st)), Atom(StreamAt(ts, st.pos + 2)));
    var st2 := st.(pos := st.pos + 2);
    BinaryPrecedence(Peek(ts, st).kind);
    BinaryPrecedence(StreamAt(ts, st.pos + 3).kind);
    assert Peek(ts, st2) == StreamAt(ts, st.pos + 3);
    assert StreamAt(ts, st2.pos + 2) == StreamAt(ts, st.pos + 4);
    assert StreamAt(ts, st2.pos + 3) == StreamAt(ts, st.pos + 5);
    TrailingOperand(ts, LOWEST, ab, st2, fuel - 2);
    IdentifierThenAtom(ts, LOWEST, st, fuel,
                       Parsed(Some(Binary(StreamAt(ts, st.pos + 3), ab, Atom(StreamAt(ts, st.pos + 4)))),
                              st.(pos := st.pos + 4)));
  }

  /** When the second operator binds tighter, it takes the middle operand:
      `a + b * c` is `(a + (b * c))`. */
  lemma TighterSecondNestsRight(ts: Stream, st: PState, fuel: nat)
    requires ThreeOperands(ts, st) && fuel >= 10
    requires Precedence(Peek(ts, st).kind) < Precedence(StreamAt(ts, st.pos + 3).kind)
    ensures ParseExpression(ts, LOWEST, st, fuel)
         == Parsed(Some(Binary(Peek(ts, st),
                               Atom(Cur(ts, st)),
                               Binary(StreamAt(ts, st.pos + 3), Atom(StreamAt(ts, st.pos + 2)),
                                      Atom(StreamAt(ts, st.pos + 4))))),
                   st.(pos := st.pos + 4))
  {
    var st2 := st.(pos := st.pos + 2);
    var st4 := st.(pos := st.pos + 4);
    var bc := Binary(StreamAt(ts, st.pos + 3), Atom(StreamAt(ts, st.pos + 2)), Atom(StreamAt(ts, st.pos + 4)));
    BinaryPrecedence(Peek(ts, st).kind);
    // the right operand of the first operator is `b op2 c`, parsed at its precedence
    NestedOperand(ts, st, fuel);
    IdentifierThenOperand(ts, LOWEST, st, fuel, bc, st4);
  }

  /** The right operand of `a op1 b op2 c` when op2 binds tighter. */
  lemma NestedOperand(ts: Stream, st: PState, fuel: nat)
    requires ThreeOperands(ts, st) && fuel >= 10
    requires Precedence(Peek(ts, st).kind) < Precedence(StreamAt(ts, st.pos + 3).kind)
    ensures ParseExpression(ts, Precedence(Peek(ts, st).kind), st.(pos := st.pos + 2), fuel - 4)
         == Parsed(Some(Binary(StreamAt(ts, st.pos + 3), Atom(StreamAt(ts, st.pos + 2)),
                               Atom(StreamAt(ts, st.pos + 4)))),
                   st.(pos := st.pos + 4))
  {
    var st2 := st.(pos := st.pos + 2);
    BinaryPrecedence(Peek(ts, st).kind);
    assert Cur(ts, st2) == StreamAt(ts, st.pos + 2) && Peek(ts, st2) == StreamAt(ts, st.pos + 3);
    assert StreamAt(ts, st2.pos + 2) == StreamAt(ts, st.pos + 4);
    assert StreamAt(ts, st2.pos + 3) == StreamAt(ts, st.pos + 5);
    OneOperatorExpression(ts, Precedence(Peek(ts, st).kind), st2, fuel - 4);
  }

  /** A prefix operator whose operand, parsed at PREFIX precedence, is
      `e`: the prefix node, and the infix loop goes on after the operand. */
  lemma PrefixOperatorExpression(ts: Stream, prec: int, st: PState, fuel: nat, e: Expr, st': PState)
    requires fuel >= 3 && (Cur(ts, st).kind == Bang || Cur(ts, st).kind == Minus)
    requires ParseExpression(ts, PREFIX, Advance(st), fuel - 3) == Parsed(Some(e), st')
    ensures ParseExpression(ts, prec, st, fuel)
         == InfixLoop(ts, prec, Some(PrefixExpr(Cur(ts, st), Cur(ts, st).literal, Some(e))), st', fuel - 1)
  {
    var p := PrefixExpr(Cur(ts, st), Cur(ts, st).literal, Some(e));
    assert ParsePrefixOperator(ts, st, fuel - 2) == Parsed(Some(p), st');
    assert ParsePrefix(ts, st, fuel - 1) == Parsed(Some(p), st');
  }

  /** A prefix operator applied to an identifier whose next token does not
      start an infix operator binding tighter than PREFIX. */
  lemma PrefixAtom(ts: Stream, prec: int, st: PState, fuel: nat, r: Parsed<Option<Expr>>)
    requires fuel >= 5 && (Cur(ts, st).kind == Bang || Cur(ts, st).kind == Minus) && Peek(ts, st).kind == Ident
    requires StreamAt(ts, st.pos + 2).kind == Semicolon || PREFIX >= Precedence(StreamAt(ts, st.pos + 2).kind)
    requires InfixLoop(ts, prec, Some(PrefixExpr(Cur(ts, st), Cur(ts, st).literal, Some(Atom(Peek(ts, st))))),
                       st.(pos := st.pos + 1), fuel - 1) == r
    ensures ParseExpression(ts, prec, st, fuel) == r
  {
    assert Advance(st) == st.(pos := st.pos + 1);
    AtomExpression(ts, PREFIX, Advance(st), fuel - 3);
    PrefixOperatorExpression(ts, prec, st, fuel, Atom(Peek(ts, st)), Advance(st));
  }

  /** A prefix operator whose operand is followed by a token that ends the
      expression. */
  lemma PrefixOperand(ts: Stream, prec: int, st: PState, fuel: nat, e: Expr, st': PState)
    requires fuel >= 3 && (Cur(ts, st).kind == Bang || Cur(ts, st).kind == Minus) && LOWEST <= prec
    requires ParseExpression(ts, PREFIX, Advance(st), fuel - 3) == Parsed(Some(e), st')
    requires EndsExpression(Peek(ts, st'))
    ensures ParseExpression(ts, prec, st, fuel)
         == Parsed(Some(PrefixExpr(Cur(ts, st), Cur(ts, st).literal, Some(e))), st')
  {
    PrefixOperatorExpression(ts, prec, st, fuel, e, st');
    LoopEnds(ts, prec, Some(PrefixExpr(Cur(ts, st), Cur(ts, st).literal, Some(e))), st', fuel - 1);
  }

  /** A prefix operator takes only the operand right after it, since no
      binary operator binds as tightly as PREFIX: `-a * b` is
      `((-a) * b)`. */
  lemma PrefixBindsTighter(ts: Stream, st: PState, fuel: nat)
    requires (Cur(ts, st).kind == Bang || Cur(ts, st).kind == Minus) && Peek(ts, st).kind == Ident
    requires IsBinaryOperator(StreamAt(ts, st.pos + 2).kind) && StreamAt(ts, st.pos + 3).kind == Ident
    requires EndsExpression(StreamAt(ts, st.pos + 4)) && fuel >= 10
    ensures ParseExpression(ts, LOWEST, st, fuel)
         == Parsed(Some(Binary(StreamAt(ts, st.pos + 2),
                               PrefixExpr(Cur(ts, st), Cur(ts, st).literal, Some(Atom(Peek(ts, st)))),
                               Atom(StreamAt(ts, st.pos + 3)))),
                   st.(pos := st.pos + 3))
  {
    var neg := PrefixExpr(Cur(ts, st), Cur(ts, st).literal, Some(Atom(Peek(ts, st))));
    var st1 := st.(pos := st.pos + 1);
    BinaryPrecedence(StreamAt(ts, st.pos + 2).kind);
    assert Peek(ts, st1) == StreamAt(ts, st.pos + 2);
    assert StreamAt(ts, st1.pos + 2) == StreamAt(ts, st.pos + 3);
    assert StreamAt(ts, st1.pos + 3) == StreamAt(ts, st.pos + 4);
    TrailingOperand(ts, LOWEST, neg, st1, fuel - 1);
    PrefixAtom(ts, LOWEST, st, fuel,
               Parsed(Some(Binary(StreamAt(ts, st.pos + 2), neg, Atom(StreamAt(ts, st.pos + 3)))),
                      st.(pos := st.pos + 3)));
  }

  /** Prefix operators nest: `!-a` is `(!(-a))`. */
  lemma PrefixOperatorsNest(ts: Stream, st: PState, fuel: nat)
    requires (Cur(ts, st).kind == Bang || Cur(ts, st).kind == Minus) && (Peek(ts, st).kind == Bang || Peek(ts, st).kind == Minus)
    requires StreamAt(ts, st.pos + 2).kind == Ident && EndsExpression(StreamAt(ts, st.pos + 3)) && fuel >= 10
    ensures ParseExpression(ts, LOWEST, st, fuel)
         == Parsed(Some(PrefixExpr(Cur(ts, st), Cur(ts, st).literal,
                                   Some(PrefixExpr(Peek(ts, st), Peek(ts, st).literal,
                                                   Some(Atom(StreamAt(ts, st.pos + 2))))))),
                   st.(pos := st.pos + 2))
  {
    var inner := Peek(ts, st);
    var st1 := Advance(st);
    var e := PrefixExpr(inner, inner.literal, Some(Atom(StreamAt(ts, st.pos + 2))));
    LoopEnds(ts, PREFIX, Some(e), st1.(pos := st1.pos + 1), fuel - 4);
    PrefixAtom(ts, PREFIX, st1, fuel - 3, Parsed(Some(e), st1.(pos := st1.pos + 1)));
    PrefixOperand(ts, LOWEST, st, fuel, e, st1.(pos := st1.pos + 1));
  }

  // ---------------------------------------------------------------------
  // Calls and statements

  /** `f()`: a call with an empty argument list, ending on the `)`. */
  lemma EmptyCall(ts: Stream, st: PState, fuel: nat)
    requires Cur(ts, st).kind == Ident && Peek(ts, st).kind == LParen
    requires StreamAt(ts, st.pos + 2).kind == RParen && EndsExpression(StreamAt(ts, st.pos + 3)) && fuel >= 6
    ensures ParseExpression(ts, LOWEST, st, fuel)
         == Parsed(Some(CallExpr(Peek(ts, st), Atom(Cur(ts, st)), [])), st.(pos := st.pos + 2))
  {
    var f := Atom(Cur(ts, st));
    var e := CallExpr(Peek(ts, st), f, []);
    var st1, st2 := Advance(st), Advance(Advance(st));
    assert ParsePrefix(ts, st, fuel - 1) == Parsed(Some(f), st);
    assert ParseCall(ts, f, st1, fuel - 3) == Parsed(e, st2);
    assert ParseInfix(ts, f, st1, fuel - 2) == Parsed(e, st2);
    assert InfixLoop(ts, LOWEST, Some(e), st2, fuel - 2) == Parsed(Some(e), st2);
  }

  /** `let x = y` with an optional `;`: the let statement, ending on the
      value or on the `;`. */
  lemma {:induction false} LetStatement(ts: Stream, fuel: nat)
    requires StreamAt(ts, 0).kind == Let && StreamAt(ts, 1).kind == Ident
    requires StreamAt(ts, 2).kind == Assign && StreamAt(ts, 3).kind == Ident
    requires EndsExpression(StreamAt(ts, 4)) && fuel >= 5
    ensures ParseStatement(ts, PState(0, []), fuel)
         == Parsed(Some(LetStmt(StreamAt(ts, 0), Name(StreamAt(ts, 1), StreamAt(ts, 1).literal),
                                Some(Atom(StreamAt(ts, 3))))),
                   if StreamAt(ts, 4).kind == Semicolon then PState(4, []) else PState(3, []))
  {
    AtomExpression(ts, LOWEST, PState(3, []), fuel - 2);
    assert ParseLet(ts, PState(0, []), fuel - 1)
        == Parsed(Some(LetStmt(StreamAt(ts, 0), Name(StreamAt(ts, 1), StreamAt(ts, 1).literal),
                               Some(Atom(StreamAt(ts, 3))))),
                  SkipSemicolon(ts, PState(3, [])));
  }

  /** `let x` not followed by `=`: no statement, one peek error, and the
      cursor stays on the name. */
  lemma LetWithoutAssign(ts: Stream, fuel: nat)
    requires StreamAt(ts, 0).kind == Let && StreamAt(ts, 1).kind == Ident
    requires StreamAt(ts, 2).kind != Assign && fuel >= 1
    ensures ParseStatement(ts, PState(0, []), fuel)
         == Parsed(None, PState(1, [PeekErrorMessage(Assign, StreamAt(ts, 2).kind)]))
  {
    assert ParseLet(ts, PState(0, []), fuel - 1)
        == Parsed(None, AddError(PState(1, []), PeekErrorMessage(Assign, StreamAt(ts, 2).kind)));
  }

  /** A program whose only statement is one expression with no `;`: the
      parse has no error and renders as the expression does. */
  lemma {:induction false} SingleExpressionProgram(ts: Stream, fuel: nat, e: Expr, n: nat)
    requires fuel >= 4 && ts[0].kind != Let && ts[0].kind != Return
    requires ts[0].kind != Eof && ts[0].kind != Illegal
    requires ParseExpression(ts, LOWEST, PState(0, []), fuel - 3) == Parsed(Some(e), PState(n, []))
    requires StreamAt(ts, n + 1).kind == Eof
    requires Renderable(e)
    ensures var r := ParseProgram(ts, fuel);
      && r.Parsed? && r.st.errors == []
      && r.value == Program([ExprStmt(ts[0], Some(e))])
      && StmtsRenderable(r.value.statements)
      && ProgramString(r.value) == ExprString(e)
  {
    var s := ExprStmt(ts[0], Some(e));
    ExpressionStatementParse(ts, PState(0, []), fuel - 1, Some(e), PState(n, []));
    assert SkipSemicolon(ts, PState(n, [])) == PState(n, []);
    OneStatementProgram(ts, fuel, s, n);
    SingleStatementProgram(s);
  }

  /** `parseStatement` hands `let` to the let parser, `return` to the
      return parser and every other token to the expression statement
      parser. */
  lemma StatementDispatch(ts: Stream, st: PState, fuel: nat)
    requires fuel >= 1
    ensures Cur(ts, st).kind == Let ==> ParseStatement(ts, st, fuel) == ParseLet(ts, st, fuel - 1)
    ensures Cur(ts, st).kind == Return ==> ParseStatement(ts, st, fuel) == ParseReturn(ts, st, fuel - 1)
    ensures Cur(ts, st).kind != Let && Cur(ts, st).kind != Return ==>
              ParseStatement(ts, st, fuel) == ParseExpressionStatement(ts, st, fuel - 1)
  {
  }

  /** An expression statement holds the expression parsed from its first
      token and ends on it, or on the `;` after it. */
  lemma ExpressionStatementParse(ts: Stream, st: PState, fuel: nat, e: Option<Expr>, st': PState)
    requires fuel >= 2 && Cur(ts, st).kind != Let && Cur(ts, st).kind != Return
    requires ParseExpression(ts, LOWEST, st, fuel - 2) == Parsed(e, st')
    ensures ParseStatement(ts, st, fuel) == Parsed(Some(ExprStmt(Cur(ts, st), e)), SkipSemicolon(ts, st'))
  {
    StatementDispatch(ts, st, fuel);
  }

  /** A return statement holds the expression after `return` and ends on
      it, or on the `;` after it. */
  lemma ReturnStatementParse(ts: Stream, st: PState, fuel: nat, e: Option<Expr>, st': PState)
    requires fuel >= 2 && Cur(ts, st).kind == Return
    requires ParseExpression(ts, LOWEST, Advance(st), fuel - 2) == Parsed(e, st')
    ensures ParseStatement(ts, st, fuel) == Parsed(Some(ReturnStmt(Cur(ts, st), e)), SkipSemicolon(ts, st'))
  {
    StatementDispatch(ts, st, fuel);
  }

  /** A program whose first statement is followed by EOF is that statement. */
  lemma OneStatementProgram(ts: Stream, fuel: nat, s: Stmt, n: nat)
    requires fuel >= 2 && ts[0].kind != Eof && ts[0].kind != Illegal
    requires ParseStatement(ts, PState(0, []), fuel - 1) == Parsed(Some(s), PState(n, []))
    requires StreamAt(ts, n + 1).kind == Eof
    ensures ParseProgram(ts, fuel) == Parsed(Program([s]), PState(n + 1, []))
  {
    LoopStep(ts, ProgramStops, [], PState(0, []), fuel, s, PState(n, []));
    assert [] + [s] == [s];
    LoopStop(ts, ProgramStops, [s], PState(n + 1, []), fuel - 1);
  }

  /** One turn of the statement loop that keeps the parsed statement. */
  lemma LoopStep(ts: Stream, stops: set<Kind>, stmts: seq<Stmt>, st: PState, fuel: nat, s: Stmt, st': PState)
    requires fuel > 0 && Cur(ts, st).kind !in stops
    requires ParseStatement(ts, st, fuel - 1) == Parsed(Some(s), st')
    ensures StatementLoop(ts, stops, stmts, st, fuel)
         == StatementLoop(ts, stops, stmts + [s], Advance(st'), fuel - 1)
  {
  }

  /** The statement loop ends as soon as the cursor is on a stop. */
  lemma LoopStop(ts: Stream, stops: set<Kind>, stmts: seq<Stmt>, st: PState, fuel: nat)
    requires Cur(ts, st).kind in stops
    ensures StatementLoop(ts, stops, stmts, st, fuel) == Parsed(stmts, st)
  {
  }

  // ---------------------------------------------------------------------
  // Grouping, conditionals, literals and blocks, one construct at a time

  /** `( e )` is `e` itself, ending on the `)`; without the `)` there is no
      expression and the peek error is recorded. */
  lemma GroupedStep(ts: Stream, st: PState, fuel: nat, e: Option<Expr>, st': PState)
    requires fuel >= 1
    requires ParseExpression(ts, LOWEST, Advance(st), fuel - 1) == Parsed(e, st')
    ensures Peek(ts, st').kind == RParen ==> ParseGrouped(ts, st, fuel) == Parsed(e, Advance(st'))
    ensures Peek(ts, st').kind != RParen ==>
              ParseGrouped(ts, st, fuel) == Parsed(None, AddError(st', PeekErrorMessage(RParen, Peek(ts, st').kind)))
  {
  }

  /** `if ( c ) { B }` with no `else` after the block: the condition and
      the consequence, no alternative, ending on the `}`. */
  lemma IfStep(ts: Stream, st: PState, fuel: nat, c: Option<Expr>, sc: PState, b: Block, sb: PState)
    requires fuel >= 2 && Peek(ts, st).kind == LParen
    requires ParseExpression(ts, LOWEST, st.(pos := st.pos + 2), fuel - 1) == Parsed(c, sc)
    requires Peek(ts, sc).kind == RParen && StreamAt(ts, sc.pos + 2).kind == LSquirly
    requires ParseBlock(ts, sc.(pos := sc.pos + 2), fuel - 1) == Parsed(b, sb)
    requires Peek(ts, sb).kind != Else
    ensures ParseIf(ts, st, fuel) == Parsed(Some(IfExpr(Cur(ts, st), c, b, None)), sb)
  {
    assert ParseConsequence(ts, Cur(ts, st), c, Advance(sc), fuel)
        == Parsed(Some(IfExpr(Cur(ts, st), c, b, None)), sb);
  }

  /** `if ( c ) { B } else { A }`: the alternative is the second block. */
  lemma IfElseStep(ts: Stream, st: PState, fuel: nat, c: Option<Expr>, sc: PState, b: Block, sb: PState,
                   alt: Block, sa: PState)
    requires fuel >= 2 && Peek(ts, st).kind == LParen
    requires ParseExpression(ts, LOWEST, st.(pos := st.pos + 2), fuel - 1) == Parsed(c, sc)
    requires Peek(ts, sc).kind == RParen && StreamAt(ts, sc.pos + 2).kind == LSquirly
    requires ParseBlock(ts, sc.(pos := sc.pos + 2), fuel - 1) == Parsed(b, sb)
    requires Peek(ts, sb).kind == Else && StreamAt(ts, sb.pos + 2).kind == LSquirly
    requires ParseBlock(ts, sb.(pos := sb.pos + 2), fuel - 1) == Parsed(alt, sa)
    ensures ParseIf(ts, st, fuel) == Parsed(Some(IfExpr(Cur(ts, st), c, b, Some(alt))), sa)
  {
    var tok := Cur(ts, st);
    var e := Some(IfExpr(tok, c, b, Some(alt)));
    assert ExpectPeek(ts, LSquirly, Advance(sb)) == (true, sb.(pos := sb.pos + 2));
    assert ParseElse(ts, tok, c, b, sb, fuel) == Parsed(e, sa);
    assert ExpectPeek(ts, LSquirly, Advance(sc)) == (true, sc.(pos := sc.pos + 2));
    assert ParseConsequence(ts, tok, c, Advance(sc), fuel) == Parsed(e, sa);
    assert ExpectPeek(ts, RParen, sc) == (true, Advance(sc));
  }

  /** `fn ( params ) { B }`: the parameter list (empty when malformed) and
      the body, ending on the body's `}`. */
  lemma FunctionLiteralStep(ts: Stream, st: PState, fuel: nat, ps: Option<seq<Name>>, sp: PState,
                            body: Block, sb: PState)
    requires fuel >= 1 && Peek(ts, st).kind == LParen
    requires ParseParameters(ts, Advance(st), fuel - 1) == Parsed(ps, sp)
    requires Peek(ts, sp).kind == LSquirly
    requires ParseBlock(ts, Advance(sp), fuel - 1) == Parsed(body, sb)
    ensures ParseFunctionLiteral(ts, st, fuel) == Parsed(Some(FunctionLiteral(Cur(ts, st), ps.GetOr([]), body)), sb)
  {
  }

  /** `( a , b )`: the literals of the two tokens are the parameter names,
      and the cursor ends on the `)`. */
  lemma TwoParameters(ts: Stream, st: PState, fuel: nat)
    requires fuel >= 1 && Peek(ts, st).kind != RParen
    requires StreamAt(ts, st.pos + 2).kind == Comma && StreamAt(ts, st.pos + 4).kind == RParen
    ensures ParseParameters(ts, st, fuel)
         == Parsed(Some([Name(Peek(ts, st), Peek(ts, st).literal),
                         Name(StreamAt(ts, st.pos + 3), StreamAt(ts, st.pos + 3).literal)]),
                   st.(pos := st.pos + 4))
  {
    var a := Name(Peek(ts, st), Peek(ts, st).literal);
    var b := Name(StreamAt(ts, st.pos + 3), StreamAt(ts, st.pos + 3).literal);
    var st3 := st.(pos := st.pos + 3);
    assert ParameterLoop(ts, [a, b], st3, fuel - 1) == Parsed([a, b], st3);
    assert [a] + [b] == [a, b];
    assert ParameterLoop(ts, [a], Advance(st), fuel) == Parsed([a, b], st3);
  }

  /** One turn of the list loop: after `,` the next expression is appended
      when it parsed, and left out when it did not. */
  lemma ListLoopStep(ts: Stream, items: seq<Expr>, st: PState, fuel: nat, e: Option<Expr>, st': PState)
    requires fuel >= 1 && Peek(ts, st).kind == Comma
    requires ParseExpression(ts, LOWEST, st.(pos := st.pos + 2), fuel - 1) == Parsed(e, st')
    ensures ListLoop(ts, items, st, fuel) == ListLoop(ts, items + OptionToSeq(e), st', fuel - 1)
  {
    assert Advance(Advance(st)) == st.(pos := st.pos + 2);
  }

  /** `e1 , e2` up to `end`: both elements in order, ending on `end`. */
  lemma TwoElements(ts: Stream, end: Kind, st: PState, fuel: nat, e1: Expr, s1: PState, e2: Expr, s2: PState)
    requires fuel >= 2 && end != Comma && Peek(ts, st).kind != end
    requires ParseExpression(ts, LOWEST, Advance(st), fuel - 1) == Parsed(Some(e1), s1)
    requires Peek(ts, s1).kind == Comma
    requires ParseExpression(ts, LOWEST, s1.(pos := s1.pos + 2), fuel - 2) == Parsed(Some(e2), s2)
    requires Peek(ts, s2).kind == end
    ensures ParseExpressionList(ts, end, st, fuel) == Parsed(Some([e1, e2]), Advance(s2))
  {
    ListLoopStep(ts, [e1], s1, fuel - 1, Some(e2), s2);
    assert [e1] + OptionToSeq(Some(e2)) == [e1, e2];
    assert ListLoop(ts, [e1, e2], s2, fuel - 2) == Parsed([e1, e2], s2);
    assert ListLoop(ts, OptionToSeq(Some(e1)), s1, fuel - 1) == Parsed([e1, e2], s2);
    assert ExpectPeek(ts, end, s2) == (true, Advance(s2));
  }

  /** `[ e1 , e2 ]` is the array literal of both elements, ending on `]`. */
  lemma ArrayStep(ts: Stream, st: PState, fuel: nat, e1: Expr, s1: PState, e2: Expr, s2: PState)
    requires fuel >= 3 && Peek(ts, st).kind != RBracket
    requires ParseExpression(ts, LOWEST, Advance(st), fuel - 2) == Parsed(Some(e1), s1)
    requires Peek(ts, s1).kind == Comma
    requires ParseExpression(ts, LOWEST, s1.(pos := s1.pos + 2), fuel - 3) == Parsed(Some(e2), s2)
    requires Peek(ts, s2).kind == RBracket
    ensures ParseArray(ts, st, fuel) == Parsed(Some(ArrayLiteral(Cur(ts, st), [e1, e2])), Advance(s2))
  {
    TwoElements(ts, RBracket, st, fuel - 1, e1, s1, e2, s2);
    assert ParseExpressionList(ts, RBracket, st, fuel - 1) == Parsed(Some([e1, e2]), Advance(s2));
  }

  /** `{ k : v }` is the hash literal of one pair, ending on the `}`. */
  lemma HashStep(ts: Stream, st: PState, fuel: nat, k: Expr, s1: PState, v: Expr, s2: PState)
    requires fuel >= 3 && Peek(ts, st).kind != RSquirly
    requires ParseExpression(ts, LOWEST, Advance(st), fuel - 2) == Parsed(Some(k), s1)
    requires Peek(ts, s1).kind == Colon
    requires ParseExpression(ts, LOWEST, s1.(pos := s1.pos + 2), fuel - 2) == Parsed(Some(v), s2)
    requires Peek(ts, s2).kind == RSquirly
    ensures ParseHash(ts, st, fuel) == Parsed(Some(HashLiteral(Cur(ts, st), [Pair(k, v)])), Advance(s2))
  {
    var ps := [Pair(k, v)];
    assert [] + ps == ps;
    assert HashSeparator(ts, ps, s2, fuel - 2) == Parsed(Some(ps), s2);
    assert HashLoop(ts, [], st, fuel - 1) == Parsed(Some(ps), s2);
  }

  /** `{ }` is the empty block, ending on the `}`. */
  lemma EmptyBlock(ts: Stream, st: PState, fuel: nat)
    requires fuel >= 1 && Peek(ts, st).kind == RSquirly
    ensures ParseBlock(ts, st, fuel) == Parsed(Block(Cur(ts, st), []), Advance(st))
  {
    LoopStop(ts, BlockStops, [], Advance(st), fuel - 1);
  }

  /** `{ s }`: the block of its one statement, ending on the `}`. */
  lemma OneStatementBlock(ts: Stream, st: PState, fuel: nat, s: Stmt, st': PState)
    requires fuel >= 2 && Peek(ts, st).kind !in BlockStops
    requires ParseStatement(ts, Advance(st), fuel - 2) == Parsed(Some(s), st')
    requires Peek(ts, st').kind == RSquirly
    ensures ParseBlock(ts, st, fuel) == Parsed(Block(Cur(ts, st), [s]), Advance(st'))
  {
    LoopStep(ts, BlockStops, [], Advance(st), fuel - 1, s, st');
    assert [] + [s] == [s];
    LoopStop(ts, BlockStops, [s], Advance(st'), fuel - 2);
    assert BlockLoop(ts, [], Advance(st), fuel - 1) == Parsed([s], Advance(st'));
  }

  /** Off every stop, state `st` parses, with `fuel`, to statement `s`,
      and the loop moves on to `st'`. */
  predicate ReadsStatement(ts: Stream, stops: set<Kind>, s: Stmt, st: PState, st': PState, fuel: nat) {
    && Cur(ts, st).kind !in stops
    && var r := ParseStatement(ts, st, fuel);
       r.Parsed? && r.value == Some(s) && Advance(r.st) == st'
  }

  /** Statement `i` of `ss` is read from state `sts[i]` with the fuel the
      loop has left by then: the statements are read one after another. */
  predicate ParsesInTurn(ts: Stream, stops: set<Kind>, ss: seq<Stmt>, sts: seq<PState>, fuel: nat) {
    && |sts| == |ss| + 1 && |ss| <= fuel
    && forall i :: 0 <= i < |ss| ==> ReadsStatement(ts, stops, ss[i], sts[i], sts[i + 1], fuel - 1 - i)
  }

  /** Once the first statement is read, the rest are read in turn with
      one unit of fuel less. */
  lemma ParsesInTurnTail(ts: Stream, stops: set<Kind>, ss: seq<Stmt>, sts: seq<PState>, fuel: nat)
    requires ParsesInTurn(ts, stops, ss, sts, fuel) && |ss| > 0
    ensures ParsesInTurn(ts, stops, ss[1..], sts[1..], fuel - 1)
    ensures sts[1..][|ss[1..]|] == sts[|ss|]
  {
    forall i | 0 <= i < |ss| - 1
      ensures ReadsStatement(ts, stops, ss[1..][i], sts[1..][i], sts[1..][i + 1], fuel - 1 - 1 - i)
    {
      assert ReadsStatement(ts, stops, ss[i + 1], sts[i + 1], sts[i + 2], fuel - 1 - (i + 1));
      assert ss[1..][i] == ss[i + 1] && sts[1..][i] == sts[i + 1] && sts[1..][i + 1] == sts[i + 2];
    }
  }

  /** One statement read: the loop goes on from the state after it. */
  lemma LoopReads(ts: Stream, stops: set<Kind>, stmts: seq<Stmt>, s: Stmt, st: PState, st': PState, fuel: nat)
    requires fuel > 0 && ReadsStatement(ts, stops, s, st, st', fuel - 1)
    ensures StatementLoop(ts, stops, stmts, st, fuel) == StatementLoop(ts, stops, stmts + [s], st', fuel - 1)
  {
    var r := ParseStatement(ts, st, fuel - 1);
    LoopStep(ts, stops, stmts, st, fuel, s, r.st);
  }

  /** The first statement read, the loop returns what it returns from the
      state after it with that statement added. */
  lemma FirstInTurn(ts: Stream, stops: set<Kind>, ss: seq<Stmt>, sts: seq<PState>, stmts: seq<Stmt>, fuel: nat)
    requires ParsesInTurn(ts, stops, ss, sts, fuel) && |ss| > 0
    requires StatementLoop(ts, stops, stmts + [ss[0]], sts[1..][0], fuel - 1)
          == Parsed(stmts + [ss[0]] + ss[1..], sts[1..][|ss[1..]|])
    ensures StatementLoop(ts, stops, stmts, sts[0], fuel) == Parsed(stmts + ss, sts[|ss|])
  {
    LoopReads(ts, stops, stmts, ss[0], sts[0], sts[1], fuel);
    assert sts[1..][0] == sts[1] && sts[1..][|ss[1..]|] == sts[|ss|];
    AppendFirst(stmts, ss);
  }

  /** Statements read in turn up to a stop are exactly the statements the
      loop returns, after the ones it already had. */
  lemma {:induction false} StatementsInTurn(ts: Stream, stops: set<Kind>, ss: seq<Stmt>, sts: seq<PState>,
                                            stmts: seq<Stmt>, fuel: nat)
    requires ParsesInTurn(ts, stops, ss, sts, fuel) && Cur(ts, sts[|ss|]).kind in stops
    ensures StatementLoop(ts, stops, stmts, sts[0], fuel) == Parsed(stmts + ss, sts[|ss|])
    decreases |ss|
  {
    if |ss| == 0 {
      LoopStop(ts, stops, stmts, sts[0], fuel);
      assert stmts + ss == stmts;
    } else {
      ParsesInTurnTail(ts, stops, ss, sts, fuel);
      StatementsInTurn(ts, stops, ss[1..], sts[1..], stmts + [ss[0]], fuel - 1);
      FirstInTurn(ts, stops, ss, sts, stmts, fuel);
    }
  }

  /** A block whose statements are read in turn up to `}` holds exactly
      those statements, whatever their number. */
  lemma BlockInTurn(ts: Stream, st: PState, fuel: nat, ss: seq<Stmt>, sts: seq<PState>)
    requires fuel >= 1 && |sts| > 0 && sts[0] == Advance(st)
    requires ParsesInTurn(ts, BlockStops, ss, sts, fuel - 1) && Cur(ts, sts[|ss|]).kind in BlockStops
    ensures ParseBlock(ts, st, fuel) == Parsed(Block(Cur(ts, st), ss), sts[|ss|])
  {
    StatementsInTurn(ts, BlockStops, ss, sts, [], fuel - 1);
    assert [] + ss == ss;
    assert BlockLoop(ts, [], Advance(st), fuel - 1) == Parsed(ss, sts[|ss|]);
  }

  /** A program whose first token is not ILLEGAL and whose statements are
      read in turn up to EOF or ILLEGAL is exactly those statements. */
  lemma ProgramInTurn(ts: Stream, fuel: nat, ss: seq<Stmt>, sts: seq<PState>)
    requires ts[0].kind != Illegal && |sts| > 0 && sts[0] == PState(0, [])
    requires ParsesInTurn(ts, ProgramStops, ss, sts, fuel) && Cur(ts, sts[|ss|]).kind in ProgramStops
    ensures ParseProgram(ts, fuel) == Parsed(Program(ss), sts[|ss|])
  {
    StatementsInTurn(ts, ProgramStops, ss, sts, [], fuel);
    assert [] + ss == ss;
  }

  // ---------------------------------------------------------------------
  // Indexing and the precedence of `[`

  /** With `[` at INDEX precedence, `a[i]` is an index expression ending
      on the `]`. */
  lemma IndexExpression(ts: Stream, st: PState, fuel: nat)
    requires Cur(ts, st).kind == Ident && Peek(ts, st).kind == LBracket
    requires StreamAt(ts, st.pos + 2).kind == Ident && StreamAt(ts, st.pos + 3).kind == RBracket
    requires EndsExpression(StreamAt(ts, st.pos + 4)) && fuel >= 10
    ensures ParseExpression(ts, LOWEST, st, fuel)
         == Parsed(Some(IndexExpr(Peek(ts, st), Atom(Cur(ts, st)), Some(Atom(StreamAt(ts, st.pos + 2))))),
                   st.(pos := st.pos + 3))
  {
    IdentifierExpression(ts, LOWEST, st, fuel);
    AtomIndexStep(ts, LOWEST, Atom(Cur(ts, st)), st, fuel - 1);
  }

  /** `[i]` with a lone identifier as index, after which the expression
      ends. */
  lemma AtomIndexStep(ts: Stream, prec: int, left: Expr, st: PState, fuel: nat)
    requires fuel >= 5 && Peek(ts, st).kind == LBracket && LOWEST <= prec < INDEX
    requires StreamAt(ts, st.pos + 2).kind == Ident && StreamAt(ts, st.pos + 3).kind == RBracket
    requires EndsExpression(StreamAt(ts, st.pos + 4))
    ensures InfixLoop(ts, prec, Some(left), st, fuel)
         == Parsed(Some(IndexExpr(Peek(ts, st), left, Some(Atom(StreamAt(ts, st.pos + 2))))),
                   st.(pos := st.pos + 3))
  {
    var i, st2 := Atom(StreamAt(ts, st.pos + 2)), Advance(Advance(st));
    AtomExpression(ts, LOWEST, st2, fuel - 3);
    IndexStep(ts, prec, left, st, fuel, i, st2);
    LoopEnds(ts, prec, Some(IndexExpr(Peek(ts, st), left, Some(i))), Advance(st2), fuel - 1);
  }

  /** One turn of the infix loop on `[` (at INDEX): the index is parsed at
      LOWEST, then `]` must follow. */
  lemma IndexStep(ts: Stream, prec: int, left: Expr, st: PState, fuel: nat, i: Expr, st': PState)
    requires fuel >= 3 && Peek(ts, st).kind == LBracket && prec < INDEX
    requires ParseExpression(ts, LOWEST, Advance(Advance(st)), fuel - 3) == Parsed(Some(i), st')
    requires Peek(ts, st').kind == RBracket
    ensures InfixLoop(ts, prec, Some(left), st, fuel)
         == InfixLoop(ts, prec, Some(IndexExpr(Peek(ts, st), left, Some(i))), Advance(st'), fuel - 1)
  {
    var e := IndexExpr(Peek(ts, st), left, Some(i));
    assert Cur(ts, Advance(st)) == Peek(ts, st);
    assert ParseIndex(ts, left, Advance(st), fuel - 2) == Parsed(e, Advance(st'));
    assert ParseInfix(ts, left, Advance(st), fuel - 1) == Parsed(e, Advance(st'));
  }

  /** The infix loop's guard as written, with `[` missing from the
      precedence table. */
  predicate LoopContinuesAsWritten(prec: int, next: Kind) {
    next != Semicolon && prec < PrecedenceIn(PrecedencesAsWritten, next)
  }

  /** As written, the infix loop never continues on `[`, at any precedence
      `parseExpression` is called with, so `a[i]` is never an index
      expression; with `[` at INDEX the loop does continue below INDEX. */
  lemma BracketStopsLoopAsWritten(prec: int)
    requires prec >= LOWEST
    ensures !LoopContinuesAsWritten(prec, LBracket)
    ensures prec < INDEX ==> !(prec >= Precedence(LBracket))
  {
    BracketAtLowestAsWritten();
  }

  // ---------------------------------------------------------------------
  // ILLEGAL inside a block

  /** `parseBlockStatement`'s loop as written: it stops only at `}` and
      EOF. */
  function BlockLoopAsWritten(ts: Stream, stmts: seq<Stmt>, st: PState, fuel: nat)
    : (r: Parsed<seq<Stmt>>)
    ensures r.Parsed? ==> Cur(ts, r.st).kind in {RSquirly, Eof}
  {
    StatementLoop(ts, {RSquirly, Eof}, stmts, st, fuel)
  }

  /** The cursor is on the ILLEGAL token that ends the stream, as it is
      after the lexer meets a character it does not know. */
  predicate AtTrailingIllegal(ts: Stream, st: PState) {
    ts[|ts| - 1].kind == Illegal && st.pos >= |ts| - 1
  }

  /** As written, a block that reaches an ILLEGAL token never ends: each
      turn records an error and moves past a token that is again ILLEGAL,
      so every fuel runs out. */
  lemma {:induction false} IllegalBlockNeverEndsAsWritten(ts: Stream, stmts: seq<Stmt>, st: PState, fuel: nat)
    requires AtTrailingIllegal(ts, st)
    ensures BlockLoopAsWritten(ts, stmts, st, fuel) == Halted(OutOfFuel)
    decreases fuel
  {
    if fuel >= 4 {
      var msg := NoPrefixMessage(Illegal);
      assert ParseExpression(ts, LOWEST, st, fuel - 3) == Parsed(None, AddError(st, msg));
      var s := ExprStmt(Cur(ts, st), None);
      assert ParseStatement(ts, st, fuel - 1) == Parsed(Some(s), AddError(st, msg));
      IllegalBlockNeverEndsAsWritten(ts, stmts + [s], Advance(AddError(st, msg)), fuel - 1);
    }
  }

  /** With ILLEGAL among the block's stops, the same block ends at once. */
  lemma IllegalEndsBlock(ts: Stream, stmts: seq<Stmt>, st: PState, fuel: nat)
    requires AtTrailingIllegal(ts, st)
    ensures BlockLoop(ts, stmts, st, fuel) == Parsed(stmts, st)
  {
  }
}
