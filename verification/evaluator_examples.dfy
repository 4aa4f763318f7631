/** Programs from the evaluator's tests (src/eval/__test__/eval.test.ts),
    built as syntax trees and evaluated step by step with symbolic fuel. */
module EvaluatorExamples {
  import opened Wrappers
  import T = Token
  import opened Ast
  import opened Object
  import opened Environment
  import opened Evaluator

  const Tok := T.Token(T.Int, "n")

  function Num(n: int): Expr { IntegerLiteral(Tok, n) }
  function Gt(a: Expr, b: Expr): Expr { InfixExpr(T.Token(T.GreaterThan, ">"), a, ">", Some(b)) }
  function Ret(e: Expr): Stmt { ReturnStmt(T.Token(T.Return, "return"), Some(e)) }
  function If1(c: Expr, ss: seq<Stmt>): Expr { IfExpr(T.Token(T.If, "if"), Some(c), Block(T.Token(T.LSquirly, "{"), ss), None) }
  function Ex(e: Expr): Stmt { ExprStmt(Tok, Some(e)) }
  function Plus(a: Expr, b: Expr): Expr { InfixExpr(T.Token(T.Plus, "+"), a, "+", Some(b)) }
  function Bool(b: bool): Expr { BooleanLiteral(T.Token(T.True, "true"), b) }

  /** `10 > 1` is TRUE. */
  lemma Compare(env: nat, st: State, fuel: nat)
    requires fuel >= 2
    ensures Eval(Gt(Num(10), Num(1)), env, st, fuel) == Done(Some(TRUE), st)
  {
    assert Eval(Num(10), env, st, fuel - 1) == Done(Some(Integer(10)), st);
    assert Eval(Num(1), env, st, fuel - 1) == Done(Some(Integer(1)), st);
    assert EvalOpt(Some(Num(1)), env, st, fuel - 1) == Done(Some(Integer(1)), st);
    assert InfixOp(">", Integer(10), Integer(1)) == Some(TRUE);
  }

  /** `{ return 10; }` stops at a new return value. */
  lemma InnerBlock(env: nat, st: State, fuel: nat)
    requires fuel >= 2
    ensures BlockLoop([Ret(Num(10))], None, env, st, fuel) == Done(Some(ReturnValue(st.next, Integer(10))), st.(next := st.next + 1))
  {
    assert Eval(Num(10), env, st, fuel) == Done(Some(Integer(10)), st);
    assert EvalOpt(Some(Num(10)), env, st, fuel) == Done(Some(Integer(10)), st);
    assert EvalStmt(Ret(Num(10)), env, st, fuel) == Done(Some(ReturnValue(st.next, Integer(10))), st.(next := st.next + 1));
  }

  /** `if (10 > 1) { return 10; }` passes the return value on, still
      wrapped. */
  lemma InnerIf(env: nat, st: State, fuel: nat)
    requires fuel >= 4
    ensures Eval(If1(Gt(Num(10), Num(1)), [Ret(Num(10))]), env, st, fuel) == Done(Some(ReturnValue(st.next, Integer(10))), st.(next := st.next + 1))
  {
    Compare(env, st, fuel - 1);
    assert EvalOpt(Some(Gt(Num(10), Num(1))), env, st, fuel - 1) == Done(Some(TRUE), st);
    InnerBlock(env, st, fuel - 1);
    var b := Block(T.Token(T.LSquirly, "{"), [Ret(Num(10))]);
    assert EvalBlock(b, env, st, fuel - 1) == Done(Some(ReturnValue(st.next, Integer(10))), st.(next := st.next + 1));
    assert EvalIf(Some(Gt(Num(10), Num(1))), b, None, env, st, fuel - 1) == Done(Some(ReturnValue(st.next, Integer(10))), st.(next := st.next + 1));
  }

  /** `if (10 > 1) { if (10 > 1) { return 10; } return 1; }` is 10: the
      inner `return` escapes both blocks and is unwrapped once, by the
      program. */
  lemma NestedReturn(fuel: nat)
    requires fuel >= 6
    ensures var r := Interpret(Program([Ex(If1(Gt(Num(10), Num(1)), [Ex(If1(Gt(Num(10), Num(1)), [Ret(Num(10))])), Ret(Num(1))]))]), fuel);
      r.Done? && r.value == Some(Integer(10))
  {
    var st := State([Frame(map[], None)], 0);
    var inner := Ex(If1(Gt(Num(10), Num(1)), [Ret(Num(10))]));
    InnerIf(0, st, fuel - 1);
    assert EvalStmt(inner, 0, st, fuel - 1) == Done(Some(ReturnValue(0, Integer(10))), st.(next := 1));
    assert BlockLoop([inner, Ret(Num(1))], None, 0, st, fuel - 1) == Done(Some(ReturnValue(0, Integer(10))), st.(next := 1));
    Compare(0, st, fuel - 1);
    var outer := Ex(If1(Gt(Num(10), Num(1)), [inner, Ret(Num(1))]));
    var b := Block(T.Token(T.LSquirly, "{"), [inner, Ret(Num(1))]);
    assert EvalOpt(Some(Gt(Num(10), Num(1))), 0, st, fuel - 1) == Done(Some(TRUE), st);
    assert EvalBlock(b, 0, st, fuel - 1) == Done(Some(ReturnValue(0, Integer(10))), st.(next := 1));
    assert EvalIf(Some(Gt(Num(10), Num(1))), b, None, 0, st, fuel - 1) == Done(Some(ReturnValue(0, Integer(10))), st.(next := 1));
    assert Eval(outer.expression.value, 0, st, fuel) == Done(Some(ReturnValue(0, Integer(10))), st.(next := 1));
    assert EvalStmt(outer, 0, st, fuel) == Done(Some(ReturnValue(0, Integer(10))), st.(next := 1));
    assert ProgramLoop([outer], None, 0, st, fuel) == Done(Some(Integer(10)), st.(next := 1));
  }

  /** `5 + true; 5;` is `type mismatch: INTEGER + BOOLEAN`: the error ends
      the program. */
  lemma ErrorEndsProgram(fuel: nat)
    requires fuel >= 2
    ensures var r := Interpret(Program([Ex(Plus(Num(5), Bool(true))), Ex(Num(5))]), fuel);
      r.Done? && r.value == Some(Error("type mismatch: INTEGER + BOOLEAN"))
  {
    var st := State([Frame(map[], None)], 0);
    var e := Plus(Num(5), Bool(true));
    assert Eval(Num(5), 0, st, fuel - 1) == Done(Some(Integer(5)), st);
    assert Eval(Bool(true), 0, st, fuel - 1) == Done(Some(TRUE), st);
    assert EvalOpt(Some(Bool(true)), 0, st, fuel - 1) == Done(Some(TRUE), st);
    assert TypeTag(Integer(5)) == "INTEGER" && TypeTag(TRUE) == "BOOLEAN";
    assert "type mismatch: " + "INTEGER" + " " + "+" + " " + "BOOLEAN" == "type mismatch: INTEGER + BOOLEAN";
    assert InfixOp("+", Integer(5), TRUE) == Some(Error("type mismatch: INTEGER + BOOLEAN"));
    assert Eval(e, 0, st, fuel) == Done(Some(Error("type mismatch: INTEGER + BOOLEAN")), st);
    assert EvalStmt(Ex(e), 0, st, fuel) == Done(Some(Error("type mismatch: INTEGER + BOOLEAN")), st);
  }
}
