/** Fuel only bounds the evaluator: an evaluation that finishes with some
    fuel finishes with the same value and state given any more. So the
    fuel-bounded functions of Evaluator agree with the unbounded recursion
    of src/eval/evaluator.ts wherever it terminates within the bound. */
module EvaluatorFuel {
  import opened Wrappers
  import opened Ast
  import opened Object
  import opened Environment
  import opened Evaluator

  lemma {:induction false} EvalMore(e: Expr, env: nat, st: State, fuel: nat, more: nat)
    requires fuel <= more && Eval(e, env, st, fuel).Done?
    ensures Eval(e, env, st, more) == Eval(e, env, st, fuel)
    decreases fuel, 0, 1
  {
    if e.PrefixExpr? || e.InfixExpr? || e.IfExpr? {
      OperatorMore(e, env, st, fuel, more);
    } else if e.CallExpr? || e.IndexExpr? {
      CompoundMore(e, env, st, fuel, more);
    } else if e.ArrayLiteral? || e.HashLiteral? {
      LiteralMore(e, env, st, fuel, more);
    } else {
      LeafMore(e, env, st, fuel, more);
    }
  }

  /** A prefix, infix or `if` expression. */
  lemma {:induction false} OperatorMore(e: Expr, env: nat, st: State, fuel: nat, more: nat)
    requires e.PrefixExpr? || e.InfixExpr? || e.IfExpr?
    requires fuel <= more && Eval(e, env, st, fuel).Done?
    ensures Eval(e, env, st, more) == Eval(e, env, st, fuel)
    decreases fuel, 0, 0
  {
    match e
    case PrefixExpr(_, op, right) =>
      PrefixMore(op, right, env, st, fuel - 1, more - 1);
      assert Eval(e, env, st, fuel) == EvalPrefix(op, right, env, st, fuel - 1);
      assert Eval(e, env, st, more) == EvalPrefix(op, right, env, st, more - 1);
    case InfixExpr(_, left, op, right) =>
      InfixMore(left, op, right, env, st, fuel - 1, more - 1);
      assert Eval(e, env, st, fuel) == EvalInfix(left, op, right, env, st, fuel - 1);
      assert Eval(e, env, st, more) == EvalInfix(left, op, right, env, st, more - 1);
    case IfExpr(_, condition, consequence, alternative) =>
      IfMore(condition, consequence, alternative, env, st, fuel - 1, more - 1);
      assert Eval(e, env, st, fuel) == EvalIf(condition, consequence, alternative, env, st, fuel - 1);
      assert Eval(e, env, st, more) == EvalIf(condition, consequence, alternative, env, st, more - 1);
  }

  /** A call or an index expression. */
  lemma {:induction false} CompoundMore(e: Expr, env: nat, st: State, fuel: nat, more: nat)
    requires e.CallExpr? || e.IndexExpr?
    requires fuel <= more && Eval(e, env, st, fuel).Done?
    ensures Eval(e, env, st, more) == Eval(e, env, st, fuel)
    decreases fuel, 0, 0
  {
    match e
    case CallExpr(_, fn, args) =>
      CallMore(fn, args, env, st, fuel - 1, more - 1);
      assert Eval(e, env, st, fuel) == EvalCall(fn, args, env, st, fuel - 1);
      assert Eval(e, env, st, more) == EvalCall(fn, args, env, st, more - 1);
    case IndexExpr(_, left, index) =>
      IndexMore(left, index, env, st, fuel - 1, more - 1);
      assert Eval(e, env, st, fuel) == EvalIndex(left, index, env, st, fuel - 1);
      assert Eval(e, env, st, more) == EvalIndex(left, index, env, st, more - 1);
  }

  /** An array or hash literal. */
  lemma {:induction false} LiteralMore(e: Expr, env: nat, st: State, fuel: nat, more: nat)
    requires e.ArrayLiteral? || e.HashLiteral?
    requires fuel <= more && Eval(e, env, st, fuel).Done?
    ensures Eval(e, env, st, more) == Eval(e, env, st, fuel)
    decreases fuel, 0, 0
  {
    match e
    case ArrayLiteral(_, elements) =>
      ArrayMore(elements, env, st, fuel - 1, more - 1);
      assert Eval(e, env, st, fuel) == EvalArray(elements, env, st, fuel - 1);
      assert Eval(e, env, st, more) == EvalArray(elements, env, st, more - 1);
    case HashLiteral(_, pairs) =>
      HashMore(pairs, env, st, fuel - 1, more - 1);
      assert Eval(e, env, st, fuel) == EvalHash(pairs, env, st, fuel - 1);
      assert Eval(e, env, st, more) == EvalHash(pairs, env, st, more - 1);
  }

  /** An expression with no subexpression to evaluate. */
  lemma LeafMore(e: Expr, env: nat, st: State, fuel: nat, more: nat)
    requires e.Identifier? || e.IntegerLiteral? || e.StringLiteral? || e.BooleanLiteral? || e.FunctionLiteral?
    requires 0 < fuel <= more
    ensures Eval(e, env, st, more) == Eval(e, env, st, fuel)
  {
  }

  lemma {:induction false} EvalOptMore(e: Option<Expr>, env: nat, st: State, fuel: nat, more: nat)
    requires fuel <= more && EvalOpt(e, env, st, fuel).Done?
    ensures EvalOpt(e, env, st, more) == EvalOpt(e, env, st, fuel)
    decreases fuel, 1, 0
  {
    if e.Some? {
      EvalMore(e.value, env, st, fuel, more);
    }
  }

  lemma {:induction false} StmtMore(s: Stmt, env: nat, st: State, fuel: nat, more: nat)
    requires fuel <= more && EvalStmt(s, env, st, fuel).Done?
    ensures EvalStmt(s, env, st, more) == EvalStmt(s, env, st, fuel)
    decreases fuel, 2, 0
  {
    match s
    case ExprStmt(_, e) => EvalOptMore(e, env, st, fuel, more);
    case ReturnStmt(_, value) => EvalOptMore(value, env, st, fuel, more);
    case LetStmt(_, _, value) => EvalOptMore(value, env, st, fuel, more);
  }

  lemma {:induction false} BlockLoopMore(ss: seq<Stmt>, result: Option<Value>, env: nat, st: State,
                                         fuel: nat, more: nat)
    requires fuel <= more && BlockLoop(ss, result, env, st, fuel).Done?
    ensures BlockLoop(ss, result, env, st, more) == BlockLoop(ss, result, env, st, fuel)
    decreases fuel, 3, |ss|
  {
    if |ss| > 0 {
      StmtMore(ss[0], env, st, fuel, more);
      var v := EvalStmt(ss[0], env, st, fuel);
      if !Stops(v.value) {
        BlockLoopMore(ss[1..], v.value, env, v.st, fuel, more);
      }
    }
  }

  lemma {:induction false} BlockMore(b: Block, env: nat, st: State, fuel: nat, more: nat)
    requires fuel <= more && EvalBlock(b, env, st, fuel).Done?
    ensures EvalBlock(b, env, st, more) == EvalBlock(b, env, st, fuel)
    decreases fuel, 3, |b.statements| + 1
  {
    BlockLoopMore(b.statements, None, env, st, fuel, more);
  }

  lemma {:induction false} ExprsMore(es: seq<Expr>, acc: seq<Value>, env: nat, st: State, fuel: nat, more: nat)
    requires forall i :: 0 <= i < |acc| ==> !acc[i].Error?
    requires fuel <= more && EvalExprs(es, acc, env, st, fuel).Done?
    ensures EvalExprs(es, acc, env, st, more) == EvalExprs(es, acc, env, st, fuel)
    decreases fuel, 3, |es|
  {
    if |es| > 0 {
      EvalMore(es[0], env, st, fuel, more);
      var v := Eval(es[0], env, st, fuel);
      if !IsError(v.value) {
        ExprsMore(es[1..], if v.value.Some? then acc + [v.value.value] else acc, env, v.st, fuel, more);
      }
    }
  }

  lemma {:induction false} PairsMore(pairs: seq<Pair>, acc: seq<HashPair>, env: nat, st: State,
                                     fuel: nat, more: nat)
    requires Keyed(acc)
    requires fuel <= more && EvalPairs(pairs, acc, env, st, fuel).Done?
    ensures EvalPairs(pairs, acc, env, st, more) == EvalPairs(pairs, acc, env, st, fuel)
    decreases fuel, 3, |pairs|
  {
    if |pairs| > 0 {
      EvalMore(pairs[0].key, env, st, fuel, more);
      var k := Eval(pairs[0].key, env, st, fuel);
      if !IsError(k.value) && k.value.Some? && HashKeyOf(k.value.value).Some? {
        EvalMore(pairs[0].value, env, k.st, fuel, more);
        var v := Eval(pairs[0].value, env, k.st, fuel);
        if !IsError(v.value) {
          var acc' := if v.value.Some? then acc + [HashPair(k.value.value, v.value.value)] else acc;
          PairsMore(pairs[1..], acc', env, v.st, fuel, more);
        }
      }
    }
  }

  lemma {:induction false} ApplyMore(fn: Value, args: seq<Value>, st: State, fuel: nat, more: nat)
    requires fuel <= more && ApplyFunction(fn, args, st, fuel).Done?
    ensures ApplyFunction(fn, args, st, more) == ApplyFunction(fn, args, st, fuel)
    decreases fuel, 4, 0
  {
    if fn.Function? {
      var (fs, id) := NewEnclosed(st.frames, fn.env);
      var bound := BindParams(fs, id, fn.params, args);
      BlockMore(fn.body, id, State(bound, st.next), fuel, more);
    }
  }

  lemma {:induction false} PrefixMore(op: string, right: Option<Expr>, env: nat, st: State, fuel: nat, more: nat)
    requires fuel <= more && EvalPrefix(op, right, env, st, fuel).Done?
    ensures EvalPrefix(op, right, env, st, more) == EvalPrefix(op, right, env, st, fuel)
    decreases fuel, 5, 0
  {
    EvalOptMore(right, env, st, fuel, more);
  }

  lemma {:induction false} InfixMore(left: Expr, op: string, right: Option<Expr>, env: nat, st: State,
                                     fuel: nat, more: nat)
    requires fuel <= more && EvalInfix(left, op, right, env, st, fuel).Done?
    ensures EvalInfix(left, op, right, env, st, more) == EvalInfix(left, op, right, env, st, fuel)
    decreases fuel, 5, 0
  {
    EvalMore(left, env, st, fuel, more);
    var l := Eval(left, env, st, fuel);
    assert l.Done? && Eval(left, env, st, more) == l;
    EvalOptMore(right, env, l.st, fuel, more);
    assert EvalOpt(right, env, l.st, more) == EvalOpt(right, env, l.st, fuel);
  }

  lemma {:induction false} IfMore(condition: Option<Expr>, consequence: Block, alternative: Option<Block>,
                                  env: nat, st: State, fuel: nat, more: nat)
    requires fuel <= more && EvalIf(condition, consequence, alternative, env, st, fuel).Done?
    ensures EvalIf(condition, consequence, alternative, env, st, more)
         == EvalIf(condition, consequence, alternative, env, st, fuel)
    decreases fuel, 5, 0
  {
    EvalOptMore(condition, env, st, fuel, more);
    var c := EvalOpt(condition, env, st, fuel);
    if !IsError(c.value) {
      if c.value.Some? && IsTruthy(c.value.value) {
        BlockMore(consequence, env, c.st, fuel, more);
      } else if alternative.Some? {
        BlockMore(alternative.value, env, c.st, fuel, more);
      }
    }
  }

  lemma {:induction false} CallMore(fn: Expr, args: seq<Expr>, env: nat, st: State, fuel: nat, more: nat)
    requires fuel <= more && EvalCall(fn, args, env, st, fuel).Done?
    ensures EvalCall(fn, args, env, st, more) == EvalCall(fn, args, env, st, fuel)
    decreases fuel, 5, 0
  {
    EvalMore(fn, env, st, fuel, more);
    var f := Eval(fn, env, st, fuel);
    if !IsError(f.value) {
      ExprsMore(args, [], env, f.st, fuel, more);
      var a := EvalExprs(args, [], env, f.st, fuel);
      if !(|a.value| == 1 && a.value[0].Error?) && f.value.Some? {
        ApplyMore(f.value.value, a.value, a.st, fuel, more);
      }
    }
  }

  lemma {:induction false} ArrayMore(elements: seq<Expr>, env: nat, st: State, fuel: nat, more: nat)
    requires fuel <= more && EvalArray(elements, env, st, fuel).Done?
    ensures EvalArray(elements, env, st, more) == EvalArray(elements, env, st, fuel)
    decreases fuel, 5, 0
  {
    ExprsMore(elements, [], env, st, fuel, more);
  }

  lemma {:induction false} IndexMore(left: Expr, index: Option<Expr>, env: nat, st: State, fuel: nat, more: nat)
    requires fuel <= more && EvalIndex(left, index, env, st, fuel).Done?
    ensures EvalIndex(left, index, env, st, more) == EvalIndex(left, index, env, st, fuel)
    decreases fuel, 5, 0
  {
    EvalMore(left, env, st, fuel, more);
    var l := Eval(left, env, st, fuel);
    if !IsError(l.value) {
      EvalOptMore(index, env, l.st, fuel, more);
    }
  }

  lemma {:induction false} HashMore(pairs: seq<Pair>, env: nat, st: State, fuel: nat, more: nat)
    requires fuel <= more && EvalHash(pairs, env, st, fuel).Done?
    ensures EvalHash(pairs, env, st, more) == EvalHash(pairs, env, st, fuel)
    decreases fuel, 5, 0
  {
    PairsMore(pairs, [], env, st, fuel, more);
  }

  /** A program that finishes with some fuel finishes the same with more. */
  lemma {:induction false} InterpretMore(p: Program, fuel: nat, more: nat)
    requires fuel <= more && Interpret(p, fuel).Done?
    ensures Interpret(p, more) == Interpret(p, fuel)
  {
    var (fs, id) := CreateNew([]);
    ProgramIsBlock(p.statements, id, State(fs, 0), fuel, more);
  }

  lemma {:induction false} ProgramIsBlock(ss: seq<Stmt>, env: nat, st: State, fuel: nat, more: nat)
    requires fuel <= more && ProgramLoop(ss, None, env, st, fuel).Done?
    ensures ProgramLoop(ss, None, env, st, more) == ProgramLoop(ss, None, env, st, fuel)
  {
    ProgramLoopMore(ss, None, env, st, fuel, more);
  }

  lemma {:induction false} ProgramLoopMore(ss: seq<Stmt>, result: Option<Value>, env: nat, st: State,
                                           fuel: nat, more: nat)
    requires fuel <= more && ProgramLoop(ss, result, env, st, fuel).Done?
    ensures ProgramLoop(ss, result, env, st, more) == ProgramLoop(ss, result, env, st, fuel)
    decreases |ss|
  {
    if |ss| > 0 {
      StmtMore(ss[0], env, st, fuel, more);
      var v := EvalStmt(ss[0], env, st, fuel);
      if !(v.value.Some? && v.value.value.ReturnValue?) && !IsError(v.value) {
        ProgramLoopMore(ss[1..], v.value, env, v.st, fuel, more);
      }
    }
  }
}
