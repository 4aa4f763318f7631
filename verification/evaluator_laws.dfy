/** Properties of the evaluator (src/eval/evaluator.ts): the operators'
    algebra, how blocks and programs run their statements, how `let`
    and calls bind names, and what hash literals file. */
module EvaluatorLaws {
  import opened Wrappers
  import opened Ast
  import opened Object
  import opened Environment
  import Builtins
  import Token
  import opened Evaluator

  // ---------------------------------------------------------------------
  // Operators

  /** `!!x` is the truthiness of `x` as a boolean singleton. */
  lemma DoubleBang(v: Value)
    ensures Bang(Bang(v)) == NativeBool(IsTruthy(v))
  {
  }

  /** Unary minus undoes itself on integers. */
  lemma MinusInvolution(n: int)
    ensures Minus(Minus(Integer(n))) == Integer(n)
  {
  }

  /** An infix operation gives an error exactly when the operand classes
      and the operator are not a supported combination; it has no value
      exactly when it is an integer division whose quotient is not an
      integer. */
  lemma InfixErrorsExactlyWhenUnsupported(op: string, l: Value, r: Value)
    ensures InfixOp(op, l, r).None? <==>
              op == "/" && l.Integer? && r.Integer? && (r.intValue == 0 || l.intValue % r.intValue != 0)
    ensures InfixOp(op, l, r).Some? ==> (InfixOp(op, l, r).value.Error? <==> !Supported(op, l, r))
  {
    TagsDecideVariant(l, r);
  }

  /** `!=` answers the opposite of `==` on every pair of operands, and
      fails exactly when `==` does. */
  lemma NotEqualNegatesEqual(l: Value, r: Value)
    ensures InfixOp("==", l, r).Some? && InfixOp("!=", l, r).Some?
    ensures InfixOp("==", l, r).value.Error? <==> InfixOp("!=", l, r).value.Error?
    ensures InfixOp("==", l, r).value.Boolean? ==>
              InfixOp("!=", l, r) == Some(NativeBool(!InfixOp("==", l, r).value.boolValue))
  {
  }

  /** `==` is symmetric on operands of one class. */
  lemma EqualsSymmetric(l: Value, r: Value)
    requires SameVariant(l, r)
    ensures InfixOp("==", l, r) == InfixOp("==", r, l)
  {
    TagsDecideVariant(l, r);
  }

  /** Every value but a string equals itself; strings have no `==` at
      all. */
  lemma EqualsReflexive(v: Value)
    ensures !v.Str? ==> InfixOp("==", v, v) == Some(TRUE)
    ensures v.Str? ==> InfixOp("==", v, v).value.Error?
  {
  }

  /** Only NULL and FALSE are falsy; integer 0, the empty string and
      every object are truthy. */
  lemma OnlyNullAndFalseAreFalsy(v: Value)
    ensures !IsTruthy(v) <==> v == Null || v == Boolean(false)
    ensures IsTruthy(Integer(0)) && IsTruthy(Str(""))
  {
  }

  /** `a < b` is `b > a`. */
  lemma LessIsConverseOfGreater(a: int, b: int)
    ensures InfixOp("<", Integer(a), Integer(b)) == InfixOp(">", Integer(b), Integer(a))
    ensures InfixOp("<", Integer(a), Integer(b)) == Some(NativeBool(a < b))
  {
  }

  /** The builtins `first` and `last` agree with indexing. */
  lemma FirstLastAreIndexing(a: Value)
    requires a.Array?
    ensures Builtins.First([a]) == IndexOp(a, Integer(0))
    ensures Builtins.Last([a]) == IndexOp(a, Integer(|a.elements| - 1))
  {
  }

  // ---------------------------------------------------------------------
  // Hash literals

  /** A key is filed exactly when some pair has it, and it holds the last
      such pair. */
  lemma {:induction false} FilePairsLastWins(ps: seq<HashPair>, k: HashKey)
    requires Keyed(ps)
    ensures k in FilePairs(ps) <==> exists i :: 0 <= i < |ps| && HashKeyOf(ps[i].key) == Some(k)
    ensures k in FilePairs(ps) ==>
              exists i :: 0 <= i < |ps| && HashKeyOf(ps[i].key) == Some(k) && FilePairs(ps)[k] == ps[i]
                && forall j :: i < j < |ps| ==> HashKeyOf(ps[j].key) != Some(k)
    decreases |ps|
  {
    if |ps| > 0 {
      var n := |ps| - 1;
      var init := ps[..n];
      assert Keyed(init);
      FilePairsLastWins(init, k);
      assert forall i :: 0 <= i < n ==> init[i] == ps[i];
      var kn := HashKeyOf(ps[n].key).value;
      assert FilePairs(ps) == FilePairs(init)[kn := ps[n]];
      if kn == k {
        assert HashKeyOf(ps[n].key) == Some(k) && FilePairs(ps)[k] == ps[n];
      } else {
        assert k in FilePairs(ps) <==> k in FilePairs(init);
        if exists i :: 0 <= i < |ps| && HashKeyOf(ps[i].key) == Some(k) {
          var i :| 0 <= i < |ps| && HashKeyOf(ps[i].key) == Some(k);
          assert i < n && HashKeyOf(init[i].key) == Some(k);
        }
        if k in FilePairs(ps) {
          var i :| 0 <= i < n && HashKeyOf(init[i].key) == Some(k) && FilePairs(init)[k] == init[i]
                   && forall j :: i < j < n ==> HashKeyOf(init[j].key) != Some(k);
          assert HashKeyOf(ps[i].key) == Some(k) && FilePairs(ps)[k] == ps[i];
        }
      }
    }
  }

  /** Indexing a hash with a key the literal filed gives the value of the
      last pair with that key. */
  lemma HashIndexLastWins(id: nat, ps: seq<HashPair>, index: Value, i: nat)
    requires Keyed(ps) && i < |ps| && HashKeyOf(ps[i].key) == HashKeyOf(index)
    requires forall j :: i < j < |ps| ==> HashKeyOf(ps[j].key) != HashKeyOf(index)
    ensures IndexOp(Hash(id, FilePairs(ps)), index) == ps[i].value
  {
    var k := HashKeyOf(index).value;
    FilePairsLastWins(ps, k);
    var i' :| 0 <= i' < |ps| && HashKeyOf(ps[i'].key) == Some(k) && FilePairs(ps)[k] == ps[i']
              && forall j :: i' < j < |ps| ==> HashKeyOf(ps[j].key) != Some(k);
    assert i' == i;
  }

  /** One step of `evaluateExpressions`: a present value that is not an
      error is appended, and the rest is evaluated from where it left
      off. */
  lemma ExprsStep(es: seq<Expr>, acc: seq<Value>, env: nat, st: State, fuel: nat, v: Value, st': State)
    requires |es| > 0 && forall i :: 0 <= i < |acc| ==> !acc[i].Error?
    requires Eval(es[0], env, st, fuel) == Done(Some(v), st') && !v.Error?
    ensures EvalExprs(es, acc, env, st, fuel) == EvalExprs(es[1..], acc + [v], env, st', fuel)
  {
  }

  /** An error among the expressions is the whole result, and the
      expressions after it are not evaluated. */
  lemma ExprsErrorStops(es: seq<Expr>, acc: seq<Value>, env: nat, st: State, fuel: nat, v: Value, st': State)
    requires |es| > 0 && forall i :: 0 <= i < |acc| ==> !acc[i].Error?
    requires Eval(es[0], env, st, fuel) == Done(Some(v), st') && v.Error?
    ensures EvalExprs(es, acc, env, st, fuel) == Done([v], st')
  {
  }

  /** Integer literals with the given values. */
  function IntegerLiterals(t: Token.Token, ns: seq<int>): (es: seq<Expr>)
    ensures |es| == |ns|
  {
    if |ns| == 0 then [] else [IntegerLiteral(t, ns[0])] + IntegerLiterals(t, ns[1..])
  }

  /** The integers with the given values. */
  function Integers(ns: seq<int>): (vs: seq<Value>)
    ensures |vs| == |ns|
  {
    if |ns| == 0 then [] else [Integer(ns[0])] + Integers(ns[1..])
  }

  /** Integer literals evaluate to their integers, in order, and allocate
      nothing. */
  lemma {:induction false} IntegerLiteralsEvaluate(t: Token.Token, ns: seq<int>, acc: seq<Value>,
                                                   env: nat, st: State, fuel: nat)
    requires fuel >= 1 && forall i :: 0 <= i < |acc| ==> !acc[i].Error?
    ensures EvalExprs(IntegerLiterals(t, ns), acc, env, st, fuel) == Done(acc + Integers(ns), st)
    decreases |ns|
  {
    if |ns| == 0 {
      assert acc + Integers(ns) == acc;
    } else {
      var acc' := acc + [Integer(ns[0])];
      IntegerLiteralsStep(t, ns, acc, env, st, fuel);
      IntegerLiteralsEvaluate(t, ns[1..], acc', env, st, fuel);
      IntegersAppend(acc, ns);
    }
  }

  /** The first integer literal is evaluated and appended. */
  lemma IntegerLiteralsStep(t: Token.Token, ns: seq<int>, acc: seq<Value>, env: nat, st: State, fuel: nat)
    requires fuel >= 1 && |ns| > 0 && forall i :: 0 <= i < |acc| ==> !acc[i].Error?
    ensures forall i :: 0 <= i < |acc + [Integer(ns[0])]| ==> !(acc + [Integer(ns[0])])[i].Error?
    ensures EvalExprs(IntegerLiterals(t, ns), acc, env, st, fuel)
         == EvalExprs(IntegerLiterals(t, ns[1..]), acc + [Integer(ns[0])], env, st, fuel)
  {
    var es := IntegerLiterals(t, ns);
    assert es[0] == IntegerLiteral(t, ns[0]) && es[1..] == IntegerLiterals(t, ns[1..]);
    IntegerLiteralEvaluates(t, ns[0], env, st, fuel);
    ExprsStep(es, acc, env, st, fuel, Integer(ns[0]), st);
  }

  lemma IntegersAppend(acc: seq<Value>, ns: seq<int>)
    requires |ns| > 0
    ensures acc + [Integer(ns[0])] + Integers(ns[1..]) == acc + Integers(ns)
  {
    assert Integers(ns) == [Integer(ns[0])] + Integers(ns[1..]);
    AppendAssociative(acc, [Integer(ns[0])], Integers(ns[1..]));
  }

  lemma IntegerLiteralEvaluates(t: Token.Token, n: int, env: nat, st: State, fuel: nat)
    requires fuel >= 1
    ensures Eval(IntegerLiteral(t, n), env, st, fuel) == Done(Some(Integer(n)), st)
  {
  }

  /** An array literal of integer literals is a new array of their values,
      with the next allocation number. */
  lemma IntegerArray(t: Token.Token, ns: seq<int>, env: nat, st: State, fuel: nat)
    requires fuel >= 1
    ensures EvalArray(IntegerLiterals(t, ns), env, st, fuel)
         == Done(Some(Array(st.next, Integers(ns))), st.(next := st.next + 1))
  {
    IntegerLiteralsEvaluate(t, ns, [], env, st, fuel);
    assert [] + Integers(ns) == Integers(ns);
    assert |ns| > 0 ==> Integers(ns)[0] == Integer(ns[0]);
  }

  /** Expression `i` of `es` evaluates, from state `sts[i]`, to the value
      `vs[i]`, which is not an error, and leaves state `sts[i + 1]`: the
      list evaluates one expression after another without failing. */
  predicate EvaluatesInTurn(es: seq<Expr>, vs: seq<Value>, sts: seq<State>, env: nat, fuel: nat) {
    && |vs| == |es| && |sts| == |es| + 1
    && forall i :: 0 <= i < |es| ==>
         Eval(es[i], env, sts[i], fuel) == Done(Some(vs[i]), sts[i + 1]) && !vs[i].Error?
  }

  /** A list whose expressions evaluate in turn without an error gives
      their values, in order, after the values gathered before. */
  lemma {:induction false} ExprsEvaluateInTurn(es: seq<Expr>, vs: seq<Value>, sts: seq<State>,
                                               acc: seq<Value>, env: nat, fuel: nat)
    requires EvaluatesInTurn(es, vs, sts, env, fuel)
    requires forall i :: 0 <= i < |acc| ==> !acc[i].Error?
    ensures EvalExprs(es, acc, env, sts[0], fuel) == Done(acc + vs, sts[|es|])
    decreases |es|
  {
    if |es| == 0 {
      assert acc + vs == acc;
    } else {
      var acc' := acc + [vs[0]];
      assert forall i :: 0 <= i < |acc'| ==> !acc'[i].Error? by {
        forall i | 0 <= i < |acc'|
          ensures !acc'[i].Error?
        {
          if i < |acc| { assert acc'[i] == acc[i]; }
        }
      }
      ExprsStep(es, acc, env, sts[0], fuel, vs[0], sts[1]);
      assert EvaluatesInTurn(es[1..], vs[1..], sts[1..], env, fuel) by {
        forall i | 0 <= i < |es| - 1
          ensures Eval(es[1..][i], env, sts[1..][i], fuel) == Done(Some(vs[1..][i]), sts[1..][i + 1])
        {
          assert es[1..][i] == es[i + 1] && sts[1..][i] == sts[i + 1] && sts[1..][i + 1] == sts[i + 2];
        }
      }
      ExprsEvaluateInTurn(es[1..], vs[1..], sts[1..], acc', env, fuel);
      assert sts[1..][|es| - 1] == sts[|es|];
      assert [vs[0]] + vs[1..] == vs;
      AppendAssociative(acc, [vs[0]], vs[1..]);
    }
  }

  /** An array literal whose elements evaluate in turn without an error is
      a fresh array of their values, in order. */
  lemma ArrayInTurn(es: seq<Expr>, vs: seq<Value>, sts: seq<State>, env: nat, fuel: nat)
    requires EvaluatesInTurn(es, vs, sts, env, fuel)
    ensures EvalArray(es, env, sts[0], fuel)
         == Done(Some(Array(sts[|es|].next, vs)), sts[|es|].(next := sts[|es|].next + 1))
  {
    ExprsEvaluateInTurn(es, vs, sts, [], env, fuel);
    assert [] + vs == vs;
    assert |vs| > 0 ==> !vs[0].Error?;
  }

  /** One step of the pair loop: a key that can be a key and a present
      value that is not an error are filed, and the rest is evaluated from
      where they left off. */
  lemma PairsStep(pairs: seq<Pair>, acc: seq<HashPair>, env: nat, st: State, fuel: nat,
                  k: Value, sk: State, v: Value, sv: State)
    requires |pairs| > 0 && Keyed(acc)
    requires Eval(pairs[0].key, env, st, fuel) == Done(Some(k), sk) && !k.Error? && HashKeyOf(k).Some?
    requires Eval(pairs[0].value, env, sk, fuel) == Done(Some(v), sv) && !v.Error?
    ensures EvalPairs(pairs, acc, env, st, fuel) == EvalPairs(pairs[1..], acc + [HashPair(k, v)], env, sv, fuel)
  {
  }

  /** A hash literal whose first key evaluates to a value that cannot be a
      key is that error, with the source's spelling. */
  lemma UnhashableLiteralKey(pairs: seq<Pair>, env: nat, st: State, fuel: nat)
    requires |pairs| > 0
    requires var k := Eval(pairs[0].key, env, st, fuel);
      k.Done? && k.value.Some? && !k.value.value.Error? && HashKeyOf(k.value.value).None?
    ensures var k := Eval(pairs[0].key, env, st, fuel);
      EvalHash(pairs, env, st, fuel)
        == Done(Some(Error("unusuable as hash key: " + TypeTag(k.value.value) + ".")), k.st)
  {
  }

  // ---------------------------------------------------------------------
  // One construct at a time, from the results of its parts

  /** A prefix expression applies its operator to the operand's value. */
  lemma PrefixStep(op: string, right: Expr, env: nat, st: State, fuel: nat, v: Value, st': State)
    requires Eval(right, env, st, fuel) == Done(Some(v), st') && !v.Error?
    ensures EvalPrefix(op, Some(right), env, st, fuel) == Done(Some(PrefixOp(op, v)), st')
  {
  }

  /** An infix expression applies its operator to the two operands'
      values, the left one evaluated first. */
  lemma InfixStep(left: Expr, op: string, right: Expr, env: nat, st: State, fuel: nat,
                  l: Value, sl: State, r: Value, sr: State)
    requires Eval(left, env, st, fuel) == Done(Some(l), sl) && !l.Error?
    requires Eval(right, env, sl, fuel) == Done(Some(r), sr) && !r.Error?
    requires InfixOp(op, l, r).Some?
    ensures EvalInfix(left, op, Some(right), env, st, fuel) == Done(InfixOp(op, l, r), sr)
  {
  }

  /** A truthy condition runs the consequence; a falsy one runs the
      alternative when there is one. */
  lemma IfStep(condition: Expr, consequence: Block, alternative: Option<Block>, env: nat, st: State,
               fuel: nat, c: Value, sc: State)
    requires Eval(condition, env, st, fuel) == Done(Some(c), sc) && !c.Error?
    ensures IsTruthy(c) ==>
              EvalIf(Some(condition), consequence, alternative, env, st, fuel) == EvalBlock(consequence, env, sc, fuel)
    ensures !IsTruthy(c) && alternative.Some? ==>
              EvalIf(Some(condition), consequence, alternative, env, st, fuel)
                == EvalBlock(alternative.value, env, sc, fuel)
  {
  }

  /** A call applies the callee's value to the arguments' values, the
      callee evaluated first. */
  lemma CallStep(fn: Expr, args: seq<Expr>, env: nat, st: State, fuel: nat,
                 f: Value, sf: State, vs: seq<Value>, sa: State)
    requires Eval(fn, env, st, fuel) == Done(Some(f), sf) && !f.Error?
    requires EvalExprs(args, [], env, sf, fuel) == Done(vs, sa)
    requires forall i :: 0 <= i < |vs| ==> !vs[i].Error?
    ensures EvalCall(fn, args, env, st, fuel) == ApplyFunction(f, vs, sa, fuel)
  {
  }

  /** An index expression indexes the left value by the index value, the
      left one evaluated first. */
  lemma IndexStep(left: Expr, index: Expr, env: nat, st: State, fuel: nat,
                  l: Value, sl: State, i: Value, si: State)
    requires Eval(left, env, st, fuel) == Done(Some(l), sl) && !l.Error?
    requires Eval(index, env, sl, fuel) == Done(Some(i), si) && !i.Error?
    ensures EvalIndex(left, Some(index), env, st, fuel) == Done(Some(IndexOp(l, i)), si)
  {
  }

  /** A hash literal whose pairs are all filed is a fresh hash of them. */
  lemma HashStep(pairs: seq<Pair>, env: nat, st: State, fuel: nat, ps: seq<HashPair>, sp: State)
    requires EvalPairs(pairs, [], env, st, fuel) == Done(Filed(ps), sp)
    ensures EvalHash(pairs, env, st, fuel) == Done(Some(Hash(sp.next, FilePairs(ps))), sp.(next := sp.next + 1))
  {
  }

  /** An expression statement is its expression; a `return` wraps its
      value in a fresh return value. */
  lemma StatementStep(t: Token.Token, e: Expr, env: nat, st: State, fuel: nat, v: Value, sv: State)
    requires Eval(e, env, st, fuel) == Done(Some(v), sv) && !v.Error?
    ensures EvalStmt(ExprStmt(t, Some(e)), env, st, fuel) == Done(Some(v), sv)
    ensures EvalStmt(ReturnStmt(t, Some(e)), env, st, fuel)
         == Done(Some(ReturnValue(sv.next, v)), sv.(next := sv.next + 1))
  {
  }

  /** A block runs its first statement; a return value or an error ends
      it there, and otherwise the rest runs from where it left off. */
  lemma BlockStep(ss: seq<Stmt>, result: Option<Value>, env: nat, st: State, fuel: nat,
                  v: Option<Value>, sv: State)
    requires |ss| > 0 && EvalStmt(ss[0], env, st, fuel) == Done(v, sv)
    ensures Stops(v) ==> BlockLoop(ss, result, env, st, fuel) == Done(v, sv)
    ensures !Stops(v) ==> BlockLoop(ss, result, env, st, fuel) == BlockLoop(ss[1..], v, env, sv, fuel)
  {
  }

  // ---------------------------------------------------------------------
  // Infix and conditional expressions

  /** Both operands are evaluated, and an error on the left wins over one
      on the right. */
  lemma InfixLeftErrorWins(left: Expr, op: string, right: Option<Expr>, env: nat, st: State, fuel: nat)
    requires var l := Eval(left, env, st, fuel); l.Done? && IsError(l.value)
    requires var l := Eval(left, env, st, fuel); EvalOpt(right, env, l.st, fuel).Done?
    ensures var l := Eval(left, env, st, fuel);
      var r := EvalOpt(right, env, l.st, fuel);
      EvalInfix(left, op, right, env, st, fuel) == Done(l.value, r.st)
  {
  }

  /** An `if` whose condition is falsy and which has no `else` has no
      value, and evaluates neither block. */
  lemma IfWithoutElseHasNoValue(condition: Option<Expr>, consequence: Block, env: nat, st: State, fuel: nat)
    requires var c := EvalOpt(condition, env, st, fuel);
      c.Done? && (c.value.None? || (!c.value.value.Error? && !IsTruthy(c.value.value)))
    ensures EvalIf(condition, consequence, None, env, st, fuel)
         == Done(None, EvalOpt(condition, env, st, fuel).st)
  {
  }

  // ---------------------------------------------------------------------
  // Blocks and programs

  /** Running `a + b` is running `a`, then, unless `a` stopped at a return
      value or an error, running `b` from where `a` left off. */
  lemma {:induction false} BlockLoopAppend(a: seq<Stmt>, b: seq<Stmt>, result: Option<Value>,
                                           env: nat, st: State, fuel: nat)
    requires !Stops(result)
    ensures BlockLoop(a + b, result, env, st, fuel) ==
      match BlockLoop(a, result, env, st, fuel)
      case Halted(h) => Halted(h)
      case Done(v, st') => if Stops(v) then Done(v, st') else BlockLoop(b, v, env, st', fuel)
    decreases |a|
  {
    if |a| == 0 {
      assert a + b == b;
    } else {
      assert (a + b)[0] == a[0];
      assert (a + b)[1..] == a[1..] + b;
      var s := EvalStmt(a[0], env, st, fuel);
      if s.Done? && !Stops(s.value) {
        BlockLoopAppend(a[1..], b, s.value, env, s.st, fuel);
      }
    }
  }

  /** A program runs like a block, except that the return value it stops
      at is unwrapped: `return` ends the whole program with its value. */
  lemma {:induction false} ProgramIsUnwrappedBlock(ss: seq<Stmt>, result: Option<Value>,
                                                   env: nat, st: State, fuel: nat)
    requires !Stops(result)
    ensures ProgramLoop(ss, result, env, st, fuel) ==
      match BlockLoop(ss, result, env, st, fuel)
      case Halted(h) => Halted(h)
      case Done(v, st') => Done(UnwrapReturnValue(v), st')
    decreases |ss|
  {
    if |ss| > 0 {
      var s := EvalStmt(ss[0], env, st, fuel);
      if s.Done? && !Stops(s.value) {
        ProgramIsUnwrappedBlock(ss[1..], s.value, env, s.st, fuel);
      }
    }
  }

  // ---------------------------------------------------------------------
  // Bindings

  /** `let` binds the value in the current frame, where the next lookup
      finds it, and changes no other name anywhere. */
  lemma LetBindsInCurrentFrame(t: Token.Token, name: Name, value: Expr, env: nat, st: State, fuel: nat)
    requires env < |st.frames|
    requires var r := Eval(value, env, st, fuel); r.Done? && r.value.Some? && !r.value.value.Error?
    ensures var v := Eval(value, env, st, fuel);
      var r := EvalStmt(LetStmt(t, name, Some(value)), env, st, fuel);
      && r.Done? && r.value.None?
      && Get(r.st.frames, env, name.value) == v.value
      && forall j: nat, other: string :: other != name.value ==>
           Get(r.st.frames, j, other) == Get(v.st.frames, j, other)
  {
    var v := Eval(value, env, st, fuel);
    GetSetSame(v.st.frames, env, name.value, v.value.value);
    forall j: nat, other: string | other != name.value
      ensures Get(Set(v.st.frames, env, name.value, v.value), j, other) == Get(v.st.frames, j, other)
    {
      GetSetOther(v.st.frames, env, name.value, v.value, j, other);
    }
  }

  /** A `let` whose value is an error yields the error and binds
      nothing. */
  lemma LetErrorBindsNothing(t: Token.Token, name: Name, value: Expr, env: nat, st: State, fuel: nat)
    requires var r := Eval(value, env, st, fuel); r.Done? && IsError(r.value)
    ensures EvalStmt(LetStmt(t, name, Some(value)), env, st, fuel) == Eval(value, env, st, fuel)
  {
  }

  /** An identifier means the binding of the first frame on its chain that
      binds it; failing that, the builtin of that name; failing that, the
      error `identifier not found`. */
  lemma {:induction false} IdentifierResolution(fs: Frames, env: nat, name: string)
    requires WellFormed(fs) && env < |fs|
    ensures UnboundOnChain(fs, Chain(fs, env), name) && name in BuiltinNames ==>
              EvalIdentifier(name, env, fs) == Builtin(name)
    ensures UnboundOnChain(fs, Chain(fs, env), name) && name !in BuiltinNames ==>
              EvalIdentifier(name, env, fs) == Error("identifier not found: " + name)
    ensures forall k: nat :: FirstBinding(fs, Chain(fs, env), name, k) ==>
              EvalIdentifier(name, env, fs) == fs[Chain(fs, env)[k]].store[name]
  {
    GetIsFirstBinding(fs, env, name);
    var c := Chain(fs, env);
    forall k: nat | FirstBinding(fs, c, name, k)
      ensures EvalIdentifier(name, env, fs) == fs[c[k]].store[name]
    {
      assert !UnboundOnChain(fs, c, name);
      var k': nat :| FirstBinding(fs, c, name, k') && Get(fs, env, name).value == fs[c[k']].store[name];
      assert k' == k by {
        assert !(k' < k) && !(k < k');
      }
    }
  }

  /** The parameter names are pairwise distinct. */
  predicate DistinctParams(params: seq<Name>) {
    forall i, j :: 0 <= i < j < |params| ==> params[i].value != params[j].value
  }

  /** Binding parameters touches no name that is not a parameter. */
  lemma {:induction false} BindParamsOther(fs: Frames, id: nat, params: seq<Name>, args: seq<Value>,
                                           j: nat, name: string)
    requires forall k :: 0 <= k < |params| ==> params[k].value != name
    ensures Get(BindParams(fs, id, params, args), j, name) == Get(fs, j, name)
    decreases |params|
  {
    if |params| > 0 {
      var arg := if |args| > 0 then Some(args[0]) else None;
      var fs1 := Set(fs, id, params[0].value, arg);
      BindParamsOther(fs1, id, params[1..], if |args| > 0 then args[1..] else [], j, name);
      GetSetOther(fs, id, params[0].value, arg, j, name);
    }
  }

  /** Parameters bind by position: the i-th parameter is the i-th
      argument, and a parameter with no argument is left unbound, so a
      lookup passes to the outer frames. */
  lemma {:induction false} BindParamsPositional(fs: Frames, id: nat, params: seq<Name>, args: seq<Value>, i: nat)
    requires id < |fs| && DistinctParams(params) && i < |params|
    ensures i < |args| ==> Get(BindParams(fs, id, params, args), id, params[i].value) == Some(args[i])
    ensures i >= |args| ==> Get(BindParams(fs, id, params, args), id, params[i].value) == Get(fs, id, params[i].value)
    decreases |params|
  {
    var arg := if |args| > 0 then Some(args[0]) else None;
    var args1 := if |args| > 0 then args[1..] else [];
    var fs1 := Set(fs, id, params[0].value, arg);
    assert BindParams(fs, id, params, args) == BindParams(fs1, id, params[1..], args1);
    var name := params[i].value;
    if i == 0 {
      BindParamsOther(fs1, id, params[1..], args1, id, name);
      assert Get(BindParams(fs, id, params, args), id, name) == Get(fs1, id, name);
      if |args| > 0 {
        GetSetSame(fs, id, name, args[0]);
      }
    } else {
      assert params[1..][i - 1] == params[i];
      assert DistinctParams(params[1..]);
      BindParamsPositional(fs1, id, params[1..], args1, i - 1);
      GetSetOther(fs, id, params[0].value, arg, id, name);
      assert Get(fs1, id, name) == Get(fs, id, name);
      if i < |args| {
        assert args1[i - 1] == args[i];
      }
    }
  }

  /** A closure whose body is one expression statement naming `x`. */
  predicate ReadsName(fn: Value, t: Token.Token, x: Name) {
    fn.Function? && fn.body.statements == [ExprStmt(t, Some(Identifier(x)))]
  }

  /** The body `{ x }` of a closure reading one of its parameters gives the
      argument passed at that parameter's position. */
  lemma CallReadsArgument(fn: Value, args: seq<Value>, st: State, fuel: nat, t: Token.Token, i: nat)
    requires fn.Function? && fuel >= 1 && DistinctParams(fn.params)
    requires i < |fn.params| && i < |args|
    requires ReadsName(fn, t, fn.params[i])
    ensures var r := ApplyFunction(fn, args, st, fuel);
      r.Done? && r.value == UnwrapReturnValue(Some(args[i]))
  {
    var (fs, id) := NewEnclosed(st.frames, fn.env);
    BindParamsPositional(fs, id, fn.params, args, i);
    var bound := BindParams(fs, id, fn.params, args);
    assert EvalIdentifier(fn.params[i].value, id, bound) == args[i];
    BodyReadsName(fn.body, t, fn.params[i], id, State(bound, st.next), fuel);
  }

  /** The body `{ x }` of a closure reading a name that is not one of its
      parameters gives what `x` means in the closure's own frame at the
      time of the call, not when the closure was made. */
  lemma CallReadsCapturedFrame(fn: Value, args: seq<Value>, st: State, fuel: nat, t: Token.Token, x: Name)
    requires fn.Function? && fuel >= 1 && fn.env < |st.frames|
    requires forall k :: 0 <= k < |fn.params| ==> fn.params[k].value != x.value
    requires ReadsName(fn, t, x)
    ensures var r := ApplyFunction(fn, args, st, fuel);
      r.Done? && r.value == UnwrapReturnValue(Some(EvalIdentifier(x.value, fn.env, st.frames)))
  {
    var (fs, id) := NewEnclosed(st.frames, fn.env);
    NewFrameGet(st.frames, fn.env, x.value);
    BindParamsOther(fs, id, fn.params, args, id, x.value);
    var bound := BindParams(fs, id, fn.params, args);
    assert EvalIdentifier(x.value, id, bound) == EvalIdentifier(x.value, fn.env, st.frames);
    BodyReadsName(fn.body, t, x, id, State(bound, st.next), fuel);
  }

  /** The block `{ x }` evaluates to what `x` means in its frame. */
  lemma BodyReadsName(body: Block, t: Token.Token, x: Name, env: nat, st: State, fuel: nat)
    requires fuel >= 1 && body.statements == [ExprStmt(t, Some(Identifier(x)))]
    ensures EvalBlock(body, env, st, fuel) == Done(Some(EvalIdentifier(x.value, env, st.frames)), st)
  {
    var s := ExprStmt(t, Some(Identifier(x)));
    var v := Some(EvalIdentifier(x.value, env, st.frames));
    assert Eval(Identifier(x), env, st, fuel) == Done(v, st);
    assert EvalOpt(Some(Identifier(x)), env, st, fuel) == Done(v, st);
    assert EvalStmt(s, env, st, fuel) == Done(v, st);
    assert [s][1..] == [];
    assert BlockLoop([s], None, env, st, fuel) == Done(v, st);
  }
}
