/** The tree-walking evaluator (src/eval/evaluator.ts).

    Environments live in an arena of frames (see Environment), and every
    array, hash, function and return value the evaluator creates takes the
    next allocation number, which stands for the identity of the object the
    source would create; both are threaded through evaluation as a State.

    The source recurses without bound; here every evaluation of an
    expression spends one unit of fuel, and an evaluation that runs out
    halts with OutOfFuel. Loops over statements, arguments and hash pairs
    spend none, so fuel bounds the nesting depth of the evaluation: its
    expressions, blocks and calls. */
module Evaluator {
  import opened Wrappers
  import opened Ast
  import opened Object
  import opened Environment
  import Builtins

  /** The frames and the next allocation number. */
  datatype State = State(frames: Frames, next: nat)

  /** Why an evaluation stopped without a value: the fuel ran out, or `/`
      produced a number that is not an integer (a fraction, or the Infinity
      or NaN of a division by zero), which no value of the model holds. */
  datatype Halt = OutOfFuel | NotAnInteger

  /** The value of an evaluation and the state after it, or a halt. */
  datatype Outcome<+T> = Done(value: T, st: State) | Halted(halt: Halt)
  {
    predicate IsFailure() {
      Halted?
    }

    function PropagateFailure<U>(): Outcome<U>
      requires Halted?
    {
      Halted(halt)
    }

    function Extract(): (T, State)
      requires Done?
    {
      (value, st)
    }
  }

  const NULL: Value := Null
  const TRUE: Value := Boolean(true)
  const FALSE: Value := Boolean(false)

  /** `nativeBoolToBooleanObject`: one of the two boolean singletons. */
  function NativeBool(b: bool): (v: Value)
    ensures v.Boolean? && v.boolValue == b
  {
    if b then TRUE else FALSE
  }

  /** `isError`: a present value that is an Error. */
  predicate IsError(r: Option<Value>) {
    r.Some? && r.value.Error?
  }

  // ---------------------------------------------------------------------
  // Prefix operators

  /** `isTruthy`: NULL and FALSE are false, every other value is true. */
  function IsTruthy(v: Value): bool {
    if v == NULL then false
    else if v == TRUE then true
    else if v == FALSE then false
    else true
  }

  /** `!`, which compares its operand with the three singletons: the
      boolean opposite of the operand's truthiness. */
  function Bang(v: Value): (r: Value)
    ensures r == NativeBool(!IsTruthy(v))
  {
    if v == TRUE then FALSE
    else if v == FALSE then TRUE
    else if v == NULL then TRUE
    else FALSE
  }

  /** Unary `-`, defined on integers only. */
  function Minus(v: Value): (r: Value)
    ensures v.Integer? <==> r.Integer?
    ensures v.Integer? ==> r.intValue + v.intValue == 0
    ensures !v.Integer? ==> r == Error("unknown operator: -" + TypeTag(v))
  {
    if v.Integer? then Integer(-v.intValue)
    else Error("unknown operator: -" + TypeTag(v))
  }

  /** `evaluatePrefixExpression`. */
  function PrefixOp(op: string, right: Value): Value {
    if op == "!" then Bang(right)
    else if op == "-" then Minus(right)
    else Error("unknown operator: " + op + TypeTag(right))
  }

  // ---------------------------------------------------------------------
  // Infix operators

  function UnknownOperator(op: string, l: Value, r: Value): Value {
    Error("unknown operator: " + TypeTag(l) + " " + op + " " + TypeTag(r))
  }

  /** `evaluateIntegerInfixExpression`. The source divides as a JavaScript
      number does; a quotient that is an integer is kept and any other
      gives None. */
  function IntegerInfix(op: string, a: int, b: int): (r: Option<Value>)
    ensures r.None? <==> op == "/" && (b == 0 || a % b != 0)
    ensures op == "/" && r.Some? ==> r.value.Integer? && r.value.intValue * b == a
  {
    if op == "+" then Some(Integer(a + b))
    else if op == "-" then Some(Integer(a - b))
    else if op == "*" then Some(Integer(a * b))
    else if op == "/" then
      if b != 0 && a % b == 0 then Some(Integer(a / b)) else None
    else if op == "<" then Some(NativeBool(a < b))
    else if op == ">" then Some(NativeBool(a > b))
    else if op == "==" then Some(NativeBool(a == b))
    else if op == "!=" then Some(NativeBool(a != b))
    else Some(UnknownOperator(op, Integer(a), Integer(b)))
  }

  /** `evaluateStringInfixExpression`: `+` concatenates; every other
      operator, `==` included, is unknown. */
  function StringInfix(op: string, a: string, b: string): (r: Value)
    ensures op == "+" <==> r.Str?
  {
    if op != "+" then UnknownOperator(op, Str(a), Str(b))
    else Str(a + b)
  }

  /** `left == right` on two objects of one class: the same object. The
      singletons and a builtin are one object per value; every other
      object the evaluator makes is told apart by its allocation number.
      Integers, strings and errors never reach this comparison. */
  function Identical(l: Value, r: Value): bool {
    match l
    case ReturnValue(i, _) => r.ReturnValue? && r.id == i
    case Function(i, _, _, _) => r.Function? && r.id == i
    case Array(i, _) => r.Array? && r.id == i
    case Hash(i, _) => r.Hash? && r.id == i
    case _ => l == r
  }

  /** `evaluateInfixExpression`; None where the integer division halts. */
  function InfixOp(op: string, l: Value, r: Value): Option<Value> {
    if TypeTag(l) != TypeTag(r) then
      Some(Error("type mismatch: " + TypeTag(l) + " " + op + " " + TypeTag(r)))
    else if l.Str? && r.Str? then Some(StringInfix(op, l.strValue, r.strValue))
    else if l.Integer? && r.Integer? then IntegerInfix(op, l.intValue, r.intValue)
    else if op == "==" then Some(NativeBool(Identical(l, r)))
    else if op == "!=" then Some(NativeBool(!Identical(l, r)))
    else Some(UnknownOperator(op, l, r))
  }

  /** The operand combinations the language defines: the eight integer
      operators, string concatenation, and identity comparison of two
      objects of any other one class. */
  predicate Supported(op: string, l: Value, r: Value) {
    SameVariant(l, r)
    && if l.Integer? then op in {"+", "-", "*", "/", "<", ">", "==", "!="}
       else if l.Str? then op == "+"
       else op in {"==", "!="}
  }

  // ---------------------------------------------------------------------
  // Index expressions

  /** `evaluateArrayIndexExpression`: NULL outside `0 .. length - 1`. */
  function ArrayIndex(elements: seq<Value>, i: int): (r: Value)
    ensures 0 <= i < |elements| ==> r == elements[i]
    ensures (i < 0 || i >= |elements|) ==> r == NULL
  {
    if i < 0 || i > |elements| - 1 then NULL else elements[i]
  }

  /** `evaluateHashIndexExpression`: the value filed under the index's key,
      NULL when there is none, an error when the index cannot be a key. */
  function HashIndex(pairs: map<HashKey, HashPair>, index: Value): (r: Value)
    ensures HashKeyOf(index).None? ==> r == Error("unusable as hash key: " + TypeTag(index))
    ensures HashKeyOf(index).Some? && HashKeyOf(index).value in pairs ==>
              r == pairs[HashKeyOf(index).value].value
    ensures HashKeyOf(index).Some? && HashKeyOf(index).value !in pairs ==> r == NULL
  {
    match HashKeyOf(index)
    case None => Error("unusable as hash key: " + TypeTag(index))
    case Some(k) => if k in pairs then pairs[k].value else NULL
  }

  /** `evaluateIndexExpression`. */
  function IndexOp(left: Value, index: Value): Value {
    if left.Array? && index.Integer? then ArrayIndex(left.elements, index.intValue)
    else if left.Hash? then HashIndex(left.pairs, index)
    else Error("index operator not supported: " + TypeTag(left) + ".")
  }

  // ---------------------------------------------------------------------
  // Hash literals

  /** Every pair's key can be a hash key. */
  predicate Keyed(ps: seq<HashPair>) {
    forall i :: 0 <= i < |ps| ==> HashKeyOf(ps[i].key).Some?
  }

  /** The map `evaluateHashLiteral` fills: the pairs filed in order, so a
      later pair replaces an earlier one with an equal key. */
  function FilePairs(ps: seq<HashPair>): map<HashKey, HashPair>
    requires Keyed(ps)
  {
    if |ps| == 0 then map[]
    else FilePairs(ps[..|ps| - 1])[HashKeyOf(ps[|ps| - 1].key).value := ps[|ps| - 1]]
  }

  /** What the pair loop of a hash literal gives: the evaluated pairs, or
      the error that stopped it. */
  datatype PairsResult = Filed(pairs: seq<HashPair>) | Failed(err: Value)

  // ---------------------------------------------------------------------
  // Evaluation

  /** From `st` to `st'` the arena only grew, no allocation number was
      taken back, no frame changed its outer frame, and no frame but `env`
      changed its bindings. */
  predicate Confined(st: State, st': State, env: nat) {
    && |st.frames| <= |st'.frames|
    && st.next <= st'.next
    && (forall k :: 0 <= k < |st.frames| && k != env ==> st'.frames[k] == st.frames[k])
    && (forall k :: 0 <= k < |st.frames| ==> st'.frames[k].outer == st.frames[k].outer)
  }

  lemma ConfinedTrans(a: State, b: State, c: State, env: nat)
    requires Confined(a, b, env) && Confined(b, c, env)
    ensures Confined(a, c, env)
  {
  }

  /** Touching only frames made after `st` is touching no frame of `st`. */
  lemma ConfinedFresh(a: State, b: State, env: nat)
    requires Confined(a, b, |a.frames|)
    ensures Confined(a, b, env)
  {
  }

  /** A statement's result that ends its block: a return value or an
      error. */
  predicate Stops(r: Option<Value>) {
    r.Some? && (r.value.ReturnValue? || r.value.Error?)
  }

  /** `evaluateIdentifier`: the binding, else the builtin of that name,
      else an error. */
  function EvalIdentifier(name: string, env: nat, fs: Frames): Value {
    match Get(fs, env, name)
    case Some(v) => v
    case None =>
      if name in BuiltinNames then Builtin(name)
      else Error("identifier not found: " + name)
  }

  /** `Eval` of an expression, in frame `env`. */
  function Eval(e: Expr, env: nat, st: State, fuel: nat): (r: Outcome<Option<Value>>)
    ensures r.Done? ==> Confined(st, r.st, env)
    decreases fuel, 0, 0
  {
    if fuel == 0 then Halted(OutOfFuel)
    else match e
      case Identifier(id) => Done(Some(EvalIdentifier(id.value, env, st.frames)), st)
      case IntegerLiteral(_, n) => Done(Some(Integer(n)), st)
      case StringLiteral(_, s) => Done(Some(Str(s)), st)
      case BooleanLiteral(_, b) => Done(Some(NativeBool(b)), st)
      case PrefixExpr(_, op, right) => EvalPrefix(op, right, env, st, fuel - 1)
      case InfixExpr(_, left, op, right) => EvalInfix(left, op, right, env, st, fuel - 1)
      case IfExpr(_, condition, consequence, alternative) =>
        EvalIf(condition, consequence, alternative, env, st, fuel - 1)
      case FunctionLiteral(_, params, body) =>
        Done(Some(Function(st.next, params, body, env)), st.(next := st.next + 1))
      case CallExpr(_, fn, args) => EvalCall(fn, args, env, st, fuel - 1)
      case ArrayLiteral(_, elements) => EvalArray(elements, env, st, fuel - 1)
      case IndexExpr(_, left, index) => EvalIndex(left, index, env, st, fuel - 1)
      case HashLiteral(_, pairs) => EvalHash(pairs, env, st, fuel - 1)
  }

  /** `Eval` of a node the parser may have left out: `Eval(undefined)` is
      null. */
  function EvalOpt(e: Option<Expr>, env: nat, st: State, fuel: nat): (r: Outcome<Option<Value>>)
    ensures r.Done? ==> Confined(st, r.st, env)
    ensures e.None? ==> r == Done(None, st)
    decreases fuel, 1, 0
  {
    if e.None? then Done(None, st) else Eval(e.value, env, st, fuel)
  }

  function EvalPrefix(op: string, right: Option<Expr>, env: nat, st: State, fuel: nat)
    : (r: Outcome<Option<Value>>)
    ensures r.Done? ==> Confined(st, r.st, env)
    decreases fuel, 5, 0
  {
    var v :- EvalOpt(right, env, st, fuel);
    if IsError(v.0) then Done(v.0, v.1)
    else if v.0.Some? then Done(Some(PrefixOp(op, v.0.value)), v.1)
    else Done(None, v.1)
  }

  /** Both operands are evaluated before either is checked for an error. */
  function EvalInfix(left: Expr, op: string, right: Option<Expr>, env: nat, st: State, fuel: nat)
    : (r: Outcome<Option<Value>>)
    ensures r.Done? ==> Confined(st, r.st, env)
    decreases fuel, 5, 0
  {
    var l :- Eval(left, env, st, fuel);
    var r :- EvalOpt(right, env, l.1, fuel);
    ConfinedTrans(st, l.1, r.1, env);
    if IsError(l.0) then Done(l.0, r.1)
    else if IsError(r.0) then Done(r.0, r.1)
    else if l.0.Some? && r.0.Some? then
      match InfixOp(op, l.0.value, r.0.value)
      case Some(v) => Done(Some(v), r.1)
      case None => Halted(NotAnInteger)
    else Done(None, r.1)
  }

  /** `evaluateIfExpression`. The parser leaves a missing `else` out, never
      null, so the source's NULL branch is not reached: the expression then
      evaluates `undefined`, which gives no value. */
  function EvalIf(condition: Option<Expr>, consequence: Block, alternative: Option<Block>,
                  env: nat, st: State, fuel: nat)
    : (r: Outcome<Option<Value>>)
    ensures r.Done? ==> Confined(st, r.st, env)
    decreases fuel, 5, 0
  {
    var c :- EvalOpt(condition, env, st, fuel);
    if IsError(c.0) then Done(c.0, c.1)
    else if c.0.Some? && IsTruthy(c.0.value) then
      var b :- EvalBlock(consequence, env, c.1, fuel);
      ConfinedTrans(st, c.1, b.1, env);
      Done(b.0, b.1)
    else if alternative.Some? then
      var b :- EvalBlock(alternative.value, env, c.1, fuel);
      ConfinedTrans(st, c.1, b.1, env);
      Done(b.0, b.1)
    else Done(None, c.1)
  }

  /** A call: the callee, then the arguments, then the application. */
  function EvalCall(fn: Expr, args: seq<Expr>, env: nat, st: State, fuel: nat)
    : (r: Outcome<Option<Value>>)
    ensures r.Done? ==> Confined(st, r.st, env)
    decreases fuel, 5, 0
  {
    var f :- Eval(fn, env, st, fuel);
    if IsError(f.0) then Done(f.0, f.1)
    else
      var a :- EvalExprs(args, [], env, f.1, fuel);
      ConfinedTrans(st, f.1, a.1, env);
      if |a.0| == 1 && a.0[0].Error? then Done(Some(a.0[0]), a.1)
      else if f.0.Some? then
        var v :- ApplyFunction(f.0.value, a.0, a.1, fuel);
        ConfinedFresh(a.1, v.1, env);
        ConfinedTrans(st, a.1, v.1, env);
        Done(v.0, v.1)
      else Done(None, a.1)
  }

  /** An array literal: a new array of the elements' values, or the first
      error among them; an array never holds an error. */
  function EvalArray(elements: seq<Expr>, env: nat, st: State, fuel: nat)
    : (r: Outcome<Option<Value>>)
    ensures r.Done? ==> Confined(st, r.st, env)
    ensures r.Done? ==> r.value.Some? && (r.value.value.Array? || r.value.value.Error?)
    ensures r.Done? && r.value.value.Array? ==>
              st.next <= r.value.value.id < r.st.next && |r.value.value.elements| <= |elements|
              && forall i :: 0 <= i < |r.value.value.elements| ==> !r.value.value.elements[i].Error?
    decreases fuel, 5, 0
  {
    var es :- EvalExprs(elements, [], env, st, fuel);
    if |es.0| == 1 && es.0[0].Error? then Done(Some(es.0[0]), es.1)
    else Done(Some(Array(es.1.next, es.0)), es.1.(next := es.1.next + 1))
  }

  /** The indexed operand is checked for an error before the index is
      evaluated. */
  function EvalIndex(left: Expr, index: Option<Expr>, env: nat, st: State, fuel: nat)
    : (r: Outcome<Option<Value>>)
    ensures r.Done? ==> Confined(st, r.st, env)
    decreases fuel, 5, 0
  {
    var l :- Eval(left, env, st, fuel);
    if IsError(l.0) then Done(l.0, l.1)
    else
      var i :- EvalOpt(index, env, l.1, fuel);
      ConfinedTrans(st, l.1, i.1, env);
      if IsError(i.0) then Done(i.0, i.1)
      else if l.0.Some? && i.0.Some? then Done(Some(IndexOp(l.0.value, i.0.value)), i.1)
      else Done(Some(Error("operator left or index is null. wanted=Object")), i.1)
  }

  /** `evaluateHashLiteral`. */
  function EvalHash(pairs: seq<Pair>, env: nat, st: State, fuel: nat)
    : (r: Outcome<Option<Value>>)
    ensures r.Done? ==> Confined(st, r.st, env)
    decreases fuel, 5, 0
  {
    var b :- EvalPairs(pairs, [], env, st, fuel);
    match b.0
    case Failed(err) => Done(Some(err), b.1)
    case Filed(ps) => Done(Some(Hash(b.1.next, FilePairs(ps))), b.1.(next := b.1.next + 1))
  }

  /** `evaluateExpressions`: the present values in order, or just the
      first error. */
  function EvalExprs(es: seq<Expr>, acc: seq<Value>, env: nat, st: State, fuel: nat)
    : (r: Outcome<seq<Value>>)
    requires forall i :: 0 <= i < |acc| ==> !acc[i].Error?
    ensures r.Done? ==> Confined(st, r.st, env)
    ensures r.Done? ==> |r.value| <= |acc| + |es|
    ensures r.Done? && (forall i :: 0 <= i < |r.value| ==> !r.value[i].Error?) ==> acc <= r.value
    ensures r.Done? ==> (|r.value| == 1 && r.value[0].Error?)
                        || (forall i :: 0 <= i < |r.value| ==> !r.value[i].Error?)
    decreases fuel, 3, |es|
  {
    if |es| == 0 then Done(acc, st)
    else
      var v :- Eval(es[0], env, st, fuel);
      if IsError(v.0) then
        assert [v.0.value][0].Error?;
        Done([v.0.value], v.1)
      else
        var rest :- EvalExprs(es[1..], if v.0.Some? then acc + [v.0.value] else acc, env, v.1, fuel);
        ConfinedTrans(st, v.1, rest.1, env);
        Done(rest.0, rest.1)
  }

  /** The pair loop of `evaluateHashLiteral`: a key that is not an integer,
      boolean or string stops it, and a pair whose value is absent is
      skipped. */
  function EvalPairs(pairs: seq<Pair>, acc: seq<HashPair>, env: nat, st: State, fuel: nat)
    : (r: Outcome<PairsResult>)
    requires Keyed(acc)
    ensures r.Done? ==> Confined(st, r.st, env)
    ensures r.Done? && r.value.Filed? ==> Keyed(r.value.pairs) && acc <= r.value.pairs
    ensures r.Done? && r.value.Failed? ==> r.value.err.Error?
    decreases fuel, 3, |pairs|
  {
    if |pairs| == 0 then Done(Filed(acc), st)
    else
      var k :- Eval(pairs[0].key, env, st, fuel);
      if IsError(k.0) then Done(Failed(k.0.value), k.1)
      else if k.0.None? || HashKeyOf(k.0.value).None? then
        var tag := if k.0.Some? then TypeTag(k.0.value) else "undefined";
        Done(Failed(Error("unusuable as hash key: " + tag + ".")), k.1)
      else
        var v :- Eval(pairs[0].value, env, k.1, fuel);
        ConfinedTrans(st, k.1, v.1, env);
        if IsError(v.0) then Done(Failed(v.0.value), v.1)
        else
          var rest :- EvalPairs(pairs[1..], if v.0.Some? then acc + [HashPair(k.0.value, v.0.value)] else acc,
                                env, v.1, fuel);
          ConfinedTrans(st, v.1, rest.1, env);
          Done(rest.0, rest.1)
  }

  /** `Eval` of a statement. */
  function EvalStmt(s: Stmt, env: nat, st: State, fuel: nat): (r: Outcome<Option<Value>>)
    ensures r.Done? ==> Confined(st, r.st, env)
    decreases fuel, 2, 0
  {
    match s
    case ExprStmt(_, e) => EvalOpt(e, env, st, fuel)
    case ReturnStmt(_, value) =>
      var v :- EvalOpt(value, env, st, fuel);
      if IsError(v.0) then Done(v.0, v.1)
      else if v.0.Some? then Done(Some(ReturnValue(v.1.next, v.0.value)), v.1.(next := v.1.next + 1))
      else Done(None, v.1)
    case LetStmt(_, name, value) =>
      var v :- EvalOpt(value, env, st, fuel);
      if IsError(v.0) then Done(v.0, v.1)
      else Done(None, v.1.(frames := Set(v.1.frames, env, name.value, v.0)))
  }

  /** `evaluateBlockStatement`. */
  function EvalBlock(b: Block, env: nat, st: State, fuel: nat): (r: Outcome<Option<Value>>)
    ensures r.Done? ==> Confined(st, r.st, env)
    decreases fuel, 3, |b.statements| + 1
  {
    BlockLoop(b.statements, None, env, st, fuel)
  }

  /** The loop of `evaluateBlockStatement`: each statement's result
      replaces the last, and a return value or an error ends the block
      as it is. */
  function BlockLoop(ss: seq<Stmt>, result: Option<Value>, env: nat, st: State, fuel: nat)
    : (r: Outcome<Option<Value>>)
    ensures r.Done? ==> Confined(st, r.st, env)
    decreases fuel, 3, |ss|
  {
    if |ss| == 0 then Done(result, st)
    else
      var v :- EvalStmt(ss[0], env, st, fuel);
      if Stops(v.0) then Done(v.0, v.1)
      else
        var rest :- BlockLoop(ss[1..], v.0, env, v.1, fuel);
        ConfinedTrans(st, v.1, rest.1, env);
        Done(rest.0, rest.1)
  }

  /** `applyFunction`: a closure's body runs in a new frame enclosed by
      the closure's frame, with the parameters bound; a builtin is called;
      anything else is an error. */
  function ApplyFunction(fn: Value, args: seq<Value>, st: State, fuel: nat): (r: Outcome<Option<Value>>)
    ensures r.Done? ==> Confined(st, r.st, |st.frames|)
    ensures !fn.Function? && !fn.Builtin? ==> r == Done(Some(Error("not a function: " + TypeTag(fn) + ".")), st)
    ensures fn.Builtin? ==>
              var (v, next) := Builtins.Apply(fn.name, args, st.next);
              r == Done(Some(v), st.(next := next))
    decreases fuel, 4, 0
  {
    match fn
    case Function(_, params, body, outer) =>
      var (fs, id) := NewEnclosed(st.frames, outer);
      var bound := BindParams(fs, id, params, args);
      var v :- EvalBlock(body, id, State(bound, st.next), fuel);
      Done(UnwrapReturnValue(v.0), v.1)
    case Builtin(name) =>
      var (v, next) := Builtins.Apply(name, args, st.next);
      Done(Some(v), st.(next := next))
    case _ => Done(Some(Error("not a function: " + TypeTag(fn) + ".")), st)
  }

  /** The loop of `extendFunctionEnvironment`: each parameter is set to the
      argument at its position; a parameter with no argument is set to
      `undefined`, which binds nothing. */
  function BindParams(fs: Frames, id: nat, params: seq<Name>, args: seq<Value>): (r: Frames)
    ensures |r| == |fs|
    ensures forall k :: 0 <= k < |fs| && k != id ==> r[k] == fs[k]
    ensures forall k :: 0 <= k < |fs| ==> r[k].outer == fs[k].outer
    decreases |params|
  {
    if |params| == 0 then fs
    else
      var arg := if |args| > 0 then Some(args[0]) else None;
      BindParams(Set(fs, id, params[0].value, arg), id, params[1..], if |args| > 0 then args[1..] else [])
  }

  /** `unwrapReturnValue`: one wrapper removed. */
  function UnwrapReturnValue(v: Option<Value>): (r: Option<Value>)
    ensures v.Some? && v.value.ReturnValue? ==> r == Some(v.value.inner)
    ensures !(v.Some? && v.value.ReturnValue?) ==> r == v
  {
    if v.Some? && v.value.ReturnValue? then Some(v.value.inner) else v
  }

  /** The loop of `evalProgram`: like a block's, but a return value ends
      the program with the value it wraps. */
  function ProgramLoop(ss: seq<Stmt>, result: Option<Value>, env: nat, st: State, fuel: nat)
    : (r: Outcome<Option<Value>>)
    ensures r.Done? ==> Confined(st, r.st, env)
    decreases |ss|
  {
    if |ss| == 0 then Done(result, st)
    else
      var v :- EvalStmt(ss[0], env, st, fuel);
      if v.0.Some? && v.0.value.ReturnValue? then Done(Some(v.0.value.inner), v.1)
      else if IsError(v.0) then Done(v.0, v.1)
      else
        var rest :- ProgramLoop(ss[1..], v.0, env, v.1, fuel);
        ConfinedTrans(st, v.1, rest.1, env);
        Done(rest.0, rest.1)
  }

  /** `evalProgram` in a new top-level frame, as the REPL runs a line. */
  function Interpret(p: Program, fuel: nat): (r: Outcome<Option<Value>>)
    ensures r.Done? ==> |r.st.frames| >= 1
  {
    var (fs, id) := CreateNew([]);
    ProgramLoop(p.statements, None, id, State(fs, 0), fuel)
  }
}
