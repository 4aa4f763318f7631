/** The runtime values of the evaluator (src/object/object.ts), with the
    variants the evaluator and the builtins use but the file does not
    declare: arrays, hashes and builtins.

    The source compares values other than integers and strings by object
    identity. TRUE, FALSE and NULL are singletons, so a boolean or null is
    compared by value here; every array, hash, function and return value
    is a fresh object, so each carries the allocation number it was
    created with; a builtin is the one object the builtin table holds for
    its name. */
module Object {
  import opened Wrappers
  import opened Ast
  import Decimal

  /** The names in the builtin table. */
  const BuiltinNames: set<string> := {"len", "first", "last", "rest", "push", "log"}

  type BuiltinName = s: string | s in BuiltinNames witness "len"

  /** The key a hashable value is filed under: `${type}:${value}`. */
  datatype HashKey = IntKey(i: int) | BoolKey(b: bool) | StrKey(s: string)

  /** A hash entry: the key object and the value object. */
  datatype HashPair = HashPair(key: Value, value: Value)

  datatype Value =
    | Integer(intValue: int)
    | Str(strValue: string)
    | Boolean(boolValue: bool)
    | Null
    | ReturnValue(id: nat, inner: Value)
    | Error(message: string)
    /** A closure: parameters, body and the frame it was created in. */
    | Function(id: nat, params: seq<Name>, body: Block, env: nat)
    | Array(id: nat, elements: seq<Value>)
    | Hash(id: nat, pairs: map<HashKey, HashPair>)
    | Builtin(name: BuiltinName)

  // ---------------------------------------------------------------------
  // Type tags (`ObjectTypes`, and the tags the other variants need)

  const INTEGER_OBJ: string := "INTEGER"
  const STRING_OBJ: string := "STRING"
  const BOOLEAN_OBJ: string := "BOOLEAN"
  const NULL_OBJ: string := "NULL"
  const RETURN_VALUE_OBJ: string := "RETURN_VALUE"
  const ERROR_OBJ: string := "ERROR"
  const FUNCTION_OBJ: string := "FUNCTION"
  const ARRAY_OBJ: string := "ARRAY"
  const HASH_OBJ: string := "HASH"
  const BUILTIN_OBJ: string := "BUILTIN"

  /** `type()`. */
  function TypeTag(v: Value): string {
    match v
    case Integer(_) => INTEGER_OBJ
    case Str(_) => STRING_OBJ
    case Boolean(_) => BOOLEAN_OBJ
    case Null => NULL_OBJ
    case ReturnValue(_, _) => RETURN_VALUE_OBJ
    case Error(_) => ERROR_OBJ
    case Function(_, _, _, _) => FUNCTION_OBJ
    case Array(_, _) => ARRAY_OBJ
    case Hash(_, _) => HASH_OBJ
    case Builtin(_) => BUILTIN_OBJ
  }

  /** Two values are instances of the same class. */
  predicate SameVariant(a: Value, b: Value) {
    (a.Integer? && b.Integer?) || (a.Str? && b.Str?) || (a.Boolean? && b.Boolean?)
    || (a.Null? && b.Null?) || (a.ReturnValue? && b.ReturnValue?) || (a.Error? && b.Error?)
    || (a.Function? && b.Function?) || (a.Array? && b.Array?) || (a.Hash? && b.Hash?)
    || (a.Builtin? && b.Builtin?)
  }

  /** The tags are pairwise distinct, so comparing tags, as the evaluator
      does, is comparing classes. */
  lemma TagsDecideVariant(a: Value, b: Value)
    ensures TypeTag(a) == TypeTag(b) <==> SameVariant(a, b)
  {
    var tags := [INTEGER_OBJ, STRING_OBJ, BOOLEAN_OBJ, NULL_OBJ, RETURN_VALUE_OBJ,
                 ERROR_OBJ, FUNCTION_OBJ, ARRAY_OBJ, HASH_OBJ, BUILTIN_OBJ];
    assert forall i, j :: 0 <= i < j < |tags| ==> tags[i] != tags[j] by {
      forall i, j | 0 <= i < j < |tags| ensures tags[i] != tags[j] {
        assert tags[i][0] != tags[j][0] || tags[i][1] != tags[j][1] || |tags[i]| != |tags[j]|;
      }
    }
  }

  // ---------------------------------------------------------------------
  // Rendering

  function BoolString(b: bool): (s: string)
    ensures s == "true" || s == "false"
  {
    if b then "true" else "false"
  }

  /** `inspect()`. Arrays, hashes and builtins have no declared
      `inspect`, and a function's body must be renderable; those give
      None. */
  function Inspect(v: Value): (r: Option<string>)
    decreases v
  {
    match v
    case Integer(i) => Some(Decimal.IntToString(i))
    case Str(s) => Some(s)
    case Boolean(b) => Some(BoolString(b))
    case Null => Some("null")
    case ReturnValue(_, inner) => Inspect(inner)
    case Error(message) => Some("ERROR: " + message)
    case Function(_, params, body, _) =>
      if StmtsRenderable(body.statements) then
        Some("fn(" + NamesString(params) + ") {\n" + StmtsString(body.statements) + "\n}")
      else None
    case Array(_, _) => None
    case Hash(_, _) => None
    case Builtin(_) => None
  }

  /** Reading back an integer's rendering gives the integer: the decimal
      rendering loses nothing. */
  lemma {:induction false} InspectIntegerRoundTrip(i: int)
    ensures Inspect(Integer(i)).Some?
    ensures var s := Inspect(Integer(i)).value;
      if i < 0 then s[0] == '-' && Decimal.ParseDigits(s[1..]) == Some(-i)
      else Decimal.ParseDigits(s) == Some(i)
  {
    assert Inspect(Integer(i)) == Some(Decimal.IntToString(i));
    if i < 0 {
      assert Decimal.IntToString(i)[1..] == Decimal.NatToString(-i);
      Decimal.ParseNatToString(-i);
    } else {
      Decimal.ParseNatToString(i);
    }
  }

  /** A return value renders as the value it wraps, however deeply it is
      wrapped. */
  lemma {:induction false} InspectUnwraps(v: Value)
    ensures Inspect(v) == Inspect(Unwrapped(v))
    decreases v
  {
    if v.ReturnValue? {
      InspectUnwraps(v.inner);
    }
  }

  /** The value under every `ReturnValue` wrapper. */
  function Unwrapped(v: Value): (r: Value)
    ensures !r.ReturnValue?
    decreases v
  {
    if v.ReturnValue? then Unwrapped(v.inner) else v
  }

  // ---------------------------------------------------------------------
  // Hash keys

  /** `hashKey()` of an Integer, Boolean or String; None for any other
      value, which cannot be a key. */
  function HashKeyOf(v: Value): (k: Option<HashKey>)
    ensures k.Some? <==> v.Integer? || v.Boolean? || v.Str?
  {
    match v
    case Integer(i) => Some(IntKey(i))
    case Boolean(b) => Some(BoolKey(b))
    case Str(s) => Some(StrKey(s))
    case _ => None
  }

  /** Two hashable values share a key exactly when they are equal. */
  lemma HashKeyInjective(a: Value, b: Value)
    requires HashKeyOf(a).Some? && HashKeyOf(b).Some?
    ensures HashKeyOf(a) == HashKeyOf(b) <==> a == b
  {
  }
}
