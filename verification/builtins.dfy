/** The builtin functions (src/eval/builtins/builtins.ts). A builtin that
    makes a new array takes the next allocation number and returns the one
    after it; the others return the number unchanged. */
module Builtins {
  import opened Wrappers
  import opened Object
  import Decimal

  function WrongArgumentCount(got: nat, wanted: nat): Value {
    Error("wrong number of arguments. got=" + Decimal.IntToString(got)
          + ", wanted=" + Decimal.IntToString(wanted))
  }

  function NotArrayMessage(name: string, v: Value): string {
    "argument to `" + name + "` must be ARRAY, got=" + TypeTag(v)
  }

  /** `len`: the element count of an array, the length of a string. */
  function Len(args: seq<Value>): (r: Value)
    ensures |args| != 1 ==> r == WrongArgumentCount(|args|, 1)
    ensures |args| == 1 && args[0].Array? ==> r == Integer(|args[0].elements|)
    ensures |args| == 1 && args[0].Str? ==> r == Integer(|args[0].strValue|)
    ensures |args| == 1 && !args[0].Array? && !args[0].Str? ==>
              r == Error("argument to `len` not supported, got " + TypeTag(args[0]))
  {
    if |args| != 1 then WrongArgumentCount(|args|, 1)
    else match args[0]
      case Array(_, elements) => Integer(|elements|)
      case Str(s) => Integer(|s|)
      case _ => Error("argument to `len` not supported, got " + TypeTag(args[0]))
  }

  /** `first`: element 0, or NULL for an empty array. */
  function First(args: seq<Value>): (r: Value)
    ensures |args| != 1 ==> r == WrongArgumentCount(|args|, 1)
    ensures |args| == 1 && !args[0].Array? ==> r == Error(NotArrayMessage("first", args[0]))
    ensures |args| == 1 && args[0].Array? ==>
              r == if |args[0].elements| > 0 then args[0].elements[0] else Null
  {
    if |args| != 1 then WrongArgumentCount(|args|, 1)
    else if !args[0].Array? then Error(NotArrayMessage("first", args[0]))
    else if |args[0].elements| > 0 then args[0].elements[0]
    else Null
  }

  /** `last`: the final element, or NULL for an empty array. */
  function Last(args: seq<Value>): (r: Value)
    ensures |args| != 1 ==> r == WrongArgumentCount(|args|, 1)
    ensures |args| == 1 && !args[0].Array? ==> r == Error(NotArrayMessage("last", args[0]))
    ensures |args| == 1 && args[0].Array? && |args[0].elements| == 0 ==> r == Null
    ensures |args| == 1 && args[0].Array? && |args[0].elements| > 0 ==>
              r == args[0].elements[|args[0].elements| - 1]
  {
    if |args| != 1 then WrongArgumentCount(|args|, 1)
    else if !args[0].Array? then Error(NotArrayMessage("last", args[0]))
    else if |args[0].elements| > 0 then args[0].elements[|args[0].elements| - 1]
    else Null
  }

  /** `rest`: a new array of every element but the first, or NULL (not an
      empty array) for an empty one. Its error names `last`. */
  function Rest(args: seq<Value>, next: nat): (r: (Value, nat))
    ensures |args| != 1 ==> r == (WrongArgumentCount(|args|, 1), next)
    ensures |args| == 1 && !args[0].Array? ==> r == (Error(NotArrayMessage("last", args[0])), next)
    ensures |args| == 1 && args[0].Array? && |args[0].elements| == 0 ==> r == (Null, next)
    ensures |args| == 1 && args[0].Array? && |args[0].elements| > 0 ==>
              r == (Array(next, args[0].elements[1..]), next + 1)
  {
    if |args| != 1 then (WrongArgumentCount(|args|, 1), next)
    else if !args[0].Array? then (Error(NotArrayMessage("last", args[0])), next)
    else if |args[0].elements| > 0 then (Array(next, args[0].elements[1..]), next + 1)
    else (Null, next)
  }

  /** `push(a, x)`: a new array of `a`'s elements followed by `x`; `a`
      itself is not changed. */
  function Push(args: seq<Value>, next: nat): (r: (Value, nat))
    ensures |args| != 2 ==> r == (WrongArgumentCount(|args|, 2), next)
    ensures |args| == 2 && !args[0].Array? ==> r == (Error(NotArrayMessage("push", args[0])), next)
    ensures |args| == 2 && args[0].Array? ==> r == (Array(next, args[0].elements + [args[1]]), next + 1)
  {
    if |args| != 2 then (WrongArgumentCount(|args|, 2), next)
    else if !args[0].Array? then (Error(NotArrayMessage("push", args[0])), next)
    else (Array(next, args[0].elements + [args[1]]), next + 1)
  }

  /** Calling the builtin of that name. `log` prints its arguments and
      returns NULL; only the NULL is modelled. */
  function Apply(name: string, args: seq<Value>, next: nat): (r: (Value, nat))
    requires name in BuiltinNames
    ensures next <= r.1 <= next + 1
    ensures r.1 == next + 1 ==> r.0.Array? && r.0.id == next
    ensures name == "log" ==> r == (Null, next)
    ensures name == "len" ==> r == (Len(args), next)
    ensures name == "first" ==> r == (First(args), next)
    ensures name == "last" ==> r == (Last(args), next)
    ensures name == "rest" ==> r == Rest(args, next)
    ensures name == "push" ==> r == Push(args, next)
  {
    if name == "len" then (Len(args), next)
    else if name == "first" then (First(args), next)
    else if name == "last" then (Last(args), next)
    else if name == "rest" then Rest(args, next)
    else if name == "push" then Push(args, next)
    else (Null, next)
  }

  // ---------------------------------------------------------------------
  // How the builtins fit together

  /** What `push` appended is what `last` returns. */
  lemma PushThenLast(a: Value, x: Value, next: nat)
    requires a.Array?
    ensures Last([Push([a, x], next).0]) == x
  {
  }

  /** `push` grows the length by one, and keeps `first` of a non-empty
      array. */
  lemma PushLenFirst(a: Value, x: Value, next: nat)
    requires a.Array?
    ensures Len([Push([a, x], next).0]) == Integer(|a.elements| + 1)
    ensures |a.elements| > 0 ==> First([Push([a, x], next).0]) == First([a])
  {
  }

  /** An array is its `first` followed by its `rest`. */
  lemma FirstAndRest(a: Value, next: nat)
    requires a.Array? && |a.elements| > 0
    ensures var r := Rest([a], next).0;
      r.Array? && [First([a])] + r.elements == a.elements
  {
  }

  /** Neither a wrong argument count nor a non-array is ever answered with
      anything but an error. */
  lemma ErrorsOnMisuse(name: string, args: seq<Value>, next: nat)
    requires name in BuiltinNames - {"log"}
    requires |args| != (if name == "push" then 2 else 1) || (!args[0].Array? && (name != "len" || !args[0].Str?))
    ensures Apply(name, args, next).0.Error?
    ensures Apply(name, args, next).1 == next
  {
  }
}
