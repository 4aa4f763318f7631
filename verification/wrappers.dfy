/** What every module of the interpreter shares: the optional-value
    datatype, where `None` stands for the source's `null`/`undefined`, and
    one fact about joining sequences. */
module Wrappers {

  datatype Option<+T> = None | Some(value: T) {

    /** Returns the value held in Some, or the default for None */
    function GetOr(default: T): T {
      match this
      case Some(v) => v
      case None => default
    }
  }

  /** Joining is associative. Stated once, generically: proving it for a
      sequence of interpreter values directly costs the solver far more. */
  lemma AppendAssociative<T>(a: seq<T>, b: seq<T>, c: seq<T>)
    ensures a + b + c == a + (b + c)
  {
  }

  /** Appending a non-empty sequence is appending its first element, then
      the rest. */
  lemma AppendFirst<T>(a: seq<T>, s: seq<T>)
    requires |s| > 0
    ensures a + [s[0]] + s[1..] == a + s
  {
    AppendAssociative(a, [s[0]], s[1..]);
    assert [s[0]] + s[1..] == s;
  }
}
