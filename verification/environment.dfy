/** Environments (src/object/environment/environment.ts) as an arena of
    frames. A frame is an `Environment` object: its own store and the
    number of its outer frame. Frame numbers are positions in the arena,
    which only grows, so a number taken once stays valid; a closure holds
    the number of the frame it was created in, and a `let` in that frame
    after the closure was made is seen by it. */
module Environment {
  import opened Wrappers
  import opened Object

  datatype Frame = Frame(store: map<string, Value>, outer: Option<nat>)

  type Frames = seq<Frame>

  /** Every outer frame was created before the frame that points to it:
      the shape `newEnclosedEnvironment` builds. */
  predicate WellFormed(fs: Frames) {
    forall i :: 0 <= i < |fs| && fs[i].outer.Some? ==> fs[i].outer.value < i
  }

  /** `createNewEnvironment`: an empty store with no outer frame, added as
      the newest frame. */
  function CreateNew(fs: Frames): (r: (Frames, nat))
    ensures r.1 == |fs| && |r.0| == |fs| + 1 && r.0[..|fs|] == fs
    ensures r.0[r.1] == Frame(map[], None)
    ensures WellFormed(fs) ==> WellFormed(r.0)
  {
    (fs + [Frame(map[], None)], |fs|)
  }

  /** `newEnclosedEnvironment(outer)`: an empty store whose outer frame is
      `outer`. */
  function NewEnclosed(fs: Frames, outer: nat): (r: (Frames, nat))
    ensures r.1 == |fs| && |r.0| == |fs| + 1 && r.0[..|fs|] == fs
    ensures r.0[r.1] == Frame(map[], Some(outer))
    ensures WellFormed(fs) && outer < |fs| ==> WellFormed(r.0)
  {
    (fs + [Frame(map[], Some(outer))], |fs|)
  }

  /** `get`: the frame's own binding, else its outer frame's answer; None
      (`null`) when no frame on the chain binds the name. The chain is
      followed only towards earlier frames. */
  function Get(fs: Frames, id: nat, name: string): (r: Option<Value>)
    decreases id
  {
    if id >= |fs| then None
    else if name in fs[id].store then Some(fs[id].store[name])
    else match fs[id].outer
      case Some(p) => if p < id then Get(fs, p, name) else None
      case None => None
  }

  /** `set`: bind the name in the frame's own store; an absent value
      (`null` or `undefined`) changes nothing. */
  function Set(fs: Frames, id: nat, name: string, v: Option<Value>): (r: Frames)
    ensures |r| == |fs|
    ensures forall k :: 0 <= k < |fs| && k != id ==> r[k] == fs[k]
    ensures v.None? || id >= |fs| ==> r == fs
    ensures v.Some? && id < |fs| ==> r[id] == fs[id].(store := fs[id].store[name := v.value])
    ensures WellFormed(fs) ==> WellFormed(r)
  {
    if v.None? || id >= |fs| then fs
    else fs[id := fs[id].(store := fs[id].store[name := v.value])]
  }

  // ---------------------------------------------------------------------
  // Laws of get and set

  /** A name just set is found in that frame, whatever its outer frames
      bind: the new binding shadows them. */
  lemma GetSetSame(fs: Frames, id: nat, name: string, v: Value)
    requires id < |fs|
    ensures Get(Set(fs, id, name, Some(v)), id, name) == Some(v)
  {
  }

  /** Setting one name changes no other name, in any frame. */
  lemma {:induction false} GetSetOther(fs: Frames, id: nat, name: string, v: Option<Value>, j: nat, other: string)
    requires other != name
    ensures Get(Set(fs, id, name, v), j, other) == Get(fs, j, other)
    decreases j
  {
    var fs' := Set(fs, id, name, v);
    if j < |fs| && other !in fs[j].store {
      assert other !in fs'[j].store;
      match fs[j].outer
      case Some(p) =>
        if p < j {
          GetSetOther(fs, id, name, v, p, other);
        }
      case None =>
    }
  }

  /** Setting in a frame never changes what an earlier frame sees: in a
      well-formed arena that is every outer frame, so `set` never writes
      through to an ancestor. */
  lemma {:induction false} GetSetEarlier(fs: Frames, id: nat, name: string, v: Option<Value>, j: nat, any: string)
    requires j < id
    ensures Get(Set(fs, id, name, v), j, any) == Get(fs, j, any)
    decreases j
  {
    var fs' := Set(fs, id, name, v);
    if j < |fs| && any !in fs[j].store {
      match fs[j].outer
      case Some(p) =>
        if p < j {
          GetSetEarlier(fs, id, name, v, p, any);
        }
      case None =>
    }
  }

  /** A name the frame does not bind is looked up in its outer frame. */
  lemma GetDelegates(fs: Frames, id: nat, name: string)
    requires WellFormed(fs) && id < |fs| && name !in fs[id].store && fs[id].outer.Some?
    ensures Get(fs, id, name) == Get(fs, fs[id].outer.value, name)
  {
  }

  /** A fresh enclosed frame sees exactly what its outer frame sees, and a
      fresh top-level frame sees nothing. */
  lemma NewFrameGet(fs: Frames, outer: nat, name: string)
    requires outer < |fs|
    ensures var (fs', id) := NewEnclosed(fs, outer); Get(fs', id, name) == Get(fs, outer, name)
    ensures var (fs', id) := CreateNew(fs); Get(fs', id, name).None?
  {
    var (fs', id) := NewEnclosed(fs, outer);
    GetAppend(fs, [Frame(map[], Some(outer))], outer, name);
  }

  /** Adding frames changes nothing that existing frames see. */
  lemma {:induction false} GetAppend(fs: Frames, more: Frames, id: nat, name: string)
    requires id < |fs|
    ensures Get(fs + more, id, name) == Get(fs, id, name)
    decreases id
  {
    assert (fs + more)[id] == fs[id];
    if name !in fs[id].store {
      match fs[id].outer
      case Some(p) =>
        if p < id {
          GetAppend(fs, more, p, name);
        }
      case None =>
    }
  }

  /** The frames from `id` outwards. */
  function Chain(fs: Frames, id: nat): (c: seq<nat>)
    requires WellFormed(fs) && id < |fs|
    ensures |c| > 0 && c[0] == id
    ensures forall k :: 0 <= k < |c| ==> c[k] < |fs|
    decreases id
  {
    if fs[id].outer.Some? then [id] + Chain(fs, fs[id].outer.value) else [id]
  }

  /** No frame on the chain binds the name. */
  predicate UnboundOnChain(fs: Frames, c: seq<nat>, name: string)
    requires forall k :: 0 <= k < |c| ==> c[k] < |fs|
  {
    forall k :: 0 <= k < |c| ==> name !in fs[c[k]].store
  }

  /** The k-th frame on the chain is the first that binds the name. */
  predicate FirstBinding(fs: Frames, c: seq<nat>, name: string, k: nat)
    requires forall k :: 0 <= k < |c| ==> c[k] < |fs|
  {
    k < |c| && name in fs[c[k]].store && forall m :: 0 <= m < k ==> name !in fs[c[m]].store
  }

  /** `get` finds the binding of the first frame on the chain that binds
      the name, and None exactly when no frame on the chain does. */
  lemma {:induction false} GetIsFirstBinding(fs: Frames, id: nat, name: string)
    requires WellFormed(fs) && id < |fs|
    ensures Get(fs, id, name).None? <==> UnboundOnChain(fs, Chain(fs, id), name)
    ensures Get(fs, id, name).Some? ==>
              exists k: nat :: FirstBinding(fs, Chain(fs, id), name, k)
                && Get(fs, id, name).value == fs[Chain(fs, id)[k]].store[name]
    decreases id
  {
    var c := Chain(fs, id);
    if name in fs[id].store {
      assert FirstBinding(fs, c, name, 0);
    } else if fs[id].outer.Some? {
      var p := fs[id].outer.value;
      assert Get(fs, id, name) == Get(fs, p, name);
      GetIsFirstBinding(fs, p, name);
      var c' := Chain(fs, p);
      assert c == [id] + c';
      assert forall k :: 1 <= k < |c| ==> c[k] == c'[k - 1];
      if Get(fs, p, name).Some? {
        var k': nat :| FirstBinding(fs, c', name, k') && Get(fs, p, name).value == fs[c'[k']].store[name];
        assert c[k' + 1] == c'[k'];
        assert FirstBinding(fs, c, name, k' + 1) by {
          forall m | 0 <= m < k' + 1 ensures name !in fs[c[m]].store {
            if m > 0 {
              assert c[m] == c'[m - 1];
            }
          }
        }
        assert !UnboundOnChain(fs, c, name);
      } else {
        assert UnboundOnChain(fs, c', name);
        forall k | 0 <= k < |c| ensures name !in fs[c[k]].store {
          if k > 0 {
            assert c[k] == c'[k - 1];
          }
        }
        assert UnboundOnChain(fs, c, name);
      }
    } else {
      assert c == [id];
      assert UnboundOnChain(fs, c, name);
    }
  }
}
