/**
 The shallow clone that request construction makes of the caller's message
 (`{ ...params }`). The clone has its own top-level members, but each nested
 object is the very object the caller holds. Deleting a top-level key touches
 only the clone; deleting below the top level happens inside a shared child,
 so the caller sees it too. `Shared` keeps both views side by side.

 When `replacePathParameters` is called directly on an object, with no
 clone in between, that object is the one mutated: the call is modelled with
 `Shared(o, o)` (what `ShallowClone(o)` builds), and the object as the call
 leaves it is the `clone` component.
 */
module Aliasing {
  import opened Results
  import opened Json
  import opened DottedPath

  /** The caller's object and the clone that the runtime mutates. */
  datatype Shared = Shared(caller: Object, clone: Object)

  /** Every member still present in the clone is the caller's member, holding the same child. */
  predicate Aliased(s: Shared) {
    forall k :: k in Keys(s.clone) ==> Lookup(s.caller, k) == Lookup(s.clone, k)
  }

  /** `{ ...params }`: a fresh top level whose members are the caller's. */
  function ShallowClone(params: Object): (s: Shared)
    ensures Aliased(s)
    ensures s.caller == params && Keys(s.clone) == Keys(params)
  {
    Shared(params, params)
  }

  /**
   `unset(clone, path)` seen from both objects. The clone loses the leaf; the
   caller never loses a top-level key, and loses a nested leaf exactly when
   the clone still held the shared child it sits in.
   */
  function UnsetShared(s: Shared, segs: seq<string>): (r: Shared)
    requires |segs| >= 1
    ensures r.clone == UnsetIn(s.clone, segs)
    ensures Keys(r.caller) == Keys(s.caller)
    ensures Aliased(s) ==> Aliased(r)
    ensures forall k :: k != segs[0] ==> Lookup(r.caller, k) == Lookup(s.caller, k)
    ensures |segs| == 1 || segs[0] !in Keys(s.clone) ==> r.caller == s.caller
    ensures |segs| > 1 && Aliased(s) && segs[0] in Keys(s.clone) ==> r.caller == UnsetIn(s.caller, segs)
    ensures r.caller == s.caller || r.caller == UnsetIn(s.caller, segs)
  {
    if |segs| == 1 then
      var r := Shared(s.caller, Remove(s.clone, segs[0]));
      assert Aliased(s) ==> Aliased(r) by {
        if Aliased(s) {
          forall k | k in Keys(r.clone) ensures Lookup(r.caller, k) == Lookup(r.clone, k) {
            assert Lookup(r.clone, k).Some?;
          }
        }
      }
      r
    else match Lookup(s.clone, segs[0])
      case Some(Obj(m)) =>
        var r := Shared(UnsetIn(s.caller, segs), UnsetIn(s.clone, segs));
        assert Aliased(s) ==> Aliased(r) && r.caller == UnsetIn(s.caller, segs) by {
          if Aliased(s) { NestedUnsetKeepsAliasing(s, segs); }
        }
        r
      case _ => s
  }

  /** A nested deletion applied to both views keeps them aliased. */
  lemma NestedUnsetKeepsAliasing(s: Shared, segs: seq<string>)
    requires |segs| > 1 && Aliased(s)
    requires Lookup(s.clone, segs[0]).Some? && Lookup(s.clone, segs[0]).value.Obj?
    ensures Aliased(Shared(UnsetIn(s.caller, segs), UnsetIn(s.clone, segs)))
  {
    var c := UnsetIn(s.caller, segs);
    var d := UnsetIn(s.clone, segs);
    assert segs[0] in Keys(s.clone);
    var m := Lookup(s.clone, segs[0]).value.members;
    assert Lookup(s.caller, segs[0]) == Some(Obj(m));
    assert c == Replace(s.caller, segs[0], Obj(UnsetIn(m, segs[1..])));
    assert d == Replace(s.clone, segs[0], Obj(UnsetIn(m, segs[1..])));
    forall k | k in Keys(d) ensures Lookup(c, k) == Lookup(d, k) {
      assert k in Keys(s.clone);
    }
  }
}
