/**
 Dotted-path access into a request message: `get` and `unset` of the runtime.
 A path such as `flip.flap.flop` is split on `.` into segments; descent goes
 through objects only. Arrays have no named members in this model.
 */
module DottedPath {
  import opened Results
  import opened Json

  /** The first index of `c` in `s` at or after `k`, or `|s|` when there is none. */
  function IndexFrom(s: string, c: char, k: nat): (i: nat)
    requires k <= |s|
    ensures k <= i <= |s|
    ensures i < |s| ==> s[i] == c
    ensures forall j | k <= j < i :: s[j] != c
    decreases |s| - k
  {
    if k == |s| || s[k] == c then k else IndexFrom(s, c, k + 1)
  }

  /** `s.indexOf(c)`, with `|s|` in place of -1. */
  function IndexOf(s: string, c: char): (i: nat)
    ensures i <= |s| && c !in s[..i]
    ensures i < |s| <==> c in s
    ensures i < |s| ==> s[i] == c
  {
    var i := IndexFrom(s, c, 0);
    assert forall j | 0 <= j < i :: s[..i][j] == s[j];
    i
  }

  /** Rejoins segments with `.`, the inverse of `Split`. */
  function Join(segs: seq<string>): string
    requires |segs| >= 1
  {
    if |segs| == 1 then segs[0] else segs[0] + "." + Join(segs[1..])
  }

  /** `keys.split(".")`. */
  function Split(s: string): (segs: seq<string>)
    ensures |segs| >= 1
    decreases |s|
  {
    var i := IndexOf(s, '.');
    if i < |s| then [s[..i]] + Split(s[i + 1..]) else [s]
  }

  /** A string is the text before position `i`, the character there, and the text after it. */
  lemma AroundIndex(s: string, i: nat)
    requires i < |s|
    ensures s == s[..i] + [s[i]] + s[i + 1..]
  {
    var r := s[..i] + [s[i]] + s[i + 1..];
    assert |r| == |s|;
    forall k | 0 <= k < |s| ensures r[k] == s[k] {
      if k > i { assert r[k] == s[i + 1..][k - i - 1]; }
    }
  }

  /** One step of `Split`: the text before the first dot, then the split of the rest. */
  lemma SplitStep(s: string, i: nat)
    requires i == IndexOf(s, '.') && i < |s|
    ensures Split(s) == [s[..i]] + Split(s[i + 1..])
    ensures Join(Split(s)) == s[..i] + "." + Join(Split(s[i + 1..]))
  {
    var segs := Split(s);
    assert segs[0] == s[..i] && segs[1..] == Split(s[i + 1..]);
  }

  /** Splitting loses nothing: no segment contains a dot, joining gives the input back, and a key without dots is one segment. */
  lemma {:induction false} SplitSound(s: string)
    ensures forall i | 0 <= i < |Split(s)| :: '.' !in Split(s)[i]
    ensures Join(Split(s)) == s
    ensures '.' !in s ==> Split(s) == [s]
    decreases |s|
  {
    var i := IndexOf(s, '.');
    if i < |s| {
      var rest := Split(s[i + 1..]);
      SplitSound(s[i + 1..]);
      SplitStep(s, i);
      AroundIndex(s, i);
      var segs := Split(s);
      forall k | 0 <= k < |segs| ensures '.' !in segs[k] {
        if k > 0 { assert segs[k] == rest[k - 1]; }
      }
    }
  }

  /** Splitting a join gives back the segments, when none of them contains a dot. */
  lemma {:induction false} SplitJoin(segs: seq<string>)
    requires |segs| >= 1
    requires forall i | 0 <= i < |segs| :: '.' !in segs[i]
    ensures Split(Join(segs)) == segs
    decreases |segs|
  {
    if |segs| > 1 {
      var s := Join(segs);
      assert s == segs[0] + "." + Join(segs[1..]);
      assert s[|segs[0]|] == '.';
      assert s[..|segs[0]|] == segs[0];
      var i := IndexOf(s, '.');
      assert i == |segs[0]|;
      assert s[i + 1..] == Join(segs[1..]);
      SplitJoin(segs[1..]);
    }
  }

  /**
   `get` on already split segments: reads `o[segs[0]]`, then keeps descending
   while the current value is a non-null object and segments remain. Descent
   into an array reads a field name it does not have, so yields `undefined`.
   */
  function GetIn(o: Object, segs: seq<string>): (r: Option<Value>)
    requires |segs| >= 1
    ensures |segs| == 1 ==> r == Lookup(o, segs[0])
    ensures Lookup(o, segs[0]).None? ==> r.None?
    ensures Lookup(o, segs[0]).Some? && (IsScalar(Lookup(o, segs[0]).value) || Lookup(o, segs[0]).value.Null?)
            ==> r == Lookup(o, segs[0])
    decreases |segs|
  {
    var v := Lookup(o, segs[0]);
    if |segs| == 1 then v
    else match v
      case Some(Obj(m)) => GetIn(m, segs[1..])
      case Some(Arr(_)) => None
      case _ => v
  }

  /** `get(obj, keys)`: a key without dots is a plain member read. */
  function Get(o: Object, keys: string): (r: Option<Value>)
    ensures '.' !in keys ==> r == Lookup(o, keys)
  {
    GetIn(o, Split(keys))
  }

  /** Reading through an object: the rest of a path is read inside the object its prefix reaches. */
  lemma {:induction false} GetThrough(o: Object, p: seq<string>, q: seq<string>)
    requires |p| >= 1 && |q| >= 1
    requires GetIn(o, p).Some? && GetIn(o, p).value.Obj?
    ensures GetIn(o, p + q) == GetIn(GetIn(o, p).value.members, q)
    decreases |p|
  {
    var pq := p + q;
    assert pq[0] == p[0];
    var v := Lookup(o, p[0]);
    if |p| == 1 {
      assert pq[1..] == q;
    } else {
      assert pq[1..] == p[1..] + q;
      GetThrough(v.value.members, p[1..], q);
    }
  }

  /**
   Descent stops at the first value that is not an object: once a prefix
   reads a string, number, boolean, `null` or nothing, every longer path
   reads the same.
   */
  lemma {:induction false} GetStopsAt(o: Object, p: seq<string>, q: seq<string>)
    requires |p| >= 1 && |q| >= 1
    requires GetIn(o, p).None? || IsScalar(GetIn(o, p).value) || GetIn(o, p).value.Null?
    ensures GetIn(o, p + q) == GetIn(o, p)
    decreases |p|
  {
    var pq := p + q;
    assert pq[0] == p[0];
    var v := Lookup(o, p[0]);
    if |p| > 1 && v.Some? && v.value.Obj? {
      assert pq[1..] == p[1..] + q;
      GetStopsAt(v.value.members, p[1..], q);
    }
  }

  /** True when the walk of `unset` ends on an object it can delete from. */
  predicate ParentIsObject(o: Object, segs: seq<string>)
    requires |segs| >= 1
    decreases |segs|
  {
    |segs| == 1 ||
      (Lookup(o, segs[0]).Some? && Lookup(o, segs[0]).value.Obj? &&
       ParentIsObject(Lookup(o, segs[0]).value.members, segs[1..]))
  }

  /** The walk ends on an object exactly when `get` of the parent path reads an object. */
  lemma {:induction false} ParentIsObjectReads(o: Object, segs: seq<string>)
    requires |segs| >= 2
    ensures ParentIsObject(o, segs) <==>
            GetIn(o, segs[..|segs| - 1]).Some? && GetIn(o, segs[..|segs| - 1]).value.Obj?
    decreases |segs|
  {
    var parent := segs[..|segs| - 1];
    assert parent[0] == segs[0];
    if |segs| > 2 {
      var v := Lookup(o, segs[0]);
      assert parent[1..] == segs[1..][..|segs| - 2];
      if v.Some? && v.value.Obj? {
        ParentIsObjectReads(v.value.members, segs[1..]);
      }
    }
  }

  /**
   `unset` on already split segments: deletes only the final leaf, through the
   same walk as `GetIn`. When an intermediate value is missing or not an
   object, the object is returned unchanged.
   */
  function UnsetIn(o: Object, segs: seq<string>): (r: Object)
    requires |segs| >= 1
    ensures |segs| == 1 ==> r == Remove(o, segs[0])
    ensures |segs| > 1 ==> Keys(r) == Keys(o)
    ensures forall k :: k != segs[0] ==> Lookup(r, k) == Lookup(o, k)
    ensures ParentIsObject(o, segs) ==> GetIn(r, segs) == None
    ensures !ParentIsObject(o, segs) ==> r == o
    decreases |segs|
  {
    if |segs| == 1 then Remove(o, segs[0])
    else
      var v := Lookup(o, segs[0]);
      if v.Some? && v.value.Obj? then
        Replace(o, segs[0], Obj(UnsetIn(v.value.members, segs[1..])))
      else
        o
  }

  /** `unset(obj, keys)`. */
  function Unset(o: Object, keys: string): (r: Object)
    ensures '.' !in keys ==> r == Remove(o, keys)
  {
    UnsetIn(o, Split(keys))
  }

  /** Two paths neither of which is a prefix of the other: they end in different places. */
  predicate Apart(p: seq<string>, q: seq<string>) {
    !(p <= q) && !(q <= p)
  }

  /** Deleting at one path leaves the walk to an object parent along an apart path intact. */
  lemma {:induction false} UnsetKeepsParent(o: Object, p: seq<string>, q: seq<string>)
    requires |p| >= 1 && |q| >= 1 && Apart(p, q)
    requires ParentIsObject(o, q)
    ensures ParentIsObject(UnsetIn(o, p), q)
    decreases |p|
  {
    var r := UnsetIn(o, p);
    if |q| > 1 {
      if p[0] != q[0] {
        assert Lookup(r, q[0]) == Lookup(o, q[0]);
      } else {
        var m := Lookup(o, p[0]).value.members;
        assert Lookup(r, q[0]) == Some(Obj(UnsetIn(m, p[1..])));
        UnsetKeepsParent(m, p[1..], q[1..]);
      }
    }
  }

  /**
   Nothing but the leaf changes: a path that neither extends nor is a prefix
   of the deleted one reads the same value before and after `unset`.
   */
  lemma {:induction false} UnsetFrame(o: Object, p: seq<string>, q: seq<string>)
    requires |p| >= 1 && |q| >= 1
    requires !(p <= q) && !(q <= p)
    ensures GetIn(UnsetIn(o, p), q) == GetIn(o, q)
    decreases |p|
  {
    var r := UnsetIn(o, p);
    if p[0] != q[0] {
      assert Lookup(r, q[0]) == Lookup(o, q[0]);
    } else {
      assert |p| > 1 && |q| > 1;
      var v := Lookup(o, p[0]);
      if v.Some? && v.value.Obj? {
        var m := v.value.members;
        assert Lookup(r, q[0]) == Some(Obj(UnsetIn(m, p[1..])));
        UnsetFrame(m, p[1..], q[1..]);
      }
    }
  }

  /** Splitting a three-segment key. */
  lemma SplitThreeExample()
    ensures Split("flip.flap.flop") == ["flip", "flap", "flop"]
  {
    var segs := ["flip", "flap", "flop"];
    assert segs[1..] == ["flap", "flop"] && segs[1..][1..] == ["flop"];
    assert Join(segs) == "flip.flap.flop";
    SplitJoin(segs);
  }

  /** Splitting a two-segment key. */
  lemma SplitTwoExample()
    ensures Split("a.b") == ["a", "b"]
  {
    var segs := ["a", "b"];
    assert segs[1..] == ["b"];
    assert Join(segs) == "a.b";
    SplitJoin(segs);
  }

  /** Example from a nested path parameter: `flip.flap.flop` reads the innermost string. */
  lemma NestedGetExample()
    ensures Get([Member("flip", Obj([Member("flap", Obj([Member("flop", Str("flup"))]))]))], "flip.flap.flop")
         == Some(Str("flup"))
  {
    SplitThreeExample();
  }

  /** Descent stops at the first value that is not an object: `a.b` on a string `a` reads that string. */
  lemma StopsAtScalarExample()
    ensures Get([Member("a", Str("x"))], "a.b") == Some(Str("x"))
    ensures Unset([Member("a", Str("x"))], "a.b") == [Member("a", Str("x"))]
  {
    SplitTwoExample();
  }
}
