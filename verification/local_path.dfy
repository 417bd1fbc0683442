/**
 `pathParametersToLocal`: the generator rewrites each placeholder's field
 name into the camel case the generated message types use. The global
 pattern `{([^}=]+)` matches a `{` and the longest run after it free of `}`
 and `=`; only that run is rewritten, so literal text and `=pattern`
 suffixes pass through unchanged.
 */
module LocalPath {
  import opened CamelCase

  /** The first position at or after `i` holding `}` or `=`, or `|s|`: where a name run stops. */
  function NameEnd(s: string, i: nat): (j: nat)
    requires i <= |s|
    ensures i <= j <= |s|
    ensures j < |s| ==> s[j] == '}' || s[j] == '='
    ensures forall k | i <= k < j :: s[k] != '}' && s[k] != '='
    decreases |s| - i
  {
    if i == |s| || s[i] == '}' || s[i] == '=' then i else NameEnd(s, i + 1)
  }

  /** Text that cannot extend a name run: empty, or starting with `}` or `=`. */
  predicate StopsName(t: string) {
    t == [] || t[0] == '}' || t[0] == '='
  }

  /** A name run: not empty, and free of `}` and `=`. */
  predicate IsName(t: string) {
    |t| > 0 && '}' !in t && '=' !in t
  }

  /** `pathParametersToLocal(path)`: each name run after a `{` camel-cased, everything else copied. */
  function ToLocal(path: string): (r: string)
    ensures |r| <= |path|
    ensures path != [] ==> r != [] && r[0] == path[0]
    decreases |path|
  {
    if path == [] then []
    else if path[0] == '{' && NameEnd(path, 1) > 1 then
      var j := NameEnd(path, 1);
      "{" + Camel(path[1..j]) + ToLocal(path[j..])
    else [path[0]] + ToLocal(path[1..])
  }

  /** A placeholder name is camel-cased and the text from the `}` or `=` on is rewritten on its own. */
  lemma ToLocalName(name: string, rest: string)
    requires IsName(name) && StopsName(rest)
    ensures ToLocal("{" + name + rest) == "{" + Camel(name) + ToLocal(rest)
  {
    var p := "{" + name + rest;
    var j := NameEnd(p, 1);
    forall k | 1 <= k <= |name| ensures p[k] != '}' && p[k] != '=' {
      assert p[k] == name[k - 1];
    }
    if rest != [] {
      assert p[|name| + 1] == rest[0];
    }
    assert j == |name| + 1;
    assert p[1..j] == name;
    assert p[j..] == rest;
  }

  /** A character that does not open a name run is copied. */
  lemma ToLocalLit(c: char, rest: string)
    requires c == '{' ==> StopsName(rest)
    ensures ToLocal([c] + rest) == [c] + ToLocal(rest)
  {
    var p := [c] + rest;
    assert p[1..] == rest;
    if c == '{' {
      assert NameEnd(p, 1) == 1;
    }
  }

  /** A path without underscores is left as it is. */
  lemma {:induction false} NoUnderscoreUnchanged(path: string)
    requires '_' !in path
    ensures ToLocal(path) == path
    decreases |path|
  {
    if path != [] {
      var j := NameEnd(path, 1);
      SplitAround(path, j);
      if path[0] == '{' && j > 1 {
        CamelIdentity(path[1..j]);
        NoUnderscoreUnchanged(path[j..]);
      } else {
        NoUnderscoreUnchanged(path[1..]);
      }
    }
  }

  /** Proof helper: a path around a split point, and what it does not contain. */
  lemma SplitAround(path: string, j: nat)
    requires 1 <= j <= |path|
    ensures path == "{" + path[1..j] + path[j..] || path[0] != '{'
    ensures path == [path[0]] + path[1..]
    ensures forall c | c !in path :: c !in path[1..j] && c !in path[j..] && c !in path[1..]
  {
  }

  /** A path without placeholders is left as it is. */
  lemma {:induction false} NoPlaceholderUnchanged(path: string)
    requires '{' !in path
    ensures ToLocal(path) == path
    decreases |path|
  {
    if path != [] {
      assert '{' !in path[1..];
      NoPlaceholderUnchanged(path[1..]);
      assert path == [path[0]] + path[1..];
    }
  }

  /** Rewriting twice changes nothing more. */
  lemma {:induction false} ToLocalIdempotent(path: string)
    ensures ToLocal(ToLocal(path)) == ToLocal(path)
    decreases |path|
  {
    if path != [] {
      var j := NameEnd(path, 1);
      if path[0] == '{' && j > 1 {
        var name, tail := path[1..j], path[j..];
        var c, q := Camel(name), ToLocal(tail);
        ToLocalIdempotent(tail);
        assert StopsName(q);
        if c == [] {
          assert "{" + c + q == [('{')] + q;
          ToLocalLit('{', q);
        } else {
          CamelKeepsOut(name, false, '}');
          CamelKeepsOut(name, false, '=');
          ToLocalName(c, q);
          CamelIdempotent(name);
        }
      } else {
        var tail := path[1..];
        ToLocalIdempotent(tail);
        ToLocalLit(path[0], ToLocal(tail));
      }
    }
  }

  /** Literal text without `{` is copied in front of whatever follows. */
  lemma {:induction false} ToLocalPrefix(lit: string, rest: string)
    requires '{' !in lit
    ensures ToLocal(lit + rest) == lit + ToLocal(rest)
    decreases |lit|
  {
    if lit == [] {
      assert lit + rest == rest;
    } else {
      assert lit + rest == [lit[0]] + (lit[1..] + rest);
      ToLocalLit(lit[0], lit[1..] + rest);
      assert '{' !in lit[1..];
      ToLocalPrefix(lit[1..], rest);
      assert lit == [lit[0]] + lit[1..];
    }
  }

  /** The generator's test path: the name before `=` is camel-cased, the pattern kept. */
  lemma ServiceTestExample()
    ensures ToLocal("v1/{flip_flap.flop=*}") == "v1/{flipFlap.flop=*}"
  {
    ServiceTestPieces();
    ToLocalPrefix("v1/", "{" + "flip_flap.flop" + "=*}");
    ToLocalName("flip_flap.flop", "=*}");
    FlipFlapFlopCamel();
    NoPlaceholderUnchanged("=*}");
  }

  /** Proof helper: the test path cut into the pieces the rewriting sees. */
  lemma ServiceTestPieces()
    ensures "v1/{flip_flap.flop=*}" == "v1/" + ("{" + "flip_flap.flop" + "=*}")
    ensures "v1/" + ("{" + "flipFlap.flop" + "=*}") == "v1/{flipFlap.flop=*}"
    ensures '{' !in "v1/" && '{' !in "=*}"
    ensures IsName("flip_flap.flop") && StopsName("=*}")
  {
  }

  lemma FlipFlapFlopCamel()
    ensures Camel("flip_flap.flop") == "flipFlap.flop"
  {
    SnakePair("flip", "flap.flop");
    FlipFlapFlopPieces();
  }

  /** Proof helper: the strings the camel-casing of `flip_flap.flop` passes through. */
  lemma FlipFlapFlopPieces()
    ensures "flip" + "_" + "flap.flop" == "flip_flap.flop"
    ensures "flap.flop"[0] == 'f' && "flap.flop"[1..] == "lap.flop"
    ensures "flip" + OutChar('f', true) + "lap.flop" == "flipFlap.flop"
  {
    assert OutChar('f', true) == "F";
  }
}
