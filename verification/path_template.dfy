/**
 Path templates and `replacePathParameters`. A template is scanned the way
 the global pattern `{([^}]+)}` scans it: a `{` opens a placeholder when a
 `}` follows and is not the very next character. Each placeholder names a
 dotted field path (the text before the first `=`); its string value is put
 in the path and the consumed leaf is deleted from the message.
 */
module PathTemplate {
  import opened Results
  import opened Json
  import opened DottedPath
  import opened Aliasing

  /** One literal character of the template, or the text between `{` and `}`. */
  datatype Piece = Lit(c: char) | Hole(inner: string)

  function RenderPiece(p: Piece): string {
    match p
    case Lit(c) => [c]
    case Hole(t) => "{" + t + "}"
  }

  /** The template text the pieces stand for. */
  function Render(ps: seq<Piece>): string {
    if ps == [] then "" else RenderPiece(ps[0]) + Render(ps[1..])
  }

  lemma RenderCons(x: Piece, rest: seq<Piece>)
    ensures Render([x] + rest) == RenderPiece(x) + Render(rest)
  {
    assert ([x] + rest)[0] == x && ([x] + rest)[1..] == rest;
  }

  lemma {:induction false} RenderAppend(a: seq<Piece>, b: seq<Piece>)
    ensures Render(a + b) == Render(a) + Render(b)
  {
    if a != [] {
      assert (a + b)[0] == a[0] && (a + b)[1..] == a[1..] + b;
      RenderAppend(a[1..], b);
    } else {
      assert a + b == b;
    }
  }

  /** Literal text as pieces. */
  function Lits(s: string): (ps: seq<Piece>)
    ensures |ps| == |s|
    ensures forall i | 0 <= i < |s| :: ps[i] == Lit(s[i])
    ensures Render(ps) == s
  {
    if s == [] then [] else [Lit(s[0])] + Lits(s[1..])
  }

  /** Text that cannot complete a placeholder opened just before it: it has no `}`, or starts with one. */
  predicate Unclosable(t: string) {
    '}' !in t || t[0] == '}'
  }

  /**
   A piece the scan can produce in front of `rest`: a placeholder has a
   non-empty name part free of `}`, and a literal `{` is one that nothing in
   `rest` could have closed.
   */
  predicate PieceFits(x: Piece, rest: seq<Piece>) {
    && (x.Hole? ==> |x.inner| > 0 && '}' !in x.inner)
    && (x == Lit('{') ==> Unclosable(Render(rest)))
  }

  /** What the scan produces: every piece fits in front of the pieces after it. */
  predicate WellFormed(ps: seq<Piece>) {
    ps == [] || (PieceFits(ps[0], ps[1..]) && WellFormed(ps[1..]))
  }

  lemma WellFormedCons(x: Piece, rest: seq<Piece>)
    ensures WellFormed([x] + rest) <==> PieceFits(x, rest) && WellFormed(rest)
  {
    assert ([x] + rest)[0] == x && ([x] + rest)[1..] == rest;
  }

  /** The first `}` is at `i` exactly when `s[i]` is `}` and none comes before. */
  lemma IndexOfUnique(s: string, c: char, i: nat)
    requires i < |s| && s[i] == c && c !in s[..i]
    ensures IndexOf(s, c) == i
  {
    var j := IndexOf(s, c);
  }

  /** Position of the first `}` at or after `i`, or `|s|` when there is none. */
  function CloseFrom(s: string, i: nat): (j: nat)
    requires i <= |s|
    ensures i <= j <= |s|
    ensures j < |s| ==> s[j] == '}'
    ensures forall k | i <= k < j :: s[k] != '}'
    decreases |s| - i
  {
    if i == |s| || s[i] == '}' then i else CloseFrom(s, i + 1)
  }

  /**
   The scan of a template: placeholders and literal characters, left to
   right. A `{` whose first following `}` is not adjacent opens a
   placeholder; any other character is literal.
   */
  function Tokenize(path: string): seq<Piece>
    decreases |path|
  {
    if |path| == 0 then []
    else if path[0] == '{' && 1 < CloseFrom(path, 1) < |path| then
      var j := CloseFrom(path, 1);
      [Hole(path[1..j])] + Tokenize(path[j + 1..])
    else [Lit(path[0])] + Tokenize(path[1..])
  }

  /** A `{` the scan keeps as a literal is one that nothing after it could close. */
  lemma ScanLeavesUnclosable(path: string)
    requires |path| > 0 && !(1 < CloseFrom(path, 1) < |path|)
    ensures Unclosable(path[1..])
  {
    var t := path[1..];
    if '}' in t {
      var k :| 0 <= k < |t| && t[k] == '}';
      assert path[k + 1] == '}';
      assert CloseFrom(path, 1) == 1;
    }
  }

  /** A template that starts with `{` and has `}` at `j` is the placeholder text around `path[1..j]`. */
  lemma Around(path: string, j: nat)
    requires 1 <= j < |path| && path[0] == '{' && path[j] == '}'
    ensures path == "{" + path[1..j] + "}" + path[j + 1..]
  {
    var r := "{" + path[1..j] + "}" + path[j + 1..];
    assert |r| == |path|;
    forall k | 0 <= k < |path| ensures r[k] == path[k] {
      if 0 < k < j {
        assert r[k] == path[1..j][k - 1];
      } else if k > j {
        assert r[k] == path[j + 1..][k - j - 1];
      }
    }
  }

  /** A placeholder step of the scan renders back when the rest does. */
  lemma HoleStepRenders(path: string, j: nat)
    requires |path| > 0 && path[0] == '{' && j == CloseFrom(path, 1) && 1 < j < |path|
    requires Render(Tokenize(path[j + 1..])) == path[j + 1..]
    ensures Render(Tokenize(path)) == path
  {
    var inner, rest := path[1..j], Tokenize(path[j + 1..]);
    assert Tokenize(path) == [Hole(inner)] + rest;
    RenderCons(Hole(inner), rest);
    Around(path, j);
  }

  /** A literal step of the scan renders back when the rest does. */
  lemma LitStepRenders(path: string)
    requires |path| > 0 && !(path[0] == '{' && 1 < CloseFrom(path, 1) < |path|)
    requires Render(Tokenize(path[1..])) == path[1..]
    ensures Render(Tokenize(path)) == path
  {
    var rest := Tokenize(path[1..]);
    assert Tokenize(path) == [Lit(path[0])] + rest;
    RenderCons(Lit(path[0]), rest);
    assert path == [path[0]] + path[1..];
  }

  /** The scan loses nothing: its pieces render back to the template. */
  lemma {:induction false} TokenizeRenders(path: string)
    ensures Render(Tokenize(path)) == path
    decreases |path|
  {
    if |path| > 0 {
      var j := CloseFrom(path, 1);
      if path[0] == '{' && 1 < j < |path| {
        TokenizeRenders(path[j + 1..]);
        HoleStepRenders(path, j);
      } else {
        TokenizeRenders(path[1..]);
        LitStepRenders(path);
      }
    }
  }

  /** The scan finds every placeholder: its pieces are well formed. */
  lemma {:induction false} TokenizeWellFormed(path: string)
    ensures WellFormed(Tokenize(path))
    decreases |path|
  {
    if |path| > 0 {
      var j := CloseFrom(path, 1);
      if path[0] == '{' && 1 < j < |path| {
        var inner := path[1..j];
        TokenizeWellFormed(path[j + 1..]);
        assert '}' !in inner by {
          forall k | 0 <= k < |inner| ensures inner[k] != '}' { assert inner[k] == path[k + 1]; }
        }
        WellFormedCons(Hole(inner), Tokenize(path[j + 1..]));
      } else {
        TokenizeWellFormed(path[1..]);
        if path[0] == '{' {
          ScanLeavesUnclosable(path);
          TokenizeRenders(path[1..]);
        }
        WellFormedCons(Lit(path[0]), Tokenize(path[1..]));
      }
    }
  }

  /** A placeholder at the front of the text is recognised as one. */
  lemma TokenizeHole(t: string, text: string)
    requires |t| > 0 && '}' !in t
    ensures Tokenize("{" + t + "}" + text) == [Hole(t)] + Tokenize(text)
  {
    var path := "{" + t + "}" + text;
    var j := CloseFrom(path, 1);
    assert path[|t| + 1] == '}';
    forall k | 1 <= k <= |t| ensures path[k] != '}' { assert path[k] == t[k - 1]; }
    assert j == |t| + 1;
    assert path[1..j] == t;
    assert path[j + 1..] == text;
  }

  /** A character that cannot open a placeholder at the front of the text stays literal. */
  lemma TokenizeLit(c: char, text: string)
    requires c == '{' ==> Unclosable(text)
    ensures Tokenize([c] + text) == [Lit(c)] + Tokenize(text)
  {
    var path := [c] + text;
    assert path[0] == c && path[1..] == text;
  }

  /** The scan is the only well-formed reading: tokenizing a rendering gives the pieces back. */
  lemma {:induction false} TokenizeRender(ps: seq<Piece>)
    requires WellFormed(ps)
    ensures Tokenize(Render(ps)) == ps
    decreases |ps|
  {
    if ps != [] {
      var x, rest := ps[0], ps[1..];
      assert ps == [x] + rest;
      WellFormedCons(x, rest);
      TokenizeRender(rest);
      RenderCons(x, rest);
      if x.Hole? {
        TokenizeHole(x.inner, Render(rest));
      } else {
        TokenizeLit(x.c, Render(rest));
      }
    }
  }

  /** `c1.split("=", 2)[0]`: the field path, i.e. the text before the first `=`. */
  function ParameterName(inner: string): (name: string)
    ensures name <= inner && '=' !in name
    ensures |name| < |inner| ==> inner[|name|] == '='
  {
    inner[..IndexOf(inner, '=')]
  }

  /** The field paths of the placeholders, in template order. */
  function HoleNames(ps: seq<Piece>): seq<string> {
    if ps == [] then []
    else (if ps[0].Hole? then [ParameterName(ps[0].inner)] else []) + HoleNames(ps[1..])
  }

  datatype PathError =
    | MissingPathParameter(name: string)
    | PathParameterNotString(name: string, typeName: string)

  /**
   The error for a placeholder whose value is not a string: a null or
   undefined value is missing, anything else is reported with its `typeof`.
   */
  function Rejection(name: string, v: Option<Value>): (e: PathError)
    requires v.None? || !v.value.Str?
    ensures e.name == name
    ensures e.MissingPathParameter? <==> v.None? || v.value.Null?
    ensures e.PathParameterNotString? ==> e.typeName != "string"
  {
    if v.None? || v.value.Null? then MissingPathParameter(name)
    else PathParameterNotString(name, TypeOf(v.value))
  }

  /** The substituted path, and the message as left by the deletions (absent when none was given). */
  datatype Substituted = Substituted(path: string, message: Option<Shared>)

  /** `requestMessage && get(requestMessage, name)`. */
  function ReadParameter(msg: Option<Shared>, name: string): Option<Value> {
    if msg.None? then None else Get(msg.value.clone, name)
  }

  /**
   The replacement callback over all pieces, left to right: a placeholder
   whose value is null or undefined throws "missing path parameter", one
   whose value is not a string throws "must be a string", and a string value
   is substituted and its leaf deleted before the next placeholder is read.
   */
  function SubstitutePieces(ps: seq<Piece>, msg: Option<Shared>): (r: Result<Substituted, PathError>)
    ensures r.Ok? ==> (r.value.message.Some? <==> msg.Some?)
    ensures r.Ok? && msg.Some? ==> Keys(r.value.message.value.caller) == Keys(msg.value.caller)
    ensures r.Ok? && msg.Some? && Aliased(msg.value) ==> Aliased(r.value.message.value)
    ensures r.Ok? && msg.Some? ==> forall k :: k in Keys(r.value.message.value.clone) ==> k in Keys(msg.value.clone)
    ensures r.Err? ==> r.error.name in HoleNames(ps)
    decreases |ps|
  {
    if ps == [] then Ok(Substituted("", msg))
    else if ps[0].Lit? then
      var rest := SubstitutePieces(ps[1..], msg);
      if rest.Err? then rest
      else Ok(Substituted([ps[0].c] + rest.value.path, rest.value.message))
    else
      var name := ParameterName(ps[0].inner);
      var v := ReadParameter(msg, name);
      if v.None? || !v.value.Str? then Err(Rejection(name, v))
      else
        var rest := SubstitutePieces(ps[1..], Some(UnsetShared(msg.value, Split(name))));
        if rest.Err? then rest
        else Ok(Substituted(v.value.s + rest.value.path, rest.value.message))
  }

  /**
   `replacePathParameters(path, requestMessage)`. A template without `{`
   comes back as it is, with the message untouched; a failure names one of
   the template's placeholders.
   */
  function ReplacePathParameters(path: string, msg: Option<Shared>): (r: Result<Substituted, PathError>)
    ensures '{' !in path ==> r == Ok(Substituted(path, msg))
    ensures r.Err? ==> r.error.name in HoleNames(Tokenize(path))
    ensures r.Ok? ==> (r.value.message.Some? <==> msg.Some?)
    ensures r.Ok? && msg.Some? ==> Keys(r.value.message.value.caller) == Keys(msg.value.caller)
    ensures r.Ok? && msg.Some? && Aliased(msg.value) ==> Aliased(r.value.message.value)
  {
    if '{' in path then SubstitutePieces(Tokenize(path), msg)
    else LiteralPathSubstitutes(path, msg); SubstitutePieces(Tokenize(path), msg)
  }

  /** Puts literal text in front of a successful substitution. */
  function Prepend(text: string, r: Result<Substituted, PathError>): Result<Substituted, PathError> {
    if r.Err? then r else Ok(Substituted(text + r.value.path, r.value.message))
  }

  /** One literal character is copied through. */
  lemma SubstituteLit(c: char, rest: seq<Piece>, msg: Option<Shared>)
    ensures SubstitutePieces([Lit(c)] + rest, msg) == Prepend([c], SubstitutePieces(rest, msg))
  {
    assert ([Lit(c)] + rest)[0] == Lit(c) && ([Lit(c)] + rest)[1..] == rest;
  }

  lemma PrependTwice(a: string, b: string, r: Result<Substituted, PathError>)
    ensures Prepend(a, Prepend(b, r)) == Prepend(a + b, r)
  {
    if r.Ok? { Assoc(a, b, r.value.path); }
  }

  /** Literal text passes through unchanged and reads nothing. */
  lemma {:induction false} SubstituteLits(lit: string, rest: seq<Piece>, msg: Option<Shared>)
    ensures SubstitutePieces(Lits(lit) + rest, msg) == Prepend(lit, SubstitutePieces(rest, msg))
    decreases |lit|
  {
    if lit != [] {
      assert Lits(lit) + rest == [Lit(lit[0])] + (Lits(lit[1..]) + rest);
      SubstituteLit(lit[0], Lits(lit[1..]) + rest, msg);
      SubstituteLits(lit[1..], rest, msg);
      PrependTwice([lit[0]], lit[1..], SubstitutePieces(rest, msg));
      assert [lit[0]] + lit[1..] == lit;
    } else {
      assert Lits(lit) + rest == rest;
      var r := SubstitutePieces(rest, msg);
      if r.Ok? { assert "" + r.value.path == r.value.path; }
    }
  }

  /**
   What one placeholder does: a null or undefined value (also when there is
   no message at all) is a missing parameter, any other non-string value is
   rejected with its type, and a string is substituted, its leaf deleted
   before the rest of the template is read.
   */
  lemma PlaceholderOutcome(inner: string, rest: seq<Piece>, msg: Option<Shared>)
    ensures var name := ParameterName(inner);
            var v := ReadParameter(msg, name);
            var r := SubstitutePieces([Hole(inner)] + rest, msg);
            && (v.None? || v.value.Null? ==> r == Err(MissingPathParameter(name)))
            && (v.Some? && !v.value.Null? && !v.value.Str? ==> r == Err(PathParameterNotString(name, TypeOf(v.value))))
            && (v.Some? && v.value.Str? ==>
                  r == Prepend(v.value.s, SubstitutePieces(rest, Some(UnsetShared(msg.value, Split(name))))))
  {
    assert ([Hole(inner)] + rest)[0] == Hole(inner) && ([Hole(inner)] + rest)[1..] == rest;
  }

  /** Without a request message every placeholder is missing: the first one is reported, and a template without placeholders comes back as written. */
  lemma {:induction false} NoMessage(ps: seq<Piece>)
    ensures SubstitutePieces(ps, None) ==
      if HoleNames(ps) == [] then Ok(Substituted(Render(ps), None))
      else Err(MissingPathParameter(HoleNames(ps)[0]))
    decreases |ps|
  {
    if ps != [] {
      NoMessage(ps[1..]);
    }
  }

  /** Keys named by undotted placeholders are gone from the clone once substitution succeeds. */
  lemma {:induction false} ConsumedKeysAbsent(ps: seq<Piece>, s: Shared)
    requires SubstitutePieces(ps, Some(s)).Ok?
    ensures forall n | n in HoleNames(ps) && '.' !in n ::
              n !in Keys(SubstitutePieces(ps, Some(s)).value.message.value.clone)
    decreases |ps|
  {
    if ps != [] {
      if ps[0].Lit? {
        ConsumedKeysAbsent(ps[1..], s);
      } else {
        var name := ParameterName(ps[0].inner);
        var s' := UnsetShared(s, Split(name));
        ConsumedKeysAbsent(ps[1..], s');
        if '.' !in name {
          assert s'.clone == Remove(s.clone, name);
          assert name !in Keys(s'.clone) by { assert Lookup(s'.clone, name).None?; }
        }
      }
    }
  }

  /** A top-level member that no placeholder's path starts with is the same afterwards, in the clone and in the caller's object. */
  lemma {:induction false} UntouchedKeysKept(ps: seq<Piece>, s: Shared, k: string)
    requires SubstitutePieces(ps, Some(s)).Ok?
    requires forall n | n in HoleNames(ps) :: Split(n)[0] != k
    ensures Lookup(SubstitutePieces(ps, Some(s)).value.message.value.clone, k) == Lookup(s.clone, k)
    ensures Lookup(SubstitutePieces(ps, Some(s)).value.message.value.caller, k) == Lookup(s.caller, k)
    decreases |ps|
  {
    if ps != [] {
      var names := HoleNames(ps);
      if ps[0].Lit? {
        assert HoleNames(ps[1..]) == names;
        UntouchedKeysKept(ps[1..], s, k);
      } else {
        var name := ParameterName(ps[0].inner);
        assert names == [name] + HoleNames(ps[1..]);
        assert name in names;
        var s' := UnsetShared(s, Split(name));
        forall n | n in HoleNames(ps[1..]) ensures Split(n)[0] != k {
          assert n in names;
        }
        UntouchedKeysKept(ps[1..], s', k);
      }
    }
  }

  /**
   Placeholder paths that pairwise end in different places: no two are the
   same field, and none runs through the field of another.
   */
  predicate Independent(ns: seq<string>) {
    ns == [] ||
      ((forall m | m in ns[1..] :: Apart(Split(ns[0]), Split(m))) && Independent(ns[1..]))
  }

  /**
   Nothing the placeholders do not reach changes: a path apart from every
   placeholder path reads the same afterwards, in the clone and in the
   caller's object.
   */
  lemma {:induction false} SubstituteFrame(ps: seq<Piece>, s: Shared, q: seq<string>)
    requires SubstitutePieces(ps, Some(s)).Ok? && |q| >= 1
    requires forall n | n in HoleNames(ps) :: Apart(Split(n), q)
    ensures var m := SubstitutePieces(ps, Some(s)).value.message.value;
            GetIn(m.clone, q) == GetIn(s.clone, q) && GetIn(m.caller, q) == GetIn(s.caller, q)
    decreases |ps|
  {
    if ps != [] {
      if ps[0].Lit? {
        assert HoleNames(ps) == HoleNames(ps[1..]);
        SubstituteFrame(ps[1..], s, q);
      } else {
        var name := ParameterName(ps[0].inner);
        assert HoleNames(ps) == [name] + HoleNames(ps[1..]);
        assert name in HoleNames(ps);
        var s' := UnsetShared(s, Split(name));
        forall n | n in HoleNames(ps[1..]) ensures Apart(Split(n), q) {
          assert n in HoleNames(ps);
        }
        SubstituteFrame(ps[1..], s', q);
        UnsetFrame(s.clone, Split(name), q);
        UnsetFrame(s.caller, Split(name), q);
      }
    }
  }

  /** The placeholder's path reads a string. */
  predicate ReadsString(o: Object, n: string) {
    GetIn(o, Split(n)).Some? && GetIn(o, Split(n)).value.Str?
  }

  /** The placeholder's path reads the string `vals[n]` at its very end, under an object parent. */
  predicate ReadsLeaf(o: Object, n: string, vals: map<string, string>) {
    n in vals && ParentIsObject(o, Split(n)) && GetIn(o, Split(n)) == Some(Str(vals[n]))
  }

  /**
   The reference check: the error for the first name, in order, whose path
   does not read a string in `o`, with every name read in the same `o`.
   */
  function FirstRejection(o: Object, ns: seq<string>): Option<PathError> {
    if ns == [] then None
    else if !ReadsString(o, ns[0]) then Some(Rejection(ns[0], GetIn(o, Split(ns[0]))))
    else FirstRejection(o, ns[1..])
  }

  /** A deletion apart from every name's path does not change the reference check. */
  lemma {:induction false} FirstRejectionFrame(o: Object, p: seq<string>, ns: seq<string>)
    requires |p| >= 1
    requires forall m | m in ns :: Apart(p, Split(m))
    ensures FirstRejection(UnsetIn(o, p), ns) == FirstRejection(o, ns)
    decreases |ns|
  {
    if ns != [] {
      assert ns[0] in ns;
      UnsetFrame(o, p, Split(ns[0]));
      assert forall m | m in ns[1..] :: m in ns;
      FirstRejectionFrame(o, p, ns[1..]);
    }
  }

  /**
   With independent placeholder paths, substitution fails exactly when some
   placeholder does not read a string in the message as given, and the error
   is the one for the first such placeholder in template order: a deletion
   never disturbs what a later placeholder reads.
   */
  lemma {:induction false} SubstituteOutcome(ps: seq<Piece>, s: Shared)
    requires Independent(HoleNames(ps))
    ensures var r := SubstitutePieces(ps, Some(s));
            var f := FirstRejection(s.clone, HoleNames(ps));
            && (r.Err? <==> f.Some?)
            && (r.Err? ==> r.error == f.value)
    decreases |ps|
  {
    if ps != [] {
      var ns := HoleNames(ps);
      if ps[0].Lit? {
        assert ns == HoleNames(ps[1..]);
        SubstituteOutcome(ps[1..], s);
      } else {
        var n := ParameterName(ps[0].inner);
        var rest := HoleNames(ps[1..]);
        assert ns == [n] + rest && ns[1..] == rest;
        if ReadsString(s.clone, n) {
          var s1 := UnsetShared(s, Split(n));
          FirstRejectionFrame(s.clone, Split(n), rest);
          SubstituteOutcome(ps[1..], s1);
        }
      }
    }
  }

  /**
   The substitution promise for nested placeholders. With independent
   placeholder paths that each read a string at their very end, the path is
   the template filled with those strings; afterwards no placeholder path
   reads anything in the clone, and every nested one reads nothing in the
   caller's object either, since its leaf sat in a child the two share.
   */
  lemma {:induction false} SubstituteDotted(ps: seq<Piece>, s: Shared, vals: map<string, string>)
    requires Aliased(s)
    requires Independent(HoleNames(ps))
    requires forall n | n in HoleNames(ps) :: ReadsLeaf(s.clone, n, vals)
    ensures forall n | n in HoleNames(ps) :: n in vals
    ensures var r := SubstitutePieces(ps, Some(s));
            && r.Ok? && r.value.message.Some? && r.value.path == Fill(ps, vals)
            && (forall n | n in HoleNames(ps) :: GetIn(r.value.message.value.clone, Split(n)) == None)
            && (forall n | n in HoleNames(ps) && |Split(n)| > 1 :: GetIn(r.value.message.value.caller, Split(n)) == None)
    decreases |ps|
  {
    if ps != [] {
      var names := HoleNames(ps);
      if ps[0].Lit? {
        assert names == HoleNames(ps[1..]);
        SubstituteDotted(ps[1..], s, vals);
      } else {
        var n := ParameterName(ps[0].inner);
        var rest := HoleNames(ps[1..]);
        assert names == [n] + rest;
        assert n in names;
        var segs := Split(n);
        var s1 := UnsetShared(s, segs);
        assert names[1..] == rest;
        forall m | m in rest ensures ReadsLeaf(s1.clone, m, vals) && Apart(Split(m), segs) {
          assert m in names;
          UnsetFrame(s.clone, segs, Split(m));
          UnsetKeepsParent(s.clone, segs, Split(m));
        }
        SubstituteDotted(ps[1..], s1, vals);
        assert ReadParameter(Some(s), n) == Some(Str(vals[n]));
        SubstituteFrame(ps[1..], s1, segs);
        if |segs| > 1 {
          assert segs[0] in Keys(s.clone);
          assert ParentIsObject(s.caller, segs);
        }
      }
    }
  }

  /** The template with every placeholder replaced by the value its field path names in `vals`. */
  function Fill(ps: seq<Piece>, vals: map<string, string>): string
    requires forall n | n in HoleNames(ps) :: n in vals
  {
    if ps == [] then ""
    else (if ps[0].Lit? then [ps[0].c] else vals[ParameterName(ps[0].inner)]) + Fill(ps[1..], vals)
  }

  /** Deletes each named top-level key in turn. */
  function RemoveAll(o: Object, names: seq<string>): Object
    decreases |names|
  {
    if names == [] then o else RemoveAll(Remove(o, names[0]), names[1..])
  }

  predicate Distinct(ns: seq<string>) {
    forall i, j | 0 <= i < j < |ns| :: ns[i] != ns[j]
  }

  /** After the first name is consumed, the remaining names still meet the requirements of `SubstituteTopLevel`. */
  lemma TailNames(n: string, rest: seq<string>, o: Object, vals: map<string, string>)
    requires forall m | m in [n] + rest :: '.' !in m && m in vals && Lookup(o, m) == Some(Str(vals[m]))
    requires Distinct([n] + rest)
    ensures Distinct(rest)
    ensures forall m | m in rest :: '.' !in m && m in vals && Lookup(Remove(o, n), m) == Some(Str(vals[m]))
  {
    var names := [n] + rest;
    forall m | m in rest
      ensures '.' !in m && m in vals && Lookup(Remove(o, n), m) == Some(Str(vals[m]))
    {
      var i :| 0 <= i < |rest| && rest[i] == m;
      assert names[i + 1] == m && names[0] == n;
      assert m in names;
    }
    forall i, j | 0 <= i < j < |rest| ensures rest[i] != rest[j] {
      assert names[i + 1] == rest[i] && names[j + 1] == rest[j];
    }
  }

  /**
   With distinct top-level placeholders that all hold strings, substitution
   fills each placeholder with its string, removes exactly those keys from
   the clone and leaves the caller's object as it was.
   */
  lemma {:induction false} SubstituteTopLevel(ps: seq<Piece>, s: Shared, vals: map<string, string>)
    requires forall n | n in HoleNames(ps) :: '.' !in n && n in vals && Lookup(s.clone, n) == Some(Str(vals[n]))
    requires Distinct(HoleNames(ps))
    ensures SubstitutePieces(ps, Some(s))
         == Ok(Substituted(Fill(ps, vals), Some(Shared(s.caller, RemoveAll(s.clone, HoleNames(ps))))))
    decreases |ps|
  {
    if ps != [] {
      var names := HoleNames(ps);
      var restNames := HoleNames(ps[1..]);
      assert ps == [ps[0]] + ps[1..];
      if ps[0].Lit? {
        assert names == restNames;
        SubstituteTopLevel(ps[1..], s, vals);
      } else {
        var n := ParameterName(ps[0].inner);
        assert names == [n] + restNames;
        assert n in names;
        var s' := Shared(s.caller, Remove(s.clone, n));
        assert UnsetShared(s, Split(n)) == s';
        assert ReadParameter(Some(s), n) == Some(Str(vals[n]));
        PlaceholderOutcome(ps[0].inner, ps[1..], Some(s));
        TailNames(n, restNames, s.clone, vals);
        SubstituteTopLevel(ps[1..], s', vals);
        assert names[1..] == restNames;
        assert RemoveAll(s.clone, names) == RemoveAll(s'.clone, restNames);
      }
    }
  }

  /** Proof helper: string concatenation regrouped. */
  lemma Assoc(a: string, b: string, c: string)
    ensures a + b + c == a + (b + c)
  {
  }

  /** Field names as the placeholders of a template may carry them. */
  predicate PlainName(k: string) {
    |k| > 0 && '}' !in k && '=' !in k && '.' !in k
  }

  /** Two placeholders separated by `/` are two pieces with a literal between them. */
  lemma TwoPlaceholders(a: string, b: string)
    requires |a| > 0 && '}' !in a && |b| > 0 && '}' !in b
    ensures Tokenize(("{" + a + "}") + ("/" + ("{" + b + "}"))) == [Hole(a), Lit('/'), Hole(b)]
  {
    TokenizeHole(b, "");
    assert "{" + b + "}" + "" == "{" + b + "}";
    TokenizeLit('/', "{" + b + "}");
    TokenizeHole(a, "/" + ("{" + b + "}"));
  }

  /** Proof helper: no `}` in `name=` followed by a glob without one. */
  lemma NoCloseAfterName(glob: string)
    requires '}' !in glob
    ensures '}' !in "name=" + glob
  {
    var pattern := "name=" + glob;
    forall k | 0 <= k < |pattern| ensures pattern[k] != '}' {
      if k >= 5 { assert pattern[k] == glob[k - 5]; }
    }
  }

  /**
   The shape of the test template, `/v1/` then a `name=` placeholder whose
   pattern is a resource glob, then `/` and a `message_id` placeholder:
   a placeholder with a pattern is one piece, and the `/` between the
   placeholders stays literal.
   */
  lemma TemplateTokensExample(glob: string, id: string)
    requires '}' !in glob && PlainName(id)
    ensures Tokenize("/v1/" + ("{" + ("name=" + glob) + "}") + "/" + ("{" + id + "}"))
         == Lits("/v1/") + [Hole("name=" + glob), Lit('/'), Hole(id)]
  {
    var hole, last := "{" + ("name=" + glob) + "}", "{" + id + "}";
    NoCloseAfterName(glob);
    TwoPlaceholders("name=" + glob, id);
    TokenizeLits("/v1/", hole + ("/" + last));
    Assoc("/v1/" + hole, "/", last);
    Assoc("/v1/", hole, "/" + last);
  }

  /** A plain name is its own field path, and a single segment. */
  lemma PlainNameParts(k: string)
    requires PlainName(k)
    ensures ParameterName(k) == k
    ensures Split(k) == [k]
  {
    SplitSound(k);
  }

  /** The last placeholder of the test template takes its key and empties the mutated object. */
  lemma SubstituteLastExample(caller: Object, id: string, y: string)
    requires PlainName(id)
    ensures SubstitutePieces(Lits("/") + [Hole(id)], Some(Shared(caller, [Member(id, Str(y))])))
         == Ok(Substituted("/" + y, Some(Shared(caller, []))))
  {
    var s1 := Shared(caller, [Member(id, Str(y))]);
    PlainNameParts(id);
    assert ReadParameter(Some(s1), id) == Some(Str(y));
    assert UnsetShared(s1, [id]) == Shared(caller, []);
    PlaceholderOutcome(id, [], Some(s1));
    assert y + "" == y;
    SubstituteLits("/", [Hole(id)], Some(s1));
  }

  /** Only the text before `=` names the field. */
  lemma PatternNameExample(glob: string)
    ensures ParameterName("name=" + glob) == "name"
  {
    IndexOfUnique("name=" + glob, '=', 4);
  }

  /** Reading and consuming `name` from a fresh clone of the test message. */
  lemma ConsumeNameExample(id: string, x: string, y: string)
    requires id != "name"
    ensures var caller := [Member("name", Str(x)), Member(id, Str(y))];
      && ReadParameter(Some(ShallowClone(caller)), "name") == Some(Str(x))
      && UnsetShared(ShallowClone(caller), Split("name")) == Shared(caller, [Member(id, Str(y))])
  {
    var caller := [Member("name", Str(x)), Member(id, Str(y))];
    SplitSound("name");
    assert caller[1..] == [Member(id, Str(y))] && caller[1..][1..] == [];
    assert GetIn(caller, ["name"]) == Lookup(caller, "name") == Some(Str(x));
    assert Remove(caller[1..], "name") == caller[1..];
  }

  /** Both placeholders of the test template, in order. */
  lemma SubstituteNameExample(glob: string, id: string, x: string, y: string)
    requires PlainName(id) && id != "name"
    ensures SubstitutePieces([Hole("name=" + glob)] + (Lits("/") + [Hole(id)]),
              Some(ShallowClone([Member("name", Str(x)), Member(id, Str(y))])))
         == Ok(Substituted(x + ("/" + y), Some(Shared([Member("name", Str(x)), Member(id, Str(y))], []))))
  {
    var caller := [Member("name", Str(x)), Member(id, Str(y))];
    SubstituteLastExample(caller, id, y);
    ConsumeNameExample(id, x, y);
    PatternNameExample(glob);
    PlaceholderOutcome("name=" + glob, Lits("/") + [Hole(id)], Some(ShallowClone(caller)));
  }

  /**
   The test template end to end: the path gets both string values. The
   object the test passes directly is the `clone` component and ends up
   empty; under `createRequest` that component is the shallow clone, and
   the `caller` component, the caller's message, keeps both members.
   */
  lemma ReplaceExample(glob: string, id: string, x: string, y: string)
    requires '}' !in glob && PlainName(id) && id != "name"
    ensures ReplacePathParameters("/v1/" + ("{" + ("name=" + glob) + "}") + "/" + ("{" + id + "}"),
              Some(ShallowClone([Member("name", Str(x)), Member(id, Str(y))])))
         == Ok(Substituted("/v1/" + x + "/" + y, Some(Shared([Member("name", Str(x)), Member(id, Str(y))], []))))
  {
    var pattern := "name=" + glob;
    var s := ShallowClone([Member("name", Str(x)), Member(id, Str(y))]);
    TemplateTokensExample(glob, id);
    SubstituteNameExample(glob, id, x, y);
    assert Lits("/") == [Lit('/')];
    var tail := [Hole(pattern)] + (Lits("/") + [Hole(id)]);
    assert tail == [Hole(pattern), Lit('/'), Hole(id)];
    SubstituteLits("/v1/", tail, Some(s));
    Assoc("/v1/" + x, "/", y);
    Assoc("/v1/", x, "/" + y);
  }

  /** Literal text without `{` is kept as literal pieces. */
  lemma {:induction false} TokenizeLits(lit: string, text: string)
    requires '{' !in lit
    ensures Tokenize(lit + text) == Lits(lit) + Tokenize(text)
    decreases |lit|
  {
    if lit != [] {
      assert lit + text == [lit[0]] + (lit[1..] + text);
      TokenizeLit(lit[0], lit[1..] + text);
      TokenizeLits(lit[1..], text);
    } else {
      assert lit + text == text;
    }
  }

  /** A path without `{` substitutes to itself, whatever the message. */
  lemma LiteralPathSubstitutes(path: string, msg: Option<Shared>)
    requires '{' !in path
    ensures SubstitutePieces(Tokenize(path), msg) == Ok(Substituted(path, msg))
  {
    TokenizeLits(path, "");
    assert path + "" == path;
    SubstituteLits(path, [], msg);
  }

  /** The same field twice: the first placeholder consumes it, so the second finds it missing. */
  lemma RepeatedPlaceholderExample(k: string, x: string)
    requires PlainName(k)
    ensures ReplacePathParameters(("{" + k + "}") + "/" + ("{" + k + "}"), Some(ShallowClone([Member(k, Str(x))])))
         == Err(MissingPathParameter(k))
  {
    TwoPlaceholders(k, k);
    Assoc("{" + k + "}", "/", "{" + k + "}");
    var s := ShallowClone([Member(k, Str(x))]);
    PlainNameParts(k);
    assert ReadParameter(Some(s), k) == Some(Str(x));
    PlaceholderOutcome(k, [Lit('/'), Hole(k)], Some(s));
    var s1 := UnsetShared(s, [k]);
    assert s1.clone == [];
    assert [Lit('/'), Hole(k)][1..] == [Hole(k)];
    PlaceholderOutcome(k, [], Some(s1));
  }

  /** A number is not stringified into the path. */
  lemma NumberRejectedExample(k: string, n: int)
    requires PlainName(k)
    ensures ReplacePathParameters("{" + k + "}", Some(ShallowClone([Member(k, Num(n))])))
         == Err(PathParameterNotString(k, "number"))
  {
    TokenizeHole(k, "");
    assert "{" + k + "}" + "" == "{" + k + "}";
    PlainNameParts(k);
    PlaceholderOutcome(k, [], Some(ShallowClone([Member(k, Num(n))])));
  }
}
