/**
 The runtime's own request scenarios, stated over arbitrary field names and
 values of the same shape.
 */
module RequestExamples {
  import opened Results
  import opened Json
  import opened DottedPath
  import opened Aliasing
  import opened PathTemplate
  import opened BaseUrl
  import opened Request

  /** A two-segment field path splits into its two names. */
  lemma SplitPair(f: string, n: string)
    requires PlainName(f) && PlainName(n)
    ensures Split(f + "." + n) == [f, n]
    ensures ParameterName(f + "." + n) == f + "." + n
  {
    var segs := [f, n];
    assert segs[1..] == [n];
    assert Join(segs) == f + "." + n;
    SplitJoin(segs);
    var key := f + "." + n;
    assert '=' !in key by {
      forall i | 0 <= i < |key| ensures key[i] != '=' {
        if i < |f| { assert key[i] == f[i]; }
        else if i > |f| { assert key[i] == n[i - |f| - 1]; }
      }
    }
  }

  /** `{f.n}` in a template: one placeholder naming the nested field. */
  lemma NestedTemplateTokens(f: string, n: string)
    requires PlainName(f) && PlainName(n)
    ensures Tokenize("/v1/" + ("{" + (f + "." + n) + "}")) == Lits("/v1/") + [Hole(f + "." + n)]
  {
    var key := f + "." + n;
    assert '}' !in key by {
      forall i | 0 <= i < |key| ensures key[i] != '}' {
        if i < |f| { assert key[i] == f[i]; }
        else if i > |f| { assert key[i] == n[i - |f| - 1]; }
      }
    }
    TokenizeHole(key, "");
    assert "{" + key + "}" + "" == "{" + key + "}";
    TokenizeLits("/v1/", "{" + key + "}");
  }

  /** The message of the nested-path test, before and after the path parameter is consumed. */
  function FlipBefore(f: string, n: string, o: string, u: string, a: string, b: string, c: string): Object {
    [Member(f, Obj([Member(n, Str(a)), Member(o, Str(b))])), Member(u, Str(c))]
  }

  function FlipAfter(f: string, o: string, u: string, b: string, c: string): Object {
    [Member(f, Obj([Member(o, Str(b))])), Member(u, Str(c))]
  }

  /** Consuming `f.n` deletes the nested leaf from the clone and, through the shared child, from the caller's object. */
  lemma ConsumeNested(f: string, n: string, o: string, u: string, a: string, b: string, c: string)
    requires PlainName(f) && PlainName(n) && f != u && n != o
    ensures ReadParameter(Some(ShallowClone(FlipBefore(f, n, o, u, a, b, c))), f + "." + n) == Some(Str(a))
    ensures UnsetShared(ShallowClone(FlipBefore(f, n, o, u, a, b, c)), Split(f + "." + n))
         == Shared(FlipAfter(f, o, u, b, c), FlipAfter(f, o, u, b, c))
  {
    SplitPair(f, n);
    ReadNested(f, n, o, u, a, b, c);
    UnsetNested(f, n, o, u, a, b, c);
  }

  lemma ReadNested(f: string, n: string, o: string, u: string, a: string, b: string, c: string)
    requires n != o
    ensures GetIn(FlipBefore(f, n, o, u, a, b, c), [f, n]) == Some(Str(a))
  {
    var p := FlipBefore(f, n, o, u, a, b, c);
    var inner := [Member(n, Str(a)), Member(o, Str(b))];
    assert Lookup(p, f) == Some(Obj(inner));
    assert [f, n][1..] == [n];
  }

  lemma UnsetNested(f: string, n: string, o: string, u: string, a: string, b: string, c: string)
    requires f != u && n != o
    ensures UnsetIn(FlipBefore(f, n, o, u, a, b, c), [f, n]) == FlipAfter(f, o, u, b, c)
  {
    var p := FlipBefore(f, n, o, u, a, b, c);
    var inner := [Member(n, Str(a)), Member(o, Str(b))];
    assert Lookup(p, f) == Some(Obj(inner));
    assert [f, n][1..] == [n];
    assert Remove(inner, n) == [Member(o, Str(b))];
  }

  /** Path substitution in the nested-path test. */
  lemma FlipSubstitution(f: string, n: string, o: string, u: string, a: string, b: string, c: string)
    requires PlainName(f) && PlainName(n) && f != u && n != o
    ensures Substitution(Rpc(PATCH, "/v1/" + ("{" + (f + "." + n) + "}"), Some(f)), Some(FlipBefore(f, n, o, u, a, b, c)))
         == Ok(Substituted("/v1/" + a, Some(Shared(FlipAfter(f, o, u, b, c), FlipAfter(f, o, u, b, c)))))
  {
    var key := f + "." + n;
    NestedTemplateTokens(f, n);
    var s := ShallowClone(FlipBefore(f, n, o, u, a, b, c));
    SubstituteLits("/v1/", [Hole(key)], Some(s));
    FlipPlaceholder(f, n, o, u, a, b, c);
  }

  /** The placeholder alone: its string, and the message without the leaf. */
  lemma FlipPlaceholder(f: string, n: string, o: string, u: string, a: string, b: string, c: string)
    requires PlainName(f) && PlainName(n) && f != u && n != o
    ensures SubstitutePieces([Hole(f + "." + n)], Some(ShallowClone(FlipBefore(f, n, o, u, a, b, c))))
         == Ok(Substituted(a, Some(Shared(FlipAfter(f, o, u, b, c), FlipAfter(f, o, u, b, c)))))
  {
    var key := f + "." + n;
    ConsumeNested(f, n, o, u, a, b, c);
    SplitPair(f, n);
    var s := ShallowClone(FlipBefore(f, n, o, u, a, b, c));
    var after := FlipAfter(f, o, u, b, c);
    PlaceholderOutcome(key, [], Some(s));
    assert SubstitutePieces([], Some(Shared(after, after))) == Ok(Substituted("", Some(Shared(after, after))));
    assert a + "" == a;
  }

  /** The body is the caller's `f` object, already without the consumed leaf; only `u` is left for the query. */
  lemma FlipPartition(rpc: Rpc, f: string, o: string, u: string, b: string, c: string)
    requires PlainName(f) && f != u && rpc.verb == PATCH && rpc.bodyKey == Some(f)
    ensures Partition(rpc, Some(Shared(FlipAfter(f, o, u, b, c), FlipAfter(f, o, u, b, c))))
         == Parts(Some(Obj([Member(o, Str(b))])), Some([Member(u, Str(c))]), Some(FlipAfter(f, o, u, b, c)))
  {
    SplitSound(f);
    var after := FlipAfter(f, o, u, b, c);
    assert Remove(after, f) == [Member(u, Str(c))];
  }

  /** The leading slash of the test path goes before the join. */
  lemma DropV1Slash(a: string)
    ensures RemoveLeadingSlash("/v1/" + a) == "v1/" + a
  {
    assert "/v1/" + a == "/" + ("v1/" + a);
    assert ("/" + ("v1/" + a))[1..] == "v1/" + a;
  }

  /** `createRequest` assembled from its substitution and its partition. */
  lemma Assemble(rpc: Rpc, config: RequestConfig, params: Option<Object>, sub: Substituted, parts: Parts)
    requires Substitution(rpc, params) == Ok(sub) && Partition(rpc, sub.message) == parts
    ensures CreateRequest(rpc, config, params)
         == Ok(Created(
              HttpRequest(
                if Truthy(config.basePath) then Joined(AddTrailingSlash(config.basePath.value) + RemoveLeadingSlash(sub.path))
                else PageRelative(sub.path),
                if parts.rest.Some? then QueryEntries(parts.rest.value) else [],
                rpc.verb, parts.body, Headers(parts.body, ResolveToken(config.bearerToken))),
              parts.caller))
  {
  }

  /**
   The nested-path test: `PATCH /v1/{f.n}` with body key `f` against a
   base without a trailing slash. The path takes the nested string, the
   body is `f` without the consumed leaf, the query keeps the scalar `u`,
   and the caller's own `f` has lost the leaf too.
   */
  lemma DistributeExample(base: string, f: string, n: string, o: string, u: string, a: string, b: string, c: string)
    requires PlainName(f) && PlainName(n) && f != u && n != o
    requires |base| > 0 && base[|base| - 1] != '/'
    ensures CreateRequest(Rpc(PATCH, "/v1/" + ("{" + (f + "." + n) + "}"), Some(f)),
                          RequestConfig(Some(base), NoToken),
                          Some(FlipBefore(f, n, o, u, a, b, c)))
         == Ok(Created(
              HttpRequest(Joined(base + "/" + ("v1/" + a)), [Member(u, Str(c))], PATCH,
                          Some(Obj([Member(o, Str(b))])), [Header(ContentType, JsonContentType)]),
              Some(FlipAfter(f, o, u, b, c))))
  {
    var rpc := Rpc(PATCH, "/v1/" + ("{" + (f + "." + n) + "}"), Some(f));
    var after := FlipAfter(f, o, u, b, c);
    var sub := Substituted("/v1/" + a, Some(Shared(after, after)));
    var parts := Parts(Some(Obj([Member(o, Str(b))])), Some([Member(u, Str(c))]), Some(after));
    FlipSubstitution(f, n, o, u, a, b, c);
    FlipPartition(rpc, f, o, u, b, c);
    Assemble(rpc, RequestConfig(Some(base), NoToken), Some(FlipBefore(f, n, o, u, a, b, c)), sub, parts);
    DropV1Slash(a);
    assert QueryEntries([Member(u, Str(c))]) == [Member(u, Str(c))];
    assert Headers(Some(Obj([Member(o, Str(b))])), None) == [Header(ContentType, JsonContentType)];
  }

  /**
   The token and base-path tests: a `GET` of a literal path without a
   message, against a base with a path of its own. The base keeps its last
   segment, and a truthy token, given as a string or as a function, becomes
   the only header.
   */
  lemma TokenAndBaseExample(base: string, rest: string, token: BearerToken)
    requires '{' !in rest && (rest == [] || rest[0] != '/')
    requires |base| > 0 && base[|base| - 1] != '/'
    requires Truthy(ResolveToken(token))
    ensures CreateRequest(Rpc(GET, "/" + rest, None), RequestConfig(Some(base), token), None)
         == Ok(Created(
              HttpRequest(Joined(base + "/" + rest), [], GET, None,
                          [Header(Authorization, "Bearer " + ResolveToken(token).value)]),
              None))
  {
    var rpc := Rpc(GET, "/" + rest, None);
    assert '{' !in "/" + rest;
    LiteralPathSubstitutes("/" + rest, None);
    assert ("/" + rest)[1..] == rest;
    assert RemoveLeadingSlash("/" + rest) == rest;
  }
}
