/**
 `RPC.createRequest`: how one call's parameters are split between the URL
 path, the JSON body and the query string, and which headers go with them.
 The host's `URL`, `Headers` and `Request` objects are replaced by plain
 data; the body is the value `JSON.stringify` would be given.
 */
module Request {
  import opened Results
  import opened Json
  import opened DottedPath
  import opened Aliasing
  import opened PathTemplate
  import opened BaseUrl

  /** The HttpRule verbs the runtime supports (the custom verb is not among them). */
  datatype HttpMethod = DELETE | GET | PATCH | POST | PUT

  /** `new RPC(method, path, bodyKey)`: the three fields, stored as given. */
  datatype Rpc = Rpc(verb: HttpMethod, path: string, bodyKey: Option<string>)

  /** `bearerToken?: string | (() => string)`. */
  datatype BearerToken = NoToken | Token(value: string) | TokenProvider(call: () -> string)

  /** `RequestConfig`: an optional base path and an optional bearer token. */
  datatype RequestConfig = RequestConfig(basePath: Option<string>, bearerToken: BearerToken)

  /**
   Where the request goes: with a base path, the base and the path joined as
   text; without one, the path resolved against the page's own address,
   which only the host knows.
   */
  datatype Target = Joined(href: string) | PageRelative(path: string)

  datatype Header = Header(name: string, value: string)

  /** What `new Request(url.href, { body, method, headers })` is built from. */
  datatype HttpRequest = HttpRequest(
    target: Target,
    query: seq<Member>,
    verb: HttpMethod,
    body: Option<Value>,
    headers: seq<Header>)

  /** A created request, and the caller's message as the call leaves it (absent when none was given). */
  datatype Created = Created(request: HttpRequest, params: Option<Object>)

  const ContentType: string := "Content-Type"
  const JsonContentType: string := "application/json; charset=utf-8"
  const Authorization: string := "Authorization"

  /** JavaScript truthiness of an optional string: present and not empty. */
  predicate Truthy(s: Option<string>) {
    s.Some? && s.value != ""
  }

  /** The token as a string: a function is called, a string is used as it is. */
  function ResolveToken(t: BearerToken): (r: Option<string>)
    ensures r.None? <==> t.NoToken?
    ensures t.Token? ==> r == Some(t.value)
    ensures t.TokenProvider? ==> r == Some(t.call())
  {
    match t
    case NoToken => None
    case Token(s) => Some(s)
    case TokenProvider(f) => Some(f())
  }

  /** `headers.get(name)`: the value of the first header with that name. */
  function HeaderValue(hs: seq<Header>, name: string): Option<string> {
    if hs == [] then None
    else if hs[0].name == name then Some(hs[0].value)
    else HeaderValue(hs[1..], name)
  }

  /** The headers: a JSON content type exactly when there is a body, a bearer authorisation exactly when the token is truthy. */
  function Headers(body: Option<Value>, token: Option<string>): (hs: seq<Header>)
    ensures HeaderValue(hs, ContentType) == if body.Some? then Some(JsonContentType) else None
    ensures HeaderValue(hs, Authorization) == if Truthy(token) then Some("Bearer " + token.value) else None
    ensures forall h | h in hs :: h.name == ContentType || h.name == Authorization
  {
    var auth := if Truthy(token) then [Header(Authorization, "Bearer " + token.value)] else [];
    if body.Some? then
      assert ([Header(ContentType, JsonContentType)] + auth)[1..] == auth;
      [Header(ContentType, JsonContentType)] + auth
    else auth
  }

  /** The query entries of the remaining clone: its scalar members. */
  function QueryEntries(o: Object): (q: seq<Member>)
    ensures forall m :: m in q <==> m in o && IsScalar(m.value)
    ensures |q| <= |o|
  {
    if o == [] then []
    else (if IsScalar(o[0].value) then [o[0]] else []) + QueryEntries(o[1..])
  }

  /** How the message is split after path substitution: the body, what is left for the query, and the caller's message. */
  datatype Parts = Parts(body: Option<Value>, rest: Option<Object>, caller: Option<Object>)

  /**
   Any method but `GET`, given a message, sends a body. With a truthy body
   key the body is that field of the caller's message and the field is
   deleted from the clone; without one the body is the whole caller's
   message and nothing is left for the query.
   */
  function Partition(rpc: Rpc, msg: Option<Shared>): (p: Parts)
    ensures p.caller.Some? <==> msg.Some?
    ensures msg.Some? ==> Keys(p.caller.value) == Keys(msg.value.caller)
    ensures p.body.Some? ==> msg.Some? && rpc.verb != GET
  {
    if msg.Some? && rpc.verb != GET then
      if Truthy(rpc.bodyKey) then
        var s := UnsetShared(msg.value, Split(rpc.bodyKey.value));
        Parts(Get(msg.value.caller, rpc.bodyKey.value), Some(s.clone), Some(s.caller))
      else
        Parts(Some(Obj(msg.value.caller)), None, Some(msg.value.caller))
    else if msg.Some? then
      Parts(None, Some(msg.value.clone), Some(msg.value.caller))
    else
      Parts(None, None, None)
  }

  /** The first step of `createRequest`: path substitution on a shallow clone of the message. */
  function Substitution(rpc: Rpc, params: Option<Object>): (r: Result<Substituted, PathError>)
    ensures r.Ok? ==> (r.value.message.Some? <==> params.Some?)
    ensures r.Ok? && params.Some? ==> Keys(r.value.message.value.caller) == Keys(params.value)
    ensures r.Ok? && params.Some? ==> Aliased(r.value.message.value)
  {
    ReplacePathParameters(rpc.path, if params.Some? then Some(ShallowClone(params.value)) else None)
  }

  /** `rpc.createRequest(config, params)`. The only failure modelled is a path parameter that cannot be substituted. */
  function CreateRequest(rpc: Rpc, config: RequestConfig, params: Option<Object>): (r: Result<Created, PathError>)
    ensures r.Ok? ==> r.value.request.verb == rpc.verb
    ensures r.Ok? ==> (r.value.params.Some? <==> params.Some?)
  {
    var sub := Substitution(rpc, params);
    if sub.Err? then Err(sub.error)
    else
      var target :=
        if Truthy(config.basePath) then Joined(AddTrailingSlash(config.basePath.value) + RemoveLeadingSlash(sub.value.path))
        else PageRelative(sub.value.path);
      var parts := Partition(rpc, sub.value.message);
      var query := if parts.rest.Some? then QueryEntries(parts.rest.value) else [];
      var headers := Headers(parts.body, ResolveToken(config.bearerToken));
      Ok(Created(HttpRequest(target, query, rpc.verb, parts.body, headers), parts.caller))
  }

  /** Without a message, a call fails exactly when its template has a placeholder, naming the first one. */
  lemma NoParamsNeedsNoPlaceholder(rpc: Rpc, config: RequestConfig)
    ensures var ns := HoleNames(Tokenize(rpc.path));
            var r := CreateRequest(rpc, config, None);
            && (r.Err? <==> ns != [])
            && (r.Err? ==> r.error == MissingPathParameter(ns[0]))
  {
    NoMessage(Tokenize(rpc.path));
  }

  /** The content type goes with the body, the authorisation with a truthy token, whatever the method. */
  lemma HeaderRules(rpc: Rpc, config: RequestConfig, params: Option<Object>)
    requires CreateRequest(rpc, config, params).Ok?
    ensures var q := CreateRequest(rpc, config, params).value.request;
            var t := ResolveToken(config.bearerToken);
            && (HeaderValue(q.headers, ContentType).Some? <==> q.body.Some?)
            && (HeaderValue(q.headers, Authorization).Some? <==> Truthy(t))
            && (Truthy(t) ==> HeaderValue(q.headers, Authorization) == Some("Bearer " + t.value))
  {
  }

  /** No placeholder path starts at the top-level key `k`. */
  predicate Unreached(ns: seq<string>, k: string) {
    forall n | n in ns :: Split(n)[0] != k
  }

  /**
   Proof helper: the body in terms of the caller's message as path
   substitution leaves it.
   */
  lemma BodyFromSubstitution(rpc: Rpc, config: RequestConfig, params: Option<Object>)
    requires CreateRequest(rpc, config, params).Ok?
    ensures var c := CreateRequest(rpc, config, params).value;
            var after := Substitution(rpc, params).value.message;
            && (rpc.verb == GET || params.None? ==> c.request.body.None?)
            && (rpc.verb != GET && params.Some? && !Truthy(rpc.bodyKey) ==>
                  c.request.body == Some(Obj(after.value.caller)) && c.request.query == [] &&
                  c.params == Some(after.value.caller))
            && (rpc.verb != GET && params.Some? && Truthy(rpc.bodyKey) ==>
                  c.request.body == Get(after.value.caller, rpc.bodyKey.value))
  {
  }

  /**
   The body against the message the caller passed in. `GET` and a missing
   message never send one. With no body key the body is an object with
   exactly the message's top-level keys, every member that no placeholder
   reaches is sent as it was, and there is no query. With a body key whose
   path is apart from every placeholder path, the body is the value the
   caller's message holds at that path.
   */
  lemma BodyRules(rpc: Rpc, config: RequestConfig, params: Option<Object>)
    requires CreateRequest(rpc, config, params).Ok?
    ensures var c := CreateRequest(rpc, config, params).value;
            var ns := HoleNames(Tokenize(rpc.path));
            && (rpc.verb == GET || params.None? ==> c.request.body.None?)
            && (rpc.verb != GET && params.Some? && !Truthy(rpc.bodyKey) ==>
                  && c.request.body.Some? && c.request.body.value.Obj?
                  && Keys(c.request.body.value.members) == Keys(params.value)
                  && c.request.query == []
                  && (forall k | Unreached(ns, k) ::
                        Lookup(c.request.body.value.members, k) == Lookup(params.value, k)))
            && (rpc.verb != GET && params.Some? && Truthy(rpc.bodyKey) &&
                (forall n | n in ns :: Apart(Split(n), Split(rpc.bodyKey.value))) ==>
                  c.request.body == Get(params.value, rpc.bodyKey.value))
  {
    BodyFromSubstitution(rpc, config, params);
    if params.Some? && rpc.verb != GET {
      var ps := Tokenize(rpc.path);
      var s := ShallowClone(params.value);
      if !Truthy(rpc.bodyKey) {
        var after := SubstitutePieces(ps, Some(s)).value.message.value.caller;
        assert CreateRequest(rpc, config, params).value.request.body == Some(Obj(after));
        forall k | Unreached(HoleNames(ps), k) ensures Lookup(after, k) == Lookup(params.value, k) {
          UntouchedKeysKept(ps, s, k);
        }
      } else if forall n | n in HoleNames(ps) :: Apart(Split(n), Split(rpc.bodyKey.value)) {
        SubstituteFrame(ps, s, Split(rpc.bodyKey.value));
      }
    }
  }

  /**
   With a base path the request address starts with the whole base text,
   and the composed text is the merge of the substituted path into the
   slash-terminated base, the base read as the URL `u`. That is the host's
   resolution only when the path is a scheme-free relative reference.
   */
  lemma BaseKept(rpc: Rpc, config: RequestConfig, params: Option<Object>, u: Url)
    requires CreateRequest(rpc, config, params).Ok? && Truthy(config.basePath)
    requires ValidUrl(u) && Href(u) == config.basePath.value
    ensures var t := CreateRequest(rpc, config, params).value.request.target;
            var p := Substitution(rpc, params).value.path;
            && t.Joined?
            && config.basePath.value <= t.href
            && t.href == Href(MergeRelative(Url(u.origin, AddTrailingSlash(u.path)), RemoveLeadingSlash(p)))
  {
    var base := config.basePath.value;
    var p := Substitution(rpc, params).value.path;
    JoinKeepsBase(u, p);
    PrefixOfJoin(base, AddTrailingSlash(base), RemoveLeadingSlash(p));
  }

  /** Proof helper: a string is a prefix of itself, or of itself plus `/`, followed by anything. */
  lemma PrefixOfJoin(a: string, b: string, c: string)
    requires b == a || b == a + "/"
    ensures a <= b + c
  {
    assert (b + c)[..|a|] == a;
  }

  /** The caller keeps every top-level key: the clone is what loses them. */
  lemma CallerKeysKept(rpc: Rpc, config: RequestConfig, params: Option<Object>)
    requires CreateRequest(rpc, config, params).Ok? && params.Some?
    ensures Keys(CreateRequest(rpc, config, params).value.params.value) == Keys(params.value)
  {
  }

  /** The members left for the query, before the scalar filter. */
  function QueryCandidates(rpc: Rpc, params: Option<Object>): Object
    requires Substitution(rpc, params).Ok?
  {
    var parts := Partition(rpc, Substitution(rpc, params).value.message);
    if parts.rest.Some? then parts.rest.value else []
  }

  /** A member's key is among the object's keys. */
  lemma MemberKey(m: Member, o: Object)
    requires m in o
    ensures m.key in Keys(o)
  {
    var i :| 0 <= i < |o| && o[i] == m;
    assert Keys(o)[i] == m.key;
  }

  /** What is left for the query holds only keys of the clone, and not a top-level body key. */
  lemma PartitionRest(rpc: Rpc, s: Shared)
    ensures var p := Partition(rpc, Some(s));
            && (p.rest.Some? ==> forall k | k in Keys(p.rest.value) :: k in Keys(s.clone))
            && (p.rest.Some? && rpc.verb != GET && Truthy(rpc.bodyKey) && '.' !in rpc.bodyKey.value ==>
                  rpc.bodyKey.value !in Keys(p.rest.value))
  {
    var p := Partition(rpc, Some(s));
    if rpc.verb != GET && Truthy(rpc.bodyKey) {
      var key := rpc.bodyKey.value;
      var segs := Split(key);
      var r := UnsetIn(s.clone, segs);
      assert p.rest == Some(r);
      if |segs| == 1 {
        forall k | k in Keys(r) ensures k in Keys(s.clone) {
          var i :| 0 <= i < |r| && Keys(r)[i] == k;
          assert r[i] in r;
          MemberKey(r[i], s.clone);
        }
      }
      if '.' !in key {
        SplitSound(key);
        assert Lookup(r, key).None?;
      }
    }
  }

  /**
   Query entries are scalar members of the clone; a top-level path
   parameter never appears among them, nor does a top-level body key when
   a body is sent.
   */
  lemma QueryExcludesConsumed(rpc: Rpc, config: RequestConfig, params: Option<Object>)
    requires CreateRequest(rpc, config, params).Ok?
    ensures var q := CreateRequest(rpc, config, params).value.request.query;
            && (forall m | m in q :: IsScalar(m.value))
            && (forall m, n | m in q && n in HoleNames(Tokenize(rpc.path)) && '.' !in n :: m.key != n)
            && (rpc.verb != GET && Truthy(rpc.bodyKey) && '.' !in rpc.bodyKey.value ==>
                  forall m | m in q :: m.key != rpc.bodyKey.value)
  {
    var q := CreateRequest(rpc, config, params).value.request.query;
    if params.Some? {
      var sub := Substitution(rpc, params).value.message.value;
      var rest := QueryCandidates(rpc, params);
      ConsumedKeysAbsent(Tokenize(rpc.path), ShallowClone(params.value));
      PartitionRest(rpc, sub);
      assert q == QueryEntries(rest);
      forall m | m in q ensures m.key in Keys(rest) {
        MemberKey(m, rest);
      }
    }
  }

  /**
   The converse: when a body key leaves the rest of the message to the query
   (or the method is `GET`), a scalar top-level member that neither a
   placeholder nor the body key reaches is sent as a query entry.
   */
  lemma QueryKeepsUntouched(rpc: Rpc, config: RequestConfig, params: Option<Object>, k: string, v: Value)
    requires CreateRequest(rpc, config, params).Ok? && params.Some?
    requires rpc.verb == GET || Truthy(rpc.bodyKey)
    requires Lookup(params.value, k) == Some(v) && IsScalar(v)
    requires Unreached(HoleNames(Tokenize(rpc.path)), k)
    requires rpc.verb != GET ==> Split(rpc.bodyKey.value)[0] != k
    ensures Member(k, v) in CreateRequest(rpc, config, params).value.request.query
  {
    UntouchedKeysKept(Tokenize(rpc.path), ShallowClone(params.value), k);
    var rest := QueryCandidates(rpc, params);
    assert Lookup(rest, k) == Some(v);
  }
}
