/**
 How the generator resolves each service method into the `RPC` it emits:
 the verb and path come from the method's `google.api.http` rule when its
 pattern names a path, and otherwise default to a `POST` to
 `/package.Service/Method`; the body key comes from the rule's `body`
 unless that is empty or `*`.
 */
module ServiceRoutes {
  import opened Results
  import opened Json
  import opened Aliasing
  import opened PathTemplate
  import opened CamelCase
  import opened LocalPath
  import opened Request

  /**
   The `pattern` oneof of an HttpRule. A simple pattern is named by its
   case (`get`, `put`, `post`, `delete`, `patch`), carried here as the verb
   that case name upper-cases to; `Custom` carries a `CustomHttpPattern`.
   */
  datatype HttpPattern =
    | NoPattern
    | Simple(verb: HttpMethod, template: string)
    | Custom(kind: string, template: string)

  datatype HttpRule = HttpRule(pattern: HttpPattern, body: string)

  /** A custom pattern's value is a message, not a string, and rewriting its path placeholders throws. */
  datatype GenError = CustomPatternUnsupported(kind: string)

  /** The oneof case name of a simple pattern. */
  function CaseName(m: HttpMethod): string {
    match m
    case DELETE => "delete"
    case GET => "get"
    case PATCH => "patch"
    case POST => "post"
    case PUT => "put"
  }

  /** The verb as the runtime's `HttpMethod` spells it. */
  function MethodName(m: HttpMethod): string {
    match m
    case DELETE => "DELETE"
    case GET => "GET"
    case PATCH => "PATCH"
    case POST => "POST"
    case PUT => "PUT"
  }

  /** `s.toUpperCase()` on ASCII text. */
  function Upper(s: string): (u: string)
    ensures |u| == |s|
    ensures forall i | 0 <= i < |s| :: u[i] == ToUpper(s[i])
  {
    if s == [] then [] else [ToUpper(s[0])] + Upper(s[1..])
  }

  /** Upper-casing a case name gives the verb the runtime expects, for every verb. */
  lemma CaseNameUpperCased(m: HttpMethod)
    ensures Upper(CaseName(m)) == MethodName(m)
  {
    assert ToUpper('d') == 'D' && ToUpper('e') == 'E' && ToUpper('l') == 'L' && ToUpper('t') == 'T';
    assert ToUpper('g') == 'G' && ToUpper('p') == 'P' && ToUpper('a') == 'A' && ToUpper('c') == 'C';
    assert ToUpper('h') == 'H' && ToUpper('o') == 'O' && ToUpper('s') == 'S' && ToUpper('u') == 'U';
  }

  /** A template literal prints a missing package as `undefined`. */
  function PackageText(pkg: Option<string>): string {
    if pkg.Some? then pkg.value else "undefined"
  }

  /** `/${filePackage}.${service.name}/${method.name}`: the default route. */
  function DefaultPath(pkg: Option<string>, service: string, methodName: string): string {
    "/" + PackageText(pkg) + "." + service + "/" + methodName
  }

  /** The rule names a route of its own: a simple pattern whose path is not empty. */
  predicate HasRoute(rule: Option<HttpRule>) {
    rule.Some? && rule.value.pattern.Simple? && rule.value.pattern.template != ""
  }

  /** The rule's `body` names a single field: not empty and not `*`. */
  predicate NamesBodyField(rule: Option<HttpRule>) {
    rule.Some? && rule.value.body != "" && rule.value.body != "*"
  }

  /**
   The method, path and body key `generateService` emits for one method,
   with the rule's `body` copied as it is written in the proto file.
   */
  function ResolveRpc(pkg: Option<string>, service: string, methodName: string, rule: Option<HttpRule>): (r: Result<Rpc, GenError>)
    ensures r.Err? <==> rule.Some? && rule.value.pattern.Custom?
    ensures r.Ok? && HasRoute(rule) ==>
              r.value.verb == rule.value.pattern.verb && r.value.path == ToLocal(rule.value.pattern.template)
    ensures r.Ok? && !HasRoute(rule) ==> r.value.verb == POST && r.value.path == DefaultPath(pkg, service, methodName)
    ensures r.Ok? ==> (r.value.bodyKey.Some? <==> NamesBodyField(rule))
    ensures r.Ok? && r.value.bodyKey.Some? ==> r.value.bodyKey.value == rule.value.body
  {
    if rule.Some? && rule.value.pattern.Custom? then Err(CustomPatternUnsupported(rule.value.pattern.kind))
    else
      var bodyKey := if NamesBodyField(rule) then Some(rule.value.body) else None;
      if HasRoute(rule) then Ok(Rpc(rule.value.pattern.verb, ToLocal(rule.value.pattern.template), bodyKey))
      else Ok(Rpc(POST, DefaultPath(pkg, service, methodName), bodyKey))
  }

  /**
   The same resolution with the body key brought into the message's local
   (camel-case) field names, as the path placeholders already are.
   */
  function ResolveRpcLocal(pkg: Option<string>, service: string, methodName: string, rule: Option<HttpRule>): (r: Result<Rpc, GenError>)
    ensures r.Err? <==> ResolveRpc(pkg, service, methodName, rule).Err?
    ensures r.Ok? ==> var w := ResolveRpc(pkg, service, methodName, rule).value;
                      && r.value.verb == w.verb && r.value.path == w.path
                      && (r.value.bodyKey.Some? <==> w.bodyKey.Some?)
                      && (r.value.bodyKey.Some? ==> r.value.bodyKey.value == Camel(w.bodyKey.value))
  {
    var r := ResolveRpc(pkg, service, methodName, rule);
    if r.Err? || r.value.bodyKey.None? then r
    else Ok(Rpc(r.value.verb, r.value.path, Some(Camel(r.value.bodyKey.value))))
  }

  /** A resolved path is already in local form: rewriting it again changes nothing. */
  lemma ResolvedPathIsLocal(pkg: Option<string>, service: string, methodName: string, rule: Option<HttpRule>)
    requires ResolveRpc(pkg, service, methodName, rule).Ok?
    requires '{' !in DefaultPath(pkg, service, methodName)
    ensures var p := ResolveRpc(pkg, service, methodName, rule).value.path;
            ToLocal(p) == p
  {
    if HasRoute(rule) {
      ToLocalIdempotent(rule.value.pattern.template);
    } else {
      NoPlaceholderUnchanged(DefaultPath(pkg, service, methodName));
    }
  }

  /**
   A method without a rule is a `POST` to the default route carrying the
   whole message as its body and nothing in the query, and the request can
   always be built.
   */
  lemma DefaultRouteSendsWholeMessage(pkg: Option<string>, service: string, methodName: string,
                                      config: RequestConfig, params: Object)
    requires '{' !in PackageText(pkg) && '{' !in service && '{' !in methodName
    ensures ResolveRpc(pkg, service, methodName, None).Ok?
    ensures var c := CreateRequest(ResolveRpc(pkg, service, methodName, None).value, config, Some(params));
            && c.Ok? && c.value.request.verb == POST
            && c.value.request.body == Some(Obj(params)) && c.value.request.query == []
            && c.value.params == Some(params)
  {
    var rpc := ResolveRpc(pkg, service, methodName, None).value;
    assert '{' !in rpc.path;
    LiteralPathSubstitutes(rpc.path, Some(ShallowClone(params)));
    BodyFromSubstitution(rpc, config, Some(params));
  }

  /**
   A body key without `.` that is not a top-level field of the message
   sends no body at all: the field lookup comes back `undefined`.
   */
  lemma AbsentBodyKeySendsNothing(rpc: Rpc, config: RequestConfig, params: Object)
    requires rpc.verb != GET && Truthy(rpc.bodyKey) && '.' !in rpc.bodyKey.value
    requires rpc.bodyKey.value !in Keys(params)
    requires CreateRequest(rpc, config, Some(params)).Ok?
    ensures CreateRequest(rpc, config, Some(params)).value.request.body.None?
  {
    BodyFromSubstitution(rpc, config, Some(params));
  }

  /** The rule of the finding: a `PATCH` to a literal path whose body field has a two-word proto name. */
  function SnakeBodyRule(): HttpRule {
    HttpRule(Simple(PATCH, "/v1/flips"), "flip_flap")
  }

  /**
   As written: the message has the field, under its local name `flipFlap`,
   yet the resolved `RPC` looks for `flip_flap` and the request goes out
   without a body.
   */
  lemma SnakeBodyFieldDropped(pkg: Option<string>, service: string, methodName: string, config: RequestConfig, v: Value)
    ensures var r := ResolveRpc(pkg, service, methodName, Some(SnakeBodyRule()));
            && r.Ok? && r.value.bodyKey == Some("flip_flap")
            && var c := CreateRequest(r.value, config, Some([Member("flipFlap", v)]));
               c.Ok? && c.value.request.body.None?
  {
    SnakeRuleResolves(pkg, service, methodName);
    SnakeRuleText();
    OtherFieldNoBody("/v1/flips", "flip_flap", "flipFlap", config, v);
  }

  /** A literal route whose body key misses the message's only field sends no body. */
  lemma OtherFieldNoBody(path: string, key: string, field: string, config: RequestConfig, v: Value)
    requires '{' !in path && key != [] && '.' !in key && key != field
    ensures var c := CreateRequest(Rpc(PATCH, path, Some(key)), config, Some([Member(field, v)]));
            c.Ok? && c.value.request.body.None?
  {
    var params := [Member(field, v)];
    LiteralPathSubstitutes(path, Some(ShallowClone(params)));
    assert Keys(params) == [field];
    AbsentBodyKeySendsNothing(Rpc(PATCH, path, Some(key)), config, params);
  }

  lemma SnakeRuleResolves(pkg: Option<string>, service: string, methodName: string)
    ensures ResolveRpc(pkg, service, methodName, Some(SnakeBodyRule())) == Ok(Rpc(PATCH, "/v1/flips", Some("flip_flap")))
    ensures ResolveRpcLocal(pkg, service, methodName, Some(SnakeBodyRule())) == Ok(Rpc(PATCH, "/v1/flips", Some("flipFlap")))
    ensures '{' !in "/v1/flips" && '.' !in "flip_flap"
  {
    SnakeRuleText();
    NoPlaceholderUnchanged("/v1/flips");
    assert ResolveRpc(pkg, service, methodName, Some(SnakeBodyRule())) == Ok(Rpc(PATCH, "/v1/flips", Some("flip_flap")));
    FlipFlapExample();
  }

  lemma SnakeRuleText()
    ensures '{' !in "/v1/flips" && '.' !in "flip_flap"
    ensures "/v1/flips" != "" && "flip_flap" != "" && "flip_flap" != "*"
    ensures "flipFlap" != [] && '.' !in "flipFlap" && "flip_flap" != "flipFlap"
  {
  }

  /** With the body key in local form the same message's field becomes the body. */
  lemma SnakeBodyFieldSentWhenLocal(pkg: Option<string>, service: string, methodName: string, config: RequestConfig, v: Value)
    ensures var r := ResolveRpcLocal(pkg, service, methodName, Some(SnakeBodyRule()));
            && r.Ok?
            && var c := CreateRequest(r.value, config, Some([Member("flipFlap", v)]));
               c.Ok? && c.value.request.body == Some(v)
  {
    SnakeRuleResolves(pkg, service, methodName);
    SnakeRuleText();
    SingleFieldBody("/v1/flips", "flipFlap", config, v);
  }

  /** A literal route whose body key names the message's only field sends that field as the body. */
  lemma SingleFieldBody(path: string, key: string, config: RequestConfig, v: Value)
    requires '{' !in path && key != [] && '.' !in key
    ensures var c := CreateRequest(Rpc(PATCH, path, Some(key)), config, Some([Member(key, v)]));
            c.Ok? && c.value.request.body == Some(v)
  {
    var params := [Member(key, v)];
    LiteralPathSubstitutes(path, Some(ShallowClone(params)));
    BodyFromSubstitution(Rpc(PATCH, path, Some(key)), config, Some(params));
  }

  /** The non-`GET` test: a `patch` rule with a snake-case placeholder and a `=pattern` suffix. */
  lemma PatchRouteExample(pkg: Option<string>)
    ensures ResolveRpc(pkg, "AllHttpMethodsService", "PatchMethod",
                       Some(HttpRule(Simple(PATCH, "/v1/" + ("{" + "name_test" + "=projects/*/documents/*}")), "")))
         == Ok(Rpc(PATCH, "/v1/" + ("{" + "nameTest" + "=projects/*/documents/*}"), None))
  {
    PatchRouteNames();
    ToLocalPrefix("/v1/", "{" + "name_test" + "=projects/*/documents/*}");
    ToLocalName("name_test", "=projects/*/documents/*}");
    NameTestCamel();
    NoPlaceholderUnchanged("=projects/*/documents/*}");
  }

  lemma PatchRouteNames()
    ensures '{' !in "/v1/" && '{' !in "=projects/*/documents/*}"
    ensures IsName("name_test") && StopsName("=projects/*/documents/*}")
  {
  }

  lemma NameTestCamel()
    ensures Camel("name_test") == "nameTest"
  {
    SnakePair("name", "test");
    NameTestPieces();
  }

  lemma NameTestPieces()
    ensures "name" + "_" + "test" == "name_test"
    ensures "test"[0] == 't' && "test"[1..] == "est" && "name" + OutChar('t', true) + "est" == "nameTest"
  {
    assert OutChar('t', true) == "T";
  }

  /** The field-mask test: the body names the field `flip`, so it is emitted as the body key. */
  lemma FieldMaskRouteExample(pkg: Option<string>)
    ensures ResolveRpc(pkg, "FieldMaskService", "UpdateMethod", Some(HttpRule(Simple(PATCH, "/v1/{flip.name}"), "flip")))
         == Ok(Rpc(PATCH, "/v1/{flip.name}", Some("flip")))
  {
    FlipNameHasNoUnderscore();
    NoUnderscoreUnchanged("/v1/{flip.name}");
  }

  lemma FlipNameHasNoUnderscore()
    ensures '_' !in "/v1/{flip.name}"
  {
  }

  /** A `*` body sends the whole message: no body key is emitted. */
  lemma StarBodyExample(pkg: Option<string>, path: string)
    requires path != "" && '_' !in path
    ensures ResolveRpc(pkg, "S", "M", Some(HttpRule(Simple(POST, path), "*"))) == Ok(Rpc(POST, path, None))
  {
    NoUnderscoreUnchanged(path);
  }

  /** Without a rule, and with a rule whose pattern is empty, the default route is used. */
  lemma DefaultRouteExample()
    ensures ResolveRpc(Some("pkg"), "S", "M", None) == Ok(Rpc(POST, "/pkg.S/M", None))
    ensures ResolveRpc(None, "S", "M", Some(HttpRule(Simple(GET, ""), "flip"))) == Ok(Rpc(POST, "/undefined.S/M", Some("flip")))
  {
    DefaultRouteText();
  }

  lemma DefaultRouteText()
    ensures "/" + "pkg" + "." + "S" + "/" + "M" == "/pkg.S/M"
    ensures "/" + "undefined" + "." + "S" + "/" + "M" == "/undefined.S/M"
  {
  }
}
