# grpc-gateway client generator, modelled in Dafny

This project models the core of `protoc-gen-grpc-gateway-es`. It is a protoc
plugin that emits TypeScript types and `RPC` descriptors for services
annotated with `google.api.http` rules. It also ships a small runtime that
turns an `RPC` and a request message into an HTTP request. Three pieces are
modelled:

- **The request runtime** (`src/runtime.ts`):
  - dotted-path `get` and `unset` on a JSON-like message;
  - path-template substitution, which consumes the fields it uses;
  - the split of the remaining message into JSON body and query string;
  - headers and the base-path join.

  The message is an immutable tagged value (`Json.Value`). An object is an
  ordered member list, because JavaScript keeps insertion order and the
  query string follows it. `createRequest` clones the message shallowly, so
  deleting a nested leaf also changes the caller's object. That aliasing is
  reproduced explicitly: `Aliasing.Shared` carries the caller's object and
  the clone side by side, and every deletion is applied to both as
  JavaScript would.
- **Path-parameter localisation** (`src/helpers.ts`). `protoCamelCase` is a
  loop with a `capNext` flag, proved equal to a per-character reference
  definition. `pathParametersToLocal` camel-cases only the field-name part
  of each placeholder.
- **The generator's decisions** (`src/generateTs.ts`):
  - how a field typing maps to an output type and nullability;
  - when a field gets `?` and `| null`;
  - how a service method resolves to a verb, path and body key.

The modules follow the source:

| Module | Covers |
|---|---|
| `Results` | option and result wrappers |
| `Json` | message values; `isScalarType` and `typeof` |
| `DottedPath` | `get` and `unset` |
| `Aliasing` | the shallow clone |
| `PathTemplate` | `replacePathParameters` |
| `BaseUrl` | the two slash fixes and base-path resolution |
| `Request` | the `RPC` fields and `createRequest` |
| `RequestExamples` | the runtime's test scenarios |
| `CamelCase` | `protoCamelCase` |
| `LocalPath` | `pathParametersToLocal` |
| `TypeMapping` | `generateType` and `generateField` |
| `ServiceRoutes` | `generateService` |

`new RPC(method, path, bodyKey)` (src/runtime.ts:98-102) stores its three
arguments unchanged. It is the datatype `Request.Rpc`.

## Model

| member | source | states |
|---|---|---|
| DottedPath.SplitSound | src/runtime.ts:5 | `keys.split(".")` loses nothing: the segments contain no `.` and join back to the key. A key without `.` is a single segment. |
| DottedPath.SplitJoin | src/runtime.ts:5 | Splitting the join of `.`-free segments gives the segments back. |
| DottedPath.GetIn | src/runtime.ts:4-11 | One segment is a plain member read. A missing first key reads `undefined`, and so does the whole path. A first key holding a scalar or `null` ends the walk with that value, whatever segments follow. |
| DottedPath.Get | src/runtime.ts:4-11 | `get` on a key without `.` is the plain member read `obj[key]`. |
| DottedPath.GetThrough | src/runtime.ts:7-9 | Once a prefix of the path reaches an object, the rest of the path is read inside that object. |
| DottedPath.GetStopsAt | src/runtime.ts:7-10 | Descent stops at the first value that is not a non-null object. Once a prefix reads a scalar, `null` or nothing, every longer path reads that same value. |
| DottedPath.NestedGetExample | src/runtime.ts:4-11 | `get(obj, "flip.flap.flop")` reads the innermost string. |
| DottedPath.StopsAtScalarExample | src/runtime.ts:7-24 | Reading `a.b` where `a` holds a string returns that string, and `unset` of `a.b` changes nothing. |
| DottedPath.UnsetIn | src/runtime.ts:16-25 | `unset` deletes only the final leaf. With one segment it is a plain delete. Otherwise the top-level keys are kept, every other top-level member is unchanged, and, when the leaf's parent is an object, the leaf reads as absent afterwards. When the walk meets a missing or non-object value, the object is unchanged. |
| DottedPath.ParentIsObjectReads | src/runtime.ts:19-24 | `unset` deletes exactly when `get` of the parent path reads an object. |
| DottedPath.Unset | src/runtime.ts:16-25 | `unset` with a key without `.` is `delete obj[key]`. |
| DottedPath.UnsetFrame | src/runtime.ts:16-25 | Nothing but the leaf changes: a path that neither extends nor prefixes the deleted one reads the same value before and after. |
| DottedPath.UnsetKeepsParent | src/runtime.ts:16-25 | Deleting at one path leaves intact the walk to an object parent along any apart path, so a later `unset` there still deletes. |
| Json.Lookup | src/runtime.ts:8 | The member read is absent exactly when the key is not among the object's keys. When present, it is one of the object's members. |
| Json.Remove | src/runtime.ts:23 | `delete` removes that key and keeps every other member and its value. |
| Json.IsScalarType | src/runtime.ts:36-46 | `isScalarType` is true exactly for a present value whose `typeof` is not `object`, that is for strings, numbers and booleans. |
| Json.TypeOf | src/runtime.ts:64-67 | The `typeof` reported in the error is `string` exactly for strings, and `object` exactly for null, arrays and objects. |
| Aliasing.ShallowClone | src/runtime.ts:112 | `{ ...params }` has the caller's keys and shares every child with the caller's object. |
| Aliasing.UnsetShared | src/runtime.ts:112-127 | Deleting through the clone: the clone loses the leaf, and the caller keeps every top-level key. A top-level delete leaves the caller as it was. A nested delete removes the leaf from the caller's object too, and sharing is kept. |
| Aliasing.NestedUnsetKeepsAliasing | src/runtime.ts:112 | After a nested delete, caller and clone still share every child the clone holds. |
| PathTemplate.TokenizeRenders | src/runtime.ts:48 | Scanning a template for `{...}` placeholders loses nothing: the pieces render back to the template. |
| PathTemplate.TokenizeWellFormed | src/runtime.ts:48 | The scan finds every placeholder the pattern `{([^}]+)}` matches, leftmost first. No literal `{` could have started one. |
| PathTemplate.TokenizeRender | src/runtime.ts:48 | The scan is the only well-formed reading: tokenizing the rendering of well-formed pieces gives them back. |
| PathTemplate.TokenizeHole | src/runtime.ts:48 | A `{name}` at the front is one placeholder. |
| PathTemplate.TokenizeLit | src/runtime.ts:48 | A character that cannot open a placeholder stays literal. |
| PathTemplate.TokenizeLits | src/runtime.ts:48 | Text without `{` stays literal. |
| PathTemplate.ParameterName | src/runtime.ts:58 | `c1.split("=", 2)[0]` is the longest prefix without `=`. |
| PathTemplate.SubstitutePieces | src/runtime.ts:57-72 | On success the message keeps its presence, the caller keeps its top-level keys, and sharing is kept. The clone only loses keys. A failure names one of the template's placeholders. |
| PathTemplate.ReplacePathParameters | src/runtime.ts:56-74 | A template without `{` comes back unchanged with the message untouched. A failure names one of the template's placeholders. On success the message keeps its presence, the caller keeps its top-level keys, and sharing is kept. |
| PathTemplate.SubstituteLits | src/runtime.ts:57 | Literal text passes through unchanged and reads nothing. |
| PathTemplate.SubstituteOutcome | src/runtime.ts:57-72 | For a whole template whose placeholder paths are pairwise apart, substitution fails exactly when some placeholder does not read a string, and the error is the rejection of the first such placeholder: missing for `undefined` or `null`, otherwise not a string with its `typeof`. |
| PathTemplate.Rejection | src/runtime.ts:60-68 | A missing parameter is reported exactly for `undefined` or `null`. Any other non-string is reported with a `typeof` other than `string`. |
| PathTemplate.SubstituteFrame | src/runtime.ts:70 | A path apart from every placeholder path reads the same afterwards, in the clone and in the caller. |
| PathTemplate.SubstituteDotted | src/runtime.ts:57-72 | Placeholders with dotted paths, pairwise apart, each reaching a string leaf under object parents: substitution succeeds, the path is the template filled with those strings, and afterwards no placeholder path reads anything in the clone, nor a dotted one in the caller. |
| PathTemplate.NoMessage | src/runtime.ts:60-63 | Without a message, the first placeholder is reported missing. A template without placeholders comes back as written. |
| PathTemplate.LiteralPathSubstitutes | src/runtime.ts:57 | A template without `{` substitutes to itself and leaves the message alone. |
| PathTemplate.ConsumedKeysAbsent | src/runtime.ts:70 | After success, no top-level placeholder key remains in the clone. |
| PathTemplate.UntouchedKeysKept | src/runtime.ts:70 | A top-level member that no placeholder path starts with is the same afterwards, in the clone and in the caller's object. |
| PathTemplate.SubstituteTopLevel | src/runtime.ts:57-72 | With distinct top-level placeholders that all hold strings, the path is the template filled with those strings. The clone loses exactly those keys, and the caller's object is unchanged. |
| PathTemplate.TemplateTokensExample | tests/runtime.test.ts:6 | `/v1/{name=…}/{message_id}` is read as literals and two placeholders. |
| PathTemplate.PatternNameExample | src/runtime.ts:58 | Only the text before `=` names the field. |
| PathTemplate.ConsumeNameExample | tests/runtime.test.ts:7-11 | Reading `name` from the test message gives its string, and deleting it leaves the mutated object with only the other member. |
| PathTemplate.SubstituteLastExample | tests/runtime.test.ts:5-13 | The last placeholder of the test template takes its key and leaves the mutated object empty. |
| PathTemplate.SubstituteNameExample | tests/runtime.test.ts:5-13 | Both placeholders of the test template, in order. |
| PathTemplate.ReplaceExample | tests/runtime.test.ts:5-13 | `/v1/{name=projects/*/documents/*}/{message_id}` becomes `/v1/<name>/<id>` and the `=pattern` suffix is ignored. The object the test passes in (the `clone` component) ends up empty. |
| PathTemplate.RepeatedPlaceholderExample | src/runtime.ts:70 | The same field twice: the first placeholder consumes it, so the second finds it missing. |
| PathTemplate.NumberRejectedExample | src/runtime.ts:64-68 | A number is not turned into a string for the path. It is rejected as `number`. |
| BaseUrl.RemoveLeadingSlash | src/runtime.ts:27-30 | The result is a suffix of the input. Everything dropped is `/`, and the result does not start with `/`. |
| BaseUrl.RemoveLeadingSlashIdempotent | src/runtime.ts:27-30 | A path not starting with `/` is unchanged, so the fix is idempotent. |
| BaseUrl.RemoveLeadingSlashes | src/runtime.ts:27 | Any number of leading slashes all go. |
| BaseUrl.AddTrailingSlash | src/runtime.ts:32-34 | The result ends in `/`. It is the input, or the input plus `/`, and it is the input exactly when that already ends in `/`. |
| BaseUrl.AddTrailingSlashIdempotent | src/runtime.ts:32-34 | A base ending in `/` is unchanged, so the fix is idempotent. |
| BaseUrl.BaseDirectory | src/runtime.ts:114-120 | The directory part of a URL path is its prefix up to and including its last `/`. |
| BaseUrl.MergeRelative | src/runtime.ts:116-120 | Resolving a relative path, taken as a path, keeps the base's origin and yields a well-formed URL with a non-empty path. An empty path keeps the base path whole. A non-empty path ends the result, and what precedes it is a prefix of the base path. |
| BaseUrl.TrailingSlashOnPath | src/runtime.ts:32-34 | Adding the trailing slash to a URL's text adds it to the URL's path; an origin-only base gains the path `/`. |
| BaseUrl.JoinKeepsBase | src/runtime.ts:114-120 | With both fixes, resolving the path against the base URL gives the whole base text, a `/`, and the path. |
| BaseUrl.LastSegmentLostWithoutSlash | src/runtime.ts:114-115 | Without the trailing slash, a base path `dir/last` resolves a non-empty path to `dir/` plus the path, and an empty one to `dir/last` itself. Either result differs from the slash-terminated one whenever `last` is not empty. This is the failure the fixes prevent. |
| BaseUrl.EmptyPathExample | src/runtime.ts:116-120 | The template `/` leaves an empty path, so `https://h/dir/api` resolves to itself and its slash-terminated form to `https://h/dir/api/`. |
| BaseUrl.OriginOnlyBase | src/runtime.ts:114-120 | A base with only an origin resolves to the origin, `/` and the path, with or without the trailing slash. |
| BaseUrl.BaseWithPathExample | tests/runtime.test.ts:67-75 | A base with a path, plus `/v1/flip`, keeps the base path. |
| Request.Headers | src/runtime.ts:142-152 | JSON content type exactly when there is a body. `Bearer <token>` exactly when the token is truthy. No other header. |
| Request.QueryEntries | src/runtime.ts:134-140 | The query entries are exactly the scalar members of the remaining clone, so arrays, objects and `null` never reach the query, and there are no more entries than members. |
| Request.Partition | src/runtime.ts:123-132 | A body is sent only by a method other than `GET` (`DELETE` included) with a message. The caller's message is present exactly when one was given, and it keeps its keys. |
| Request.Substitution | src/runtime.ts:112-113 | Path substitution works on a shallow clone. The caller keeps its keys and the sharing. |
| Request.CreateRequest | src/runtime.ts:111-160 | The request keeps the RPC's verb, and the caller's message is reported exactly when one was given. |
| Request.NoParamsNeedsNoPlaceholder | src/runtime.ts:112-113 | Without a message, a call fails exactly when the template has a placeholder, naming the first one. |
| Request.HeaderRules | src/runtime.ts:142-152 | For every method, the content type goes with the body and the authorisation with a truthy token. |
| Request.BodyRules | src/runtime.ts:123-132 | `GET` or no message means no body. For every other method, `DELETE` included, with no body key the body is an object with exactly the caller's top-level keys, every member no placeholder reaches is sent as passed, and there is no query. With a body key apart from every placeholder path, the body is the value the caller's message holds at that key. |
| Request.BaseKept | src/runtime.ts:116-120 | With a base path, the address starts with the whole base text, and it is the string composition that equals the RFC 3986 merge of the path against the slash-terminated base URL when the path is a scheme-free relative reference. |
| Request.CallerKeysKept | src/runtime.ts:112 | The caller's message keeps every top-level key. |
| Request.PartitionRest | src/runtime.ts:125-131 | What is left for the query holds only keys of the clone, and not a top-level body key. |
| Request.QueryExcludesConsumed | src/runtime.ts:134-140 | Query entries are scalar. They never include a top-level path parameter, nor a top-level body key when a body is sent. |
| Request.QueryKeepsUntouched | src/runtime.ts:134-140 | When the rest goes to the query, a scalar top-level member that neither a placeholder nor the body key reaches is sent as a query entry. |
| RequestExamples.DistributeExample | tests/runtime.test.ts:29-43 | `PATCH /v1/{flip.name}` with body key `flip`. The name fills the path and the body is `flip` without the consumed leaf. The query keeps only the scalar member. The caller's `flip` loses the leaf too. |
| RequestExamples.ConsumeNested | tests/runtime.test.ts:29-43 | Consuming `flip.name` removes the nested leaf from the clone and from the caller. |
| RequestExamples.FlipSubstitution | tests/runtime.test.ts:29-39 | Path substitution in the nested-path test. |
| RequestExamples.FlipPartition | src/runtime.ts:125-127 | The body is the caller's `flip` object without the consumed leaf. Only the scalar is left for the query. |
| RequestExamples.TokenAndBaseExample | tests/runtime.test.ts:45-75 | A string or function token becomes `Bearer <token>`, and a base with a path keeps its last segment. |
| CamelCase.ProtoCamelCase | src/helpers.ts:28-60 | The `capNext` loop computes the reference camel case. |
| CamelCase.Camel | src/helpers.ts:28-60 | The camel case of a name drops every `_` and nothing else, and a name without `_` is its own camel case. |
| CamelCase.CamelLength | src/helpers.ts:33-36 | Every `_` is removed and nothing else. The output is shorter by exactly the number of underscores. |
| CamelCase.CamelAt | src/helpers.ts:37-56 | Each non-underscore character lands at its position minus the underscores before it. It is upper-cased exactly when it is not a digit and an underscore comes right before it. |
| CamelCase.CamelConcat | src/helpers.ts:31-58 | Two pieces camel-case separately, the second seeing whether the first ends in `_`. |
| CamelCase.CamelIdentity | src/helpers.ts:29-58 | A name without `_` is its own camel case. |
| CamelCase.CamelIdempotent | src/helpers.ts:29-58 | Camel-casing twice changes nothing more. |
| CamelCase.CamelKeepsOut | src/helpers.ts:50-55 | A character outside `A`–`Z` appears in the output only if it was in the input. |
| CamelCase.SnakePair | src/helpers.ts:34-55 | `a_b` becomes `a` followed by `b` with its first character capitalised. |
| CamelCase.FlipFlapExample | src/helpers.ts:28-60 | `flip_flap` becomes `flipFlap`. |
| CamelCase.DigitExample | src/helpers.ts:37-49 | A digit after `_` is kept and cancels the capital: `a_1b` becomes `a1b`. |
| CamelCase.RepeatedUnderscoreExample | src/helpers.ts:34-36 | Repeated underscores act as one: `a__b` becomes `aB`. |
| CamelCase.ToUpper | src/helpers.ts:53 | ASCII upper-casing moves only `a`–`z`. |
| LocalPath.NameEnd | src/helpers.ts:62 | A name run stops at the first `}` or `=`. |
| LocalPath.ToLocalName | src/helpers.ts:62-71 | The name after a `{` is camel-cased. The text from the `}` or `=` on is rewritten on its own. |
| LocalPath.ToLocalLit | src/helpers.ts:62-71 | A character that does not open a name run is copied. |
| LocalPath.ToLocalPrefix | src/helpers.ts:62-71 | Literal text without `{` is copied. |
| LocalPath.ToLocal | src/helpers.ts:62-71 | `pathParametersToLocal` never lengthens the path, and its first character always survives. |
| LocalPath.NoUnderscoreUnchanged | src/helpers.ts:67-71 | A path without `_` is unchanged. |
| LocalPath.NoPlaceholderUnchanged | src/helpers.ts:67-71 | A path without `{` is unchanged. |
| LocalPath.ToLocalIdempotent | src/helpers.ts:67-71 | Localising twice changes nothing more. |
| LocalPath.ServiceTestExample | tests/helpers.test.ts:5-9 | `v1/{flip_flap.flop=*}` becomes `v1/{flipFlap.flop=*}`. |
| TypeMapping.GenerateType | src/generateTs.ts:60-103 | Nullable exactly for a `Duration` or `Timestamp` at the converted position when not required and not `OUTPUT_ONLY`. For an array, the first element becomes its own conversion and the rest is kept. Library symbols become `string`. `bigint` and `Uint8Array` become the runtime aliases. Anything else is unchanged and non-nullable. |
| TypeMapping.GenerateTypeConverts | src/generateTs.ts:60-103 | A converted type has nothing left to convert. |
| TypeMapping.ConvertedUnchanged | src/generateTs.ts:95-102 | A type with nothing to convert comes back unchanged and non-nullable. |
| TypeMapping.GenerateTypeIdempotent | src/generateTs.ts:60-103 | Converting an output type again changes nothing. |
| TypeMapping.GenerateField | src/generateTs.ts:113-126 | `?` exactly when the field is neither in the OpenAPI required list nor `REQUIRED`. `\| null` exactly on optional `Duration`/`Timestamp` fields that are not `OUTPUT_ONLY`, so `\| null` implies `?`. |
| TypeMapping.FieldMaskExample | tests/generateTs.service.test.ts:292-294 | A required `FieldMask` prints as `updateMask: string` with neither marker. |
| TypeMapping.TimestampExample | src/generateTs.ts:84-92 | An optional timestamp gets both markers. An output-only one gets only `?`. |
| TypeMapping.RepeatedTimestampExample | src/generateTs.ts:66-79 | A repeated timestamp keeps its `[]` and takes the element's nullability. |
| TypeMapping.RepeatedBigIntExample | src/generateTs.ts:66-79 | A repeated 64-bit integer becomes the runtime's `BigIntString` followed by the kept `[]`. |
| ServiceRoutes.ResolveRpc | src/generateTs.ts:180-198 | A custom pattern fails. A rule with a non-empty simple pattern gives its verb and the localised path. Otherwise the RPC is `POST /package.Service/Method`. The body key is present exactly when `body` is neither empty nor `*`, and it is `body` as written. |
| ServiceRoutes.CaseNameUpperCased | src/generateTs.ts:187 | Upper-casing each pattern case name gives the runtime's verb. |
| ServiceRoutes.ResolvedPathIsLocal | src/generateTs.ts:186-191 | The emitted path is already in local form. |
| ServiceRoutes.DefaultRouteSendsWholeMessage | src/generateTs.ts:182-183 | A method without a rule is a `POST` whose request always builds. It sends the whole message as body and nothing in the query. |
| ServiceRoutes.AbsentBodyKeySendsNothing | src/runtime.ts:125-126 | A body key that names no top-level field sends no body. |
| ServiceRoutes.SingleFieldBody | src/runtime.ts:124-127 | On a literal `PATCH` route, a body key that names the message's only field sends that field's value as the body. |
| ServiceRoutes.OtherFieldNoBody | src/runtime.ts:124-127 | On a literal `PATCH` route, a body key that misses the message's only field still builds the request, and it has no body. |
| ServiceRoutes.SnakeBodyFieldDropped | src/generateTs.ts:192-197 | As written, a two-word `body` field is looked up under its proto name. No body is sent. |
| ServiceRoutes.ResolveRpcLocal | src/generateTs.ts:192-197 | The corrected resolution: the same verb and path, with the body key in local camel case. |
| ServiceRoutes.SnakeBodyFieldSentWhenLocal | src/generateTs.ts:192-197 | With the corrected key, the field becomes the body. |
| ServiceRoutes.PatchRouteExample | tests/generateTs.service.test.ts:198 | `patch: "/v1/{name_test=…}"` resolves to `PATCH "/v1/{nameTest=…}"` without a body key. |
| ServiceRoutes.FieldMaskRouteExample | tests/generateTs.service.test.ts:258-261 | `patch` with `body: "flip"` resolves to body key `flip`. |
| ServiceRoutes.StarBodyExample | src/generateTs.ts:192-197 | `body: "*"` emits no body key. |
| ServiceRoutes.DefaultRouteExample | src/generateTs.ts:182-183 | Without a rule, or with an empty pattern, the default route is used. A missing package prints as `undefined`. |

## Left out

- The host objects `URL`, `Request`, `Headers` and `window.location`. The base-path join is the string composition the runtime performs. For a base already split into origin and path and a scheme-free relative path, that composition is the RFC 3986 merge that `BaseUrl.MergeRelative` models. Parsing a base string into a URL is not modelled. The no-base-path branch (src/runtime.ts:121) is the opaque target `PageRelative`. Percent-encoding and `searchParams` are not modelled.
- BaseUrl.MergeRelative: dot segments (`.` and `..`) are not removed, as section 5.2.4 of RFC 3986 would; a path containing them resolves differently in the host.
- BaseUrl.MergeRelative: the reference is never parsed. A substituted path whose first segment reads as a scheme (`urn:x`, `v1:batchGet`) is taken by the host as an absolute reference (section 5.2.2 of RFC 3986), and one holding `?`, `#` or `\` gains a query, a fragment or a separator; the model keeps the composed text as the address in both cases.
- Json.Lookup: only own members are read. JavaScript property reads also find inherited properties such as `constructor` or `toString`, so `get(params, "constructor")` reads a function where the model reads nothing.
- Json.Value: numbers are unbounded integers. JavaScript numbers are doubles, so fractions, `NaN` and rounding of large integers are not modelled.
- Aliasing.ShallowClone: two keys of one message never hold the same child object. A message in which two fields share one nested object would see a nested delete through both fields; the model treats them as separate.
- DottedPath.UnsetIn: a path through an array deletes nothing. JavaScript would delete `arr[i]` for an index segment, leaving a hole.
- `JSON.stringify` and `String(v)`. The body is the value that would be serialised, and query entries are key/value members. A body of `undefined` is sent as no body.
- `responseTypeId` (src/runtime.ts:166-168) is an identity cast.
- Printing in `generateEnum`, `generateMessage` and the output of `generateService`.
- The library calls `makeJsDoc`, `localName`, `getFieldTyping`, `findCustomMessageOption` and `isImportSymbol`. Their results are inputs to the model. For example, the local field name is a parameter of `GenerateField`.
- `getRuntimeFile` and `runtime.macro.ts` (file emission). The runtime aliases are the `RuntimeFile` parameter.
- `index.ts` (plugin I/O). The generated option classes are not part of this model.
- CamelCase.ToUpper: upper-casing is ASCII only. Full Unicode case mapping belongs to the host.
- DottedPath.GetIn: arrays are not indexed by segment. A path through an array reads `undefined`, where JavaScript would read an index or a property like `length`.
- PathTemplate.SubstitutePieces: on the error path the caller's message may already have lost earlier leaves. The model reports only the error.
- Request.CreateRequest: a message that is not an object (`params` falsy other than `undefined`) is not modelled.
- Request.CreateRequest: the model returns `Ok` where the source throws. This happens for a base path that is not an absolute URL (`new URL` rejects `/api`, src/runtime.ts:117-120), for a call without a base path outside a browser (no `window`, src/runtime.ts:121), and for a token provider that throws (src/runtime.ts:146-149).

## Findings

| source | as written | input that shows it | evidently intended | confidence | as-written member | corrected member |
|---|---|---|---|---|---|---|
| src/generateTs.ts:192-197 | The rule's `body` is emitted as the body key verbatim, in proto field-name form. Path placeholders are camel-cased because the request fields are (src/helpers.ts:63-66). | Rule `patch: "/v1/flips", body: "flip_flap"` with message `{ flipFlap: … }`: `get(params, "flip_flap")` is `undefined`, so no body is sent. | The body key is localised like the placeholders, to `flipFlap`. | medium, not executed | ServiceRoutes.SnakeBodyFieldDropped | ServiceRoutes.ResolveRpcLocal |
