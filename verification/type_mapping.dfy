/**
 How the generator turns a field's typing into the TypeScript type it
 prints. The protobuf library's own well-known types become `string` (the
 gateway sends them as JSON strings), 64-bit integers and bytes become the
 runtime's string aliases, and a `Duration` or `Timestamp` that the client
 may leave out is also allowed to be `null`, so that it can be cleared.
 */
module TypeMapping {
  import opened Results

  /**
   A printable typing: a plain type name, a symbol imported from a module,
   or a sequence of printables. `Undefined` is what reading the first element
   of an empty sequence yields.
   */
  datatype Printable =
    | Name(text: string)
    | Symbol(from: string, name: string)
    | Sequence(items: seq<Printable>)
    | Undefined

  /** The `google.api.field_behavior` values. */
  datatype FieldBehavior =
    | Unspecified | Optional | Required | OutputOnly | InputOnly
    | Immutable | UnorderedList | NonEmptyDefault | Identifier

  /** The two type aliases the generated runtime file exports. */
  datatype RuntimeFile = RuntimeFile(bigIntString: Printable, bytesString: Printable)

  /** A converted type and whether `| null` goes with it (an absent `nullable` is `false`). */
  datatype Typed = Typed(typ: Printable, nullable: bool)

  const Protobuf: string := "@bufbuild/protobuf"

  predicate IsLibrarySymbol(p: Printable) {
    p.Symbol? && p.from == Protobuf
  }

  /** `Duration` and `Timestamp` from the protobuf library: the two types that can be made nullable. */
  predicate IsTimeSymbol(p: Printable) {
    IsLibrarySymbol(p) && (p.name == "Duration" || p.name == "Timestamp")
  }

  /** The element a conversion works on: the first element of a sequence, followed down through nested sequences. */
  function Head(p: Printable): (h: Printable)
    ensures !h.Sequence?
  {
    match p
    case Sequence(items) => if |items| == 0 then Undefined else Head(items[0])
    case _ => p
  }

  /** The field may be cleared with `null`: not required, and not output-only. */
  predicate Clearable(required: bool, behavior: Option<FieldBehavior>) {
    !required && behavior != Some(OutputOnly)
  }

  /**
   `generateType(typing, required, fieldBehavior, runtimeFile)`. Only the
   first element of a sequence is converted; the rest of it is kept as it is.
   */
  function GenerateType(typing: Printable, required: bool, behavior: Option<FieldBehavior>, rt: RuntimeFile): (t: Typed)
    ensures t.nullable <==> IsTimeSymbol(Head(typing)) && Clearable(required, behavior)
    ensures typing.Sequence? ==>
              && t.typ.Sequence? && |t.typ.items| > 0
              && t.typ.items[1..] == (if |typing.items| > 0 then typing.items[1..] else [])
    ensures typing.Sequence? && |typing.items| > 0 ==>
              t.typ.items[0] == GenerateType(typing.items[0], required, behavior, rt).typ
    ensures typing.Sequence? && |typing.items| == 0 ==> t.typ.items == [Undefined]
    ensures IsLibrarySymbol(typing) ==> t.typ == Name("string")
    ensures typing == Name("bigint") ==> t.typ == rt.bigIntString
    ensures typing == Name("Uint8Array") ==> t.typ == rt.bytesString
    ensures (typing.Name? && typing.text != "bigint" && typing.text != "Uint8Array") || typing.Undefined?
            || (typing.Symbol? && typing.from != Protobuf)
            ==> t == Typed(typing, false)
    decreases typing
  {
    match typing
    case Sequence(items) =>
      var resolved := if |items| == 0 then Typed(Undefined, false)
                      else GenerateType(items[0], required, behavior, rt);
      Typed(Sequence([resolved.typ] + (if |items| > 0 then items[1..] else [])), resolved.nullable)
    case Symbol(from, name) =>
      if from == Protobuf then
        if name == "Duration" || name == "Timestamp" then Typed(Name("string"), Clearable(required, behavior))
        else Typed(Name("string"), false)
      else Typed(typing, false)
    case Name(text) =>
      if text == "bigint" then Typed(rt.bigIntString, false)
      else if text == "Uint8Array" then Typed(rt.bytesString, false)
      else Typed(typing, false)
    case Undefined => Typed(typing, false)
  }

  /** A typing with nothing left to convert: its head is not a library symbol, `bigint` or `Uint8Array`, and no sequence on the way is empty. */
  predicate Converted(p: Printable)
    decreases p
  {
    match p
    case Sequence(items) => |items| > 0 && Converted(items[0])
    case Symbol(from, _) => from != Protobuf
    case Name(text) => text != "bigint" && text != "Uint8Array"
    case Undefined => true
  }

  /** The runtime's aliases are themselves left alone by a conversion. */
  predicate AliasesConverted(rt: RuntimeFile) {
    Converted(rt.bigIntString) && Converted(rt.bytesString)
  }

  /** Every conversion result has nothing left to convert. */
  lemma {:induction false} GenerateTypeConverts(typing: Printable, required: bool, behavior: Option<FieldBehavior>, rt: RuntimeFile)
    requires AliasesConverted(rt)
    ensures Converted(GenerateType(typing, required, behavior, rt).typ)
    decreases typing
  {
    match typing
    case Sequence(items) =>
      if |items| > 0 {
        GenerateTypeConverts(items[0], required, behavior, rt);
      }
    case _ =>
  }

  /** A converted typing comes back as it is, and non-nullable. */
  lemma {:induction false} ConvertedUnchanged(typing: Printable, required: bool, behavior: Option<FieldBehavior>, rt: RuntimeFile)
    requires Converted(typing)
    ensures GenerateType(typing, required, behavior, rt) == Typed(typing, false)
    decreases typing
  {
    match typing
    case Sequence(items) =>
      ConvertedUnchanged(items[0], required, behavior, rt);
      assert [items[0]] + items[1..] == items;
    case _ =>
  }

  /** Converting the printed type again changes nothing: the mapping is idempotent on types. */
  lemma GenerateTypeIdempotent(typing: Printable, required: bool, behavior: Option<FieldBehavior>, rt: RuntimeFile)
    requires AliasesConverted(rt)
    ensures var t := GenerateType(typing, required, behavior, rt).typ;
            GenerateType(t, required, behavior, rt).typ == t
  {
    GenerateTypeConverts(typing, required, behavior, rt);
    ConvertedUnchanged(GenerateType(typing, required, behavior, rt).typ, required, behavior, rt);
  }

  /** What `generateField` prints for one field: `name?: type | null;` with each marker present or not. */
  datatype FieldDecl = FieldDecl(name: string, optionalMark: bool, typ: Printable, orNull: bool)

  /** The field is required when the OpenAPI schema lists its proto name, or its behaviour is `REQUIRED`. */
  predicate IsRequired(protoName: string, openApiRequired: Option<seq<string>>, behavior: Option<FieldBehavior>) {
    (openApiRequired.Some? && protoName in openApiRequired.value) || behavior == Some(Required)
  }

  /**
   The decision part of `generateField`: `?` exactly on fields that are not
   required, `| null` exactly on nullable ones, and so only on optional
   `Duration`/`Timestamp` fields the client may write.
   */
  function GenerateField(protoName: string, localName: string, typing: Printable, behavior: Option<FieldBehavior>,
                         openApiRequired: Option<seq<string>>, rt: RuntimeFile): (d: FieldDecl)
    ensures d.name == localName
    ensures d.optionalMark <==> !(openApiRequired.Some? && protoName in openApiRequired.value) && behavior != Some(Required)
    ensures d.orNull <==> d.optionalMark && IsTimeSymbol(Head(typing)) && behavior != Some(OutputOnly)
    ensures d.orNull ==> d.optionalMark
  {
    var required := IsRequired(protoName, openApiRequired, behavior);
    var t := GenerateType(typing, required, behavior, rt);
    FieldDecl(localName, !required, t.typ, t.nullable)
  }

  /** The field-mask test: a required `FieldMask` prints as a plain `string`, with neither marker. */
  lemma FieldMaskExample(rt: RuntimeFile)
    ensures GenerateField("update_mask", "updateMask", Symbol(Protobuf, "FieldMask"), Some(Required), None, rt)
         == FieldDecl("updateMask", false, Name("string"), false)
  {
  }

  /** An optional timestamp may be cleared, so it gets both markers; an output-only one gets only `?`. */
  lemma TimestampExample(rt: RuntimeFile)
    ensures GenerateField("created_at", "createdAt", Symbol(Protobuf, "Timestamp"), None, None, rt)
         == FieldDecl("createdAt", true, Name("string"), true)
    ensures GenerateField("created_at", "createdAt", Symbol(Protobuf, "Timestamp"), Some(OutputOnly), None, rt)
         == FieldDecl("createdAt", true, Name("string"), false)
  {
  }

  /** A repeated 64-bit integer: only the element becomes the runtime's alias, and `[]` is kept. */
  lemma RepeatedBigIntExample(rt: RuntimeFile)
    ensures GenerateType(Sequence([Name("bigint"), Name("[]")]), false, None, rt)
         == Typed(Sequence([rt.bigIntString, Name("[]")]), false)
  {
  }

  /** A repeated timestamp: the element becomes `string`, the `[]` notation stays, and the nullability is the element's. */
  lemma RepeatedTimestampExample(rt: RuntimeFile)
    ensures GenerateType(Sequence([Symbol(Protobuf, "Timestamp"), Name("[]")]), false, None, rt)
         == Typed(Sequence([Name("string"), Name("[]")]), true)
  {
  }
}
