/**
  Mapping OpenAPI schemas to TypeScript type text: `_get_typescript_type`
  for model properties and `_get_return_type` for service and action payloads.
 */
module TypeMapping {
  import opened Wrappers
  import opened Text
  import opened OpenApi

  /** The `type` values the generator knows; anything else becomes `any`. */
  predicate IsKnownType(typ: string) {
    typ in ["string", "integer", "number", "boolean", "object", "array"]
  }

  /** `type_mapping.get(schema_type, 'any')` for a non-array type. */
  function PrimitiveType(typ: string): string
  {
    if typ == "string" then "string"
    else if typ == "integer" || typ == "number" then "number"
    else if typ == "boolean" then "boolean"
    else "any"
  }

  /** `_get_typescript_type`. */
  function TypeScriptType(schema: Schema): (t: string)
    ensures schema.ref.Some? ==> t == LastSegment(schema.ref.value, '/')
    ensures schema.ref.None? && schema.typ == Some("string") ==> t == "string"
    ensures schema.ref.None? && schema.typ in {Some("integer"), Some("number")} ==> t == "number"
    ensures schema.ref.None? && schema.typ == Some("boolean") ==> t == "boolean"
    ensures schema.ref.None? && schema.typ == Some("object") ==> t == "any"
    ensures schema.ref.None? && (schema.typ.None? || !IsKnownType(schema.typ.value)) ==> t == "any"
    ensures schema.ref.None? && schema.typ == Some("array") ==> |t| >= 2 && t[|t| - 2..] == "[]"
    decreases schema
  {
    if schema.ref.Some? then LastSegment(schema.ref.value, '/')
    else
      var typ := schema.typ.GetOr("any");
      if typ == "array" then
        match schema.items
        // a missing `items` defaults to `{}`, whose type is `any`
        case None => "any[]"
        case Some(items) => TypeScriptType(items) + "[]"
      else PrimitiveType(typ)
  }

  /** A missing `items` behaves exactly like an empty item schema. */
  lemma MissingItemsIsEmptySchema(schema: Schema)
    requires schema.ref.None? && schema.typ == Some("array") && schema.items.None?
    ensures TypeScriptType(schema) == TypeScriptType(schema.(items := Some(EmptySchema)))
  {
  }

  /** `n` nested `array` schemas around `base`. */
  function NestedArray(n: nat, base: Schema): (s: Schema)
    ensures n > 0 ==> s.ref.None? && s.typ == Some("array") && s.items == Some(NestedArray(n - 1, base))
  {
    if n == 0 then base
    else Schema(None, Some("array"), Some(NestedArray(n - 1, base)), None, None)
  }

  /** `n` copies of `[]`. */
  function ArraySuffix(n: nat): (r: string)
    ensures |r| == 2 * n
  {
    if n == 0 then "" else ArraySuffix(n - 1) + "[]"
  }

  /** An array nested `n` deep maps to the base type followed by `n` copies of `[]`. */
  lemma {:induction false} NestedArrayType(n: nat, base: Schema)
    ensures TypeScriptType(NestedArray(n, base)) == TypeScriptType(base) + ArraySuffix(n)
  {
    if n > 0 {
      NestedArrayType(n - 1, base);
      assert TypeScriptType(base) + ArraySuffix(n - 1) + "[]" == TypeScriptType(base) + ArraySuffix(n);
    } else {
      assert TypeScriptType(base) + "" == TypeScriptType(base);
    }
  }

  /** `$ref` decides the type even when `type` is also present. */
  lemma RefTakesPriority(schema: Schema, typ: Option<string>, items: Option<Schema>)
    requires schema.ref.Some?
    ensures TypeScriptType(schema.(typ := typ, items := items)) == TypeScriptType(schema)
  {
  }

  /** Lines 60-67: the type text for the schema of a chosen response. */
  function ResponseSchemaType(schema: Schema): (t: string)
    ensures schema.ref.Some? ==> t == TypeScriptType(schema)
    ensures schema.ref.None? && schema.typ == Some("array") && schema.items.Some? && schema.items.value.ref.Some?
      ==> t == TypeScriptType(schema)
    ensures schema.ref.None? && schema.typ == Some("array") && schema.items.Some? && schema.items.value.ref.None?
      ==> t == "any[]"
    ensures t == "any" || t == "any[]" || t == TypeScriptType(schema)
    ensures schema.ref.None? && !(schema.typ == Some("array") && schema.items.Some?) ==> t == "any"
  {
    if schema.ref.Some? then LastSegment(schema.ref.value, '/')
    else if schema.typ.Some? then
      if schema.typ.value == "array" && schema.items.Some? then
        if schema.items.value.ref.Some? then LastSegment(schema.items.value.ref.value, '/') + "[]"
        else "any[]"
      else "any"
    else "any"
  }

  /** `responses.get('200', responses.get('201', {}))`: `None` stands for the `{}` default. */
  function SuccessResponse(responses: Dict<Response>): (r: Option<Response>)
    ensures "200" in Keys(responses) ==> r == Get(responses, "200")
    ensures "200" !in Keys(responses) ==> r == Get(responses, "201")
  {
    match Get(responses, "200")
    case Some(ok) => Some(ok)
    case None => Get(responses, "201")
  }

  /** `_get_return_type`. */
  function ReturnType(responses: Dict<Response>): (t: string)
    ensures SuccessResponse(responses).None? ==> t == "any"
  {
    match SuccessResponse(responses)
    case None => "any"
    case Some(response) =>
      match response.content
      case None => "any"
      case Some(content) =>
        match Get(content, "application/json")
        case None => "any"
        case Some(media) => ResponseSchemaType(media.schema.GetOr(EmptySchema))
  }

  /**
    When the chosen response has an `application/json` entry, its schema (or
    `{}` when it has none) decides the return type.
   */
  lemma ReturnTypeOfJson(responses: Dict<Response>, response: Response, content: Dict<MediaType>, media: MediaType)
    requires SuccessResponse(responses) == Some(response)
    requires response.content == Some(content) && Get(content, "application/json") == Some(media)
    ensures ReturnType(responses) == ResponseSchemaType(media.schema.GetOr(EmptySchema))
  {
  }

  /** A chosen response without `content`, or whose `content` has no `application/json`, gives `any`. */
  lemma ReturnTypeWithoutJson(responses: Dict<Response>, response: Response)
    requires SuccessResponse(responses) == Some(response)
    requires response.content.None? || Get(response.content.value, "application/json").None?
    ensures ReturnType(responses) == "any"
  {
  }

  /**
    The return type is the property type of the JSON schema when that schema
    is a reference, or an array of references, and `any` or `any[]` otherwise:
    unlike property types, inline schemas never surface.
   */
  lemma ReturnTypeAgainstPropertyType(schema: Schema)
    ensures (schema.ref.Some? || (schema.typ == Some("array") && schema.items.Some? && schema.items.value.ref.Some?))
      ==> ResponseSchemaType(schema) == TypeScriptType(schema)
    ensures schema.ref.None? && schema.typ == Some("string") ==> ResponseSchemaType(schema) == "any" != TypeScriptType(schema)
  {
  }

  /** When a `200` response exists, `201` is never consulted. */
  lemma ReturnTypeIgnores201When200Exists(responses: Dict<Response>, other: Dict<Response>)
    requires Get(responses, "200").Some?
    requires Get(other, "200") == Get(responses, "200")
    ensures ReturnType(other) == ReturnType(responses)
  {
  }

  /** Without a `200` response, the `201` response alone decides. */
  lemma ReturnTypeFallsBackTo201(responses: Dict<Response>, other: Dict<Response>)
    requires Get(responses, "200").None? && Get(other, "200").None?
    requires Get(other, "201") == Get(responses, "201")
    ensures ReturnType(other) == ReturnType(responses)
  {
  }

  /** Every return type is `any`, `any[]`, a reference name, or a reference name followed by `[]`. */
  lemma ReturnTypeShapes(responses: Dict<Response>)
    ensures var t := ReturnType(responses);
      || t == "any" || t == "any[]"
      || (exists name :: '/' !in name && (t == name || t == name + "[]"))
  {
    var t := ReturnType(responses);
    if t != "any" && t != "any[]" {
      var response := SuccessResponse(responses).value;
      var media := Get(response.content.value, "application/json").value;
      var schema := media.schema.GetOr(EmptySchema);
      if schema.ref.Some? {
        assert t == LastSegment(schema.ref.value, '/');
      } else {
        assert t == LastSegment(schema.items.value.ref.value, '/') + "[]";
      }
    }
  }
}
