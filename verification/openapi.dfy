/**
  The parts of a Swagger 2.0 / OpenAPI 3.0 document that the generator reads.
  Every key the generator looks up is an `Option` field (absent or present);
  keys it never reads are not represented.
 */
module OpenApi {
  import opened Wrappers

  /**
    A JSON object whose entries the generator iterates in document order
    (Python dicts keep insertion order). Lookup takes the first binding,
    which is the only one when keys are distinct, as they are in a parsed dict.
   */
  type Dict<V> = seq<(string, V)>

  function Get<V>(d: Dict<V>, key: string): (r: Option<V>)
    ensures r.Some? <==> key in Keys(d)
    ensures r.Some? ==> (key, r.value) in d
  {
    if |d| == 0 then None
    else if d[0].0 == key then Some(d[0].1)
    else Get(d[1..], key)
  }

  function Keys<V>(d: Dict<V>): (ks: seq<string>)
    ensures |ks| == |d|
    ensures forall i :: 0 <= i < |d| ==> ks[i] == d[i].0
  {
    seq(|d|, i requires 0 <= i < |d| => d[i].0)
  }

  /** Schema Object: `$ref`, `type`, `items`, `properties` and `required`. */
  datatype Schema = Schema(
    ref: Option<string>,
    typ: Option<string>,
    items: Option<Schema>,
    properties: Option<Dict<Schema>>,
    required: Option<seq<string>>)

  /** `{}`, the default the generator substitutes for a missing schema. */
  const EmptySchema: Schema := Schema(None, None, None, None, None)

  /** Media Type Object: only its `schema` is read. */
  datatype MediaType = MediaType(schema: Option<Schema>)

  /** Response Object: only its `content` map (media type to Media Type Object) is read. */
  datatype Response = Response(content: Option<Dict<MediaType>>)

  /** Operation Object, as far as the generator reads it. */
  datatype OperationObject = OperationObject(
    operationId: Option<string>,
    summary: Option<string>,
    hasRequestBody: bool,
    responses: Option<Dict<Response>>,
    tags: Option<seq<string>>)

  /**
    Path Item Object: every key is iterated; keys that are not HTTP methods
    (`parameters`, `summary`, ...) are skipped, so their values are never read.
   */
  type PathItem = Dict<OperationObject>

  /** Server Object (section 4.7.5 of OpenAPI 3.0.3): only `url` is read. */
  datatype Server = Server(url: Option<string>)

  /**
    The top-level document: OpenAPI 3.0 `servers`, Swagger 2.0 `host`,
    `schemes` and `basePath`, and `paths`.
   */
  datatype Document = Document(
    servers: Option<seq<Server>>,
    host: Option<string>,
    schemes: Option<seq<string>>,
    basePath: Option<string>,
    paths: Option<Dict<PathItem>>)
}
