/**
  TypeScript interface emission (`_generate_model_interface`): one line per
  schema property between the `export interface` header and the closing brace.
 */
module Models {
  import opened Wrappers
  import opened OpenApi
  import opened TypeMapping

  /** `''` for a required property, `'?'` for an optional one. */
  function OptionalMark(name: string, required: seq<string>): (m: string)
    ensures name in required ==> m == ""
    ensures name !in required ==> m == "?"
  {
    if name in required then "" else "?"
  }

  /** `f"  {prop_name}{optional}: {prop_type};"`. */
  function PropertyLine(name: string, schema: Schema, required: seq<string>): (line: string)
    ensures |line| >= |name| + 5
    ensures line[..2] == "  " && line[2..2 + |name|] == name
    ensures line[2 + |name|] == '?' <==> name !in required
    ensures line[2 + |name| + |OptionalMark(name, required)|..] == ": " + TypeScriptType(schema) + ";"
  {
    var line := "  " + name + OptionalMark(name, required) + ": " + TypeScriptType(schema) + ";";
    assert line == "  " + name + (OptionalMark(name, required) + ": " + TypeScriptType(schema) + ";");
    line
  }

  /** The header line, `export interface N {`. */
  function Header(name: string): string {
    "export interface " + name + " {"
  }

  /** One line per property, in the order the schema lists them. */
  function PropertyLines(properties: Dict<Schema>, required: seq<string>): (lines: seq<string>)
    ensures |lines| == |properties|
    ensures forall k :: 0 <= k < |properties| ==>
      lines[k] == PropertyLine(properties[k].0, properties[k].1, required)
  {
    seq(|properties|, k requires 0 <= k < |properties| => PropertyLine(properties[k].0, properties[k].1, required))
  }

  /**
    `_generate_model_interface`, as lines: a missing `properties` means no
    property lines and a missing `required` means every property is optional.
   */
  function InterfaceLines(name: string, schema: Schema): (lines: seq<string>)
    ensures var props := schema.properties.GetOr([]);
      && |lines| == |props| + 2
      && lines[0] == Header(name)
      && lines[|lines| - 1] == "}"
      && forall k :: 0 <= k < |props| ==>
        lines[k + 1] == PropertyLine(props[k].0, props[k].1, schema.required.GetOr([]))
  {
    [Header(name)] + PropertyLines(schema.properties.GetOr([]), schema.required.GetOr([])) + ["}"]
  }

  /**
    The `?` after the `k`-th property's name appears exactly when that
    property is not listed in `required`.
   */
  lemma OptionalIffNotRequired(name: string, schema: Schema, k: nat)
    requires k < |schema.properties.GetOr([])|
    ensures var prop := schema.properties.GetOr([])[k].0;
      var line := InterfaceLines(name, schema)[k + 1];
      |line| > 2 + |prop| && (line[2 + |prop|] == '?' <==> prop !in schema.required.GetOr([]))
  {
  }

  /** Without a `required` list every property line is optional. */
  lemma NoRequiredMeansAllOptional(name: string, schema: Schema, k: nat)
    requires schema.required.None? && k < |schema.properties.GetOr([])|
    ensures var prop := schema.properties.GetOr([])[k].0;
      InterfaceLines(name, schema)[k + 1][2 + |prop|] == '?'
  {
  }

  /** `tax` of `Order` is a `number` not listed in `required`: `  tax?: number;`. */
  lemma TaxLineExample()
    ensures PropertyLine("tax", Schema(None, Some("number"), None, None, None), ["subtotal", "total"])
      == "  tax?: number;"
  {
    assert OptionalMark("tax", ["subtotal", "total"]) == "?";
    assert TypeScriptType(Schema(None, Some("number"), None, None, None)) == "number";
  }

  /** `subtotal` of `Order` is a required `number`: `  subtotal: number;`. */
  lemma SubtotalLineExample()
    ensures PropertyLine("subtotal", Schema(None, Some("number"), None, None, None), ["subtotal", "total"])
      == "  subtotal: number;"
  {
    assert OptionalMark("subtotal", ["subtotal", "total"]) == "";
    assert TypeScriptType(Schema(None, Some("number"), None, None, None)) == "number";
  }
}
