/**
  The action declarations of `_generate_actions_content`, reduced to the
  names and type strings every operation receives: one start action and one
  Success/Failure pair per operation.
 */
module Actions {
  import opened Text
  import opened Casing

  /** The three `createAction` type strings of one operation. */
  datatype ActionTypes = ActionTypes(start: string, success: string, failure: string)

  /** `'[{tag_pascal}] {op_pascal}'` and its ` Success` and ` Failure` variants. */
  function TypesOf(tag: string, operationId: string): (r: ActionTypes)
    ensures StartsWith(r.start, "[" + PascalCase(tag) + "] ")
    ensures r.start[|PascalCase(tag)| + 3..] == PascalCase(operationId)
    ensures r.success == r.start + " Success" && r.failure == r.start + " Failure"
  {
    var prefix := "[" + PascalCase(tag) + "] ";
    var start := prefix + PascalCase(operationId);
    assert start[..|prefix|] == prefix;
    ActionTypes(start, start + " Success", start + " Failure")
  }

  /** The three type strings of an operation are pairwise different. */
  lemma TypesAreDistinct(tag: string, operationId: string)
    ensures var r := TypesOf(tag, operationId);
      r.start != r.success && r.start != r.failure && r.success != r.failure
  {
    var r := TypesOf(tag, operationId);
    assert |r.success| == |r.start| + 8;
    assert r.success[|r.start| + 1] == 'S' && r.failure[|r.start| + 1] == 'F';
  }

  /**
    Type strings are blind to case: two `operationId`s without `_` that differ
    only in letter case get the same three type strings, although their
    action creators have different names.
   */
  lemma CaseVariantsShareTypes(tag: string, a: string, b: string)
    requires '_' !in a && '_' !in b && Lower(a) == Lower(b)
    ensures TypesOf(tag, a) == TypesOf(tag, b)
  {
    CapitalizeIgnoresCase(a, b);
  }

  /** The exported names of one operation's actions: `{op_name}`, `{op_name}Success`, `{op_name}Failure`. */
  function NamesOf(operationId: string): (r: seq<string>)
    ensures |r| == 3
    ensures r[1] == r[0] + "Success" && r[2] == r[0] + "Failure"
    ensures r[0] == CamelCase(operationId)
    ensures '_' !in r[0] && ('_' !in operationId ==> r[0] == operationId)
  {
    var name := CamelCase(operationId);
    [name, name + "Success", name + "Failure"]
  }

  /** The type strings in terms of the two Pascal-cased names alone. */
  lemma TypesOfNames(tag: string, operationId: string, tagName: string, opName: string)
    requires PascalCase(tag) == tagName && PascalCase(operationId) == opName
    ensures TypesOf(tag, operationId).start == "[" + tagName + "] " + opName
    ensures TypesOf(tag, operationId).success == "[" + tagName + "] " + opName + " Success"
    ensures TypesOf(tag, operationId).failure == "[" + tagName + "] " + opName + " Failure"
  {
  }

  /**
    `getProductById` of tag `products` gives the type strings
    `[Products] Getproductbyid`, `[Products] Getproductbyid Success` and
    `[Products] Getproductbyid Failure`.
   */
  lemma ProductByIdTypes()
    ensures TypesOf("products", "getProductById").start == "[" + "Products" + "] " + "Getproductbyid"
    ensures TypesOf("products", "getProductById").success == "[" + "Products" + "] " + "Getproductbyid" + " Success"
    ensures TypesOf("products", "getProductById").failure == "[" + "Products" + "] " + "Getproductbyid" + " Failure"
  {
    PascalCaseTagExample();
    PascalCaseExample();
    TypesOfNames("products", "getProductById", "Products", "Getproductbyid");
  }
}
