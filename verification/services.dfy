/**
  The Angular service of one tag (`_generate_service_content`): a fixed
  header, four lines per operation (signature, `HttpClient` call, closing
  brace, blank line) and the closing brace of the class.
 */
module Services {
  import opened Text
  import opened Casing
  import opened PathTemplates
  import opened UrlTemplating
  import opened Operations
  import opened Sequences
  import opened Actions

  /** What the `HttpClient` call passes after the URL. */
  datatype Body =
    | NoBody       // `get` and `delete`: the URL alone
    | Payload      // `, payload`
    | EmptyObject  // `, {}`

  /** Lines 505-511, on the lower-cased method name. */
  function BodyOf(verb: string, requestBody: bool): Body
  {
    if verb == "get" || verb == "delete" then NoBody
    else if requestBody then Payload
    else EmptyObject
  }

  function BodyText(b: Body): string {
    match b
    case NoBody => ""
    case Payload => ", payload"
    case EmptyObject => ", {}"
  }

  /**
    On the methods extraction can produce, only `GET` and `DELETE` calls go
    without a body; every other call sends `payload` exactly when the
    operation declares a request body, and `{}` otherwise.
   */
  lemma BodyOfMethod(op: Operation)
    requires op.httpMethod in MethodNames
    ensures var b := BodyOf(Lower(op.httpMethod), op.requestBody);
      && (b.NoBody? <==> op.httpMethod == "GET" || op.httpMethod == "DELETE")
      && (b.Payload? <==> op.httpMethod in ["POST", "PUT", "PATCH"] && op.requestBody)
      && (b.EmptyObject? <==> op.httpMethod in ["POST", "PUT", "PATCH"] && !op.requestBody)
  {
    assert Lower("GET") == "get" && Lower("POST") == "post" && Lower("PUT") == "put";
    assert Lower("DELETE") == "delete" && Lower("PATCH") == "patch";
  }

  /** Lines 491-495: one `p: string` per path parameter, then `payload: any` for a request body. */
  function SignatureParams(op: Operation): (ps: seq<string>)
    ensures |ps| == |op.parameters| + (if op.requestBody then 1 else 0)
    ensures forall k :: 0 <= k < |op.parameters| ==> ps[k] == op.parameters[k] + ": string"
    ensures op.requestBody ==> ps[|ps| - 1] == "payload: any"
  {
    seq(|op.parameters|, k requires 0 <= k < |op.parameters| => op.parameters[k] + ": string")
      + (if op.requestBody then ["payload: any"] else [])
  }

  /** The method header, `  name(p: string, payload: any): Observable<T> {`. */
  function SignatureLine(op: Operation): string {
    "  " + CamelCase(op.operationId) + "(" + Join(SignatureParams(op), ", ") + "): Observable<" + op.returnType + "> {"
  }

  /**
    The method is named like the operation's action creator, lists its
    parameters between parentheses, and returns an observable of the
    operation's return type.
   */
  lemma SignatureLineShape(op: Operation)
    ensures var line := SignatureLine(op);
      var head := "  " + NamesOf(op.operationId)[0] + "(";
      var tail := "): Observable<" + op.returnType + "> {";
      && |line| == |head| + |Join(SignatureParams(op), ", ")| + |tail|
      && line[..|head|] == head
      && line[|head|..|line| - |tail|] == Join(SignatureParams(op), ", ")
      && line[|line| - |tail|..] == tail
  {
    var head := "  " + CamelCase(op.operationId) + "(";
    var params := Join(SignatureParams(op), ", ");
    var tail := "): Observable<" + op.returnType + "> {";
    var line := SignatureLine(op);
    assert line == head + params + tail;
    assert line[..|head|] == head;
    assert line[|head|..|line| - |tail|] == params;
    assert line[|line| - |tail|..] == tail;
  }

  /** The call's text around its URL: the verb, the type argument, the URL, then the body argument. */
  function CallText(op: Operation, url: string): string {
    "    return this.http." + Lower(op.httpMethod) + "<" + op.returnType + ">("
      + url + BodyText(BodyOf(Lower(op.httpMethod), op.requestBody)) + ");"
  }

  /** The URL sits between the verb and type argument on the left and the body argument on the right. */
  lemma CallTextShape(op: Operation, url: string)
    ensures var line := CallText(op, url);
      var verb := Lower(op.httpMethod);
      var head := "    return this.http." + verb + "<" + op.returnType + ">(";
      var tail := BodyText(BodyOf(verb, op.requestBody)) + ");";
      && |line| == |head| + |url| + |tail|
      && line[..|head|] == head
      && line[|head|..|head| + |url|] == url
      && line[|head| + |url|..] == tail
  {
    var verb := Lower(op.httpMethod);
    var head := "    return this.http." + verb + "<" + op.returnType + ">(";
    var tail := BodyText(BodyOf(verb, op.requestBody)) + ");";
    var line := CallText(op, url);
    assert line == head + url + tail;
    assert line[..|head|] == head;
    assert line[|head|..|head| + |url|] == url;
    assert line[|head| + |url|..] == tail;
  }

  /**
    The `HttpClient` call with the corrected URL (see README, Findings); the
    service content below is built from this line.
   */
  function CallLine(op: Operation): string {
    CallText(op, ServiceUrl(op.path, op.parameters))
  }

  /** The `HttpClient` call as lines 498-512 build it, with the URL as written. */
  function CallLineAsWritten(op: Operation): string {
    CallText(op, ServiceUrlAsWritten(op.path, op.parameters))
  }

  /**
    On a well-formed path whose parameter names are distinct and none is
    `this.baseUrl`, the call line as written is the corrected one.
   */
  lemma CallLineAsWrittenAgrees(op: Operation, segs: seq<Segment>)
    requires WellFormed(segs) && op.path == TemplateText(segs) && op.parameters == PathParameters(op.path)
    requires Distinct(ParameterNames(segs)) && BaseUrlName !in ParameterNames(segs)
    ensures CallLineAsWritten(op) == CallLine(op)
  {
    ServiceUrlAsWrittenOfTemplate(segs);
  }

  /**
    On a path naming a parameter twice, `a{q}b{q}`, the call line as written
    is two characters longer than the corrected one: each `${q}` became `$${q}`.
   */
  lemma CallLineAsWrittenDiffers(op: Operation, a: string, q: string, b: string)
    requires BraceFree(a) && BraceFree(b) && |q| > 0 && BraceFree(q) && q != BaseUrlName
    requires op.path == a + (Braced(q) + (b + Braced(q))) && op.parameters == PathParameters(op.path)
    ensures |CallLineAsWritten(op)| == |CallLine(op)| + 2
  {
    RepeatedParameterAsWritten(a, q, b);
    var url := ServiceUrl(op.path, op.parameters);
    var written := ServiceUrlAsWritten(op.path, op.parameters);
    assert |DoubleDollar(q)| == |Dollar(q)| + 1;
    assert |written| == |url| + 2;
    CallTextShape(op, url);
    CallTextShape(op, written);
  }

  /** Whenever the call passes `payload`, the signature declares it. */
  lemma PayloadIsDeclared(op: Operation)
    requires BodyOf(Lower(op.httpMethod), op.requestBody).Payload?
    ensures "payload: any" in SignatureParams(op)
  {
    var ps := SignatureParams(op);
    assert ps[|ps| - 1] == "payload: any";
  }

  /**
    A `get` or `delete` operation with a request body still declares
    `payload: any`, but the call never sends it.
   */
  lemma UnsentPayload(op: Operation)
    requires op.requestBody && Lower(op.httpMethod) in ["get", "delete"]
    ensures "payload: any" in SignatureParams(op)
    ensures BodyText(BodyOf(Lower(op.httpMethod), op.requestBody)) == ""
  {
    var ps := SignatureParams(op);
    assert ps[|ps| - 1] == "payload: any";
  }

  /**
    For an operation on a well-formed path template, the call's URL is the
    base URL followed by the path with every `{p}` written as `${p}`.
   */
  lemma CallLineUrl(op: Operation, segs: seq<Segment>)
    requires WellFormed(segs) && op.path == TemplateText(segs) && op.parameters == PathParameters(op.path)
    ensures var verb := Lower(op.httpMethod);
      CallLine(op) == "    return this.http." + verb + "<" + op.returnType + ">("
        + (BaseUrlPrefix + UrlText(segs) + "`") + BodyText(BodyOf(verb, op.requestBody)) + ");"
  {
    ServiceUrlOfTemplate(segs);
  }

  /** The four lines of one operation. */
  function MethodLines(op: Operation): (lines: seq<string>)
    ensures |lines| == 4
    ensures lines[0] == SignatureLine(op) && lines[1] == CallLine(op)
    ensures lines[2] == "  }" && lines[3] == ""
  {
    [SignatureLine(op), CallLine(op), "  }", ""]
  }

  /** Every operation's four lines, as blocks. */
  function MethodBlocks(ops: seq<Operation>): (blocks: seq<seq<string>>)
    ensures |blocks| == |ops|
    ensures forall k :: 0 <= k < |ops| ==> blocks[k] == MethodLines(ops[k]) && |blocks[k]| == 4
  {
    seq(|ops|, k requires 0 <= k < |ops| => MethodLines(ops[k]))
  }

  /** The operations' lines, in order. */
  function MethodsLines(ops: seq<Operation>): (lines: seq<string>)
    ensures |lines| == 4 * |ops|
  {
    ConcatLength(MethodBlocks(ops));
    Concat(MethodBlocks(ops))
  }

  /**
    The `k`-th operation owns lines `4k` to `4k + 3`: its own four lines
    (signature, call, `}`, blank), in order.
   */
  lemma MethodsLinesAt(ops: seq<Operation>, k: nat)
    requires k < |ops|
    ensures forall j :: 0 <= j < 4 ==> MethodsLines(ops)[4 * k + j] == MethodLines(ops[k])[j]
  {
    var blocks := MethodBlocks(ops);
    forall j | 0 <= j < 4 ensures MethodsLines(ops)[4 * k + j] == MethodLines(ops[k])[j] {
      ConcatAt(blocks, k, j);
    }
  }

  /** Lines 468-481: imports, the decorator, the class header, `baseUrl` and the constructor. */
  function ServiceHeader(tag: string, baseUrl: string): (lines: seq<string>)
    ensures |lines| == 12
    ensures lines[7] == "export class " + PascalCase(tag) + "Service {"
    ensures lines[8] == "  private baseUrl = '" + baseUrl + "';"
  {
    [ "import { Injectable } from '@angular/core';",
      "import { HttpClient } from '@angular/common/http';",
      "import { Observable } from 'rxjs';",
      "",
      "@Injectable({",
      "  providedIn: 'root'",
      "})",
      "export class " + PascalCase(tag) + "Service {",
      "  private baseUrl = '" + baseUrl + "';",
      "",
      "  constructor(private http: HttpClient) {}",
      "" ]
  }

  /** `_generate_service_content`, as lines. */
  function ServiceContent(tag: string, baseUrl: string, ops: seq<Operation>): (lines: seq<string>)
    ensures |lines| == 13 + 4 * |ops|
  {
    ServiceHeader(tag, baseUrl) + MethodsLines(ops) + ["}"]
  }

  /** The class is named after the tag, holds the base URL, and ends with the closing brace. */
  lemma ServiceContentFrame(tag: string, baseUrl: string, ops: seq<Operation>)
    ensures var lines := ServiceContent(tag, baseUrl, ops);
      && lines[7] == "export class " + PascalCase(tag) + "Service {"
      && lines[8] == "  private baseUrl = '" + baseUrl + "';"
      && lines[|lines| - 1] == "}"
  {
    var header := ServiceHeader(tag, baseUrl);
    assert ServiceContent(tag, baseUrl, ops)[..12] == header;
  }

  /** After the twelve header lines, the `k`-th operation's four lines. */
  lemma ServiceContentAt(tag: string, baseUrl: string, ops: seq<Operation>, k: nat)
    requires k < |ops|
    ensures forall j :: 0 <= j < 4 ==> ServiceContent(tag, baseUrl, ops)[12 + 4 * k + j] == MethodLines(ops[k])[j]
  {
    MethodsLinesAt(ops, k);
    var header := ServiceHeader(tag, baseUrl);
    var methods := MethodsLines(ops);
    var lines := ServiceContent(tag, baseUrl, ops);
    assert lines[12..12 + |methods|] == methods;
    forall j | 0 <= j < 4 ensures lines[12 + 4 * k + j] == MethodLines(ops[k])[j] {
      assert lines[12 + 4 * k + j] == methods[4 * k + j];
    }
  }
}
