/**
  Base-URL derivation (`_extract_base_url`): OpenAPI 3.0 `servers` first,
  then Swagger 2.0 `host` with `schemes` and `basePath`, then `/api`.
 */
module BaseUrl {
  import opened Wrappers
  import opened Text
  import opened OpenApi

  /** The Python exceptions the lookups can raise on a document of this shape. */
  datatype Error =
    | KeyError(key: string)  // `servers[0]['url']` on a Server Object without `url`
    | IndexError             // `schemes[0]` on an empty `schemes` list

  /** `'servers' in data and data['servers']`: present and non-empty. */
  predicate HasServers(doc: Document) {
    doc.servers.Some? && |doc.servers.value| > 0
  }

  /** The scheme list the Swagger 2.0 branch reads, `['https']` when absent. */
  function Schemes(doc: Document): seq<string> {
    doc.schemes.GetOr(["https"])
  }

  /** `_extract_base_url`. */
  function ExtractBaseUrl(doc: Document): (r: Result<string, Error>)
    ensures HasServers(doc) ==> (r.Success? <==> doc.servers.value[0].url.Some?)
    ensures HasServers(doc) && r.Success? ==> r.value == doc.servers.value[0].url.value
    ensures HasServers(doc) && r.Failure? ==> r.error == KeyError("url")
    ensures !HasServers(doc) && doc.host.Some? ==> (r.Failure? <==> doc.schemes == Some([]))
    ensures !HasServers(doc) && doc.host.Some? && r.Failure? ==> r.error == IndexError
    ensures !HasServers(doc) && doc.host.None? ==> r == Success("/api")
  {
    if HasServers(doc) then
      match doc.servers.value[0].url
      case Some(url) => Success(url)
      case None => Failure(KeyError("url"))
    else if doc.host.Some? then
      var schemes := Schemes(doc);
      if |schemes| == 0 then Failure(IndexError)
      else Success(schemes[0] + "://" + doc.host.value + doc.basePath.GetOr(""))
    else Success("/api")
  }

  /** A non-empty `servers` list decides alone: the Swagger 2.0 fields are never read. */
  lemma ServersTakePriority(doc: Document, host: Option<string>, schemes: Option<seq<string>>, basePath: Option<string>)
    requires HasServers(doc)
    ensures ExtractBaseUrl(doc.(host := host, schemes := schemes, basePath := basePath)) == ExtractBaseUrl(doc)
  {
  }

  /** Without usable servers, later servers or an empty list change nothing; the Swagger 2.0 fields decide. */
  lemma EmptyServersAreIgnored(doc: Document)
    requires doc.servers == Some([])
    ensures ExtractBaseUrl(doc) == ExtractBaseUrl(doc.(servers := None))
  {
  }

  /**
    The Swagger 2.0 branch: the URL is the first scheme, `://`, the host and the
    base path, in that order; a missing scheme list means `https` and a missing
    base path means nothing.
   */
  lemma HostUrlShape(doc: Document)
    requires !HasServers(doc) && doc.host.Some? && doc.schemes != Some([])
    ensures ExtractBaseUrl(doc).Success?
    ensures StartsWith(ExtractBaseUrl(doc).value, Schemes(doc)[0] + "://" + doc.host.value)
    ensures ExtractBaseUrl(doc).value[|Schemes(doc)[0]| + 3 + |doc.host.value|..] == doc.basePath.GetOr("")
    ensures doc.schemes.None? && doc.basePath.None? ==>
      ExtractBaseUrl(doc) == Success("https://" + doc.host.value)
  {
    var url := ExtractBaseUrl(doc).value;
    var front := Schemes(doc)[0] + "://" + doc.host.value;
    assert url == front + doc.basePath.GetOr("");
    assert url[..|front|] == front;
    assert url[|front|..] == doc.basePath.GetOr("");
    assert |front| == |Schemes(doc)[0]| + 3 + |doc.host.value|;
    if doc.schemes.None? && doc.basePath.None? {
      assert Schemes(doc)[0] == "https";
      assert url == front + "";
      assert front == "https" + "://" + doc.host.value;
      assert "https" + "://" == "https://";
      assert front == "https://" + doc.host.value;
      assert url == "https://" + doc.host.value;
    }
  }
}
