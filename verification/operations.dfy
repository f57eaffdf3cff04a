/**
  Operation extraction (`_extract_operations`): every HTTP method of every
  path of the document becomes one flat operation record, in document order.
 */
module Operations {
  import opened Wrappers
  import opened Text
  import opened OpenApi
  import opened TypeMapping
  import opened PathTemplates

  /** The record built at lines 79-88 for one operation. */
  datatype Operation = Operation(
    operationId: string,
    httpMethod: string,
    path: string,
    summary: string,
    parameters: seq<string>,
    requestBody: bool,
    returnType: string,
    tags: seq<string>)

  /** The path-item keys that produce operations, compared after lower-casing. */
  const HttpVerbs: seq<string> := ["get", "post", "put", "delete", "patch"]

  /** The method names an operation can carry. */
  const MethodNames: seq<string> := ["GET", "POST", "PUT", "DELETE", "PATCH"]

  predicate IsHttpVerb(key: string) {
    Lower(key) in HttpVerbs
  }

  /** `path.replace('/', '_').replace('{', '').replace('}', '')`. */
  function SanitizePath(path: string): string {
    Replace(Replace(Replace(path, "/", "_"), "{", ""), "}", "")
  }

  /**
    The sanitised path is the path with every `/` turned into `_` and every
    brace dropped: no `/` or brace is left and nothing else is lost.
   */
  lemma SanitizePathShape(path: string)
    ensures var r := SanitizePath(path);
      && '/' !in r && '{' !in r && '}' !in r
      && |r| == |path| - multiset(path)['{'] - multiset(path)['}']
      && forall d :: d !in "/_{}" ==> (d in r <==> d in path)
  {
    var s1 := ReplaceChar(path, '/', "_");
    var s2 := ReplaceChar(s1, '{', "");
    var s3 := ReplaceChar(s2, '}', "");
    ReplaceOneChar(path, '/', "_");
    ReplaceOneChar(s1, '{', "");
    ReplaceOneChar(s2, '}', "");
    assert SanitizePath(path) == s3;
    assert multiset(s1)['{'] == multiset(path)['{'] by {
      BraceCountKept(path, '/', "_", '{');
    }
    assert multiset(s2)['}'] == multiset(path)['}'] by {
      BraceCountKept(path, '/', "_", '}');
      BraceCountKept(s1, '{', "", '}');
    }
    assert '/' !in s2 by {
      ReplaceCharKeeps(s1, '{', "", '/');
    }
    assert '/' !in s3 by {
      ReplaceCharKeeps(s2, '}', "", '/');
    }
    assert '{' !in s3 by {
      ReplaceCharKeeps(s2, '}', "", '{');
    }
    forall d | d !in "/_{}" ensures d in s3 <==> d in path {
      ReplaceCharKeeps(path, '/', "_", d);
      ReplaceCharKeeps(s1, '{', "", d);
      ReplaceCharKeeps(s2, '}', "", d);
    }
  }

  /** Replacing one character does not change how often another, absent from `rep`, occurs. */
  lemma {:induction false} BraceCountKept(s: string, c: char, rep: string, d: char)
    requires d != c && d !in rep
    ensures multiset(ReplaceChar(s, c, rep))[d] == multiset(s)[d]
    decreases |s|
  {
    if |s| > 0 {
      BraceCountKept(s[1..], c, rep, d);
      assert s == [s[0]] + s[1..];
      var rest := ReplaceChar(s[1..], c, rep);
      if s[0] == c {
        assert multiset(rep + rest) == multiset(rep) + multiset(rest);
        assert multiset(rep)[d] == 0;
      } else {
        assert multiset([s[0]] + rest) == multiset([s[0]]) + multiset(rest);
      }
    }
  }

  /** What sanitising makes of one character of the path. */
  function SanitizedChar(c: char): string {
    if c == '/' then "_" else if c == '{' || c == '}' then "" else [c]
  }

  /** Character-by-character reference for the sanitised path. */
  function SanitizedChars(path: string): string
  {
    if |path| == 0 then "" else SanitizedChar(path[0]) + SanitizedChars(path[1..])
  }

  lemma {:induction false} ReplaceCharConcat(a: string, b: string, c: char, rep: string)
    ensures ReplaceChar(a + b, c, rep) == ReplaceChar(a, c, rep) + ReplaceChar(b, c, rep)
    decreases |a|
  {
    if |a| > 0 {
      var s := a + b;
      assert s[0] == a[0] && s[1..] == a[1..] + b;
      ReplaceCharConcat(a[1..], b, c, rep);
      var head := if a[0] == c then rep else [a[0]];
      assert ReplaceChar(s, c, rep) == head + ReplaceChar(s[1..], c, rep);
      assert ReplaceChar(a, c, rep) == head + ReplaceChar(a[1..], c, rep);
      Assoc(head, ReplaceChar(a[1..], c, rep), ReplaceChar(b, c, rep));
    } else {
      assert a + b == b;
    }
  }

  /** The three replacements, applied to one character. */
  lemma SanitizeOneChar(c: char)
    ensures ReplaceChar(ReplaceChar(ReplaceChar([c], '/', "_"), '{', ""), '}', "") == SanitizedChar(c)
  {
    assert [c][1..] == [];
    assert "_"[1..] == [];
  }

  /** The three chained replacements agree with the character-by-character reference. */
  lemma {:induction false} SanitizeThree(path: string)
    ensures ReplaceChar(ReplaceChar(ReplaceChar(path, '/', "_"), '{', ""), '}', "") == SanitizedChars(path)
    decreases |path|
  {
    if |path| > 0 {
      var c := path[0];
      var rest := path[1..];
      assert path == [c] + rest;
      SanitizeThree(rest);
      var a1 := ReplaceChar([c], '/', "_");
      var r1 := ReplaceChar(rest, '/', "_");
      ReplaceCharConcat([c], rest, '/', "_");
      var a2 := ReplaceChar(a1, '{', "");
      var r2 := ReplaceChar(r1, '{', "");
      ReplaceCharConcat(a1, r1, '{', "");
      ReplaceCharConcat(a2, r2, '}', "");
      SanitizeOneChar(c);
    }
  }

  /**
    Sanitising works character by character: `/` becomes `_`, braces are
    dropped, every other character is kept in place.
   */
  lemma SanitizePathCons(c: char, rest: string)
    ensures SanitizePath([c] + rest) == SanitizedChar(c) + SanitizePath(rest)
  {
    SanitizePathIsCharwise([c] + rest);
    SanitizePathIsCharwise(rest);
    assert ([c] + rest)[0] == c && ([c] + rest)[1..] == rest;
  }

  lemma SanitizePathIsCharwise(path: string)
    ensures SanitizePath(path) == SanitizedChars(path)
  {
    ReplaceOneChar(path, '/', "_");
    ReplaceOneChar(ReplaceChar(path, '/', "_"), '{', "");
    ReplaceOneChar(ReplaceChar(ReplaceChar(path, '/', "_"), '{', ""), '}', "");
    SanitizeThree(path);
  }

  lemma SanitizePathEmpty()
    ensures SanitizePath("") == ""
  {
    SanitizePathIsCharwise("");
  }

  /** The `operationId` used when the operation declares none (line 77). */
  function FallbackOperationId(key: string, path: string): (r: string)
    ensures |r| > |key| && r[..|key| + 1] == key + "_"
    ensures r[|key| + 1..] == SanitizedChars(path)
  {
    SanitizePathIsCharwise(path);
    key + "_" + SanitizePath(path)
  }

  /** Lines 77-88: the record for the operation under `key` of the path item of `path`. */
  function MakeOperation(path: string, key: string, op: OperationObject): (r: Operation)
    ensures Lower(r.httpMethod) == Lower(key)
    ensures forall i :: 0 <= i < |r.httpMethod| ==> !IsAsciiLower(r.httpMethod[i])
    ensures op.operationId.None? ==> r.operationId == FallbackOperationId(key, path)
    ensures op.operationId.Some? ==> r.operationId == op.operationId.value
    ensures op.summary.None? ==> r.summary == ""
    ensures op.summary.Some? ==> r.summary == op.summary.value
    ensures op.responses.None? ==> r.returnType == "any"
    ensures op.responses.Some? ==> r.returnType == ReturnType(op.responses.value)
    ensures op.tags.None? ==> r.tags == ["default"]
    ensures op.tags.Some? ==> r.tags == op.tags.value
    ensures r.path == path && r.parameters == PathParameters(path)
    ensures r.requestBody == op.hasRequestBody
  {
    forall i | 0 <= i < |key| ensures LowerChar(UpperChar(key[i])) == LowerChar(key[i]) {}
    Operation(
      op.operationId.GetOr(FallbackOperationId(key, path)),
      Upper(key),
      path,
      op.summary.GetOr(""),
      PathParameters(path),
      op.hasRequestBody,
      ReturnType(op.responses.GetOr([])),
      op.tags.GetOr(["default"]))
  }

  /** A key that passes the filter yields one of the five upper-case method names. */
  lemma MethodIsUpperVerb(key: string)
    requires IsHttpVerb(key)
    ensures Upper(key) in MethodNames
  {
    UpperOfLower(key);
    var v := Lower(key);
    assert Upper("get") == "GET" && Upper("post") == "POST" && Upper("put") == "PUT";
    assert Upper("delete") == "DELETE" && Upper("patch") == "PATCH";
  }

  /** The inner loop (lines 75-76) over one path item. */
  function OperationsOfItem(path: string, item: PathItem): (ops: seq<Operation>)
    ensures |ops| <= |item|
    ensures forall k :: 0 <= k < |ops| ==> ops[k].path == path && ops[k].httpMethod in MethodNames
    ensures forall k :: 0 <= k < |ops| ==> ops[k].parameters == PathParameters(path)
  {
    if |item| == 0 then []
    else
      var rest := OperationsOfItem(path, item[1..]);
      var key := item[0].0;
      if IsHttpVerb(key) then
        MethodIsUpperVerb(key);
        [MakeOperation(path, key, item[0].1)] + rest
      else rest
  }

  /** The outer loop (line 74); a document without `paths` has no operations. */
  function OperationsOfPaths(paths: Dict<PathItem>): (ops: seq<Operation>)
    ensures forall k :: 0 <= k < |ops| ==> ops[k].httpMethod in MethodNames
    ensures forall k :: 0 <= k < |ops| ==> ops[k].parameters == PathParameters(ops[k].path)
  {
    if |paths| == 0 then []
    else
      var here := OperationsOfItem(paths[0].0, paths[0].1);
      var rest := OperationsOfPaths(paths[1..]);
      here + rest
  }

  /** `_extract_operations`. */
  function ExtractOperations(doc: Document): (ops: seq<Operation>)
    ensures doc.paths.None? ==> ops == []
    ensures forall k :: 0 <= k < |ops| ==> ops[k].httpMethod in MethodNames
  {
    OperationsOfPaths(doc.paths.GetOr([]))
  }

  /** The operations of one path item are exactly its HTTP-method entries. */
  lemma {:induction false} MembersOfItem(path: string, item: PathItem)
    ensures forall o :: o in OperationsOfItem(path, item) <==>
      exists j :: 0 <= j < |item| && IsHttpVerb(item[j].0) && o == MakeOperation(path, item[j].0, item[j].1)
  {
    if |item| > 0 {
      MembersOfItem(path, item[1..]);
      forall o | o in OperationsOfItem(path, item)
        ensures exists j :: 0 <= j < |item| && IsHttpVerb(item[j].0) && o == MakeOperation(path, item[j].0, item[j].1)
      {
        if IsHttpVerb(item[0].0) && o == MakeOperation(path, item[0].0, item[0].1) {
        } else {
          var j :| 0 <= j < |item[1..]| && IsHttpVerb(item[1..][j].0) && o == MakeOperation(path, item[1..][j].0, item[1..][j].1);
          assert item[1..][j] == item[j + 1];
        }
      }
      forall o | exists j :: 0 <= j < |item| && IsHttpVerb(item[j].0) && o == MakeOperation(path, item[j].0, item[j].1)
        ensures o in OperationsOfItem(path, item)
      {
        var j :| 0 <= j < |item| && IsHttpVerb(item[j].0) && o == MakeOperation(path, item[j].0, item[j].1);
        if j > 0 {
          assert item[1..][j - 1] == item[j];
        }
      }
    }
  }

  /**
    An operation is extracted exactly when some path of the document has an
    entry whose key is an HTTP method, case-insensitively, and it is the record
    built from that entry.
   */
  lemma {:induction false} ExtractedExactly(paths: Dict<PathItem>, o: Operation)
    ensures o in OperationsOfPaths(paths) <==>
      exists i, j :: 0 <= i < |paths| && 0 <= j < |paths[i].1| && IsHttpVerb(paths[i].1[j].0)
        && o == MakeOperation(paths[i].0, paths[i].1[j].0, paths[i].1[j].1)
  {
    if |paths| > 0 {
      ExtractedExactly(paths[1..], o);
      MembersOfItem(paths[0].0, paths[0].1);
      var here := OperationsOfItem(paths[0].0, paths[0].1);
      assert o in OperationsOfPaths(paths) <==> o in here || o in OperationsOfPaths(paths[1..]);
      if o in here {
        var j :| 0 <= j < |paths[0].1| && IsHttpVerb(paths[0].1[j].0) && o == MakeOperation(paths[0].0, paths[0].1[j].0, paths[0].1[j].1);
        assert 0 <= 0 < |paths|;
      } else if o in OperationsOfPaths(paths[1..]) {
        var i, j :| 0 <= i < |paths[1..]| && 0 <= j < |paths[1..][i].1| && IsHttpVerb(paths[1..][i].1[j].0)
          && o == MakeOperation(paths[1..][i].0, paths[1..][i].1[j].0, paths[1..][i].1[j].1);
        assert paths[1..][i] == paths[i + 1];
      } else {
        forall i, j | 0 <= i < |paths| && 0 <= j < |paths[i].1| && IsHttpVerb(paths[i].1[j].0)
          ensures o != MakeOperation(paths[i].0, paths[i].1[j].0, paths[i].1[j].1)
        {
          if i > 0 {
            assert paths[1..][i - 1] == paths[i];
          }
        }
      }
    }
  }
}
