/**
  Path templates such as `/products/{productId}/reviews`: extracting the
  parameter names (`_extract_path_parameters`, the regular expression
  `\{([^}]+)\}` under `re.findall`) and a structured view of well-formed templates.
 */
module PathTemplates {
  import opened Wrappers
  import opened Text

  /** Index of the first `c` in `s`. */
  function IndexOf(s: string, c: char): (r: Option<nat>)
    ensures r.Some? ==> r.value < |s| && s[r.value] == c && c !in s[..r.value]
    ensures r.None? ==> c !in s
  {
    if |s| == 0 then None
    else if s[0] == c then Some(0)
    else
      match IndexOf(s[1..], c)
      case None => None
      case Some(j) =>
        assert s[..j + 1] == [s[0]] + s[1..][..j];
        Some(j + 1)
  }

  /**
    The parameter names appear in `s` in this order, each wrapped in braces,
    without overlapping one another.
   */
  ghost predicate AppearInOrder(names: seq<string>, s: string)
    decreases |names|
  {
    |names| == 0 ||
    exists i :: 0 <= i <= |s| && StartsWith(s[i..], "{" + names[0] + "}")
      && AppearInOrder(names[1..], s[i + |names[0]| + 2..])
  }

  /** Dropping characters in front keeps the appearances. */
  lemma AppearInOrderShift(names: seq<string>, s: string)
    requires |s| > 0 && AppearInOrder(names, s[1..])
    ensures AppearInOrder(names, s)
  {
    if |names| > 0 {
      var i :| 0 <= i <= |s[1..]| && StartsWith(s[1..][i..], "{" + names[0] + "}")
        && AppearInOrder(names[1..], s[1..][i + |names[0]| + 2..]);
      assert s[1..][i..] == s[i + 1..];
      assert s[1..][i + |names[0]| + 2..] == s[i + 1 + |names[0]| + 2..];
    }
  }

  /**
    `re.findall(r'\{([^}]+)\}', path)`: scanning left to right, a `{` starts a
    match when the first `}` after it is at least two characters further on;
    the name is the text in between, and scanning resumes after the `}`.
    Otherwise the scan moves on by one character.
   */
  function PathParameters(path: string): (names: seq<string>)
    ensures forall k :: 0 <= k < |names| ==> |names[k]| > 0 && '}' !in names[k]
    ensures '{' !in path ==> names == []
    decreases |path|
  {
    if |path| == 0 then []
    else if path[0] == '{' then
      match Match(path)
      case Some(j) =>
        assert path[1..][..j] == path[1..j + 1];
        [path[1..j + 1]] + PathParameters(path[j + 2..])
      case None => PathParameters(path[1..])
    else
      assert '{' !in path ==> '{' !in path[1..];
      PathParameters(path[1..])
  }

  /**
    When `path` starts with `{`, the offset `j` of the closing `}` in
    `path[1..]` if the regular expression matches there (`j >= 1`: the name is non-empty).
   */
  function Match(path: string): (r: Option<nat>)
    requires |path| > 0 && path[0] == '{'
    ensures r.Some? ==> (1 <= r.value && r.value + 1 < |path| && path[r.value + 1] == '}'
      && '}' !in path[1..r.value + 1])
    ensures r.None? ==> |path| == 1 || path[1] == '}' || '}' !in path[1..]
  {
    match IndexOf(path[1..], '}')
    case Some(j) =>
      assert path[1..][..j] == path[1..j + 1];
      if j >= 1 then Some(j) else None
    case None => None
  }

  /** Each `{` yields at most one name. */
  lemma {:induction false} PathParametersCount(path: string)
    ensures |PathParameters(path)| <= multiset(path)['{']
    decreases |path|
  {
    if |path| > 0 {
      assert path == [path[0]] + path[1..];
      if path[0] == '{' && Match(path).Some? {
        var j := Match(path).value;
        PathParametersCount(path[j + 2..]);
        assert path == path[..j + 2] + path[j + 2..];
        assert path[..j + 2] == [path[0]] + path[1..j + 2];
      } else {
        PathParametersCount(path[1..]);
      }
    }
  }

  /** One step of the scan, as two equations. */
  lemma PathParametersUnfold(path: string)
    requires |path| > 0
    ensures path[0] == '{' && Match(path).Some? ==>
      PathParameters(path) == [path[1..Match(path).value + 1]] + PathParameters(path[Match(path).value + 2..])
    ensures !(path[0] == '{' && Match(path).Some?) ==> PathParameters(path) == PathParameters(path[1..])
  {
  }

  /** The names are found left to right, each inside its own pair of braces. */
  lemma {:induction false} PathParametersInOrder(path: string)
    ensures AppearInOrder(PathParameters(path), path)
    decreases |path|
  {
    if |path| == 0 {
      assert PathParameters(path) == [];
    } else {
      PathParametersUnfold(path);
      var names := PathParameters(path);
      if path[0] == '{' && Match(path).Some? {
        var j := Match(path).value;
        var tail := path[j + 2..];
        PathParametersInOrder(tail);
        assert names[0] == path[1..j + 1] && names[1..] == PathParameters(tail);
        BracedPrefix(path, j);
        AppearAtFront(names, path);
      } else {
        PathParametersInOrder(path[1..]);
        AppearInOrderShift(names, path);
      }
    }
  }

  lemma BracedPrefix(path: string, j: nat)
    requires j + 1 < |path| && path[0] == '{' && path[j + 1] == '}'
    ensures path[..j + 2] == "{" + path[1..j + 1] + "}"
  {
  }

  /** A braced name at the very front, followed by the later appearances. */
  lemma AppearAtFront(names: seq<string>, path: string)
    requires |names| > 0 && |names[0]| + 2 <= |path| && path[..|names[0]| + 2] == "{" + names[0] + "}"
    requires AppearInOrder(names[1..], path[|names[0]| + 2..])
    ensures AppearInOrder(names, path)
  {
    assert path[0..] == path;
    assert StartsWith(path[0..], "{" + names[0] + "}");
  }

  /** One piece of a path template: literal text or a `{name}` parameter. */
  datatype Segment = Literal(text: string) | Parameter(name: string)

  predicate BraceFree(s: string) {
    '{' !in s && '}' !in s
  }

  /** Literal text holds no braces; a parameter name is non-empty and holds none either. */
  predicate WellFormedSegment(seg: Segment) {
    match seg
    case Literal(t) => BraceFree(t)
    case Parameter(n) => |n| > 0 && BraceFree(n)
  }

  predicate WellFormed(segs: seq<Segment>) {
    forall k :: 0 <= k < |segs| ==> WellFormedSegment(segs[k])
  }

  function Braced(name: string): string {
    "{" + name + "}"
  }

  /** The path as written in the document, e.g. `/products/{productId}`. */
  function TemplateText(segs: seq<Segment>): string
  {
    if |segs| == 0 then ""
    else
      match segs[0]
      case Literal(t) => t + TemplateText(segs[1..])
      case Parameter(n) => Braced(n) + TemplateText(segs[1..])
  }

  function ParameterNames(segs: seq<Segment>): seq<string>
  {
    if |segs| == 0 then []
    else
      match segs[0]
      case Literal(_) => ParameterNames(segs[1..])
      case Parameter(n) => [n] + ParameterNames(segs[1..])
  }

  /** Text without `{` contributes no parameter. */
  lemma {:induction false} PathParametersSkip(x: string, y: string)
    requires '{' !in x
    ensures PathParameters(x + y) == PathParameters(y)
    decreases |x|
  {
    if |x| > 0 {
      assert (x + y)[1..] == x[1..] + y;
      PathParametersSkip(x[1..], y);
    } else {
      assert x + y == y;
    }
  }

  /** A braced well-formed name is found, and the scan resumes right after it. */
  lemma PathParametersBraced(name: string, y: string)
    requires |name| > 0 && BraceFree(name)
    ensures PathParameters(Braced(name) + y) == [name] + PathParameters(y)
  {
    var s := Braced(name) + y;
    assert s[1..][..|name|] == name;
    assert s[1..][|name|] == '}';
    assert forall k :: 0 <= k < |name| ==> s[1..][k] != '}';
    assert s[1..][..|name| + 1][|name|] == '}';
    assert IndexOf(s[1..], '}') == Some(|name|);
    assert s[1..|name| + 1] == name;
    assert s[|name| + 2..] == y;
  }

  /**
    On a well-formed template the extraction finds exactly the parameters,
    in order: no literal text is mistaken for a name and no name is missed.
   */
  lemma {:induction false} PathParametersOfTemplate(segs: seq<Segment>)
    requires WellFormed(segs)
    ensures PathParameters(TemplateText(segs)) == ParameterNames(segs)
  {
    if |segs| > 0 {
      PathParametersOfTemplate(segs[1..]);
      assert WellFormedSegment(segs[0]);
      match segs[0]
      case Literal(t) =>
        PathParametersSkip(t, TemplateText(segs[1..]));
      case Parameter(n) =>
        PathParametersBraced(n, TemplateText(segs[1..]));
    }
  }

  /** The template of `getProductReviews`, `/products/{productId}/reviews`. */
  function ReviewsTemplate(): seq<Segment> {
    [Literal("/products/"), Parameter("productId"), Literal("/reviews")]
  }

  lemma ReviewsTemplateWellFormed()
    ensures WellFormed(ReviewsTemplate())
  {
    assert BraceFree("/products/") by {
      forall i | 0 <= i < 10 ensures "/products/"[i] != '{' && "/products/"[i] != '}' {}
    }
    assert BraceFree("productId") by {
      forall i | 0 <= i < 9 ensures "productId"[i] != '{' && "productId"[i] != '}' {}
    }
    assert BraceFree("/reviews") by {
      forall i | 0 <= i < 8 ensures "/reviews"[i] != '{' && "/reviews"[i] != '}' {}
    }
  }

  lemma ReviewsTemplateText()
    ensures TemplateText(ReviewsTemplate()) == "/products/{productId}/reviews"
    ensures ParameterNames(ReviewsTemplate()) == ["productId"]
  {
    var segs := ReviewsTemplate();
    assert segs[1..] == [Parameter("productId"), Literal("/reviews")];
    assert segs[1..][1..] == [Literal("/reviews")];
    assert segs[1..][1..][1..] == [];
  }

  /** `/products/{productId}/reviews` declares the single parameter `productId`. */
  lemma PathParametersExample()
    ensures PathParameters("/products/{productId}/reviews") == ["productId"]
  {
    ReviewsTemplateWellFormed();
    ReviewsTemplateText();
    PathParametersOfTemplate(ReviewsTemplate());
  }
}
