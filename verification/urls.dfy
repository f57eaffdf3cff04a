/**
  Service URL templating (`_generate_service_content`, lines 500-502): the
  service method's URL is a JavaScript template literal in which every path
  parameter `{p}` is turned into the substitution `${p}`.
 */
module UrlTemplating {
  import opened Text
  import opened Sequences
  import opened PathTemplates

  /** `${name}`: the template-literal substitution of a parameter. */
  function Dollar(name: string): string {
    "$" + Braced(name)
  }

  /** The loop at lines 501-502: `url = url.replace('{p}', '${p}')` for each `p` in turn. */
  function ReplaceEach(url: string, names: seq<string>): string
    decreases |names|
  {
    if |names| == 0 then url
    else ReplaceEach(Replace(url, Braced(names[0]), Dollar(names[0])), names[1..])
  }

  /** The start of every service URL, `` `${this.baseUrl} ``. */
  const BaseUrlPrefix: string := "`${this.baseUrl}"

  /**
    The URL exactly as the source builds it: the replacements run over the
    whole template literal, prefix included, once per entry of the list.
   */
  function ServiceUrlAsWritten(path: string, parameters: seq<string>): string
  {
    ReplaceEach(BaseUrlPrefix + path + "`", parameters)
  }

  /**
    The corrected URL: the replacements run over the path only, once per
    distinct parameter name.
   */
  function ServiceUrl(path: string, parameters: seq<string>): string
  {
    BaseUrlPrefix + ReplaceEach(path, Dedup(parameters)) + "`"
  }

  /** The path with every parameter written as a substitution, `/products/${productId}`. */
  function UrlText(segs: seq<Segment>): string
  {
    if |segs| == 0 then ""
    else
      match segs[0]
      case Literal(t) => t + UrlText(segs[1..])
      case Parameter(n) => Dollar(n) + UrlText(segs[1..])
  }

  /** The template part-way through the loop: the names in `done` are already substitutions. */
  function Rendered(segs: seq<Segment>, done: set<string>): string
  {
    if |segs| == 0 then ""
    else
      match segs[0]
      case Literal(t) => t + Rendered(segs[1..], done)
      case Parameter(n) => (if n in done then Dollar(n) else Braced(n)) + Rendered(segs[1..], done)
  }

  lemma {:induction false} RenderedNothing(segs: seq<Segment>)
    ensures Rendered(segs, {}) == TemplateText(segs)
  {
    if |segs| > 0 {
      RenderedNothing(segs[1..]);
    }
  }

  lemma {:induction false} RenderedEverything(segs: seq<Segment>, done: set<string>)
    requires forall n :: n in ParameterNames(segs) ==> n in done
    ensures Rendered(segs, done) == UrlText(segs)
  {
    if |segs| > 0 {
      match segs[0]
      case Literal(_) =>
        assert ParameterNames(segs) == ParameterNames(segs[1..]);
        RenderedEverything(segs[1..], done);
      case Parameter(n) =>
        assert ParameterNames(segs) == [n] + ParameterNames(segs[1..]);
        assert n in ParameterNames(segs);
        RenderedEverything(segs[1..], done);
    }
  }

  lemma {:induction false} RenderedConcat(a: seq<Segment>, b: seq<Segment>, done: set<string>)
    ensures Rendered(a + b, done) == Rendered(a, done) + Rendered(b, done)
  {
    if |a| > 0 {
      assert (a + b)[0] == a[0];
      assert (a + b)[1..] == a[1..] + b;
      RenderedConcat(a[1..], b, done);
    } else {
      assert a + b == b;
    }
  }

  /** A braced name that differs from `q` does not start with `{q}`. */
  lemma BracedMismatch(p: string, q: string, rest: string)
    requires BraceFree(p) && BraceFree(q) && p != q
    ensures !StartsWith(Braced(p) + rest, Braced(q))
  {
    var s := Braced(p) + rest;
    var pat := Braced(q);
    if |pat| <= |s| {
      if |p| < |q| {
        assert s[|p| + 1] == '}' != pat[|p| + 1];
      } else if |q| < |p| {
        assert s[|q| + 1] == p[|q|] != pat[|q| + 1];
      } else {
        var k :| 0 <= k < |p| && p[k] != q[k];
        assert s[k + 1] == p[k] != pat[k + 1];
      }
    }
  }

  /** A braced name that differs from `q` is not an occurrence of `{q}`. */
  lemma ReplaceOtherParameter(p: string, q: string, rest: string, rep: string)
    requires BraceFree(p) && BraceFree(q) && p != q
    ensures Replace(Braced(p) + rest, Braced(q), rep) == Braced(p) + Replace(rest, Braced(q), rep)
  {
    var t := (p + "}") + rest;
    var pat := Braced(q);
    BracedTail(p, rest);
    BracedMismatch(p, q, rest);
    ReplaceFrontMiss('{', t, pat, rep);
    ReplaceSkip(p + "}", rest, pat, rep);
    assert ['{'] + ((p + "}") + Replace(rest, pat, rep)) == Braced(p) + Replace(rest, pat, rep);
  }

  lemma BracedTail(p: string, rest: string)
    ensures Braced(p) + rest == ['{'] + ((p + "}") + rest)
  {
  }

  /** One pass of the loop on a single piece of the template. */
  lemma ReplacePiece(seg: Segment, rest: string, done: set<string>, q: string)
    requires WellFormedSegment(seg) && |q| > 0 && BraceFree(q) && q !in done
    ensures Replace(Rendered([seg], done) + rest, Braced(q), Dollar(q))
      == Rendered([seg], done + {q}) + Replace(rest, Braced(q), Dollar(q))
  {
    assert [seg][1..] == [];
    match seg
    case Literal(t) =>
      assert Braced(q)[0] == '{';
      assert Rendered([seg], done) == t && Rendered([seg], done + {q}) == t;
      ReplaceSkip(t, rest, Braced(q), Dollar(q));
    case Parameter(n) =>
      if n in done {
        assert Rendered([seg], done) == Dollar(n) && Rendered([seg], done + {q}) == Dollar(n);
        ReplaceDoneParameter(n, q, rest);
      } else if n == q {
        assert Rendered([seg], done) == Braced(q) && Rendered([seg], done + {q}) == Dollar(q);
        ReplaceHit(rest, Braced(q), Dollar(q));
      } else {
        assert Rendered([seg], done) == Braced(n) && Rendered([seg], done + {q}) == Braced(n);
        ReplaceOtherParameter(n, q, rest, Dollar(q));
      }
  }

  /** A parameter substituted earlier is not touched again by the pass for another name. */
  lemma ReplaceDoneParameter(n: string, q: string, rest: string)
    requires BraceFree(n) && BraceFree(q) && n != q
    ensures Replace(Dollar(n) + rest, Braced(q), Dollar(q)) == Dollar(n) + Replace(rest, Braced(q), Dollar(q))
  {
    var pat := Braced(q);
    var t := Braced(n) + rest;
    assert Dollar(n) + rest == ['$'] + t by {
      Assoc("$", Braced(n), rest);
    }
    assert !StartsWith(['$'] + t, pat) by {
      assert pat[0] == '{';
    }
    ReplaceFrontMiss('$', t, pat, Dollar(q));
    ReplaceOtherParameter(n, q, rest, Dollar(q));
    Assoc("$", Braced(n), Replace(rest, pat, Dollar(q)));
  }

  lemma RenderedCons(segs: seq<Segment>, done: set<string>)
    requires |segs| > 0
    ensures Rendered(segs, done) == Rendered([segs[0]], done) + Rendered(segs[1..], done)
  {
    assert [segs[0]][1..] == [];
    assert Rendered([segs[0]], done) == Rendered([segs[0]], done) + "";
  }

  /** One pass of the loop turns exactly the `{q}` parameters into `${q}`. */
  lemma {:induction false} ReplaceRendered(segs: seq<Segment>, done: set<string>, q: string)
    requires WellFormed(segs) && |q| > 0 && BraceFree(q) && q !in done
    ensures Replace(Rendered(segs, done), Braced(q), Dollar(q)) == Rendered(segs, done + {q})
  {
    if |segs| > 0 {
      ReplaceRendered(segs[1..], done, q);
      assert WellFormedSegment(segs[0]);
      RenderedCons(segs, done);
      RenderedCons(segs, done + {q});
      ReplacePiece(segs[0], Rendered(segs[1..], done), done, q);
    }
  }

  /** The whole loop over distinct names not yet substituted. */
  lemma {:induction false} ReplaceEachRendered(segs: seq<Segment>, done: set<string>, names: seq<string>)
    requires WellFormed(segs) && Distinct(names)
    requires forall k :: 0 <= k < |names| ==> |names[k]| > 0 && BraceFree(names[k]) && names[k] !in done
    ensures ReplaceEach(Rendered(segs, done), names) == Rendered(segs, done + SetOf(names))
    decreases |names|
  {
    if |names| > 0 {
      var q := names[0];
      var once := Replace(Rendered(segs, done), Braced(q), Dollar(q));
      ReplaceRendered(segs, done, q);
      assert forall k :: 0 <= k < |names[1..]| ==> names[1..][k] == names[k + 1] && names[k + 1] != q;
      ReplaceEachRendered(segs, done + {q}, names[1..]);
      assert SetOf(names) == {q} + SetOf(names[1..]);
      calc {
        ReplaceEach(Rendered(segs, done), names);
        ReplaceEach(once, names[1..]);
        ReplaceEach(Rendered(segs, done + {q}), names[1..]);
        Rendered(segs, (done + {q}) + SetOf(names[1..]));
        { assert (done + {q}) + SetOf(names[1..]) == done + SetOf(names); }
        Rendered(segs, done + SetOf(names));
      }
    } else {
      assert done + SetOf(names) == done;
    }
  }

  function SetOf(names: seq<string>): (s: set<string>)
    ensures forall n :: n in s <==> n in names
  {
    if |names| == 0 then {} else {names[0]} + SetOf(names[1..])
  }

  /** Every parameter name of a well-formed template is non-empty and brace-free. */
  lemma {:induction false} ParameterNamesWellFormed(segs: seq<Segment>)
    requires WellFormed(segs)
    ensures forall k :: 0 <= k < |ParameterNames(segs)| ==> |ParameterNames(segs)[k]| > 0 && BraceFree(ParameterNames(segs)[k])
  {
    if |segs| > 0 {
      ParameterNamesWellFormed(segs[1..]);
      assert WellFormedSegment(segs[0]);
    }
  }

  /**
    The corrected URL of a well-formed path template is the base URL followed
    by the path with every parameter `{p}` written as `${p}`, and nothing else changed,
    even when a parameter name repeats.
   */
  lemma ServiceUrlOfTemplate(segs: seq<Segment>)
    requires WellFormed(segs)
    ensures ServiceUrl(TemplateText(segs), PathParameters(TemplateText(segs)))
      == BaseUrlPrefix + UrlText(segs) + "`"
  {
    var names := ParameterNames(segs);
    PathParametersOfTemplate(segs);
    ParameterNamesWellFormed(segs);
    var unique := Dedup(names);
    RenderedNothing(segs);
    ReplaceEachRendered(segs, {}, unique);
    RenderedEverything(segs, {} + SetOf(unique));
  }

  /** The name inside the prefix's own substitution, `${this.baseUrl}`. */
  const BaseUrlName: string := "this.baseUrl"

  /** The whole template literal as the source builds it, the prefix's substitution included. */
  function Wrapped(segs: seq<Segment>): seq<Segment> {
    [Literal("`$"), Parameter(BaseUrlName)] + segs + [Literal("`")]
  }

  lemma BaseUrlNameWellFormed()
    ensures |BaseUrlName| > 0 && BraceFree(BaseUrlName)
    ensures Braced(BaseUrlName) == "{this.baseUrl}"
  {
    forall i | 0 <= i < 12 ensures BaseUrlName[i] != '{' && BaseUrlName[i] != '}' {}
  }

  lemma WrappedWellFormed(segs: seq<Segment>)
    requires WellFormed(segs)
    ensures WellFormed(Wrapped(segs))
  {
    BaseUrlNameWellFormed();
    assert BraceFree("`$") by {
      forall i | 0 <= i < 2 ensures "`$"[i] != '{' && "`$"[i] != '}' {}
    }
    var w := Wrapped(segs);
    forall k | 0 <= k < |w| ensures WellFormedSegment(w[k]) {
      if 2 <= k < 2 + |segs| {
        assert w[k] == segs[k - 2];
      }
    }
  }

  /** While `this.baseUrl` is not among the substituted names, the prefix is untouched. */
  lemma WrappedRendered(segs: seq<Segment>, done: set<string>)
    requires BaseUrlName !in done
    ensures Rendered(Wrapped(segs), done) == BaseUrlPrefix + Rendered(segs, done) + "`"
  {
    var front := [Literal("`$"), Parameter(BaseUrlName)];
    var back := [Literal("`")];
    assert Wrapped(segs) == (front + segs) + back;
    RenderedConcat(front + segs, back, done);
    RenderedConcat(front, segs, done);
    RenderedPrefix(done);
    RenderedBacktick(done);
  }

  lemma RenderedPrefix(done: set<string>)
    requires BaseUrlName !in done
    ensures Rendered([Literal("`$"), Parameter(BaseUrlName)], done) == BaseUrlPrefix
  {
    var front := [Literal("`$"), Parameter(BaseUrlName)];
    assert front[1..] == [Parameter(BaseUrlName)] && front[1..][1..] == [];
    assert Rendered(front[1..], done) == Braced(BaseUrlName) + "";
    PrefixShape();
  }

  lemma RenderedBacktick(done: set<string>)
    ensures Rendered([Literal("`")], done) == "`"
  {
    assert [Literal("`")][1..] == [];
  }

  /**
    The source's loop gives the intended URL whenever the parameter names are
    distinct and none of them is `this.baseUrl`.
   */
  lemma ServiceUrlAsWrittenOfTemplate(segs: seq<Segment>)
    requires WellFormed(segs) && Distinct(ParameterNames(segs))
    requires BaseUrlName !in ParameterNames(segs)
    ensures ServiceUrlAsWritten(TemplateText(segs), PathParameters(TemplateText(segs)))
      == BaseUrlPrefix + UrlText(segs) + "`"
    ensures ServiceUrlAsWritten(TemplateText(segs), PathParameters(TemplateText(segs)))
      == ServiceUrl(TemplateText(segs), PathParameters(TemplateText(segs)))
  {
    var names := ParameterNames(segs);
    PathParametersOfTemplate(segs);
    ParameterNamesWellFormed(segs);
    WrappedWellFormed(segs);
    RenderedNothing(segs);
    WrappedRendered(segs, {});
    ReplaceEachRendered(Wrapped(segs), {}, names);
    assert {} + SetOf(names) == SetOf(names);
    WrappedRendered(segs, SetOf(names));
    RenderedEverything(segs, SetOf(names));
    ServiceUrlOfTemplate(segs);
  }

  /**
    The source's replacements leave the prefix `${this.baseUrl}` alone as long
    as no parameter is named `this.baseUrl`; only the path and the closing
    backtick go through the loop.
   */
  lemma {:induction false} ReplaceEachAfterPrefix(rest: string, names: seq<string>)
    requires forall k :: 0 <= k < |names| ==> BraceFree(names[k]) && names[k] != BaseUrlName
    ensures ReplaceEach(BaseUrlPrefix + rest, names) == BaseUrlPrefix + ReplaceEach(rest, names)
    decreases |names|
  {
    if |names| > 0 {
      var q := names[0];
      ReplaceAfterPrefix(rest, q);
      ReplaceEachAfterPrefix(Replace(rest, Braced(q), Dollar(q)), names[1..]);
    }
  }

  lemma ServiceUrlAsWrittenKeepsPrefix(path: string, names: seq<string>)
    requires forall k :: 0 <= k < |names| ==> BraceFree(names[k]) && names[k] != BaseUrlName
    ensures ServiceUrlAsWritten(path, names) == BaseUrlPrefix + ReplaceEach(path + "`", names)
  {
    Assoc(BaseUrlPrefix, path, "`");
    ReplaceEachAfterPrefix(path + "`", names);
  }

  /** `a{q}b{q}`: a path that names the same parameter twice. */
  function RepeatedTemplate(a: string, q: string, b: string): seq<Segment> {
    [Literal(a), Parameter(q), Literal(b), Parameter(q)]
  }

  lemma RepeatedTemplateFacts(a: string, q: string, b: string)
    requires BraceFree(a) && BraceFree(b) && |q| > 0 && BraceFree(q)
    ensures WellFormed(RepeatedTemplate(a, q, b))
    ensures TemplateText(RepeatedTemplate(a, q, b)) == a + (Braced(q) + (b + Braced(q)))
    ensures ParameterNames(RepeatedTemplate(a, q, b)) == [q, q]
    ensures UrlText(RepeatedTemplate(a, q, b)) == a + (Dollar(q) + (b + Dollar(q)))
  {
    var segs := RepeatedTemplate(a, q, b);
    var s1 := [Parameter(q), Literal(b), Parameter(q)];
    var s2 := [Literal(b), Parameter(q)];
    var s3 := [Parameter(q)];
    assert segs[1..] == s1 && s1[1..] == s2 && s2[1..] == s3 && s3[1..] == [];
    assert Braced(q) + "" == Braced(q) && Dollar(q) + "" == Dollar(q);
    assert [q] + [] == [q];
    assert TemplateText(s3) == Braced(q) + TemplateText(s3[1..]);
    assert UrlText(s3) == Dollar(q) + UrlText(s3[1..]);
    assert ParameterNames(s3) == [q] + ParameterNames(s3[1..]);
    assert TemplateText(s2) == b + Braced(q) && UrlText(s2) == b + Dollar(q) && ParameterNames(s2) == [q];
    assert ParameterNames(s1) == [q] + [q];
  }

  /** `$${q}`: what a second replacement makes of the substitution `${q}`. */
  function DoubleDollar(name: string): string {
    "$" + Dollar(name)
  }

  lemma NestTail(a: string, x: string, b: string, y: string, z: string)
    ensures (a + (x + (b + y))) + z == a + (x + (b + (y + z)))
  {
  }

  /** The prefix's own `{this.baseUrl}` is never an occurrence of another `{q}`. */
  lemma ReplaceAfterPrefix(rest: string, q: string)
    requires BraceFree(q) && q != BaseUrlName
    ensures Replace(BaseUrlPrefix + rest, Braced(q), Dollar(q)) == BaseUrlPrefix + Replace(rest, Braced(q), Dollar(q))
  {
    var pat := Braced(q);
    var rep := Dollar(q);
    BaseUrlNameWellFormed();
    PrefixShape();
    Assoc("`$", Braced(BaseUrlName), rest);
    assert pat[0] == '{';
    ReplaceSkip("`$", Braced(BaseUrlName) + rest, pat, rep);
    ReplaceOtherParameter(BaseUrlName, q, rest, rep);
    Assoc("`$", Braced(BaseUrlName), Replace(rest, pat, rep));
  }

  lemma PrefixShape()
    ensures BaseUrlPrefix == "`$" + Braced(BaseUrlName)
  {
  }

  /** Brace-free text followed by `{q}`: the text is kept and `{q}` becomes `${q}`. */
  lemma ReplaceBraced(x: string, q: string, y: string)
    requires BraceFree(x) && BraceFree(q)
    ensures Replace(x + (Braced(q) + y), Braced(q), Dollar(q)) == x + (Dollar(q) + Replace(y, Braced(q), Dollar(q)))
  {
    assert Braced(q)[0] == '{';
    ReplaceSkip(x, Braced(q) + y, Braced(q), Dollar(q));
    ReplaceHit(y, Braced(q), Dollar(q));
  }

  /** Brace-free text followed by `${q}`: a second replacement makes it `$${q}`. */
  lemma ReplaceDollar(x: string, q: string, y: string)
    requires BraceFree(x) && BraceFree(q)
    ensures Replace(x + (Dollar(q) + y), Braced(q), Dollar(q)) == x + (DoubleDollar(q) + Replace(y, Braced(q), Dollar(q)))
  {
    var r := Replace(y, Braced(q), Dollar(q));
    Assoc("$", Braced(q), y);
    Assoc(x, "$", Braced(q) + y);
    BraceFreeDollar(x);
    ReplaceBraced(x + "$", q, y);
    Assoc(x, "$", Dollar(q) + r);
    Assoc("$", Dollar(q), r);
  }

  lemma BraceFreeDollar(x: string)
    requires BraceFree(x)
    ensures BraceFree(x + "$")
  {
    assert forall c :: c in x + "$" ==> c in x || c == '$';
  }

  /** The loop's first pass for `q` over the template literal of `a{q}b{q}`. */
  lemma FirstPass(a: string, q: string, b: string)
    requires BraceFree(a) && BraceFree(b) && BraceFree(q) && q != BaseUrlName
    ensures Replace((BaseUrlPrefix + (a + (Braced(q) + (b + Braced(q))))) + "`", Braced(q), Dollar(q))
      == BaseUrlPrefix + (a + (Dollar(q) + (b + (Dollar(q) + "`"))))
  {
    var pat := Braced(q);
    var rep := Dollar(q);
    assert (BaseUrlPrefix + (a + (pat + (b + pat)))) + "`" == BaseUrlPrefix + ((a + (pat + (b + pat))) + "`");
    NestTail(a, pat, b, pat, "`");
    ReplaceAfterPrefix(a + (pat + (b + (pat + "`"))), q);
    ReplaceBraced(a, q, b + (pat + "`"));
    ReplaceBraced(b, q, "`");
    ReplaceShort("`", pat, rep);
  }

  /** The second pass for the same `q` over what the first pass left. */
  lemma SecondPass(a: string, q: string, b: string)
    requires BraceFree(a) && BraceFree(b) && BraceFree(q) && q != BaseUrlName
    ensures Replace(BaseUrlPrefix + (a + (Dollar(q) + (b + (Dollar(q) + "`")))), Braced(q), Dollar(q))
      == BaseUrlPrefix + (a + (DoubleDollar(q) + (b + (DoubleDollar(q) + "`"))))
  {
    ReplaceAfterPrefix(a + (Dollar(q) + (b + (Dollar(q) + "`"))), q);
    ReplaceDollar(a, q, b + (Dollar(q) + "`"));
    ReplaceDollar(b, q, "`");
    ReplaceShort("`", Braced(q), Dollar(q));
  }

  /**
    On a path that names a parameter twice, `a{q}b{q}`, the source's loop runs
    the replacement twice for `q`; the second run rewrites the substitutions the
    first produced, leaving `$${q}` where the corrected URL has `${q}`.
   */
  lemma RepeatedParameterAsWritten(a: string, q: string, b: string)
    requires BraceFree(a) && BraceFree(b) && |q| > 0 && BraceFree(q) && q != BaseUrlName
    ensures PathParameters(a + (Braced(q) + (b + Braced(q)))) == [q, q]
    ensures ServiceUrlAsWritten(a + (Braced(q) + (b + Braced(q))), [q, q])
      == BaseUrlPrefix + (a + (DoubleDollar(q) + (b + DoubleDollar(q)))) + "`"
    ensures ServiceUrl(a + (Braced(q) + (b + Braced(q))), [q, q])
      == BaseUrlPrefix + (a + (Dollar(q) + (b + Dollar(q)))) + "`"
    ensures ServiceUrlAsWritten(a + (Braced(q) + (b + Braced(q))), [q, q])
      != ServiceUrl(a + (Braced(q) + (b + Braced(q))), [q, q])
  {
    var segs := RepeatedTemplate(a, q, b);
    var path := a + (Braced(q) + (b + Braced(q)));
    RepeatedTemplateFacts(a, q, b);
    PathParametersOfTemplate(segs);
    ServiceUrlOfTemplate(segs);
    FirstPass(a, q, b);
    SecondPass(a, q, b);
    assert [q, q][1..] == [q] && [q][1..] == [];
    var written := BaseUrlPrefix + (a + (DoubleDollar(q) + (b + (DoubleDollar(q) + "`"))));
    ReplaceEachTwice(BaseUrlPrefix + path + "`", q);
    assert ServiceUrlAsWritten(path, [q, q]) == written;
    NestTail(BaseUrlPrefix + a, DoubleDollar(q), b, DoubleDollar(q), "`");
    assert written == BaseUrlPrefix + (a + (DoubleDollar(q) + (b + DoubleDollar(q)))) + "`" by {
      NestTail(a, DoubleDollar(q), b, DoubleDollar(q), "`");
    }
    assert |DoubleDollar(q)| == |Dollar(q)| + 1;
  }

  lemma ReplaceEachTwice(url: string, q: string)
    ensures ReplaceEach(url, [q, q]) == Replace(Replace(url, Braced(q), Dollar(q)), Braced(q), Dollar(q))
  {
    var once := Replace(url, Braced(q), Dollar(q));
    assert [q, q][1..] == [q] && [q][1..] == [];
    assert ReplaceEach(url, [q, q]) == ReplaceEach(once, [q]);
    assert ReplaceEach(once, [q]) == ReplaceEach(Replace(once, Braced(q), Dollar(q)), []);
  }

  /** The instance `/a/{id}/b/{id}`. */
  lemma RepeatedParameterExample()
    ensures ServiceUrlAsWritten("/a/{id}/b/{id}", PathParameters("/a/{id}/b/{id}"))
      != ServiceUrl("/a/{id}/b/{id}", PathParameters("/a/{id}/b/{id}"))
  {
    assert BraceFree("/a/") by {
      forall i | 0 <= i < 3 ensures "/a/"[i] != '{' && "/a/"[i] != '}' {}
    }
    assert BraceFree("/b/") by {
      forall i | 0 <= i < 3 ensures "/b/"[i] != '{' && "/b/"[i] != '}' {}
    }
    assert BraceFree("id") by {
      forall i | 0 <= i < 2 ensures "id"[i] != '{' && "id"[i] != '}' {}
    }
    var path := "/a/" + (Braced("id") + ("/b/" + Braced("id")));
    assert path == "/a/{id}/b/{id}";
    RepeatedParameterAsWritten("/a/", "id", "/b/");
    assert PathParameters(path) == ["id", "id"];
    assert ServiceUrlAsWritten(path, ["id", "id"]) != ServiceUrl(path, ["id", "id"]);
  }
}
