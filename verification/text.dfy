/**
  The Python `str` operations the generator relies on: ASCII case mapping,
  `split`, `join`, `replace` and taking the last `/`-separated segment.
  Strings are `seq<char>`; only ASCII letters change case (see README).
 */
module Text {

  predicate IsAsciiLower(c: char) { 'a' <= c <= 'z' }

  predicate IsAsciiUpper(c: char) { 'A' <= c <= 'Z' }

  /** `c.upper()` restricted to ASCII. */
  function UpperChar(c: char): (u: char)
    ensures !IsAsciiLower(u)
    ensures !IsAsciiLower(c) ==> u == c
    ensures LowerChar(u) == LowerChar(c)
  {
    if IsAsciiLower(c) then (c as int - 32) as char else c
  }

  /** `c.lower()` restricted to ASCII. */
  function LowerChar(c: char): (l: char)
    ensures !IsAsciiUpper(l)
    ensures !IsAsciiUpper(c) ==> l == c
  {
    if IsAsciiUpper(c) then (c as int + 32) as char else c
  }

  function Upper(s: string): (r: string)
    ensures |r| == |s|
    ensures forall i :: 0 <= i < |s| ==> r[i] == UpperChar(s[i])
  {
    seq(|s|, i requires 0 <= i < |s| => UpperChar(s[i]))
  }

  function Lower(s: string): (r: string)
    ensures |r| == |s|
    ensures forall i :: 0 <= i < |s| ==> r[i] == LowerChar(s[i])
  {
    seq(|s|, i requires 0 <= i < |s| => LowerChar(s[i]))
  }

  lemma LowerConcat(a: string, b: string)
    ensures Lower(a + b) == Lower(a) + Lower(b)
  {
    assert forall i :: 0 <= i < |a + b| ==> Lower(a + b)[i] == (Lower(a) + Lower(b))[i];
  }

  /** Upper-casing ignores the case the input had. */
  lemma UpperOfLowerChar(c: char)
    ensures UpperChar(LowerChar(c)) == UpperChar(c)
  {
  }

  lemma UpperOfLower(s: string)
    ensures Upper(Lower(s)) == Upper(s)
  {
    forall i | 0 <= i < |s| ensures Upper(Lower(s))[i] == Upper(s)[i] {
      UpperOfLowerChar(s[i]);
    }
  }

  /** Case mapping never produces or removes a non-letter such as `_`. */
  lemma CaseMapKeepsNonLetters(c: char, d: char)
    requires !IsAsciiLower(d) && !IsAsciiUpper(d)
    ensures UpperChar(c) == d <==> c == d
    ensures LowerChar(c) == d <==> c == d
  {
  }

  predicate StartsWith(s: string, prefix: string) {
    |prefix| <= |s| && s[..|prefix|] == prefix
  }

  /** `t` occurs somewhere in `s` (Python's `t in s` on strings). */
  ghost predicate Contains(s: string, t: string) {
    exists i :: 0 <= i <= |s| && StartsWith(s[i..], t)
  }

  /** `sep.join(parts)`. */
  function Join(parts: seq<string>, sep: string): string
  {
    if |parts| == 0 then ""
    else if |parts| == 1 then parts[0]
    else parts[0] + sep + Join(parts[1..], sep)
  }

  /**
    `s.split(c)` for a one-character separator: the maximal `c`-free pieces
    between separators, empty pieces included, and always at least one.
   */
  function Split(s: string, c: char): (parts: seq<string>)
    ensures |parts| >= 1
    ensures forall k :: 0 <= k < |parts| ==> c !in parts[k]
    decreases |s|
  {
    if |s| == 0 then [""]
    else
      var rest := Split(s[1..], c);
      if s[0] == c then [""] + rest
      else [[s[0]] + rest[0]] + rest[1..]
  }

  /** Joining the pieces with the separator gives back the original text. */
  lemma {:induction false} JoinSplit(s: string, c: char)
    ensures Join(Split(s, c), [c]) == s
    decreases |s|
  {
    if |s| > 0 {
      JoinSplit(s[1..], c);
      var rest := Split(s[1..], c);
      if s[0] == c {
        assert ([""] + rest)[1..] == rest;
        assert Join([""] + rest, [c]) == "" + [c] + Join(rest, [c]);
        assert s == [s[0]] + s[1..];
      } else {
        JoinSplitCons(s, c);
      }
    }
  }

  lemma JoinSplitCons(s: string, c: char)
    requires |s| > 0 && s[0] != c
    requires Join(Split(s[1..], c), [c]) == s[1..]
    ensures Join(Split(s, c), [c]) == s
  {
    var rest := Split(s[1..], c);
    JoinGlue(s[0], rest, [c]);
    assert s == [s[0]] + s[1..];
  }

  /** Gluing a character onto the first piece glues it onto the joined text. */
  lemma JoinGlue(x: char, parts: seq<string>, sep: string)
    requires |parts| >= 1
    ensures Join([[x] + parts[0]] + parts[1..], sep) == [x] + Join(parts, sep)
  {
    var glued := [[x] + parts[0]] + parts[1..];
    assert glued[0] == [x] + parts[0];
    assert glued[1..] == parts[1..];
    if |parts| > 1 {
      assert Join(glued, sep) == [x] + parts[0] + sep + Join(parts[1..], sep);
    }
  }

  /** There is one more piece than there are separators. */
  lemma {:induction false} SplitCount(s: string, c: char)
    ensures |Split(s, c)| == multiset(s)[c] + 1
    decreases |s|
  {
    if |s| > 0 {
      assert s == [s[0]] + s[1..];
      SplitCount(s[1..], c);
    }
  }

  lemma Assoc(x: string, y: string, z: string)
    ensures (x + y) + z == x + (y + z)
  {
  }

  lemma ConsAppend(w: string, u: string)
    requires |w| > 0
    ensures [w[0]] + (w[1..] + u) == w + u
  {
    assert w == [w[0]] + w[1..];
  }

  /** A `c`-free prefix is glued to the first piece of what follows it. */
  lemma {:induction false} SplitPrefix(w: string, t: string, c: char)
    requires c !in w
    ensures Split(w + t, c) == [w + Split(t, c)[0]] + Split(t, c)[1..]
    decreases |w|
  {
    if |w| > 0 {
      var s := w + t;
      var p := Split(t, c);
      assert s[0] == w[0] != c;
      assert s[1..] == w[1..] + t;
      SplitPrefix(w[1..], t, c);
      var r := Split(s[1..], c);
      assert r[0] == w[1..] + p[0] && r[1..] == p[1..];
      assert Split(s, c) == [[s[0]] + r[0]] + r[1..];
      ConsAppend(w, p[0]);
    } else {
      var parts := Split(t, c);
      assert w + t == t;
      assert w + parts[0] == parts[0];
      assert [parts[0]] + parts[1..] == parts;
    }
  }

  lemma SplitAfterSeparator(t: string, c: char)
    ensures Split([c] + t, c) == [""] + Split(t, c)
  {
    assert ([c] + t)[1..] == t;
  }

  /** Splitting undoes joining `c`-free pieces: the other half of the round trip. */
  lemma {:induction false} SplitJoin(parts: seq<string>, c: char)
    requires |parts| >= 1
    requires forall k :: 0 <= k < |parts| ==> c !in parts[k]
    ensures Split(Join(parts, [c]), c) == parts
    decreases |parts|
  {
    if |parts| == 1 {
      SplitPrefix(parts[0], "", c);
      assert parts[0] + "" == parts[0];
    } else {
      var rest := Join(parts[1..], [c]);
      var tail := [c] + rest;
      assert Join(parts, [c]) == parts[0] + tail;
      SplitJoin(parts[1..], c);
      assert Split(rest, c) == parts[1..];
      SplitAfterSeparator(rest, c);
      assert Split(tail, c) == [""] + parts[1..];
      SplitPrefix(parts[0], tail, c);
      assert parts[0] + "" == parts[0];
    }
  }

  /** Joining ends with the last piece, preceded by the separator when there are several. */
  lemma {:induction false} JoinLast(parts: seq<string>, sep: string)
    requires |parts| >= 1
    ensures |parts| >= 2 ==> Join(parts, sep) == Join(parts[..|parts| - 1], sep) + sep + parts[|parts| - 1]
    ensures |parts| == 1 ==> Join(parts, sep) == parts[0]
    decreases |parts|
  {
    if |parts| >= 3 {
      JoinLast(parts[1..], sep);
      assert parts[1..][..|parts| - 2] == parts[..|parts| - 1][1..];
    } else if |parts| == 2 {
      assert parts[..1] == [parts[0]];
    }
  }

  /**
    `s.split(c)[-1]`: the text after the last `c`, or all of `s` when it has none,
    as used on `$ref` values such as `#/components/schemas/Product`.
   */
  function LastSegment(s: string, c: char): (r: string)
    ensures c !in r
    ensures |r| <= |s| && r == s[|s| - |r|..]
    ensures c !in s ==> r == s
    ensures |r| < |s| ==> s[|s| - |r| - 1] == c
  {
    var parts := Split(s, c);
    JoinSplit(s, c);
    SplitCount(s, c);
    JoinLast(parts, [c]);
    assert c !in s ==> multiset(s)[c] == 0;
    parts[|parts| - 1]
  }

  /**
    `s.replace(pat, rep)`: every non-overlapping occurrence of `pat`, scanning
    left to right, is replaced by `rep`. The generator only replaces non-empty texts.
   */
  function Replace(s: string, pat: string, rep: string): (r: string)
    requires |pat| > 0
    decreases |s|
  {
    if |s| < |pat| then s
    else if StartsWith(s, pat) then rep + Replace(s[|pat|..], pat, rep)
    else [s[0]] + Replace(s[1..], pat, rep)
  }

  /** Text without an occurrence of the pattern is returned unchanged. */
  lemma {:induction false} ReplaceNoOccurrence(s: string, pat: string, rep: string)
    requires |pat| > 0 && !Contains(s, pat)
    ensures Replace(s, pat, rep) == s
    decreases |s|
  {
    if |pat| <= |s| {
      assert StartsWith(s[0..], pat) == StartsWith(s, pat);
      assert !Contains(s[1..], pat) by {
        assert forall i :: 0 <= i <= |s[1..]| ==> s[1..][i..] == s[i + 1..];
      }
      ReplaceNoOccurrence(s[1..], pat, rep);
      assert s == [s[0]] + s[1..];
    }
  }

  /** Text that cannot start a match passes through `Replace` unchanged. */
  lemma {:induction false} ReplaceSkip(x: string, y: string, pat: string, rep: string)
    requires |pat| > 0 && pat[0] !in x
    ensures Replace(x + y, pat, rep) == x + Replace(y, pat, rep)
    decreases |x|
  {
    if |x| > 0 {
      var s := x + y;
      assert s[0] == x[0];
      if |s| < |pat| {
        assert Replace(y, pat, rep) == y;
      } else {
        assert !StartsWith(s, pat) by {
          assert s[..|pat|][0] == x[0];
        }
        assert Replace(s, pat, rep) == [s[0]] + Replace(s[1..], pat, rep);
        assert s[1..] == x[1..] + y;
        ReplaceSkip(x[1..], y, pat, rep);
        ConsAppend(x, Replace(y, pat, rep));
      }
    } else {
      assert x + y == y;
    }
  }

  /** Text shorter than the pattern holds no occurrence. */
  lemma ReplaceShort(s: string, pat: string, rep: string)
    requires 0 < |pat| && |s| < |pat|
    ensures Replace(s, pat, rep) == s
  {
  }

  /** Where no occurrence starts, the first character is kept and the scan moves on. */
  lemma ReplaceMiss(s: string, pat: string, rep: string)
    requires 0 < |pat| <= |s| && !StartsWith(s, pat)
    ensures Replace(s, pat, rep) == [s[0]] + Replace(s[1..], pat, rep)
  {
  }

  /**
    A character-by-character reference for replacing a single character:
    every `c` becomes `rep`, every other character stays.
   */
  function ReplaceChar(s: string, c: char, rep: string): (r: string)
    ensures c !in rep ==> c !in r
    ensures |rep| == 1 ==> |r| == |s|
    ensures |rep| == 0 ==> |r| == |s| - multiset(s)[c]
  {
    if |s| == 0 then ""
    else
      assert s == [s[0]] + s[1..];
      var rest := ReplaceChar(s[1..], c, rep);
      if s[0] == c then rep + rest else [s[0]] + rest
  }

  /** Characters other than `c` and those of `rep` are neither added nor lost. */
  lemma {:induction false} ReplaceCharKeeps(s: string, c: char, rep: string, d: char)
    requires d != c && d !in rep
    ensures d in ReplaceChar(s, c, rep) <==> d in s
    decreases |s|
  {
    if |s| > 0 {
      ReplaceCharKeeps(s[1..], c, rep, d);
      assert s == [s[0]] + s[1..];
    }
  }

  /** `s.replace(c, rep)` for a one-character pattern agrees with the reference. */
  lemma {:induction false} ReplaceOneChar(s: string, c: char, rep: string)
    ensures Replace(s, [c], rep) == ReplaceChar(s, c, rep)
    decreases |s|
  {
    if |s| > 0 {
      ReplaceOneChar(s[1..], c, rep);
      assert StartsWith(s, [c]) <==> s[0] == c by {
        assert s[..1] == [s[0]];
      }
    }
  }

  /** A character at which no occurrence starts is kept. */
  lemma ReplaceFrontMiss(c: char, t: string, pat: string, rep: string)
    requires 0 < |pat| && !StartsWith([c] + t, pat)
    ensures Replace([c] + t, pat, rep) == [c] + Replace(t, pat, rep)
  {
    var s := [c] + t;
    assert s[1..] == t;
    if |s| < |pat| {
      ReplaceShort(t, pat, rep);
    }
  }

  /** An occurrence at the front is replaced and the scan resumes after it. */
  lemma ReplaceHit(y: string, pat: string, rep: string)
    requires |pat| > 0
    ensures Replace(pat + y, pat, rep) == rep + Replace(y, pat, rep)
  {
    assert (pat + y)[..|pat|] == pat;
    assert (pat + y)[|pat|..] == y;
  }
}
