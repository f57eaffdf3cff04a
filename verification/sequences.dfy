/** Generic sequence helpers shared by the grouping and URL templating models. */
module Sequences {

  /** The position of the first occurrence of `x` in `xs`. */
  function FirstIndex<T(==)>(xs: seq<T>, x: T): (i: nat)
    requires x in xs
    ensures i < |xs| && xs[i] == x
    ensures forall j :: 0 <= j < i ==> xs[j] != x
  {
    if xs[0] == x then 0 else 1 + FirstIndex(xs[1..], x)
  }

  /** A first occurrence inside a prefix is the first occurrence in the whole sequence. */
  lemma FirstIndexPrefix<T>(xs: seq<T>, n: nat, x: T)
    requires n <= |xs| && x in xs[..n]
    ensures FirstIndex(xs, x) == FirstIndex(xs[..n], x)
  {
    var i := FirstIndex(xs[..n], x);
    var k := FirstIndex(xs, x);
    assert xs[..n][i] == xs[i];
    assert k <= i;
    assert xs[..n][k] == xs[k];
  }

  /** The elements of `xs` without repetitions, each kept where it first occurs. */
  function Dedup<T(==)>(xs: seq<T>): (r: seq<T>)
    ensures forall i, j :: 0 <= i < j < |r| ==> r[i] != r[j]
    ensures forall i :: 0 <= i < |r| ==> r[i] in xs
    ensures forall i :: 0 <= i < |xs| ==> xs[i] in r
    ensures |r| <= |xs|
  {
    if |xs| == 0 then []
    else
      var init := Dedup(xs[..|xs| - 1]);
      assert forall i :: 0 <= i < |xs| - 1 ==> xs[i] == xs[..|xs| - 1][i];
      if xs[|xs| - 1] in init then init else init + [xs[|xs| - 1]]
  }

  /** An order on first positions, stated for every pair of `r`. */
  predicate InFirstAppearanceOrder<T(==)>(xs: seq<T>, r: seq<T>)
    requires forall i :: 0 <= i < |r| ==> r[i] in xs
  {
    forall i, j :: 0 <= i < j < |r| ==> FirstIndex(xs, r[i]) < FirstIndex(xs, r[j])
  }

  /** `Dedup` lists the elements in increasing order of their first position in `xs`. */
  lemma {:induction false} DedupInFirstAppearanceOrder<T>(xs: seq<T>)
    ensures InFirstAppearanceOrder(xs, Dedup(xs))
  {
    if |xs| > 0 {
      var n := |xs| - 1;
      var init := xs[..n];
      var d := Dedup(init);
      DedupInFirstAppearanceOrder(init);
      OrderInPrefix(xs, n, d);
      if xs[n] in d {
        assert Dedup(xs) == d;
      } else {
        assert Dedup(xs) == d + [xs[n]];
        assert xs[n] !in init by {
          assert forall i :: 0 <= i < |init| ==> init[i] in d;
        }
        OrderSnoc(xs, d);
      }
    }
  }

  /** Positions first found in the prefix `xs[..n]` are first positions in `xs` too. */
  lemma OrderInPrefix<T>(xs: seq<T>, n: nat, d: seq<T>)
    requires n <= |xs|
    requires forall i :: 0 <= i < |d| ==> d[i] in xs[..n]
    requires InFirstAppearanceOrder(xs[..n], d)
    ensures forall i :: 0 <= i < |d| ==> d[i] in xs && FirstIndex(xs, d[i]) == FirstIndex(xs[..n], d[i])
    ensures InFirstAppearanceOrder(xs, d)
  {
    forall i | 0 <= i < |d| ensures d[i] in xs && FirstIndex(xs, d[i]) == FirstIndex(xs[..n], d[i]) {
      FirstIndexPrefix(xs, n, d[i]);
    }
  }

  /** An element new at the last position comes after all earlier first positions. */
  lemma OrderSnoc<T>(xs: seq<T>, d: seq<T>)
    requires |xs| > 0
    requires forall i :: 0 <= i < |d| ==> d[i] in xs[..|xs| - 1]
    requires xs[|xs| - 1] !in xs[..|xs| - 1]
    requires InFirstAppearanceOrder(xs, d)
    ensures InFirstAppearanceOrder(xs, d + [xs[|xs| - 1]])
  {
    var n := |xs| - 1;
    var r := d + [xs[n]];
    assert FirstIndex(xs, xs[n]) == n by {
      forall m | 0 <= m < n ensures xs[m] != xs[n] {
        assert xs[..n][m] == xs[m];
      }
    }
    forall i | 0 <= i < |d| ensures FirstIndex(xs, d[i]) < n {
      FirstIndexPrefix(xs, n, d[i]);
    }
    forall i, j | 0 <= i < j < |r| ensures FirstIndex(xs, r[i]) < FirstIndex(xs, r[j]) {
      assert r[i] == d[i];
      if j < |d| {
        assert r[j] == d[j];
      }
    }
  }

  /** The blocks of `blocks`, one after the other. */
  function Concat<T>(blocks: seq<seq<T>>): seq<T>
  {
    if |blocks| == 0 then [] else Concat(blocks[..|blocks| - 1]) + blocks[|blocks| - 1]
  }

  /** When every block has four elements, element `j` of block `k` sits at `4k + j`. */
  lemma {:induction false} ConcatAt<T>(blocks: seq<seq<T>>, k: nat, j: nat)
    requires forall i :: 0 <= i < |blocks| ==> |blocks[i]| == 4
    requires k < |blocks| && j < 4
    ensures |Concat(blocks)| == 4 * |blocks|
    ensures Concat(blocks)[4 * k + j] == blocks[k][j]
    decreases |blocks|
  {
    ConcatLength(blocks);
    var init := blocks[..|blocks| - 1];
    var front := Concat(init);
    assert forall i :: 0 <= i < |init| ==> init[i] == blocks[i];
    ConcatLength(init);
    if k < |blocks| - 1 {
      ConcatAt(init, k, j);
    }
  }

  lemma {:induction false} ConcatLength<T>(blocks: seq<seq<T>>)
    requires forall i :: 0 <= i < |blocks| ==> |blocks[i]| == 4
    ensures |Concat(blocks)| == 4 * |blocks|
    decreases |blocks|
  {
    if |blocks| > 0 {
      var init := blocks[..|blocks| - 1];
      assert forall i :: 0 <= i < |init| ==> init[i] == blocks[i];
      ConcatLength(init);
    }
  }

  /** `xs` has no repeated element. */
  predicate Distinct<T(==)>(xs: seq<T>) {
    forall i, j :: 0 <= i < j < |xs| ==> xs[i] != xs[j]
  }

  /** A sequence that already has no repetitions is its own `Dedup`. */
  lemma {:induction false} DedupOfDistinct<T>(xs: seq<T>)
    requires Distinct(xs)
    ensures Dedup(xs) == xs
  {
    if |xs| > 0 {
      var init := xs[..|xs| - 1];
      DedupOfDistinct(init);
      assert xs[|xs| - 1] !in init;
      assert init + [xs[|xs| - 1]] == xs;
    }
  }
}
