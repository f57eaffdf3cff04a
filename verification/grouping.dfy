/**
  Grouping operations by their first tag, the loop every `generate_*` method
  runs before writing one file per group (lines 164-169, repeated at 229-234,
  309-314, 393-398 and 450-455).
 */
module Grouping {
  import opened Wrappers
  import opened OpenApi
  import opened Sequences
  import opened Operations

  /** `op['tags'][0] if op['tags'] else 'default'`. */
  function GroupTag(op: Operation): (t: string)
    ensures |op.tags| > 0 ==> t == op.tags[0]
    ensures |op.tags| == 0 ==> t == "default"
  {
    if |op.tags| > 0 then op.tags[0] else "default"
  }

  /** The groups, in the order their tags were first seen. */
  type Groups = Dict<seq<Operation>>

  /**
    One iteration of the loop: the operation is appended to its tag's group,
    and a tag not seen before opens a new group at the end.
   */
  function AddToGroup(groups: Groups, op: Operation): (r: Groups)
    ensures GroupTag(op) in Keys(groups) ==> Keys(r) == Keys(groups)
    ensures GroupTag(op) !in Keys(groups) ==> Keys(r) == Keys(groups) + [GroupTag(op)]
  {
    var tag := GroupTag(op);
    if |groups| == 0 then [(tag, [op])]
    else if groups[0].0 == tag then
      KeysCons(tag, groups[0].1 + [op], groups[1..]);
      KeysCons(groups[0].0, groups[0].1, groups[1..]);
      assert groups == [groups[0]] + groups[1..];
      [(tag, groups[0].1 + [op])] + groups[1..]
    else
      var rest := AddToGroup(groups[1..], op);
      KeysCons(groups[0].0, groups[0].1, rest);
      KeysCons(groups[0].0, groups[0].1, groups[1..]);
      assert groups == [groups[0]] + groups[1..];
      [groups[0]] + rest
  }

  lemma KeysCons<V>(key: string, value: V, d: Dict<V>)
    ensures Keys([(key, value)] + d) == [key] + Keys(d)
  {
  }

  /** The group of the operation's tag gains the operation at its end. */
  lemma {:induction false} AddToGroupOwnTag(groups: Groups, op: Operation)
    ensures Get(AddToGroup(groups, op), GroupTag(op)) == Some(Get(groups, GroupTag(op)).GetOr([]) + [op])
  {
    var tag := GroupTag(op);
    if |groups| == 0 {
      assert AddToGroup(groups, op) == [(tag, [op])];
      assert Get(groups, tag).GetOr([]) + [op] == [op];
    } else if groups[0].0 == tag {
      assert AddToGroup(groups, op)[0] == (tag, groups[0].1 + [op]);
    } else {
      var rest := AddToGroup(groups[1..], op);
      AddToGroupOwnTag(groups[1..], op);
      assert AddToGroup(groups, op) == [groups[0]] + rest;
      assert ([groups[0]] + rest)[1..] == rest;
    }
  }

  /** Every other group is left as it was. */
  lemma {:induction false} AddToGroupOtherTag(groups: Groups, op: Operation, t: string)
    requires t != GroupTag(op)
    ensures Get(AddToGroup(groups, op), t) == Get(groups, t)
  {
    if |groups| > 0 && groups[0].0 != GroupTag(op) {
      var rest := AddToGroup(groups[1..], op);
      AddToGroupOtherTag(groups[1..], op, t);
      assert AddToGroup(groups, op) == [groups[0]] + rest;
      assert ([groups[0]] + rest)[1..] == rest;
    } else if |groups| > 0 {
      assert AddToGroup(groups, op)[1..] == groups[1..];
    }
  }

  /** The whole loop over `operations`. */
  function GroupByTag(ops: seq<Operation>): Groups
  {
    if |ops| == 0 then []
    else AddToGroup(GroupByTag(ops[..|ops| - 1]), ops[|ops| - 1])
  }

  /** The tag of every operation, in order. */
  function TagsOf(ops: seq<Operation>): (tags: seq<string>)
    ensures |tags| == |ops|
    ensures forall i :: 0 <= i < |ops| ==> tags[i] == GroupTag(ops[i])
  {
    seq(|ops|, i requires 0 <= i < |ops| => GroupTag(ops[i]))
  }

  /** Reference definition: the operations carrying tag `t`, in their original order. */
  function WithTag(ops: seq<Operation>, t: string): (r: seq<Operation>)
    ensures forall o :: o in r <==> o in ops && GroupTag(o) == t
    ensures |r| <= |ops|
  {
    if |ops| == 0 then []
    else
      var init := ops[..|ops| - 1];
      var last := ops[|ops| - 1];
      assert ops == init + [last];
      WithTag(init, t) + (if GroupTag(last) == t then [last] else [])
  }

  /** Every group, one after the other. */
  function Flatten(groups: Groups): seq<Operation>
  {
    if |groups| == 0 then [] else groups[0].1 + Flatten(groups[1..])
  }

  /**
    The groups are keyed by the distinct tags in order of first appearance,
    and the group of each tag is exactly the operations with that tag, in
    their original relative order.
   */
  lemma {:induction false} GroupByTagIsFilter(ops: seq<Operation>)
    ensures Keys(GroupByTag(ops)) == Dedup(TagsOf(ops))
    ensures forall t :: t in Keys(GroupByTag(ops)) ==> Get(GroupByTag(ops), t) == Some(WithTag(ops, t))
  {
    if |ops| > 0 {
      var init := ops[..|ops| - 1];
      var last := ops[|ops| - 1];
      GroupByTagIsFilter(init);
      GroupKeysStep(ops);
      GroupByTagSnoc(ops);
      forall t | t in Keys(GroupByTag(ops))
        ensures Get(GroupByTag(ops), t) == Some(WithTag(ops, t))
      {
        WithTagSnoc(ops, t);
        if t == GroupTag(last) {
          assert t in Keys(GroupByTag(init)) ==> Get(GroupByTag(init), t) == Some(WithTag(init, t));
          GroupStepOwnTag(init, last);
        } else {
          assert t in Keys(GroupByTag(init));
          assert Get(GroupByTag(init), t) == Some(WithTag(init, t));
          GroupStepOtherTag(init, last, t);
          assert WithTag(init, t) + [] == WithTag(init, t);
        }
      }
    }
  }

  /** The keys after one more operation follow `Dedup` one step further. */
  lemma GroupKeysStep(ops: seq<Operation>)
    requires |ops| > 0
    requires Keys(GroupByTag(ops[..|ops| - 1])) == Dedup(TagsOf(ops[..|ops| - 1]))
    ensures Keys(GroupByTag(ops)) == Dedup(TagsOf(ops))
  {
    var init := ops[..|ops| - 1];
    var last := ops[|ops| - 1];
    TagsOfInit(ops);
    DedupStep(TagsOf(ops));
    var d := Dedup(TagsOf(init));
    var k := Keys(GroupByTag(init));
    calc {
      Keys(GroupByTag(ops));
      Keys(AddToGroup(GroupByTag(init), last));
      if GroupTag(last) in k then k else k + [GroupTag(last)];
      if GroupTag(last) in d then d else d + [GroupTag(last)];
      Dedup(TagsOf(ops));
    }
  }

  lemma TagsOfInit(ops: seq<Operation>)
    requires |ops| > 0
    ensures TagsOf(ops)[..|ops| - 1] == TagsOf(ops[..|ops| - 1])
    ensures TagsOf(ops)[|ops| - 1] == GroupTag(ops[|ops| - 1])
  {
  }

  lemma DedupStep(xs: seq<string>)
    requires |xs| > 0
    ensures Dedup(xs) == if xs[|xs| - 1] in Dedup(xs[..|xs| - 1]) then Dedup(xs[..|xs| - 1]) else Dedup(xs[..|xs| - 1]) + [xs[|xs| - 1]]
  {
  }

  /** The group of another tag is unchanged by one more operation. */
  lemma GroupStepOtherTag(init: seq<Operation>, last: Operation, t: string)
    requires t != GroupTag(last)
    ensures Get(AddToGroup(GroupByTag(init), last), t) == Get(GroupByTag(init), t)
  {
    AddToGroupOtherTag(GroupByTag(init), last, t);
  }

  /** The group of the new operation's tag is its filter over the earlier operations, then the operation. */
  lemma GroupStepOwnTag(init: seq<Operation>, last: Operation)
    requires Keys(GroupByTag(init)) == Dedup(TagsOf(init))
    requires GroupTag(last) in Keys(GroupByTag(init)) ==> Get(GroupByTag(init), GroupTag(last)) == Some(WithTag(init, GroupTag(last)))
    ensures Get(AddToGroup(GroupByTag(init), last), GroupTag(last)) == Some(WithTag(init, GroupTag(last)) + [last])
  {
    var g := GroupByTag(init);
    var t := GroupTag(last);
    AddToGroupOwnTag(g, last);
    if t !in Keys(g) {
      NotInDedupHasNoGroup(init, t);
    }
  }

  lemma WithTagSnoc(ops: seq<Operation>, t: string)
    requires |ops| > 0
    ensures WithTag(ops, t) == WithTag(ops[..|ops| - 1], t) + (if GroupTag(ops[|ops| - 1]) == t then [ops[|ops| - 1]] else [])
  {
  }

  lemma GroupByTagSnoc(ops: seq<Operation>)
    requires |ops| > 0
    ensures GroupByTag(ops) == AddToGroup(GroupByTag(ops[..|ops| - 1]), ops[|ops| - 1])
  {
  }

  /** Membership in `Dedup` is membership in the original sequence. */
  lemma InDedup(xs: seq<string>, x: string)
    ensures x in Dedup(xs) <==> x in xs
  {
    if x in xs {
      var i :| 0 <= i < |xs| && xs[i] == x;
    }
  }

  /** A tag that does not occur has an empty filter. */
  lemma NotInDedupHasNoGroup(ops: seq<Operation>, t: string)
    requires t !in Dedup(TagsOf(ops))
    ensures WithTag(ops, t) == []
  {
    InDedup(TagsOf(ops), t);
    assert forall i :: 0 <= i < |ops| ==> TagsOf(ops)[i] != t;
    WithTagAbsent(ops, t);
  }

  lemma {:induction false} WithTagAbsent(ops: seq<Operation>, t: string)
    requires forall i :: 0 <= i < |ops| ==> GroupTag(ops[i]) != t
    ensures WithTag(ops, t) == []
  {
    if |ops| > 0 {
      var init := ops[..|ops| - 1];
      assert forall i :: 0 <= i < |init| ==> init[i] == ops[i];
      WithTagAbsent(init, t);
    }
  }

  /** Every operation lands in exactly one group: the one keyed by its tag. */
  lemma ExactlyOneGroup(ops: seq<Operation>, k: nat)
    requires k < |ops|
    ensures GroupTag(ops[k]) in Keys(GroupByTag(ops))
    ensures ops[k] in Get(GroupByTag(ops), GroupTag(ops[k])).value
    ensures forall t :: t in Keys(GroupByTag(ops)) && ops[k] in Get(GroupByTag(ops), t).value ==> t == GroupTag(ops[k])
  {
    GroupByTagIsFilter(ops);
    InDedup(TagsOf(ops), GroupTag(ops[k]));
    assert TagsOf(ops)[k] == GroupTag(ops[k]);
  }

  /** No tag heads two groups. */
  lemma GroupKeysDistinct(ops: seq<Operation>)
    ensures Distinct(Keys(GroupByTag(ops)))
  {
    GroupByTagIsFilter(ops);
  }

  /** Appending one operation to a group adds exactly that operation to the flattened groups. */
  lemma {:induction false} FlattenAdd(groups: Groups, op: Operation)
    ensures multiset(Flatten(AddToGroup(groups, op))) == multiset(Flatten(groups)) + multiset{op}
  {
    var tag := GroupTag(op);
    if |groups| == 0 {
      assert Flatten([(tag, [op])]) == [op] + Flatten([]);
    } else if groups[0].0 == tag {
      var r := [(tag, groups[0].1 + [op])] + groups[1..];
      assert r[1..] == groups[1..];
      assert Flatten(r) == (groups[0].1 + [op]) + Flatten(groups[1..]);
    } else {
      FlattenAdd(groups[1..], op);
      var r := [groups[0]] + AddToGroup(groups[1..], op);
      assert r[1..] == AddToGroup(groups[1..], op);
    }
  }

  /** The groups together hold exactly the operations given, each as often as given. */
  lemma {:induction false} GroupsArePermutation(ops: seq<Operation>)
    ensures multiset(Flatten(GroupByTag(ops))) == multiset(ops)
  {
    if |ops| > 0 {
      var init := ops[..|ops| - 1];
      var last := ops[|ops| - 1];
      GroupsArePermutation(init);
      GroupByTagSnoc(ops);
      FlattenAdd(GroupByTag(init), last);
      MultisetSnoc(ops);
    }
  }

  lemma MultisetSnoc(ops: seq<Operation>)
    requires |ops| > 0
    ensures multiset(ops) == multiset(ops[..|ops| - 1]) + multiset{ops[|ops| - 1]}
  {
    assert ops == ops[..|ops| - 1] + [ops[|ops| - 1]];
  }
}
