/** Compacting a joint hierarchy to the joints a skin cluster is influenced
    by (Gen/Skeleton.py): `_markNode` flags each node, `_removeNodes`
    splices out the unflagged ones, and `findCommonBase` picks the deepest
    node every influence path starts with. */
module Skeleton {
  import opened Wrappers
  import opened Trees
  import opened Lists

  /** A hierarchy node with the two flags `_markNode` attaches to it. */
  datatype Joint = Joint(node: Option<string>, isRelevant: bool, hasRelevantChildren: bool, children: seq<Joint>)

  /** The node is kept by the first filter of `_removeNodes`. */
  predicate Flagged(j: Joint)
  {
    j.isRelevant || j.hasRelevantChildren
  }

  /** Some joint of the list is flagged. */
  predicate AnyFlagged(cs: seq<Joint>)
  {
    cs != [] && (Flagged(cs[0]) || AnyFlagged(cs[1..]))
  }

  /** The hierarchy under the flags. */
  function Erase(j: Joint): TreeNode
    decreases j
  {
    TreeNode(j.node, EraseAll(j.children))
  }

  function EraseAll(cs: seq<Joint>): (r: seq<TreeNode>)
    ensures |r| == |cs|
    decreases cs
  {
    if cs == [] then [] else [Erase(cs[0])] + EraseAll(cs[1..])
  }

  /** Whether a node's object is one of the influences (`None` never is). */
  predicate IsInfluence(node: Option<string>, influences: seq<string>)
  {
    node.Some? && node.value in influences
  }

  /** `_markNode`: children first, then the node is relevant when its
      object is an influence and has relevant children when some child is
      relevant or has relevant children. */
  function Mark(t: TreeNode, influences: seq<string>): (j: Joint)
    ensures j.node == t.node && |j.children| == |t.children|
    decreases t
  {
    var cs := MarkAll(t.children, influences);
    Joint(t.node, IsInfluence(t.node, influences), AnyFlagged(cs), cs)
  }

  function MarkAll(ts: seq<TreeNode>, influences: seq<string>): (r: seq<Joint>)
    ensures |r| == |ts|
    ensures forall i :: 0 <= i < |ts| ==> r[i] == Mark(ts[i], influences)
    decreases ts
  {
    if ts == [] then [] else [Mark(ts[0], influences)] + MarkAll(ts[1..], influences)
  }

  /** Some strict descendant of the node is an influence. */
  predicate InfluenceBelow(t: TreeNode, influences: seq<string>)
    decreases t
  {
    InfluenceWithin(t.children, influences)
  }

  /** Some node of some tree of the list is an influence. */
  predicate InfluenceWithin(ts: seq<TreeNode>, influences: seq<string>)
    decreases ts
  {
    ts != [] &&
    (IsInfluence(ts[0].node, influences) || InfluenceBelow(ts[0], influences) || InfluenceWithin(ts[1..], influences))
  }

  /** Every node's relevance flag says whether its object is an influence
      and its other flag whether some strict descendant's object is; marking
      changes no node and no child list. */
  lemma {:induction false} MarkFlags(t: TreeNode, influences: seq<string>)
    ensures Mark(t, influences).isRelevant <==> IsInfluence(t.node, influences)
    ensures Mark(t, influences).hasRelevantChildren <==> InfluenceBelow(t, influences)
    ensures Erase(Mark(t, influences)) == t
    decreases t
  {
    MarkAllFlags(t.children, influences);
  }

  lemma {:induction false} MarkAllFlags(ts: seq<TreeNode>, influences: seq<string>)
    ensures AnyFlagged(MarkAll(ts, influences)) <==> InfluenceWithin(ts, influences)
    ensures EraseAll(MarkAll(ts, influences)) == ts
    decreases ts
  {
    if ts != [] {
      var cs := MarkAll(ts, influences);
      MarkFlags(ts[0], influences);
      MarkAllFlags(ts[1..], influences);
      assert MarkAll(ts[1..], influences) == cs[1..];
    }
  }

  /** The flags agree with the children: a node has relevant children
      exactly when one of its children is flagged, all the way down. */
  predicate WellMarked(j: Joint)
    decreases j
  {
    j.hasRelevantChildren == AnyFlagged(j.children) && WellMarkedAll(j.children)
  }

  predicate WellMarkedAll(cs: seq<Joint>)
    decreases cs
  {
    cs != [] ==> WellMarked(cs[0]) && WellMarkedAll(cs[1..])
  }

  /** Marking leaves every node's flags in agreement with its children. */
  lemma {:induction false} MarkWellMarked(t: TreeNode, influences: seq<string>)
    ensures WellMarked(Mark(t, influences))
    decreases t
  {
    MarkAllWellMarked(t.children, influences);
  }

  lemma {:induction false} MarkAllWellMarked(ts: seq<TreeNode>, influences: seq<string>)
    ensures WellMarkedAll(MarkAll(ts, influences))
    decreases ts
  {
    if ts != [] {
      MarkWellMarked(ts[0], influences);
      MarkAllWellMarked(ts[1..], influences);
      assert MarkAll(ts[1..], influences) == MarkAll(ts, influences)[1..];
    }
  }

  /** `_markNode` as written: recurse into the children, then set both
      flags. */
  method MarkNode(t: TreeNode, influences: seq<string>) returns (j: Joint)
    ensures j == Mark(t, influences)
    decreases t
  {
    var children: seq<Joint> := [];
    for i := 0 to |t.children|
      invariant |children| == i
      invariant forall k :: 0 <= k < i ==> children[k] == Mark(t.children[k], influences)
    {
      var child := MarkNode(t.children[i], influences);
      children := children + [child];
    }
    assert children == MarkAll(t.children, influences);
    var isRelevant := t.node.Some? && t.node.value in influences;
    var relevantCount := 0;
    for i := 0 to |children|
      invariant (relevantCount > 0 || AnyFlagged(children[i..])) == AnyFlagged(children)
    {
      assert children[i..][1..] == children[i + 1..];
      if children[i].isRelevant || children[i].hasRelevantChildren {
        relevantCount := relevantCount + 1;
      }
    }
    assert children[|children|..] == [];
    j := Joint(t.node, isRelevant, relevantCount > 0, children);
  }

  /** `_removeNodes`: unflagged children are dropped, the rest are pruned in
      turn, and a kept child that is not itself relevant is replaced in
      place by its own pruned children.  The node itself always stays. */
  function Pruned(j: Joint): (r: Joint)
    ensures r.node == j.node && r.isRelevant == j.isRelevant && r.hasRelevantChildren == j.hasRelevantChildren
    decreases j, 1
  {
    Joint(j.node, j.isRelevant, j.hasRelevantChildren, PrunedAll(j.children))
  }

  /** What a run of siblings becomes in the pruned parent. */
  function PrunedAll(cs: seq<Joint>): seq<Joint>
    decreases cs, 0
  {
    if cs == [] then []
    else
      var c := cs[0];
      (if !Flagged(c) then [] else if c.isRelevant then [Pruned(c)] else Pruned(c).children)
      + PrunedAll(cs[1..])
  }

  /** Every child of every node below the root is relevant. */
  predicate RelevantChildren(cs: seq<Joint>)
    decreases cs
  {
    cs != [] ==> cs[0].isRelevant && RelevantChildren(cs[0].children) && RelevantChildren(cs[1..])
  }

  lemma {:induction false} RelevantChildrenAppend(a: seq<Joint>, b: seq<Joint>)
    requires RelevantChildren(a) && RelevantChildren(b)
    ensures RelevantChildren(a + b)
    decreases a
  {
    if a != [] {
      RelevantChildrenAppend(a[1..], b);
      assert (a + b)[0] == a[0];
      assert (a + b)[1..] == a[1..] + b;
    } else {
      assert a + b == b;
    }
  }

  /** After pruning, every child of every remaining node is relevant. */
  lemma {:induction false} PrunedChildrenRelevant(j: Joint)
    ensures RelevantChildren(Pruned(j).children)
    decreases j, 1
  {
    PrunedAllRelevant(j.children);
  }

  lemma {:induction false} PrunedAllRelevant(cs: seq<Joint>)
    ensures RelevantChildren(PrunedAll(cs))
    decreases cs, 0
  {
    if cs != [] {
      var c := cs[0];
      PrunedAllRelevant(cs[1..]);
      var head := if !Flagged(c) then [] else if c.isRelevant then [Pruned(c)] else Pruned(c).children;
      if Flagged(c) {
        PrunedChildrenRelevant(c);
        if c.isRelevant {
          assert [Pruned(c)][1..] == [];
        }
      }
      RelevantChildrenAppend(head, PrunedAll(cs[1..]));
    }
  }

  /** The objects of a node's strict descendants, in pre-order. */
  function Below(j: Joint): seq<Option<string>>
    decreases j
  {
    BelowAll(j.children)
  }

  function BelowAll(cs: seq<Joint>): seq<Option<string>>
    decreases cs
  {
    if cs == [] then [] else [cs[0].node] + Below(cs[0]) + BelowAll(cs[1..])
  }

  /** The objects of a node's relevant strict descendants, in pre-order. */
  function RelevantBelow(j: Joint): seq<Option<string>>
    decreases j
  {
    RelevantBelowAll(j.children)
  }

  function RelevantBelowAll(cs: seq<Joint>): seq<Option<string>>
    decreases cs
  {
    if cs == [] then []
    else (if cs[0].isRelevant then [cs[0].node] else []) + RelevantBelow(cs[0]) + RelevantBelowAll(cs[1..])
  }

  lemma {:induction false} BelowAllAppend(a: seq<Joint>, b: seq<Joint>)
    ensures BelowAll(a + b) == BelowAll(a) + BelowAll(b)
    decreases a
  {
    if a != [] {
      BelowAllAppend(a[1..], b);
      assert (a + b)[0] == a[0];
      assert (a + b)[1..] == a[1..] + b;
      assert BelowAll(a + b) == [a[0].node] + Below(a[0]) + BelowAll(a[1..] + b);
    } else {
      assert a + b == b;
    }
  }

  /** A list with no flagged joint and consistent flags holds no relevant
      joint at any depth. */
  lemma {:induction false} UnflaggedHasNoRelevant(cs: seq<Joint>)
    requires WellMarkedAll(cs) && !AnyFlagged(cs)
    ensures RelevantBelowAll(cs) == []
    decreases cs
  {
    if cs != [] {
      assert !Flagged(cs[0]);
      UnflaggedHasNoRelevant(cs[0].children);
      UnflaggedHasNoRelevant(cs[1..]);
    }
  }

  /** Pruning a consistently flagged tree keeps exactly its relevant
      descendants, in their pre-order: no relevant node is dropped, no
      other node is kept, and the order is unchanged. */
  lemma {:induction false} PruneKeepsRelevant(j: Joint)
    requires WellMarked(j)
    ensures Below(Pruned(j)) == RelevantBelow(j)
    decreases j, 1
  {
    PruneAllKeepsRelevant(j.children);
  }

  lemma {:induction false} PruneAllKeepsRelevant(cs: seq<Joint>)
    requires WellMarkedAll(cs)
    ensures BelowAll(PrunedAll(cs)) == RelevantBelowAll(cs)
    decreases cs, 0
  {
    if cs != [] {
      var c := cs[0];
      var rest := PrunedAll(cs[1..]);
      PruneAllKeepsRelevant(cs[1..]);
      var head := if !Flagged(c) then [] else if c.isRelevant then [Pruned(c)] else Pruned(c).children;
      BelowAllAppend(head, rest);
      if !Flagged(c) {
        UnflaggedHasNoRelevant(c.children);
      } else {
        PruneKeepsRelevant(c);
        if c.isRelevant {
          assert [Pruned(c)][1..] == [];
          assert BelowAll(head) == [c.node] + Below(Pruned(c)) + BelowAll([]);
        }
      }
    }
  }

  /** The flagged children of a list, in order. */
  function KeepFlagged(cs: seq<Joint>): (r: seq<Joint>)
    ensures forall x :: x in r ==> x in cs
    decreases cs
  {
    if cs == [] then [] else (if Flagged(cs[0]) then [cs[0]] else []) + KeepFlagged(cs[1..])
  }

  /** The last loop of `_removeNodes`: a relevant joint stays, any other is
      replaced by its children. */
  function Spliced(ps: seq<Joint>): seq<Joint>
    decreases ps
  {
    if ps == [] then [] else (if ps[0].isRelevant then [ps[0]] else ps[0].children) + Spliced(ps[1..])
  }

  /** Filtering, pruning each survivor and splicing, as the three loops of
      `_removeNodes` do, gives the pruned child list. */
  lemma {:induction false} ThreeLoops(cs: seq<Joint>, pruned: seq<Joint>)
    requires |pruned| == |KeepFlagged(cs)|
    requires forall k :: 0 <= k < |pruned| ==> pruned[k] == Pruned(KeepFlagged(cs)[k])
    ensures Spliced(pruned) == PrunedAll(cs)
    decreases cs
  {
    if cs != [] {
      if Flagged(cs[0]) {
        assert KeepFlagged(cs) == [cs[0]] + KeepFlagged(cs[1..]);
        assert pruned[0] == Pruned(cs[0]);
        forall k | 0 <= k < |pruned[1..]|
          ensures pruned[1..][k] == Pruned(KeepFlagged(cs[1..])[k])
        {
          assert KeepFlagged(cs)[k + 1] == KeepFlagged(cs[1..])[k];
        }
        ThreeLoops(cs[1..], pruned[1..]);
      } else {
        assert KeepFlagged(cs) == KeepFlagged(cs[1..]);
        ThreeLoops(cs[1..], pruned);
      }
    }
  }

  /** `_removeNodes` as written: filter, prune each survivor, splice. */
  method RemoveNodes(j: Joint) returns (r: Joint)
    ensures r == Pruned(j)
    decreases j
  {
    var kept := FlaggedChildren(j.children);
    var pruned: seq<Joint> := [];
    for i := 0 to |kept|
      invariant |pruned| == i
      invariant forall k :: 0 <= k < i ==> pruned[k] == Pruned(kept[k])
    {
      assert kept[i] in j.children;
      var child := RemoveNodes(kept[i]);
      pruned := pruned + [child];
    }
    var children := Splice(pruned);
    ThreeLoops(j.children, pruned);
    r := Joint(j.node, j.isRelevant, j.hasRelevantChildren, children);
  }

  /** The first comprehension of `_removeNodes`: the flagged children. */
  method FlaggedChildren(cs: seq<Joint>) returns (kept: seq<Joint>)
    ensures kept == KeepFlagged(cs)
  {
    kept := [];
    for i := 0 to |cs|
      invariant kept + KeepFlagged(cs[i..]) == KeepFlagged(cs)
    {
      assert cs[i..][1..] == cs[i + 1..];
      if cs[i].hasRelevantChildren || cs[i].isRelevant {
        kept := kept + [cs[i]];
      }
    }
    assert cs[|cs|..] == [];
    assert kept + [] == kept;
  }

  /** The last loop of `_removeNodes`. */
  method Splice(pruned: seq<Joint>) returns (children: seq<Joint>)
    ensures children == Spliced(pruned)
  {
    children := [];
    for i := 0 to |pruned|
      invariant children + Spliced(pruned[i..]) == Spliced(pruned)
    {
      assert pruned[i..][1..] == pruned[i + 1..];
      if pruned[i].isRelevant {
        children := children + [pruned[i]];
      } else {
        children := children + pruned[i].children;
      }
    }
    assert pruned[|pruned|..] == [];
    assert children + [] == children;
  }

  /** The objects of a tree's strict descendants that are influences, in
      pre-order. */
  function InfluencesBelow(t: TreeNode, influences: seq<string>): seq<Option<string>>
    decreases t
  {
    InfluencesWithin(t.children, influences)
  }

  function InfluencesWithin(ts: seq<TreeNode>, influences: seq<string>): seq<Option<string>>
    decreases ts
  {
    if ts == [] then []
    else
      (if IsInfluence(ts[0].node, influences) then [ts[0].node] else [])
      + InfluencesBelow(ts[0], influences) + InfluencesWithin(ts[1..], influences)
  }

  lemma {:induction false} RelevantAreInfluences(t: TreeNode, influences: seq<string>)
    ensures RelevantBelow(Mark(t, influences)) == InfluencesBelow(t, influences)
    decreases t
  {
    RelevantAllAreInfluences(t.children, influences);
  }

  lemma {:induction false} RelevantAllAreInfluences(ts: seq<TreeNode>, influences: seq<string>)
    ensures RelevantBelowAll(MarkAll(ts, influences)) == InfluencesWithin(ts, influences)
    decreases ts
  {
    if ts != [] {
      RelevantAreInfluences(ts[0], influences);
      RelevantAllAreInfluences(ts[1..], influences);
      assert MarkAll(ts[1..], influences) == MarkAll(ts, influences)[1..];
    }
  }

  /** `build` after the hierarchy is read: mark, then prune. */
  function Compacted(t: TreeNode, influences: seq<string>): Joint
  {
    Pruned(Mark(t, influences))
  }

  /** The compacted skeleton keeps the root and, below it, exactly the
      influence joints of the hierarchy in pre-order, each child of each
      node relevant. */
  lemma CompactedSkeleton(t: TreeNode, influences: seq<string>)
    ensures Compacted(t, influences).node == t.node
    ensures Below(Compacted(t, influences)) == InfluencesBelow(t, influences)
    ensures RelevantChildren(Compacted(t, influences).children)
  {
    MarkWellMarked(t, influences);
    PruneKeepsRelevant(Mark(t, influences));
    RelevantAreInfluences(t, influences);
    PrunedChildrenRelevant(Mark(t, influences));
  }

  /** Every path has the needle, first occurring at position depth. */
  predicate AllAt(paths: seq<seq<string>>, needle: string, depth: nat)
  {
    forall p :: p in paths ==> needle in p && IndexOf(p, needle) == depth
  }

  /** The number of leading nodes of the first path that every path holds
      at the same position: the depth `findCommonBase` stops at. */
  predicate IsCommonDepth(paths: seq<seq<string>>, d: nat)
    requires |paths| > 0
  {
    d <= |paths[0]| &&
    (forall k :: 0 <= k < d ==> AllAt(paths, paths[0][k], k)) &&
    (d < |paths[0]| ==> !AllAt(paths, paths[0][d], d))
  }

  /** `findCommonBase` over the root-first ancestor paths of the
      influences: None for no paths or no common first node, otherwise the
      deepest node all paths agree on. */
  method FindCommonBase(paths: seq<seq<string>>) returns (r: Option<string>)
    ensures paths == [] ==> r == None
    ensures paths != [] ==>
              exists d :: IsCommonDepth(paths, d) && r == (if d == 0 then None else Some(paths[0][d - 1]))
  {
    if |paths| == 0 {
      return None;
    }
    var depth := 0;
    while depth < |paths[0]|
      invariant depth <= |paths[0]|
      invariant forall k :: 0 <= k < depth ==> AllAt(paths, paths[0][k], k)
      decreases |paths[0]| - depth
    {
      var needle := paths[0][depth];
      var misplaced := 0;
      for i := 0 to |paths|
        invariant misplaced > 0 <==> exists q :: q in paths[..i] && (needle !in q || IndexOf(q, needle) != depth)
      {
        if needle !in paths[i] || IndexOf(paths[i], needle) != depth {
          misplaced := misplaced + 1;
        }
        assert paths[..i + 1] == paths[..i] + [paths[i]];
      }
      assert paths[..|paths|] == paths;
      if misplaced > 0 {
        break;
      }
      depth := depth + 1;
    }
    assert IsCommonDepth(paths, depth);
    if depth == 0 {
      return None;
    }
    return Some(paths[0][depth - 1]);
  }

  /** Every path starts with the first d nodes of the first path, where d
      is the common depth. */
  lemma {:induction false} CommonDepthPrefix(paths: seq<seq<string>>, d: nat)
    requires |paths| > 0 && IsCommonDepth(paths, d)
    ensures forall p :: p in paths ==> |p| >= d && p[..d] == paths[0][..d]
  {
    forall p | p in paths
      ensures |p| >= d && p[..d] == paths[0][..d]
    {
      if d > 0 {
        assert AllAt(paths, paths[0][d - 1], d - 1);
      }
      forall k | 0 <= k < d
        ensures k < |p| && p[k] == paths[0][k]
      {
        assert AllAt(paths, paths[0][k], k);
      }
    }
  }

  /** There is one common depth, so the method's result is determined. */
  lemma CommonDepthUnique(paths: seq<seq<string>>, d1: nat, d2: nat)
    requires |paths| > 0 && IsCommonDepth(paths, d1) && IsCommonDepth(paths, d2)
    ensures d1 == d2
  {
  }
}
