/** The data builder of a skinned mesh (Gen/SkinnedMeshBuilder.py): the
    joints of the mesh's compacted skeleton are walked in pre-order and each
    visited joint gets the next pixel index, its parent's index and its
    depth below the mesh's parent. */
module SkinnedMeshBuilder {
  import opened Wrappers
  import opened Trees
  import opened RenderFunctions
  import opened RenderType
  import opened Textures
  import opened MeshRendering

  /** Every node of the subtree names a joint. */
  predicate AllNamed(t: TreeNode)
    decreases t
  {
    t.node.Some? && AllNamedAll(t.children)
  }

  predicate AllNamedAll(cs: seq<TreeNode>)
    decreases cs
  {
    cs != [] ==> AllNamed(cs[0]) && AllNamedAll(cs[1..])
  }

  /** The records `_assignSkeletonData` appends for the subtree of a joint
      t whose parent index is p and depth d, when the next free index is
      next: t's own record, then its children's, each child with t as
      parent. */
  function JointEntries(t: TreeNode, p: int, d: int, next: int): seq<NodeData>
    decreases t
  {
    [NodeData(t.node, p, next, d)] + JointEntriesAll(t.children, next, d + 1, next + 1)
  }

  /** The records of a run of sibling joints, one subtree after another. */
  function JointEntriesAll(cs: seq<TreeNode>, p: int, d: int, next: int): seq<NodeData>
    decreases cs
  {
    if cs == [] then []
    else
      var e := JointEntries(cs[0], p, d, next);
      e + JointEntriesAll(cs[1..], p, d, next + |e|)
  }

  /** One sibling subtree off the front of a run: its records, then the
      rest's from the index after them. */
  lemma ChildStep(cs: seq<TreeNode>, i: int, p: int, d: int, next: int)
    requires 0 <= i < |cs|
    ensures AllNamedAll(cs[i..]) ==> AllNamed(cs[i]) && AllNamedAll(cs[i + 1..])
    ensures JointEntriesAll(cs[i..], p, d, next)
            == JointEntries(cs[i], p, d, next) + JointEntriesAll(cs[i + 1..], p, d, next + |JointEntries(cs[i], p, d, next)|)
  {
    assert cs[i..][0] == cs[i] && cs[i..][1..] == cs[i + 1..];
  }

  /** The records of a whole skeleton whose root is given the builder's
      start index, parent index p and depth.  A root without a joint is not
      visited; its children see it with the builder's index and depth. */
  function SkeletonEntries(root: TreeNode, p: int, start: int, depth: int): seq<NodeData>
  {
    if root.node.Some? then JointEntries(root, p, depth, start)
    else JointEntriesAll(root.children, start, depth + 1, start)
  }

  /** The running maximum of `mMaxDepth`: m, then each record's depth. */
  function Deepest(m: int, es: seq<NodeData>): int
  {
    if es == [] then m else Max(Deepest(m, es[..|es| - 1]), es[|es| - 1].depth)
  }

  lemma {:induction false} DeepestAppend(m: int, a: seq<NodeData>, b: seq<NodeData>)
    ensures Deepest(m, a + b) == Deepest(Deepest(m, a), b)
    decreases |b|
  {
    if b == [] {
      assert a + b == a;
    } else {
      assert (a + b)[..|a + b| - 1] == a + b[..|b| - 1];
      DeepestAppend(m, a, b[..|b| - 1]);
    }
  }

  /** `mMaxDepth` is the largest of the starting depth and every record's
      depth, and it is one of them. */
  lemma {:induction false} DeepestIsMax(m: int, es: seq<NodeData>)
    ensures m <= Deepest(m, es)
    ensures forall k :: 0 <= k < |es| ==> es[k].depth <= Deepest(m, es)
    ensures Deepest(m, es) == m || exists k :: 0 <= k < |es| && es[k].depth == Deepest(m, es)
    decreases |es|
  {
    if es != [] {
      var init := es[..|es| - 1];
      DeepestIsMax(m, init);
      assert forall k :: 0 <= k < |init| ==> es[k] == init[k];
    }
  }

  /** The records of a subtree take consecutive indices from next on. */
  lemma {:induction false} JointEntriesConsecutive(t: TreeNode, p: int, d: int, next: int)
    ensures forall k :: 0 <= k < |JointEntries(t, p, d, next)| ==> JointEntries(t, p, d, next)[k].index == next + k
    decreases t
  {
    JointEntriesAllConsecutive(t.children, next, d + 1, next + 1);
  }

  lemma {:induction false} JointEntriesAllConsecutive(cs: seq<TreeNode>, p: int, d: int, next: int)
    ensures forall k :: 0 <= k < |JointEntriesAll(cs, p, d, next)| ==> JointEntriesAll(cs, p, d, next)[k].index == next + k
    decreases cs
  {
    if cs != [] {
      var e := JointEntries(cs[0], p, d, next);
      JointEntriesConsecutive(cs[0], p, d, next);
      JointEntriesAllConsecutive(cs[1..], p, d, next + |e|);
    }
  }

  /** The records follow the tree walk one for one: the k-th record is for
      the object of the k-th callback call. */
  lemma {:induction false} JointEntriesFollowWalk(t: TreeNode, parent: Option<TreeNode>, p: int, d: int, next: int)
    requires AllNamed(t)
    ensures |JointEntries(t, p, d, next)| == |Walk(t, parent)|
    ensures forall k :: 0 <= k < |Walk(t, parent)| ==> JointEntries(t, p, d, next)[k].node == Walk(t, parent)[k].node.node
    decreases t
  {
    JointEntriesAllFollowWalk(t.children, t, next, d + 1, next + 1);
  }

  lemma {:induction false} JointEntriesAllFollowWalk(cs: seq<TreeNode>, parent: TreeNode, p: int, d: int, next: int)
    requires AllNamedAll(cs)
    ensures |JointEntriesAll(cs, p, d, next)| == |WalkAll(cs, parent)|
    ensures forall k :: 0 <= k < |WalkAll(cs, parent)| ==> JointEntriesAll(cs, p, d, next)[k].node == WalkAll(cs, parent)[k].node.node
    decreases cs
  {
    if cs != [] {
      var e := JointEntries(cs[0], p, d, next);
      JointEntriesFollowWalk(cs[0], Some(parent), p, d, next);
      JointEntriesAllFollowWalk(cs[1..], parent, p, d, next + |e|);
    }
  }

  /** Every record strictly between the j-th and the k-th is at least as
      deep as the k-th. */
  predicate DeepBetween(es: seq<NodeData>, j: int, k: int)
    requires 0 <= j < k < |es|
  {
    forall i :: j < i < k ==> es[i].depth >= es[k].depth
  }

  /** The j-th record is the k-th record's tree parent's record: it comes
      earlier, it is one level shallower, it holds the k-th record's parent
      index, and it is the nearest such record.  In the depth-first order
      of the records, every record strictly between a joint's and its
      child's lies below the joint, so is at least as deep as the child. */
  predicate ParentAt(es: seq<NodeData>, j: int, k: int)
    requires 0 <= j < k < |es|
  {
    es[j].index == es[k].parentIndex && es[k].depth == es[j].depth + 1 && DeepBetween(es, j, k)
  }

  /** The k-th record's parent index is the index of its tree parent's
      record. */
  predicate ParentBefore(es: seq<NodeData>, k: int)
    requires 0 <= k < |es|
  {
    exists j :: 0 <= j < k && ParentAt(es, j, k)
  }

  /** The k-th record is at depth d or deeper, and either carries the
      top-level link (p, d) or names its tree parent's record. */
  predicate LinkedAt(es: seq<NodeData>, k: int, p: int, d: int)
    requires 0 <= k < |es|
  {
    es[k].depth >= d && ((es[k].parentIndex == p && es[k].depth == d) || ParentBefore(es, k))
  }

  /** Every record is linked: to (p, d) at the top, to its tree parent's
      record below. */
  predicate Linked(es: seq<NodeData>, p: int, d: int)
  {
    forall k :: 0 <= k < |es| ==> LinkedAt(es, k, p, d)
  }

  lemma LinkedCons(r: NodeData, rest: seq<NodeData>, p: int, d: int)
    requires r.parentIndex == p && r.depth == d && Linked(rest, r.index, d + 1)
    ensures Linked([r] + rest, p, d)
  {
    var es := [r] + rest;
    forall k | 0 <= k < |es|
      ensures LinkedAt(es, k, p, d)
    {
      if k == 0 {
        assert es[0] == r;
      } else {
        assert es[k] == rest[k - 1];
        assert LinkedAt(rest, k - 1, r.index, d + 1);
        if rest[k - 1].parentIndex == r.index && rest[k - 1].depth == d + 1 {
          assert es[0] == r;
          forall i | 0 < i < k
            ensures es[i].depth >= es[k].depth
          {
            assert es[i] == rest[i - 1];
            assert LinkedAt(rest, i - 1, r.index, d + 1);
          }
          assert DeepBetween(es, 0, k);
          assert ParentAt(es, 0, k);
        } else {
          assert ParentBefore(rest, k - 1);
          var j :| 0 <= j < k - 1 && ParentAt(rest, j, k - 1);
          assert es[j + 1] == rest[j];
          forall i | j + 1 < i < k
            ensures es[i].depth >= es[k].depth
          {
            assert es[i] == rest[i - 1];
            assert DeepBetween(rest, j, k - 1);
          }
          assert DeepBetween(es, j + 1, k);
          assert ParentAt(es, j + 1, k);
        }
      }
    }
  }

  lemma LinkedAppend(a: seq<NodeData>, b: seq<NodeData>, p: int, d: int)
    requires Linked(a, p, d) && Linked(b, p, d)
    ensures Linked(a + b, p, d)
  {
    var es := a + b;
    forall k | 0 <= k < |es|
      ensures LinkedAt(es, k, p, d)
    {
      if k < |a| {
        assert es[k] == a[k];
        assert LinkedAt(a, k, p, d);
        if !(a[k].parentIndex == p && a[k].depth == d) {
          var j :| 0 <= j < k && ParentAt(a, j, k);
          assert es[j] == a[j];
          forall i | j < i < k
            ensures es[i].depth >= es[k].depth
          {
            assert es[i] == a[i];
            assert DeepBetween(a, j, k);
          }
          assert DeepBetween(es, j, k);
          assert ParentAt(es, j, k);
        }
      } else {
        var m := k - |a|;
        assert es[k] == b[m];
        assert LinkedAt(b, m, p, d);
        if !(b[m].parentIndex == p && b[m].depth == d) {
          var j :| 0 <= j < m && ParentAt(b, j, m);
          assert es[j + |a|] == b[j];
          forall i | j + |a| < i < k
            ensures es[i].depth >= es[k].depth
          {
            assert es[i] == b[i - |a|];
            assert DeepBetween(b, j, m);
          }
          assert DeepBetween(es, j + |a|, k);
          assert ParentAt(es, j + |a|, k);
        }
      }
    }
  }

  lemma {:induction false} JointEntriesLinked(t: TreeNode, p: int, d: int, next: int)
    ensures Linked(JointEntries(t, p, d, next), p, d)
    decreases t
  {
    JointEntriesAllLinked(t.children, next, d + 1, next + 1);
    LinkedCons(NodeData(t.node, p, next, d), JointEntriesAll(t.children, next, d + 1, next + 1), p, d);
  }

  lemma {:induction false} JointEntriesAllLinked(cs: seq<TreeNode>, p: int, d: int, next: int)
    ensures Linked(JointEntriesAll(cs, p, d, next), p, d)
    decreases cs
  {
    if cs != [] {
      var e := JointEntries(cs[0], p, d, next);
      JointEntriesLinked(cs[0], p, d, next);
      var rest := JointEntriesAll(cs[1..], p, d, next + |e|);
      JointEntriesAllLinked(cs[1..], p, d, next + |e|);
      LinkedAppend(e, rest, p, d);
      assert JointEntriesAll(cs, p, d, next) == e + rest;
    }
  }

  /** What the builder records for a whole skeleton: one record per
      callback call of `iterate`, for the same objects in the same order,
      with consecutive indices from the start index; the root joint (or,
      for a root without a joint, each top joint) links to the builder's
      parent, every other record to its tree parent's record. */
  lemma SkeletonEntriesShape(root: TreeNode, p: int, start: int, depth: int)
    requires AllNamedAll(root.children)
    ensures var es := SkeletonEntries(root, p, start, depth);
            |es| == |Iterate(root)| == NamedCount(root) &&
            (forall k :: 0 <= k < |es| ==> es[k].node == Iterate(root)[k].node.node && es[k].index == start + k) &&
            Linked(es, if root.node.Some? then p else start, if root.node.Some? then depth else depth + 1)
  {
    WalkVisits(root, None);
    if root.node.Some? {
      JointEntriesFollowWalk(root, None, p, depth, start);
      JointEntriesConsecutive(root, p, depth, start);
      JointEntriesLinked(root, p, depth, start);
    } else {
      assert Iterate(root) == WalkAll(root.children, root);
      JointEntriesAllFollowWalk(root.children, root, start, depth + 1, start);
      JointEntriesAllConsecutive(root.children, start, depth + 1, start);
      JointEntriesAllLinked(root.children, start, depth + 1, start);
    }
  }

  class SkinnedMeshDataBuilder {
    /** The mesh's own parent index, start index and depth. */
    const parentIndex: int
    const index: int
    const depth: int
    var maxDepth: int
    var data: seq<NodeData>
    var skeletonIndex: int
    var indexCount: int

    /** Builds the records for the mesh's compacted skeleton (given, since
        finding the skin cluster and compacting it query Maya). */
    constructor (parentIndex: int, startIndex: int, parentDepth: int, skeleton: TreeNode)
      requires AllNamedAll(skeleton.children)
      ensures this.parentIndex == parentIndex && index == startIndex && depth == parentDepth + 1
      ensures data == SkeletonEntries(skeleton, parentIndex, startIndex, parentDepth + 1)
      ensures maxDepth == Deepest(parentDepth + 1, data)
      ensures skeletonIndex == startIndex + |data| && indexCount == |data|
    {
      this.parentIndex := parentIndex;
      index := startIndex;
      depth := parentDepth + 1;
      maxDepth := parentDepth + 1;
      data := [];
      skeletonIndex := startIndex;
      indexCount := 0;
      new;
      if skeleton.node.Some? {
        IterateJoints(skeleton, None);
      } else {
        IterateChildren(skeleton.children, (index, depth));
      }
      indexCount := skeletonIndex - index;
    }

    function RootIndex(): int
    {
      index
    }

    function MaxDepth(): int
      reads this
    {
      maxDepth
    }

    function IndexCount(): int
      reads this
    {
      indexCount
    }

    /** The parent index and depth a joint is given: its parent's index and
        depth plus one, or for the root the builder's own. */
    function LinkFor(parent: Option<(int, int)>): (int, int)
    {
      if parent.Some? then (parent.value.0, parent.value.1 + 1) else (parentIndex, depth)
    }

    /** `_assignSkeletonData` on a visited joint whose parent, if any, has
        the given index and depth: the joint takes the next index, its
        record is appended and the maximum depth follows it.  Returns the
        joint's index and depth, as its children will see them. */
    method AssignSkeletonData(node: Option<string>, parent: Option<(int, int)>) returns (link: (int, int))
      modifies this
      ensures link == (old(skeletonIndex), LinkFor(parent).1)
      ensures data == old(data) + [NodeData(node, LinkFor(parent).0, link.0, link.1)]
      ensures skeletonIndex == old(skeletonIndex) + 1
      ensures maxDepth == Max(old(maxDepth), link.1)
      ensures indexCount == old(indexCount)
    {
      var (p, d) := LinkFor(parent);
      var i := skeletonIndex;
      skeletonIndex := skeletonIndex + 1;
      data := data + [NodeData(node, p, i, d)];
      maxDepth := Max(maxDepth, d);
      link := (i, d);
    }

    /** `_iterate` from a joint: the callback on the joint, then each child
        subtree with the joint as parent. */
    method IterateJoints(t: TreeNode, parent: Option<(int, int)>)
      requires AllNamed(t)
      modifies this
      ensures data == old(data) + JointEntries(t, LinkFor(parent).0, LinkFor(parent).1, old(skeletonIndex))
      ensures skeletonIndex == old(skeletonIndex) + |JointEntries(t, LinkFor(parent).0, LinkFor(parent).1, old(skeletonIndex))|
      ensures maxDepth == Deepest(old(maxDepth), JointEntries(t, LinkFor(parent).0, LinkFor(parent).1, old(skeletonIndex)))
      ensures indexCount == old(indexCount)
      decreases t, 1
    {
      ghost var first := NodeData(t.node, LinkFor(parent).0, skeletonIndex, LinkFor(parent).1);
      var link := AssignSkeletonData(t.node, parent);
      assert maxDepth == Deepest(old(maxDepth), [first]) by {
        assert [first][..0] == [];
      }
      IterateChildren(t.children, link);
      DeepestAppend(old(maxDepth), [first], JointEntriesAll(t.children, link.0, link.1 + 1, link.0 + 1));
    }

    /** The child loop of `_iterate`: each child subtree in order, all with
        the parent whose index and depth are link. */
    method IterateChildren(cs: seq<TreeNode>, link: (int, int))
      requires AllNamedAll(cs)
      modifies this
      ensures data == old(data) + JointEntriesAll(cs, link.0, link.1 + 1, old(skeletonIndex))
      ensures skeletonIndex == old(skeletonIndex) + |JointEntriesAll(cs, link.0, link.1 + 1, old(skeletonIndex))|
      ensures maxDepth == Deepest(old(maxDepth), JointEntriesAll(cs, link.0, link.1 + 1, old(skeletonIndex)))
      ensures indexCount == old(indexCount)
      decreases cs, 0
    {
      ghost var all := JointEntriesAll(cs, link.0, link.1 + 1, skeletonIndex);
      ghost var done: seq<NodeData> := [];
      for i := 0 to |cs|
        invariant AllNamedAll(cs[i..])
        invariant done + JointEntriesAll(cs[i..], link.0, link.1 + 1, skeletonIndex) == all
        invariant data == old(data) + done
        invariant skeletonIndex == old(skeletonIndex) + |done|
        invariant maxDepth == Deepest(old(maxDepth), done)
        invariant indexCount == old(indexCount)
      {
        done := VisitChild(cs, i, link, old(data), old(maxDepth), old(skeletonIndex), done, all);
      }
      assert cs[|cs|..] == [];
      assert done + [] == done;
    }

    /** One round of the child loop: the i-th child's subtree, after which
        the records so far have grown by that subtree's records. */
    method VisitChild(cs: seq<TreeNode>, i: int, link: (int, int), ghost base: seq<NodeData>, ghost m0: int, ghost s0: int,
                      ghost done: seq<NodeData>, ghost all: seq<NodeData>)
      returns (ghost done': seq<NodeData>)
      requires 0 <= i < |cs| && AllNamedAll(cs[i..])
      requires done + JointEntriesAll(cs[i..], link.0, link.1 + 1, skeletonIndex) == all
      requires data == base + done && skeletonIndex == s0 + |done| && maxDepth == Deepest(m0, done)
      modifies this
      ensures AllNamedAll(cs[i + 1..])
      ensures done' + JointEntriesAll(cs[i + 1..], link.0, link.1 + 1, skeletonIndex) == all
      ensures data == base + done' && skeletonIndex == s0 + |done'| && maxDepth == Deepest(m0, done')
      ensures indexCount == old(indexCount)
      decreases cs[i], 2
    {
      ChildStep(cs, i, link.0, link.1 + 1, skeletonIndex);
      ghost var e := JointEntries(cs[i], link.0, link.1 + 1, skeletonIndex);
      ghost var rest := JointEntriesAll(cs[i + 1..], link.0, link.1 + 1, skeletonIndex + |e|);
      assert (done + e) + rest == done + (e + rest);
      assert base + (done + e) == (base + done) + e;
      IterateJoints(cs[i], Some(link));
      DeepestAppend(m0, done, e);
      done' := done + e;
    }

    /** `renderTextures`: for each texture, its colour then its alpha
        render type on the pixel of every record, records with a negative
        index skipped. */
    method RenderTextures(textures: seq<Texture>, scene: Scene) returns (outcome: Result<(), RenderError>)
      requires Unshared(textures)
      modifies PixelsOf(textures)
      ensures var r := RenderFrom(Sources(textures), data, old(ChannelsOf(textures)), 0, scene);
              outcome == r.0 && ChannelsOf(textures) == r.1
    {
      outcome := RenderEntries(textures, data, scene);
    }
  }

  /** A skeleton's records have distinct indices; when they all fit in
      every texture and every render type is known, filling succeeds, each
      record's pixel gets the texture's colour call then its alpha call,
      and the pixels outside the builder's index range keep their
      channels. */
  lemma SkeletonRendered(root: TreeNode, p: int, start: int, depth: int,
                         sources: seq<(Source, Source)>, pxs: seq<seq<seq<bv32>>>, scene: Scene)
    requires AllNamedAll(root.children) && start >= 0
    requires |pxs| == |sources| && AllFourChannels(pxs)
    requires forall t :: 0 <= t < |sources| ==> sources[t].0.found.Ok? && sources[t].1.found.Ok?
    requires forall t :: 0 <= t < |pxs| ==> start + NamedCount(root) <= |pxs[t]|
    ensures var es := SkeletonEntries(root, p, start, depth);
            var r := RenderFrom(sources, es, pxs, 0, scene);
            |es| == NamedCount(root) && r.0.Ok? &&
            (forall t, k :: 0 <= t < |sources| && 0 <= k < |es| ==>
               r.1[t][start + k]
                 == Apply(sources[t].1.found.value, es[k],
                          Apply(sources[t].0.found.value, es[k], pxs[t][start + k], scene), scene)) &&
            (forall t, q :: 0 <= t < |sources| && 0 <= q < |pxs[t]| && !(start <= q < start + |es|) ==>
               r.1[t][q] == pxs[t][q])
  {
    var es := SkeletonEntries(root, p, start, depth);
    SkeletonEntriesShape(root, p, start, depth);
    assert forall k :: 0 <= k < |es| ==> es[k].index == start + k;
    forall q | !(start <= q < start + |es|)
      ensures Unnamed(es, q)
    {
      forall j | 0 <= j < |es|
        ensures es[j].index != q
      {
        assert es[j].index == start + j;
      }
    }
    RenderFromAll(sources, es, pxs, scene);
    var r := RenderFrom(sources, es, pxs, 0, scene);
    forall t, q | 0 <= t < |sources| && 0 <= q < |pxs[t]| && !(start <= q < start + |es|)
      ensures r.1[t][q] == pxs[t][q]
    {
      assert Unnamed(es, q);
    }
  }
}
