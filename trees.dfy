/** Scene hierarchies (Gen/Trees.py): a node names a Maya object (or
    nothing, for the placeholder root) and holds its children in order. */
module Trees {
  import opened Wrappers

  datatype TreeNode = TreeNode(node: Option<string>, children: seq<TreeNode>)

  /** One call of the iteration callback: the node and the parent handed to
      it with the node (None for the root). */
  datatype Visit = Visit(node: TreeNode, parent: Option<TreeNode>)

  /** `_iterate(parent, fn)`: the callback calls, in order, made for the
      subtree t entered from parent.  A node without an object is not
      passed to the callback, but its children are still walked with it as
      their parent. */
  function Walk(t: TreeNode, parent: Option<TreeNode>): seq<Visit>
    decreases t
  {
    (if t.node.Some? then [Visit(t, parent)] else []) + WalkAll(t.children, t)
  }

  /** The walks of a run of siblings, one after another. */
  function WalkAll(cs: seq<TreeNode>, parent: TreeNode): seq<Visit>
    decreases cs
  {
    if cs == [] then [] else Walk(cs[0], Some(parent)) + WalkAll(cs[1..], parent)
  }

  /** `iterate`: the walk of the whole tree, the root having no parent. */
  function Iterate(t: TreeNode): seq<Visit>
  {
    Walk(t, None)
  }

  /** The nodes of t that carry an object. */
  function NamedCount(t: TreeNode): nat
    decreases t
  {
    (if t.node.Some? then 1 else 0) + NamedCountAll(t.children)
  }

  function NamedCountAll(cs: seq<TreeNode>): nat
    decreases cs
  {
    if cs == [] then 0 else NamedCount(cs[0]) + NamedCountAll(cs[1..])
  }

  /** s is t or a node somewhere below it. */
  predicate Within(s: TreeNode, t: TreeNode)
    decreases t
  {
    s == t || WithinAll(s, t.children)
  }

  /** s is one of the trees cs or a node somewhere below one of them. */
  predicate WithinAll(s: TreeNode, cs: seq<TreeNode>)
    decreases cs
  {
    cs != [] && (Within(s, cs[0]) || WithinAll(s, cs[1..]))
  }

  /** The walk of t makes one callback call per node with an object, and
      for exactly those nodes: every call is for a node of t that has an
      object, every node of t that has an object gets a call, and the
      number of calls is the number of such nodes.  Every call but the
      first comes with the node's tree parent, itself a node of t. */
  lemma {:induction false} WalkVisits(t: TreeNode, parent: Option<TreeNode>)
    ensures |Walk(t, parent)| == NamedCount(t)
    ensures forall v :: v in Walk(t, parent) ==> v.node.node.Some? && Within(v.node, t)
    ensures forall s :: Within(s, t) && s.node.Some? ==>
              exists k :: 0 <= k < |Walk(t, parent)| && Walk(t, parent)[k].node == s
    ensures forall v :: v in Walk(t, parent) ==>
              v == Visit(t, parent) ||
              (v.parent.Some? && Within(v.parent.value, t) && v.node in v.parent.value.children)
    decreases t
  {
    var head := if t.node.Some? then [Visit(t, parent)] else [];
    var rest := WalkAll(t.children, t);
    assert Walk(t, parent) == head + rest;
    WalkAllVisits(t.children, t);
    forall s | Within(s, t) && s.node.Some?
      ensures exists k :: 0 <= k < |Walk(t, parent)| && Walk(t, parent)[k].node == s
    {
      if s == t {
        assert Walk(t, parent)[0].node == s;
      } else {
        var k :| 0 <= k < |rest| && rest[k].node == s;
        assert Walk(t, parent)[|head| + k].node == s;
      }
    }
  }

  /** The same for the walks of a run of siblings entered from parent:
      the calls cover exactly the nodes with an object below the run, and
      each comes with parent (for a sibling itself) or with its tree
      parent below the run. */
  lemma {:induction false} WalkAllVisits(cs: seq<TreeNode>, parent: TreeNode)
    ensures |WalkAll(cs, parent)| == NamedCountAll(cs)
    ensures forall v :: v in WalkAll(cs, parent) ==> v.node.node.Some? && WithinAll(v.node, cs)
    ensures forall s :: WithinAll(s, cs) && s.node.Some? ==>
              exists k :: 0 <= k < |WalkAll(cs, parent)| && WalkAll(cs, parent)[k].node == s
    ensures forall v :: v in WalkAll(cs, parent) ==>
              (v.parent == Some(parent) && v.node in cs) ||
              (v.parent.Some? && WithinAll(v.parent.value, cs) && v.node in v.parent.value.children)
    decreases cs
  {
    if cs != [] {
      var first := Walk(cs[0], Some(parent));
      var rest := WalkAll(cs[1..], parent);
      WalkVisits(cs[0], Some(parent));
      WalkAllVisits(cs[1..], parent);
      assert WalkAll(cs, parent) == first + rest;
      forall v | v in rest && v.parent == Some(parent) && v.node in cs[1..]
        ensures v.node in cs
      {
      }
      forall s | WithinAll(s, cs) && s.node.Some?
        ensures exists k :: 0 <= k < |WalkAll(cs, parent)| && WalkAll(cs, parent)[k].node == s
      {
        if Within(s, cs[0]) {
          var k :| 0 <= k < |first| && first[k].node == s;
          assert WalkAll(cs, parent)[k].node == s;
        } else {
          var k :| 0 <= k < |rest| && rest[k].node == s;
          assert WalkAll(cs, parent)[|first| + k].node == s;
        }
      }
    }
  }

  /** A root with an object is the first callback call, with no parent. */
  lemma RootFirst(t: TreeNode)
    requires t.node.Some?
    ensures |Iterate(t)| > 0 && Iterate(t)[0] == Visit(t, None)
  {
  }

  /** `filterByShape`, with the shape query on a node's object given as
      hasTarget: the node is kept, as a fresh node with the same object,
      when it has a shape of the wanted types or some child survives; the
      surviving children keep their order. */
  function Filtered(t: TreeNode, hasTarget: Option<string> -> bool): (r: Option<TreeNode>)
    ensures r.Some? ==> r.value.node == t.node
    decreases t
  {
    var kept := FilteredAll(t.children, hasTarget);
    if hasTarget(t.node) || |kept| > 0 then Some(TreeNode(t.node, kept)) else None
  }

  /** The surviving filtered children of a run of siblings, in order. */
  function FilteredAll(cs: seq<TreeNode>, hasTarget: Option<string> -> bool): (r: seq<TreeNode>)
    ensures |r| <= |cs|
    decreases cs
  {
    if cs == [] then []
    else
      match Filtered(cs[0], hasTarget)
      case Some(c) => [c] + FilteredAll(cs[1..], hasTarget)
      case None => FilteredAll(cs[1..], hasTarget)
  }

  /** Some node of the subtree has a shape of the wanted types. */
  predicate AnyTarget(t: TreeNode, hasTarget: Option<string> -> bool)
    decreases t
  {
    hasTarget(t.node) || AnyTargetAll(t.children, hasTarget)
  }

  predicate AnyTargetAll(cs: seq<TreeNode>, hasTarget: Option<string> -> bool)
    decreases cs
  {
    cs != [] && (AnyTarget(cs[0], hasTarget) || AnyTargetAll(cs[1..], hasTarget))
  }

  /** Every node of the tree has a wanted shape or at least one child. */
  predicate Culled(t: TreeNode, hasTarget: Option<string> -> bool)
    decreases t
  {
    (hasTarget(t.node) || |t.children| > 0) && CulledAll(t.children, hasTarget)
  }

  predicate CulledAll(cs: seq<TreeNode>, hasTarget: Option<string> -> bool)
    decreases cs
  {
    cs != [] ==> Culled(cs[0], hasTarget) && CulledAll(cs[1..], hasTarget)
  }

  /** The branch is culled (None) exactly when no node of it has a wanted
      shape, and what is kept has no branch without one. */
  lemma {:induction false} FilteredIff(t: TreeNode, hasTarget: Option<string> -> bool)
    ensures Filtered(t, hasTarget).Some? <==> AnyTarget(t, hasTarget)
    ensures Filtered(t, hasTarget).Some? ==> Culled(Filtered(t, hasTarget).value, hasTarget)
    decreases t
  {
    FilteredAllIff(t.children, hasTarget);
  }

  lemma {:induction false} FilteredAllIff(cs: seq<TreeNode>, hasTarget: Option<string> -> bool)
    ensures |FilteredAll(cs, hasTarget)| > 0 <==> AnyTargetAll(cs, hasTarget)
    ensures CulledAll(FilteredAll(cs, hasTarget), hasTarget)
    decreases cs
  {
    if cs != [] {
      FilteredIff(cs[0], hasTarget);
      FilteredAllIff(cs[1..], hasTarget);
      var rest := FilteredAll(cs[1..], hasTarget);
      if Filtered(cs[0], hasTarget).Some? {
        var c := Filtered(cs[0], hasTarget).value;
        assert FilteredAll(cs, hasTarget) == [c] + rest;
        assert ([c] + rest)[1..] == rest;
      }
    }
  }

  /** Filtering a filtered tree changes nothing. */
  lemma {:induction false} FilterIdempotent(t: TreeNode, hasTarget: Option<string> -> bool)
    requires Filtered(t, hasTarget).Some?
    ensures Filtered(Filtered(t, hasTarget).value, hasTarget) == Filtered(t, hasTarget)
    decreases t
  {
    FilterAllIdempotent(t.children, hasTarget);
  }

  lemma {:induction false} FilterAllIdempotent(cs: seq<TreeNode>, hasTarget: Option<string> -> bool)
    ensures FilteredAll(FilteredAll(cs, hasTarget), hasTarget) == FilteredAll(cs, hasTarget)
    decreases cs
  {
    if cs != [] {
      FilterAllIdempotent(cs[1..], hasTarget);
      var rest := FilteredAll(cs[1..], hasTarget);
      if Filtered(cs[0], hasTarget).Some? {
        var c := Filtered(cs[0], hasTarget).value;
        FilterIdempotent(cs[0], hasTarget);
        assert ([c] + rest)[1..] == rest;
      }
    }
  }

  /** `filterByShape` as written: the node's own shapes first, then each
      child filtered in turn, survivors appended to a fresh node. */
  method FilterByShape(t: TreeNode, hasTarget: Option<string> -> bool) returns (r: Option<TreeNode>)
    ensures r == Filtered(t, hasTarget)
    decreases t
  {
    var hasTargetType := hasTarget(t.node);
    var children: seq<TreeNode> := [];
    for i := 0 to |t.children|
      invariant FilteredAll(t.children, hasTarget) == children + FilteredAll(t.children[i..], hasTarget)
      invariant hasTargetType == (hasTarget(t.node) || |children| > 0)
    {
      assert t.children[i..][1..] == t.children[i + 1..];
      var newChild := FilterByShape(t.children[i], hasTarget);
      if newChild.Some? {
        hasTargetType := true;
        children := children + [newChild.value];
      }
    }
    assert t.children[|t.children|..] == [];
    assert children + [] == children;
    r := if hasTargetType then Some(TreeNode(t.node, children)) else None;
  }
}
