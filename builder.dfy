/** The build context (Gen/Builder.py): it hands out pixel indices to the
    data builders of the hierarchy's nodes, tracks the deepest level, and
    sizes the textures to the number of indices handed out. */
module Builders {
  import opened Wrappers
  import opened Trees
  import opened RenderFunctions
  import StaticMeshBuilder
  import SkinnedMeshBuilder

  /** The texture sizes `getTextureDimension` snaps to, in order. */
  const ValidSizes: seq<int> := [4, 8, 16, 32, 64, 128, 256, 512, 1024]

  /** The largest object count whose square root snaps to a listed size. */
  const MaxSnappedCount: int := 1024 * 1024

  /** The first listed size from position i on that is at least x, or x
      itself when there is none. */
  function SnapFrom(x: int, i: nat): (r: int)
    requires i <= |ValidSizes|
    ensures r >= x
    ensures r == x || r in ValidSizes[i..]
    decreases |ValidSizes| - i
  {
    if i == |ValidSizes| then x
    else if x <= ValidSizes[i] then ValidSizes[i]
    else SnapFrom(x, i + 1)
  }

  /** One search loop of `getTextureDimension`. */
  function Snap(x: int): int
  {
    SnapFrom(x, 0)
  }

  /** The listed sizes grow from 4 to 1024. */
  lemma SizesAscend()
    ensures forall k, l :: 0 <= k <= l < |ValidSizes| ==> ValidSizes[k] <= ValidSizes[l]
    ensures ValidSizes[0] == 4 && ValidSizes[|ValidSizes| - 1] == 1024
  {
  }

  /** Up to 1024 a value snaps to the least listed size that holds it;
      above, it is left as it is. */
  lemma {:induction false} SnapFromLeast(x: int, i: nat)
    requires i <= |ValidSizes|
    requires forall k :: 0 <= k < i ==> ValidSizes[k] < x
    ensures x <= 1024 ==> SnapFrom(x, i) in ValidSizes && x <= SnapFrom(x, i) &&
                          forall s :: s in ValidSizes && x <= s ==> SnapFrom(x, i) <= s
    ensures x > 1024 ==> SnapFrom(x, i) == x
    decreases |ValidSizes| - i
  {
    SizesAscend();
    if i < |ValidSizes| {
      if ValidSizes[i] < x {
        SnapFromLeast(x, i + 1);
      } else {
        forall s | s in ValidSizes && x <= s
          ensures ValidSizes[i] <= s
        {
          var k :| 0 <= k < |ValidSizes| && ValidSizes[k] == s;
          assert i <= k;
        }
      }
    } else {
      assert ValidSizes[|ValidSizes| - 1] < x;
    }
  }

  lemma SnapLeast(x: int)
    ensures x <= 1024 ==> Snap(x) in ValidSizes && x <= Snap(x) &&
                          forall s :: s in ValidSizes && x <= s ==> Snap(x) <= s
    ensures x > 1024 ==> Snap(x) == x
  {
    SnapFromLeast(x, 0);
  }

  /** The least r with r * r >= n, searching upwards from r. */
  function CeilSqrtFrom(n: nat, r: nat): (s: nat)
    requires r == 0 || (r - 1) * (r - 1) < n
    ensures s * s >= n && (s == 0 || (s - 1) * (s - 1) < n)
    decreases n - r * r
  {
    if r * r >= n then r
    else
      assert (r + 1) * (r + 1) > r * r;
      CeilSqrtFrom(n, r + 1)
  }

  /** `math.ceil(math.pow(n, 0.5))`, computed exactly. */
  function CeilSqrt(n: nat): (s: nat)
    ensures s * s >= n && (s == 0 || (s - 1) * (s - 1) < n)
  {
    CeilSqrtFrom(n, 0)
  }

  /** The ceiling square root is the only r with those two bounds. */
  lemma CeilSqrtUnique(n: nat, r: nat)
    requires r * r >= n && (r == 0 || (r - 1) * (r - 1) < n)
    ensures CeilSqrt(n) == r
  {
    var s := CeilSqrt(n);
    if s < r {
      assert s <= r - 1;
      MultiplyMonotone(s, r - 1);
    } else if s > r {
      assert r <= s - 1;
      MultiplyMonotone(r, s - 1);
    }
  }

  lemma MultiplyMonotone(a: nat, b: nat)
    requires a <= b
    ensures a * a <= b * b
  {
    assert a * a <= a * b;
    assert a * b <= b * b;
  }

  /** `math.ceil(a / b)` for a true division. */
  function CeilDiv(a: nat, b: int): (q: nat)
    requires b > 0
  {
    (a + b - 1) / b
  }

  /** The width and height `getTextureDimension` returns for n objects, as
      written: once the width is snapped it is an int, and Python 2 divides
      two ints with floor division, so `math.ceil` sees the floored
      quotient; an unsnapped width is a float and the quotient is rounded
      up. */
  function Dimension(n: nat): (int, int)
  {
    var root := CeilSqrt(n);
    var width := Snap(root);
    assert width > 0 by { SnapLeast(root); }
    var quotient := if root <= 1024 then n / width else CeilDiv(n, width);
    (width, Snap(quotient))
  }

  /** The sizing the code is evidently meant to have: the height rounds the
      quotient up, so that the texture holds every object. */
  function FittingDimension(n: nat): (int, int)
  {
    var root := CeilSqrt(n);
    var width := Snap(root);
    assert width > 0 by { SnapLeast(root); }
    (width, Snap(CeilDiv(n, width)))
  }

  /** No objects give a 4 by 4 texture. */
  lemma DimensionOfNone()
    ensures Dimension(0) == (4, 4)
  {
    CeilSqrtUnique(0, 0);
  }

  /** Up to 1024 * 1024 objects, both sizes are listed sizes: the width is
      the least one at least the square root rounded up, the height the
      least one at least the floored quotient. */
  lemma DimensionSizes(n: nat)
    requires n <= MaxSnappedCount
    ensures var (w, h) := Dimension(n);
            w in ValidSizes && CeilSqrt(n) <= w && (forall s :: s in ValidSizes && CeilSqrt(n) <= s ==> w <= s) &&
            h in ValidSizes && n / w <= h && (forall s :: s in ValidSizes && n / w <= s ==> h <= s)
  {
    var root := CeilSqrt(n);
    RootBound(n);
    SnapLeast(root);
    var w := Snap(root);
    QuotientBound(n, root, w);
    SnapLeast(n / w);
  }

  /** Up to 1024 * 1024 objects the rounded-up square root is at most 1024. */
  lemma RootBound(n: nat)
    requires n <= MaxSnappedCount
    ensures CeilSqrt(n) <= 1024
  {
    var r := CeilSqrt(n);
    if r > 1024 {
      MultiplyMonotone(1024, r - 1);
    }
  }

  lemma MultiplyRight(a: int, b: int, c: nat)
    requires a <= b
    ensures a * c <= b * c
  {
  }

  /** A dividend below (r + 1) * w has a quotient of at most r. */
  lemma DivAtMost(a: nat, w: int, r: nat)
    requires w > 0 && a < (r + 1) * w
    ensures a / w <= r
  {
    var q := a / w;
    assert a == q * w + a % w;
    if q > r {
      MultiplyRight(r + 1, q, w);
    }
  }

  /** The rounded-up quotient times the divisor reaches the dividend. */
  lemma CeilDivCovers(a: nat, w: int)
    requires w > 0
    ensures CeilDiv(a, w) * w >= a
  {
    var c := CeilDiv(a, w);
    assert a + w - 1 == c * w + (a + w - 1) % w;
  }

  /** n <= root * root and w >= root make n / w, rounded either way, at
      most root. */
  lemma QuotientBound(n: nat, root: nat, w: int)
    requires n <= root * root && root <= w && w > 0
    ensures n / w <= root && CeilDiv(n, w) <= root
  {
    assert root * root <= root * w;
    assert (root + 1) * w == root * w + w;
    DivAtMost(n, w, root);
    DivAtMost(n + w - 1, w, root);
  }

  /** 33 objects give an 8 by 4 texture: 32 pixels for 33 indices. */
  lemma DimensionShortOf33()
    ensures Dimension(33) == (8, 4)
    ensures Dimension(33).0 * Dimension(33).1 < 33
  {
    CeilSqrtUnique(33, 6);
    assert Snap(6) == 8;
    assert Snap(33 / 8) == 4;
  }

  /** The intended sizing: up to 1024 * 1024 objects, both sizes are listed
      sizes and the texture has a pixel for every object. */
  lemma FittingDimensionHoldsAll(n: nat)
    requires n <= MaxSnappedCount
    ensures var (w, h) := FittingDimension(n);
            w in ValidSizes && h in ValidSizes && w * h >= n
  {
    var root := CeilSqrt(n);
    RootBound(n);
    SnapLeast(root);
    var w := Snap(root);
    QuotientBound(n, root, w);
    var c := CeilDiv(n, w);
    SnapLeast(c);
    var h := Snap(c);
    CeilDivCovers(n, w);
    MultiplyRight(c, h, w);
    assert w * h == h * w;
  }

  /** The data builder `fillHierarchyInfo` attaches to a node. */
  datatype DataBuilder =
    | Static(s: StaticMeshBuilder.StaticMeshDataBuilder)
    | Skinned(k: SkinnedMeshBuilder.SkinnedMeshDataBuilder)
  {
    function Objects(): set<object>
    {
      if Skinned? then {k} else {}
    }

    function RootIndex(): int
    {
      if Static? then s.RootIndex() else k.RootIndex()
    }

    function MaxDepth(): int
      reads Objects()
    {
      if Static? then s.MaxDepth() else k.MaxDepth()
    }

    function IndexCount(): int
      reads Objects()
    {
      if Static? then s.IndexCount() else k.IndexCount()
    }

    /** The records the builder renders. */
    function Records(): seq<NodeData>
      reads Objects()
    {
      if Static? then [s.data] else k.data
    }
  }

  /** The parent index and depth a node's builder starts from: -1 and 0
      without a parent builder (the node is the root, or its parent has
      none), else the parent builder's root index and maximum depth. */
  function ParentLink(parent: Option<Option<DataBuilder>>): (int, int)
    reads if parent.Some? && parent.value.Some? then parent.value.value.Objects() else {}
  {
    if parent.Some? && parent.value.Some? then (parent.value.value.RootIndex(), parent.value.value.MaxDepth())
    else (-1, 0)
  }

  class Builder {
    var totalIndices: int
    var maxDepth: int
    /** Every record handed out so far, in order. */
    ghost var records: seq<NodeData>

    /** The records hold the indices 0, 1, ... in order, one per index
        handed out. */
    ghost predicate Valid()
      reads this
    {
      |records| == totalIndices && forall k :: 0 <= k < |records| ==> records[k].index == k
    }

    constructor ()
      ensures totalIndices == 0 && maxDepth == 0 && records == [] && Valid()
    {
      totalIndices := 0;
      maxDepth := 0;
      records := [];
    }

    /** `fillHierarchyInfo` for a node with the given object: parent is None
        for the hierarchy's root, else the parent's builder (None when the
        parent has none); skeleton is the compacted skeleton of the node's
        skin cluster, when it has one.  The node's builder starts at the
        running total, which then grows by its index count; the maximum
        depth follows the builder only below a parent. */
    method FillHierarchyInfo(node: Option<string>, parent: Option<Option<DataBuilder>>, skeleton: Option<TreeNode>)
      returns (b: DataBuilder)
      requires skeleton.Some? ==> SkinnedMeshBuilder.AllNamedAll(skeleton.value.children)
      modifies this
      ensures b.Static? <==> skeleton.None?
      ensures b.Static? ==>
                b.s == StaticMeshBuilder.NewStaticMeshDataBuilder(node, ParentLink(parent).0, old(totalIndices), ParentLink(parent).1)
      ensures b.Skinned? ==>
                fresh(b.k) && b.k.parentIndex == ParentLink(parent).0 && b.k.index == old(totalIndices) &&
                b.k.data == SkinnedMeshBuilder.SkeletonEntries(skeleton.value, ParentLink(parent).0, old(totalIndices), ParentLink(parent).1 + 1) &&
                b.k.maxDepth == SkinnedMeshBuilder.Deepest(ParentLink(parent).1 + 1, b.k.data) &&
                b.k.indexCount == |b.k.data|
      ensures b.RootIndex() == old(totalIndices)
      ensures totalIndices == old(totalIndices) + b.IndexCount()
      ensures maxDepth == if parent.Some? then Max(old(maxDepth), b.MaxDepth()) else old(maxDepth)
      ensures records == old(records) + b.Records()
      ensures old(Valid()) ==> Valid()
    {
      var (parentIndex, depth) := ParentLink(parent);
      if skeleton.Some? {
        var k := new SkinnedMeshBuilder.SkinnedMeshDataBuilder(parentIndex, totalIndices, depth, skeleton.value);
        SkinnedMeshBuilder.SkeletonEntriesShape(skeleton.value, parentIndex, totalIndices, depth + 1);
        b := Skinned(k);
      } else {
        b := Static(StaticMeshBuilder.NewStaticMeshDataBuilder(node, parentIndex, totalIndices, depth));
      }
      records := records + b.Records();
      totalIndices := totalIndices + b.IndexCount();
      if parent.Some? {
        maxDepth := Max(maxDepth, b.MaxDepth());
      }
    }

    /** One search loop of `getTextureDimension`: the first listed size at
        least x, or x when there is none. */
    static method SnapSize(x: int) returns (size: int)
      ensures size == Snap(x)
    {
      for i := 0 to |ValidSizes|
        invariant Snap(x) == SnapFrom(x, i)
      {
        if x <= ValidSizes[i] {
          return ValidSizes[i];
        }
      }
      return x;
    }

    /** `getTextureDimension`, as written. */
    static method GetTextureDimension(objectCount: nat) returns (width: int, height: int)
      ensures (width, height) == Dimension(objectCount)
    {
      var root := CeilSqrt(objectCount);
      width := SnapSize(root);
      SnapLeast(root);
      var quotient := if root <= 1024 then objectCount / width else CeilDiv(objectCount, width);
      height := SnapSize(quotient);
    }
  }

  /** With the intended sizing, every record handed out has a pixel in a
      texture of that size; as written, 33 records leave the last one
      outside its texture. */
  lemma RecordsFit(records: seq<NodeData>)
    requires |records| <= MaxSnappedCount && forall k :: 0 <= k < |records| ==> records[k].index == k
    ensures var (w, h) := FittingDimension(|records|);
            forall k :: 0 <= k < |records| ==> 0 <= records[k].index < w * h
    ensures |records| == 33 ==> var (w, h) := Dimension(|records|); records[32].index >= w * h
  {
    FittingDimensionHoldsAll(|records|);
    if |records| == 33 {
      DimensionShortOf33();
    }
  }
}
