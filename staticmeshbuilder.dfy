/** The data builder of a static mesh (Gen/StaticMeshBuilder.py): one
    record, for the mesh itself, one level below its parent. */
module StaticMeshBuilder {
  import opened Wrappers
  import opened Trees
  import opened RenderFunctions
  import opened RenderType
  import opened Textures
  import opened MeshRendering
  import SkinnedMeshBuilder

  /** The builder's fixed fields and the record it renders. */
  datatype StaticMeshDataBuilder = StaticMeshDataBuilder(node: Option<string>, parentIndex: int, index: int, depth: int, data: NodeData)
  {
    function RootIndex(): int
    {
      index
    }

    function MaxDepth(): int
    {
      depth
    }

    function IndexCount(): int
    {
      1
    }
  }

  /** The constructor: the mesh takes the start index and sits one level
      below the parent's depth. */
  function NewStaticMeshDataBuilder(node: Option<string>, parentIndex: int, startIndex: int, parentDepth: int): (b: StaticMeshDataBuilder)
    ensures b.RootIndex() == startIndex && b.IndexCount() == 1 && b.MaxDepth() == parentDepth + 1
    ensures b.data == NodeData(node, parentIndex, startIndex, b.MaxDepth())
  {
    var depth := parentDepth + 1;
    StaticMeshDataBuilder(node, parentIndex, startIndex, depth, NodeData(node, parentIndex, startIndex, depth))
  }

  /** A static mesh is bookkept exactly as a skinned mesh whose skeleton is
      the mesh's own node alone: the same single record, the same root
      index, maximum depth and index count. */
  lemma StaticAsSingleJoint(node: string, parentIndex: int, startIndex: int, parentDepth: int)
    ensures var b := NewStaticMeshDataBuilder(Some(node), parentIndex, startIndex, parentDepth);
            var es := SkinnedMeshBuilder.SkeletonEntries(TreeNode(Some(node), []), parentIndex, startIndex, parentDepth + 1);
            [b.data] == es &&
            b.RootIndex() == startIndex && b.data.index == b.RootIndex() &&
            b.MaxDepth() == SkinnedMeshBuilder.Deepest(parentDepth + 1, es) &&
            b.IndexCount() == |es|
  {
    var es := SkinnedMeshBuilder.SkeletonEntries(TreeNode(Some(node), []), parentIndex, startIndex, parentDepth + 1);
    assert SkinnedMeshBuilder.JointEntriesAll([], startIndex, parentDepth + 2, startIndex + 1) == [];
    assert es == [NodeData(Some(node), parentIndex, startIndex, parentDepth + 1)] + [];
    assert es[..0] == [];
  }

  /** What `renderTextures` does to the textures' channels: nothing at all
      for a negative index, otherwise the shared loop over the one
      record. */
  function StaticRendered(b: StaticMeshDataBuilder, sources: seq<(Source, Source)>, pxs: seq<seq<seq<bv32>>>, scene: Scene)
    : (r: (Result<(), RenderError>, seq<seq<seq<bv32>>>))
    requires |pxs| == |sources| && AllFourChannels(pxs)
    ensures |r.1| == |pxs|
  {
    if b.data.index < 0 then (Ok(()), pxs) else RenderFrom(sources, [b.data], pxs, 0, scene)
  }

  /** `renderTextures` of a static mesh. */
  method RenderTextures(b: StaticMeshDataBuilder, textures: seq<Texture>, scene: Scene) returns (outcome: Result<(), RenderError>)
    requires Unshared(textures)
    modifies PixelsOf(textures)
    ensures (outcome, ChannelsOf(textures)) == StaticRendered(b, Sources(textures), old(ChannelsOf(textures)), scene)
  {
    if b.data.index < 0 {
      return Ok(());
    }
    outcome := RenderEntries(textures, [b.data], scene);
  }

  /** The guard: a mesh with a negative index leaves every texture alone
      and reports success, even where a render type id is unknown. */
  lemma StaticGuard(b: StaticMeshDataBuilder, sources: seq<(Source, Source)>, pxs: seq<seq<seq<bv32>>>, scene: Scene)
    requires |pxs| == |sources| && AllFourChannels(pxs)
    ensures b.data.index < 0 ==> StaticRendered(b, sources, pxs, scene) == (Ok(()), pxs)
    ensures b.data.index >= 0 && |sources| > 0 && sources[0].0.found.Err? ==>
              StaticRendered(b, sources, pxs, scene).0 == Err(RenderError.UnknownRenderType(sources[0].0.id))
  {
    if b.data.index >= 0 && |sources| > 0 && sources[0].0.found.Err? {
      PassEach(sources[0].0, sources[0].1, [b.data], pxs[0], scene);
    }
  }

  /** With a non-negative index inside every texture and every render type
      known, the mesh's pixel of each texture gets the colour call and then
      the alpha call, and no other pixel changes. */
  lemma StaticPixel(b: StaticMeshDataBuilder, sources: seq<(Source, Source)>, pxs: seq<seq<seq<bv32>>>, scene: Scene)
    requires |pxs| == |sources| && AllFourChannels(pxs)
    requires forall t :: 0 <= t < |sources| ==> sources[t].0.found.Ok? && sources[t].1.found.Ok?
    requires b.data.index >= 0 && forall t :: 0 <= t < |pxs| ==> b.data.index < |pxs[t]|
    ensures var r := StaticRendered(b, sources, pxs, scene);
            r.0.Ok? &&
            (forall t :: 0 <= t < |sources| ==>
               |r.1[t]| == |pxs[t]| &&
               r.1[t][b.data.index]
                 == Apply(sources[t].1.found.value, b.data,
                          Apply(sources[t].0.found.value, b.data, pxs[t][b.data.index], scene), scene)) &&
            (forall t, q :: 0 <= t < |sources| && 0 <= q < |pxs[t]| && q != b.data.index ==> r.1[t][q] == pxs[t][q])
  {
    var r := RenderFrom(sources, [b.data], pxs, 0, scene);
    RenderFromAll(sources, [b.data], pxs, scene);
    forall t | 0 <= t < |sources|
      ensures r.1[t][b.data.index]
                == Apply(sources[t].1.found.value, b.data,
                         Apply(sources[t].0.found.value, b.data, pxs[t][b.data.index], scene), scene)
    {
      assert [b.data][0] == b.data;
    }
    forall t, q | 0 <= t < |sources| && 0 <= q < |pxs[t]| && q != b.data.index
      ensures r.1[t][q] == pxs[t][q]
    {
      assert Unnamed([b.data], q);
    }
  }
}
