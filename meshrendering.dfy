/** The texture-filling loops the mesh builders share (`renderTextures` of
    Gen/StaticMeshBuilder.py and Gen/SkinnedMeshBuilder.py): for each
    texture, for its colour source and then its alpha source, look the
    render type up and call it on the pixel of every entry with a
    non-negative index. */
module MeshRendering {
  import opened Wrappers
  import opened Pixels
  import opened RenderFunctions
  import opened RenderType
  import opened Textures

  /** How filling textures can fail: an unknown render type id (NameError)
      or an entry index past the texture's pixels (IndexError). */
  datatype RenderError = UnknownRenderType(renderType: int) | PixelOutOfRange(index: int)

  /** One render type called on the entries from k on, over the channels
      of a texture's pixels; stops at the first index out of range. */
  function DrawFrom(item: Item, entries: seq<NodeData>, px: seq<seq<bv32>>, k: nat, scene: Scene)
    : (r: (Result<(), RenderError>, seq<seq<bv32>>))
    requires FourChannels(px) && k <= |entries|
    ensures |r.1| == |px| && FourChannels(r.1)
    decreases |entries| - k
  {
    if k == |entries| then (Ok(()), px)
    else
      var e := entries[k];
      if e.index < 0 then DrawFrom(item, entries, px, k + 1, scene)
      else if e.index >= |px| then (Err(PixelOutOfRange(e.index)), px)
      else DrawFrom(item, entries, px[e.index := Apply(item, e, px[e.index], scene)], k + 1, scene)
  }

  /** A render type id with the outcome of looking it up. */
  datatype Source = Source(id: int, found: Result<Item, LookupError>)

  function Lookup(id: int): Source
  {
    Source(id, FromType(id))
  }

  /** One source of one texture: the lookup, then the calls. */
  function DrawSource(source: Source, entries: seq<NodeData>, px: seq<seq<bv32>>, scene: Scene)
    : (r: (Result<(), RenderError>, seq<seq<bv32>>))
    requires FourChannels(px)
    ensures |r.1| == |px| && FourChannels(r.1)
  {
    match source.found
    case Err(_) => (Err(RenderError.UnknownRenderType(source.id)), px)
    case Ok(item) => DrawFrom(item, entries, px, 0, scene)
  }

  /** One texture: its colour source, then (if that went through) its
      alpha source. */
  function Pass(rgbSource: Source, aSource: Source, entries: seq<NodeData>, px: seq<seq<bv32>>, scene: Scene)
    : (r: (Result<(), RenderError>, seq<seq<bv32>>))
    requires FourChannels(px)
    ensures |r.1| == |px| && FourChannels(r.1)
  {
    var first := DrawSource(rgbSource, entries, px, scene);
    if first.0.Err? then first else DrawSource(aSource, entries, first.1, scene)
  }

  /** No two entries from k on with a pixel name the same one. */
  predicate DistinctIndices(entries: seq<NodeData>, k: nat)
  {
    forall j, l :: k <= j < l < |entries| && entries[j].index >= 0 ==> entries[j].index != entries[l].index
  }

  /** Drawing succeeds exactly when every entry's index is below the pixel
      count. */
  lemma {:induction false} DrawFromOk(item: Item, entries: seq<NodeData>, px: seq<seq<bv32>>, k: nat, scene: Scene)
    requires FourChannels(px) && k <= |entries|
    ensures DrawFrom(item, entries, px, k, scene).0.Ok? <==> forall j :: k <= j < |entries| ==> entries[j].index < |px|
    decreases |entries| - k
  {
    if k < |entries| {
      var e := entries[k];
      if e.index < 0 {
        DrawFromOk(item, entries, px, k + 1, scene);
      } else if e.index < |px| {
        DrawFromOk(item, entries, px[e.index := Apply(item, e, px[e.index], scene)], k + 1, scene);
      }
    }
  }

  /** A failed draw names the first index past the pixels. */
  lemma {:induction false} DrawFromError(item: Item, entries: seq<NodeData>, px: seq<seq<bv32>>, k: nat, scene: Scene)
    requires FourChannels(px) && k <= |entries|
    ensures DrawFrom(item, entries, px, k, scene).0.Err? ==>
              exists j :: k <= j < |entries| && entries[j].index >= |px| &&
                (forall l :: k <= l < j ==> entries[l].index < |px|) &&
                DrawFrom(item, entries, px, k, scene).0 == Err(PixelOutOfRange(entries[j].index))
    decreases |entries| - k
  {
    if k < |entries| {
      var e := entries[k];
      if e.index < 0 {
        DrawFromError(item, entries, px, k + 1, scene);
      } else if e.index < |px| {
        DrawFromError(item, entries, px[e.index := Apply(item, e, px[e.index], scene)], k + 1, scene);
      }
    }
  }

  /** A pixel no entry names keeps its channels. */
  lemma {:induction false} DrawFromUntouched(item: Item, entries: seq<NodeData>, px: seq<seq<bv32>>, k: nat, scene: Scene)
    requires FourChannels(px) && k <= |entries|
    ensures forall q :: 0 <= q < |px| && (forall j :: k <= j < |entries| ==> entries[j].index != q) ==>
              DrawFrom(item, entries, px, k, scene).1[q] == px[q]
    decreases |entries| - k
  {
    if k < |entries| {
      var e := entries[k];
      if e.index < 0 {
        DrawFromUntouched(item, entries, px, k + 1, scene);
      } else if e.index < |px| {
        DrawFromUntouched(item, entries, px[e.index := Apply(item, e, px[e.index], scene)], k + 1, scene);
      }
    }
  }

  /** With distinct indices all in range, every entry's pixel ends up as
      the render type applied once to its starting channels. */
  lemma {:induction false} DrawFromEach(item: Item, entries: seq<NodeData>, px: seq<seq<bv32>>, k: nat, scene: Scene)
    requires FourChannels(px) && k <= |entries|
    requires DistinctIndices(entries, k)
    requires forall j :: k <= j < |entries| ==> entries[j].index < |px|
    ensures forall j :: k <= j < |entries| && entries[j].index >= 0 ==>
              DrawFrom(item, entries, px, k, scene).1[entries[j].index]
                == Apply(item, entries[j], px[entries[j].index], scene)
    decreases |entries| - k
  {
    if k < |entries| {
      var e := entries[k];
      if e.index < 0 {
        DrawFromEach(item, entries, px, k + 1, scene);
      } else {
        var next := px[e.index := Apply(item, e, px[e.index], scene)];
        DrawFromEach(item, entries, next, k + 1, scene);
        DrawFromUntouched(item, entries, next, k + 1, scene);
      }
    }
  }

  /** An unknown colour render type fails before any pixel changes; with
      both render types known, distinct indices in range, every entry's
      pixel gets the colour call and then the alpha call. */
  lemma PassEach(rgbSource: Source, aSource: Source, entries: seq<NodeData>, px: seq<seq<bv32>>, scene: Scene)
    requires FourChannels(px)
    ensures rgbSource.found.Err? ==>
              Pass(rgbSource, aSource, entries, px, scene) == (Err(RenderError.UnknownRenderType(rgbSource.id)), px)
    ensures rgbSource.found.Ok? && aSource.found.Ok? &&
            DistinctIndices(entries, 0) && (forall j :: 0 <= j < |entries| ==> entries[j].index < |px|) ==>
              var r := Pass(rgbSource, aSource, entries, px, scene);
              r.0.Ok? &&
              forall j :: 0 <= j < |entries| && entries[j].index >= 0 ==>
                r.1[entries[j].index]
                  == Apply(aSource.found.value, entries[j],
                           Apply(rgbSource.found.value, entries[j], px[entries[j].index], scene), scene)
  {
    if rgbSource.found.Ok? && aSource.found.Ok? &&
       DistinctIndices(entries, 0) && (forall j :: 0 <= j < |entries| ==> entries[j].index < |px|) {
      var rgb := rgbSource.found.value;
      var first := DrawFrom(rgb, entries, px, 0, scene);
      DrawFromOk(rgb, entries, px, 0, scene);
      DrawFromEach(rgb, entries, px, 0, scene);
      DrawFromOk(aSource.found.value, entries, first.1, 0, scene);
      DrawFromEach(aSource.found.value, entries, first.1, 0, scene);
    }
  }

  /** No entry names pixel q. */
  predicate Unnamed(entries: seq<NodeData>, q: int)
  {
    forall j :: 0 <= j < |entries| ==> entries[j].index != q
  }

  /** Whatever the outcome, a pass leaves the pixels no entry names alone. */
  lemma PassUntouched(rgbSource: Source, aSource: Source, entries: seq<NodeData>, px: seq<seq<bv32>>, scene: Scene)
    requires FourChannels(px)
    ensures forall q :: 0 <= q < |px| && Unnamed(entries, q) ==> Pass(rgbSource, aSource, entries, px, scene).1[q] == px[q]
  {
    if rgbSource.found.Ok? {
      var first := DrawFrom(rgbSource.found.value, entries, px, 0, scene);
      DrawFromUntouched(rgbSource.found.value, entries, px, 0, scene);
      if first.0.Ok? && aSource.found.Ok? {
        DrawFromUntouched(aSource.found.value, entries, first.1, 0, scene);
      }
    }
  }

  /** The looked-up render types of each texture. */
  function Sources(ts: seq<Texture>): (r: seq<(Source, Source)>)
    ensures |r| == |ts| && forall i :: 0 <= i < |ts| ==> r[i] == (Lookup(ts[i].rgbSource), Lookup(ts[i].aSource))
  {
    if ts == [] then [] else [(Lookup(ts[0].rgbSource), Lookup(ts[0].aSource))] + Sources(ts[1..])
  }

  /** Every texture's channels hold four entries per pixel. */
  predicate AllFourChannels(pxs: seq<seq<seq<bv32>>>)
  {
    forall i :: 0 <= i < |pxs| ==> FourChannels(pxs[i])
  }

  /** The textures from i on, each pass on its own texture's channels,
      until one fails. */
  function RenderFrom(sources: seq<(Source, Source)>, entries: seq<NodeData>, pxs: seq<seq<seq<bv32>>>, i: nat, scene: Scene)
    : (r: (Result<(), RenderError>, seq<seq<seq<bv32>>>))
    requires |pxs| == |sources| && AllFourChannels(pxs) && i <= |sources|
    ensures |r.1| == |pxs| && AllFourChannels(r.1)
    ensures forall t :: 0 <= t < |pxs| ==> |r.1[t]| == |pxs[t]|
    decreases |sources| - i
  {
    if i == |sources| then (Ok(()), pxs)
    else
      var p := Pass(sources[i].0, sources[i].1, entries, pxs[i], scene);
      if p.0.Err? then (p.0, pxs[i := p.1])
      else RenderFrom(sources, entries, pxs[i := p.1], i + 1, scene)
  }

  /** Textures before i are left alone. */
  lemma {:induction false} RenderFromKeeps(sources: seq<(Source, Source)>, entries: seq<NodeData>, pxs: seq<seq<seq<bv32>>>, i: nat, scene: Scene)
    requires |pxs| == |sources| && AllFourChannels(pxs) && i <= |sources|
    ensures forall t :: 0 <= t < i ==> RenderFrom(sources, entries, pxs, i, scene).1[t] == pxs[t]
    decreases |sources| - i
  {
    if i < |sources| {
      var p := Pass(sources[i].0, sources[i].1, entries, pxs[i], scene);
      if p.0.Ok? {
        RenderFromKeeps(sources, entries, pxs[i := p.1], i + 1, scene);
      }
    }
  }

  /** Filling textures succeeds exactly when every texture's pass does on
      its own channels, and then each texture holds its own pass's result. */
  lemma {:induction false} RenderFromEach(sources: seq<(Source, Source)>, entries: seq<NodeData>, pxs: seq<seq<seq<bv32>>>, i: nat, scene: Scene)
    requires |pxs| == |sources| && AllFourChannels(pxs) && i <= |sources|
    ensures var r := RenderFrom(sources, entries, pxs, i, scene);
            (r.0.Ok? <==> forall t :: i <= t < |sources| ==> Pass(sources[t].0, sources[t].1, entries, pxs[t], scene).0.Ok?) &&
            (r.0.Ok? ==> forall t :: i <= t < |sources| ==> r.1[t] == Pass(sources[t].0, sources[t].1, entries, pxs[t], scene).1)
    decreases |sources| - i
  {
    if i < |sources| {
      var p := Pass(sources[i].0, sources[i].1, entries, pxs[i], scene);
      if p.0.Ok? {
        var next := pxs[i := p.1];
        RenderFromEach(sources, entries, next, i + 1, scene);
        RenderFromKeeps(sources, entries, next, i + 1, scene);
        UpdateElsewhere(pxs, i, p.1);
      }
    }
  }

  lemma UpdateElsewhere<T>(s: seq<T>, i: nat, v: T)
    requires i < |s|
    ensures forall t :: 0 <= t < |s| && t != i ==> s[i := v][t] == s[t]
  {
  }

  /** One step of RenderFrom: the i-th pass, then the rest or the stop. */
  lemma RenderStep(sources: seq<(Source, Source)>, entries: seq<NodeData>, pxs: seq<seq<seq<bv32>>>, i: nat, scene: Scene,
                   p: (Result<(), RenderError>, seq<seq<bv32>>))
    requires |pxs| == |sources| && AllFourChannels(pxs) && i < |sources|
    requires p == Pass(sources[i].0, sources[i].1, entries, pxs[i], scene)
    ensures p.0.Ok? ==> RenderFrom(sources, entries, pxs, i, scene) == RenderFrom(sources, entries, pxs[i := p.1], i + 1, scene)
    ensures p.0.Err? ==> RenderFrom(sources, entries, pxs, i, scene) == (p.0, pxs[i := p.1])
  {
  }

  lemma ReplacedAt<T>(after: seq<T>, before: seq<T>, i: nat, v: T)
    requires |after| == |before| && i < |before| && after[i] == v
    requires forall t :: 0 <= t < |before| && t != i ==> after[t] == before[t]
    ensures after == before[i := v]
  {
  }

  /** With every render type known and distinct entry indices within every
      texture, filling succeeds; each named pixel of each texture gets that
      texture's colour call and then its alpha call, and every other pixel
      keeps its channels. */
  lemma RenderFromAll(sources: seq<(Source, Source)>, entries: seq<NodeData>, pxs: seq<seq<seq<bv32>>>, scene: Scene)
    requires |pxs| == |sources| && AllFourChannels(pxs)
    requires forall t :: 0 <= t < |sources| ==> sources[t].0.found.Ok? && sources[t].1.found.Ok?
    requires DistinctIndices(entries, 0)
    requires forall t, j :: 0 <= t < |sources| && 0 <= j < |entries| ==> entries[j].index < |pxs[t]|
    ensures var r := RenderFrom(sources, entries, pxs, 0, scene);
            r.0.Ok? &&
            (forall t, j :: 0 <= t < |sources| && 0 <= j < |entries| && entries[j].index >= 0 ==>
               r.1[t][entries[j].index]
                 == Apply(sources[t].1.found.value, entries[j],
                          Apply(sources[t].0.found.value, entries[j], pxs[t][entries[j].index], scene), scene)) &&
            (forall t, q :: 0 <= t < |sources| && 0 <= q < |pxs[t]| && Unnamed(entries, q) ==> r.1[t][q] == pxs[t][q])
  {
    forall t | 0 <= t < |sources|
      ensures Pass(sources[t].0, sources[t].1, entries, pxs[t], scene).0.Ok?
      ensures forall j :: 0 <= j < |entries| && entries[j].index >= 0 ==>
                Pass(sources[t].0, sources[t].1, entries, pxs[t], scene).1[entries[j].index]
                  == Apply(sources[t].1.found.value, entries[j],
                           Apply(sources[t].0.found.value, entries[j], pxs[t][entries[j].index], scene), scene)
      ensures forall q :: 0 <= q < |pxs[t]| && Unnamed(entries, q) ==>
                Pass(sources[t].0, sources[t].1, entries, pxs[t], scene).1[q] == pxs[t][q]
    {
      PassEach(sources[t].0, sources[t].1, entries, pxs[t], scene);
      PassUntouched(sources[t].0, sources[t].1, entries, pxs[t], scene);
    }
    RenderFromEach(sources, entries, pxs, 0, scene);
  }

  /** The pixels of all textures. */
  function PixelsOf(ts: seq<Texture>): set<Pixel>
  {
    set i, k | 0 <= i < |ts| && 0 <= k < |ts[i].data| :: ts[i].data[k]
  }

  /** The pixel objects of one texture. */
  function PixelSet(data: seq<Pixel>): set<Pixel>
  {
    set p | p in data
  }

  /** No pixel object is shared, within a texture or between two. */
  predicate Unshared(ts: seq<Texture>)
  {
    (forall i :: 0 <= i < |ts| ==> ts[i].Valid()) &&
    (forall i, j :: 0 <= i < |ts| && 0 <= j < |ts| && i != j ==> PixelSet(ts[i].data) !! PixelSet(ts[j].data))
  }

  /** The channels of every texture's pixels. */
  function ChannelsOf(ts: seq<Texture>): (r: seq<seq<seq<bv32>>>)
    reads PixelsOf(ts)
    ensures |r| == |ts| && AllFourChannels(r)
    ensures forall i :: 0 <= i < |ts| ==> r[i] == Texels(ts[i].data)
  {
    if ts == [] then []
    else
      assert PixelsOf(ts[1..]) <= PixelsOf(ts) by {
        forall p | p in PixelsOf(ts[1..]) ensures p in PixelsOf(ts) {
          var i, k :| 0 <= i < |ts[1..]| && 0 <= k < |ts[1..][i].data| && p == ts[1..][i].data[k];
          assert p == ts[i + 1].data[k];
        }
      }
      [Texels(ts[0].data)] + ChannelsOf(ts[1..])
  }

  /** The calls of one render type on one texture's pixels. */
  method DrawEntries(texture: Texture, item: Item, entries: seq<NodeData>, scene: Scene)
    returns (outcome: Result<(), RenderError>)
    requires texture.Valid()
    modifies set p | p in texture.data
    ensures (outcome, Texels(texture.data)) == DrawFrom(item, entries, old(Texels(texture.data)), 0, scene)
  {
    ghost var start := Texels(texture.data);
    for k := 0 to |entries|
      invariant DrawFrom(item, entries, start, 0, scene) == DrawFrom(item, entries, Texels(texture.data), k, scene)
    {
      var e := entries[k];
      if e.index < 0 {
        continue;
      }
      if e.index >= |texture.data| {
        return Err(PixelOutOfRange(e.index));
      }
      ghost var before := Texels(texture.data);
      var px := texture.data[e.index];
      Call(item, e, px, scene);
      assert Texels(texture.data) == before[e.index := Apply(item, e, before[e.index], scene)];
    }
    return Ok(());
  }

  /** One source of one texture. */
  method DrawSourceOn(texture: Texture, source: int, entries: seq<NodeData>, scene: Scene)
    returns (outcome: Result<(), RenderError>)
    requires texture.Valid()
    modifies set p | p in texture.data
    ensures (outcome, Texels(texture.data)) == DrawSource(Lookup(source), entries, old(Texels(texture.data)), scene)
  {
    var renderType := FromType(source);
    if renderType.Err? {
      return Err(RenderError.UnknownRenderType(source));
    }
    outcome := DrawEntries(texture, renderType.value, entries, scene);
  }

  /** The two sources of one texture, colour first. */
  method PassOn(texture: Texture, entries: seq<NodeData>, scene: Scene)
    returns (outcome: Result<(), RenderError>)
    requires texture.Valid()
    modifies set p | p in texture.data
    ensures (outcome, Texels(texture.data))
         == Pass(Lookup(texture.rgbSource), Lookup(texture.aSource), entries, old(Texels(texture.data)), scene)
  {
    outcome := DrawSourceOn(texture, texture.rgbSource, entries, scene);
    if outcome.Err? {
      return;
    }
    outcome := DrawSourceOn(texture, texture.aSource, entries, scene);
  }

  /** The two sources of the i-th texture; the other textures' pixels keep
      their channels. */
  method PassAt(textures: seq<Texture>, i: nat, entries: seq<NodeData>, scene: Scene, ghost sources: seq<(Source, Source)>)
    returns (outcome: Result<(), RenderError>)
    requires Unshared(textures) && i < |textures| && sources == Sources(textures)
    modifies set p | p in textures[i].data
    ensures (outcome, Texels(textures[i].data))
         == Pass(sources[i].0, sources[i].1, entries, old(Texels(textures[i].data)), scene)
    ensures forall j :: 0 <= j < |textures| && j != i ==> Texels(textures[j].data) == old(Texels(textures[j].data))
  {
    outcome := PassOn(textures[i], entries, scene);
    forall j | 0 <= j < |textures| && j != i
      ensures Texels(textures[j].data) == old(Texels(textures[j].data))
    {
      forall p | p in textures[j].data
        ensures unchanged(p)
      {
        assert p in PixelSet(textures[j].data);
        assert p !in PixelSet(textures[i].data);
      }
      TexelsKept(textures[j].data);
    }
  }

  /** Pixels no call touched keep their channels. */
  twostate lemma TexelsKept(data: seq<Pixel>)
    requires forall p :: p in data ==> unchanged(p)
    ensures Texels(data) == old(Texels(data))
  {
    assert forall k :: 0 <= k < |data| ==> data[k] in data;
  }

  /** `renderTextures`: every texture in order, stopping at the first
      failure. */
  method RenderEntries(textures: seq<Texture>, entries: seq<NodeData>, scene: Scene)
    returns (outcome: Result<(), RenderError>)
    requires Unshared(textures)
    modifies PixelsOf(textures)
    ensures var r := RenderFrom(Sources(textures), entries, old(ChannelsOf(textures)), 0, scene);
            outcome == r.0 && ChannelsOf(textures) == r.1
  {
    ghost var start := ChannelsOf(textures);
    ghost var sources := Sources(textures);
    for i := 0 to |textures|
      invariant RenderFrom(sources, entries, start, 0, scene)
             == RenderFrom(sources, entries, ChannelsOf(textures), i, scene)
    {
      ghost var before := ChannelsOf(textures);
      outcome := PassAt(textures, i, entries, scene, sources);
      ReplacedAt(ChannelsOf(textures), before, i, Texels(textures[i].data));
      RenderStep(sources, entries, before, i, scene, (outcome, Texels(textures[i].data)));
      if outcome.Err? {
        return;
      }
    }
    return Ok(());
  }
}
