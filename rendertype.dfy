/** The table of renderable types (Gen/RenderType.py): each entry names a
    producer, the precisions it suits and whether it fills the colour
    channels, alpha, or (for the empty entry) either. */
module RenderType {
  import opened Wrappers
  import opened RenderFunctions
  import opened Pixels
  import opened Lists

  /** Precision bits: 16-bit float, 8-bit unsigned, both. */
  const FP16: int := 1
  const U8: int := 2
  const Both: int := 3

  /** The item's alpha setting: Python's None, False or True. */
  datatype AlphaFlag = NoFlag | NotAlpha | IsAlpha

  datatype Item = Item(
    renderType: int,
    precision: nat,
    func: Option<Producer>,
    alpha: AlphaFlag,
    filename: string,
    displayName: string)

  /** `a & p != 0` with Python's infinite two's complement for negative p:
      some bit is set in both. */
  predicate SharesBit(a: nat, p: int)
    decreases a
  {
    a > 0 && ((a % 2 == 1 && p % 2 == 1) || SharesBit(a / 2, p / 2))
  }

  /** `isPrecision`. */
  predicate IsPrecision(item: Item, p: int)
  {
    SharesBit(item.precision, p)
  }

  /** `isLDR`. */
  predicate IsLDR(item: Item)
  {
    IsPrecision(item, U8)
  }

  /** `isHDR`. */
  predicate IsHDR(item: Item)
  {
    IsPrecision(item, FP16)
  }

  /** `isAlpha`: anything but False. */
  predicate IsAlphaItem(item: Item)
  {
    item.alpha != NotAlpha
  }

  /** `isRGB`: anything but True. */
  predicate IsRGBItem(item: Item)
  {
    item.alpha != IsAlpha
  }

  /** The precision flags as bits: FP16 is bit 0 and U8 bit 1, so Both
      suits either and a single flag only itself. */
  lemma PrecisionBits(item: Item)
    requires item.precision in {FP16, U8, Both}
    ensures IsHDR(item) <==> item.precision in {FP16, Both}
    ensures IsLDR(item) <==> item.precision in {U8, Both}
  {
    assert SharesBit(0, 0) == false;
  }

  /** The empty entry counts as both kinds, a False entry only as colour,
      a True entry only as alpha. */
  lemma ChannelKinds(item: Item)
    ensures item.alpha == NoFlag ==> IsAlphaItem(item) && IsRGBItem(item)
    ensures item.alpha == NotAlpha ==> !IsAlphaItem(item) && IsRGBItem(item)
    ensures item.alpha == IsAlpha ==> IsAlphaItem(item) && !IsRGBItem(item)
  {
  }

  const NoRender: int := 0
  const PivotPositionType: int := 2
  const OriginPositionType: int := 3
  const OriginExtentsType: int := 4
  const XVectorType: int := 5
  const YVectorType: int := 6
  const ZVectorType: int := 7
  const ParentIndexIntType: int := 8
  const NumStepsToRootType: int := 9
  const RandomValueHDRType: int := 10
  const BoundingBoxDiameterType: int := 11
  const HierarchyPositionHDRType: int := 13
  const XWidthType: int := 14
  const YDepthType: int := 15
  const ZHeightType: int := 17
  const ParentIndexFloatType: int := 18
  const HierarchyPositionLDRType: int := 19
  const RandomValueLDRType: int := 20
  const XExtentType: int := 21
  const YExtentType: int := 22
  const ZExtentType: int := 23

  const Items: seq<Item> := [
    Item(NoRender, Both, None, NoFlag, "", "Nothing"),
    Item(PivotPositionType, FP16, Some(PivotPosition), NotAlpha, "PivotPos", "Pivot Position"),
    Item(OriginPositionType, FP16, Some(OriginPosition), NotAlpha, "OriginPos", "Origin Position"),
    Item(OriginExtentsType, FP16, Some(Extents), NotAlpha, "OriginExt", "Origin Extents"),
    Item(XVectorType, U8, Some(XVector), NotAlpha, "XVector", "X Vector"),
    Item(YVectorType, U8, Some(YVector), NotAlpha, "YVector", "Y Vector"),
    Item(ZVectorType, U8, Some(ZVector), NotAlpha, "ZVector", "Z Vector"),
    Item(ParentIndexIntType, FP16, Some(ParentIndexAsHalf), IsAlpha, "ParentIndexInt", "Parent Index (Int as Float)"),
    Item(NumStepsToRootType, FP16, Some(StepsFromRoot), IsAlpha, "StepsToRoot", "Number of Steps From Root"),
    Item(RandomValueHDRType, FP16, Some(Random01), IsAlpha, "Random0-1", "Random 0-1 Value Per Element"),
    Item(BoundingBoxDiameterType, FP16, Some(BoundingBoxDiameter), IsAlpha, "BoundDiameter", "Bounding Box Diameter"),
    Item(HierarchyPositionHDRType, FP16, Some(NormalizedStepsToRoot), IsAlpha, "NormalizedHierPos", "Normalized 0-1 Hierarchy Position"),
    Item(XWidthType, FP16, Some(DistanceX), IsAlpha, "ObjectXWidth", "Object X Width"),
    Item(YDepthType, FP16, Some(DistanceY), IsAlpha, "ObjectYDepth", "Object Y Depth"),
    Item(ZHeightType, FP16, Some(DistanceZ), IsAlpha, "ObjectZHeight", "Object Z Height"),
    Item(ParentIndexFloatType, FP16, Some(ParentIndexAsFloat), IsAlpha, "ParentIndexFloat", "Parent Index (Float: Max 2048)"),
    Item(HierarchyPositionLDRType, U8, Some(NormalizedStepsToRoot), IsAlpha, "NormalizedHierPos", "Normalized 0-1 Hierarchy Position"),
    Item(RandomValueLDRType, U8, Some(Random01), IsAlpha, "Random0-1", "Random 0-1 Value Per Element"),
    Item(XExtentType, U8, Some(DistanceXLdr), IsAlpha, "XExtentDividedby2048reaches2048", "X Extent (0-2048)"),
    Item(YExtentType, U8, Some(DistanceYLdr), IsAlpha, "YExtentDividedby2048reaches2048", "Y Extent (0-2048)"),
    Item(ZExtentType, U8, Some(DistanceZLdr), IsAlpha, "ZExtentDividedby2048reaches2048", "Z Extent (0-2048)")
  ]

  /** Every entry has its own type id. */
  lemma TypesDistinct()
    ensures forall i, j :: 0 <= i < j < |Items| ==> Items[i].renderType != Items[j].renderType
  {
  }

  /** The type ids of a list of entries. */
  function Types(s: seq<Item>): (r: seq<int>)
    ensures |r| == |s|
    ensures forall i :: 0 <= i < |s| ==> r[i] == s[i].renderType
  {
    if s == [] then [] else [s[0].renderType] + Types(s[1..])
  }

  /** The errors looking up a render type can end in. */
  datatype LookupError = UnknownType(renderType: int)

  /** `fromType`: the first entry with type id t.  An unknown id falls back
      to a name that only exists inside the RenderType class, so the lookup
      raises NameError instead of returning the empty entry. */
  function FromType(t: int): (r: Result<Item, LookupError>)
    ensures r.Ok? <==> exists x :: x in Items && x.renderType == t
    ensures r.Ok? ==> r.value in Items && r.value.renderType == t
    ensures r.Err? ==> r == Err(UnknownType(t))
  {
    var keep := (item: Item) => item.renderType == t;
    var filtered := Select(Items, keep);
    forall x | x in Items && x.renderType == t
      ensures x in filtered
    {
      SelectMembers(Items, keep, x);
    }
    if |filtered| > 0 then
      SelectMembers(Items, keep, filtered[0]);
      Ok(filtered[0])
    else
      Err(UnknownType(t))
  }

  /** Two entries with the same type id are the same entry. */
  lemma SameTypeSameIndex(i: int, j: int)
    requires 0 <= i < |Items| && 0 <= j < |Items|
    requires Items[i].renderType == Items[j].renderType
    ensures i == j
  {
    TypesDistinct();
  }

  /** No entry occurs twice in the table. */
  lemma ItemsDistinct()
    ensures Distinct(Items)
  {
    TypesDistinct();
  }

  /** Because the ids are distinct, the entry found is the one entry with
      that id. */
  lemma FromTypeUnique(i: int)
    requires 0 <= i < |Items|
    ensures FromType(Items[i].renderType) == Ok(Items[i])
  {
    var r := FromType(Items[i].renderType);
    assert r.Ok? by {
      assert Items[i] in Items;
    }
    SameTypeSameIndex(i, IndexOf(Items, r.value));
  }

  /** `getAlphas`: the entries that suit precision p and may fill alpha,
      in table order. */
  function GetAlphas(p: int): (r: seq<Item>)
    ensures forall x :: x in r <==> x in Items && IsPrecision(x, p) && IsAlphaItem(x)
    ensures forall a, b :: 0 <= a < b < |r| ==> IndexOf(Items, r[a]) < IndexOf(Items, r[b])
  {
    var keep := (item: Item) => IsPrecision(item, p) && IsAlphaItem(item);
    ItemsDistinct();
    SelectSubsequence(Items, keep);
    Select(Items, keep)
  }

  /** `getRGBs`: the entries that may fill the colour channels, in table
      order. */
  function GetRGBs(): (r: seq<Item>)
    ensures forall x :: x in r <==> x in Items && IsRGBItem(x)
    ensures forall a, b :: 0 <= a < b < |r| ==> IndexOf(Items, r[a]) < IndexOf(Items, r[b])
  {
    var keep := (item: Item) => IsRGBItem(item);
    ItemsDistinct();
    SelectSubsequence(Items, keep);
    Select(Items, keep)
  }

  /** `call`: runs the entry's producer on the pixel; the empty entry
      leaves it as it is. */
  method Call(item: Item, d: NodeData, px: Pixel, scene: Scene)
    modifies px
    ensures px.GetRGBA() == Apply(item, d, old(px.GetRGBA()), scene)
  {
    if item.func.Some? {
      Render(item.func.value, d, px, scene);
    }
  }

  /** The channels after calling an entry on channels c. */
  function Apply(item: Item, d: NodeData, c: seq<bv32>, scene: Scene): (r: seq<bv32>)
    requires |c| == 4
    ensures |r| == 4
  {
    if item.func.Some? then Rendered(item.func.value, d, c, scene) else c
  }

  /** Each entry of the table writes only the channels its alpha setting
      names: a colour entry leaves alpha, an alpha entry leaves red, green
      and blue. */
  lemma ItemsWriteTheirChannels(i: int, d: NodeData, c: seq<bv32>, scene: Scene)
    requires 0 <= i < |Items| && |c| == 4
    ensures !IsAlphaItem(Items[i]) ==> Apply(Items[i], d, c, scene)[3] == c[3]
    ensures !IsRGBItem(Items[i]) ==> Apply(Items[i], d, c, scene)[..3] == c[..3]
  {
    var item := Items[i];
    assert item.func.Some? ==> (WritesRGB(item.func.value) <==> item.alpha == NotAlpha);
    if item.func.Some? {
      RenderedChannels(item.func.value, d, c, scene);
    }
  }
}
