/**
 * The URP to HDRP material converter of SRPMaterialConverterWindow.cs: the
 * selected materials whose shader is URP Lit are switched to HDRP Lit, their
 * textures and colours are carried over to the HDRP property names, and the
 * packed mask is looked up by a root name derived from the metallic (or,
 * as written, the occlusion) texture.
 *
 * A material keeps its saved properties as two maps, textures and colours,
 * as Unity's material property sheet does. Looking a texture asset up by
 * name (`LoadTexture2D`) is the parameter `find`.
 */
module MaterialConverter {
  import opened Wrappers
  import opened Text
  import MaskConverterWindow

  /** The shader the selection filter looks for, and the shader converted materials get. */
  const UrpLit := "Universal Render Pipeline/Lit"
  const HdrpLit := "HDRP/Lit"

  /** URP Lit property names the converter reads. */
  const BaseMap := "_BaseMap"
  const BaseColor := "_BaseColor"
  const MetallicGlossMap := "_MetallicGlossMap"
  const OcclusionMap := "_OcclusionMap"
  const BumpMap := "_BumpMap"
  const EmissionColor := "_EmissionColor"
  const EmissionMap := "_EmissionMap"

  /**
   * HDRP Lit property names the converter writes; `mainTexture` and `color`
   * are HDRP Lit's `_BaseColorMap` and `_BaseColor`.
   */
  const BaseColorMap := "_BaseColorMap"
  const MaskMap := "_MaskMap"
  const NormalMap := "_NormalMap"
  const EmissiveColorMap := "_EmissiveColorMap"

  /** What `GetColor` yields for a colour the material does not have. */
  const MissingColor := Color(0.0, 0.0, 0.0, 0.0)

  /** The window's three suffix fields. */
  datatype Suffixes = Suffixes(mask: string, metallic: string, occlusion: string)

  /** The suffixes the window starts with. */
  const DefaultSuffixes := Suffixes("_Mask", "_MSM", "_AO")

  /** Whether a texture asset is a `Texture2D` or another kind of texture (a render texture, a cubemap, ...). */
  datatype TextureKind = Texture2D | OtherTexture

  /** A texture asset, known to the converter by its name and its kind. */
  datatype TextureAsset = TextureAsset(name: string, kind: TextureKind)

  datatype Color = Color(r: real, g: real, b: real, a: real)

  /**
   * The root-name derivation: a root, no root (the mask stays null), or the
   * `ArgumentOutOfRangeException` that `Substring` throws for a negative length.
   */
  datatype Derivation = Root(root: string) | NoRoot | OutOfRange

  /** What converting one material did: it converted (with or without a mask), or it threw. */
  datatype Outcome = Converted(hasMask: bool) | Threw

  /** What the converter reads and writes of a material: its shader's name and its texture and colour properties. */
  datatype MaterialState = MaterialState(shader: string, textures: map<string, Option<TextureAsset>>, colors: map<string, Color>)

  /** A material asset: its shader's name and its saved texture and colour properties. */
  class Material {
    var shader: string
    var textures: map<string, Option<TextureAsset>>
    var colors: map<string, Color>

    constructor (shader: string, textures: map<string, Option<TextureAsset>>, colors: map<string, Color>)
      ensures this.shader == shader
      ensures this.textures == textures && this.colors == colors
    {
      this.shader := shader;
      this.textures := textures;
      this.colors := colors;
    }

    /** The material's current shader, textures and colours. */
    function State(): (s: MaterialState)
      reads this
      ensures s.shader == shader && s.textures == textures && s.colors == colors
    {
      MaterialState(shader, textures, colors)
    }
  }

  /** The selection filter: the shader name contains "Universal Render Pipeline/Lit". */
  predicate IsUrpLit(shader: string)
  {
    Contains(shader, UrpLit)
  }

  /** The materials of the selection the window offers to convert, in selection order. */
  function SelectUrpLit(materials: seq<Material>): (selected: seq<Material>)
    reads materials
    ensures forall m :: m in selected ==> m in materials && IsUrpLit(m.shader)
    ensures forall m :: m in materials && IsUrpLit(m.shader) ==> m in selected
  {
    if materials == [] then []
    else
      var last := materials[|materials| - 1];
      SelectUrpLit(materials[..|materials| - 1]) + (if IsUrpLit(last.shader) then [last] else [])
  }

  /** The window's count of selected materials is the number of URP Lit shaders in the selection. */
  lemma {:induction false} SelectUrpLitCount(materials: seq<Material>)
    ensures |SelectUrpLit(materials)| == CountUrp(Shaders(materials))
  {
    if materials != [] {
      var prefix := materials[..|materials| - 1];
      SelectUrpLitCount(prefix);
      assert Shaders(materials)[..|materials| - 1] == Shaders(prefix);
    }
  }

  /** The shader names of `materials`, in order. */
  function Shaders(materials: seq<Material>): (shaders: seq<string>)
    reads materials
    ensures |shaders| == |materials|
    ensures forall i :: 0 <= i < |materials| ==> shaders[i] == materials[i].shader
  {
    if materials == [] then [] else Shaders(materials[..|materials| - 1]) + [materials[|materials| - 1].shader]
  }

  /** How many of `shaders` the selection filter accepts. */
  function CountUrp(shaders: seq<string>): (n: nat)
    ensures n <= |shaders|
  {
    if shaders == [] then 0
    else CountUrp(shaders[..|shaders| - 1]) + (if IsUrpLit(shaders[|shaders| - 1]) then 1 else 0)
  }

  /** How the count grows by one shader. */
  lemma CountUrpStep(shaders: seq<string>, k: nat)
    requires k < |shaders|
    ensures CountUrp(shaders[..k + 1]) == CountUrp(shaders[..k]) + (if IsUrpLit(shaders[k]) then 1 else 0)
  {
    assert shaders[..k + 1][..k] == shaders[..k];
  }

  /** A converted material drops out of the selection: "HDRP/Lit" does not contain the URP shader name. */
  lemma HdrpLitIsNotUrpLit()
    ensures !IsUrpLit(HdrpLit)
  {
    if IsUrpLit(HdrpLit) {
      ContainsIsLonger(HdrpLit, UrpLit);
    }
  }

  /** `GetTexture`: the saved texture, or null when the material has none under `key`. */
  function TextureOf(textures: map<string, Option<TextureAsset>>, key: string): Option<TextureAsset>
  {
    if key in textures then textures[key] else None
  }

  /** `GetColor`: the saved colour, or `MissingColor` when the material has none under `key`. */
  function ColorOf(colors: map<string, Color>, key: string): Color
  {
    if key in colors then colors[key] else MissingColor
  }

  /** The metallic branch applies: the metallic texture is present and its name contains the metallic suffix. */
  predicate MetallicMatches(metallic: Option<TextureAsset>, suffixes: Suffixes)
  {
    metallic.Some? && Contains(metallic.value.name, suffixes.metallic)
  }

  /** The occlusion branch applies, as written: the occlusion texture's name contains the METALLIC suffix. */
  predicate OcclusionMatches(occlusion: Option<TextureAsset>, suffixes: Suffixes)
  {
    occlusion.Some? && Contains(occlusion.value.name, suffixes.metallic)
  }

  /**
   * The root of the mask's name: the metallic name without its last
   * |metallic suffix| characters; failing that, the occlusion name without
   * its last |occlusion suffix| characters; failing both, no root.
   */
  function DeriveRoot(metallic: Option<TextureAsset>, occlusion: Option<TextureAsset>, suffixes: Suffixes)
    : (d: Derivation)
    ensures d.NoRoot? <==> !MetallicMatches(metallic, suffixes) && !OcclusionMatches(occlusion, suffixes)
    ensures d.OutOfRange? <==>
      !MetallicMatches(metallic, suffixes) && OcclusionMatches(occlusion, suffixes) &&
      |occlusion.value.name| < |suffixes.occlusion|
    ensures MetallicMatches(metallic, suffixes) ==>
      d.Root? && d.root <= metallic.value.name && |d.root| + |suffixes.metallic| == |metallic.value.name|
    ensures !MetallicMatches(metallic, suffixes) && d.Root? ==>
      d.root <= occlusion.value.name && |d.root| + |suffixes.occlusion| == |occlusion.value.name|
  {
    if MetallicMatches(metallic, suffixes) then
      var name := metallic.value.name;
      ContainsIsLonger(name, suffixes.metallic);
      Root(name[..|name| - |suffixes.metallic|])
    else if OcclusionMatches(occlusion, suffixes) then
      var name := occlusion.value.name;
      if |name| < |suffixes.occlusion| then OutOfRange else Root(name[..|name| - |suffixes.occlusion|])
    else NoRoot
  }

  /** The metallic root completes the name again when the name ends with the metallic suffix. */
  lemma MetallicRootRoundTrip(metallic: TextureAsset, occlusion: Option<TextureAsset>, suffixes: Suffixes)
    requires EndsWith(metallic.name, suffixes.metallic)
    ensures DeriveRoot(Some(metallic), occlusion, suffixes) == Root(metallic.name[..|metallic.name| - |suffixes.metallic|])
    ensures DeriveRoot(Some(metallic), occlusion, suffixes).root + suffixes.metallic == metallic.name
  {
    EndsWithContains(metallic.name, suffixes.metallic);
  }

  /**
   * The exception needs an occlusion suffix longer than the metallic one: a
   * name containing the metallic suffix is at least that long.
   */
  lemma InRangeWhenMetallicSuffixIsLonger(metallic: Option<TextureAsset>, occlusion: Option<TextureAsset>, suffixes: Suffixes)
    requires |suffixes.occlusion| <= |suffixes.metallic|
    ensures !DeriveRoot(metallic, occlusion, suffixes).OutOfRange?
  {
    if OcclusionMatches(occlusion, suffixes) {
      ContainsIsLonger(occlusion.value.name, suffixes.metallic);
    }
  }

  /** With the window's own suffixes the derivation never throws. */
  lemma DefaultSuffixesInRange(metallic: Option<TextureAsset>, occlusion: Option<TextureAsset>)
    ensures !DeriveRoot(metallic, occlusion, DefaultSuffixes).OutOfRange?
  {
    InRangeWhenMetallicSuffixIsLonger(metallic, occlusion, DefaultSuffixes);
  }

  /** The occlusion branch as written: an occlusion map named with the metallic suffix loses three characters. */
  lemma OcclusionBranchStripsOcclusionLength()
    ensures DeriveRoot(None, Some(TextureAsset("Rock_MSM", Texture2D)), DefaultSuffixes) == Root("Rock_")
  {
    var name := "Rock_MSM";
    assert "_MSM" <= name[4..];
    assert Contains(name[4..], "_MSM");
    assert Contains(name[3..], "_MSM");
    assert Contains(name[2..], "_MSM");
    assert Contains(name[1..], "_MSM");
    assert Contains(name, "_MSM");
  }

  /** The occlusion branch as written: with suffixes "_M" and "_OCCL", the occlusion name "x_M" makes `Substring` throw. */
  lemma OcclusionBranchCanThrow()
    ensures DeriveRoot(None, Some(TextureAsset("x_M", Texture2D)), Suffixes("_Mask", "_M", "_OCCL")).OutOfRange?
  {
    assert "_M" <= "x_M"[1..];
    assert Contains("x_M"[1..], "_M");
  }

  /** The name `LoadTexture2D` is asked for: root + mask suffix, or no lookup at all. */
  function MaskName(d: Derivation, suffixes: Suffixes): (name: Option<string>)
    requires !d.OutOfRange?
    ensures name.Some? <==> d.Root?
    ensures name.Some? ==> EndsWith(name.value, suffixes.mask) && d.root <= name.value
  {
    if d.Root? then
      var name := d.root + suffixes.mask;
      assert name[|name| - |suffixes.mask|..] == suffixes.mask;
      Some(name)
    else None
  }

  /** The mask texture: the lookup's result for the mask name, or null when there is no root. */
  function FindMask(d: Derivation, suffixes: Suffixes, find: string -> Option<TextureAsset>): (mask: Option<TextureAsset>)
    requires !d.OutOfRange?
    ensures d.NoRoot? ==> mask.None?
    ensures d.Root? ==> mask == find(d.root + suffixes.mask)
  {
    var name := MaskName(d, suffixes);
    if name.Some? then find(name.value) else None
  }

  /**
   * The mask the material converter looks for is the one the mask packer
   * writes: with both windows' default suffixes, a metallic map named
   * root + "_MSM" gives the packer's group root, and the lookup name is
   * that root + "_Mask", the name of the packer's output file without ".png".
   */
  lemma LooksUpPackedMask(metallic: TextureAsset, occlusion: Option<TextureAsset>, directory: Option<string>)
    requires EndsWith(metallic.name, DefaultSuffixes.metallic)
    ensures var root := MaskConverterWindow.GetRootName(metallic.name, MaskConverterWindow.DefaultSuffixes);
      && root.Some?
      && DeriveRoot(Some(metallic), occlusion, DefaultSuffixes) == Root(root.value)
      && MaskName(Root(root.value), DefaultSuffixes) == Some(root.value + "_Mask")
      && MaskConverterWindow.OutputPath(directory, root.value, MaskConverterWindow.DefaultSuffixes.mask) ==
         (if directory.Some? then directory.value else "") + root.value + "_Mask" + ".png"
  {
    MetallicRootRoundTrip(metallic, occlusion, DefaultSuffixes);
    assert MaskConverterWindow.TryGetRoot(metallic.name, "_MSM").Some?;
  }

  /** The HDRP textures: the four written properties take their URP sources, every other entry is kept. */
  function HdrpTextures(textures: map<string, Option<TextureAsset>>, mask: Option<TextureAsset>)
    : map<string, Option<TextureAsset>>
  {
    textures[BaseColorMap := TextureOf(textures, BaseMap)][MaskMap := mask]
            [NormalMap := TextureOf(textures, BumpMap)][EmissiveColorMap := TextureOf(textures, EmissionMap)]
  }

  /** What the HDRP texture map holds: the four written properties and, unchanged, every other entry. */
  lemma HdrpTexturesRemap(textures: map<string, Option<TextureAsset>>, mask: Option<TextureAsset>)
    ensures var r := HdrpTextures(textures, mask);
      && r.Keys == textures.Keys + {BaseColorMap, MaskMap, NormalMap, EmissiveColorMap}
      && r[BaseColorMap] == TextureOf(textures, BaseMap)
      && r[MaskMap] == mask
      && r[NormalMap] == TextureOf(textures, BumpMap)
      && r[EmissiveColorMap] == TextureOf(textures, EmissionMap)
      && forall k :: k in textures && k !in {BaseColorMap, MaskMap, NormalMap, EmissiveColorMap} ==> r[k] == textures[k]
  {
  }

  /** The HDRP colours: the main and emission colours are written back, every other entry is kept. */
  function HdrpColors(colors: map<string, Color>): map<string, Color>
  {
    colors[BaseColor := ColorOf(colors, BaseColor)][EmissionColor := ColorOf(colors, EmissionColor)]
  }

  /** What the HDRP colour map holds: the two written colours and, unchanged, every other entry. */
  lemma HdrpColorsRemap(colors: map<string, Color>)
    ensures var r := HdrpColors(colors);
      && r.Keys == colors.Keys + {BaseColor, EmissionColor}
      && r[BaseColor] == ColorOf(colors, BaseColor) && r[EmissionColor] == ColorOf(colors, EmissionColor)
      && forall k :: k in colors ==> r[k] == colors[k]
  {
  }

  /** `(Texture2D)texture` throws `InvalidCastException`: the property holds a texture that is not a `Texture2D`. */
  predicate CastThrows(texture: Option<TextureAsset>)
  {
    texture.Some? && texture.value.kind != Texture2D
  }

  /** The root derivation for a material's saved textures. */
  function RootOf(textures: map<string, Option<TextureAsset>>, suffixes: Suffixes): Derivation
  {
    DeriveRoot(TextureOf(textures, MetallicGlossMap), TextureOf(textures, OcclusionMap), suffixes)
  }

  /**
   * Converting a material with these textures throws: one of the three
   * `(Texture2D)` casts fails, or the root derivation calls `Substring` with
   * a negative length.
   */
  predicate ConversionThrows(textures: map<string, Option<TextureAsset>>, suffixes: Suffixes)
  {
    || CastThrows(TextureOf(textures, BaseMap))
    || CastThrows(TextureOf(textures, MetallicGlossMap))
    || CastThrows(TextureOf(textures, OcclusionMap))
    || RootOf(textures, suffixes).OutOfRange?
  }

  /** With the window's own suffixes only a failing cast makes a conversion throw. */
  lemma DefaultSuffixesThrowOnlyOnCasts(textures: map<string, Option<TextureAsset>>)
    ensures ConversionThrows(textures, DefaultSuffixes) <==>
      CastThrows(TextureOf(textures, BaseMap)) || CastThrows(TextureOf(textures, MetallicGlossMap)) ||
      CastThrows(TextureOf(textures, OcclusionMap))
  {
    DefaultSuffixesInRange(TextureOf(textures, MetallicGlossMap), TextureOf(textures, OcclusionMap));
  }

  /** A metallic map that is a render texture, not a `Texture2D`, makes the conversion throw. */
  lemma RenderTextureMetallicThrows(textures: map<string, Option<TextureAsset>>, name: string)
    requires textures == map[MetallicGlossMap := Some(TextureAsset(name, OtherTexture))]
    ensures ConversionThrows(textures, DefaultSuffixes)
  {
    assert TextureOf(textures, MetallicGlossMap) == Some(TextureAsset(name, OtherTexture));
  }

  /**
   * The state a conversion that does not throw leaves: HDRP Lit, the HDRP
   * textures with the looked-up mask, and the HDRP colours.
   */
  function ConvertedState(s: MaterialState, suffixes: Suffixes, find: string -> Option<TextureAsset>): (r: MaterialState)
    requires !ConversionThrows(s.textures, suffixes)
    ensures !IsUrpLit(r.shader)
  {
    HdrpLitIsNotUrpLit();
    MaterialState(HdrpLit, HdrpTextures(s.textures, FindMask(RootOf(s.textures, suffixes), suffixes, find)),
                  HdrpColors(s.colors))
  }

  /**
   * `ConvertUrpToHdrpMaterial`: reads the URP properties, derives the root,
   * looks the mask up, then switches the shader and writes the HDRP
   * properties. When a cast or `Substring` throws, the material is left as
   * it was.
   */
  method ConvertUrpToHdrpMaterial(material: Material, suffixes: Suffixes, find: string -> Option<TextureAsset>)
    returns (outcome: Outcome)
    modifies material
    ensures outcome.Threw? <==> ConversionThrows(old(material.textures), suffixes)
    ensures outcome.Threw? ==> unchanged(material)
    ensures outcome.Converted? ==>
      && outcome.hasMask == FindMask(RootOf(old(material.textures), suffixes), suffixes, find).Some?
      && material.State() == ConvertedState(old(material.State()), suffixes, find)
  {
    ghost var textures, colors := material.textures, material.colors;
    var albedo := TextureOf(material.textures, BaseMap);
    if CastThrows(albedo) {
      return Threw;
    }
    var color := ColorOf(material.colors, BaseColor);
    var texMetallic := TextureOf(material.textures, MetallicGlossMap);
    if CastThrows(texMetallic) {
      return Threw;
    }
    var texOcclusion := TextureOf(material.textures, OcclusionMap);
    if CastThrows(texOcclusion) {
      return Threw;
    }
    var texBump := TextureOf(material.textures, BumpMap);
    var colEmission := ColorOf(material.colors, EmissionColor);
    var texEmission := TextureOf(material.textures, EmissionMap);
    var root: Option<string> := None;
    if texMetallic.Some? && Contains(texMetallic.value.name, suffixes.metallic) {
      var name := texMetallic.value.name;
      ContainsIsLonger(name, suffixes.metallic);
      root := Some(name[..|name| - |suffixes.metallic|]);
    } else if texOcclusion.Some? && Contains(texOcclusion.value.name, suffixes.metallic) {
      var name := texOcclusion.value.name;
      if |name| < |suffixes.occlusion| {
        return Threw;
      }
      root := Some(name[..|name| - |suffixes.occlusion|]);
    }
    ghost var d := RootOf(textures, suffixes);
    assert root == (if d.Root? then Some(d.root) else None);
    var mask: Option<TextureAsset> := None;
    if root.Some? {
      mask := find(root.value + suffixes.mask);
    }
    assert mask == FindMask(d, suffixes, find);
    outcome := Converted(mask.Some?);
    material.shader := HdrpLit;
    material.textures := material.textures[BaseColorMap := albedo];
    material.colors := material.colors[BaseColor := color];
    material.textures := material.textures[MaskMap := mask];
    material.textures := material.textures[NormalMap := texBump];
    material.colors := material.colors[EmissionColor := colEmission];
    material.textures := material.textures[EmissiveColorMap := texEmission];
    assert material.textures == HdrpTextures(textures, mask);
    assert material.colors == HdrpColors(colors);
  }

  /**
   * One step of the walk: the material is converted when the filter still
   * accepts it; `threw` reports the exception, which leaves it untouched.
   */
  method ConvertIfUrpLit(material: Material, suffixes: Suffixes, find: string -> Option<TextureAsset>)
    returns (converted: bool, threw: bool)
    modifies material
    ensures threw <==> old(IsUrpLit(material.shader)) && old(ConversionThrows(material.textures, suffixes))
    ensures converted <==> old(IsUrpLit(material.shader)) && !threw
    ensures !converted ==> unchanged(material)
    ensures converted ==> material.State() == ConvertedState(old(material.State()), suffixes, find)
  {
    converted, threw := false, false;
    if IsUrpLit(material.shader) {
      var outcome := ConvertUrpToHdrpMaterial(material, suffixes, find);
      threw := outcome.Threw?;
      converted := !threw;
    }
  }

  /** The states of `materials`, in order. */
  function States(materials: seq<Material>): (states: seq<MaterialState>)
    reads materials
    ensures |states| == |materials|
    ensures forall i :: 0 <= i < |materials| ==> states[i] == materials[i].State()
  {
    if materials == [] then [] else States(materials[..|materials| - 1]) + [materials[|materials| - 1].State()]
  }

  /**
   * A material of the walk that started in state `s0` and is now in state
   * `now`: still in it, or converted from URP Lit without a throw.
   */
  predicate SettledState(now: MaterialState, s0: MaterialState, suffixes: Suffixes, find: string -> Option<TextureAsset>)
  {
    || now == s0
    || (IsUrpLit(s0.shader) && !ConversionThrows(s0.textures, suffixes) && now == ConvertedState(s0, suffixes, find))
  }

  /** A settled material stays settled through one more step of the walk. */
  lemma SettledStep(before: MaterialState, after: MaterialState, s0: MaterialState, suffixes: Suffixes,
                    find: string -> Option<TextureAsset>)
    requires SettledState(before, s0, suffixes, find)
    requires || after == before
             || (IsUrpLit(before.shader) && !ConversionThrows(before.textures, suffixes) &&
                 after == ConvertedState(before, suffixes, find))
    ensures SettledState(after, s0, suffixes, find)
  {
  }

  /** The material `m` of the walk, which started in state `s0`, is settled. */
  ghost predicate Settled(m: Material, s0: MaterialState, suffixes: Suffixes, find: string -> Option<TextureAsset>)
    reads m
  {
    SettledState(m.State(), s0, suffixes, find)
  }

  /** Every material of the walk, whose states were `states`, is settled. */
  ghost predicate Consistent(selection: seq<Material>, states: seq<MaterialState>, suffixes: Suffixes,
                             find: string -> Option<TextureAsset>)
    requires |selection| == |states|
    reads selection
  {
    forall j :: 0 <= j < |selection| ==> Settled(selection[j], states[j], suffixes, find)
  }

  /** The filter no longer accepts the first `k` materials. */
  ghost predicate WalkedUpTo(selection: seq<Material>, k: nat)
    requires k <= |selection|
    reads selection
  {
    forall j :: 0 <= j < k ==> !IsUrpLit(selection[j].shader)
  }

  /** None of the first `k` states is a URP Lit material whose conversion throws. */
  predicate NoThrowUpTo(states: seq<MaterialState>, k: nat, suffixes: Suffixes)
    requires k <= |states|
  {
    forall j :: 0 <= j < k && IsUrpLit(states[j].shader) ==> !ConversionThrows(states[j].textures, suffixes)
  }

  /** The materials from `k` on are still in the states they started in. */
  ghost predicate Pending(selection: seq<Material>, states: seq<MaterialState>, k: nat)
    requires k <= |selection| == |states|
    reads selection
  {
    forall j :: k <= j < |selection| ==> selection[j].State() == states[j]
  }

  /** `selection` lists no material twice, as Unity's selection does not. */
  predicate Distinct(selection: seq<Material>)
  {
    forall i, j :: 0 <= i < j < |selection| ==> selection[i] != selection[j]
  }

  /** One pass of the walk's loop: the k-th material is converted if the filter still accepts it. */
  method WalkStep(selection: seq<Material>, ghost states: seq<MaterialState>, k: nat, suffixes: Suffixes,
                  find: string -> Option<TextureAsset>) returns (one: bool, threw: bool)
    requires k < |selection| == |states|
    requires Consistent(selection, states, suffixes, find) && WalkedUpTo(selection, k)
    requires NoThrowUpTo(states, k, suffixes)
    modifies selection[k]
    ensures !one ==> unchanged(selection[k])
    ensures threw ==> !one
    ensures threw <==> IsUrpLit(states[k].shader) && ConversionThrows(states[k].textures, suffixes)
    ensures Consistent(selection, states, suffixes, find)
    ensures !threw ==> WalkedUpTo(selection, k + 1) && NoThrowUpTo(states, k + 1, suffixes)
    ensures Distinct(selection) && old(Pending(selection, states, k)) ==>
      Pending(selection, states, k + 1) && (one <==> IsUrpLit(states[k].shader) && !threw)
  {
    var material := selection[k];
    ghost var before := material.State();
    one, threw := ConvertIfUrpLit(material, suffixes, find);
    assert SettledState(before, states[k], suffixes, find);
    forall j | 0 <= j < |selection|
      ensures Settled(selection[j], states[j], suffixes, find)
      ensures !threw && j < k + 1 ==> !IsUrpLit(selection[j].shader)
    {
      if selection[j] == material {
        assert SettledState(before, states[j], suffixes, find);
        SettledStep(before, material.State(), states[j], suffixes, find);
      }
    }
    if Distinct(selection) && old(Pending(selection, states, k)) {
      forall j | k + 1 <= j < |selection| ensures selection[j].State() == states[j] {
        assert selection[j] != material;
      }
    }
  }

  /**
   * A walk over materials that started in `states` stopped at the k-th one:
   * it is URP Lit and its conversion throws, none before it throws, none
   * before it passes the filter any more, and on a selection without
   * repeats the materials from k on are untouched.
   */
  ghost predicate StoppedAt(selection: seq<Material>, states: seq<MaterialState>, k: int, suffixes: Suffixes)
    reads selection
  {
    && 0 <= k < |selection| == |states|
    && IsUrpLit(states[k].shader) && ConversionThrows(states[k].textures, suffixes)
    && NoThrowUpTo(states, k, suffixes)
    && WalkedUpTo(selection, k)
    && (Distinct(selection) ==> Pending(selection, states, k))
  }

  /**
   * A walk stopped at the k-th material has converted every URP Lit
   * material before it: the first throw is k's, and everything before it
   * ran to completion.
   */
  lemma StoppedWalkConverted(selection: seq<Material>, states: seq<MaterialState>, k: int, suffixes: Suffixes,
                             find: string -> Option<TextureAsset>)
    requires StoppedAt(selection, states, k, suffixes)
    requires Consistent(selection, states, suffixes, find)
    ensures forall j :: 0 <= j < k && IsUrpLit(states[j].shader) ==>
      !ConversionThrows(states[j].textures, suffixes) && selection[j].State() == ConvertedState(states[j], suffixes, find)
  {
    forall j | 0 <= j < k && IsUrpLit(states[j].shader)
      ensures selection[j].State() == ConvertedState(states[j], suffixes, find)
    {
      assert Settled(selection[j], states[j], suffixes, find);
      assert !IsUrpLit(selection[j].shader);
    }
  }

  /** The whole of a sequence is its slice up to its length. */
  lemma WholeSlice(shaders: seq<string>)
    ensures shaders[..|shaders|] == shaders
  {
  }

  /**
   * `ConvertUrpToHdrpMaterials`: walks the selection, re-testing the shader
   * filter as the lazy query does, and converts each URP Lit material; a
   * throw ends the walk. The walk completes exactly when no URP Lit material
   * of the selection throws; every material is then left as it was or
   * converted, a completed walk converts every URP Lit material, and on a
   * selection without repeats it converts as many materials as the window
   * counted.
   */
  method ConvertUrpToHdrpMaterials(selection: seq<Material>, suffixes: Suffixes, find: string -> Option<TextureAsset>)
    returns (converted: nat, completed: bool)
    modifies selection
    ensures converted <= |selection|
    ensures completed <==> forall j :: 0 <= j < |selection| && old(IsUrpLit(selection[j].shader)) ==>
      !old(ConversionThrows(selection[j].textures, suffixes))
    ensures forall j :: 0 <= j < |selection| ==> Settled(selection[j], old(selection[j].State()), suffixes, find)
    ensures completed ==> forall j :: 0 <= j < |selection| && old(IsUrpLit(selection[j].shader)) ==>
      selection[j].State() == ConvertedState(old(selection[j].State()), suffixes, find)
    ensures completed ==> forall m :: m in selection ==> !IsUrpLit(m.shader)
    ensures completed && Distinct(selection) ==> converted == CountUrp(old(Shaders(selection)))
    ensures !completed ==> exists k :: StoppedAt(selection, old(States(selection)), k, suffixes)
  {
    ghost var states := States(selection);
    ghost var shaders := Shaders(selection);
    converted := 0;
    for k := 0 to |selection|
      invariant converted <= k
      invariant forall j :: 0 <= j < |selection| ==> states[j] == old(selection[j].State())
      invariant Consistent(selection, states, suffixes, find) && WalkedUpTo(selection, k)
      invariant NoThrowUpTo(states, k, suffixes)
      invariant Distinct(selection) ==> Pending(selection, states, k)
      invariant Distinct(selection) ==> converted == CountUrp(shaders[..k])
    {
      CountUrpStep(shaders, k);
      var one, threw := WalkStep(selection, states, k, suffixes, find);
      if threw {
        assert StoppedAt(selection, states, k, suffixes);
        return converted, false;
      }
      if one {
        converted := converted + 1;
      }
    }
    WholeSlice(shaders);
    completed := true;
  }
}
