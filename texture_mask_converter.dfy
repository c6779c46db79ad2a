/**
 * The mask packer of TextureMaskConverter.cs: up to four single-channel
 * source textures (metallic, occlusion, detail, smoothness) are packed into
 * the R, G, B and A channels of one mask texture, which can then be saved as
 * a new asset.
 *
 * Pixel samples are opaque `real`s that are only copied. The asset database
 * is reduced to what the packer observes of it: a texture's asset path, its
 * readability flag, whether a readability change re-imports the asset, and
 * the set of paths that already exist on disk.
 */
module MaskConverter {
  import opened Wrappers
  import opened Text

  /** The value a channel takes when its source is absent or unreadable. */
  const MetallicDefault: real := 0.0
  const OcclusionDefault: real := 1.0
  const DetailDefault: real := 0.0
  const SmoothnessDefault: real := 0.0

  /** One pixel of the mask: R = metallic, G = occlusion, B = detail, A = smoothness. */
  datatype Rgba = Rgba(r: real, g: real, b: real, a: real)

  /** Whether each of the four roles is sampled (present and readable). */
  datatype Readability = Readability(metallic: bool, occlusion: bool, detail: bool, smoothness: bool)

  /** What `SaveAsset` reports: an error, a warning, or a saved file. */
  datatype SaveOutcome = NotConverted | AlreadyExists | Saved

  /**
   * A texture asset (Unity's Texture2D with its importer). Only the red
   * channel is ever read, and the packer never writes a source's pixels, so
   * the red samples are a constant: `red(x, y)` is what `GetPixel(x, y).r`
   * returns, for any coordinates (Unity clamps or repeats those outside the
   * texture according to its wrap mode).
   */
  class Texture {
    const name: string
    const assetPath: string
    const width: nat
    const height: nat
    const red: (nat, nat) -> real
    /** The importer's read/write flag. */
    var readable: bool

    constructor (name: string, assetPath: string, width: nat, height: nat, red: (nat, nat) -> real, readable: bool)
      ensures this.name == name && this.assetPath == assetPath
      ensures this.width == width && this.height == height && this.red == red
      ensures this.readable == readable
    {
      this.name := name;
      this.assetPath := assetPath;
      this.width := width;
      this.height := height;
      this.red := red;
      this.readable := readable;
    }
  }

  /** `FirstOrDefault(tex => tex is not null)`: the first present texture, or null. */
  function FirstPresent(textures: seq<Texture?>): (first: Texture?)
    ensures first == null <==> forall k :: 0 <= k < |textures| ==> textures[k] == null
    ensures first != null ==>
      exists k :: 0 <= k < |textures| && textures[k] == first &&
        forall j :: 0 <= j < k ==> textures[j] == null
  {
    if textures == [] then null
    else if textures[0] != null then textures[0]
    else
      var rest := FirstPresent(textures[1..]);
      assert rest != null ==> exists k :: 0 <= k < |textures[1..]| && textures[1..][k] == rest &&
                                          forall j :: 0 <= j < k ==> textures[1..][j] == null;
      rest
  }

  /** The present textures among `roles`. */
  function RoleSet(roles: seq<Texture?>): set<Texture>
  {
    set t: Texture | t in roles
  }

  /**
   * The directory part of an asset path: everything up to and including the
   * last '/', or the empty string when there is no '/'.
   */
  function DirectoryOf(path: string): (dir: string)
    ensures dir <= path
    ensures dir == [] || dir[|dir| - 1] == '/'
    ensures forall j :: |dir| <= j < |path| ==> path[j] != '/'
  {
    path[..LastIndexOf(path, '/') + 1]
  }

  /** Texture `t` can be read (`texture && texture.isReadable`). */
  predicate IsReadable(t: Texture?)
    reads t
  {
    t != null && t.readable
  }

  /**
   * `GetPixelR`: the red sample of `t` at (x, y) when `t` is present and
   * sampled (readable), else the role's default.
   */
  function Channel(t: Texture?, sampled: bool, x: nat, y: nat, default: real): (c: real)
    ensures t != null && sampled ==> c == t.red(x, y)
    ensures t == null || !sampled ==> c == default
  {
    if t != null && sampled then t.red(x, y) else default
  }

  /**
   * `SetReadable`: sets the importer's read/write flag of `texture` to
   * `readable` and re-imports the asset, unless the texture is null or
   * already has that flag; `reimported` tells whether the asset was
   * re-imported.
   */
  method SetReadable(texture: Texture?, readable: bool) returns (reimported: bool)
    modifies texture
    ensures reimported <==> texture != null && old(texture.readable) != readable
    ensures texture != null ==> texture.readable == readable
    ensures texture != null && !reimported ==> unchanged(texture)
  {
    if texture == null { return false; }
    if texture.readable == readable { return false; }
    texture.readable := readable;
    reimported := true;
  }

  /** TextureMaskConverter: the four sources, the derived fields and the built mask. */
  class Converter {
    const metallic: Texture?
    const occlusion: Texture?
    const detail: Texture?
    const smoothness: Texture?
    /** The first non-null source. */
    const firstTexture: Texture?
    /** The directory of `firstTexture`'s asset path; None (null) when not initialized. */
    const directoryPath: Option<string>
    /** Whether there is any source to convert. */
    const initialized: bool
    /** The packed mask, null until built. */
    var mask: array2?<Rgba>

    /** The sources in channel order. */
    function Roles(): seq<Texture?>
    {
      [metallic, occlusion, detail, smoothness]
    }

    /** The present sources. */
    ghost function Sources(): set<Texture>
    {
      (if metallic != null then {metallic} else {}) + (if occlusion != null then {occlusion} else {}) +
      (if detail != null then {detail} else {}) + (if smoothness != null then {smoothness} else {})
    }

    /** The derived fields agree with the sources, as the constructor sets them. */
    ghost predicate Valid()
    {
      && firstTexture == FirstPresent(Roles())
      && initialized == (firstTexture != null)
      && directoryPath == (if initialized then Some(DirectoryOf(firstTexture.assetPath)) else None)
    }

    /** The sources are exactly the present roles. */
    lemma SourcesAreRoles()
      ensures Sources() == RoleSet(Roles())
    {
      var roles := Roles();
      assert forall t: Texture :: t in roles <==> t == metallic || t == occlusion || t == detail || t == smoothness;
    }

    /** A texture that fills none of the four roles is not a source. */
    lemma NotASource(t: Texture)
      requires t != metallic && t != occlusion && t != detail && t != smoothness
      ensures t !in Sources()
    {
    }

    constructor (metallic: Texture?, occlusion: Texture?, detail: Texture?, smoothness: Texture?)
      ensures Valid()
      ensures this.metallic == metallic && this.occlusion == occlusion
      ensures this.detail == detail && this.smoothness == smoothness
      ensures initialized <==> metallic != null || occlusion != null || detail != null || smoothness != null
      ensures mask == null
    {
      this.metallic := metallic;
      this.occlusion := occlusion;
      this.detail := detail;
      this.smoothness := smoothness;
      var first := FirstPresent([metallic, occlusion, detail, smoothness]);
      firstTexture := first;
      initialized := first != null;
      if first != null {
        var path := first.assetPath;
        var lastSlash := LastIndexOf(path, '/');
        directoryPath := Some(path[..lastSlash + 1]);
      } else {
        directoryPath := None;
      }
      mask := null;
      assert metallic != null ==> [metallic, occlusion, detail, smoothness][0] != null;
      assert occlusion != null ==> [metallic, occlusion, detail, smoothness][1] != null;
      assert detail != null ==> [metallic, occlusion, detail, smoothness][2] != null;
      assert smoothness != null ==> [metallic, occlusion, detail, smoothness][3] != null;
    }

    /** Which roles are sampled right now. */
    function CurrentReadability(): Readability
      reads Sources()
    {
      Readability(IsReadable(metallic), IsReadable(occlusion), IsReadable(detail), IsReadable(smoothness))
    }

    /** Which roles the pixel loop samples, given whether sources are made readable first. */
    function BuildReadability(enableReadableBefore: bool): Readability
      reads Sources()
    {
      if enableReadableBefore
      then Readability(metallic != null, occlusion != null, detail != null, smoothness != null)
      else CurrentReadability()
    }

    /** The mask pixel at (x, y) when the roles sampled are those of `f`. */
    function Pixel(x: nat, y: nat, f: Readability): Rgba
    {
      Rgba(Channel(metallic, f.metallic, x, y, MetallicDefault),
           Channel(occlusion, f.occlusion, x, y, OcclusionDefault),
           Channel(detail, f.detail, x, y, DetailDefault),
           Channel(smoothness, f.smoothness, x, y, SmoothnessDefault))
    }

    /** Requests read/write on each source in turn, as both readability steps of `CreateMask` do. */
    method RequestSourcesReadable()
      modifies Sources()
      ensures forall t :: t in Sources() ==> t.readable
    {
      var _ := SetReadable(metallic, true);
      var _ := SetReadable(occlusion, true);
      var _ := SetReadable(detail, true);
      var _ := SetReadable(smoothness, true);
    }

    /**
     * The pixel loop of `CreateMask`: column by column, row by row, each mask
     * pixel takes the red sample of each source that is present and readable,
     * or that role's default.
     */
    method FillMask(m: array2<Rgba>, ghost f: Readability)
      requires f == CurrentReadability()
      modifies m
      ensures forall x, y :: 0 <= x < m.Length0 && 0 <= y < m.Length1 ==> m[x, y] == Pixel(x, y, f)
    {
      var width, height := m.Length0, m.Length1;
      var x := 0;
      while x < width
        modifies m
        invariant 0 <= x <= width
        invariant forall i, j :: 0 <= i < x && 0 <= j < height ==> m[i, j] == Pixel(i, j, f)
      {
        var y := 0;
        while y < height
          modifies m
          invariant 0 <= y <= height
          invariant forall i, j :: 0 <= i < x && 0 <= j < height ==> m[i, j] == Pixel(i, j, f)
          invariant forall j :: 0 <= j < y ==> m[x, j] == Pixel(x, j, f)
        {
          m[x, y] := Rgba(Channel(metallic, IsReadable(metallic), x, y, MetallicDefault),
                          Channel(occlusion, IsReadable(occlusion), x, y, OcclusionDefault),
                          Channel(detail, IsReadable(detail), x, y, DetailDefault),
                          Channel(smoothness, IsReadable(smoothness), x, y, SmoothnessDefault));
          y := y + 1;
        }
        x := x + 1;
      }
    }

    /**
     * `CreateMask`: on an initialized converter, optionally makes the sources
     * readable, fills a fresh mask of `firstTexture`'s size pixel by pixel,
     * then runs the "disable" step, which requests read/write again.
     */
    method CreateMask(enableReadableBefore: bool, disableReadableAfter: bool)
      requires Valid()
      modifies this, Sources()
      ensures !initialized ==> unchanged(this) && unchanged(Sources())
      ensures initialized ==> mask != null && fresh(mask)
      ensures initialized ==> mask.Length0 == firstTexture.width && mask.Length1 == firstTexture.height
      ensures initialized ==> forall x, y :: 0 <= x < mask.Length0 && 0 <= y < mask.Length1 ==>
        mask[x, y] == Pixel(x, y, old(BuildReadability(enableReadableBefore)))
      ensures initialized ==> forall t :: t in Sources() ==>
        t.readable == (enableReadableBefore || disableReadableAfter || old(t.readable))
    {
      if !initialized {
        return;
      }
      if enableReadableBefore {
        RequestSourcesReadable();
      }
      ghost var f := CurrentReadability();
      assert f == old(BuildReadability(enableReadableBefore));

      var m := new Rgba[firstTexture.width, firstTexture.height];
      mask := m;
      FillMask(m, f);

      if disableReadableAfter {
        RequestSourcesReadable();
      }
    }

    /**
     * `SaveAsset`: refuses with an error when no mask has been built, refuses
     * with a warning when a file already exists at `path`, and otherwise adds
     * exactly `path` to the existing files.
     */
    method SaveAsset(path: string, files: set<string>) returns (outcome: SaveOutcome, files': set<string>)
      ensures outcome == NotConverted <==> mask == null
      ensures outcome == AlreadyExists <==> mask != null && path in files
      ensures outcome == Saved <==> mask != null && path !in files
      ensures files' == (if outcome == Saved then files + {path} else files)
    {
      if mask == null {
        return NotConverted, files;
      }
      if path in files {
        return AlreadyExists, files;
      }
      outcome, files' := Saved, files + {path};
    }
  }
}
