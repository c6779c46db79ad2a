# SRP converter — a Dafny model

This project models the logic of the Unity editor plugin "SRP Converter". The plugin has two tools.

- **Texture mask converter.** It packs up to four single-channel textures into the R, G, B and A channels of one HDRP mask texture:
  - metallic into R;
  - occlusion into G;
  - detail into B;
  - smoothness into A.

  The window groups the selected textures by the root name left after stripping a role suffix (`_MSM`, `_AO`, `_D`, `_S` by default). It builds one mask per group and saves it as `<directory><root>_Mask.png`. The directory is that of the converter's first present source: the group's first texture ending with the metallic suffix, else the first ending with the occlusion suffix, then detail, then smoothness.
- **Material converter.** It switches selected materials from the "Universal Render Pipeline/Lit" shader to "HDRP/Lit". It carries their textures and colours over to the HDRP property names. It looks up the packed mask by a root name derived from the metallic (or, as written, the occlusion) texture.

Modules:

- `Wrappers`: `Option`.
- `Text`: `EndsWith`, `Contains` and `LastIndexOf` of .NET strings, compared character by character.
- `MaskConverter`: the `TextureMaskConverter` class. It is a Dafny class whose `CreateMask` fills a fresh `array2` in nested loops and toggles each source's `readable` flag in place.
- `MaskConverterWindow`: suffix stripping, `GroupBy` and `GetConverter` as functions. The `CreateMasks` batch is a loop.
- `MaterialConverter`: the material as a class with a shader name and two property maps. Root derivation and the property remap are functions. The per-material conversion and the batch walk are methods.

Outside effects are parameters:

- The asset database's "file exists" test is a set of paths, which `SaveAsset` extends.
- `LoadTexture2D` (a search of the asset database by name) is a function `find`.
- Pixel samples are opaque reals that are only copied.

Where the code's own comments and messages say one thing and its statements do another, the model follows the statements:

- **The "disable readable after" step requests read/write again.** `disableReadableAfter` is documented as "disable textures read/write" (TextureMaskConverter.cs:61), and the step logs "Texture read/write disabled" (line 106). It calls `SetReadable(…, true)` (lines 102-105), so it never restores a source's original state. `Converter.CreateMask` states this.
- **The material converter can throw.** The `(Texture2D)` casts of the base, metallic and occlusion maps (SRPMaterialConverterWindow.cs:67, 70, 71) throw `InvalidCastException` when the property holds another kind of texture. The occlusion branch (lines 80-81) tests the metallic suffix but strips the occlusion suffix's length, and `Substring` throws `ArgumentOutOfRangeException` when the name is shorter than the occlusion suffix. The conversion does not catch these exceptions, so the batch ends at the first material that throws. `ConversionThrows`, `DeriveRoot`, `RenderTextureMetallicThrows`, `OcclusionBranchStripsOcclusionLength`, `OcclusionBranchCanThrow` and `ConvertUrpToHdrpMaterials` state this.

## Model

| member | source | states |
|---|---|---|
| MaskConverter.FirstPresent | Plugins/SRPConverter/Editor/TextureMaskConverter.cs:45-46 | the result is null iff all four sources are null; otherwise it is the source at the first non-null position |
| MaskConverter.DirectoryOf | Plugins/SRPConverter/Editor/TextureMaskConverter.cs:51-53 | the directory is a prefix of the asset path that is empty or ends with '/', and no '/' follows it in the path |
| MaskConverter.Channel | Plugins/SRPConverter/Editor/TextureMaskConverter.cs:84 | a present and readable source gives its red sample at (x, y); a null or unreadable source gives the role's default |
| MaskConverter.Converter.constructor | Plugins/SRPConverter/Editor/TextureMaskConverter.cs:34-55 | the sources are stored; `firstTexture` is the first non-null source; `initialized` iff some source is non-null; `directoryPath` is the directory of the first texture's path, or null when not initialized |
| MaskConverter.SetReadable | Plugins/SRPConverter/Editor/TextureMaskConverter.cs:137-150 | nothing changes for a null texture or one that already has the flag; otherwise exactly that texture's flag becomes the requested value and the asset is re-imported |
| MaskConverter.Converter.RequestSourcesReadable | Plugins/SRPConverter/Editor/TextureMaskConverter.cs:70-76 | every present source is readable afterwards |
| MaskConverter.Converter.FillMask | Plugins/SRPConverter/Editor/TextureMaskConverter.cs:80-93 | every pixel of the buffer holds, channel by channel, the red sample of each present and readable source, or 0, 1 (occlusion), 0, 0 |
| MaskConverter.Converter.CreateMask | Plugins/SRPConverter/Editor/TextureMaskConverter.cs:62-108 | an uninitialized converter changes nothing; otherwise the mask is fresh, has the first texture's width and height, and its pixels take the sources readable at loop time (all present ones when "enable before" is set); every source ends readable iff it was before or either readability step ran (the "disable" step requests `true`) |
| MaskConverter.Converter.SaveAsset | Plugins/SRPConverter/Editor/TextureMaskConverter.cs:114-131 | an unbuilt mask is an error and an existing path a warning, and both leave the file set unchanged; otherwise exactly the path is added |
| MaskConverterWindow.TryGetRoot | Plugins/SRPConverter/Editor/TextureMaskConverterWindow.cs:91-95 | a root exists iff the name ends with the suffix, and then root + suffix is the name |
| MaskConverterWindow.GetRootName | Plugins/SRPConverter/Editor/TextureMaskConverterWindow.cs:79-89 | the result is null iff the name ends with none of the four suffixes; otherwise the root is the name minus the first suffix, in metallic, occlusion, detail, smoothness order, that it ends with |
| MaskConverterWindow.FirstIndexEndingWith | Plugins/SRPConverter/Editor/TextureMaskConverterWindow.cs:101-104 | the index found is the first whose texture name ends with the suffix, or the group's length when none does |
| MaskConverterWindow.FirstEndingWith | Plugins/SRPConverter/Editor/TextureMaskConverterWindow.cs:101-104 | the result is null iff no texture's name ends with the suffix; otherwise it is the group member at the first position whose name ends with the suffix |
| MaskConverterWindow.SelectSources | Plugins/SRPConverter/Editor/TextureMaskConverterWindow.cs:98-105 | role k gets the group's first texture ending with role k's suffix, and every chosen source belongs to the group |
| MaskConverterWindow.GetConverter | Plugins/SRPConverter/Editor/TextureMaskConverterWindow.cs:98-105 | a fresh, unbuilt converter whose four roles are those sources |
| MaskConverterWindow.RootedGroupInitializes | Plugins/SRPConverter/Editor/TextureMaskConverterWindow.cs:63-67 | a non-empty group whose members all have one non-null root has a non-null first source, so its converter is initialized and the skip never fires |
| MaskConverterWindow.WithRoot | Plugins/SRPConverter/Editor/TextureMaskConverterWindow.cs:51 | the members of a key's group are exactly the selected textures with that root |
| MaskConverterWindow.NoRootNoMembers | Plugins/SRPConverter/Editor/TextureMaskConverterWindow.cs:51 | a key has no members iff no selected texture has that root |
| MaskConverterWindow.KeyIndex | Plugins/SRPConverter/Editor/TextureMaskConverterWindow.cs:51 | the index found holds the key, and -1 means no group has it |
| MaskConverterWindow.GroupByRoot | Plugins/SRPConverter/Editor/TextureMaskConverterWindow.cs:51 | an empty selection has no groups, a non-empty one has some, and there are never more groups than textures |
| MaskConverterWindow.AddToGroupsKeys | Plugins/SRPConverter/Editor/TextureMaskConverterWindow.cs:51 | adding a texture keeps keys distinct and in place, and the texture's key is present afterwards |
| MaskConverterWindow.GroupByRootPartitions | Plugins/SRPConverter/Editor/TextureMaskConverterWindow.cs:48-52 | `GroupBy` partitions the selection: keys are distinct, each group is non-empty and lists, in selection order, exactly the textures with its root, and every texture has its group |
| MaskConverterWindow.KeyedCount | Plugins/SRPConverter/Editor/TextureMaskConverterWindow.cs:54-62 | the converted count is at most the number of groups, with equality iff every group has a root |
| MaskConverterWindow.OutputPath | Plugins/SRPConverter/Editor/TextureMaskConverterWindow.cs:70 | the path ends with root + mask suffix + ".png" and starts with the directory |
| MaskConverterWindow.OutputPathInSourceDirectory | Plugins/SRPConverter/Editor/TextureMaskConverterWindow.cs:70 | when root and suffix contain no '/', the mask is written into the first texture's own directory |
| MaskConverterWindow.KeyedGroupConvertible | Plugins/SRPConverter/Editor/TextureMaskConverterWindow.cs:48-57 | each group with a root is non-empty, its members all have that root, and they come from the selection |
| MaskConverterWindow.ConvertibleGroupConverter | Plugins/SRPConverter/Editor/TextureMaskConverterWindow.cs:63-70 | the converter of such a group is initialized, its sources are group members and its directory is the group's |
| MaskConverterWindow.ConvertGroup | Plugins/SRPConverter/Editor/TextureMaskConverterWindow.cs:63-71 | a group with a root adds exactly its output path to the files; a selected texture ends readable iff it was readable before or it is one of the group's sources |
| MaskConverterWindow.BuildAndSave | Plugins/SRPConverter/Editor/TextureMaskConverterWindow.cs:69-71 | `CreateMask()` with both defaults then `SaveAsset(path)` on an initialized converter: exactly the output path is added to the files; a texture ends readable iff it was readable before or it is one of the converter's sources |
| MaskConverterWindow.ProcessGroup | Plugins/SRPConverter/Editor/TextureMaskConverterWindow.cs:57-72 | a group without a root only draws a warning and changes no file and no texture; any other is converted, adds its output path, and makes exactly its sources readable |
| MaskConverterWindow.CreateMasks | Plugins/SRPConverter/Editor/TextureMaskConverterWindow.cs:44-77 | the count `i` is the number of groups with a root; converted plus warnings is the number of groups; the files gained are exactly the groups' output paths; a selected texture ends readable iff it was readable before or it is a source of some group with a root |
| MaterialConverter.SelectUrpLit | Plugins/SRPConverter/Editor/SRPMaterialConverterWindow.cs:37-40 | a material is selected iff its shader name contains "Universal Render Pipeline/Lit" |
| MaterialConverter.SelectUrpLitCount | Plugins/SRPConverter/Editor/SRPMaterialConverterWindow.cs:37-42 | the count on the button is the number of URP Lit shaders in the selection |
| MaterialConverter.HdrpLitIsNotUrpLit | Plugins/SRPConverter/Editor/SRPMaterialConverterWindow.cs:14-15 | "HDRP/Lit" does not pass the URP Lit filter, so a converted material leaves the selection |
| MaterialConverter.DeriveRoot | Plugins/SRPConverter/Editor/SRPMaterialConverterWindow.cs:77-81 | no root iff neither branch applies; the metallic branch wins and strips the metallic suffix's length; otherwise the occlusion branch, taken when the occlusion name contains the metallic suffix, strips the occlusion suffix's length and throws when that is negative |
| MaterialConverter.MetallicRootRoundTrip | Plugins/SRPConverter/Editor/SRPMaterialConverterWindow.cs:78-79 | for a metallic name ending with the metallic suffix, root + suffix gives the name back |
| MaterialConverter.InRangeWhenMetallicSuffixIsLonger | Plugins/SRPConverter/Editor/SRPMaterialConverterWindow.cs:80-81 | the derivation cannot throw when the occlusion suffix is no longer than the metallic one |
| MaterialConverter.DefaultSuffixesInRange | Plugins/SRPConverter/Editor/SRPMaterialConverterWindow.cs:17-19 | with the window's default suffixes the derivation never throws |
| MaterialConverter.OcclusionBranchStripsOcclusionLength | Plugins/SRPConverter/Editor/SRPMaterialConverterWindow.cs:80-81 | an occlusion map named "Rock_MSM" yields root "Rock_": the metallic suffix is tested, the occlusion suffix's length removed |
| MaterialConverter.OcclusionBranchCanThrow | Plugins/SRPConverter/Editor/SRPMaterialConverterWindow.cs:80-81 | with suffixes "_M"/"_OCCL", the occlusion name "x_M" makes `Substring` throw |
| MaterialConverter.MaskName | Plugins/SRPConverter/Editor/SRPMaterialConverterWindow.cs:83-85 | a lookup name exists iff there is a root, and then it ends with the mask suffix and starts with the root |
| MaterialConverter.FindMask | Plugins/SRPConverter/Editor/SRPMaterialConverterWindow.cs:83-85 | no root means no lookup and a null mask; otherwise the mask is the lookup of root + mask suffix |
| MaterialConverter.LooksUpPackedMask | Plugins/SRPConverter/Editor/SRPMaterialConverterWindow.cs:78-85 | with default suffixes, a metallic map `<root>_MSM` makes the material converter look up `<root>_Mask`, the name the mask converter saves as `<dir><root>_Mask.png` |
| MaterialConverter.HdrpTexturesRemap | Plugins/SRPConverter/Editor/SRPMaterialConverterWindow.cs:92-97 | the base map goes to `_BaseColorMap`, the mask to `_MaskMap`, the bump map to `_NormalMap`, the emission map to `_EmissiveColorMap`; every other texture entry is kept |
| MaterialConverter.HdrpColorsRemap | Plugins/SRPConverter/Editor/SRPMaterialConverterWindow.cs:93-96 | the base colour and the emission colour are written back under their own names; every other colour entry is kept |
| MaterialConverter.DefaultSuffixesThrowOnlyOnCasts | Plugins/SRPConverter/Editor/SRPMaterialConverterWindow.cs:67-81 | with the window's default suffixes a conversion throws iff one of the three `(Texture2D)` casts fails |
| MaterialConverter.RenderTextureMetallicThrows | Plugins/SRPConverter/Editor/SRPMaterialConverterWindow.cs:70 | a metallic map that is not a `Texture2D` makes the conversion throw |
| MaterialConverter.ConvertedState | Plugins/SRPConverter/Editor/SRPMaterialConverterWindow.cs:90-97 | a converted material's shader no longer passes the URP Lit filter |
| MaterialConverter.ConvertUrpToHdrpMaterial | Plugins/SRPConverter/Editor/SRPMaterialConverterWindow.cs:65-98 | the call throws iff one of the three `(Texture2D)` casts fails or the root derivation is out of range, and the material is then untouched; otherwise the material is in the converted state (shader "HDRP/Lit", texture and colour maps remapped with the mask looked up for the derived root) and the outcome tells whether a mask was found |
| MaterialConverter.ConvertIfUrpLit | Plugins/SRPConverter/Editor/SRPMaterialConverterWindow.cs:53-55 | the step throws iff the material still passes the filter and its conversion throws; it converts iff the material passes and nothing throws, and the material is then in the converted state of its old state; otherwise the material is untouched |
| MaterialConverter.WalkStep | Plugins/SRPConverter/Editor/SRPMaterialConverterWindow.cs:53-59 | the k-th pass throws iff the k-th material's original state is URP Lit and its conversion throws; every material stays in its original state or in the converted state of it; without a throw the first k + 1 materials no longer pass the filter; on a selection without repeats the k-th material is converted iff its original shader was URP Lit and nothing threw |
| MaterialConverter.ConvertUrpToHdrpMaterials | Plugins/SRPConverter/Editor/SRPMaterialConverterWindow.cs:48-63 | the walk completes iff no originally URP Lit material's conversion throws; every material ends in its original state or, when it was URP Lit and its conversion does not throw, in the converted state; a completed walk converts every originally URP Lit material and leaves none passing the filter; a stopped walk stopped at a URP Lit material whose conversion throws, the first such one, with every material before it no longer passing the filter and, on a selection without repeats, every material from it on untouched; on a selection without repeats a completed walk's `i` equals the number of URP Lit materials selected |
| MaterialConverter.StoppedWalkConverted | Plugins/SRPConverter/Editor/SRPMaterialConverterWindow.cs:53-55 | when the walk stops at the k-th material, every URP Lit material before it does not throw and is in its converted state |

## Left out

- ProgressWindow.cs, the menu items, `OnGUI` and the logging are editor UI. So are the suffix text fields (the suffixes are parameters) and the `EndsWith(_sufMet)` filter that only labels the mask window's button.
- The float progress fractions and the re-evaluation of `Count()` only drive the progress bar and are not modelled.
- `async`/`await`, `Task.Yield` and the `x % 100 == 0` yield are cooperative scheduling; the loops are sequential. They have no effect on the result as long as the window is not edited during a batch: `OnGUI` runs at each yield, and later iterations read the suffix fields again (the lazy `GetConverter` and `_sufMask` at TextureMaskConverterWindow.cs:52 and 70, the material converter's suffixes at SRPMaterialConverterWindow.cs:78-85). The model takes the suffixes and the selection as fixed for the whole batch.
- `File.WriteAllBytesAsync`, `EncodeToPNG` and `AssetDatabase.ImportAsset` after a save are I/O; only the existing-file guard and the new path are modelled.
- `AssetDatabase.GetAssetPath` is the texture's `assetPath` field. `TextureImporter` is the `readable` flag. The re-import in `SetReadable` is the `reimported` result.
- `MaskConverter.SetReadable`: the texture's importer is assumed to be a `TextureImporter`. For a texture imported otherwise (a sub-asset of a model file, a `.asset` texture), `as TextureImporter` gives null at TextureMaskConverter.cs:143. When the flag differs from the request, line 145 then throws `NullReferenceException`, which ends `CreateMask` and, through the `await` at TextureMaskConverterWindow.cs:69, the whole `CreateMasks` batch. The model always sets the flag.
- `Undo.RecordObject` and `Shader.Find` are host calls; the shader is its name, and `Shader.Find("HDRP/Lit")` is assumed to find the HDRP Lit shader (with HDRP not installed it returns null).
- `LoadTexture2D`'s search by name (`FindAssets`, first GUID, `LoadAssetAtPath`) is the parameter `find`.
- `Selection.objects` is a sequence of textures or materials. The `is Texture2D` / `is Material` filters and the `as` casts after them are assumed already applied; they cannot fail. The `(Texture2D)` casts of material properties are modelled by a texture kind.
- The texture `red` sample function: `GetPixel` is total in Unity and clamps or repeats out-of-range coordinates by wrap mode. Each source's samples are therefore a function of all coordinates, and sources of another size than the first texture need no precondition; the wrap-mode behaviour itself is not modelled.
- Colour channels and samples are `real`s that are only copied; float precision is not modelled.
- `MaterialConverter.ColorOf`: `GetColor` on a missing property yields the constant `MissingColor` (transparent black).
- `MaterialConverter.HdrpTexturesRemap`: `material.mainTexture` and `material.color` are taken to be HDRP Lit's `_BaseColorMap` and `_BaseColor`.
- `MaterialConverter.ConvertUrpToHdrpMaterials`: the count is stated only for a selection without repeated materials. A repeated URP Lit material is converted at its first occurrence and skipped afterwards.
- `MaterialConverter.ConvertUrpToHdrpMaterials`: an exception thrown by one material ends the batch (the `async void` method stops). What Unity does with the exception afterwards is not modelled.
- `Text.EndsWith` and `Text.LastIndexOf`: compare ordinally. .NET's `EndsWith(string)` and `LastIndexOf(string)` compare with the current culture, which can match differently on ignorable or combining characters, even for a name shorter than the suffix (the `Substring` in `TryGetRoot`, TextureMaskConverterWindow.cs:94, would then throw); culture data is outside the model.
- The commented-out block at the end of SRPMaterialConverterWindow.cs (lines 114-146) is dead code.
