/**
 * The batch driver of TextureMaskConverterWindow.cs: selected textures are
 * grouped by the root name left after stripping a role suffix, each group
 * gets a converter whose four sources are the group's first texture ending
 * with each role suffix, and every group with a root has its mask built and
 * saved as `<directory><root><mask suffix>.png`.
 *
 * The editor selection is a sequence of textures; the file system is the set
 * of paths that already exist.
 */
module MaskConverterWindow {
  import opened Wrappers
  import opened Text
  import opened MaskConverter

  /** The window's editable suffix fields. */
  datatype Suffixes = Suffixes(metallic: string, occlusion: string, detail: string, smoothness: string, mask: string)

  /** The suffixes the window starts with. */
  const DefaultSuffixes := Suffixes("_MSM", "_AO", "_D", "_S", "_Mask")

  /** A `GroupBy` group: its key (the root name, None for C# null) and its textures in selection order. */
  datatype Group = Group(key: Option<string>, members: seq<Texture>)

  /** The role suffixes in the order they are tried and in channel order. */
  function RoleSuffixes(suffixes: Suffixes): seq<string>
  {
    [suffixes.metallic, suffixes.occlusion, suffixes.detail, suffixes.smoothness]
  }

  /** `TryGetRoot`: the name without `suffix` when it ends with it, else null. */
  function TryGetRoot(name: string, suffix: string): (root: Option<string>)
    ensures root.Some? <==> EndsWith(name, suffix)
    ensures root.Some? ==> root.value + suffix == name
  {
    if !EndsWith(name, suffix) then None
    else
      var root := name[..|name| - |suffix|];
      assert root + suffix == name;
      Some(root)
  }

  /** The k-th suffix is the first of `suffixes` that `name` ends with. */
  predicate FirstMatchAt(name: string, suffixes: seq<string>, k: int)
  {
    0 <= k < |suffixes| && EndsWith(name, suffixes[k]) &&
    forall j :: 0 <= j < k ==> !EndsWith(name, suffixes[j])
  }

  /**
   * `GetRootName`: tries the metallic, occlusion, detail and smoothness
   * suffixes in that order and strips the first one the name ends with.
   */
  function GetRootName(name: string, suffixes: Suffixes): (root: Option<string>)
    ensures root.None? <==> forall k :: 0 <= k < 4 ==> !EndsWith(name, RoleSuffixes(suffixes)[k])
    ensures root.Some? ==>
      exists k :: FirstMatchAt(name, RoleSuffixes(suffixes), k) && root.value + RoleSuffixes(suffixes)[k] == name
  {
    var roles := RoleSuffixes(suffixes);
    var root := TryGetRoot(name, suffixes.metallic);
    if root.Some? then assert FirstMatchAt(name, roles, 0); root
    else
    var root := TryGetRoot(name, suffixes.occlusion);
    if root.Some? then assert FirstMatchAt(name, roles, 1); root
    else
    var root := TryGetRoot(name, suffixes.detail);
    if root.Some? then assert FirstMatchAt(name, roles, 2); root
    else
    var root := TryGetRoot(name, suffixes.smoothness);
    if root.Some? then assert FirstMatchAt(name, roles, 3); root
    else None
  }

  /** The index of the first texture of `group` whose name ends with `suffix`, or |group| when there is none. */
  function FirstIndexEndingWith(group: seq<Texture>, suffix: string): (i: nat)
    ensures i <= |group|
    ensures i < |group| ==> EndsWith(group[i].name, suffix)
    ensures forall j :: 0 <= j < i ==> !EndsWith(group[j].name, suffix)
  {
    if group == [] || EndsWith(group[0].name, suffix) then 0
    else
      var i := FirstIndexEndingWith(group[1..], suffix);
      assert forall j :: 1 <= j < i + 1 ==> group[j] == group[1..][j - 1];
      i + 1
  }

  /** `group.FirstOrDefault(texture => texture.name.EndsWith(suffix))`. */
  function FirstEndingWith(group: seq<Texture>, suffix: string): (first: Texture?)
    ensures first == null <==> forall k :: 0 <= k < |group| ==> !EndsWith(group[k].name, suffix)
    ensures first != null ==> first in group && EndsWith(first.name, suffix)
    ensures first != null ==>
      exists i :: 0 <= i < |group| && group[i] == first && forall j :: 0 <= j < i ==> !EndsWith(group[j].name, suffix)
  {
    var i := FirstIndexEndingWith(group, suffix);
    if i < |group| then group[i] else null
  }

  /** The four sources `GetConverter` passes to the converter, in channel order. */
  function SelectSources(group: seq<Texture>, suffixes: Suffixes): (sources: seq<Texture?>)
    ensures |sources| == 4
    ensures forall k :: 0 <= k < 4 ==> sources[k] == FirstEndingWith(group, RoleSuffixes(suffixes)[k])
    ensures forall k :: 0 <= k < 4 && sources[k] != null ==> sources[k] in group
  {
    var roles := RoleSuffixes(suffixes);
    seq(4, k requires 0 <= k < 4 => FirstEndingWith(group, roles[k]))
  }

  /** `GetConverter`: a converter over the group's first texture ending with each role suffix. */
  method GetConverter(group: seq<Texture>, suffixes: Suffixes) returns (converter: Converter)
    ensures fresh(converter) && converter.Valid() && converter.mask == null
    ensures converter.Roles() == SelectSources(group, suffixes)
  {
    converter := new Converter(FirstEndingWith(group, suffixes.metallic),
                               FirstEndingWith(group, suffixes.occlusion),
                               FirstEndingWith(group, suffixes.detail),
                               FirstEndingWith(group, suffixes.smoothness));
  }

  /**
   * A non-empty group whose textures all have the same non-null root gets an
   * initialized converter: the first texture ends with the suffix its root
   * came from, so that role's source is present.
   */
  lemma RootedGroupInitializes(group: seq<Texture>, root: string, suffixes: Suffixes)
    requires group != []
    requires forall t :: t in group ==> GetRootName(t.name, suffixes) == Some(root)
    ensures FirstPresent(SelectSources(group, suffixes)) != null
  {
    var sources := SelectSources(group, suffixes);
    assert GetRootName(group[0].name, suffixes) == Some(root);
    var k :| FirstMatchAt(group[0].name, RoleSuffixes(suffixes), k);
    assert sources[k] != null;
  }

  /** The textures of `textures`, in order, whose root is `key`. */
  function WithRoot(textures: seq<Texture>, key: Option<string>, suffixes: Suffixes): (members: seq<Texture>)
    ensures forall t :: t in members ==> t in textures && GetRootName(t.name, suffixes) == key
    ensures forall t :: t in textures && GetRootName(t.name, suffixes) == key ==> t in members
  {
    if textures == [] then []
    else
      var last := textures[|textures| - 1];
      WithRoot(textures[..|textures| - 1], key, suffixes) + (if GetRootName(last.name, suffixes) == key then [last] else [])
  }

  /** No texture has root `key` exactly when none is selected for it. */
  lemma {:induction false} NoRootNoMembers(textures: seq<Texture>, key: Option<string>, suffixes: Suffixes)
    ensures WithRoot(textures, key, suffixes) == [] <==>
      forall t :: t in textures ==> GetRootName(t.name, suffixes) != key
  {
    if textures != [] {
      var prefix := textures[..|textures| - 1];
      NoRootNoMembers(prefix, key, suffixes);
      assert forall t :: t in textures ==> t in prefix || t == textures[|textures| - 1];
    }
  }

  /** The index of the group with key `key`, or -1 when there is none. */
  function KeyIndex(groups: seq<Group>, key: Option<string>): (i: int)
    ensures -1 <= i < |groups|
    ensures 0 <= i ==> groups[i].key == key
    ensures i < 0 ==> forall j :: 0 <= j < |groups| ==> groups[j].key != key
  {
    if groups == [] then -1
    else if groups[|groups| - 1].key == key then |groups| - 1
    else KeyIndex(groups[..|groups| - 1], key)
  }

  /** Adds `t` to the end of the group with key `key`, or opens a new group for it at the end. */
  function AddToGroups(groups: seq<Group>, t: Texture, key: Option<string>): seq<Group>
  {
    var i := KeyIndex(groups, key);
    if i < 0 then groups + [Group(key, [t])]
    else groups[i := groups[i].(members := groups[i].members + [t])]
  }

  /**
   * `GroupBy(obj => GetRootName(obj))`: groups in order of their keys' first
   * appearance, one per distinct key (`GroupByRootPartitions`), so never
   * more groups than textures.
   */
  function GroupByRoot(textures: seq<Texture>, suffixes: Suffixes): (groups: seq<Group>)
    ensures |groups| <= |textures|
    ensures groups == [] <==> textures == []
  {
    if textures == [] then []
    else
      var last := textures[|textures| - 1];
      var groups := GroupByRoot(textures[..|textures| - 1], suffixes);
      AddToGroupsSize(groups, last, GetRootName(last.name, suffixes));
      AddToGroups(groups, last, GetRootName(last.name, suffixes))
  }

  /** `groups` has pairwise distinct keys. */
  predicate DistinctKeys(groups: seq<Group>)
  {
    forall i, j :: 0 <= i < j < |groups| ==> groups[i].key != groups[j].key
  }

  /** Every group is non-empty and holds exactly the textures, in order, whose root is its key. */
  ghost predicate Partitions(groups: seq<Group>, textures: seq<Texture>, suffixes: Suffixes)
  {
    && DistinctKeys(groups)
    && (forall g :: g in groups ==> g.members != [] && g.members == WithRoot(textures, g.key, suffixes))
    && (forall t :: t in textures ==> exists g :: g in groups && g.key == GetRootName(t.name, suffixes))
  }

  lemma WithRootSnoc(prefix: seq<Texture>, last: Texture, key: Option<string>, suffixes: Suffixes)
    ensures WithRoot(prefix + [last], key, suffixes) ==
      WithRoot(prefix, key, suffixes) + (if GetRootName(last.name, suffixes) == key then [last] else [])
  {
    assert (prefix + [last])[..|prefix|] == prefix;
  }

  /** Adding a texture opens at most one group and drops none. */
  lemma AddToGroupsSize(groups: seq<Group>, t: Texture, key: Option<string>)
    ensures |groups| <= |AddToGroups(groups, t, key)| <= |groups| + 1
  {
  }

  /** Adding a texture keeps keys distinct and keeps every existing key. */
  lemma AddToGroupsKeys(groups: seq<Group>, t: Texture, key: Option<string>)
    requires DistinctKeys(groups)
    ensures var result := AddToGroups(groups, t, key);
      && DistinctKeys(result)
      && |result| >= |groups|
      && (forall j :: 0 <= j < |groups| ==> result[j].key == groups[j].key)
      && (exists g :: g in result && g.key == key)
  {
    var result := AddToGroups(groups, t, key);
    var i := KeyIndex(groups, key);
    if i < 0 {
      assert result[|groups|].key == key;
    } else {
      assert result[i].key == key;
    }
  }

  /** After adding the last texture, every group still holds exactly the textures with its root. */
  lemma AddToGroupsMembers(groups: seq<Group>, prefix: seq<Texture>, last: Texture, suffixes: Suffixes)
    requires Partitions(groups, prefix, suffixes)
    ensures forall g :: g in AddToGroups(groups, last, GetRootName(last.name, suffixes)) ==>
      g.members != [] && g.members == WithRoot(prefix + [last], g.key, suffixes)
  {
    if KeyIndex(groups, GetRootName(last.name, suffixes)) < 0 {
      AddToNewGroup(groups, prefix, last, suffixes);
    } else {
      AddToExistingGroup(groups, prefix, last, suffixes);
    }
  }

  /** `AddToGroupsMembers` when the last texture opens a new group. */
  lemma AddToNewGroup(groups: seq<Group>, prefix: seq<Texture>, last: Texture, suffixes: Suffixes)
    requires Partitions(groups, prefix, suffixes)
    requires KeyIndex(groups, GetRootName(last.name, suffixes)) < 0
    ensures forall g :: g in AddToGroups(groups, last, GetRootName(last.name, suffixes)) ==>
      g.members != [] && g.members == WithRoot(prefix + [last], g.key, suffixes)
  {
    var key := GetRootName(last.name, suffixes);
    var result := AddToGroups(groups, last, key);
    forall t | t in prefix ensures GetRootName(t.name, suffixes) != key {
      var g :| g in groups && g.key == GetRootName(t.name, suffixes);
      var j :| 0 <= j < |groups| && groups[j] == g;
    }
    NoRootNoMembers(prefix, key, suffixes);
    forall g | g in result ensures g.members != [] && g.members == WithRoot(prefix + [last], g.key, suffixes) {
      WithRootSnoc(prefix, last, g.key, suffixes);
      if g !in groups {
        assert g == Group(key, [last]);
      }
    }
  }

  /** `AddToGroupsMembers` when the last texture joins the group of its root. */
  lemma AddToExistingGroup(groups: seq<Group>, prefix: seq<Texture>, last: Texture, suffixes: Suffixes)
    requires Partitions(groups, prefix, suffixes)
    requires KeyIndex(groups, GetRootName(last.name, suffixes)) >= 0
    ensures forall g :: g in AddToGroups(groups, last, GetRootName(last.name, suffixes)) ==>
      g.members != [] && g.members == WithRoot(prefix + [last], g.key, suffixes)
  {
    var key := GetRootName(last.name, suffixes);
    var result := AddToGroups(groups, last, key);
    var i := KeyIndex(groups, key);
    forall g | g in result ensures g.members != [] && g.members == WithRoot(prefix + [last], g.key, suffixes) {
      WithRootSnoc(prefix, last, g.key, suffixes);
      var j :| 0 <= j < |result| && result[j] == g;
      if j != i {
        assert g == groups[j] && g in groups;
      } else {
        assert groups[i] in groups;
      }
    }
  }

  /**
   * The grouping partitions the selection: keys are distinct, every texture
   * lands in the group of its root, and each group lists exactly the textures
   * with its root, in selection order.
   */
  lemma {:induction false} GroupByRootPartitions(textures: seq<Texture>, suffixes: Suffixes)
    ensures Partitions(GroupByRoot(textures, suffixes), textures, suffixes)
    decreases |textures|
  {
    if textures != [] {
      GroupByRootPartitions(textures[..|textures| - 1], suffixes);
      GroupByRootStep(textures, suffixes);
    }
  }

  /** A non-empty sequence is its prefix followed by its last element. */
  lemma SplitLast(textures: seq<Texture>)
    requires textures != []
    ensures textures == textures[..|textures| - 1] + [textures[|textures| - 1]]
  {
  }

  /** Grouping one more texture keeps the grouping a partition. */
  lemma GroupByRootStep(textures: seq<Texture>, suffixes: Suffixes)
    requires textures != []
    requires Partitions(GroupByRoot(textures[..|textures| - 1], suffixes), textures[..|textures| - 1], suffixes)
    ensures Partitions(GroupByRoot(textures, suffixes), textures, suffixes)
  {
    var prefix := textures[..|textures| - 1];
    var last := textures[|textures| - 1];
    var groups := GroupByRoot(prefix, suffixes);
    var key := GetRootName(last.name, suffixes);
    SplitLast(textures);
    AddToGroupsKeys(groups, last, key);
    AddToGroupsMembers(groups, prefix, last, suffixes);
    AddToGroupsCovers(groups, prefix, last, suffixes);
  }

  /** After adding the last texture, every texture still has the group of its root. */
  lemma AddToGroupsCovers(groups: seq<Group>, prefix: seq<Texture>, last: Texture, suffixes: Suffixes)
    requires DistinctKeys(groups)
    requires forall t :: t in prefix ==> exists g :: g in groups && g.key == GetRootName(t.name, suffixes)
    ensures var result := AddToGroups(groups, last, GetRootName(last.name, suffixes));
      forall t :: t in prefix + [last] ==> exists g :: g in result && g.key == GetRootName(t.name, suffixes)
  {
    var key := GetRootName(last.name, suffixes);
    var result := AddToGroups(groups, last, key);
    AddToGroupsKeys(groups, last, key);
    forall t | t in prefix + [last] ensures exists g :: g in result && g.key == GetRootName(t.name, suffixes) {
      if t != last {
        assert t in prefix;
        var g :| g in groups && g.key == GetRootName(t.name, suffixes);
        var j :| 0 <= j < |groups| && groups[j] == g;
        assert result[j].key == g.key;
      }
    }
  }

  /** Number of groups that have a root: the groups `CreateMasks` converts. */
  function KeyedCount(groups: seq<Group>): (n: nat)
    ensures n <= |groups|
    ensures n == |groups| <==> forall g :: g in groups ==> g.key.Some?
  {
    if groups == [] then 0
    else KeyedCount(groups[..|groups| - 1]) + (if groups[|groups| - 1].key.Some? then 1 else 0)
  }

  /** The `directoryPath` of the converter `GetConverter` builds for `group`. */
  function GroupDirectory(group: seq<Texture>, suffixes: Suffixes): Option<string>
  {
    var first := FirstPresent(SelectSources(group, suffixes));
    if first != null then Some(DirectoryOf(first.assetPath)) else None
  }

  /**
   * `directoryPath + root + maskSuffix + ".png"`; a null directory reads as
   * the empty string, as in C# string concatenation.
   */
  function OutputPath(directoryPath: Option<string>, root: string, maskSuffix: string): (path: string)
    ensures EndsWith(path, root + maskSuffix + ".png")
    ensures directoryPath.Some? ==> directoryPath.value <= path
  {
    var path := (if directoryPath.Some? then directoryPath.value else "") + root + maskSuffix + ".png";
    assert path[|path| - |root + maskSuffix + ".png"|..] == root + maskSuffix + ".png";
    path
  }

  /**
   * A mask whose root and suffix hold no '/' is written into the directory of
   * the texture that supplied `directoryPath`.
   */
  lemma OutputPathInSourceDirectory(assetPath: string, root: string, maskSuffix: string)
    requires '/' !in root + maskSuffix
    ensures DirectoryOf(OutputPath(Some(DirectoryOf(assetPath)), root, maskSuffix)) == DirectoryOf(assetPath)
  {
    var dir := DirectoryOf(assetPath);
    var rest := root + maskSuffix + ".png";
    assert OutputPath(Some(dir), root, maskSuffix) == dir + rest;
    LastIndexOfAppend(dir, rest, '/');
    assert LastIndexOf(dir, '/') == |dir| - 1 by {
      if dir != [] {
        assert dir[|dir| - 1] == '/';
      }
    }
  }

  /** The path the mask of a group with a root is saved to. */
  function GroupOutputPath(group: Group, suffixes: Suffixes): string
    requires group.key.Some?
  {
    OutputPath(GroupDirectory(group.members, suffixes), group.key.value, suffixes.mask)
  }

  /** The paths the masks of the groups with a root are saved to. */
  function OutputPaths(groups: seq<Group>, suffixes: Suffixes): set<string>
  {
    if groups == [] then {}
    else
      var last := groups[|groups| - 1];
      OutputPaths(groups[..|groups| - 1], suffixes) + (if last.key.Some? then {GroupOutputPath(last, suffixes)} else {})
  }

  /** The sources the converter of a group draws from it: the present textures of `SelectSources`. */
  function GroupSources(group: Group, suffixes: Suffixes): set<Texture>
  {
    RoleSet(SelectSources(group.members, suffixes))
  }

  /** The textures made readable by converting the groups with a root: the union of their sources. */
  function KeyedSources(groups: seq<Group>, suffixes: Suffixes): set<Texture>
  {
    if groups == [] then {}
    else
      var last := groups[|groups| - 1];
      KeyedSources(groups[..|groups| - 1], suffixes) + (if last.key.Some? then GroupSources(last, suffixes) else {})
  }

  /** A group with a root whose textures all have that root. */
  ghost predicate ConvertibleGroup(group: Group, suffixes: Suffixes)
  {
    && group.key.Some?
    && group.members != []
    && (forall t :: t in group.members ==> GetRootName(t.name, suffixes) == group.key)
  }

  /** Every group with a root that `GroupByRoot` forms from a selection is convertible and drawn from it. */
  lemma KeyedGroupConvertible(selection: seq<Texture>, suffixes: Suffixes, group: Group)
    requires group in GroupByRoot(selection, suffixes) && group.key.Some?
    ensures ConvertibleGroup(group, suffixes)
    ensures forall t :: t in group.members ==> t in selection
  {
    GroupByRootPartitions(selection, suffixes);
    assert group.members == WithRoot(selection, group.key, suffixes);
  }

  /**
   * The converter `GetConverter` builds for a convertible group is
   * initialized, draws its sources from the group, and takes its directory
   * from the group.
   */
  lemma ConvertibleGroupConverter(converter: Converter, group: Group, suffixes: Suffixes)
    requires ConvertibleGroup(group, suffixes)
    requires converter.Valid() && converter.Roles() == SelectSources(group.members, suffixes)
    ensures converter.initialized
    ensures forall t :: t in converter.Sources() ==> t in group.members
    ensures converter.Sources() == GroupSources(group, suffixes)
    ensures converter.directoryPath == GroupDirectory(group.members, suffixes)
  {
    RootedGroupInitializes(group.members, group.key.value, suffixes);
    SourcesAmong(converter, group.members);
    converter.SourcesAreRoles();
  }

  /** A converter whose present roles are all among `textures` has its sources among them. */
  lemma SourcesAmong(converter: Converter, textures: seq<Texture>)
    requires forall k :: 0 <= k < 4 && converter.Roles()[k] != null ==> converter.Roles()[k] in textures
    ensures forall t :: t in converter.Sources() ==> t in textures
  {
    var roles := converter.Roles();
    assert converter.metallic == roles[0] && converter.occlusion == roles[1];
    assert converter.detail == roles[2] && converter.smoothness == roles[3];
  }

  /**
   * The body of the `CreateMasks` loop for a group with a root: the converter
   * is always initialized, so the "no textures" skip never fires; the mask is
   * built with both readability steps and saved to the group's output path.
   */
  method ConvertGroup(group: Group, selection: seq<Texture>, suffixes: Suffixes, files: set<string>)
    returns (files': set<string>)
    requires ConvertibleGroup(group, suffixes)
    requires forall t :: t in group.members ==> t in selection
    modifies selection
    ensures files' == files + {GroupOutputPath(group, suffixes)}
    ensures forall t :: t in selection ==> t.readable == (old(t.readable) || t in GroupSources(group, suffixes))
  {
    var converter := GetConverter(group.members, suffixes);
    ConvertibleGroupConverter(converter, group, suffixes);
    files' := BuildAndSave(converter, selection, group.key.value, suffixes.mask, files);
  }

  /**
   * `CreateMask(true, true)` then `SaveAsset` on an initialized converter
   * whose sources are among `textures`: every source ends readable, every
   * other texture keeps its readability, and the output path is added.
   */
  method BuildAndSave(converter: Converter, textures: seq<Texture>, root: string, maskSuffix: string,
                      files: set<string>) returns (files': set<string>)
    requires converter.Valid() && converter.initialized
    requires forall t :: t in converter.Sources() ==> t in textures
    modifies converter, textures
    ensures files' == files + {OutputPath(converter.directoryPath, root, maskSuffix)}
    ensures forall t :: t in textures ==> t.readable == (old(t.readable) || t in converter.Sources())
  {
    converter.CreateMask(true, true);
    forall t | t in textures
      ensures t.readable == (old(t.readable) || t in converter.Sources())
    {
      if t != converter.metallic && t != converter.occlusion && t != converter.detail && t != converter.smoothness {
        converter.NotASource(t);
      }
    }
    var path := OutputPath(converter.directoryPath, root, maskSuffix);
    var _, saved := converter.SaveAsset(path, files);
    files' := saved;
  }

  /**
   * One pass of the `CreateMasks` loop: a group without a root only draws a
   * warning; any other group is converted and its output path is added.
   */
  method ProcessGroup(group: Group, selection: seq<Texture>, suffixes: Suffixes, files: set<string>)
    returns (keyed: bool, files': set<string>)
    requires group in GroupByRoot(selection, suffixes)
    modifies selection
    ensures keyed <==> group.key.Some?
    ensures files' == files + (if group.key.Some? then {GroupOutputPath(group, suffixes)} else {})
    ensures forall t :: t in selection ==>
      t.readable == (old(t.readable) || (group.key.Some? && t in GroupSources(group, suffixes)))
  {
    if group.key.None? {
      return false, files;
    }
    KeyedGroupConvertible(selection, suffixes, group);
    files' := ConvertGroup(group, selection, suffixes, files);
    keyed := true;
  }

  /** How the count and the output paths grow by one group. */
  lemma PrefixStep(groups: seq<Group>, k: nat, suffixes: Suffixes)
    requires k < |groups|
    ensures KeyedCount(groups[..k + 1]) == KeyedCount(groups[..k]) + (if groups[k].key.Some? then 1 else 0)
    ensures OutputPaths(groups[..k + 1], suffixes) ==
      OutputPaths(groups[..k], suffixes) + (if groups[k].key.Some? then {GroupOutputPath(groups[k], suffixes)} else {})
    ensures KeyedSources(groups[..k + 1], suffixes) ==
      KeyedSources(groups[..k], suffixes) + (if groups[k].key.Some? then GroupSources(groups[k], suffixes) else {})
  {
    assert groups[..k + 1][..k] == groups[..k];
  }

  /**
   * `CreateMasks`: groups the selection by root; a group without a root is
   * skipped with a warning and not counted; every other group is converted
   * and counted, whether or not its save found the path free.
   */
  method CreateMasks(selection: seq<Texture>, suffixes: Suffixes, files: set<string>)
    returns (converted: nat, warnings: nat, files': set<string>)
    modifies selection
    ensures converted == KeyedCount(GroupByRoot(selection, suffixes))
    ensures converted + warnings == |GroupByRoot(selection, suffixes)|
    ensures files' == files + OutputPaths(GroupByRoot(selection, suffixes), suffixes)
    ensures forall t :: t in selection ==>
      t.readable == (old(t.readable) || t in KeyedSources(GroupByRoot(selection, suffixes), suffixes))
  {
    var groups := GroupByRoot(selection, suffixes);
    converted, warnings, files' := 0, 0, files;
    for k := 0 to |groups|
      invariant converted == KeyedCount(groups[..k])
      invariant converted + warnings == k
      invariant files' == files + OutputPaths(groups[..k], suffixes)
      invariant forall t :: t in selection ==> t.readable == (old(t.readable) || t in KeyedSources(groups[..k], suffixes))
    {
      PrefixStep(groups, k, suffixes);
      var keyed;
      keyed, files' := ProcessGroup(groups[k], selection, suffixes, files');
      if keyed {
        converted := converted + 1;
      } else {
        warnings := warnings + 1;
      }
    }
    assert groups[..|groups|] == groups;
  }
}
