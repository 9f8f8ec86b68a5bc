/**
  * Bundles of skill files and the scanners that read them from a source
  * tree: the flat layout (`<bundle>/<type dir>/<name>.md`) and the resources
  * layout (`resources/<type dir>/<folder>/{meta.yaml, <type>.md}`), which can
  * be read as one bundle or as one bundle per resource name.
  */
module Bundles {
  import opened Wrappers
  import opened Text
  import opened Seqs
  import opened FileTree

  datatype SkillType = Skill | Agent | Command | Rule

  /** The four types in the order the scanners visit them. */
  const AllTypes: seq<SkillType> := [Skill, Agent, Command, Rule]

  function DirName(ty: SkillType): string {
    match ty
    case Skill => "skills"
    case Agent => "agents"
    case Command => "commands"
    case Rule => "rules"
  }

  /** Further directory names the resources layout accepts for a type. */
  function AltDirNames(ty: SkillType): seq<string> {
    if ty == Rule then ["cursor-rules"] else []
  }

  /** The directory names the resources scanners try, primary name first. */
  function DirNames(ty: SkillType): (r: seq<string>)
    ensures |r| > 0 && r[0] == DirName(ty)
  {
    [DirName(ty)] + AltDirNames(ty)
  }

  /** The directory names tell the types apart, and only Rule has an alternative name. */
  lemma DirNamesDistinct(a: SkillType, b: SkillType)
    ensures DirName(a) == DirName(b) <==> a == b
    ensures AltDirNames(a) != [] <==> a == Rule
    ensures forall n :: n in AltDirNames(a) ==> n != DirName(b)
  {
  }

  datatype SkillFile = SkillFile(name: string, path: Path, skillType: SkillType, sourceDir: Option<Path>)

  datatype BundleMeta = BundleMeta(author: Option<string>, description: Option<string>)

  datatype Bundle = Bundle(
    name: string,
    path: Path,
    skills: seq<SkillFile>,
    agents: seq<SkillFile>,
    commands: seq<SkillFile>,
    rules: seq<SkillFile>,
    meta: BundleMeta)

  const NoMeta := BundleMeta(None, None)

  function SkillName(f: SkillFile): string {
    f.name
  }

  function BundleName(b: Bundle): string {
    b.name
  }

  function EmptyBundle(name: string, path: Path): (b: Bundle)
    ensures IsEmpty(b) && b.name == name
  {
    Bundle(name, path, [], [], [], [], NoMeta)
  }

  /** `files_of_type`: the list that holds one type. */
  function FilesOfType(b: Bundle, ty: SkillType): seq<SkillFile> {
    match ty
    case Skill => b.skills
    case Agent => b.agents
    case Command => b.commands
    case Rule => b.rules
  }

  /** The bundle with the list of one type replaced. */
  function WithFiles(b: Bundle, ty: SkillType, fs: seq<SkillFile>): (r: Bundle)
    ensures r.name == b.name && r.path == b.path && r.meta == b.meta
  {
    match ty
    case Skill => b.(skills := fs)
    case Agent => b.(agents := fs)
    case Command => b.(commands := fs)
    case Rule => b.(rules := fs)
  }

  /** Replacing one list changes that list and no other. */
  lemma FilesOfTypeWithFiles(b: Bundle, ty: SkillType, fs: seq<SkillFile>, other: SkillType)
    ensures FilesOfType(WithFiles(b, ty, fs), other) == if other == ty then fs else FilesOfType(b, other)
  {
  }

  /** `is_empty`: no file of any type. */
  predicate IsEmpty(b: Bundle) {
    b.skills == [] && b.agents == [] && b.commands == [] && b.rules == []
  }

  lemma IsEmptyIffNoFiles(b: Bundle)
    ensures IsEmpty(b) <==> forall ty :: FilesOfType(b, ty) == []
  {
    if !IsEmpty(b) {
      if b.skills != [] { assert FilesOfType(b, Skill) != []; }
      else if b.agents != [] { assert FilesOfType(b, Agent) != []; }
      else if b.commands != [] { assert FilesOfType(b, Command) != []; }
      else { assert FilesOfType(b, Rule) != []; }
    }
  }

  // ---------------------------------------------------------------------
  // flat layout
  // ---------------------------------------------------------------------

  predicate IsMdFile(t: Tree, p: Path) {
    IsFile(t, p) && HasExtension(p, "md")
  }

  /** A file of the flat scan: a `.md` regular file listed in `dir`, named by its stem. */
  predicate FlatEntry(t: Tree, dir: Path, names: seq<string>, ty: SkillType, f: SkillFile) {
    f.skillType == ty && f.sourceDir == None && |f.path| == |dir| + 1 &&
    f.path[..|dir|] == dir && f.path[|dir|] in names &&
    IsMdFile(t, f.path) && f.name == Stem(f.path[|dir|]) && f.name != ""
  }

  /** The `.md` regular files among a directory's entries, in listing order, named by their stem. */
  function FlatFiles(t: Tree, dir: Path, names: seq<string>, ty: SkillType): (r: seq<SkillFile>)
    ensures |r| <= |names|
  {
    if names == [] then []
    else
      var init := FlatFiles(t, dir, names[..|names| - 1], ty);
      var n := names[|names| - 1];
      var p := dir + [n];
      if IsMdFile(t, p) then init + [SkillFile(Stem(n), p, ty, None)] else init
  }

  /** Everything the flat scan keeps is a `.md` regular file of the listing, named by its stem. */
  lemma {:induction false} FlatFilesSound(t: Tree, dir: Path, names: seq<string>, ty: SkillType)
    ensures forall i :: 0 <= i < |FlatFiles(t, dir, names, ty)| ==> FlatEntry(t, dir, names, ty, FlatFiles(t, dir, names, ty)[i])
    decreases |names|
  {
    if names != [] {
      var init := names[..|names| - 1];
      var n := names[|names| - 1];
      var p := dir + [n];
      FlatFilesSound(t, dir, init, ty);
      var r := FlatFiles(t, dir, names, ty);
      forall i | 0 <= i < |r| ensures FlatEntry(t, dir, names, ty, r[i]) {
        if i < |FlatFiles(t, dir, init, ty)| {
          assert r[i] == FlatFiles(t, dir, init, ty)[i];
          assert FlatEntry(t, dir, init, ty, r[i]);
          assert r[i].path[|dir|] in init;
        } else {
          assert IsMdFile(t, p) && r[i] == SkillFile(Stem(n), p, ty, None);
          HasExtensionIff(p, "md");
          StemAndExtension(n);
          assert p[..|dir|] == dir;
        }
      }
    }
  }

  lemma FlatFileSound(t: Tree, dir: Path, names: seq<string>, ty: SkillType, k: nat)
    requires k < |FlatFiles(t, dir, names, ty)|
    ensures var f := FlatFiles(t, dir, names, ty)[k];
      f.skillType == ty && IsMdFile(t, f.path) && Parent(f.path) == Some(dir) &&
      f.name == PathStem(f.path) && f.name != ""
  {
    FlatFilesSound(t, dir, names, ty);
    var f := FlatFiles(t, dir, names, ty)[k];
    assert FlatEntry(t, dir, names, ty, f);
    assert f.path == dir + [f.path[|dir|]];
  }

  /** Every `.md` regular file of the directory is picked up. */
  lemma {:induction false} FlatFilesComplete(t: Tree, dir: Path, names: seq<string>, ty: SkillType, j: nat)
    requires j < |names| && IsMdFile(t, dir + [names[j]])
    ensures exists i :: 0 <= i < |FlatFiles(t, dir, names, ty)| && FlatFiles(t, dir, names, ty)[i].path == dir + [names[j]]
    decreases |names|
  {
    var init := names[..|names| - 1];
    if j == |names| - 1 {
      var r := FlatFiles(t, dir, names, ty);
      assert r[|r| - 1].path == dir + [names[j]];
    } else {
      FlatFilesComplete(t, dir, init, ty, j);
      var i :| 0 <= i < |FlatFiles(t, dir, init, ty)| && FlatFiles(t, dir, init, ty)[i].path == dir + [init[j]];
      assert FlatFiles(t, dir, names, ty)[i] == FlatFiles(t, dir, init, ty)[i];
    }
  }

  /**
    * What `scan_type` returns for `<bundle>/<dir_name(ty)>`: nothing when that
    * directory is missing, an error when it cannot be listed, otherwise its
    * `.md` files sorted by name.
    */
  function ScanTypeFiles(t: Tree, bundle: Path, ty: SkillType): (r: Result<seq<SkillFile>, IoError>)
    ensures r.Err? <==> IsFile(t, bundle + [DirName(ty)])
    ensures bundle + [DirName(ty)] !in t ==> r == Ok([])
  {
    var dir := bundle + [DirName(ty)];
    if dir !in t then Ok([])
    else match ReadDir(t, dir)
      case Err(e) => Err(e)
      case Ok(names) => Ok(SortBy(FlatFiles(t, dir, names, ty), SkillName))
  }

  /** The flat scan comes back sorted by name. */
  lemma ScanTypeSorted(t: Tree, bundle: Path, ty: SkillType)
    requires ScanTypeFiles(t, bundle, ty).Ok?
    ensures SortedBy(ScanTypeFiles(t, bundle, ty).value, SkillName)
  {
    var dir := bundle + [DirName(ty)];
    if dir in t {
      SortBySorted(FlatFiles(t, dir, t[dir].children, ty), SkillName);
    }
  }

  /** Every file `scan_type` returns is a `.md` regular file directly inside the type directory, named by its stem. */
  lemma ScanTypeSound(t: Tree, bundle: Path, ty: SkillType, i: nat)
    requires ScanTypeFiles(t, bundle, ty).Ok? && i < |ScanTypeFiles(t, bundle, ty).value|
    ensures var f := ScanTypeFiles(t, bundle, ty).value[i];
      f.skillType == ty && IsMdFile(t, f.path) && Parent(f.path) == Some(bundle + [DirName(ty)]) &&
      f.name == PathStem(f.path) && f.name != ""
  {
    var dir := bundle + [DirName(ty)];
    var names := t[dir].children;
    var flat := FlatFiles(t, dir, names, ty);
    var fs := SortBy(flat, SkillName);
    assert ScanTypeFiles(t, bundle, ty).value == fs;
    SortByPermutation(flat, SkillName);
    assert fs[i] in multiset(flat);
    var k :| 0 <= k < |flat| && flat[k] == fs[i];
    FlatFileSound(t, dir, names, ty, k);
  }

  /** Every `.md` regular file listed in the type directory is returned. */
  lemma ScanTypeComplete(t: Tree, bundle: Path, ty: SkillType, n: string)
    requires IsDir(t, bundle + [DirName(ty)]) && n in t[bundle + [DirName(ty)]].children
    requires IsMdFile(t, bundle + [DirName(ty), n])
    ensures ScanTypeFiles(t, bundle, ty).Ok?
    ensures exists i :: (0 <= i < |ScanTypeFiles(t, bundle, ty).value| &&
                         ScanTypeFiles(t, bundle, ty).value[i].path == bundle + [DirName(ty), n])
  {
    var dir := bundle + [DirName(ty)];
    var names := t[dir].children;
    var flat := FlatFiles(t, dir, names, ty);
    var fs := SortBy(flat, SkillName);
    SortByPermutation(flat, SkillName);
    var j :| 0 <= j < |names| && names[j] == n;
    assert dir + [n] == bundle + [DirName(ty), n];
    FlatFilesComplete(t, dir, names, ty, j);
    var k :| 0 <= k < |flat| && flat[k].path == dir + [n];
    assert flat[k] in multiset(fs);
    var i :| 0 <= i < |fs| && fs[i] == flat[k];
  }

  /** `scan_type`: lists the type directory and keeps its `.md` files, then sorts them by name. */
  method ScanType(t: Tree, bundle: Path, ty: SkillType) returns (r: Result<seq<SkillFile>, IoError>)
    ensures r == ScanTypeFiles(t, bundle, ty)
  {
    var dir := bundle + [DirName(ty)];
    if dir !in t {
      return Ok([]);
    }
    var listing := ReadDir(t, dir);
    if listing.Err? {
      return Err(listing.error);
    }
    var names := listing.value;
    var files: seq<SkillFile> := [];
    for i := 0 to |names|
      invariant files == FlatFiles(t, dir, names[..i], ty)
    {
      assert names[..i + 1][..i] == names[..i];
      var p := dir + [names[i]];
      if IsFile(t, p) && HasExtension(p, "md") {
        files := files + [SkillFile(Stem(names[i]), p, ty, None)];
      }
    }
    assert names[..|names|] == names;
    return Ok(SortBy(files, SkillName));
  }

  /** No type directory of the bundle fails to list. */
  predicate AllScansOk(t: Tree, path: Path) {
    ScanTypeFiles(t, path, Skill).Ok? && ScanTypeFiles(t, path, Agent).Ok? &&
    ScanTypeFiles(t, path, Command).Ok? && ScanTypeFiles(t, path, Rule).Ok?
  }

  datatype BundleError = Io(cause: IoError) | InvalidBundlePath(path: Path)

  /**
    * `Bundle::from_path`: a bundle named after its directory, holding the
    * flat scan of each type; an error for a path without a file name or a
    * type directory that cannot be listed.
    */
  function FromPath(t: Tree, path: Path): (r: Result<Bundle, BundleError>)
    ensures path == [] ==> r == Err(InvalidBundlePath(path))
    ensures r.Ok? ==> r.value.name == path[|path| - 1] && r.value.path == path && r.value.meta == NoMeta
    ensures r.Ok? <==> path != [] && AllScansOk(t, path)
    ensures r.Ok? ==> forall ty :: FilesOfType(r.value, ty) == ScanTypeFiles(t, path, ty).value
  {
    if path == [] then Err(InvalidBundlePath(path))
    else
      var name := path[|path| - 1];
      match ScanTypeFiles(t, path, Skill)
      case Err(e) => Err(Io(e))
      case Ok(skills) =>
        match ScanTypeFiles(t, path, Agent)
        case Err(e) => Err(Io(e))
        case Ok(agents) =>
          match ScanTypeFiles(t, path, Command)
          case Err(e) => Err(Io(e))
          case Ok(commands) =>
            match ScanTypeFiles(t, path, Rule)
            case Err(e) => Err(Io(e))
            case Ok(rules) =>
              var b := Bundle(name, path, skills, agents, commands, rules, NoMeta);
              assert forall ty :: FilesOfType(b, ty) == ScanTypeFiles(t, path, ty).value by {
                forall ty ensures FilesOfType(b, ty) == ScanTypeFiles(t, path, ty).value {
                  if ty == Skill {
                  } else if ty == Agent {
                  } else if ty == Command {
                  } else {
                    assert ty == Rule;
                  }
                }
              }
              Ok(b)
  }

  // ---------------------------------------------------------------------
  // resources layout
  // ---------------------------------------------------------------------

  /** The content file names a resource folder is searched for, lower case first. */
  function ExpectedNames(ty: SkillType): (r: seq<string>)
    ensures |r| == 2
  {
    match ty
    case Skill => ["skill.md", "SKILL.md"]
    case Agent => ["agent.md", "AGENT.md"]
    case Command => ["command.md", "COMMAND.md"]
    case Rule => ["rule.md", "RULE.md"]
  }

  /**
    * The resource's name: the `name` of its `meta.yaml` when that file can be
    * read and parsed, otherwise the folder name. `parseMeta` stands for the
    * YAML parser.
    */
  function ResourceName(t: Tree, dir: Path, folderName: string, parseMeta: string -> Option<string>): (r: string)
    ensures IsFile(t, dir + ["meta.yaml"]) && parseMeta(t[dir + ["meta.yaml"]].content).Some? ==>
              r == parseMeta(t[dir + ["meta.yaml"]].content).value
    ensures !(IsFile(t, dir + ["meta.yaml"]) && parseMeta(t[dir + ["meta.yaml"]].content).Some?) ==>
              r == folderName
  {
    var metaPath := dir + ["meta.yaml"];
    if metaPath !in t then folderName
    else match ReadToString(t, metaPath)
      case Err(_) => folderName
      case Ok(content) =>
        match parseMeta(content)
        case None => folderName
        case Some(name) => name
  }

  /** Position of the first candidate that exists inside `dir`. */
  function FirstExisting(t: Tree, dir: Path, cands: seq<string>): (r: Option<nat>)
    ensures r.Some? ==> (r.value < |cands| && dir + [cands[r.value]] in t &&
              forall j :: 0 <= j < r.value ==> dir + [cands[j]] !in t)
    ensures r.None? ==> forall j :: 0 <= j < |cands| ==> dir + [cands[j]] !in t
  {
    if cands == [] then None
    else if dir + [cands[0]] in t then Some(0)
    else match FirstExisting(t, dir, cands[1..])
      case None => None
      case Some(k) => Some(k + 1)
  }

  /** Position of the first entry that is a `.md` regular file. */
  function FirstMd(t: Tree, dir: Path, names: seq<string>): (r: Option<nat>)
    ensures r.Some? ==> (r.value < |names| && IsMdFile(t, dir + [names[r.value]]) &&
              forall j :: 0 <= j < r.value ==> !IsMdFile(t, dir + [names[j]]))
    ensures r.None? ==> forall j :: 0 <= j < |names| ==> !IsMdFile(t, dir + [names[j]])
  {
    if names == [] then None
    else if IsMdFile(t, dir + [names[0]]) then Some(0)
    else match FirstMd(t, dir, names[1..])
      case None => None
      case Some(k) => Some(k + 1)
  }

  /**
    * What `scan_resource_folder` finds in one resource folder: the lower-case
    * content file, else the upper-case one, else the first `.md` regular file
    * of the listing, else nothing. Its callers only pass directories.
    */
  function ResourceFolder(t: Tree, dir: Path, ty: SkillType, folderName: string, parseMeta: string -> Option<string>)
    : (r: Option<SkillFile>)
    requires IsDir(t, dir)
    ensures r.Some? ==> (r.value.skillType == ty && r.value.sourceDir == None &&
              Parent(r.value.path) == Some(dir) && r.value.path in t)
  {
    var name := ResourceName(t, dir, folderName, parseMeta);
    var expected := ExpectedNames(ty);
    match FirstExisting(t, dir, expected)
    case Some(k) => Some(SkillFile(name, dir + [expected[k]], ty, None))
    case None =>
      var names := t[dir].children;
      match FirstMd(t, dir, names)
      case None => None
      case Some(j) => Some(SkillFile(name, dir + [names[j]], ty, None))
  }

  /**
    * The content file is chosen in this order: the lower-case name, the
    * upper-case name, the first `.md` regular file listed; without any of
    * them the folder contributes nothing. The name comes from ResourceName.
    */
  lemma ResourceFolderChoice(t: Tree, dir: Path, ty: SkillType, folderName: string, parseMeta: string -> Option<string>)
    requires IsDir(t, dir)
    ensures var r := ResourceFolder(t, dir, ty, folderName, parseMeta);
      var lower, upper := dir + [ExpectedNames(ty)[0]], dir + [ExpectedNames(ty)[1]];
      (r.Some? ==> r.value.name == ResourceName(t, dir, folderName, parseMeta)) &&
      (lower in t ==> r.Some? && r.value.path == lower) &&
      (lower !in t && upper in t ==> r.Some? && r.value.path == upper) &&
      (lower !in t && upper !in t ==>
        (r.None? <==> forall j :: 0 <= j < |t[dir].children| ==> !IsMdFile(t, dir + [t[dir].children[j]])) &&
        (r.Some? ==> exists j :: (0 <= j < |t[dir].children| && r.value.path == dir + [t[dir].children[j]] &&
                                  IsMdFile(t, r.value.path) &&
                                  forall i :: 0 <= i < j ==> !IsMdFile(t, dir + [t[dir].children[i]]))))
  {
    var expected := ExpectedNames(ty);
    var k := FirstExisting(t, dir, expected);
    if k.Some? {
      assert k.value == 0 || dir + [expected[0]] !in t;
    } else {
      var names := t[dir].children;
      var j := FirstMd(t, dir, names);
      if j.Some? {
        assert dir + [names[j.value]] == ResourceFolder(t, dir, ty, folderName, parseMeta).value.path;
      }
    }
  }

  /** `scan_resource_folder`: the expected names in turn, then the listing. */
  method ScanResourceFolder(t: Tree, dir: Path, ty: SkillType, folderName: string, parseMeta: string -> Option<string>)
    returns (r: Option<SkillFile>)
    requires IsDir(t, dir)
    ensures r == ResourceFolder(t, dir, ty, folderName, parseMeta)
  {
    var name := ResourceName(t, dir, folderName, parseMeta);
    var expected := ExpectedNames(ty);
    for k := 0 to |expected|
      invariant forall j :: 0 <= j < k ==> dir + [expected[j]] !in t
    {
      var mdPath := dir + [expected[k]];
      if mdPath in t {
        return Some(SkillFile(name, mdPath, ty, None));
      }
    }
    var names := t[dir].children;
    var i := 0;
    while i < |names|
      invariant i <= |names|
      invariant forall j :: 0 <= j < i ==> !IsMdFile(t, dir + [names[j]])
    {
      var p := dir + [names[i]];
      if IsFile(t, p) && HasExtension(p, "md") {
        return Some(SkillFile(name, p, ty, None));
      }
      i := i + 1;
    }
    return None;
  }

  /** A resource found by the scan: its folder and the file it contributes. */
  datatype Resource = Resource(dir: Path, file: SkillFile)

  /** Template (`_`) and hidden (`.`) folders are not resources. */
  predicate SkippedFolder(name: string) {
    StartsWith(name, ".") || StartsWith(name, "_")
  }

  /** What a kept resource looks like, relative to its type directory. */
  predicate ResourceIn(t: Tree, typeDir: Path, ty: SkillType, r: Resource) {
    |r.dir| == |typeDir| + 1 && r.dir[..|typeDir|] == typeDir && IsDir(t, r.dir) &&
    !SkippedFolder(r.dir[|typeDir|]) && r.file.skillType == ty
  }

  /**
    * The entries loop of the resources scanners, from the entries not yet
    * visited and the resources found so far: non-directories and skipped
    * folders are passed over.
    */
  function EntryResources(t: Tree, typeDir: Path, names: seq<string>, ty: SkillType,
                          parseMeta: string -> Option<string>, acc: seq<Resource>): (r: seq<Resource>)
    decreases |names|
  {
    if names == [] then acc
    else
      var dir := typeDir + [names[0]];
      if !IsDir(t, dir) || SkippedFolder(names[0]) then EntryResources(t, typeDir, names[1..], ty, parseMeta, acc)
      else match ResourceFolder(t, dir, ty, names[0], parseMeta)
        case None => EntryResources(t, typeDir, names[1..], ty, parseMeta, acc)
        case Some(f) => EntryResources(t, typeDir, names[1..], ty, parseMeta, acc + [Resource(dir, f)])
  }

  lemma {:induction false} EntryResourcesIn(t: Tree, typeDir: Path, names: seq<string>, ty: SkillType,
                                            parseMeta: string -> Option<string>, acc: seq<Resource>)
    ensures var r := EntryResources(t, typeDir, names, ty, parseMeta, acc);
      |acc| <= |r| && r[..|acc|] == acc && forall i :: |acc| <= i < |r| ==> ResourceIn(t, typeDir, ty, r[i])
    decreases |names|
  {
    if names != [] {
      var dir := typeDir + [names[0]];
      if !IsDir(t, dir) || SkippedFolder(names[0]) || ResourceFolder(t, dir, ty, names[0], parseMeta).None? {
        EntryResourcesIn(t, typeDir, names[1..], ty, parseMeta, acc);
      } else {
        var f := ResourceFolder(t, dir, ty, names[0], parseMeta).value;
        var acc' := acc + [Resource(dir, f)];
        EntryResourcesIn(t, typeDir, names[1..], ty, parseMeta, acc');
        var r := EntryResources(t, typeDir, names[1..], ty, parseMeta, acc');
        assert r == EntryResources(t, typeDir, names, ty, parseMeta, acc);
        assert r[..|acc|] == r[..|acc'|][..|acc|];
        forall i | |acc| <= i < |r| ensures ResourceIn(t, typeDir, ty, r[i]) {
          if i == |acc| {
            assert r[i] == r[..|acc'|][i] == Resource(dir, f);
            assert dir[..|typeDir|] == typeDir;
          }
        }
      }
    }
  }

  /**
    * The directory-names loop around it: type directories that do not exist
    * are passed over, one that cannot be listed is an error.
    */
  function DirsResources(t: Tree, resources: Path, dirNames: seq<string>, ty: SkillType,
                         parseMeta: string -> Option<string>, acc: seq<Resource>): Result<seq<Resource>, IoError>
    decreases |dirNames|
  {
    if dirNames == [] then Ok(acc)
    else
      var typeDir := resources + [dirNames[0]];
      if typeDir !in t then DirsResources(t, resources, dirNames[1..], ty, parseMeta, acc)
      else match ReadDir(t, typeDir)
        case Err(e) => Err(e)
        case Ok(names) =>
          DirsResources(t, resources, dirNames[1..], ty, parseMeta, EntryResources(t, typeDir, names, ty, parseMeta, acc))
  }

  lemma {:induction false} DirsResourcesIn(t: Tree, resources: Path, dirNames: seq<string>, ty: SkillType,
                                           parseMeta: string -> Option<string>, acc: seq<Resource>)
    requires DirsResources(t, resources, dirNames, ty, parseMeta, acc).Ok?
    ensures var r := DirsResources(t, resources, dirNames, ty, parseMeta, acc).value;
      |acc| <= |r| && r[..|acc|] == acc &&
      forall i :: |acc| <= i < |r| ==> exists k :: 0 <= k < |dirNames| && ResourceIn(t, resources + [dirNames[k]], ty, r[i])
    decreases |dirNames|
  {
    if dirNames != [] {
      var typeDir := resources + [dirNames[0]];
      var found := if typeDir !in t then acc else EntryResources(t, typeDir, t[typeDir].children, ty, parseMeta, acc);
      if typeDir in t {
        EntryResourcesIn(t, typeDir, t[typeDir].children, ty, parseMeta, acc);
      }
      DirsResourcesIn(t, resources, dirNames[1..], ty, parseMeta, found);
      var r := DirsResources(t, resources, dirNames, ty, parseMeta, acc).value;
      assert r[..|acc|] == r[..|found|][..|acc|];
      forall i | |acc| <= i < |r|
        ensures exists k :: 0 <= k < |dirNames| && ResourceIn(t, resources + [dirNames[k]], ty, r[i])
      {
        if i < |found| {
          assert r[i] == r[..|found|][i] == found[i];
          assert ResourceIn(t, resources + [dirNames[0]], ty, r[i]);
        } else {
          var k :| 0 <= k < |dirNames[1..]| && ResourceIn(t, resources + [dirNames[1..][k]], ty, r[i]);
          assert ResourceIn(t, resources + [dirNames[k + 1]], ty, r[i]);
        }
      }
    }
  }

  /** The resources of one type, over its primary and alternative directory names. */
  function TypeResources(t: Tree, resources: Path, ty: SkillType, parseMeta: string -> Option<string>)
    : Result<seq<Resource>, IoError>
  {
    DirsResources(t, resources, DirNames(ty), ty, parseMeta, [])
  }

  /**
    * Each resource of a type is a non-skipped folder directly inside one of
    * the type's directory names, and contributes a file of that type.
    */
  lemma TypeResourcesIn(t: Tree, resources: Path, ty: SkillType, parseMeta: string -> Option<string>, i: nat)
    requires TypeResources(t, resources, ty, parseMeta).Ok? && i < |TypeResources(t, resources, ty, parseMeta).value|
    ensures var r := TypeResources(t, resources, ty, parseMeta).value[i];
      r.file.skillType == ty && |r.dir| == |resources| + 2 && r.dir[..|resources|] == resources &&
      r.dir[|resources|] in DirNames(ty) && !SkippedFolder(r.dir[|resources| + 1]) && IsDir(t, r.dir)
  {
    DirsResourcesIn(t, resources, DirNames(ty), ty, parseMeta, []);
    var r := TypeResources(t, resources, ty, parseMeta).value[i];
    var k :| 0 <= k < |DirNames(ty)| && ResourceIn(t, resources + [DirNames(ty)[k]], ty, r);
    var d := r.dir;
    assert d[..|resources|] == d[..|resources| + 1][..|resources|];
    assert d[|resources|] == d[..|resources| + 1][|resources|];
  }

  function Files(rs: seq<Resource>): (fs: seq<SkillFile>)
    ensures |fs| == |rs| && forall i :: 0 <= i < |rs| ==> fs[i] == rs[i].file
  {
    if rs == [] then [] else Files(rs[..|rs| - 1]) + [rs[|rs| - 1].file]
  }

  /**
    * The loops shared by `scan_resources_type` and `list_from_resources_path`
    * for one type: every type directory that exists is listed, and each kept
    * resource folder contributes what `scan_resource_folder` finds in it.
    */
  method CollectResources(t: Tree, resources: Path, ty: SkillType, parseMeta: string -> Option<string>)
    returns (r: Result<seq<Resource>, IoError>)
    ensures r == TypeResources(t, resources, ty, parseMeta)
  {
    var dirNames := DirNames(ty);
    var found: seq<Resource> := [];
    for k := 0 to |dirNames|
      invariant DirsResources(t, resources, dirNames, ty, parseMeta, [])
        == DirsResources(t, resources, dirNames[k..], ty, parseMeta, found)
    {
      assert dirNames[k..][1..] == dirNames[k + 1..];
      var typeDir := resources + [dirNames[k]];
      if typeDir in t {
        var listing := ReadDir(t, typeDir);
        if listing.Err? {
          return Err(listing.error);
        }
        var names := listing.value;
        ghost var before := found;
        for i := 0 to |names|
          invariant EntryResources(t, typeDir, names, ty, parseMeta, before)
            == EntryResources(t, typeDir, names[i..], ty, parseMeta, found)
        {
          assert names[i..][1..] == names[i + 1..];
          var dir := typeDir + [names[i]];
          if IsDir(t, dir) && !SkippedFolder(names[i]) {
            var f := ScanResourceFolder(t, dir, ty, names[i], parseMeta);
            if f.Some? {
              found := found + [Resource(dir, f.value)];
            }
          }
        }
      }
    }
    return Ok(found);
  }

  /** What `scan_resources_type` returns: the files of the type's resources, sorted by name. */
  function ResourcesOfType(t: Tree, resources: Path, ty: SkillType, parseMeta: string -> Option<string>)
    : Result<seq<SkillFile>, IoError>
  {
    match TypeResources(t, resources, ty, parseMeta)
    case Err(e) => Err(e)
    case Ok(rs) => Ok(SortBy(Files(rs), SkillName))
  }

  /** The type's files come back sorted by name, all of that type, and are exactly the files of its resources. */
  lemma ResourcesOfTypeSpec(t: Tree, resources: Path, ty: SkillType, parseMeta: string -> Option<string>)
    requires ResourcesOfType(t, resources, ty, parseMeta).Ok?
    ensures var fs := ResourcesOfType(t, resources, ty, parseMeta).value;
      SortedBy(fs, SkillName) &&
      multiset(fs) == multiset(Files(TypeResources(t, resources, ty, parseMeta).value)) &&
      forall i :: 0 <= i < |fs| ==> fs[i].skillType == ty
  {
    var rs := TypeResources(t, resources, ty, parseMeta).value;
    SortBySorted(Files(rs), SkillName);
    var fs := SortBy(Files(rs), SkillName);
    forall i | 0 <= i < |fs| ensures fs[i].skillType == ty {
      assert fs[i] in multiset(Files(rs));
      var k :| 0 <= k < |rs| && Files(rs)[k] == fs[i];
      TypeResourcesIn(t, resources, ty, parseMeta, k);
    }
  }

  /** `scan_resources_type`. */
  method ScanResourcesType(t: Tree, resources: Path, ty: SkillType, parseMeta: string -> Option<string>)
    returns (r: Result<seq<SkillFile>, IoError>)
    ensures r == ResourcesOfType(t, resources, ty, parseMeta)
  {
    var found := CollectResources(t, resources, ty, parseMeta);
    if found.Err? {
      return Err(found.error);
    }
    return Ok(SortBy(Files(found.value), SkillName));
  }

  /** `is_resources_format`. */
  predicate IsResourcesFormat(t: Tree, path: Path) {
    IsDir(t, path + ["resources"])
  }

  /** No type fails to scan in the resources layout. */
  predicate AllResourceScansOk(t: Tree, resources: Path, parseMeta: string -> Option<string>) {
    ResourcesOfType(t, resources, Skill, parseMeta).Ok? && ResourcesOfType(t, resources, Agent, parseMeta).Ok? &&
    ResourcesOfType(t, resources, Command, parseMeta).Ok? && ResourcesOfType(t, resources, Rule, parseMeta).Ok?
  }

  /**
    * `Bundle::from_resources_path`: one bundle with the caller's name; empty
    * when there is no `resources` entry.
    */
  function FromResourcesPath(t: Tree, path: Path, bundleName: string, parseMeta: string -> Option<string>)
    : (r: Result<Bundle, IoError>)
    ensures r.Ok? ==> r.value.name == bundleName && r.value.path == path
    ensures path + ["resources"] !in t ==> r.Ok? && IsEmpty(r.value)
    ensures path + ["resources"] in t ==> (r.Ok? <==> AllResourceScansOk(t, path + ["resources"], parseMeta))
    ensures r.Ok? && path + ["resources"] in t ==>
              forall ty :: FilesOfType(r.value, ty) == ResourcesOfType(t, path + ["resources"], ty, parseMeta).value
  {
    var res := path + ["resources"];
    if res !in t then Ok(EmptyBundle(bundleName, path))
    else
      match ResourcesOfType(t, res, Skill, parseMeta)
      case Err(e) => Err(e)
      case Ok(skills) =>
        match ResourcesOfType(t, res, Agent, parseMeta)
        case Err(e) => Err(e)
        case Ok(agents) =>
          match ResourcesOfType(t, res, Command, parseMeta)
          case Err(e) => Err(e)
          case Ok(commands) =>
            match ResourcesOfType(t, res, Rule, parseMeta)
            case Err(e) => Err(e)
            case Ok(rules) => Ok(Bundle(bundleName, path, skills, agents, commands, rules, NoMeta))
  }

  // ---------------------------------------------------------------------
  // one bundle per resource name
  // ---------------------------------------------------------------------

  /** Position of the bundle with that name. */
  function FindGroup(groups: seq<Bundle>, name: string): (r: Option<nat>)
    ensures r.Some? ==> r.value < |groups| && groups[r.value].name == name
    ensures r.None? ==> forall i :: 0 <= i < |groups| ==> groups[i].name != name
  {
    if groups == [] then None
    else if groups[0].name == name then Some(0)
    else match FindGroup(groups[1..], name)
      case None => None
      case Some(k) => Some(k + 1)
  }

  function PushFile(b: Bundle, f: SkillFile): Bundle {
    WithFiles(b, f.skillType, FilesOfType(b, f.skillType) + [f])
  }

  /**
    * The `entry(name).or_insert_with(..)` step: the file joins the bundle of
    * its name, created at the resource's folder when it is the first one.
    */
  function AddToGroup(groups: seq<Bundle>, r: Resource): seq<Bundle> {
    match FindGroup(groups, r.file.name)
    case Some(i) => groups[i := PushFile(groups[i], r.file)]
    case None => groups + [PushFile(EmptyBundle(r.file.name, r.dir), r.file)]
  }

  /** The map after every resource has been added, as a sequence in first-seen order. */
  function GroupAll(rs: seq<Resource>): seq<Bundle> {
    if rs == [] then [] else AddToGroup(GroupAll(rs[..|rs| - 1]), rs[|rs| - 1])
  }

  /** The files a bundle of that name holds in the list of that type. */
  function InGroup(name: string, ty: SkillType): SkillFile -> bool {
    (f: SkillFile) => f.name == name && f.skillType == ty
  }

  /** How one step changes the grouping: the bundle of that name gains the file, or a new bundle is appended. */
  lemma AddToGroupShape(g: seq<Bundle>, r: Resource)
    requires DistinctKeys(g, BundleName)
    ensures var g' := AddToGroup(g, r);
      DistinctKeys(g', BundleName) &&
      (FindGroup(g, r.file.name).Some? ==> |g'| == |g|) &&
      (FindGroup(g, r.file.name).None? ==> |g'| == |g| + 1 && g'[|g|] == PushFile(EmptyBundle(r.file.name, r.dir), r.file)) &&
      forall i :: 0 <= i < |g| ==>
        g'[i] == (if g[i].name == r.file.name then PushFile(g[i], r.file) else g[i])
  {
    var g' := AddToGroup(g, r);
    match FindGroup(g, r.file.name)
    case Some(k) =>
      forall i | 0 <= i < |g| ensures g'[i] == (if g[i].name == r.file.name then PushFile(g[i], r.file) else g[i]) {
        if i != k && g[i].name == r.file.name {
          assert g[i].name == g[k].name;
        }
      }
    case None =>
  }

  /** Names in the grouping are unique, every resource has its bundle, and no bundle carries metadata. */
  lemma {:induction false} GroupAllKeys(rs: seq<Resource>)
    ensures DistinctKeys(GroupAll(rs), BundleName)
    ensures forall k :: 0 <= k < |rs| ==> FindGroup(GroupAll(rs), rs[k].file.name).Some?
    ensures forall i :: 0 <= i < |GroupAll(rs)| ==> GroupAll(rs)[i].meta == NoMeta
  {
    if rs != [] {
      var init, r := rs[..|rs| - 1], rs[|rs| - 1];
      GroupAllKeys(init);
      var g := GroupAll(init);
      AddToGroupShape(g, r);
      var g' := GroupAll(rs);
      forall k | 0 <= k < |rs| ensures FindGroup(g', rs[k].file.name).Some? {
        if k < |init| {
          assert rs[k] == init[k];
          var j := FindGroup(g, init[k].file.name).value;
          assert g'[j].name == g[j].name;
        } else if FindGroup(g, r.file.name).Some? {
          var j := FindGroup(g, r.file.name).value;
          assert g'[j].name == r.file.name;
        } else {
          assert g'[|g|].name == r.file.name;
        }
      }
    }
  }

  /** Each list of a bundle holds exactly the scanned files of that name and type, in scan order. */
  lemma {:induction false} GroupAllFiles(rs: seq<Resource>, i: nat, ty: SkillType)
    requires i < |GroupAll(rs)|
    ensures FilesOfType(GroupAll(rs)[i], ty) == Filter(Files(rs), InGroup(GroupAll(rs)[i].name, ty))
  {
    var init, r := rs[..|rs| - 1], rs[|rs| - 1];
    GroupAllKeys(init);
    var g := GroupAll(init);
    AddToGroupShape(g, r);
    assert Files(rs) == Files(init) + [r.file];
    if i < |g| {
      GroupAllFiles(init, i, ty);
      PushToOldGroup(g, Files(init), r, i, ty);
    } else {
      forall j | 0 <= j < |Files(init)| ensures FindGroup(g, Files(init)[j].name).Some? {
        assert Files(init)[j] == init[j].file;
      }
      PushToNewGroup(g, Files(init), r, ty);
    }
  }

  /** A resource added to the groups keeps an existing group's files of each type the filter of all files so far. */
  lemma PushToOldGroup(g: seq<Bundle>, fs: seq<SkillFile>, r: Resource, i: nat, ty: SkillType)
    requires DistinctKeys(g, BundleName) && i < |g|
    requires FilesOfType(g[i], ty) == Filter(fs, InGroup(g[i].name, ty))
    ensures var g' := AddToGroup(g, r);
      i < |g'| && g'[i].name == g[i].name && FilesOfType(g'[i], ty) == Filter(fs + [r.file], InGroup(g[i].name, ty))
  {
    AddToGroupShape(g, r);
    FilterSnoc(fs, r.file, InGroup(g[i].name, ty));
    FilesOfTypeWithFiles(g[i], r.file.skillType, FilesOfType(g[i], r.file.skillType) + [r.file], ty);
  }

  /** A resource whose name has no group yet opens one holding just that resource. */
  lemma PushToNewGroup(g: seq<Bundle>, fs: seq<SkillFile>, r: Resource, ty: SkillType)
    requires DistinctKeys(g, BundleName) && FindGroup(g, r.file.name).None?
    requires forall j :: 0 <= j < |fs| ==> FindGroup(g, fs[j].name).Some?
    ensures var g' := AddToGroup(g, r);
      |g'| == |g| + 1 && g'[|g|].name == r.file.name &&
      FilesOfType(g'[|g|], ty) == Filter(fs + [r.file], InGroup(r.file.name, ty))
  {
    AddToGroupShape(g, r);
    var e := EmptyBundle(r.file.name, r.dir);
    FilesOfTypeWithFiles(e, r.file.skillType, FilesOfType(e, r.file.skillType) + [r.file], ty);
    FilterSnoc(fs, r.file, InGroup(r.file.name, ty));
    forall j | 0 <= j < |fs| ensures !InGroup(r.file.name, ty)(fs[j]) {
      assert FindGroup(g, fs[j].name).Some?;
    }
    FilterNone(fs, InGroup(r.file.name, ty));
  }

  /**
    * What `list_from_resources_path` gathers before grouping: the resources
    * of every type, types in the order Skill, Agent, Command, Rule.
    */
  function AllResources(t: Tree, resources: Path, types: seq<SkillType>, parseMeta: string -> Option<string>,
                        acc: seq<Resource>): Result<seq<Resource>, IoError>
    decreases |types|
  {
    if types == [] then Ok(acc)
    else match TypeResources(t, resources, types[0], parseMeta)
      case Err(e) => Err(e)
      case Ok(rs) => AllResources(t, resources, types[1..], parseMeta, acc + rs)
  }

  /**
    * `Bundle::list_from_resources_path`: no bundles without `resources`;
    * otherwise one bundle per resource name, sorted by name.
    */
  function ResourceBundles(t: Tree, path: Path, parseMeta: string -> Option<string>): (r: Result<seq<Bundle>, IoError>)
    ensures path + ["resources"] !in t ==> r == Ok([])
  {
    var res := path + ["resources"];
    if res !in t then Ok([])
    else match AllResources(t, res, AllTypes, parseMeta, [])
      case Err(e) => Err(e)
      case Ok(rs) => Ok(SortBy(GroupAll(rs), BundleName))
  }

  /** The bundles come back strictly ascending by name: no name twice. */
  lemma ResourceBundlesSorted(t: Tree, path: Path, parseMeta: string -> Option<string>)
    requires ResourceBundles(t, path, parseMeta).Ok?
    ensures StrictlySortedBy(ResourceBundles(t, path, parseMeta).value, BundleName)
  {
    var res := path + ["resources"];
    if res in t {
      var rs := AllResources(t, res, AllTypes, parseMeta, []).value;
      GroupAllKeys(rs);
      SortByStrict(GroupAll(rs), BundleName);
    }
  }

  /**
    * Each list of a returned bundle is exactly the scanned files of that
    * bundle's name and of that type, in scan order.
    */
  lemma ResourceBundleFiles(t: Tree, path: Path, parseMeta: string -> Option<string>, i: nat, ty: SkillType)
    requires path + ["resources"] in t
    requires ResourceBundles(t, path, parseMeta).Ok? && i < |ResourceBundles(t, path, parseMeta).value|
    ensures var rs := AllResources(t, path + ["resources"], AllTypes, parseMeta, []).value;
      var b := ResourceBundles(t, path, parseMeta).value[i];
      FilesOfType(b, ty) == Filter(Files(rs), InGroup(b.name, ty)) && b.meta == NoMeta
  {
    var rs := AllResources(t, path + ["resources"], AllTypes, parseMeta, []).value;
    var g := GroupAll(rs);
    SortByPermutation(g, BundleName);
    var bs := SortBy(g, BundleName);
    assert bs[i] in multiset(g);
    var j :| 0 <= j < |g| && g[j] == bs[i];
    GroupAllFiles(rs, j, ty);
    GroupAllKeys(rs);
  }

  /** Every scanned resource has a returned bundle carrying its name. */
  lemma ResourceBundleFound(t: Tree, path: Path, parseMeta: string -> Option<string>, k: nat)
    requires path + ["resources"] in t
    requires ResourceBundles(t, path, parseMeta).Ok?
    requires k < |AllResources(t, path + ["resources"], AllTypes, parseMeta, []).value|
    ensures var rs := AllResources(t, path + ["resources"], AllTypes, parseMeta, []).value;
      var bs := ResourceBundles(t, path, parseMeta).value;
      exists i :: 0 <= i < |bs| && bs[i].name == rs[k].file.name
  {
    var rs := AllResources(t, path + ["resources"], AllTypes, parseMeta, []).value;
    var g := GroupAll(rs);
    GroupAllKeys(rs);
    SortByPermutation(g, BundleName);
    var bs := SortBy(g, BundleName);
    var j := FindGroup(g, rs[k].file.name).value;
    assert g[j] in multiset(bs);
    var i :| 0 <= i < |bs| && bs[i] == g[j];
  }

  lemma GroupAllStep(seen: seq<Resource>, rs: seq<Resource>, j: nat)
    requires j < |rs|
    ensures GroupAll(seen + rs[..j + 1]) == AddToGroup(GroupAll(seen + rs[..j]), rs[j])
  {
    assert (seen + rs[..j + 1])[..|seen + rs[..j]|] == seen + rs[..j];
  }

  /** The `entry(..).or_insert_with(..)` and push for each resource of one type, in scan order. */
  method AddAll(groups: seq<Bundle>, ghost seen: seq<Resource>, rs: seq<Resource>) returns (g: seq<Bundle>)
    requires groups == GroupAll(seen)
    ensures g == GroupAll(seen + rs)
  {
    g := groups;
    assert seen + rs[..0] == seen;
    for j := 0 to |rs|
      invariant g == GroupAll(seen + rs[..j])
    {
      GroupAllStep(seen, rs, j);
      g := AddToGroup(g, rs[j]);
    }
    assert rs[..|rs|] == rs;
  }

  /** `list_from_resources_path`: the type loop around the shared resource scan, grouping as it goes. */
  method ListFromResourcesPath(t: Tree, path: Path, parseMeta: string -> Option<string>)
    returns (r: Result<seq<Bundle>, IoError>)
    ensures r == ResourceBundles(t, path, parseMeta)
  {
    var res := path + ["resources"];
    if res !in t {
      return Ok([]);
    }
    var groups: seq<Bundle> := [];
    ghost var seen: seq<Resource> := [];
    for k := 0 to |AllTypes|
      invariant AllResources(t, res, AllTypes, parseMeta, []) == AllResources(t, res, AllTypes[k..], parseMeta, seen)
      invariant groups == GroupAll(seen)
    {
      assert AllTypes[k..][1..] == AllTypes[k + 1..];
      var found := CollectResources(t, res, AllTypes[k], parseMeta);
      if found.Err? {
        return Err(found.error);
      }
      groups := AddAll(groups, seen, found.value);
      seen := seen + found.value;
    }
    assert AllTypes[|AllTypes|..] == [];
    return Ok(SortBy(groups, BundleName));
  }
}
