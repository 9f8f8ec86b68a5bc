/**
  * The `skm.toml`-declared layout: a source lists its bundles, each with a
  * root and optional per-type component directories; a component directory
  * holds flat `.md`/`.mdc` files and `<name>/<TYPE>.md` folders.
  */
module Manifests {
  import opened Wrappers
  import opened Text
  import opened Seqs
  import opened FileTree
  import opened Bundles

  /** Per-type directory overrides of a bundle declaration. */
  datatype ComponentPaths = ComponentPaths(
    skills: Option<string>,
    agents: Option<string>,
    commands: Option<string>,
    rules: Option<string>)

  const DefaultPaths := ComponentPaths(None, None, None, None)

  datatype SourceMeta = SourceMeta(name: Option<string>, description: Option<string>)

  datatype BundleDeclaration = BundleDeclaration(
    name: string,
    path: string,
    description: Option<string>,
    tags: Option<seq<string>>,
    paths: ComponentPaths)

  datatype SourceManifest = SourceManifest(source: Option<SourceMeta>, bundles: seq<BundleDeclaration>)

  function Override(paths: ComponentPaths, ty: SkillType): Option<string> {
    match ty
    case Skill => paths.skills
    case Agent => paths.agents
    case Command => paths.commands
    case Rule => paths.rules
  }

  /** `skills_dir`, `agents_dir`, `commands_dir`, `rules_dir`. */
  function ComponentDir(paths: ComponentPaths, ty: SkillType): string {
    match Override(paths, ty)
    case Some(d) => d
    case None => DirName(ty)
  }

  /** The declared directory wins; without one, the type's standard directory name is used. */
  lemma ComponentDirChoice(paths: ComponentPaths, ty: SkillType)
    ensures Override(paths, ty).Some? ==> ComponentDir(paths, ty) == Override(paths, ty).value
    ensures Override(paths, ty).None? ==> ComponentDir(paths, ty) == DirName(ty)
    ensures ComponentDir(DefaultPaths, ty) == DirName(ty)
  {
  }

  /**
    * `load_manifest`: the parsed `skm.toml` of a source root. A missing file,
    * one that cannot be read and one that does not parse all give `None`.
    * `parse` stands for the TOML parser.
    */
  function LoadManifest(t: Tree, root: Path, parse: string -> Option<SourceManifest>): (r: Option<SourceManifest>)
    ensures r.Some? <==> IsFile(t, root + ["skm.toml"]) && parse(t[root + ["skm.toml"]].content).Some?
    ensures r.Some? ==> r == parse(t[root + ["skm.toml"]].content)
  {
    var manifestPath := root + ["skm.toml"];
    if !Exists(t, manifestPath) then None
    else match ReadToString(t, manifestPath)
      case Err(_) => None
      case Ok(content) => parse(content)
  }

  // ---------------------------------------------------------------------
  // scan_component_dir
  // ---------------------------------------------------------------------

  /** The canonical content file names of a component folder, upper case first. */
  function CanonicalNames(ty: SkillType): (r: seq<string>)
    ensures |r| == 2
  {
    match ty
    case Skill => ["SKILL.md", "skill.md"]
    case Agent => ["AGENT.md", "agent.md"]
    case Command => ["COMMAND.md", "command.md"]
    case Rule => ["RULE.md", "rule.md"]
  }

  /** A flat component file: a regular file with extension `md` or `mdc`. */
  predicate IsComponentFile(t: Tree, p: Path) {
    IsFile(t, p) && (HasExtension(p, "md") || HasExtension(p, "mdc"))
  }

  /**
    * What one entry `n` of a component directory contributes: a flat file
    * named by its stem; or, for a folder, its canonical file (upper case
    * first) or else its first `.md` regular file, named after the folder and
    * remembering the folder; or nothing.
    */
  function ComponentEntry(t: Tree, dir: Path, n: string, ty: SkillType): Option<SkillFile> {
    var p := dir + [n];
    if IsComponentFile(t, p) then Some(SkillFile(Stem(n), p, ty, None))
    else if IsDir(t, p) then
      var expected := CanonicalNames(ty);
      match FirstExisting(t, p, expected)
      case Some(k) => Some(SkillFile(n, p + [expected[k]], ty, Some(p)))
      case None =>
        var subs := t[p].children;
        match FirstMd(t, p, subs)
        case None => None
        case Some(j) => Some(SkillFile(n, p + [subs[j]], ty, Some(p)))
    else None
  }

  /**
    * The two shapes of a component: a flat `.md`/`.mdc` file directly in the
    * directory, named by its stem, without a folder; or a file directly in a
    * folder of the directory, named after that folder, which it remembers.
    */
  lemma ComponentEntryShape(t: Tree, dir: Path, n: string, ty: SkillType)
    ensures var r := ComponentEntry(t, dir, n, ty);
      r.Some? ==>
        r.value.skillType == ty && r.value.path in t &&
        (r.value.sourceDir.None? ==>
           IsComponentFile(t, r.value.path) && Parent(r.value.path) == Some(dir) &&
           r.value.name == PathStem(r.value.path) && r.value.name != "") &&
        (r.value.sourceDir.Some? ==>
           IsDir(t, dir + [n]) && r.value.sourceDir == Some(dir + [n]) && r.value.name == n &&
           Parent(r.value.path) == Some(dir + [n]))
  {
    var p := dir + [n];
    if IsComponentFile(t, p) {
      var ext := if HasExtension(p, "md") then "md" else "mdc";
      HasExtensionIff(p, ext);
      StemAndExtension(n);
    }
  }

  /**
    * A folder's file is chosen in this order: the upper-case canonical name,
    * the lower-case one, the first `.md` regular file listed (`.mdc` does
    * not count here); a folder with none of them contributes nothing.
    */
  lemma ComponentFolderChoice(t: Tree, dir: Path, n: string, ty: SkillType)
    requires IsDir(t, dir + [n])
    ensures var p, r := dir + [n], ComponentEntry(t, dir, n, ty);
      var upper, lower := p + [CanonicalNames(ty)[0]], p + [CanonicalNames(ty)[1]];
      (upper in t ==> r == Some(SkillFile(n, upper, ty, Some(p)))) &&
      (upper !in t && lower in t ==> r == Some(SkillFile(n, lower, ty, Some(p)))) &&
      (upper !in t && lower !in t ==>
        (r.None? <==> forall j :: 0 <= j < |t[p].children| ==> !IsMdFile(t, p + [t[p].children[j]])) &&
        (r.Some? ==> exists j :: (0 <= j < |t[p].children| && r.value.path == p + [t[p].children[j]] &&
                                  IsMdFile(t, r.value.path) &&
                                  forall i :: 0 <= i < j ==> !IsMdFile(t, p + [t[p].children[i]]))))
  {
    var p := dir + [n];
    assert !IsComponentFile(t, p);
    var expected := CanonicalNames(ty);
    var k := FirstExisting(t, p, expected);
    if k.Some? {
      assert k.value == 0 || p + [expected[0]] !in t;
    } else {
      var subs := t[p].children;
      var j := FirstMd(t, p, subs);
      if j.Some? {
        assert p + [subs[j.value]] == ComponentEntry(t, dir, n, ty).value.path;
      }
    }
  }

  /** The contributions of a listing's entries, in listing order. */
  function ComponentFiles(t: Tree, dir: Path, names: seq<string>, ty: SkillType): seq<SkillFile> {
    FilterMap(names, EntryOf(t, dir, ty))
  }

  function EntryOf(t: Tree, dir: Path, ty: SkillType): string -> Option<SkillFile> {
    n => ComponentEntry(t, dir, n, ty)
  }

  /**
    * What `scan_component_dir` returns: nothing for a missing directory, an
    * error for one that cannot be listed, otherwise the contributions of its
    * entries sorted by name.
    */
  function ScanComponentFiles(t: Tree, dir: Path, ty: SkillType): (r: Result<seq<SkillFile>, IoError>)
    ensures r.Err? <==> IsFile(t, dir)
    ensures dir !in t ==> r == Ok([])
  {
    if dir !in t then Ok([])
    else match ReadDir(t, dir)
      case Err(e) => Err(e)
      case Ok(names) => Ok(SortBy(ComponentFiles(t, dir, names, ty), SkillName))
  }

  /**
    * The component scan is sorted by name, is a permutation of the entries'
    * contributions, and holds exactly one file per contributing entry.
    */
  lemma ScanComponentSpec(t: Tree, dir: Path, ty: SkillType)
    requires IsDir(t, dir)
    ensures var r := ScanComponentFiles(t, dir, ty).value;
      var found := ComponentFiles(t, dir, t[dir].children, ty);
      SortedBy(r, SkillName) && multiset(r) == multiset(found) &&
      |r| == |Filter(t[dir].children, Yields(EntryOf(t, dir, ty)))|
  {
    var found := ComponentFiles(t, dir, t[dir].children, ty);
    SortBySorted(found, SkillName);
    FilterMapCount(t[dir].children, EntryOf(t, dir, ty));
  }

  /** Every file of the scan comes from one entry of the listing. */
  lemma ScanComponentSound(t: Tree, dir: Path, ty: SkillType, i: nat)
    requires ScanComponentFiles(t, dir, ty).Ok? && i < |ScanComponentFiles(t, dir, ty).value|
    ensures exists j :: (0 <= j < |t[dir].children| &&
                         ComponentEntry(t, dir, t[dir].children[j], ty) == Some(ScanComponentFiles(t, dir, ty).value[i]))
  {
    var names := t[dir].children;
    var found := ComponentFiles(t, dir, names, ty);
    var r := ScanComponentFiles(t, dir, ty).value;
    SortByPermutation(found, SkillName);
    assert r[i] in multiset(found);
    var k :| 0 <= k < |found| && found[k] == r[i];
    FilterMapSound(names, EntryOf(t, dir, ty), k);
  }

  /** Every entry of the listing that contributes a file has it in the scan. */
  lemma ScanComponentComplete(t: Tree, dir: Path, ty: SkillType, n: string)
    requires IsDir(t, dir) && n in t[dir].children && ComponentEntry(t, dir, n, ty).Some?
    ensures ComponentEntry(t, dir, n, ty).value in ScanComponentFiles(t, dir, ty).value
  {
    var names := t[dir].children;
    var found := ComponentFiles(t, dir, names, ty);
    var j :| 0 <= j < |names| && names[j] == n;
    FilterMapComplete(names, EntryOf(t, dir, ty), j);
    SortByPermutation(found, SkillName);
    assert ComponentEntry(t, dir, n, ty).value in multiset(found);
  }

  /**
    * The folder branch of `scan_component_dir`: the canonical names loop
    * with its `found` flag, then the fallback listing loop.
    */
  method ScanComponentFolder(t: Tree, dir: Path, n: string, ty: SkillType) returns (r: Option<SkillFile>)
    requires IsDir(t, dir + [n]) && !IsComponentFile(t, dir + [n])
    ensures r == ComponentEntry(t, dir, n, ty)
  {
    var p := dir + [n];
    r := None;
    var expected := CanonicalNames(ty);
    var found := false;
    var k := 0;
    while k < |expected|
      invariant 0 <= k <= |expected|
      invariant !found && r.None?
      invariant forall j :: 0 <= j < k ==> p + [expected[j]] !in t
    {
      var mdPath := p + [expected[k]];
      if mdPath in t {
        r := Some(SkillFile(n, mdPath, ty, Some(p)));
        found := true;
        break;
      }
      k := k + 1;
    }
    if !found {
      var subs := t[p].children;
      var m := 0;
      while m < |subs|
        invariant 0 <= m <= |subs|
        invariant r.None?
        invariant forall j :: 0 <= j < m ==> !IsMdFile(t, p + [subs[j]])
      {
        var sub := p + [subs[m]];
        if IsFile(t, sub) && HasExtension(sub, "md") {
          r := Some(SkillFile(n, sub, ty, Some(p)));
          break;
        }
        m := m + 1;
      }
    }
  }

  /** `scan_component_dir`: the entries loop, then the sort by name. */
  method ScanComponentDir(t: Tree, dir: Path, ty: SkillType) returns (r: Result<seq<SkillFile>, IoError>)
    ensures r == ScanComponentFiles(t, dir, ty)
  {
    if !Exists(t, dir) {
      return Ok([]);
    }
    var listing := ReadDir(t, dir);
    if listing.Err? {
      return Err(listing.error);
    }
    var names := listing.value;
    var files: seq<SkillFile> := [];
    for i := 0 to |names|
      invariant files == ComponentFiles(t, dir, names[..i], ty)
    {
      FilterMapSnoc(names[..i], names[i], EntryOf(t, dir, ty));
      assert names[..i + 1] == names[..i] + [names[i]];
      var p := dir + [names[i]];
      if IsFile(t, p) && (HasExtension(p, "md") || HasExtension(p, "mdc")) {
        files := files + [SkillFile(Stem(names[i]), p, ty, None)];
      } else if IsDir(t, p) {
        var entry := ScanComponentFolder(t, dir, names[i], ty);
        if entry.Some? {
          files := files + [entry.value];
        }
      }
    }
    assert names[..|names|] == names;
    return Ok(SortBy(files, SkillName));
  }

  /** The component scan of one type of a declared bundle. */
  function ComponentScan(t: Tree, bundleRoot: Path, paths: ComponentPaths, ty: SkillType): Result<seq<SkillFile>, IoError> {
    ScanComponentFiles(t, JoinRel(bundleRoot, ComponentDir(paths, ty)), ty)
  }

  /** No component directory of the declaration fails to list. */
  predicate AllComponentScansOk(t: Tree, bundleRoot: Path, paths: ComponentPaths) {
    ComponentScan(t, bundleRoot, paths, Skill).Ok? && ComponentScan(t, bundleRoot, paths, Agent).Ok? &&
    ComponentScan(t, bundleRoot, paths, Command).Ok? && ComponentScan(t, bundleRoot, paths, Rule).Ok?
  }

  /**
    * `bundle_from_declaration`: the bundle rooted at `root/decl.path`, named
    * and described by the declaration, with no author, holding the component
    * scan of each type's directory.
    */
  function BundleFromDeclaration(t: Tree, root: Path, decl: BundleDeclaration): (r: Result<Bundle, IoError>)
    ensures r.Ok? ==> r.value.name == decl.name && r.value.path == JoinRel(root, decl.path)
    ensures r.Ok? ==> r.value.meta == BundleMeta(None, decl.description)
    ensures r.Ok? <==> AllComponentScansOk(t, JoinRel(root, decl.path), decl.paths)
  {
    var bundleRoot := JoinRel(root, decl.path);
    var ps := decl.paths;
    match ComponentScan(t, bundleRoot, ps, Skill)
    case Err(e) => Err(e)
    case Ok(skills) =>
      match ComponentScan(t, bundleRoot, ps, Agent)
      case Err(e) => Err(e)
      case Ok(agents) =>
        match ComponentScan(t, bundleRoot, ps, Command)
        case Err(e) => Err(e)
        case Ok(commands) =>
          match ComponentScan(t, bundleRoot, ps, Rule)
          case Err(e) => Err(e)
          case Ok(rules) => Ok(Bundle(decl.name, bundleRoot, skills, agents, commands, rules, BundleMeta(None, decl.description)))
  }

  /** Each list of a declared bundle is the component scan of that type's directory. */
  lemma BundleFromDeclarationFiles(t: Tree, root: Path, decl: BundleDeclaration, ty: SkillType)
    requires BundleFromDeclaration(t, root, decl).Ok?
    ensures FilesOfType(BundleFromDeclaration(t, root, decl).value, ty) ==
      ComponentScan(t, JoinRel(root, decl.path), decl.paths, ty).value
  {
  }
}
