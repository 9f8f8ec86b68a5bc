/**
  * Reconstructing what is installed in a project from the shape of the
  * tool directories alone, grouping and filtering the result, and removing
  * one installed artifact with the empty directories it leaves behind.
  */
module Discover {
  import opened Wrappers
  import opened Text
  import opened Seqs
  import opened FileTree
  import opened Bundles
  import Target

  datatype InstalledTool = Claude | OpenCode | Cursor

  /** `InstalledTool::as_str`. */
  function AsStr(tool: InstalledTool): string {
    match tool
    case Claude => "claude"
    case OpenCode => "opencode"
    case Cursor => "cursor"
  }

  /** The three tool names are distinct and already lower case. */
  lemma AsStrLower(tool: InstalledTool, other: InstalledTool)
    ensures AsciiLower(AsStr(tool)) == AsStr(tool)
    ensures AsStr(tool) == AsStr(other) <==> tool == other
  {
    var s := AsStr(tool);
    forall j | 0 <= j < |s| ensures AsciiLower(s)[j] == s[j] {
      assert !('A' <= s[j] <= 'Z');
    }
    if tool != other {
      if {tool, other} == {Claude, Cursor} {
        assert AsStr(tool)[1] != AsStr(other)[1];
      } else {
        assert |AsStr(tool)| != |AsStr(other)|;
      }
    }
  }

  /** One artifact found in a project: what it is, for which tool, where, and from which bundle if that shows. */
  datatype InstalledSkill = InstalledSkill(
    name: string,
    skillType: SkillType,
    tool: InstalledTool,
    path: Path,
    bundle: Option<string>)

  /** The tool's directory under the project directory. */
  function ToolRoot(base: Path, tool: InstalledTool): Path {
    base + [match tool case Claude => ".claude" case OpenCode => ".opencode" case Cursor => ".cursor"]
  }

  // ---------------------------------------------------------------------
  // discover_claude: a recursive walk of `commands` and `agents`
  // ---------------------------------------------------------------------

  /** The bundle a walked file shows: its directory's name, unless that directory is the type directory itself. */
  function WalkedBundle(typeDir: Path, p: Path): Option<string> {
    match Parent(p)
    case None => None
    case Some(q) => if q != typeDir then FileName(q) else None
  }

  /** What one walked path contributes: a `.md` file with a non-empty stem. */
  function WalkedSkill(t: Tree, typeDir: Path, ty: SkillType, p: Path): Option<InstalledSkill> {
    if IsFile(t, p) && HasExtension(p, "md") && PathStem(p) != "" then
      Some(InstalledSkill(PathStem(p), ty, Claude, p, WalkedBundle(typeDir, p)))
    else None
  }

  function WalkedSkillOf(t: Tree, typeDir: Path, ty: SkillType): Path -> Option<InstalledSkill> {
    p => WalkedSkill(t, typeDir, ty, p)
  }

  /** The artifacts of one type directory of `.claude`, in walk order. */
  function WalkedSkills(t: Tree, typeDir: Path, ty: SkillType): seq<InstalledSkill> {
    if !Exists(t, typeDir) then [] else FilterMap(Walk(t, typeDir), WalkedSkillOf(t, typeDir, ty))
  }

  /** `discover_claude`: commands first, then agents; nothing without `.claude`. */
  function ClaudeSkills(t: Tree, base: Path): seq<InstalledSkill> {
    var root := ToolRoot(base, Claude);
    if !Exists(t, root) then []
    else WalkedSkills(t, root + ["commands"], Command) + WalkedSkills(t, root + ["agents"], Agent)
  }

  /** The name of a walked `.md` file is never empty, so the emptiness check of the source never drops one. */
  lemma WalkedStemNonEmpty(p: Path)
    requires HasExtension(p, "md")
    ensures PathStem(p) != ""
  {
    HasExtensionIff(p, "md");
    StemAndExtension(p[|p| - 1]);
  }

  /**
    * Every artifact found under a type directory is a `.md` file at or below
    * it, named by its stem, of that type, for Claude, with the bundle its
    * directory shows.
    */
  lemma WalkedSkillSound(t: Tree, typeDir: Path, ty: SkillType, i: nat)
    requires i < |WalkedSkills(t, typeDir, ty)|
    ensures var s := WalkedSkills(t, typeDir, ty)[i];
      IsFile(t, s.path) && IsPrefix(typeDir, s.path) && HasExtension(s.path, "md") &&
      s.name == PathStem(s.path) && s.name != "" &&
      s.tool == Claude && s.skillType == ty && s.bundle == WalkedBundle(typeDir, s.path)
  {
    var walk := Walk(t, typeDir);
    FilterMapSound(walk, WalkedSkillOf(t, typeDir, ty), i);
    var j :| 0 <= j < |walk| && WalkedSkillOf(t, typeDir, ty)(walk[j]) == Some(WalkedSkills(t, typeDir, ty)[i]);
    WalkBelow(t, typeDir);
  }

  /** A `.md` file listed in a directory listed in the type directory is found, with that directory as its bundle. */
  lemma WalkedFound(t: Tree, typeDir: Path, ty: SkillType, bundle: string, file: string)
    requires IsDir(t, typeDir) && bundle in t[typeDir].children
    requires IsDir(t, typeDir + [bundle]) && file in t[typeDir + [bundle]].children
    requires IsFile(t, typeDir + [bundle, file]) && HasExtension(typeDir + [bundle, file], "md")
    ensures InstalledSkill(PathStem(typeDir + [bundle, file]), ty, Claude, typeDir + [bundle, file], Some(bundle))
      in WalkedSkills(t, typeDir, ty)
  {
    var p := typeDir + [bundle, file];
    assert p == (typeDir + [bundle]) + [file];
    assert Walk(t, p)[0] == p;
    WalkChild(t, typeDir + [bundle], file, p);
    WalkChild(t, typeDir, bundle, p);
    var walk := Walk(t, typeDir);
    var j :| 0 <= j < |walk| && walk[j] == p;
    WalkedStemNonEmpty(p);
    assert Parent(p) == Some(typeDir + [bundle]);
    FilterMapComplete(walk, WalkedSkillOf(t, typeDir, ty), j);
  }

  /**
    * A file installed for Claude at `.claude/{type}/{bundle}/{name}.md` is
    * found again, with its name and its bundle, when the directories on the
    * way list it.
    */
  lemma ClaudeInstallFound(t: Tree, base: Path, ty: SkillType, bundle: string, name: string)
    requires ty == Command || ty == Agent
    requires name != ""
    requires var typeDir := ToolRoot(base, Claude) + [DirName(ty)];
      Exists(t, ToolRoot(base, Claude)) && IsDir(t, typeDir) && bundle in t[typeDir].children &&
      IsDir(t, typeDir + [bundle]) && name + ".md" in t[typeDir + [bundle]].children &&
      IsFile(t, typeDir + [bundle, name + ".md"])
    ensures InstalledSkill(name, ty, Claude, base + Target.Destination(Target.Claude, ty, bundle, name).value, Some(bundle))
      in ClaudeSkills(t, base)
  {
    var root := ToolRoot(base, Claude);
    var typeDir := root + [DirName(ty)];
    ClaudeDestination(base, ty, bundle, name);
    WalkedNamedFound(t, typeDir, ty, bundle, name);
    var walked := WalkedSkills(t, typeDir, ty);
    if ty == Command {
      assert ClaudeSkills(t, base) == walked + WalkedSkills(t, root + ["agents"], Agent);
    } else {
      assert ClaudeSkills(t, base) == WalkedSkills(t, root + ["commands"], Command) + walked;
    }
  }

  /** Claude's destination for a command or an agent, under the project directory. */
  lemma ClaudeDestination(base: Path, ty: SkillType, bundle: string, name: string)
    requires ty == Command || ty == Agent
    ensures Target.Destination(Target.Claude, ty, bundle, name).Some?
    ensures base + Target.Destination(Target.Claude, ty, bundle, name).value ==
      ToolRoot(base, Claude) + [DirName(ty)] + [bundle, name + ".md"]
  {
  }

  /** A file `{name}.md` in a bundle folder of a type directory is found under its own name. */
  lemma WalkedNamedFound(t: Tree, typeDir: Path, ty: SkillType, bundle: string, name: string)
    requires name != ""
    requires IsDir(t, typeDir) && bundle in t[typeDir].children
    requires IsDir(t, typeDir + [bundle]) && name + ".md" in t[typeDir + [bundle]].children
    requires IsFile(t, typeDir + [bundle, name + ".md"])
    ensures InstalledSkill(name, ty, Claude, typeDir + [bundle, name + ".md"], Some(bundle)) in WalkedSkills(t, typeDir, ty)
  {
    var file := name + ".md";
    var p := typeDir + [bundle, file];
    assert file == name + "." + "md";
    StemOfDotted(name, "md");
    assert p[|p| - 1] == file;
    HasExtensionIff(p, "md");
    assert HasExtension(p, "md");
    WalkedFound(t, typeDir, ty, bundle, file);
    assert PathStem(p) == name;
  }

  // ---------------------------------------------------------------------
  // discover_opencode and discover_cursor: one directory listing each
  // ---------------------------------------------------------------------

  /** How a listed type directory holds its artifacts: a folder with a marker file, or flat `.md` files. */
  datatype Layout = Folder(marker: string) | Flat

  /**
    * What one entry of a listed type directory contributes: a folder holding
    * the marker, named after the folder, which is also its bundle; or a `.md`
    * file named by its stem, with no bundle.
    */
  function ListedSkill(t: Tree, dir: Path, tool: InstalledTool, ty: SkillType, layout: Layout, n: string): Option<InstalledSkill> {
    var p := dir + [n];
    match layout
    case Folder(marker) =>
      if IsDir(t, p) && Exists(t, p + [marker]) && n != "" then
        Some(InstalledSkill(n, ty, tool, p + [marker], Some(n)))
      else None
    case Flat =>
      if IsFile(t, p) && HasExtension(p, "md") && Stem(n) != "" then
        Some(InstalledSkill(Stem(n), ty, tool, p, None))
      else None
  }

  function ListedSkillOf(t: Tree, dir: Path, tool: InstalledTool, ty: SkillType, layout: Layout): string -> Option<InstalledSkill> {
    n => ListedSkill(t, dir, tool, ty, layout, n)
  }

  /** The artifacts of one listed type directory: none if it is missing, an error if it cannot be listed. */
  function ListedSkills(t: Tree, dir: Path, tool: InstalledTool, ty: SkillType, layout: Layout): (r: Result<seq<InstalledSkill>, IoError>)
    ensures r.Err? <==> IsFile(t, dir)
  {
    if !Exists(t, dir) then Ok([])
    else match ReadDir(t, dir)
      case Err(e) => Err(e)
      case Ok(names) => Ok(FilterMap(names, ListedSkillOf(t, dir, tool, ty, layout)))
  }

  /** Both lists, or the first error; what `?` after each step amounts to. */
  function Chain<T, E>(a: Result<seq<T>, E>, b: Result<seq<T>, E>): (r: Result<seq<T>, E>)
    ensures r.Ok? <==> a.Ok? && b.Ok?
    ensures r.Ok? ==> r.value == a.value + b.value
  {
    match a
    case Err(e) => Err(e)
    case Ok(x) => (match b case Err(e) => Err(e) case Ok(y) => Ok(x + y))
  }

  /** `discover_opencode`: skill folders, then agent files, then command files. */
  function OpenCodeSkills(t: Tree, base: Path): Result<seq<InstalledSkill>, IoError> {
    var root := ToolRoot(base, OpenCode);
    if !Exists(t, root) then Ok([])
    else Chain(Chain(ListedSkills(t, root + ["skill"], OpenCode, Skill, Folder("SKILL.md")),
                     ListedSkills(t, root + ["agent"], OpenCode, Agent, Flat)),
               ListedSkills(t, root + ["command"], OpenCode, Command, Flat))
  }

  /** `discover_cursor`: skill folders, then rule folders. */
  function CursorSkills(t: Tree, base: Path): Result<seq<InstalledSkill>, IoError> {
    var root := ToolRoot(base, Cursor);
    if !Exists(t, root) then Ok([])
    else Chain(ListedSkills(t, root + ["skills"], Cursor, Skill, Folder("SKILL.md")),
               ListedSkills(t, root + ["rules"], Cursor, Rule, Folder("RULE.md")))
  }

  /** `discover_installed`: Claude's, then OpenCode's, then Cursor's. */
  function InstalledSkills(t: Tree, base: Path): Result<seq<InstalledSkill>, IoError> {
    Chain(Chain(Ok(ClaudeSkills(t, base)), OpenCodeSkills(t, base)), CursorSkills(t, base))
  }

  /**
    * Discovery fails exactly when one of the listed type directories under an
    * existing tool directory is a file; an empty project holds nothing.
    */
  lemma InstalledSkillsErr(t: Tree, base: Path)
    ensures InstalledSkills(t, base).Err? <==>
      (Exists(t, ToolRoot(base, OpenCode)) &&
        (IsFile(t, ToolRoot(base, OpenCode) + ["skill"]) || IsFile(t, ToolRoot(base, OpenCode) + ["agent"]) ||
         IsFile(t, ToolRoot(base, OpenCode) + ["command"]))) ||
      (Exists(t, ToolRoot(base, Cursor)) &&
        (IsFile(t, ToolRoot(base, Cursor) + ["skills"]) || IsFile(t, ToolRoot(base, Cursor) + ["rules"])))
    ensures (forall tool :: !Exists(t, ToolRoot(base, tool))) ==> InstalledSkills(t, base) == Ok([])
  {
    if forall tool :: !Exists(t, ToolRoot(base, tool)) {
      assert !Exists(t, ToolRoot(base, Claude));
      assert !Exists(t, ToolRoot(base, OpenCode));
      assert !Exists(t, ToolRoot(base, Cursor));
    }
  }

  /**
    * Every artifact found in a listed type directory is one of its entries:
    * a folder holding the marker, or a `.md` file.
    */
  lemma ListedSkillSound(t: Tree, dir: Path, tool: InstalledTool, ty: SkillType, layout: Layout, i: nat)
    requires ListedSkills(t, dir, tool, ty, layout).Ok? && i < |ListedSkills(t, dir, tool, ty, layout).value|
    ensures IsDir(t, dir)
    ensures var s := ListedSkills(t, dir, tool, ty, layout).value[i];
      s.tool == tool && s.skillType == ty &&
      exists n :: n in t[dir].children && ListedSkill(t, dir, tool, ty, layout, n) == Some(s)
  {
    var names := t[dir].children;
    var f := ListedSkillOf(t, dir, tool, ty, layout);
    FilterMapSound(names, f, i);
    var j :| 0 <= j < |names| && f(names[j]) == Some(ListedSkills(t, dir, tool, ty, layout).value[i]);
  }

  /** Every entry of a listed type directory that qualifies is found. */
  lemma ListedSkillComplete(t: Tree, dir: Path, tool: InstalledTool, ty: SkillType, layout: Layout, n: string)
    requires IsDir(t, dir) && n in t[dir].children && ListedSkill(t, dir, tool, ty, layout, n).Some?
    ensures ListedSkill(t, dir, tool, ty, layout, n).value in ListedSkills(t, dir, tool, ty, layout).value
  {
    var names := t[dir].children;
    var j :| 0 <= j < |names| && names[j] == n;
    FilterMapComplete(names, ListedSkillOf(t, dir, tool, ty, layout), j);
  }

  /** What each tool's discovery finds is part of what discovery finds. */
  lemma InInstalled(t: Tree, base: Path, x: InstalledSkill)
    requires InstalledSkills(t, base).Ok?
    ensures x in ClaudeSkills(t, base) ==> x in InstalledSkills(t, base).value
    ensures x in OpenCodeSkills(t, base).value ==> x in InstalledSkills(t, base).value
    ensures x in CursorSkills(t, base).value ==> x in InstalledSkills(t, base).value
  {
  }

  /** The folder an OpenCode skill is installed into is found again, named and bundled by the combined name. */
  lemma OpenCodeSkillInstallFound(t: Tree, base: Path, bundle: string, name: string)
    requires InstalledSkills(t, base).Ok?
    requires var dir := ToolRoot(base, OpenCode) + ["skill"];
      Exists(t, ToolRoot(base, OpenCode)) && IsDir(t, dir) && Target.CombinedName(bundle, name) in t[dir].children &&
      IsDir(t, dir + [Target.CombinedName(bundle, name)]) && Exists(t, dir + [Target.CombinedName(bundle, name), "SKILL.md"])
    ensures var combined := Target.CombinedName(bundle, name);
      InstalledSkill(combined, Skill, OpenCode, base + Target.Destination(Target.OpenCode, Skill, bundle, name).value, Some(combined))
        in InstalledSkills(t, base).value
  {
    var combined := Target.CombinedName(bundle, name);
    var dir := ToolRoot(base, OpenCode) + ["skill"];
    assert base + Target.Destination(Target.OpenCode, Skill, bundle, name).value == dir + [combined] + ["SKILL.md"];
    assert dir + [combined, "SKILL.md"] == dir + [combined] + ["SKILL.md"];
    ListedSkillComplete(t, dir, OpenCode, Skill, Folder("SKILL.md"), combined);
    InInstalled(t, base, InstalledSkill(combined, Skill, OpenCode, dir + [combined] + ["SKILL.md"], Some(combined)));
  }

  /** The folder a Cursor skill is installed into is found again, named and bundled by the combined name. */
  lemma CursorSkillInstallFound(t: Tree, base: Path, bundle: string, name: string)
    requires InstalledSkills(t, base).Ok?
    requires var dir := ToolRoot(base, Cursor) + ["skills"];
      Exists(t, ToolRoot(base, Cursor)) && IsDir(t, dir) && Target.CombinedName(bundle, name) in t[dir].children &&
      IsDir(t, dir + [Target.CombinedName(bundle, name)]) && Exists(t, dir + [Target.CombinedName(bundle, name), "SKILL.md"])
    ensures var combined := Target.CombinedName(bundle, name);
      InstalledSkill(combined, Skill, Cursor, base + Target.Destination(Target.Cursor, Skill, bundle, name).value, Some(combined))
        in InstalledSkills(t, base).value
  {
    var combined := Target.CombinedName(bundle, name);
    var dir := ToolRoot(base, Cursor) + ["skills"];
    assert base + Target.Destination(Target.Cursor, Skill, bundle, name).value == dir + [combined] + ["SKILL.md"];
    assert dir + [combined, "SKILL.md"] == dir + [combined] + ["SKILL.md"];
    ListedSkillComplete(t, dir, Cursor, Skill, Folder("SKILL.md"), combined);
    InInstalled(t, base, InstalledSkill(combined, Skill, Cursor, dir + [combined] + ["SKILL.md"], Some(combined)));
  }

  /** The file an OpenCode agent or command is installed as is found again under the combined name, with no bundle. */
  lemma FlatInstallFound(t: Tree, base: Path, ty: SkillType, bundle: string, name: string)
    requires ty == Agent || ty == Command
    requires InstalledSkills(t, base).Ok?
    requires var dir := ToolRoot(base, OpenCode) + [if ty == Agent then "agent" else "command"];
      Exists(t, ToolRoot(base, OpenCode)) && IsDir(t, dir) &&
      Target.CombinedName(bundle, name) + ".md" in t[dir].children &&
      IsFile(t, dir + [Target.CombinedName(bundle, name) + ".md"])
    ensures InstalledSkill(Target.CombinedName(bundle, name), ty, OpenCode,
                           base + Target.Destination(Target.OpenCode, ty, bundle, name).value, None)
      in InstalledSkills(t, base).value
  {
    var combined := Target.CombinedName(bundle, name);
    var dir := ToolRoot(base, OpenCode) + [if ty == Agent then "agent" else "command"];
    var p := dir + [combined + ".md"];
    assert base + Target.Destination(Target.OpenCode, ty, bundle, name).value == p;
    assert combined != "" by {
      assert |combined| == |bundle| + 1 + |name|;
    }
    FlatEntryListed(t, dir, ty, combined);
    InInstalled(t, base, InstalledSkill(combined, ty, OpenCode, p, None));
  }

  /** A `{stem}.md` file listed in a flat type directory is found under its stem, with no bundle. */
  lemma FlatEntryListed(t: Tree, dir: Path, ty: SkillType, stem: string)
    requires stem != "" && IsDir(t, dir) && stem + ".md" in t[dir].children && IsFile(t, dir + [stem + ".md"])
    ensures ListedSkills(t, dir, OpenCode, ty, Flat).Ok?
    ensures InstalledSkill(stem, ty, OpenCode, dir + [stem + ".md"], None) in ListedSkills(t, dir, OpenCode, ty, Flat).value
  {
    StemOfDotted(stem, "md");
    HasExtensionIff(dir + [stem + ".md"], "md");
    ListedSkillComplete(t, dir, OpenCode, ty, Flat, stem + ".md");
  }

  /** The position of a tool in the order the tools are searched. */
  function Rank(tool: InstalledTool): nat {
    match tool
    case Claude => 0
    case OpenCode => 1
    case Cursor => 2
  }

  predicate AllFor(s: seq<InstalledSkill>, tool: InstalledTool) {
    forall i :: 0 <= i < |s| ==> s[i].tool == tool
  }

  lemma AllForAppend(a: seq<InstalledSkill>, b: seq<InstalledSkill>, tool: InstalledTool)
    requires AllFor(a, tool) && AllFor(b, tool)
    ensures AllFor(a + b, tool)
  {
    forall i | 0 <= i < |a + b| ensures (a + b)[i].tool == tool {
      if i >= |a| {
        assert (a + b)[i] == b[i - |a|];
      }
    }
  }

  lemma WalkedAllClaude(t: Tree, typeDir: Path, ty: SkillType)
    ensures AllFor(WalkedSkills(t, typeDir, ty), Claude)
  {
    forall i | 0 <= i < |WalkedSkills(t, typeDir, ty)| ensures WalkedSkills(t, typeDir, ty)[i].tool == Claude {
      WalkedSkillSound(t, typeDir, ty, i);
    }
  }

  lemma ListedAllFor(t: Tree, dir: Path, tool: InstalledTool, ty: SkillType, layout: Layout)
    requires ListedSkills(t, dir, tool, ty, layout).Ok?
    ensures AllFor(ListedSkills(t, dir, tool, ty, layout).value, tool)
  {
    var s := ListedSkills(t, dir, tool, ty, layout).value;
    forall i | 0 <= i < |s| ensures s[i].tool == tool {
      ListedSkillSound(t, dir, tool, ty, layout, i);
    }
  }

  lemma ClaudeAllClaude(t: Tree, base: Path)
    ensures AllFor(ClaudeSkills(t, base), Claude)
  {
    var root := ToolRoot(base, Claude);
    if Exists(t, root) {
      WalkedAllClaude(t, root + ["commands"], Command);
      WalkedAllClaude(t, root + ["agents"], Agent);
      AllForAppend(WalkedSkills(t, root + ["commands"], Command), WalkedSkills(t, root + ["agents"], Agent), Claude);
    }
  }

  lemma OpenCodeAllOpenCode(t: Tree, base: Path)
    requires OpenCodeSkills(t, base).Ok?
    ensures AllFor(OpenCodeSkills(t, base).value, OpenCode)
  {
    var root := ToolRoot(base, OpenCode);
    if Exists(t, root) {
      var a := ListedSkills(t, root + ["skill"], OpenCode, Skill, Folder("SKILL.md"));
      var b := ListedSkills(t, root + ["agent"], OpenCode, Agent, Flat);
      var c := ListedSkills(t, root + ["command"], OpenCode, Command, Flat);
      ListedAllFor(t, root + ["skill"], OpenCode, Skill, Folder("SKILL.md"));
      ListedAllFor(t, root + ["agent"], OpenCode, Agent, Flat);
      ListedAllFor(t, root + ["command"], OpenCode, Command, Flat);
      AllForAppend(a.value, b.value, OpenCode);
      AllForAppend(a.value + b.value, c.value, OpenCode);
    }
  }

  lemma CursorAllCursor(t: Tree, base: Path)
    requires CursorSkills(t, base).Ok?
    ensures AllFor(CursorSkills(t, base).value, Cursor)
  {
    var root := ToolRoot(base, Cursor);
    if Exists(t, root) {
      var a := ListedSkills(t, root + ["skills"], Cursor, Skill, Folder("SKILL.md"));
      var b := ListedSkills(t, root + ["rules"], Cursor, Rule, Folder("RULE.md"));
      ListedAllFor(t, root + ["skills"], Cursor, Skill, Folder("SKILL.md"));
      ListedAllFor(t, root + ["rules"], Cursor, Rule, Folder("RULE.md"));
      AllForAppend(a.value, b.value, Cursor);
    }
  }

  lemma RanksOrdered(a: seq<InstalledSkill>, b: seq<InstalledSkill>, c: seq<InstalledSkill>)
    requires AllFor(a, Claude) && AllFor(b, OpenCode) && AllFor(c, Cursor)
    ensures forall i, j :: 0 <= i < j < |a + b + c| ==> Rank((a + b + c)[i].tool) <= Rank((a + b + c)[j].tool)
  {
    var r := a + b + c;
    forall i, j | 0 <= i < j < |r| ensures Rank(r[i].tool) <= Rank(r[j].tool) {
      if i < |a| {
        assert r[i] == a[i];
      } else if i < |a| + |b| {
        assert r[i] == b[i - |a|];
        if j < |a| + |b| {
          assert r[j] == b[j - |a|];
        } else {
          assert r[j] == c[j - |a| - |b|];
        }
      } else {
        assert r[j] == c[j - |a| - |b|];
      }
    }
  }

  /** Discovery lists every Claude artifact before every OpenCode one, and those before every Cursor one. */
  lemma InstalledSkillsOrdered(t: Tree, base: Path)
    requires InstalledSkills(t, base).Ok?
    ensures var r := InstalledSkills(t, base).value;
      forall i, j :: 0 <= i < j < |r| ==> Rank(r[i].tool) <= Rank(r[j].tool)
  {
    ClaudeAllClaude(t, base);
    OpenCodeAllOpenCode(t, base);
    CursorAllCursor(t, base);
    RanksOrdered(ClaudeSkills(t, base), OpenCodeSkills(t, base).value, CursorSkills(t, base).value);
  }

  // ---------------------------------------------------------------------
  // the discovery loops
  // ---------------------------------------------------------------------

  /** The walk over one type directory of `.claude`, pushing each `.md` file with a non-empty stem. */
  method WalkTypeDir(t: Tree, typeDir: Path, ty: SkillType) returns (skills: seq<InstalledSkill>)
    ensures skills == WalkedSkills(t, typeDir, ty)
  {
    skills := [];
    if !Exists(t, typeDir) {
      return;
    }
    var entries := Walk(t, typeDir);
    for i := 0 to |entries|
      invariant skills == FilterMap(entries[..i], WalkedSkillOf(t, typeDir, ty))
    {
      var path := entries[i];
      var found: Option<InstalledSkill> := None;
      if IsFile(t, path) && HasExtension(path, "md") {
        var name := PathStem(path);
        var bundle: Option<string> := None;
        var parent := Parent(path);
        if parent.Some? && parent.value != typeDir {
          bundle := FileName(parent.value);
        }
        if name != "" {
          found := Some(InstalledSkill(name, ty, Claude, path, bundle));
          skills := skills + [found.value];
        }
      }
      assert found == WalkedSkillOf(t, typeDir, ty)(path);
      FilterMapSnoc(entries[..i], path, WalkedSkillOf(t, typeDir, ty));
      assert entries[..i + 1] == entries[..i] + [path];
    }
    assert entries[..|entries|] == entries;
  }

  /** The `read_dir` loop over one type directory of `.opencode` or `.cursor`. */
  method ReadTypeDir(t: Tree, dir: Path, tool: InstalledTool, ty: SkillType, layout: Layout)
    returns (r: Result<seq<InstalledSkill>, IoError>)
    ensures r == ListedSkills(t, dir, tool, ty, layout)
  {
    if !Exists(t, dir) {
      return Ok([]);
    }
    var listing := ReadDir(t, dir);
    if listing.Err? {
      return Err(listing.error);
    }
    var names := listing.value;
    var skills: seq<InstalledSkill> := [];
    for i := 0 to |names|
      invariant skills == FilterMap(names[..i], ListedSkillOf(t, dir, tool, ty, layout))
    {
      FilterMapSnoc(names[..i], names[i], ListedSkillOf(t, dir, tool, ty, layout));
      assert names[..i + 1] == names[..i] + [names[i]];
      var path := dir + [names[i]];
      match layout {
        case Folder(marker) =>
          if IsDir(t, path) && Exists(t, path + [marker]) {
            var name := names[i];
            if name != "" {
              skills := skills + [InstalledSkill(name, ty, tool, path + [marker], Some(name))];
            }
          }
        case Flat =>
          if IsFile(t, path) && HasExtension(path, "md") {
            var name := Stem(names[i]);
            if name != "" {
              skills := skills + [InstalledSkill(name, ty, tool, path, None)];
            }
          }
      }
    }
    assert names[..|names|] == names;
    return Ok(skills);
  }

  method DiscoverClaude(t: Tree, base: Path) returns (skills: seq<InstalledSkill>)
    ensures skills == ClaudeSkills(t, base)
  {
    var root := ToolRoot(base, Claude);
    if !Exists(t, root) {
      return [];
    }
    var commands := WalkTypeDir(t, root + ["commands"], Command);
    var agents := WalkTypeDir(t, root + ["agents"], Agent);
    skills := commands + agents;
  }

  method DiscoverOpenCode(t: Tree, base: Path) returns (r: Result<seq<InstalledSkill>, IoError>)
    ensures r == OpenCodeSkills(t, base)
  {
    var root := ToolRoot(base, OpenCode);
    if !Exists(t, root) {
      return Ok([]);
    }
    var skills := ReadTypeDir(t, root + ["skill"], OpenCode, Skill, Folder("SKILL.md"));
    if skills.Err? {
      return skills;
    }
    var agents := ReadTypeDir(t, root + ["agent"], OpenCode, Agent, Flat);
    if agents.Err? {
      return agents;
    }
    var commands := ReadTypeDir(t, root + ["command"], OpenCode, Command, Flat);
    if commands.Err? {
      return commands;
    }
    return Ok(skills.value + agents.value + commands.value);
  }

  method DiscoverCursor(t: Tree, base: Path) returns (r: Result<seq<InstalledSkill>, IoError>)
    ensures r == CursorSkills(t, base)
  {
    var root := ToolRoot(base, Cursor);
    if !Exists(t, root) {
      return Ok([]);
    }
    var skills := ReadTypeDir(t, root + ["skills"], Cursor, Skill, Folder("SKILL.md"));
    if skills.Err? {
      return skills;
    }
    var rules := ReadTypeDir(t, root + ["rules"], Cursor, Rule, Folder("RULE.md"));
    if rules.Err? {
      return rules;
    }
    return Ok(skills.value + rules.value);
  }

  method DiscoverInstalled(t: Tree, base: Path) returns (r: Result<seq<InstalledSkill>, IoError>)
    ensures r == InstalledSkills(t, base)
  {
    var skills := DiscoverClaude(t, base);
    var open := DiscoverOpenCode(t, base);
    if open.Err? {
      return Err(open.error);
    }
    skills := skills + open.value;
    var cursor := DiscoverCursor(t, base);
    if cursor.Err? {
      return Err(cursor.error);
    }
    return Ok(skills + cursor.value);
  }

  // ---------------------------------------------------------------------
  // filtering and grouping
  // ---------------------------------------------------------------------

  function IsFor(tool: string): InstalledSkill -> bool {
    (s: InstalledSkill) => AsStr(s.tool) == AsciiLower(tool)
  }

  /** `filter_by_tool`: the artifacts whose tool name is the argument in lower case, in their order. */
  function FilterByTool(skills: seq<InstalledSkill>, tool: string): (r: seq<InstalledSkill>)
    ensures forall s :: s in r <==> s in skills && AsStr(s.tool) == AsciiLower(tool)
  {
    Filter(skills, IsFor(tool))
  }

  function IsTool(tool: InstalledTool): InstalledSkill -> bool {
    (s: InstalledSkill) => s.tool == tool
  }

  /** Filtering by a tool's own name, in any letter case, keeps exactly that tool's artifacts. */
  lemma FilterByToolName(skills: seq<InstalledSkill>, tool: InstalledTool, name: string)
    requires AsciiLower(name) == AsStr(tool)
    ensures FilterByTool(skills, name) == Filter(skills, IsTool(tool))
  {
    forall i | 0 <= i < |skills| ensures IsFor(name)(skills[i]) == IsTool(tool)(skills[i]) {
      AsStrLower(skills[i].tool, tool);
    }
    FilterCongruent(skills, IsFor(name), IsTool(tool));
  }

  /** The three tool names split any list of artifacts: each lands under exactly its own tool's name. */
  lemma FilterByToolPartition(skills: seq<InstalledSkill>)
    ensures |FilterByTool(skills, "claude")| + |FilterByTool(skills, "opencode")| + |FilterByTool(skills, "cursor")| == |skills|
  {
    AsStrLower(Claude, Claude);
    AsStrLower(OpenCode, OpenCode);
    AsStrLower(Cursor, Cursor);
    FilterByToolName(skills, Claude, "claude");
    FilterByToolName(skills, OpenCode, "opencode");
    FilterByToolName(skills, Cursor, "cursor");
    ToolPartition(skills);
  }

  lemma {:induction false} ToolPartition(skills: seq<InstalledSkill>)
    ensures |Filter(skills, IsTool(Claude))| + |Filter(skills, IsTool(OpenCode))| + |Filter(skills, IsTool(Cursor))| == |skills|
  {
    if skills != [] {
      ToolPartition(skills[1..]);
    }
  }

  /** `unique_id`: `bundle/name`, or the bare name without a bundle. */
  function UniqueId(s: InstalledSkill): string {
    match s.bundle
    case Some(b) => b + "/" + s.name
    case None => s.name
  }

  /** With no '/' inside names and bundles, the identifier determines both. */
  lemma UniqueIdInjective(a: InstalledSkill, b: InstalledSkill)
    requires '/' !in a.name && '/' !in b.name
    requires a.bundle.Some? ==> '/' !in a.bundle.value
    requires b.bundle.Some? ==> '/' !in b.bundle.value
    requires UniqueId(a) == UniqueId(b)
    ensures a.name == b.name && a.bundle == b.bundle
  {
    var id := UniqueId(a);
    if a.bundle.Some? {
      IdSplit(a.bundle.value, a.name);
    }
    if b.bundle.Some? {
      IdSplit(b.bundle.value, b.name);
    }
  }

  lemma IdSplit(bundle: string, name: string)
    requires '/' !in bundle && '/' !in name
    ensures SplitOnce(bundle + "/" + name, '/') == Some((bundle, name))
  {
    assert bundle + "/" + name == bundle + ['/'] + name;
    SplitOnceAt(bundle, '/', name);
  }

  function OfKind(tool: InstalledTool, ty: SkillType): InstalledSkill -> bool {
    (s: InstalledSkill) => s.tool == tool && s.skillType == ty
  }

  type ToolMap = map<InstalledTool, map<SkillType, seq<InstalledSkill>>>

  /** There is a group for exactly the tools present. */
  ghost predicate ToolsPresent(groups: ToolMap, skills: seq<InstalledSkill>) {
    forall tool :: tool in groups <==> exists j :: 0 <= j < |skills| && skills[j].tool == tool
  }

  /** Inside a tool's group, there is a group for exactly the types present for that tool. */
  ghost predicate TypesPresent(groups: ToolMap, skills: seq<InstalledSkill>) {
    forall tool, ty :: tool in groups ==>
      (ty in groups[tool] <==> exists j :: 0 <= j < |skills| && skills[j].tool == tool && skills[j].skillType == ty)
  }

  /** Each group holds exactly the artifacts of its tool and type, in their original order. */
  ghost predicate GroupsExact(groups: ToolMap, skills: seq<InstalledSkill>) {
    forall tool, ty :: tool in groups && ty in groups[tool] ==> groups[tool][ty] == Filter(skills, OfKind(tool, ty))
  }

  /** `groups` is the grouping of `skills` by tool, then by type. */
  ghost predicate ToolGroups(groups: ToolMap, skills: seq<InstalledSkill>) {
    ToolsPresent(groups, skills) && TypesPresent(groups, skills) && GroupsExact(groups, skills)
  }

  /** `groups.entry(tool).or_default().entry(type).or_default().push(s)`. */
  function PushByTool(groups: ToolMap, s: InstalledSkill): ToolMap {
    var inner := if s.tool in groups then groups[s.tool] else map[];
    var group := if s.skillType in inner then inner[s.skillType] else [];
    groups[s.tool := inner[s.skillType := group + [s]]]
  }

  lemma ToolsPresentSnoc(groups: ToolMap, skills: seq<InstalledSkill>, s: InstalledSkill)
    requires ToolsPresent(groups, skills)
    ensures ToolsPresent(PushByTool(groups, s), skills + [s])
  {
    var g := PushByTool(groups, s);
    var all := skills + [s];
    forall tool ensures tool in g <==> exists j :: 0 <= j < |all| && all[j].tool == tool {
      assert all[|skills|] == s;
      if tool in groups {
        var j :| 0 <= j < |skills| && skills[j].tool == tool;
        assert all[j] == skills[j];
      }
      if exists j :: 0 <= j < |all| && all[j].tool == tool {
        var j :| 0 <= j < |all| && all[j].tool == tool;
        if j < |skills| {
          assert skills[j] == all[j];
        }
      }
    }
  }

  lemma TypesPresentSnoc(groups: ToolMap, skills: seq<InstalledSkill>, s: InstalledSkill)
    requires ToolsPresent(groups, skills) && TypesPresent(groups, skills)
    ensures TypesPresent(PushByTool(groups, s), skills + [s])
  {
    var g := PushByTool(groups, s);
    var all := skills + [s];
    forall tool, ty | tool in g
      ensures ty in g[tool] <==> exists j :: 0 <= j < |all| && all[j].tool == tool && all[j].skillType == ty
    {
      assert all[|skills|] == s;
      if ty in g[tool] && !(tool == s.tool && ty == s.skillType) {
        var j :| 0 <= j < |skills| && skills[j].tool == tool && skills[j].skillType == ty;
        assert all[j] == skills[j];
      }
      if exists j :: 0 <= j < |all| && all[j].tool == tool && all[j].skillType == ty {
        var j :| 0 <= j < |all| && all[j].tool == tool && all[j].skillType == ty;
        if j < |skills| {
          assert skills[j] == all[j];
          assert tool in groups;
        }
      }
    }
  }

  lemma GroupsExactSnoc(groups: ToolMap, skills: seq<InstalledSkill>, s: InstalledSkill)
    requires ToolsPresent(groups, skills) && TypesPresent(groups, skills) && GroupsExact(groups, skills)
    ensures GroupsExact(PushByTool(groups, s), skills + [s])
  {
    var g := PushByTool(groups, s);
    forall tool, ty | tool in g && ty in g[tool] ensures g[tool][ty] == Filter(skills + [s], OfKind(tool, ty)) {
      FilterSnoc(skills, s, OfKind(tool, ty));
      if tool == s.tool && ty == s.skillType && !(s.tool in groups && s.skillType in groups[s.tool]) {
        FilterNone(skills, OfKind(tool, ty));
      }
    }
  }

  /** `group_by_tool`. */
  method GroupByTool(skills: seq<InstalledSkill>) returns (r: ToolMap)
    ensures ToolGroups(r, skills)
  {
    r := map[];
    for i := 0 to |skills|
      invariant ToolGroups(r, skills[..i])
    {
      var s := skills[i];
      ToolsPresentSnoc(r, skills[..i], s);
      TypesPresentSnoc(r, skills[..i], s);
      GroupsExactSnoc(r, skills[..i], s);
      assert skills[..i + 1] == skills[..i] + [s];
      var inner := if s.tool in r then r[s.tool] else map[];
      var group := if s.skillType in inner then inner[s.skillType] else [];
      r := r[s.tool := inner[s.skillType := group + [s]]];
    }
    assert skills[..|skills|] == skills;
  }

  function SameId(id: string): InstalledSkill -> bool {
    (s: InstalledSkill) => UniqueId(s) == id
  }

  /** `groups` holds one group per identifier present in `skills`, with its artifacts in their original order. */
  ghost predicate IdGroups(groups: map<string, seq<InstalledSkill>>, skills: seq<InstalledSkill>) {
    (forall id :: id in groups <==> exists j :: 0 <= j < |skills| && UniqueId(skills[j]) == id) &&
    (forall id :: id in groups ==> groups[id] == Filter(skills, SameId(id)))
  }

  lemma IdGroupsSnoc(groups: map<string, seq<InstalledSkill>>, skills: seq<InstalledSkill>, s: InstalledSkill)
    requires IdGroups(groups, skills)
    ensures var id := UniqueId(s);
      IdGroups(groups[id := (if id in groups then groups[id] else []) + [s]], skills + [s])
  {
    IdKeysSnoc(groups, skills, s);
    IdValuesSnoc(groups, skills, s);
  }

  lemma IdKeysSnoc(groups: map<string, seq<InstalledSkill>>, skills: seq<InstalledSkill>, s: InstalledSkill)
    requires forall id :: id in groups <==> exists j :: 0 <= j < |skills| && UniqueId(skills[j]) == id
    ensures var g := groups[UniqueId(s) := (if UniqueId(s) in groups then groups[UniqueId(s)] else []) + [s]];
      forall k :: k in g <==> exists j :: 0 <= j < |skills + [s]| && UniqueId((skills + [s])[j]) == k
  {
    var id := UniqueId(s);
    var g := groups[id := (if id in groups then groups[id] else []) + [s]];
    var all := skills + [s];
    forall k ensures k in g <==> exists j :: 0 <= j < |all| && UniqueId(all[j]) == k {
      assert all[|skills|] == s;
      if k in groups {
        var j :| 0 <= j < |skills| && UniqueId(skills[j]) == k;
        assert all[j] == skills[j];
      }
      if exists j :: 0 <= j < |all| && UniqueId(all[j]) == k {
        var j :| 0 <= j < |all| && UniqueId(all[j]) == k;
        if j < |skills| {
          assert skills[j] == all[j];
        }
      }
    }
  }

  lemma IdValuesSnoc(groups: map<string, seq<InstalledSkill>>, skills: seq<InstalledSkill>, s: InstalledSkill)
    requires IdGroups(groups, skills)
    ensures var g := groups[UniqueId(s) := (if UniqueId(s) in groups then groups[UniqueId(s)] else []) + [s]];
      forall k :: k in g ==> g[k] == Filter(skills + [s], SameId(k))
  {
    var id := UniqueId(s);
    var g := groups[id := (if id in groups then groups[id] else []) + [s]];
    forall k | k in g ensures g[k] == Filter(skills + [s], SameId(k)) {
      FilterSnoc(skills, s, SameId(k));
      if k == id && id !in groups {
        FilterNone(skills, SameId(k));
      }
    }
  }

  /** `group_same_skills`. */
  method GroupSameSkills(skills: seq<InstalledSkill>) returns (r: map<string, seq<InstalledSkill>>)
    ensures IdGroups(r, skills)
  {
    r := map[];
    for i := 0 to |skills|
      invariant IdGroups(r, skills[..i])
    {
      var s := skills[i];
      IdGroupsSnoc(r, skills[..i], s);
      assert skills[..i + 1] == skills[..i] + [s];
      var id := UniqueId(s);
      var group := if id in r then r[id] else [];
      r := r[id := group + [s]];
    }
    assert skills[..|skills|] == skills;
  }

  // ---------------------------------------------------------------------
  // remove_skill
  // ---------------------------------------------------------------------

  /**
    * The pruning loop: from `current` upwards, stop at a directory whose name
    * starts with '.', stop at a directory that is not empty, and remove an
    * empty one before moving to its parent.
    */
  function Prune(t: Tree, current: Option<Path>): Result<Tree, IoError>
    decreases if current.Some? then |current.value| + 1 else 0
  {
    match current
    case None => Ok(t)
    case Some(dir) =>
      if FileName(dir).Some? && StartsWith(FileName(dir).value, ".") then Ok(t)
      else match ReadDir(t, dir)
        case Err(e) => Err(e)
        case Ok(entries) =>
          if entries != [] then Ok(t)
          else match RemoveDir(t, dir)
            case Err(e) => Err(e)
            case Ok(t') => Prune(t', Parent(dir))
  }

  predicate Hidden(q: Path) {
    q != [] && StartsWith(q[|q| - 1], ".")
  }

  /**
    * `r` is `t` with exactly the directories `dir[..j]`, `n < j <= |dir|`,
    * removed: none of them is named with a leading '.', each held nothing
    * but the next one down (the lowest held nothing at all), only the entry
    * list of `dir[..n]` changes otherwise, and `dir[..n]` is where the walk
    * up stopped: a directory named with a leading '.' or one still holding
    * something.
    */
  ghost predicate PrunedTo(t: Tree, dir: Path, n: nat, r: Tree)
    requires n <= |dir|
  {
    (forall q :: q in r <==> q in t && !(IsPrefix(q, dir) && |q| > n)) &&
    (forall q :: q in r && q != dir[..n] ==> r[q] == t[q]) &&
    (n == |dir| ==> r == t) &&
    (forall j :: n < j <= |dir| ==>
      !Hidden(dir[..j]) && IsDir(t, dir[..j]) &&
      (j == |dir| ==> t[dir[..j]].children == []) &&
      (j < |dir| ==> forall i :: 0 <= i < |t[dir[..j]].children| ==> t[dir[..j]].children[i] == dir[j])) &&
    (Hidden(dir[..n]) || (IsDir(r, dir[..n]) && r[dir[..n]].children != []))
  }

  /** A successful pruning from `dir` removes exactly the longest chain of emptied directories above the removed entry. */
  lemma {:induction false} PruneChain(t: Tree, dir: Path)
    requires Prune(t, Some(dir)).Ok?
    ensures exists n: nat :: n <= |dir| && PrunedTo(t, dir, n, Prune(t, Some(dir)).value)
    decreases |dir|
  {
    var r := Prune(t, Some(dir)).value;
    if Hidden(dir) || t[dir].children != [] {
      assert r == t;
      assert dir[..|dir|] == dir;
      assert PrunedTo(t, dir, |dir|, r);
    } else {
      var t' := RemoveDir(t, dir).value;
      var up := dir[..|dir| - 1];
      assert r == Prune(t', Some(up)).value;
      PruneChain(t', up);
      var n: nat :| n <= |up| && PrunedTo(t', up, n, r);
      PruneChainStep(t, dir, t', n, r);
    }
  }

  /** Removing the empty `dir` and then pruning `dir`'s parent down to `n` prunes `dir` down to `n`. */
  lemma PruneChainStep(t: Tree, dir: Path, t': Tree, n: nat, r: Tree)
    requires !Hidden(dir) && IsDir(t, dir) && t[dir].children == [] && dir != []
    requires RemoveDir(t, dir) == Ok(t')
    requires n < |dir| && PrunedTo(t', dir[..|dir| - 1], n, r)
    ensures PrunedTo(t, dir, n, r)
  {
    var up := dir[..|dir| - 1];
    assert dir[..n] == up[..n];
    forall q ensures q in r <==> q in t && !(IsPrefix(q, dir) && |q| > n) {
      if IsPrefix(q, dir) && q != dir {
        assert IsPrefix(q, up);
      }
      if IsPrefix(q, up) {
        assert dir[..|q|] == up[..|q|];
      }
    }
    forall q | q in r && q != dir[..n] ensures r[q] == t[q] {
      if q == up {
        assert IsPrefix(up, up);
      }
    }
    forall j | n < j <= |dir| ensures !Hidden(dir[..j]) && IsDir(t, dir[..j]) &&
      (j == |dir| ==> t[dir[..j]].children == []) &&
      (j < |dir| ==> forall i :: 0 <= i < |t[dir[..j]].children| ==> t[dir[..j]].children[i] == dir[j])
    {
      if j == |dir| {
        assert dir[..j] == dir;
      } else if j == |up| {
        PrunedLowest(t', up, n, r);
        PruneStepParent(t, dir, t');
      } else {
        assert dir[..j] == up[..j];
        assert dir[..j] in t';
        assert t'[dir[..j]] == t[dir[..j]];
      }
    }
  }

  /** The parent of a removed directory, once empty itself, held nothing but that directory. */
  lemma PruneStepParent(t: Tree, dir: Path, t': Tree)
    requires dir != [] && RemoveDir(t, dir) == Ok(t')
    requires IsDir(t', dir[..|dir| - 1]) && t'[dir[..|dir| - 1]].children == []
    ensures var up := dir[..|dir| - 1];
      IsDir(t, up) && forall i :: 0 <= i < |t[up].children| ==> t[up].children[i] == dir[|up|]
  {
    var up := dir[..|dir| - 1];
    assert up in t && IsDir(t, up);
    assert t'[up] == Dir(Seqs.Filter(t[up].children, Other(dir[|dir| - 1])));
    FilterOtherEmpty(t[up].children, dir[|up|]);
  }

  /** The lowest directory of a pruned chain was an empty directory not named with a leading '.'. */
  lemma PrunedLowest(t: Tree, dir: Path, n: nat, r: Tree)
    requires n < |dir| && PrunedTo(t, dir, n, r)
    ensures !Hidden(dir) && IsDir(t, dir) && t[dir].children == []
  {
    assert dir[..|dir|] == dir;
  }

  /** Only entries equal to `x` are left out of a filter by `Other(x)`. */
  lemma FilterOtherEmpty(cs: seq<string>, x: string)
    requires Seqs.Filter(cs, Other(x)) == []
    ensures forall i :: 0 <= i < |cs| ==> cs[i] == x
  {
    forall i | 0 <= i < |cs| ensures cs[i] == x {
      assert cs[i] !in Seqs.Filter(cs, Other(x));
      assert !Other(x)(cs[i]);
    }
  }

  /**
    * Pruning only removes `current` and directories above it, and never a
    * directory whose name starts with '.' nor anything above one; it removes
    * an empty `current` not named with a leading '.', and leaves the tree as
    * it is when `current` is named with a leading '.' or holds something.
    */
  lemma {:induction false} PruneSpec(t: Tree, current: Option<Path>)
    requires Prune(t, current).Ok?
    ensures Prune(t, current).value.Keys <= t.Keys
    ensures forall q :: q in t && q !in Prune(t, current).value ==> current.Some? && IsPrefix(q, current.value)
    ensures forall q :: current.Some? && q in t && IsPrefix(q, current.value) && Hidden(q) ==> q in Prune(t, current).value
    ensures current.Some? && !Hidden(current.value) && IsDir(t, current.value) && t[current.value].children == [] ==>
      current.value !in Prune(t, current).value
    ensures current.Some? && (Hidden(current.value) || (IsDir(t, current.value) && t[current.value].children != [])) ==>
      Prune(t, current) == Ok(t)
    decreases if current.Some? then |current.value| + 1 else 0
  {
    if current.Some? {
      var dir := current.value;
      if !(FileName(dir).Some? && StartsWith(FileName(dir).value, ".")) && t[dir].children == [] {
        var t' := RemoveDir(t, dir).value;
        var up := Parent(dir);
        PruneSpec(t', up);
        var r := Prune(t', up).value;
        assert r == Prune(t, current).value;
        forall q | q in t && q !in r ensures IsPrefix(q, dir) {
          if q != dir {
            assert q in t';
            assert IsPrefix(q, up.value);
            assert dir[..|up.value|] == up.value;
          }
        }
        forall q | q in t && IsPrefix(q, dir) && Hidden(q) ensures q in r {
          assert q != dir;
          assert |q| < |dir|;
          assert q == up.value[..|q|];
        }
      }
    }
  }

  /**
    * `remove_skill`: a skill or rule whose file sits in a directory loses that
    * whole directory; anything else loses its file, then the empty
    * directories above it are pruned.
    */
  function RemoveSkillResult(t: Tree, skill: InstalledSkill): Result<Tree, IoError> {
    var parent := Parent(skill.path);
    if (skill.skillType == Skill || skill.skillType == Rule) && parent.Some? && IsDir(t, parent.value) then
      RemoveDirAll(t, parent.value)
    else match RemoveFile(t, skill.path)
      case Err(e) => Err(e)
      case Ok(t1) => Prune(t1, parent)
  }

  /**
    * A successful removal takes the artifact's file away, touches nothing but
    * the file's ancestors or the folder it sat in, and keeps every directory
    * starting with '.' above that folder, such as the tool's own directory.
    */
  lemma RemoveSkillSpec(t: Tree, skill: InstalledSkill)
    requires RemoveSkillResult(t, skill).Ok?
    ensures skill.path !in RemoveSkillResult(t, skill).value
    ensures RemoveSkillResult(t, skill).value.Keys <= t.Keys
    ensures forall q :: q in t && q !in RemoveSkillResult(t, skill).value ==>
      IsPrefix(q, skill.path) || IsPrefix(skill.path[..|skill.path| - 1], q)
    ensures forall q :: q in t && Hidden(q) && IsPrefix(q, skill.path) && |q| < |skill.path| - 1 ==>
      q in RemoveSkillResult(t, skill).value
  {
    var r := RemoveSkillResult(t, skill).value;
    var parent := Parent(skill.path);
    if (skill.skillType == Skill || skill.skillType == Rule) && parent.Some? && IsDir(t, parent.value) {
      var p := skill.path;
      assert p[..|p| - 1] == parent.value;
      assert IsPrefix(parent.value, p);
      forall q | q in t && Hidden(q) && IsPrefix(q, p) && |q| < |p| - 1 ensures q in r {
        assert !IsPrefix(parent.value, q);
      }
    } else {
      var t1 := RemoveFile(t, skill.path).value;
      PruneSpec(t1, parent);
      forall q | q in t && q !in r ensures IsPrefix(q, skill.path) || IsPrefix(skill.path[..|skill.path| - 1], q) {
        if q != skill.path {
          assert q in t1;
          var up := parent.value;
          assert IsPrefix(q, up);
          assert skill.path[..|up|] == up;
        }
      }
      forall q | q in t && Hidden(q) && IsPrefix(q, skill.path) && |q| < |skill.path| - 1 ensures q in r {
        var up := parent.value;
        assert q in t1;
        assert q == up[..|q|];
      }
    }
  }

  /**
    * A skill or rule whose file sits in a directory loses that whole
    * directory and everything below it, and nothing else.
    */
  lemma RemoveSkillFolder(t: Tree, skill: InstalledSkill)
    requires skill.skillType == Skill || skill.skillType == Rule
    requires skill.path != [] && IsDir(t, skill.path[..|skill.path| - 1])
    ensures RemoveSkillResult(t, skill).Ok?
    ensures forall q :: q in RemoveSkillResult(t, skill).value <==> q in t && !IsPrefix(skill.path[..|skill.path| - 1], q)
  {
    assert Parent(skill.path) == Some(skill.path[..|skill.path| - 1]);
  }

  /**
    * Any other artifact loses its file, and then exactly the longest chain of
    * directories above it that the removal emptied, up to the first one
    * named with a leading '.' or still holding something.
    */
  lemma RemoveSkillPrunes(t: Tree, skill: InstalledSkill)
    requires RemoveSkillResult(t, skill).Ok? && skill.path != []
    requires !((skill.skillType == Skill || skill.skillType == Rule) && IsDir(t, skill.path[..|skill.path| - 1]))
    ensures IsFile(t, skill.path)
    ensures var t1, parent, r := RemoveFile(t, skill.path).value, skill.path[..|skill.path| - 1], RemoveSkillResult(t, skill).value;
      exists n: nat :: n < |skill.path| && PrunedTo(t1, parent, n, r)
  {
    var parent := skill.path[..|skill.path| - 1];
    assert Parent(skill.path) == Some(parent);
    var t1 := RemoveFile(t, skill.path).value;
    assert RemoveSkillResult(t, skill) == Prune(t1, Some(parent));
    PruneChain(t1, parent);
  }

  /** The removal with its pruning loop. */
  method RemoveSkill(t: Tree, skill: InstalledSkill) returns (r: Result<Tree, IoError>)
    ensures r == RemoveSkillResult(t, skill)
  {
    var parent := Parent(skill.path);
    if skill.skillType == Skill || skill.skillType == Rule {
      if parent.Some? && IsDir(t, parent.value) {
        return RemoveDirAll(t, parent.value);
      }
    }
    var removed := RemoveFile(t, skill.path);
    if removed.Err? {
      return Err(removed.error);
    }
    var tree := removed.value;
    var current := parent;
    while current.Some?
      invariant Prune(tree, current) == Prune(removed.value, parent)
      decreases if current.Some? then |current.value| + 1 else 0
    {
      var dir := current.value;
      var name := FileName(dir);
      if name.Some? && StartsWith(name.value, ".") {
        break;
      }
      var entries := ReadDir(tree, dir);
      if entries.Err? {
        return Err(entries.error);
      }
      if entries.value != [] {
        break;
      }
      var next := RemoveDir(tree, dir);
      if next.Err? {
        return Err(next.error);
      }
      tree := next.value;
      current := Parent(dir);
    }
    return Ok(tree);
  }
}
