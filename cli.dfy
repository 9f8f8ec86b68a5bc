/**
  * The pure helpers of the command-line front end: which tool and which
  * artifact types a command acts on, source-scoped bundle references, the
  * test that ties an installed skill to a bundle, the truncated texts shown
  * in the browser, and the conversions between Cursor rules and commands.
  */
module Cli {
  import opened Wrappers
  import opened Text
  import opened Seqs
  import opened FileTree
  import opened Bundles
  import Target
  import Discover

  // ---------------------------------------------------------------------
  // Tool and type selection

  /** The tool a command targets: `--cursor` wins over `--opencode`, which wins over `--codex`; Claude when none is given. */
  function SelectTool(cursor: bool, opencode: bool, codex: bool): (r: Target.Tool)
    ensures r == Target.Cursor <==> cursor
    ensures r == Target.OpenCode <==> !cursor && opencode
    ensures r == Target.Codex <==> !cursor && !opencode && codex
    ensures r == Target.Claude <==> !cursor && !opencode && !codex
  {
    if cursor then Target.Cursor
    else if opencode then Target.OpenCode
    else if codex then Target.Codex
    else Target.Claude
  }

  /** The `--skills-only`, `--agents-only`, `--commands-only` and `--rules-only` flags. */
  datatype TypeFlags = TypeFlags(skills: bool, agents: bool, commands: bool, rules: bool)

  predicate Flagged(f: TypeFlags, ty: SkillType) {
    match ty
    case Skill => f.skills
    case Agent => f.agents
    case Command => f.commands
    case Rule => f.rules
  }

  predicate AnyFlag(f: TypeFlags) {
    f.skills || f.agents || f.commands || f.rules
  }

  /** Position of a type in the order skill, agent, command, rule. */
  function TypeRank(ty: SkillType): nat {
    match ty
    case Skill => 0
    case Agent => 1
    case Command => 2
    case Rule => 3
  }

  /**
    * The types a command installs: exactly the flagged ones when any flag
    * is given, otherwise all four; never empty, and always in the order
    * skill, agent, command, rule without repeats.
    */
  method SelectTypes(f: TypeFlags) returns (t: seq<SkillType>)
    ensures |t| > 0
    ensures forall ty :: ty in t <==> (!AnyFlag(f) || Flagged(f, ty))
    ensures forall i, j :: 0 <= i < j < |t| ==> TypeRank(t[i]) < TypeRank(t[j])
  {
    if AnyFlag(f) {
      t := [];
      if f.skills {
        t := t + [Skill];
      }
      if f.agents {
        t := t + [Agent];
      }
      if f.commands {
        t := t + [Command];
      }
      if f.rules {
        t := t + [Rule];
      }
    } else {
      t := AllTypes;
    }
    forall ty: SkillType ensures ty in t <==> (!AnyFlag(f) || Flagged(f, ty)) {
      match ty
      case Skill =>
      case Agent =>
      case Command =>
      case Rule =>
    }
  }

  // ---------------------------------------------------------------------
  // Bundle references

  /**
    * `parse_bundle_ref`: `source/bundle` splits at the first `/` into a
    * source name and a bundle name; without a `/` the whole input is the
    * bundle (or source) name.
    */
  function ParseBundleRef(input: string): (r: (Option<string>, Option<string>))
    ensures r.1.Some?
    ensures r.0.None? <==> '/' !in input
    ensures r.0.None? ==> r.1.value == input
    ensures r.0.Some? ==> input == r.0.value + "/" + r.1.value && '/' !in r.0.value
  {
    match SplitOnce(input, '/')
    case Some((source, bundle)) => (Some(source), Some(bundle))
    case None => (None, Some(input))
  }

  /** Writing a source name without `/`, a `/` and a bundle name reads back as that pair, even when the bundle name holds further `/`. */
  lemma ParseBundleRefRoundTrip(source: string, bundle: string)
    requires '/' !in source
    ensures ParseBundleRef(source + "/" + bundle) == (Some(source), Some(bundle))
  {
    SplitOnceAt(source, '/', bundle);
  }

  // ---------------------------------------------------------------------
  // Which installed skills belong to a bundle

  /**
    * `skill_matches_bundle`: the skill records the bundle (Claude), or its
    * name is `{bundle}-...` (OpenCode and Cursor), or its name is the
    * bundle's name.
    */
  predicate SkillMatchesBundle(skill: Discover.InstalledSkill, bundleName: string) {
    skill.bundle == Some(bundleName) || StartsWith(skill.name, bundleName + "-") || skill.name == bundleName
  }

  /**
    * Every artifact installed from a bundle under its combined name, or
    * recorded with the bundle, matches that bundle; and, since the test
    * is on the name prefix, so does every artifact of a bundle whose
    * name extends `{bundle}-`.
    */
  lemma InstalledMatchesBundle(skill: Discover.InstalledSkill, bundle: string, name: string, longer: string)
    ensures skill.name == Target.CombinedName(bundle, name) ==> SkillMatchesBundle(skill, bundle)
    ensures skill.bundle == Some(bundle) ==> SkillMatchesBundle(skill, bundle)
    ensures skill.name == Target.CombinedName(bundle + "-" + longer, name) ==> SkillMatchesBundle(skill, bundle)
  {
    StartsWithAppend(bundle + "-", name);
    StartsWithAppend(bundle + "-", longer + "-" + name);
    assert bundle + "-" + longer + "-" + name == (bundle + "-") + (longer + "-" + name);
  }

  /** A flat OpenCode agent or command installed from a bundle is found again by discovery and matches that bundle. */
  lemma InstalledFlatMatchesBundle(t: Tree, base: Path, ty: SkillType, bundle: string, name: string)
    requires ty == Agent || ty == Command
    requires Discover.InstalledSkills(t, base).Ok?
    requires var dir := Discover.ToolRoot(base, Discover.OpenCode) + [if ty == Agent then "agent" else "command"];
      Exists(t, Discover.ToolRoot(base, Discover.OpenCode)) && IsDir(t, dir) &&
      Target.CombinedName(bundle, name) + ".md" in t[dir].children &&
      IsFile(t, dir + [Target.CombinedName(bundle, name) + ".md"])
    ensures exists s :: s in Discover.InstalledSkills(t, base).value && s.skillType == ty && SkillMatchesBundle(s, bundle)
  {
    Discover.FlatInstallFound(t, base, ty, bundle, name);
    var s := Discover.InstalledSkill(Target.CombinedName(bundle, name), ty, Discover.OpenCode,
      base + Target.Destination(Target.OpenCode, ty, bundle, name).value, None);
    InstalledMatchesBundle(s, bundle, name, "");
  }

  // ---------------------------------------------------------------------
  // Truncated texts in the bundle browser

  /**
    * The description shown next to a bundle: one longer than 40 bytes is
    * cut to its first 37 bytes and `...`; none when byte 37 falls inside a
    * character, where the byte slice panics.
    */
  function TruncateDescription(d: string): (r: Option<string>)
    ensures Utf8Len(d) <= 40 ==> r == Some(d)
    ensures r.Some? ==> Utf8Len(r.value) <= 40
    ensures Utf8Len(d) > 40 && r.Some? ==>
      exists p :: StartsWith(d, p) && Utf8Len(p) == 37 && r.value == p + "..."
    ensures IsAscii(d) ==> r.Some? && (|d| > 40 ==> r.value == d[..37] + "...")
  {
    if Utf8Len(d) > 40 then
      match BytePrefix(d, 37)
      case Some(p) =>
        Utf8LenAppend(p, "...");
        Some(p + "...")
      case None =>
        assert IsAscii(d) ==> |d| >= 37 by {
          if IsAscii(d) {
            AsciiUtf8Len(d);
          }
        }
        None
    else Some(d)
  }

  /**
    * The byte slice at 37 panics on a description made only of two-byte
    * characters (such as 21 times 'é', 42 bytes): every prefix of it is an
    * even number of bytes long.
    */
  lemma TruncateDescriptionPanics(d: string)
    requires |d| > 20 && forall j :: 0 <= j < |d| ==> Utf8Width(d[j]) == 2
    ensures TruncateDescription(d).None?
  {
    TwoByteUtf8Len(d);
    forall k | 0 <= k <= |d| ensures Utf8Len(d[..k]) == 2 * k {
      TwoByteUtf8Len(d[..k]);
    }
  }

  /**
    * The truncation cut at the last character boundary before byte 37: it
    * never fails, keeps the 40-byte bound, and agrees with the byte slice
    * wherever that one does not panic.
    */
  function TruncateDescriptionAtBoundary(d: string): (r: string)
    ensures Utf8Len(d) <= 40 ==> r == d
    ensures Utf8Len(r) <= 40
    ensures Utf8Len(d) > 40 ==>
      EndsWith(r, "...") && StartsWith(d, r[..|r| - 3]) && 34 <= Utf8Len(r[..|r| - 3]) <= 37
    ensures TruncateDescription(d).Some? ==> r == TruncateDescription(d).value
  {
    if Utf8Len(d) > 40 then
      var p := FloorPrefix(d, 37);
      Utf8LenAppend(p, "...");
      assert (p + "...")[..|p|] == p;
      assert (p + "...")[|p|..] == "...";
      assert BytePrefix(d, 37).Some? ==> p == BytePrefix(d, 37).value by {
        if BytePrefix(d, 37).Some? {
          FloorPrefixAgrees(d, 37);
        }
      }
      p + "..."
    else d
  }

  /** A line is a preview candidate when it is not blank, not a `---` fence, and is a heading or has no `:`. */
  predicate Shown(line: string) {
    Trim(line) != [] && !StartsWith(line, "---") && (':' !in line || StartsWith(line, "#"))
  }

  /**
    * A stripped preview line longer than 50 bytes: `- `, its first 47 bytes
    * and `...`; none when byte 47 falls inside a character.
    */
  function CutPreviewLine(t: string): (r: Option<string>)
    requires Utf8Len(t) > 50
    ensures r.Some? ==> StartsWith(r.value, "- ") && Utf8Len(r.value) <= 52
    ensures r.Some? ==> exists p :: StartsWith(t, p) && Utf8Len(p) == 47 && r.value == "- " + (p + "...")
    ensures IsAscii(t) ==> |t| > 50 && r == Some("- " + (t[..47] + "..."))
  {
    assert IsAscii(t) ==> |t| > 50 by {
      if IsAscii(t) {
        AsciiUtf8Len(t);
      }
    }
    match BytePrefix(t, 47)
    case Some(p) =>
      Bulleted(p + "...");
      Utf8LenAppend(p, "...");
      Some("- " + (p + "..."))
    case None => None
  }

  /**
    * A candidate line as previewed: leading `#`s and surrounding blanks
    * removed, then `- `; a longer one is cut as CutPreviewLine says.
    */
  function PreviewLine(line: string): (r: Option<string>)
    ensures r.Some? ==> StartsWith(r.value, "- ") && Utf8Len(r.value) <= 52
    ensures Utf8Len(Trim(TrimStartChar(line, '#'))) <= 50 ==> r == Some("- " + Trim(TrimStartChar(line, '#')))
    ensures var t := Trim(TrimStartChar(line, '#'));
      Utf8Len(t) > 50 && r.Some? ==> exists p :: StartsWith(t, p) && Utf8Len(p) == 47 && r.value == "- " + (p + "...")
    ensures var t := Trim(TrimStartChar(line, '#'));
      IsAscii(t) ==> r.Some? && (|t| > 50 ==> r.value == "- " + (t[..47] + "..."))
  {
    var t := Trim(TrimStartChar(line, '#'));
    if Utf8Len(t) > 50 then
      CutPreviewLine(t)
    else
      Bulleted(t);
      Some("- " + t)
  }

  lemma BulletedCut(p: string)
    ensures var r := "- " + (p + "...");
      StartsWith(r, "- ") && EndsWith(r, "...") && r[2..|r| - 3] == p && Utf8Len(r) == Utf8Len(p) + 5
  {
    Bulleted(p + "...");
    Utf8LenAppend(p, "...");
    assert ("- " + (p + "..."))[2..|p| + 2] == p;
    assert ("- " + (p + "..."))[|p| + 2..] == "...";
  }

  /** `r` is a bullet holding between 44 and 47 bytes from the start of `t`, then `...`. */
  predicate CutPreviewOf(t: string, r: string) {
    |r| >= 5 && StartsWith(r, "- ") && EndsWith(r, "...") &&
    StartsWith(t, r[2..|r| - 3]) && 44 <= Utf8Len(r[2..|r| - 3]) <= 47
  }

  /** A line longer than 50 bytes is cut to between 44 and 47 of its bytes, then `...`. */
  lemma PreviewCut(t: string)
    requires Utf8Len(t) > 50
    ensures Utf8Len("- " + (FloorPrefix(t, 47) + "...")) <= 52
    ensures CutPreviewOf(t, "- " + (FloorPrefix(t, 47) + "..."))
  {
    var p := FloorPrefix(t, 47);
    BulletedCut(p);
  }

  /** The byte slice at 47 panics on a line of more than 25 times 'é': every prefix of it is an even number of bytes long. */
  lemma PreviewLinePanics(line: string)
    requires |line| > 25 && forall j :: 0 <= j < |line| ==> line[j] == 'é'
    ensures PreviewLine(line).None?
  {
    assert TrimStartChar(line, '#') == line;
    assert TrimStart(line) == line;
    assert TrimEnd(line) == line;
    TwoByteUtf8Len(line);
    forall k | 0 <= k <= |line| ensures Utf8Len(line[..k]) == 2 * k {
      TwoByteUtf8Len(line[..k]);
    }
  }

  /**
    * The preview line cut at the last character boundary before byte 47: it
    * never fails, keeps the 52-byte bound, and agrees with the byte slice
    * wherever that one does not panic.
    */
  function PreviewLineAtBoundary(line: string): (r: string)
    ensures StartsWith(r, "- ") && Utf8Len(r) <= 52
    ensures Utf8Len(Trim(TrimStartChar(line, '#'))) <= 50 ==> r == "- " + Trim(TrimStartChar(line, '#'))
    ensures Utf8Len(Trim(TrimStartChar(line, '#'))) > 50 ==> CutPreviewOf(Trim(TrimStartChar(line, '#')), r)
  {
    var t := Trim(TrimStartChar(line, '#'));
    if Utf8Len(t) > 50 then
      PreviewCut(t);
      "- " + (FloorPrefix(t, 47) + "...")
    else
      Bulleted(t);
      "- " + t
  }

  /** Wherever the byte slice does not panic, cutting at the boundary gives the same line. */
  lemma PreviewLineAgrees(line: string)
    requires PreviewLine(line).Some?
    ensures PreviewLineAtBoundary(line) == PreviewLine(line).value
  {
    var t := Trim(TrimStartChar(line, '#'));
    if Utf8Len(t) > 50 {
      FloorPrefixAgrees(t, 47);
    }
  }

  lemma Bulleted(t: string)
    ensures StartsWith("- " + t, "- ") && Utf8Len("- " + t) == Utf8Len(t) + 2
  {
    Utf8LenAppend("- ", t);
    StartsWithAppend("- ", t);
  }

  /**
    * `get_file_preview`, given the file's text or none when it cannot be
    * read: the preview of the first candidate line, cut at a character
    * boundary, or the empty text when the file cannot be read or has no
    * candidate line.
    */
  function Preview(content: Option<string>): (r: string)
    ensures r == "" <==> content.None? || forall i :: 0 <= i < |Lines(content.value)| ==> !Shown(Lines(content.value)[i])
    ensures r != "" ==> StartsWith(r, "- ") && Utf8Len(r) <= 52
    ensures r != "" ==> exists i :: (0 <= i < |Lines(content.value)| && Shown(Lines(content.value)[i]) &&
      (forall j :: 0 <= j < i ==> !Shown(Lines(content.value)[j])) &&
      r == PreviewLineAtBoundary(Lines(content.value)[i]))
  {
    if content.None? then ""
    else
      var ls := Lines(content.value);
      var first := First(ls, Shown);
      if first.None? then ""
      else
        var r := PreviewLineAtBoundary(first.value);
        assert |r| >= 2;
        r
  }

  // ---------------------------------------------------------------------
  // Converting between Cursor rules and commands

  /** The text starts with a `---` line. */
  predicate HasFrontmatter(content: string) {
    |Lines(content)| > 0 && Lines(content)[0] == "---"
  }

  /** The file stem of the source path, or `converted-rule` when the path has no file name. */
  function StemOf(sourcePath: Path): string {
    if sourcePath == [] || sourcePath[|sourcePath| - 1] == ".." then "converted-rule"
    else Stem(sourcePath[|sourcePath| - 1])
  }

  /** The rule's title: the first line without its leading `#`s and surrounding blanks when it is a heading, else the file stem. */
  function RuleTitle(content: string, sourcePath: Path): string {
    var lines := Lines(content);
    if |lines| > 0 && StartsWith(lines[0], "#") then Trim(TrimStartChar(lines[0], '#')) else StemOf(sourcePath)
  }

  /** The lines of the frontmatter a converted rule gets, the last one empty. */
  function RuleHeader(title: string): seq<string> {
    ["---", "description: \"" + title + "\"", "alwaysApply: false", "---", ""]
  }

  /** The frontmatter text a converted rule starts with. */
  function RuleHeaderText(title: string): string {
    "---\n" + "description: \"" + title + "\"\n" + "alwaysApply: false\n" + "---\n" + "\n"
  }

  /** What `convert_to_rule` returns: the text as it is when it has frontmatter, else the rule header and then the text. */
  function RuleOf(content: string, sourcePath: Path): string {
    if HasFrontmatter(content) then content
    else RuleHeaderText(RuleTitle(content, sourcePath)) + content
  }

  /** `convert_to_rule`: the early return for frontmatter, then the header pushed line by line and the text. */
  method ConvertToRule(content: string, sourcePath: Path) returns (r: string)
    ensures r == RuleOf(content, sourcePath)
  {
    var lines := Lines(content);
    if |lines| > 0 && lines[0] == "---" {
      return content;
    }
    var title := RuleTitle(content, sourcePath);
    r := "---\n";
    r := r + "description: \"" + title + "\"\n";
    r := r + "alwaysApply: false\n";
    r := r + "---\n";
    r := r + "\n";
    r := r + content;
  }

  /** The header text is the header lines, each followed by '\n'. */
  lemma HeaderText(title: string)
    ensures JoinTerminated(RuleHeader(title)) == RuleHeaderText(title)
  {
    var h := RuleHeader(title);
    var d := "description: \"" + title + "\"";
    assert h[4..] == [""];
    assert JoinTerminated(h[4..]) == "\n";
    assert h[3..] == ["---"] + h[4..];
    assert JoinTerminated(h[3..]) == "---" + "\n" + "\n";
    assert h[2..] == ["alwaysApply: false"] + h[3..];
    assert JoinTerminated(h[2..]) == "alwaysApply: false" + "\n" + ("---" + "\n" + "\n");
    assert h[1..] == [d] + h[2..];
    assert JoinTerminated(h[1..]) == d + "\n" + JoinTerminated(h[2..]);
    assert JoinTerminated(h) == "---" + "\n" + JoinTerminated(h[1..]);
  }

  /** A title taken from a heading has no line break in it. */
  lemma TitleNoNewline(content: string, sourcePath: Path)
    requires NoNewline(StemOf(sourcePath))
    ensures NoNewline(RuleTitle(content, sourcePath))
  {
    var lines := Lines(content);
    if |lines| > 0 && StartsWith(lines[0], "#") {
      LinesHaveNoNewline(content);
      assert NoNewline(lines[0]);
      var a := TrimStartChar(lines[0], '#');
      NoNewlineSlice(lines[0], |lines[0]| - |a|, |lines[0]|);
      var b := TrimStart(a);
      NoNewlineSlice(a, |a| - |b|, |a|);
      var c := TrimEnd(b);
      NoNewlineSlice(b, 0, |c|);
      assert RuleTitle(content, sourcePath) == c;
    }
  }

  /** The lines of a converted rule are its header's and then the text's. */
  lemma RuleLines(content: string, sourcePath: Path)
    requires !HasFrontmatter(content)
    requires NoNewline(StemOf(sourcePath))
    ensures Lines(RuleOf(content, sourcePath)) == RuleHeader(RuleTitle(content, sourcePath)) + Lines(content)
  {
    var title := RuleTitle(content, sourcePath);
    TitleNoNewline(content, sourcePath);
    DescriptionLine(title);
    HeaderText(title);
    LinesAfterJoinTerminated(RuleHeader(title), content);
  }

  /** The description line is a single line not ending in '\r'. */
  lemma DescriptionLine(title: string)
    requires NoNewline(title)
    ensures var h := RuleHeader(title);
      forall i :: 0 <= i < |h| ==> NoNewline(h[i]) && !EndsWithCr(h[i])
  {
    var d := "description: \"" + title + "\"";
    forall j | 0 <= j < |d| ensures d[j] != '\n' {
      if 14 <= j < 14 + |title| {
        assert d[j] == title[j - 14];
      }
    }
    assert d[|d| - 1] == '"';
  }

  /** A converted rule's first line is the opening fence. */
  lemma RuleStartsWithFence(title: string, content: string)
    ensures StartsWith(RuleHeaderText(title) + content, "---\n")
    ensures HasFrontmatter(RuleHeaderText(title) + content)
  {
    var r := RuleHeaderText(title) + content;
    var rest := r[4..];
    assert r[..4] == "---\n";
    assert r == "---" + "\n" + rest;
    LinesCons("---", rest);
  }

  /**
    * A converted rule starts with `---`, then `description: "title"` with
    * the title from the heading or the file stem, then
    * `alwaysApply: false`, `---` and an empty line, and ends with the
    * original text; so converting it again changes nothing.
    */
  lemma RuleOfSpec(content: string, sourcePath: Path)
    ensures HasFrontmatter(content) ==> RuleOf(content, sourcePath) == content
    ensures !HasFrontmatter(content) ==>
      StartsWith(RuleOf(content, sourcePath), "---\n") && EndsWith(RuleOf(content, sourcePath), content)
    ensures !HasFrontmatter(content) && NoNewline(StemOf(sourcePath)) ==>
      |Lines(RuleOf(content, sourcePath))| > 1 &&
      Lines(RuleOf(content, sourcePath))[1] == "description: \"" + RuleTitle(content, sourcePath) + "\""
    ensures HasFrontmatter(RuleOf(content, sourcePath))
    ensures RuleOf(RuleOf(content, sourcePath), sourcePath) == RuleOf(content, sourcePath)
  {
    if !HasFrontmatter(content) {
      var title := RuleTitle(content, sourcePath);
      var r := RuleHeaderText(title) + content;
      RuleStartsWithFence(title, content);
      assert r[|r| - |content|..] == content;
      if NoNewline(StemOf(sourcePath)) {
        RuleLines(content, sourcePath);
      }
    }
  }

  /** The first `---` line at or after `from`. */
  function ClosingFence(lines: seq<string>, from: nat): (r: Option<nat>)
    ensures r.None? ==> forall j :: from <= j < |lines| ==> lines[j] != "---"
    ensures r.Some? ==> (from <= r.value < |lines| && lines[r.value] == "---" &&
      forall j :: from <= j < r.value ==> lines[j] != "---")
    decreases |lines| - from
  {
    if from >= |lines| then None
    else if lines[from] == "---" then Some(from)
    else ClosingFence(lines, from + 1)
  }

  /**
    * What `convert_to_command` returns: for a text opening with a `---`
    * line whose block is closed by a later `---` line and followed by at
    * least one line, those following lines joined by `\n` with leading
    * blanks removed; otherwise the text as it is.
    */
  function CommandOf(content: string): string {
    var lines := Lines(content);
    if |lines| > 0 && lines[0] == "---" then
      match ClosingFence(lines, 1)
      case Some(k) => if k + 1 < |lines| then TrimStart(Join(lines[k + 1..], "\n")) else content
      case None => content
    else content
  }

  /** `convert_to_command`: the scan for the closing fence, tracking whether the block is open. */
  method ConvertToCommand(content: string) returns (r: string)
    ensures r == CommandOf(content)
  {
    var lines := Lines(content);
    if !(|lines| > 0 && lines[0] == "---") {
      return content;
    }
    var inFrontmatter := false;
    var endIdx := 0;
    var i := 0;
    while i < |lines| && endIdx == 0
      invariant 0 <= i <= |lines|
      invariant inFrontmatter <==> i > 0
      invariant endIdx == 0 ==> forall j :: 1 <= j < i ==> lines[j] != "---"
      invariant endIdx != 0 ==> ClosingFence(lines, 1) == Some(endIdx - 1)
    {
      if lines[i] == "---" {
        if inFrontmatter {
          endIdx := i + 1;
        } else {
          inFrontmatter := true;
        }
      }
      i := i + 1;
    }
    if endIdx > 0 && endIdx < |lines| {
      r := TrimStart(Join(lines[endIdx..], "\n"));
    } else {
      r := content;
    }
  }

  /** In a converted rule the block opened on line 0 is closed on line 3. */
  lemma HeaderFence(title: string, body: seq<string>)
    ensures ClosingFence(RuleHeader(title) + body, 1) == Some(3)
  {
    var lines := RuleHeader(title) + body;
    assert lines[1][0] == 'd';
    assert lines[2][0] == 'a';
    assert lines[3] == "---";
  }

  /** An empty first line joined on with `\n` is removed by trimming along with the leading blanks. */
  lemma TrimStartEmptyFirst(body: seq<string>)
    ensures TrimStart(Join([""] + body, "\n")) == TrimStart(Join(body, "\n"))
  {
    if body == [] {
      assert Join([""] + body, "\n") == "";
    } else {
      var rest := Join(body, "\n");
      assert ([""] + body)[1..] == body;
      assert Join([""] + body, "\n") == "" + "\n" + rest;
      assert ("" + "\n" + rest)[1..] == rest;
    }
  }

  /** Converting a text to a rule and the rule back to a command gives the text's lines again, joined by `\n`, with leading blanks removed. */
  lemma RuleThenCommand(content: string, sourcePath: Path)
    requires !HasFrontmatter(content)
    requires NoNewline(StemOf(sourcePath))
    ensures CommandOf(RuleOf(content, sourcePath)) == TrimStart(Join(Lines(content), "\n"))
  {
    var title := RuleTitle(content, sourcePath);
    var body := Lines(content);
    RuleLines(content, sourcePath);
    HeaderFence(title, body);
    HeaderThenBody(title, body);
    CommandAfterFence(RuleOf(content, sourcePath), RuleHeader(title) + body, 3);
    TrimStartEmptyFirst(body);
  }

  lemma HeaderThenBody(title: string, body: seq<string>)
    ensures var lines := RuleHeader(title) + body;
      |lines| > 4 && lines[0] == "---" && lines[4..] == [""] + body
  {
    var lines := RuleHeader(title) + body;
    assert lines[4..] == [""] + body;
  }

  /** A text whose lines open a block closed at line `k` becomes the trimmed lines after `k`. */
  lemma CommandAfterFence(c: string, lines: seq<string>, k: nat)
    requires Lines(c) == lines && |lines| > k + 1 && lines[0] == "---"
    requires ClosingFence(lines, 1) == Some(k)
    ensures CommandOf(c) == TrimStart(Join(lines[k + 1..], "\n"))
  {
  }
}
