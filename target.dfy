/**
  * Where each tool keeps installed artifacts, the short description of that
  * place shown to the user, and the frontmatter rewrite applied to skills
  * installed for OpenCode and Cursor.
  */
module Target {
  import opened Wrappers
  import opened Text
  import opened FileTree
  import opened Bundles

  /** The AI coding tools artifacts are installed for. */
  datatype Tool = Claude | OpenCode | Cursor | Codex

  /** The `{bundle}-{name}` name OpenCode and Cursor give an installed artifact. */
  function CombinedName(bundle: string, name: string): string {
    bundle + "-" + name
  }

  /**
    * The file an artifact of type `ty` named `name` from bundle `bundle` is
    * written to, relative to the install target. `None` is a combination no
    * layout exists for: rules for OpenCode, and anything for Codex.
    */
  function Destination(tool: Tool, ty: SkillType, bundle: string, name: string): Option<Path> {
    match tool
    case Claude => Some([".claude", DirName(ty), bundle, name + ".md"])
    case OpenCode =>
      (match ty
       case Skill => Some([".opencode", "skill", CombinedName(bundle, name), "SKILL.md"])
       case Agent => Some([".opencode", "agent", CombinedName(bundle, name) + ".md"])
       case Command => Some([".opencode", "command", CombinedName(bundle, name) + ".md"])
       case Rule => None)
    case Cursor =>
      if ty == Skill then Some([".cursor", "skills", CombinedName(bundle, name), "SKILL.md"])
      else Some([".cursor", "rules", CombinedName(bundle, name) + ".mdc"])
    case Codex => None
  }

  /** Every supported destination lies under the tool's own dot-directory. */
  lemma DestinationUnderToolDir(tool: Tool, ty: SkillType, bundle: string, name: string)
    requires Destination(tool, ty, bundle, name).Some?
    ensures var p := Destination(tool, ty, bundle, name).value;
      |p| >= 3 &&
      p[0] == (match tool case Claude => ".claude" case OpenCode => ".opencode" case _ => ".cursor")
    ensures Destination(tool, ty, bundle, name).Some? <==>
      (tool == Claude || tool == Cursor || (tool == OpenCode && ty != Rule))
  {
  }

  /** Two artifacts of one type from one bundle land in different files exactly when their names differ. */
  lemma DestinationInjective(tool: Tool, ty: SkillType, bundle: string, n1: string, n2: string)
    requires Destination(tool, ty, bundle, n1).Some?
    ensures Destination(tool, ty, bundle, n1) == Destination(tool, ty, bundle, n2) <==> n1 == n2
  {
    if Destination(tool, ty, bundle, n1) == Destination(tool, ty, bundle, n2) {
      var p1, p2 := Destination(tool, ty, bundle, n1).value, Destination(tool, ty, bundle, n2).value;
      var last := |p1| - 1;
      if tool == Claude {
        assert p1[last][..|n1|] == n1 && p2[last][..|n2|] == n2;
        assert |n1| == |n2|;
      } else {
        var k := if (tool == OpenCode || tool == Cursor) && ty == Skill then 2 else last;
        assert p1[k][|bundle| + 1..|bundle| + 1 + |n1|] == n1;
        assert p2[k][|bundle| + 1..|bundle| + 1 + |n2|] == n2;
        assert |p1[k]| == |p2[k]|;
      }
    }
  }

  /** The destination shown to the user before installing; `None` where no layout exists. */
  function DestInfo(tool: Tool, ty: SkillType, bundle: string): Option<string> {
    match tool
    case Claude => Some(".claude/" + DirName(ty) + "/" + bundle + "/")
    case OpenCode =>
      (match ty
       case Skill => Some(".opencode/skill/" + bundle + "-*/")
       case Agent => Some(".opencode/agent/")
       case Command => Some(".opencode/command/")
       case Rule => None)
    case Cursor =>
      if ty == Skill then Some(".cursor/skills/" + bundle + "-*/") else Some(".cursor/rules/")
    case Codex => None
  }

  /** A displayed destination with its trailing wildcard (a `*` then a slash) cut off. */
  function InfoPrefix(info: string): string {
    if EndsWith(info, "*/") then info[..|info| - 2] else info
  }

  lemma RenderFour(a: string, b: string, c: string, d: string)
    ensures Render([a, b, c, d]) == a + "/" + b + "/" + c + "/" + d
  {
    calc {
      Render([a, b, c, d]);
      a + "/" + Join([b, c, d], "/");
      { assert [a, b, c, d][1..] == [b, c, d]; }
      a + "/" + (b + "/" + Join([c, d], "/"));
      { assert [b, c, d][1..] == [c, d]; }
      a + "/" + (b + "/" + (c + "/" + Join([d], "/")));
      { assert [c, d][1..] == [d]; }
      a + "/" + b + "/" + c + "/" + d;
    }
  }

  lemma RenderThree(a: string, b: string, c: string)
    ensures Render([a, b, c]) == a + "/" + b + "/" + c
  {
    calc {
      Render([a, b, c]);
      a + "/" + Join([b, c], "/");
      { assert [a, b, c][1..] == [b, c]; }
      a + "/" + (b + "/" + Join([c], "/"));
      { assert [b, c][1..] == [c]; }
      a + "/" + b + "/" + c;
    }
  }

  lemma InfoPrefixOf(s: string, info: string)
    requires StartsWith(s, info)
    ensures StartsWith(s, InfoPrefix(info))
  {
    if EndsWith(info, "*/") {
      StartsWithAppend(InfoPrefix(info), "*/");
      assert InfoPrefix(info) + "*/" == info;
      StartsWithTrans(s, info, InfoPrefix(info));
    }
  }

  lemma ClaudeInfo(ty: SkillType, bundle: string, name: string)
    ensures StartsWith(Render(Destination(Claude, ty, bundle, name).value), DestInfo(Claude, ty, bundle).value)
  {
    var info := DestInfo(Claude, ty, bundle).value;
    RenderFour(".claude", DirName(ty), bundle, name + ".md");
    assert ".claude" + "/" + DirName(ty) + "/" + bundle + "/" + (name + ".md") == info + (name + ".md");
    StartsWithAppend(info, name + ".md");
  }

  lemma SkillInfo(tool: Tool, bundle: string, name: string)
    requires tool == OpenCode || tool == Cursor
    ensures StartsWith(Render(Destination(tool, Skill, bundle, name).value), InfoPrefix(DestInfo(tool, Skill, bundle).value))
  {
    var root, sub := if tool == OpenCode then ".opencode" else ".cursor", if tool == OpenCode then "skill" else "skills";
    var pre := root + "/" + sub + "/" + bundle + "-";
    var info := DestInfo(tool, Skill, bundle).value;
    assert info == pre + "*/";
    assert EndsWith(info, "*/") by {
      assert info[|info| - 2..] == "*/";
    }
    assert info[..|info| - 2] == pre;
    RenderFour(root, sub, CombinedName(bundle, name), "SKILL.md");
    assert root + "/" + sub + "/" + CombinedName(bundle, name) + "/" + "SKILL.md" == pre + (name + "/SKILL.md");
    StartsWithAppend(pre, name + "/SKILL.md");
  }

  lemma FlatInfo(tool: Tool, ty: SkillType, bundle: string, name: string)
    requires (tool == OpenCode && (ty == Agent || ty == Command)) || (tool == Cursor && ty != Skill)
    ensures StartsWith(Render(Destination(tool, ty, bundle, name).value), DestInfo(tool, ty, bundle).value)
  {
    var p := Destination(tool, ty, bundle, name).value;
    var info := DestInfo(tool, ty, bundle).value;
    RenderThree(p[0], p[1], p[2]);
    assert info == p[0] + "/" + p[1] + "/";
    StartsWithAppend(info, p[2]);
  }

  /**
    * The displayed destination describes the real one: it is shown exactly
    * when a destination exists, and the written file's path starts with it
    * (up to the `*` standing for the artifact name).
    */
  lemma DestInfoDescribesDestination(tool: Tool, ty: SkillType, bundle: string, name: string)
    ensures DestInfo(tool, ty, bundle).Some? <==> Destination(tool, ty, bundle, name).Some?
    ensures DestInfo(tool, ty, bundle).Some? ==>
      StartsWith(Render(Destination(tool, ty, bundle, name).value), InfoPrefix(DestInfo(tool, ty, bundle).value))
  {
    if tool == Claude {
      ClaudeInfo(ty, bundle, name);
      InfoPrefixOf(Render(Destination(tool, ty, bundle, name).value), DestInfo(tool, ty, bundle).value);
    } else if (tool == OpenCode || tool == Cursor) && ty == Skill {
      SkillInfo(tool, bundle, name);
    } else if DestInfo(tool, ty, bundle).Some? {
      FlatInfo(tool, ty, bundle, name);
      InfoPrefixOf(Render(Destination(tool, ty, bundle, name).value), DestInfo(tool, ty, bundle).value);
    }
  }

  // ---------------------------------------------------------------------
  // Frontmatter rewrite
  // ---------------------------------------------------------------------

  /**
    * Whether the frontmatter body `ls` (the lines after the opening `---`)
    * has a line starting with `name:` before the closing `---`.
    */
  function NameInBlock(ls: seq<string>): bool {
    if ls == [] then false
    else if ls[0] == "---" then false
    else if StartsWith(ls[0], "name:") then true
    else NameInBlock(ls[1..])
  }

  /** NameInBlock, stated without recursion: some `name:` line comes before every `---` line. */
  lemma {:induction false} NameInBlockIff(ls: seq<string>)
    ensures NameInBlock(ls) <==>
      exists i :: (0 <= i < |ls| && StartsWith(ls[i], "name:") &&
                   forall j :: 0 <= j < i ==> ls[j] != "---")
  {
    if ls != [] {
      NameInBlockIff(ls[1..]);
      if ls[0] != "---" && !StartsWith(ls[0], "name:") {
        if NameInBlock(ls[1..]) {
          var i :| 0 <= i < |ls[1..]| && StartsWith(ls[1..][i], "name:") &&
                   forall j :: 0 <= j < i ==> ls[1..][j] != "---";
          assert forall j :: 0 <= j < i + 1 ==> ls[j] != "---" by {
            forall j | 0 <= j < i + 1 ensures ls[j] != "---" {
              if j > 0 { assert ls[j] == ls[1..][j - 1]; }
            }
          }
          assert StartsWith(ls[i + 1], "name:");
        }
        if exists i :: (0 <= i < |ls| && StartsWith(ls[i], "name:") &&
                        forall j :: 0 <= j < i ==> ls[j] != "---") {
          var i :| 0 <= i < |ls| && StartsWith(ls[i], "name:") &&
                   forall j :: 0 <= j < i ==> ls[j] != "---";
          assert i > 0;
          assert forall j :: 0 <= j < i - 1 ==> ls[1..][j] != "---" by {
            forall j | 0 <= j < i - 1 ensures ls[1..][j] != "---" {
              assert ls[1..][j] == ls[j + 1];
            }
          }
          assert StartsWith(ls[1..][i - 1], "name:");
        }
      } else if StartsWith(ls[0], "name:") {
        assert ls[0] != "---";
      }
    }
  }

  /** `---`, then `name: {skill}`, each ended by '\n', then `rest`. */
  function NamedHeader(skillName: string, rest: string): string {
    "---\n" + "name: " + skillName + "\n" + rest
  }

  /**
    * The rewritten skill file: unchanged when its frontmatter already names
    * the skill; the `name:` line inserted after the opening `---` (every
    * other line re-terminated by '\n') when the frontmatter has none; a new
    * frontmatter block put in front when the file has none.
    */
  function TransformSkill(content: string, skillName: string): string {
    var ls := Lines(content);
    if |ls| > 0 && ls[0] == "---" then
      if NameInBlock(ls[1..]) then content
      else NamedHeader(skillName, JoinTerminated(ls[1..]))
    else NamedHeader(skillName, "---\n" + content)
  }

  /**
    * `transform_skill_file` on the file's content: the flag loop that looks
    * for `name:` inside the frontmatter, then the loop that rebuilds the
    * text line by line.
    */
  method TransformSkillFile(content: string, skillName: string) returns (output: string)
    ensures output == TransformSkill(content, skillName)
  {
    var lines := Lines(content);
    if |lines| > 0 && lines[0] == "---" {
      var inFrontmatter := false;
      var hasName := false;
      var i := 0;
      while i < |lines|
        invariant 0 <= i <= |lines|
        invariant inFrontmatter <==> i > 0
        invariant !hasName
        invariant i > 0 ==> NameInBlock(lines[1..]) == NameInBlock(lines[i..])
      {
        if lines[i] == "---" {
          if inFrontmatter {
            break;
          }
          inFrontmatter := true;
          i := i + 1;
          continue;
        }
        if inFrontmatter && StartsWith(lines[i], "name:") {
          hasName := true;
          break;
        }
        assert lines[i..][1..] == lines[i + 1..];
        i := i + 1;
      }
      assert hasName == NameInBlock(lines[1..]);
      if hasName {
        output := content;
      } else {
        output := "---\n";
        output := output + "name: " + skillName + "\n";
        for j := 1 to |lines|
          invariant output == NamedHeader(skillName, JoinTerminated(lines[1..j]))
        {
          JoinTerminatedSnoc(lines[1..j], lines[j]);
          assert lines[1..j + 1] == lines[1..j] + [lines[j]];
          output := output + lines[j] + "\n";
        }
        assert lines[1..|lines|] == lines[1..];
      }
    } else {
      output := "---\n";
      output := output + "name: " + skillName + "\n";
      output := output + "---\n";
      output := output + content;
    }
  }

  /** The `name:` line of a header is one line when the skill name has no line break in it. */
  lemma NameLineIsLine(skillName: string)
    requires NoNewline(skillName) && !EndsWithCr(skillName)
    ensures NoNewline("name: " + skillName) && !EndsWithCr("name: " + skillName)
  {
    var nameLine := "name: " + skillName;
    forall j | 0 <= j < |nameLine| ensures nameLine[j] != '\n' {
      if j >= 6 { assert nameLine[j] == skillName[j - 6]; }
    }
    if skillName == [] {
      assert nameLine == "name: ";
    } else {
      assert nameLine[|nameLine| - 1] == skillName[|skillName| - 1];
    }
  }

  lemma NamedHeaderSplit(skillName: string, rest: string)
    ensures NamedHeader(skillName, rest) == "---" + "\n" + (("name: " + skillName) + "\n" + rest)
  {
    assert "---\n" == "---" + "\n";
  }

  /** The lines of a header: `---`, the `name:` line, then the lines of what follows it. */
  lemma NamedHeaderLines(skillName: string, rest: string)
    requires NoNewline(skillName) && !EndsWithCr(skillName)
    ensures Lines(NamedHeader(skillName, rest)) == ["---", "name: " + skillName] + Lines(rest)
  {
    NameLineIsLine(skillName);
    NamedHeaderSplit(skillName, rest);
    LinesCons("name: " + skillName, rest);
    LinesCons("---", ("name: " + skillName) + "\n" + rest);
  }

  /** Text without frontmatter gets a three-line block naming the skill, and its own lines follow unchanged. */
  lemma TransformAddsBlock(content: string, skillName: string)
    requires !(|Lines(content)| > 0 && Lines(content)[0] == "---")
    requires NoNewline(skillName) && !EndsWithCr(skillName)
    ensures Lines(TransformSkill(content, skillName)) == ["---", "name: " + skillName, "---"] + Lines(content)
  {
    var rest := "---\n" + content;
    assert Lines(rest) == ["---"] + Lines(content) by {
      assert rest == "---" + "\n" + content;
      LinesCons("---", content);
    }
    assert Lines(NamedHeader(skillName, rest)) == ["---", "name: " + skillName] + Lines(rest) by {
      NamedHeaderLines(skillName, rest);
    }
    assert TransformSkill(content, skillName) == NamedHeader(skillName, rest);
    assert ["---", "name: " + skillName] + (["---"] + Lines(content)) == ["---", "name: " + skillName, "---"] + Lines(content);
  }

  /** The original text is the tail of the text with a block put in front. */
  lemma TransformKeepsBody(content: string, skillName: string)
    requires !(|Lines(content)| > 0 && Lines(content)[0] == "---")
    ensures EndsWith(TransformSkill(content, skillName), content)
  {
    var head := "---\n" + "name: " + skillName + "\n";
    var r := TransformSkill(content, skillName);
    assert r == head + ("---\n" + content);
    assert r == (head + "---\n") + content;
    assert r[|r| - |content|..] == content;
  }

  /** A file whose frontmatter has a `name:` line is written back byte for byte. */
  lemma TransformKeepsNamed(content: string, skillName: string, i: nat)
    requires |Lines(content)| > 0 && Lines(content)[0] == "---"
    requires 1 <= i < |Lines(content)| && StartsWith(Lines(content)[i], "name:")
    requires forall j :: 1 <= j < i ==> Lines(content)[j] != "---"
    ensures TransformSkill(content, skillName) == content
  {
    var ls := Lines(content);
    NameInBlockIff(ls[1..]);
    assert StartsWith(ls[1..][i - 1], "name:");
    assert forall j :: 0 <= j < i - 1 ==> ls[1..][j] != "---" by {
      forall j | 0 <= j < i - 1 ensures ls[1..][j] != "---" {
        assert ls[1..][j] == ls[j + 1];
      }
    }
  }

  /**
    * A file whose frontmatter has no `name:` line before its closing `---`
    * gets `name: {skill}` as its second line, and every other line is kept
    * in order; a `name:` line in the body after the block does not count.
    */
  lemma TransformInsertsName(content: string, skillName: string, k: nat)
    requires |Lines(content)| > 0 && Lines(content)[0] == "---"
    requires 1 <= k <= |Lines(content)|
    requires k < |Lines(content)| ==> Lines(content)[k] == "---"
    requires forall j :: 1 <= j < k ==> !StartsWith(Lines(content)[j], "name:")
    requires forall j :: 1 <= j < |Lines(content)| ==> !EndsWithCr(Lines(content)[j])
    requires NoNewline(skillName) && !EndsWithCr(skillName)
    ensures Lines(TransformSkill(content, skillName)) == ["---", "name: " + skillName] + Lines(content)[1..]
  {
    var ls := Lines(content);
    NoNameBeforeClose(ls[1..], k - 1);
    LinesHaveNoNewline(content);
    forall i | 0 <= i < |ls[1..]| ensures NoNewline(ls[1..][i]) && !EndsWithCr(ls[1..][i]) {
      assert ls[1..][i] == ls[i + 1];
    }
    LinesOfJoinTerminated(ls[1..]);
    NamedHeaderLines(skillName, JoinTerminated(ls[1..]));
  }

  /** A block whose first `---` line (or end) comes before any `name:` line has no name. */
  lemma {:induction false} NoNameBeforeClose(ls: seq<string>, k: nat)
    requires k <= |ls|
    requires k < |ls| ==> ls[k] == "---"
    requires forall j :: 0 <= j < k ==> !StartsWith(ls[j], "name:")
    ensures !NameInBlock(ls)
  {
    if ls != [] && k > 0 {
      NoNameBeforeClose(ls[1..], k - 1);
    }
  }

  /** Text made of an opening `---` line and then a `name:` line has a frontmatter name. */
  lemma HeaderNamed(rest: string)
    requires StartsWith(rest, "name:")
    ensures var ls := Lines("---\n" + rest);
      |ls| > 1 && ls[0] == "---" && NameInBlock(ls[1..])
  {
    assert "---\n" + rest == "---" + "\n" + rest;
    LinesCons("---", rest);
    FirstLineStartsWith(rest, "name:");
    var ls := Lines("---\n" + rest);
    assert ls[1..] == Lines(rest);
    assert ls[1..][0] != "---";
  }

  /** Every rewritten file opens a frontmatter block that has a `name:` line. */
  lemma TransformNames(content: string, skillName: string)
    ensures var out := Lines(TransformSkill(content, skillName));
      |out| > 1 && out[0] == "---" && NameInBlock(out[1..])
  {
    var ls := Lines(content);
    if |ls| > 0 && ls[0] == "---" && NameInBlock(ls[1..]) {
      assert ls[1..] != [];
    } else {
      var rest := if |ls| > 0 && ls[0] == "---" then JoinTerminated(ls[1..]) else "---\n" + content;
      var tail := ("name: " + skillName) + "\n" + rest;
      assert tail[..5] == "name:";
      HeaderNamed(tail);
      NamedHeaderSplit(skillName, rest);
      assert "---" + "\n" + tail == "---\n" + tail;
    }
  }

  /** Applying the rewrite twice gives what applying it once gives. */
  lemma TransformIdempotent(content: string, skillName: string)
    ensures TransformSkill(TransformSkill(content, skillName), skillName) == TransformSkill(content, skillName)
  {
    TransformNames(content, skillName);
  }

  /**
    * What installing one artifact writes: the destination file and its
    * content. Claude, OpenCode agents and commands, and Cursor rules get a
    * verbatim copy; skills for OpenCode and Cursor get the rewritten file,
    * named `{bundle}-{name}`.
    */
  function Installed(tool: Tool, file: SkillFile, bundle: string, content: string): (r: Option<(Path, string)>)
    ensures r.Some? <==> Destination(tool, file.skillType, bundle, file.name).Some?
    ensures r.Some? ==> r.value.0 == Destination(tool, file.skillType, bundle, file.name).value
    ensures r.Some? && !(file.skillType == Skill && tool in {OpenCode, Cursor}) ==> r.value.1 == content
  {
    var dest := Destination(tool, file.skillType, bundle, file.name);
    if dest.None? then None
    else if file.skillType == Skill && (tool == OpenCode || tool == Cursor) then
      Some((dest.value, TransformSkill(content, CombinedName(bundle, file.name))))
    else Some((dest.value, content))
  }

  /** An installed skill's frontmatter carries its combined name, or the name it already had. */
  lemma InstalledSkillNamed(tool: Tool, file: SkillFile, bundle: string, content: string)
    requires tool == OpenCode || tool == Cursor
    requires file.skillType == Skill
    ensures Installed(tool, file, bundle, content).Some?
    ensures var out := Installed(tool, file, bundle, content).value.1;
      |Lines(out)| > 1 && Lines(out)[0] == "---" && NameInBlock(Lines(out)[1..])
  {
    TransformNames(content, CombinedName(bundle, file.name));
  }
}
