/**
  * The per-tool record of installed bundles, `.skm.toml` inside the tool's
  * directory of an install target: an ordered list of (bundle name, source)
  * entries with upsert and remove.
  */
module InstallManifests {
  import opened Wrappers
  import opened Seqs
  import opened FileTree
  import Bundles
  import Target

  datatype ManifestEntry = ManifestEntry(name: string, source: string)

  /** The directory of a tool inside an install target. */
  function ToolDirName(tool: Target.Tool): string {
    match tool
    case Claude => ".claude"
    case OpenCode => ".opencode"
    case Cursor => ".cursor"
    case Codex => ".codex"
  }

  /** `InstallManifest::path_for`: `{target}/{tool dir}/.skm.toml`. */
  function PathFor(tool: Target.Tool, targetDir: Path): Path {
    targetDir + [ToolDirName(tool), ".skm.toml"]
  }

  /**
    * Each tool has a manifest of its own, and it lies in the same directory
    * as everything installed for that tool, but is never one of the
    * installed files.
    */
  lemma PathForSeparate(tool: Target.Tool, other: Target.Tool, targetDir: Path, ty: Bundles.SkillType, bundle: string, name: string)
    ensures PathFor(tool, targetDir) == PathFor(other, targetDir) <==> tool == other
    ensures Target.Destination(tool, ty, bundle, name).Some? ==>
      var dest := targetDir + Target.Destination(tool, ty, bundle, name).value;
      dest[..|targetDir| + 1] == PathFor(tool, targetDir)[..|targetDir| + 1] && dest != PathFor(tool, targetDir)
  {
    if tool != other {
      assert PathFor(tool, targetDir)[|targetDir|] != PathFor(other, targetDir)[|targetDir|] by {
        if {tool, other} == {Target.Cursor, Target.Claude} {
          assert ToolDirName(tool)[2] != ToolDirName(other)[2];
        } else if {tool, other} == {Target.Codex, Target.Claude} {
          assert ToolDirName(tool)[2] != ToolDirName(other)[2];
        } else if {tool, other} == {Target.Codex, Target.Cursor} {
          assert ToolDirName(tool)[2] != ToolDirName(other)[2];
        } else {
          assert |ToolDirName(tool)| != |ToolDirName(other)|;
        }
      }
    }
    if Target.Destination(tool, ty, bundle, name).Some? {
      Target.DestinationUnderToolDir(tool, ty, bundle, name);
      var rel := Target.Destination(tool, ty, bundle, name).value;
      var dest := targetDir + rel;
      assert dest[|targetDir|] == rel[0];
      assert dest[..|targetDir|] == targetDir;
      assert |dest| != |PathFor(tool, targetDir)|;
    }
  }

  /** The names, in entry order. */
  function Names(entries: seq<ManifestEntry>): (r: seq<string>)
    ensures |r| == |entries|
    ensures forall i :: 0 <= i < |entries| ==> r[i] == entries[i].name
  {
    if entries == [] then [] else [entries[0].name] + Names(entries[1..])
  }

  /** No name is recorded twice. */
  predicate NamesUnique(entries: seq<ManifestEntry>) {
    forall i, j :: 0 <= i < j < |entries| ==> entries[i].name != entries[j].name
  }

  /** The position of the first entry with this name. */
  function FindName(entries: seq<ManifestEntry>, name: string): (r: Option<nat>)
    ensures r.None? <==> name !in Names(entries)
    ensures r.Some? ==> (r.value < |entries| && entries[r.value].name == name &&
      forall j :: 0 <= j < r.value ==> entries[j].name != name)
  {
    if entries == [] then None
    else if entries[0].name == name then Some(0)
    else
      assert Names(entries) == [entries[0].name] + Names(entries[1..]);
      match FindName(entries[1..], name)
      case None => None
      case Some(k) =>
        assert forall j :: 1 <= j <= k + 1 ==> entries[j] == entries[1..][j - 1];
        Some(k + 1)
  }

  /** What `record_install` makes of the entries: the first entry of that name gets the new source; otherwise a new entry goes last. */
  function Upsert(entries: seq<ManifestEntry>, name: string, source: string): seq<ManifestEntry> {
    match FindName(entries, name)
    case Some(i) => entries[i := ManifestEntry(name, source)]
    case None => entries + [ManifestEntry(name, source)]
  }

  /** Recording a name already present only replaces that entry's source. */
  lemma UpsertExisting(entries: seq<ManifestEntry>, name: string, source: string)
    requires name in Names(entries)
    ensures var r := Upsert(entries, name, source);
      |r| == |entries| && Names(r) == Names(entries) &&
      forall j :: 0 <= j < |r| ==> r[j] == (if entries[j].name == name && j == FindName(entries, name).value
                                            then ManifestEntry(name, source) else entries[j])
  {
    var r := Upsert(entries, name, source);
    assert forall j :: 0 <= j < |r| ==> r[j].name == entries[j].name;
  }

  /** Recording a new name appends it and leaves the earlier entries as they were. */
  lemma UpsertNew(entries: seq<ManifestEntry>, name: string, source: string)
    requires name !in Names(entries)
    ensures Upsert(entries, name, source) == entries + [ManifestEntry(name, source)]
    ensures Names(Upsert(entries, name, source)) == Names(entries) + [name]
  {
  }

  /** Recording keeps names unique, and the recorded name then carries the recorded source. */
  lemma UpsertUnique(entries: seq<ManifestEntry>, name: string, source: string)
    requires NamesUnique(entries)
    ensures NamesUnique(Upsert(entries, name, source))
    ensures ManifestEntry(name, source) in Upsert(entries, name, source)
    ensures forall e :: e in Upsert(entries, name, source) && e.name == name ==> e.source == source
  {
    var r := Upsert(entries, name, source);
    if name in Names(entries) {
      var i := FindName(entries, name).value;
      assert r[i] == ManifestEntry(name, source);
      forall k | 0 <= k < |r| && k != i ensures r[k].name != name {
        assert r[k] == entries[k];
      }
    } else {
      assert r[|entries|] == ManifestEntry(name, source);
      forall k | 0 <= k < |entries| ensures r[k].name != name {
        assert r[k] == entries[k];
        assert Names(entries)[k] == entries[k].name;
      }
    }
  }

  /** The first entry of a name is where it is found. */
  lemma FindNameAt(entries: seq<ManifestEntry>, name: string, i: nat)
    requires i < |entries| && entries[i].name == name
    requires forall j :: 0 <= j < i ==> entries[j].name != name
    ensures FindName(entries, name) == Some(i)
  {
    assert Names(entries)[i] == name;
  }

  /** Recording the same name twice is recording it once with the later source. */
  lemma UpsertTwice(entries: seq<ManifestEntry>, name: string, first: string, second: string)
    ensures Upsert(Upsert(entries, name, first), name, second) == Upsert(entries, name, second)
  {
    var once := Upsert(entries, name, first);
    if name in Names(entries) {
      var i := FindName(entries, name).value;
      FindNameAt(once, name, i);
    } else {
      forall j | 0 <= j < |entries| ensures once[j].name != name {
        assert once[j] == entries[j];
        assert Names(entries)[j] == entries[j].name;
      }
      FindNameAt(once, name, |entries|);
    }
  }

  function NotNamed(name: string): ManifestEntry -> bool {
    (e: ManifestEntry) => e.name != name
  }

  /** Removing a name keeps the other entries in order, and shortens the list exactly when the name was there. */
  lemma RemoveNamed(entries: seq<ManifestEntry>, name: string)
    ensures name !in Names(Filter(entries, NotNamed(name)))
    ensures |Filter(entries, NotNamed(name))| < |entries| <==> name in Names(entries)
  {
    var r := Filter(entries, NotNamed(name));
    forall k | 0 <= k < |r| ensures Names(r)[k] != name {
      assert NotNamed(name)(r[k]);
    }
    FilterShorter(entries, NotNamed(name));
    if name in Names(entries) {
      var k :| 0 <= k < |entries| && Names(entries)[k] == name;
      assert entries[k] in entries && !NotNamed(name)(entries[k]);
    }
    if exists x :: x in entries && !NotNamed(name)(x) {
      var x :| x in entries && !NotNamed(name)(x);
      var k :| 0 <= k < |entries| && entries[k] == x;
      assert Names(entries)[k] == name;
    }
  }

  /** What a load reads: the parsed entries of the tool's manifest, or none when it is missing, unreadable or does not parse. */
  function LoadedEntries(t: Tree, tool: Target.Tool, targetDir: Path, parse: string -> Option<seq<ManifestEntry>>): (r: seq<ManifestEntry>)
    ensures !IsFile(t, PathFor(tool, targetDir)) ==> r == []
    ensures IsFile(t, PathFor(tool, targetDir)) && parse(t[PathFor(tool, targetDir)].content).None? ==> r == []
    ensures IsFile(t, PathFor(tool, targetDir)) && parse(t[PathFor(tool, targetDir)].content).Some? ==>
      r == parse(t[PathFor(tool, targetDir)].content).value
  {
    match ReadToString(t, PathFor(tool, targetDir))
    case Err(_) => []
    case Ok(content) => (match parse(content) case Some(entries) => entries case None => [])
  }

  class InstallManifest {
    var bundles: seq<ManifestEntry>

    /** `InstallManifest::default()`. */
    constructor ()
      ensures bundles == []
    {
      bundles := [];
    }

    /** `InstallManifest::load`. */
    static method Load(t: Tree, tool: Target.Tool, targetDir: Path, parse: string -> Option<seq<ManifestEntry>>)
      returns (m: InstallManifest)
      ensures fresh(m) && m.bundles == LoadedEntries(t, tool, targetDir, parse)
    {
      m := new InstallManifest();
      var read := ReadToString(t, PathFor(tool, targetDir));
      if read.Ok? {
        var parsed := parse(read.value);
        if parsed.Some? {
          m.bundles := parsed.value;
        }
      }
    }

    /** `record_install`: the search for the first entry of that name, then the update in place or the push. */
    method RecordInstall(name: string, source: string)
      modifies this
      ensures bundles == Upsert(old(bundles), name, source)
    {
      var i := 0;
      while i < |bundles| && bundles[i].name != name
        invariant 0 <= i <= |bundles|
        invariant forall j :: 0 <= j < i ==> bundles[j].name != name
      {
        i := i + 1;
      }
      if i < |bundles| {
        bundles := bundles[i := ManifestEntry(bundles[i].name, source)];
      } else {
        bundles := bundles + [ManifestEntry(name, source)];
      }
    }

    /** `remove_bundle`: keeps the entries of other names; true when one went. */
    method RemoveBundle(name: string) returns (removed: bool)
      modifies this
      ensures bundles == Filter(old(bundles), NotNamed(name))
      ensures removed <==> name in Names(old(bundles))
    {
      var before := |bundles|;
      RemoveNamed(bundles, name);
      bundles := Filter(bundles, NotNamed(name));
      removed := |bundles| < before;
    }

    /** `bundle_names`. */
    function BundleNames(): (r: seq<string>)
      reads this
      ensures |r| == |bundles| && forall i :: 0 <= i < |r| ==> r[i] == bundles[i].name
    {
      Names(bundles)
    }

    /** `is_empty`. */
    predicate IsEmpty()
      reads this
      ensures IsEmpty() <==> BundleNames() == []
    {
      |bundles| == 0
    }
  }

  /** After a record, the manifest is not empty and lists the name exactly once, where it was or last. */
  lemma RecordedNames(entries: seq<ManifestEntry>, name: string, source: string)
    ensures |Upsert(entries, name, source)| > 0
    ensures Names(Upsert(entries, name, source)) ==
      (if name in Names(entries) then Names(entries) else Names(entries) + [name])
  {
    if name in Names(entries) {
      UpsertExisting(entries, name, source);
    } else {
      UpsertNew(entries, name, source);
    }
  }
}
