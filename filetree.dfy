/**
  * The filesystem as an abstract tree: a map from a path (its sequence of
  * components) to a regular file with its text or to a directory with its
  * entries in the order `read_dir` yields them. `exists`, `is_file`,
  * `is_dir`, `read_dir`, `read_to_string`, `file_name`, `file_stem`,
  * `extension`, `parent`, `join`, walkdir's traversal, `remove_file`,
  * `remove_dir` and `remove_dir_all` are functions over it.
  */
module FileTree {
  import opened Wrappers
  import opened Text
  import Seqs

  type Path = seq<string>

  datatype Node = File(content: string) | Dir(children: seq<string>)

  type Tree = map<Path, Node>

  datatype IoError =
    | NotFound(path: Path)
    | NotADirectory(path: Path)
    | IsADirectory(path: Path)
    | DirectoryNotEmpty(path: Path)
    | Busy(path: Path)

  predicate Exists(t: Tree, p: Path) {
    p in t
  }

  predicate IsFile(t: Tree, p: Path) {
    p in t && t[p].File?
  }

  predicate IsDir(t: Tree, p: Path) {
    p in t && t[p].Dir?
  }

  /** `fs::read_dir`: the entry names of a directory; an error for anything else. */
  function ReadDir(t: Tree, p: Path): (r: Result<seq<string>, IoError>)
    ensures r.Ok? <==> IsDir(t, p)
    ensures r.Ok? ==> r.value == t[p].children
  {
    if p !in t then Err(NotFound(p))
    else if t[p].File? then Err(NotADirectory(p))
    else Ok(t[p].children)
  }

  /** `fs::read_to_string`: the text of a regular file; an error for anything else. */
  function ReadToString(t: Tree, p: Path): (r: Result<string, IoError>)
    ensures r.Ok? <==> IsFile(t, p)
    ensures r.Ok? ==> r.value == t[p].content
  {
    if p !in t then Err(NotFound(p))
    else if t[p].Dir? then Err(IsADirectory(p))
    else Ok(t[p].content)
  }

  // ---------------------------------------------------------------------
  // path names
  // ---------------------------------------------------------------------

  function FileName(p: Path): (r: Option<string>)
    ensures r.Some? <==> p != []
    ensures r.Some? ==> r.value == p[|p| - 1]
  {
    if p == [] then None else Some(p[|p| - 1])
  }

  function Parent(p: Path): (r: Option<Path>)
    ensures r.Some? <==> p != []
    ensures r.Some? ==> p == r.value + [p[|p| - 1]]
  {
    if p == [] then None else Some(p[..|p| - 1])
  }

  /** Position of the last '.' in a file name. */
  function LastDot(name: string): (r: Option<nat>)
    ensures r.None? ==> '.' !in name
    ensures r.Some? ==> r.value < |name| && name[r.value] == '.' && '.' !in name[r.value + 1..]
  {
    if name == [] then None
    else if name[|name| - 1] == '.' then Some(|name| - 1)
    else
      var r := LastDot(name[..|name| - 1]);
      if r.Some? then
        assert name[r.value + 1..] == name[..|name| - 1][r.value + 1..] + [name[|name| - 1]];
        r
      else r
  }

  /**
    * `Path::extension` of a file name: the text after the last '.', unless
    * that dot is the first character (".bashrc") or the name is "..".
    */
  function Extension(name: string): Option<string> {
    if name == ".." then None
    else match LastDot(name)
      case None => None
      case Some(i) => if i == 0 then None else Some(name[i + 1..])
  }

  /** `Path::file_stem` of a file name: the name without its extension and that dot. */
  function Stem(name: string): string {
    if name == ".." then name
    else match LastDot(name)
      case None => name
      case Some(i) => if i == 0 then name else name[..i]
  }

  /** The name splits into stem, '.', extension whenever there is an extension. */
  lemma StemAndExtension(name: string)
    requires Extension(name).Some?
    ensures name == Stem(name) + "." + Extension(name).value
    ensures Stem(name) != ""
  {
    var i := LastDot(name).value;
    assert name == name[..i] + "." + name[i + 1..];
  }

  /** A non-empty stem with a dot-free extension reads back as that stem and extension. */
  lemma StemOfDotted(stem: string, ext: string)
    requires stem != [] && ext != [] && '.' !in ext
    ensures Extension(stem + "." + ext) == Some(ext)
    ensures Stem(stem + "." + ext) == stem
  {
    var name := stem + "." + ext;
    LastDotAt(name, |stem|);
    assert name[..|stem|] == stem;
    assert name[|stem| + 1..] == ext;
    assert |name| >= 3;
  }

  lemma LastDotAt(name: string, i: nat)
    requires i < |name| && name[i] == '.'
    requires forall j :: i < j < |name| ==> name[j] != '.'
    ensures LastDot(name) == Some(i)
    decreases |name|
  {
    if i < |name| - 1 {
      LastDotAt(name[..|name| - 1], i);
    }
  }

  /**
    * `path.extension() == Some(ext)` for a dot-free `ext`: the file name ends
    * with '.' and `ext`, and something comes before that dot.
    */
  predicate HasExtension(p: Path, ext: string) {
    p != [] && |p[|p| - 1]| > |ext| + 1 && EndsWith(p[|p| - 1], "." + ext)
  }

  lemma HasExtensionIff(p: Path, ext: string)
    requires p != [] && ext != [] && '.' !in ext
    ensures HasExtension(p, ext) <==> Extension(p[|p| - 1]) == Some(ext)
  {
    if HasExtension(p, ext) {
      HasExtensionSome(p[|p| - 1], ext);
    }
    if Extension(p[|p| - 1]) == Some(ext) {
      SomeHasExtension(p[|p| - 1], ext);
    }
  }

  lemma HasExtensionSome(name: string, ext: string)
    requires ext != [] && '.' !in ext
    requires |name| > |ext| + 1 && EndsWith(name, "." + ext)
    ensures Extension(name) == Some(ext)
  {
    var stem := name[..|name| - |ext| - 1];
    assert name == stem + "." + ext;
    StemOfDotted(stem, ext);
  }

  lemma SomeHasExtension(name: string, ext: string)
    requires Extension(name) == Some(ext)
    ensures |name| > |ext| + 1 && EndsWith(name, "." + ext)
  {
    StemAndExtension(name);
    var stem := Stem(name);
    assert name == stem + "." + ext;
    assert name[|name| - |ext| - 1..] == "." + ext;
  }

  /** `path.file_stem()`, with "" standing for a path without a file name. */
  function PathStem(p: Path): string {
    if p == [] then "" else Stem(p[|p| - 1])
  }

  // ---------------------------------------------------------------------
  // joining a '/'-separated relative path
  // ---------------------------------------------------------------------

  /** Cuts a string at every '/'. */
  function SplitSlash(s: string): (r: seq<string>)
    ensures |r| > 0
    decreases |s|
  {
    match IndexOf(s, '/')
    case None => [s]
    case Some(k) => [s[..k]] + SplitSlash(s[k + 1..])
  }

  /** Appends components the way the filesystem resolves them: "" and "." stay, ".." goes up. */
  function Resolve(base: Path, comps: seq<string>): Path
    decreases |comps|
  {
    if comps == [] then base
    else if comps[0] == "" || comps[0] == "." then Resolve(base, comps[1..])
    else if comps[0] == ".." then Resolve(if base == [] then [] else base[..|base| - 1], comps[1..])
    else Resolve(base + [comps[0]], comps[1..])
  }

  /** `base.join(rel)`: an absolute `rel` replaces the base. */
  function JoinRel(base: Path, rel: string): Path {
    if StartsWith(rel, "/") then Resolve([], SplitSlash(rel)) else Resolve(base, SplitSlash(rel))
  }

  /** A plain name (no '/', not "", "." or "..") is joined as one component. */
  lemma JoinRelName(base: Path, name: string)
    requires '/' !in name && name != "" && name != "." && name != ".."
    ensures JoinRel(base, name) == base + [name]
  {
    assert name[0] != '/';
    assert !StartsWith(name, "/");
    assert SplitSlash(name) == [name];
    assert Resolve(base, [name]) == Resolve(base + [name], []);
  }

  /** A relative path written out with '/' between its components. */
  function Render(p: Path): string {
    Join(p, "/")
  }

  // ---------------------------------------------------------------------
  // walkdir
  // ---------------------------------------------------------------------

  predicate IsPrefix(p: Path, q: Path) {
    |p| <= |q| && q[..|p|] == p
  }

  /** Every path of the tree at or below `p`. */
  function Under(t: Tree, p: Path): set<Path> {
    set q | q in t && IsPrefix(p, q)
  }

  lemma UnderShrinks(t: Tree, p: Path, c: string)
    requires p in t
    ensures Under(t, p + [c]) < Under(t, p)
  {
    forall q | q in Under(t, p + [c]) ensures q in Under(t, p) {
      assert q[..|p|] == q[..|p| + 1][..|p|];
    }
    assert p in Under(t, p);
  }

  /**
    * The entries `WalkDir::new(p)` yields, without the ones that fail: the
    * root itself first, then each directory entry in `read_dir` order, each
    * directory followed by its own contents (depth first).
    */
  function Walk(t: Tree, p: Path): seq<Path>
    decreases Under(t, p), 1, 0
  {
    if p !in t then []
    else match t[p]
      case File(_) => [p]
      case Dir(cs) => [p] + WalkEntries(t, p, cs)
  }

  function WalkEntries(t: Tree, p: Path, cs: seq<string>): seq<Path>
    requires p in t
    decreases Under(t, p), 0, |cs|
  {
    if cs == [] then []
    else
      UnderShrinks(t, p, cs[0]);
      Walk(t, p + [cs[0]]) + WalkEntries(t, p, cs[1..])
  }

  /** Every walked path exists, starts with the root, and lies strictly below it unless it is the root. */
  lemma {:induction false} WalkBelow(t: Tree, p: Path)
    ensures forall i :: 0 <= i < |Walk(t, p)| ==> Walk(t, p)[i] in t && IsPrefix(p, Walk(t, p)[i])
    decreases Under(t, p), 1, 0
  {
    if p in t && t[p].Dir? {
      WalkEntriesBelow(t, p, t[p].children);
    }
  }

  lemma {:induction false} WalkEntriesBelow(t: Tree, p: Path, cs: seq<string>)
    requires p in t
    ensures forall i :: 0 <= i < |WalkEntries(t, p, cs)| ==>
      WalkEntries(t, p, cs)[i] in t && IsPrefix(p, WalkEntries(t, p, cs)[i]) && WalkEntries(t, p, cs)[i] != p
    decreases Under(t, p), 0, |cs|
  {
    if cs != [] {
      UnderShrinks(t, p, cs[0]);
      WalkBelow(t, p + [cs[0]]);
      WalkEntriesBelow(t, p, cs[1..]);
      var a, b := Walk(t, p + [cs[0]]), WalkEntries(t, p, cs[1..]);
      forall i | 0 <= i < |a + b|
        ensures (a + b)[i] in t && IsPrefix(p, (a + b)[i]) && (a + b)[i] != p
      {
        if i < |a| {
          var q := a[i];
          assert q[..|p|] == q[..|p| + 1][..|p|];
        } else {
          assert (a + b)[i] == b[i - |a|];
        }
      }
    }
  }

  /** The walk of a directory reaches everything the walk of one of its entries reaches. */
  lemma WalkChild(t: Tree, p: Path, c: string, q: Path)
    requires IsDir(t, p) && c in t[p].children && q in Walk(t, p + [c])
    ensures q in Walk(t, p)
  {
    var k :| 0 <= k < |t[p].children| && t[p].children[k] == c;
    WalkEntriesChild(t, p, t[p].children, k, q);
  }

  lemma {:induction false} WalkEntriesChild(t: Tree, p: Path, cs: seq<string>, k: nat, q: Path)
    requires p in t && k < |cs| && q in Walk(t, p + [cs[k]])
    ensures q in WalkEntries(t, p, cs)
    decreases |cs|
  {
    UnderShrinks(t, p, cs[0]);
    if k > 0 {
      WalkEntriesChild(t, p, cs[1..], k - 1, q);
    }
  }

  // ---------------------------------------------------------------------
  // removal
  // ---------------------------------------------------------------------

  /** Whether an entry name differs from `name`. */
  function Other(name: string): string -> bool {
    c => c != name
  }

  /** Drops the last component of `p` from its parent directory's entry list. */
  function Detach(t: Tree, p: Path): (r: Tree)
    ensures r.Keys == t.Keys
    ensures forall q :: q in t && (p == [] || q != p[..|p| - 1]) ==> r[q] == t[q]
    ensures forall q :: q in t ==> (r[q].Dir? <==> t[q].Dir?)
    ensures p != [] && IsDir(t, p[..|p| - 1]) ==>
      r[p[..|p| - 1]] == Dir(Seqs.Filter(t[p[..|p| - 1]].children, Other(p[|p| - 1])))
  {
    if p == [] then t
    else
      var parent := p[..|p| - 1];
      if parent in t && t[parent].Dir? then
        t[parent := Dir(Seqs.Filter(t[parent].children, Other(p[|p| - 1])))]
      else t
  }

  /** `fs::remove_file`. */
  function RemoveFile(t: Tree, p: Path): (r: Result<Tree, IoError>)
    ensures r.Ok? <==> IsFile(t, p)
    ensures r.Ok? ==> r.value.Keys == t.Keys - {p}
  {
    if p !in t then Err(NotFound(p))
    else if t[p].Dir? then Err(IsADirectory(p))
    else Ok(Detach(t - {p}, p))
  }

  /** `fs::remove_dir`: only an empty directory other than the root. */
  function RemoveDir(t: Tree, p: Path): (r: Result<Tree, IoError>)
    ensures r.Ok? <==> IsDir(t, p) && t[p].children == [] && p != []
    ensures r.Ok? ==> r.value.Keys == t.Keys - {p}
    ensures r.Ok? ==> forall q :: q in r.value ==> (r.value[q].Dir? <==> t[q].Dir?)
    ensures r.Ok? ==> forall q :: q in r.value && q != p[..|p| - 1] ==> r.value[q] == t[q]
    ensures r.Ok? && IsDir(t, p[..|p| - 1]) ==>
      r.value[p[..|p| - 1]] == Dir(Seqs.Filter(t[p[..|p| - 1]].children, Other(p[|p| - 1])))
  {
    if p !in t then Err(NotFound(p))
    else if t[p].File? then Err(NotADirectory(p))
    else if t[p].children != [] then Err(DirectoryNotEmpty(p))
    else if p == [] then Err(Busy(p))
    else Ok(Detach(t - {p}, p))
  }

  /** `fs::remove_dir_all`: the directory and everything below it. */
  function RemoveDirAll(t: Tree, p: Path): (r: Result<Tree, IoError>)
    ensures r.Ok? <==> IsDir(t, p)
    ensures r.Ok? ==> forall q :: q in r.value <==> q in t && !IsPrefix(p, q)
  {
    if p !in t then Err(NotFound(p))
    else if t[p].File? then Err(NotADirectory(p))
    else Ok(Detach(map q | q in t && !IsPrefix(p, q) :: t[q], p))
  }
}
