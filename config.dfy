/**
  * The user configuration: the default tool and the ordered list of bundle
  * sources (local directories and git repositories), with the edits the
  * `source` subcommands make to that list and the two bundle lookups that
  * walk the sources in priority order.
  */
module Configs {
  import opened Wrappers
  import opened Text
  import opened Seqs
  import opened Bundles

  /** A configured source: a local directory path or a git URL, each with an optional short name. */
  datatype SourceConfig =
    | Local(path: string, name: Option<string>)
    | Git(url: string, name: Option<string>)
  {
    /** `SourceConfig::display`: the path or the URL. */
    function Display(): string {
      match this
      case Local(path, _) => path
      case Git(url, _) => url
    }
  }

  /** The contents of a configuration file, as parsed. */
  datatype StoredConfig = StoredConfig(defaultTool: string, sources: seq<SourceConfig>)

  const FallbackSource := Local("~/.claude-skills", None)

  // ---------------------------------------------------------------------
  // expand_tilde

  /** `PathBuf::join` on strings: an absolute `rest` replaces the base; otherwise one separator goes between. */
  function Join(base: string, rest: string): string {
    if StartsWith(rest, "/") then rest
    else if base == [] || base[|base| - 1] == '/' then base + rest
    else base + "/" + rest
  }

  /**
    * `expand_tilde`, with the value of `HOME` as a parameter: `~/rest`
    * becomes the home directory joined with `rest`, `~` becomes the home
    * directory, and every other path, or any path when there is no home,
    * is left as it is.
    */
  function ExpandTilde(path: string, home: Option<string>): string {
    if StartsWith(path, "~/") then
      (match home case Some(h) => Join(h, path[2..]) case None => path)
    else if path == "~" then
      (match home case Some(h) => h case None => path)
    else path
  }

  /** The two cases exercised for `expand_tilde`: a home-relative path and an absolute one. */
  lemma ExpandTildeCases(home: string, rest: string, other: string)
    requires home != [] && home[|home| - 1] != '/'
    requires rest != [] && rest[0] != '/'
    requires !StartsWith(other, "~")
    ensures ExpandTilde("~/" + rest, Some(home)) == home + "/" + rest
    ensures ExpandTilde("~", Some(home)) == home
    ensures ExpandTilde(other, Some(home)) == other
    ensures ExpandTilde("~/" + rest, None) == "~/" + rest
  {
    StartsWithAppend("~/", rest);
    assert ("~/" + rest)[2..] == rest;
    assert !StartsWith(rest, "/");
    if |other| >= 2 {
      assert other[..2][0] == other[..1][0];
    }
  }

  /** Only paths that start with `~` are changed, and expanding twice is expanding once when the home directory does not itself start with `~`. */
  lemma ExpandTildeIdempotent(path: string, home: Option<string>)
    requires home.Some? ==> home.value != [] && home.value[0] != '~'
    ensures ExpandTilde(path, home) != path ==> |path| > 0 && path[0] == '~'
    ensures ExpandTilde(ExpandTilde(path, home), home) == ExpandTilde(path, home)
  {
    var e := ExpandTilde(path, home);
    if e != path {
      assert |path| > 0 && path[0] == '~';
      var h := home.value;
      if StartsWith(path, "~/") {
        var rest := path[2..];
        if StartsWith(rest, "/") {
          assert e == rest && e[0] == '/';
        } else {
          assert e[0] == h[0];
        }
      } else {
        assert e == h;
      }
      assert e[0] != '~';
      assert !StartsWith(e, "~/") && e != "~";
    }
  }

  // ---------------------------------------------------------------------
  // add_source

  /** Two sources are the same when both are local with equal paths or both are git with equal URLs; names are not compared. */
  predicate SameSource(a: SourceConfig, b: SourceConfig) {
    match (a, b)
    case (Local(p1, _), Local(p2, _)) => p1 == p2
    case (Git(u1, _), Git(u2, _)) => u1 == u2
    case _ => false
  }

  /** Some source in the list is the same as `source`. */
  predicate Listed(sources: seq<SourceConfig>, source: SourceConfig) {
    exists k :: 0 <= k < |sources| && SameSource(sources[k], source)
  }

  /** No two sources in the list are the same. */
  predicate Distinct(sources: seq<SourceConfig>) {
    forall i, j :: 0 <= i < j < |sources| ==> !SameSource(sources[i], sources[j])
  }

  /** What `add_source` makes of the list: unchanged when the source is already listed, otherwise the source goes last. */
  function AddedSource(sources: seq<SourceConfig>, source: SourceConfig): seq<SourceConfig> {
    if Listed(sources, source) then sources else sources + [source]
  }

  /**
    * After an add the source is listed and the earlier list is a prefix of
    * the new one; adding twice is adding once; and a list without
    * duplicates stays without.
    */
  lemma AddedSourceSpec(sources: seq<SourceConfig>, source: SourceConfig)
    ensures var r := AddedSource(sources, source);
      Listed(r, source) && r[..|sources|] == sources && |r| <= |sources| + 1
    ensures AddedSource(AddedSource(sources, source), source) == AddedSource(sources, source)
    ensures Distinct(sources) ==> Distinct(AddedSource(sources, source))
  {
    var r := AddedSource(sources, source);
    if !Listed(sources, source) {
      assert SameSource(r[|sources|], source);
      assert r[..|sources|] == sources;
      if Distinct(sources) {
        forall i, j | 0 <= i < j < |r| ensures !SameSource(r[i], r[j]) {
          if j == |sources| {
            assert r[i] == sources[i];
            assert !SameSource(sources[i], source);
          }
        }
      }
    }
    assert Listed(r, source);
  }

  /** A local source is never a duplicate of a git source, nor the other way round. */
  lemma AddAcrossKinds(sources: seq<SourceConfig>, source: SourceConfig)
    requires forall k :: 0 <= k < |sources| ==> sources[k].Local? != source.Local?
    ensures AddedSource(sources, source) == sources + [source]
  {
    forall k | 0 <= k < |sources| ensures !SameSource(sources[k], source) {
      assert sources[k].Local? != source.Local?;
    }
  }

  // ---------------------------------------------------------------------
  // move_source

  /** The list with the element at `from` taken out and put back in at `to`. */
  function Moved(s: seq<SourceConfig>, from: nat, to: nat): seq<SourceConfig>
    requires from < |s| && to < |s|
  {
    var rest := s[..from] + s[from + 1..];
    rest[..to] + [s[from]] + rest[to..]
  }

  /** A move keeps the length and the multiset, puts the moved element at `to`, keeps the others in order, and moving back restores the list. */
  lemma MovedSpec(s: seq<SourceConfig>, from: nat, to: nat)
    requires from < |s| && to < |s|
    ensures var m := Moved(s, from, to);
      |m| == |s| && multiset(m) == multiset(s) && m[to] == s[from] &&
      m[..to] + m[to + 1..] == s[..from] + s[from + 1..]
    ensures Moved(Moved(s, from, to), to, from) == s
  {
    var rest := s[..from] + s[from + 1..];
    var m := Moved(s, from, to);
    assert rest[..to] + rest[to..] == rest;
    calc {
      multiset(m);
      multiset(rest[..to]) + multiset{s[from]} + multiset(rest[to..]);
      multiset(rest) + multiset{s[from]};
      { assert s == s[..from] + [s[from]] + s[from + 1..]; }
      multiset(s);
    }
    assert m[..to] == rest[..to];
    assert m[to + 1..] == rest[to..];
    assert s[..from] + [s[from]] + s[from + 1..] == s;
  }

  // ---------------------------------------------------------------------
  // remove_source

  /**
    * The test `remove_source` keeps a source by: a local source goes when
    * its path equals the input either as written or after tilde expansion,
    * or its name equals the input; a git source goes when its URL or its
    * name equals the input.
    */
  function Keep(pathOrUrl: string, home: Option<string>): SourceConfig -> bool {
    (s: SourceConfig) =>
      match s
      case Local(path, name) =>
        path != pathOrUrl && ExpandTilde(path, home) != ExpandTilde(pathOrUrl, home) && name != Some(pathOrUrl)
      case Git(url, name) =>
        url != pathOrUrl && name != Some(pathOrUrl)
  }

  /** A source goes exactly when its path (after expansion) or URL, or its name, matches; so a source is always removed by its displayed form or its name. */
  lemma KeepSpec(pathOrUrl: string, home: Option<string>, s: SourceConfig)
    ensures s.Local? ==> (!Keep(pathOrUrl, home)(s) <==>
      ExpandTilde(s.path, home) == ExpandTilde(pathOrUrl, home) || s.name == Some(pathOrUrl))
    ensures s.Git? ==> (!Keep(pathOrUrl, home)(s) <==> s.url == pathOrUrl || s.name == Some(pathOrUrl))
    ensures !Keep(s.Display(), home)(s)
    ensures s.name.Some? ==> !Keep(s.name.value, home)(s)
  {
  }

  /** After a removal no remaining source matches, the rest keep their order, removing again changes nothing, and the list is shorter exactly when some source matched. */
  lemma RemovedSpec(sources: seq<SourceConfig>, pathOrUrl: string, home: Option<string>)
    ensures var r := Filter(sources, Keep(pathOrUrl, home));
      (forall i :: 0 <= i < |r| ==> Keep(pathOrUrl, home)(r[i])) &&
      Filter(r, Keep(pathOrUrl, home)) == r &&
      (|r| < |sources| <==> exists k :: 0 <= k < |sources| && !Keep(pathOrUrl, home)(sources[k]))
  {
    var p := Keep(pathOrUrl, home);
    FilterTwice(sources, p);
    FilterShorter(sources, p);
    if exists x :: x in sources && !p(x) {
      var x :| x in sources && !p(x);
      var k :| 0 <= k < |sources| && sources[k] == x;
    }
  }

  // ---------------------------------------------------------------------
  // The configuration object

  class Config {
    var defaultTool: string
    var sources: seq<SourceConfig>

    /** `Config::new`: the given sources, with `claude` as the default tool. */
    constructor (sources: seq<SourceConfig>)
      ensures defaultTool == "claude" && this.sources == sources
    {
      defaultTool := "claude";
      this.sources := sources;
    }

    /** The configuration used when none is stored: the single local source `~/.claude-skills`. */
    constructor Fallback()
      ensures defaultTool == "claude" && sources == [FallbackSource]
    {
      defaultTool := "claude";
      sources := [FallbackSource];
    }

    /**
      * `Config::load_or_default`, given what loading the configuration file
      * yielded: an error is passed on, a stored configuration is used as
      * it is, and no file gives the fallback.
      */
    static method LoadOrDefault(loaded: Result<Option<StoredConfig>, string>) returns (r: Result<Config, string>)
      ensures loaded.Err? ==> r == Err(loaded.error)
      ensures loaded.Ok? ==> r.Ok? && fresh(r.value)
      ensures loaded.Ok? && loaded.value.Some? ==>
        r.value.defaultTool == loaded.value.value.defaultTool && r.value.sources == loaded.value.value.sources
      ensures loaded.Ok? && loaded.value.None? ==>
        r.value.defaultTool == "claude" && r.value.sources == [FallbackSource]
    {
      if loaded.Err? {
        r := Err(loaded.error);
      } else if loaded.value.None? {
        var c := new Config.Fallback();
        r := Ok(c);
      } else {
        var c := new Config(loaded.value.value.sources);
        c.defaultTool := loaded.value.value.defaultTool;
        r := Ok(c);
      }
    }

    /** `add_source`: the scan for an existing same source, then the push. */
    method AddSource(source: SourceConfig)
      modifies this
      ensures sources == AddedSource(old(sources), source)
      ensures defaultTool == old(defaultTool)
    {
      var present := false;
      var i := 0;
      while i < |sources| && !present
        invariant 0 <= i <= |sources|
        invariant present <==> exists k :: 0 <= k < i && SameSource(sources[k], source)
      {
        present := SameSource(sources[i], source);
        i := i + 1;
      }
      if !present {
        assert !Listed(sources, source);
        sources := sources + [source];
      }
    }

    /** `move_source`: an index out of range is an error and changes nothing; otherwise the source moves. */
    method MoveSource(from: nat, to: nat) returns (r: Result<(), string>)
      modifies this
      ensures from >= |old(sources)| || to >= |old(sources)| ==>
        r == Err("Invalid source index") && sources == old(sources)
      ensures from < |old(sources)| && to < |old(sources)| ==>
        r == Ok(()) && sources == Moved(old(sources), from, to)
      ensures defaultTool == old(defaultTool)
    {
      if from >= |sources| || to >= |sources| {
        return Err("Invalid source index");
      }
      var source := sources[from];
      sources := sources[..from] + sources[from + 1..];
      sources := sources[..to] + [source] + sources[to..];
      r := Ok(());
    }

    /** `remove_source`: keeps the sources that do not match; true when any went. */
    method RemoveSource(pathOrUrl: string, home: Option<string>) returns (removed: bool)
      modifies this
      ensures sources == Filter(old(sources), Keep(pathOrUrl, home))
      ensures removed <==> exists k :: 0 <= k < |old(sources)| && !Keep(pathOrUrl, home)(old(sources)[k])
      ensures defaultTool == old(defaultTool)
    {
      var initial := |sources|;
      RemovedSpec(sources, pathOrUrl, home);
      sources := Filter(sources, Keep(pathOrUrl, home));
      removed := |sources| < initial;
    }
  }

  // ---------------------------------------------------------------------
  // find_bundle and find_bundle_by_prefix, over what each source's
  // `list_bundles` returned, in source order

  /** The `j`th bundle listed by source `i` is named `name`. */
  predicate Exact<E>(listings: seq<Result<seq<Bundle>, E>>, name: string, i: int, j: int) {
    0 <= i < |listings| && listings[i].Ok? && 0 <= j < |listings[i].value| && listings[i].value[j].name == name
  }

  /**
    * `Config::find_bundle`: the first source, in order, whose listing holds
    * a bundle of that name, with the first such bundle; sources whose
    * listing failed are passed over; none when no listing holds one.
    */
  method FindBundle<E>(listings: seq<Result<seq<Bundle>, E>>, name: string) returns (r: Option<(nat, Bundle)>)
    ensures r.None? <==> forall i, j :: !Exact(listings, name, i, j)
    ensures r.Some? ==> exists j :: (Exact(listings, name, r.value.0, j) && r.value.1 == listings[r.value.0].value[j] &&
      forall j' :: 0 <= j' < j ==> !Exact(listings, name, r.value.0, j'))
    ensures r.Some? ==> forall i, j :: 0 <= i < r.value.0 ==> !Exact(listings, name, i, j)
  {
    for i := 0 to |listings|
      invariant forall i', j :: 0 <= i' < i ==> !Exact(listings, name, i', j)
    {
      if listings[i].Ok? {
        var bundles := listings[i].value;
        for j := 0 to |bundles|
          invariant forall j' :: 0 <= j' < j ==> !Exact(listings, name, i, j')
        {
          if bundles[j].name == name {
            assert Exact(listings, name, i, j);
            return Some((i, bundles[j]));
          }
        }
      }
    }
    return None;
  }

  /** The `j`th bundle listed by source `i` has a name that, followed by `-`, starts the installed name. */
  predicate Candidate<E>(listings: seq<Result<seq<Bundle>, E>>, installed: string, i: int, j: int) {
    0 <= i < |listings| && listings[i].Ok? && 0 <= j < |listings[i].value| &&
    StartsWith(installed, listings[i].value[j].name + "-")
  }

  /** Position (i1, j1) comes before (i2, j2) in the scan. */
  predicate Before(i1: int, j1: int, i2: int, j2: int) {
    i1 < i2 || (i1 == i2 && j1 < j2)
  }

  /** The byte length of the name of the `j`th bundle of source `i`. */
  function NameLen<E>(listings: seq<Result<seq<Bundle>, E>>, i: int, j: int): nat
    requires 0 <= i < |listings| && listings[i].Ok? && 0 <= j < |listings[i].value|
  {
    Utf8Len(listings[i].value[j].name)
  }

  /**
    * `Config::find_bundle_by_prefix`: among the candidates, the one with
    * the longest name in bytes, the earliest in scan order on a tie;
    * a bundle with an empty name is never chosen, and there is no result
    * exactly when every candidate has an empty name.
    */
  method FindBundleByPrefix<E>(listings: seq<Result<seq<Bundle>, E>>, installed: string) returns (best: Option<Bundle>)
    ensures best.None? <==> forall i, j :: Candidate(listings, installed, i, j) ==> listings[i].value[j].name == []
    ensures best.Some? ==> exists i, j :: (
      Candidate(listings, installed, i, j) && best.value == listings[i].value[j] &&
      best.value.name != [] &&
      (forall i', j' :: Candidate(listings, installed, i', j') ==> NameLen(listings, i', j') <= NameLen(listings, i, j)) &&
      (forall i', j' :: Candidate(listings, installed, i', j') && Before(i', j', i, j) ==>
        NameLen(listings, i', j') < NameLen(listings, i, j)))
  {
    best := None;
    var bestLen := 0;
    ghost var bi, bj := 0, 0;
    for i := 0 to |listings|
      invariant best.None? ==> bestLen == 0
      invariant best.Some? ==> (Candidate(listings, installed, bi, bj) && bi < i &&
        best.value == listings[bi].value[bj] && bestLen == NameLen(listings, bi, bj) > 0)
      invariant forall i', j' :: Candidate(listings, installed, i', j') && i' < i ==>
        NameLen(listings, i', j') <= bestLen &&
        (best.Some? && Before(i', j', bi, bj) ==> NameLen(listings, i', j') < bestLen)
    {
      if listings[i].Ok? {
        var bundles := listings[i].value;
        for j := 0 to |bundles|
          invariant best.None? ==> bestLen == 0
          invariant best.Some? ==> (Candidate(listings, installed, bi, bj) && Before(bi, bj, i, j) &&
            best.value == listings[bi].value[bj] && bestLen == NameLen(listings, bi, bj) > 0)
          invariant forall i', j' :: Candidate(listings, installed, i', j') && Before(i', j', i, j) ==>
            NameLen(listings, i', j') <= bestLen &&
            (best.Some? && Before(i', j', bi, bj) ==> NameLen(listings, i', j') < bestLen)
        {
          var prefix := bundles[j].name + "-";
          if StartsWith(installed, prefix) && Utf8Len(bundles[j].name) > bestLen {
            bestLen := Utf8Len(bundles[j].name);
            best := Some(bundles[j]);
            bi, bj := i, j;
          }
        }
      }
    }
    if best.Some? {
      assert best.value.name != [];
    } else {
      forall i, j | Candidate(listings, installed, i, j) ensures listings[i].value[j].name == [] {
        assert NameLen(listings, i, j) <= 0;
      }
    }
  }
}
