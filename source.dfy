/**
  * Skill sources: the cache directory a git URL is cloned into, and the
  * bundles a local source directory holds.
  */
module Sources {
  import opened Wrappers
  import opened Text
  import opened Seqs
  import opened FileTree
  import opened Bundles

  // ---------------------------------------------------------------------
  // url_to_path
  // ---------------------------------------------------------------------

  /**
    * `GitSource::url_to_path`: the URL without any trailing `.git`, then
    * without `https://`, or without `git@` and with every ':' made a '/'.
    */
  function UrlToPath(url: string): string {
    var u := TrimEndMatches(url, ".git");
    if StartsWith(u, "https://") then u[8..]
    else if StartsWith(u, "git@") then ReplaceChar(u[4..], ':', '/')
    else u
  }

  /** A text that ends in `sep` and then `p` ends in `.git` only if `p` does, when `sep` is not in `.git`. */
  lemma NoGitSuffixAfter(prefix: string, sep: char, p: string)
    requires sep !in ".git" && !EndsWith(p, ".git")
    ensures !EndsWith(prefix + [sep] + p, ".git")
  {
    var s := prefix + [sep] + p;
    if |p| >= 4 {
      assert p[|p| - 4..] == s[|s| - 4..];
    } else if |s| >= 4 {
      assert s[|s| - 4..][3 - |p|] == sep;
    }
  }

  /** A suffix of a text ends in what the text ends in. */
  lemma EndsWithOfSuffix(u: string, k: nat, x: string)
    requires k <= |u| && EndsWith(u[k..], x)
    ensures EndsWith(u, x)
  {
    assert u[k..][|u| - k - |x|..] == u[|u| - |x|..];
  }

  /** Turning ':' into '/' cannot make a `.git` ending. */
  lemma ReplaceKeepsGitSuffix(s: string)
    requires EndsWith(ReplaceChar(s, ':', '/'), ".git")
    ensures EndsWith(s, ".git")
  {
    var r := ReplaceChar(s, ':', '/');
    forall j | |s| - 4 <= j < |s| ensures s[j] == r[j] {
      assert r[j] == r[|r| - 4..][j - (|s| - 4)];
    }
    assert s[|s| - 4..] == r[|r| - 4..];
  }

  /** No cache directory ends in `.git`, however many the URL had. */
  lemma UrlToPathNoGitSuffix(url: string)
    ensures !EndsWith(UrlToPath(url), ".git")
  {
    var u := TrimEndMatches(url, ".git");
    var r := UrlToPath(url);
    if StartsWith(u, "https://") {
      if EndsWith(u[8..], ".git") {
        EndsWithOfSuffix(u, 8, ".git");
      }
    } else if StartsWith(u, "git@") {
      if EndsWith(ReplaceChar(u[4..], ':', '/'), ".git") {
        ReplaceKeepsGitSuffix(u[4..]);
        EndsWithOfSuffix(u, 4, ".git");
      }
    }
  }

  /** One `.git` comes off a text that does not end in `.git` already. */
  lemma TrimOneGit(s: string)
    requires !EndsWith(s, ".git")
    ensures TrimEndMatches(s + ".git", ".git") == s
  {
    assert EndsWith(s + ".git", ".git") by {
      assert (s + ".git")[|s|..] == ".git";
    }
    assert (s + ".git")[..|s|] == s;
  }

  lemma HttpsUrl(host: string, path: string)
    requires !EndsWith(path, ".git")
    ensures UrlToPath("https://" + host + "/" + path + ".git") == host + "/" + path
  {
    var https := "https://" + host + "/" + path;
    NoGitSuffixAfter("https://" + host, '/', path);
    assert https == ("https://" + host) + ['/'] + path;
    TrimOneGit(https);
    assert https[..8] == "https://";
    assert https[8..] == host + "/" + path;
  }

  lemma SshUrl(host: string, path: string)
    requires ':' !in host && ':' !in path && !EndsWith(path, ".git")
    ensures UrlToPath("git@" + host + ":" + path + ".git") == host + "/" + path
  {
    var ssh := "git@" + host + ":" + path;
    NoGitSuffixAfter("git@" + host, ':', path);
    assert ssh == ("git@" + host) + [':'] + path;
    TrimOneGit(ssh);
    assert !StartsWith(ssh, "https://") by {
      if |ssh| >= 8 {
        assert ssh[..8][0] == ssh[0] == 'g';
      }
    }
    assert ssh[..4] == "git@";
    assert ssh[4..] == host + ":" + path;
    ColonToSlash(host, path);
  }

  /** The one ':' between a host and a path without ':' becomes '/'. */
  lemma ColonToSlash(host: string, path: string)
    requires ':' !in host && ':' !in path
    ensures ReplaceChar(host + ":" + path, ':', '/') == host + "/" + path
  {
    var rest := host + ":" + path;
    var r := ReplaceChar(rest, ':', '/');
    forall j | 0 <= j < |r| ensures r[j] == (host + "/" + path)[j] {
      if j < |host| {
        assert rest[j] == host[j];
      } else if j > |host| {
        assert rest[j] == path[j - |host| - 1];
      }
    }
  }

  /**
    * The HTTPS and the SSH form of one repository's URL give the same cache
    * directory, `host/path`.
    */
  lemma UrlFormsAgree(host: string, path: string)
    requires ':' !in host && ':' !in path && !EndsWith(path, ".git")
    ensures UrlToPath("https://" + host + "/" + path + ".git") == UrlToPath("git@" + host + ":" + path + ".git")
    ensures UrlToPath("https://" + host + "/" + path + ".git") == host + "/" + path
  {
    HttpsUrl(host, path);
    SshUrl(host, path);
  }

  // ---------------------------------------------------------------------
  // LocalSource::list_bundles
  // ---------------------------------------------------------------------

  /** Hidden directories and the `shell` directory are not bundles. */
  predicate SkippedBundleDir(name: string) {
    StartsWith(name, ".") || name == "shell"
  }

  /**
    * What one entry of a source directory contributes: the flat-layout
    * bundle of a directory that is not skipped, if it builds and is not
    * empty.
    */
  function LocalBundle(t: Tree, root: Path, n: string): Option<Bundle> {
    var p := root + [n];
    if !IsDir(t, p) || SkippedBundleDir(n) then None
    else match FromPath(t, p)
      case Err(_) => None
      case Ok(b) => if IsEmpty(b) then None else Some(b)
  }

  function BundleOf(t: Tree, root: Path): string -> Option<Bundle> {
    n => LocalBundle(t, root, n)
  }

  /**
    * `list_bundles` of a local source: nothing for a missing directory; the
    * one-bundle-per-resource listing for a resources-format source; otherwise
    * the bundles of its entries sorted by name, or the error of listing it.
    */
  function SourceBundles(t: Tree, root: Path, parseMeta: string -> Option<string>): (r: Result<seq<Bundle>, IoError>)
    ensures root !in t ==> r == Ok([])
    ensures root in t && IsResourcesFormat(t, root) ==> r == ResourceBundles(t, root, parseMeta)
    ensures !IsResourcesFormat(t, root) ==> (r.Err? <==> IsFile(t, root))
  {
    if root !in t then Ok([])
    else if IsResourcesFormat(t, root) then ResourceBundles(t, root, parseMeta)
    else match ReadDir(t, root)
      case Err(e) => Err(e)
      case Ok(names) => Ok(SortBy(FilterMap(names, BundleOf(t, root)), BundleName))
  }

  /** A source's bundles come sorted by name, and a flat source holds one bundle per contributing directory. */
  lemma SourceBundlesSorted(t: Tree, root: Path, parseMeta: string -> Option<string>)
    requires SourceBundles(t, root, parseMeta).Ok?
    ensures SortedBy(SourceBundles(t, root, parseMeta).value, BundleName)
    ensures IsDir(t, root) && !IsResourcesFormat(t, root) ==>
      |SourceBundles(t, root, parseMeta).value| == |Filter(t[root].children, Yields(BundleOf(t, root)))|
  {
    var r := SourceBundles(t, root, parseMeta).value;
    if root in t {
      if IsResourcesFormat(t, root) {
        ResourceBundlesSorted(t, root, parseMeta);
        forall i, j | 0 <= i < j < |r| ensures LexLe(BundleName(r[i]), BundleName(r[j])) {
          assert LexLt(BundleName(r[i]), BundleName(r[j]));
        }
      } else {
        var found := FilterMap(t[root].children, BundleOf(t, root));
        SortBySorted(found, BundleName);
        FilterMapCount(t[root].children, BundleOf(t, root));
      }
    }
  }

  /**
    * Every bundle of a flat source is the non-empty bundle of one directory
    * entry that is neither hidden nor `shell`.
    */
  lemma SourceBundlesSound(t: Tree, root: Path, parseMeta: string -> Option<string>, i: nat)
    requires IsDir(t, root) && !IsResourcesFormat(t, root)
    requires i < |SourceBundles(t, root, parseMeta).value|
    ensures var b := SourceBundles(t, root, parseMeta).value[i];
      exists j :: (0 <= j < |t[root].children| && IsDir(t, root + [t[root].children[j]]) &&
                   !SkippedBundleDir(t[root].children[j]) &&
                   FromPath(t, root + [t[root].children[j]]) == Ok(b) && !IsEmpty(b))
  {
    var names := t[root].children;
    var found := FilterMap(names, BundleOf(t, root));
    var r := SourceBundles(t, root, parseMeta).value;
    SortByPermutation(found, BundleName);
    assert r[i] in multiset(found);
    var k :| 0 <= k < |found| && found[k] == r[i];
    FilterMapSound(names, BundleOf(t, root), k);
    var j :| 0 <= j < |names| && BundleOf(t, root)(names[j]) == Some(found[k]);
    LocalBundleSome(t, root, names[j], r[i]);
  }

  /** A bundle an entry contributes is the non-empty bundle of a directory that is neither hidden nor `shell`. */
  lemma LocalBundleSome(t: Tree, root: Path, n: string, b: Bundle)
    requires LocalBundle(t, root, n) == Some(b)
    ensures IsDir(t, root + [n]) && !SkippedBundleDir(n) && FromPath(t, root + [n]) == Ok(b) && !IsEmpty(b)
  {
  }

  /** Every non-empty bundle of a listed directory that is neither hidden nor `shell` is returned. */
  lemma SourceBundlesComplete(t: Tree, root: Path, parseMeta: string -> Option<string>, n: string)
    requires IsDir(t, root) && !IsResourcesFormat(t, root) && n in t[root].children
    requires IsDir(t, root + [n]) && !SkippedBundleDir(n)
    requires FromPath(t, root + [n]).Ok? && !IsEmpty(FromPath(t, root + [n]).value)
    ensures FromPath(t, root + [n]).value in SourceBundles(t, root, parseMeta).value
  {
    var names := t[root].children;
    var found := FilterMap(names, BundleOf(t, root));
    var j :| 0 <= j < |names| && names[j] == n;
    assert BundleOf(t, root)(names[j]) == Some(FromPath(t, root + [n]).value);
    FilterMapComplete(names, BundleOf(t, root), j);
    SortByPermutation(found, BundleName);
    assert FromPath(t, root + [n]).value in multiset(found);
  }

  /** `LocalSource::list_bundles`: the resources layout, or the entries loop followed by the sort by name. */
  method ListBundles(t: Tree, root: Path, parseMeta: string -> Option<string>) returns (r: Result<seq<Bundle>, IoError>)
    ensures r == SourceBundles(t, root, parseMeta)
  {
    if !Exists(t, root) {
      return Ok([]);
    }
    if IsResourcesFormat(t, root) {
      r := ListFromResourcesPath(t, root, parseMeta);
      return;
    }
    var listing := ReadDir(t, root);
    if listing.Err? {
      return Err(listing.error);
    }
    var bundles := CollectBundles(t, root, listing.value);
    return Ok(SortBy(bundles, BundleName));
  }

  /** The entries loop of `list_bundles`, with its skips: not a directory, hidden, `shell`, unloadable, empty. */
  method CollectBundles(t: Tree, root: Path, names: seq<string>) returns (bundles: seq<Bundle>)
    ensures bundles == FilterMap(names, BundleOf(t, root))
  {
    bundles := [];
    for i := 0 to |names|
      invariant bundles == FilterMap(names[..i], BundleOf(t, root))
    {
      FilterMapSnoc(names[..i], names[i], BundleOf(t, root));
      assert names[..i + 1] == names[..i] + [names[i]];
      var p := root + [names[i]];
      if !IsDir(t, p) {
        continue;
      }
      var name := names[i];
      if StartsWith(name, ".") || name == "shell" {
        continue;
      }
      var built := FromPath(t, p);
      if built.Ok? && !IsEmpty(built.value) {
        bundles := bundles + [built.value];
      }
    }
    assert names[..|names|] == names;
  }
}
