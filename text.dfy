/**
  * Text helpers with Rust `str` semantics: `starts_with`, `lines`, `trim`,
  * `trim_start_matches`, `trim_end_matches`, `split_once`, `replace` and
  * `join`. Strings are sequences of Unicode scalar values.
  */
module Text {
  import opened Wrappers

  predicate StartsWith(s: string, prefix: string) {
    |prefix| <= |s| && s[..|prefix|] == prefix
  }

  predicate EndsWith(s: string, suffix: string) {
    |suffix| <= |s| && s[|s| - |suffix|..] == suffix
  }

  lemma StartsWithAppend(prefix: string, rest: string)
    ensures StartsWith(prefix + rest, prefix)
  {
    assert (prefix + rest)[..|prefix|] == prefix;
  }

  lemma StartsWithTrans(s: string, t: string, prefix: string)
    requires StartsWith(s, t) && StartsWith(t, prefix)
    ensures StartsWith(s, prefix)
  {
    assert s[..|prefix|] == t[..|t|][..|prefix|];
  }

  // ---------------------------------------------------------------------
  // str::lines
  // ---------------------------------------------------------------------

  /** Index of the first '\n' in `s`, or |s| when there is none. */
  function LineEnd(s: string): (k: nat)
    ensures k <= |s|
    ensures forall j :: 0 <= j < k ==> s[j] != '\n'
    ensures k < |s| ==> s[k] == '\n'
  {
    if s == [] || s[0] == '\n' then 0 else 1 + LineEnd(s[1..])
  }

  /** Drops one '\r' at the end of a line, as `lines` does before a '\n'. */
  function StripCr(line: string): (r: string)
    ensures |line| > 0 && line[|line| - 1] == '\r' ==> r == line[..|line| - 1]
    ensures !(|line| > 0 && line[|line| - 1] == '\r') ==> r == line
  {
    if |line| > 0 && line[|line| - 1] == '\r' then line[..|line| - 1] else line
  }

  /**
    * Rust's `str::lines`: the text is cut after every '\n'; each piece loses
    * its '\n' and then one '\r' before it; a final piece without '\n' is kept
    * as it is, and there is no empty line after a final '\n'.
    */
  function Lines(s: string): seq<string>
    decreases |s|
  {
    if s == [] then []
    else
      var k := LineEnd(s);
      if k == |s| then [s] else [StripCr(s[..k])] + Lines(s[k + 1..])
  }

  /** A line without '\n' followed by '\n' is the first line of the text. */
  lemma LinesCons(line: string, rest: string)
    requires forall j :: 0 <= j < |line| ==> line[j] != '\n'
    ensures Lines(line + "\n" + rest) == [StripCr(line)] + Lines(rest)
  {
    var s := line + "\n" + rest;
    LineEndAt(s, |line|);
    assert s[..|line|] == line;
    assert s[|line| + 1..] == rest;
  }

  lemma LineEndAt(s: string, k: nat)
    requires k < |s| && s[k] == '\n'
    requires forall j :: 0 <= j < k ==> s[j] != '\n'
    ensures LineEnd(s) == k
  {
    if k > 0 {
      LineEndAt(s[1..], k - 1);
    }
  }

  /** No line produced by `lines` contains '\n'. */
  lemma {:induction false} LinesHaveNoNewline(s: string)
    ensures forall i, j :: 0 <= i < |Lines(s)| && 0 <= j < |Lines(s)[i]| ==> Lines(s)[i][j] != '\n'
    decreases |s|
  {
    if s != [] {
      var k := LineEnd(s);
      if k < |s| {
        LinesHaveNoNewline(s[k + 1..]);
        var ls := Lines(s);
        assert ls == [StripCr(s[..k])] + Lines(s[k + 1..]);
        forall i, j | 0 <= i < |ls| && 0 <= j < |ls[i]| ensures ls[i][j] != '\n' {
          if i == 0 {
            assert ls[0][j] == s[j];
          } else {
            assert ls[i] == Lines(s[k + 1..])[i - 1];
          }
        }
      }
    }
  }

  /** Text that starts with `prefix` (which has no '\n') has a first line that starts with `prefix`. */
  lemma FirstLineStartsWith(s: string, prefix: string)
    requires StartsWith(s, prefix) && |prefix| > 0
    requires forall j :: 0 <= j < |prefix| ==> prefix[j] != '\n' && prefix[j] != '\r'
    ensures |Lines(s)| > 0 && StartsWith(Lines(s)[0], prefix)
  {
    var k := LineEnd(s);
    assert forall j :: 0 <= j < |prefix| ==> s[j] == prefix[j];
    assert k >= |prefix|;
    if k < |s| {
      var line := s[..k];
      assert line[..|prefix|] == prefix;
      if |line| > |prefix| {
        assert line[..|line| - 1][..|prefix|] == prefix;
      } else {
        assert line == prefix;
      }
    }
  }

  /** Each line followed by '\n', concatenated: what a `push_str(line); push('\n')` loop builds. */
  function JoinTerminated(ls: seq<string>): string {
    if ls == [] then "" else ls[0] + "\n" + JoinTerminated(ls[1..])
  }

  lemma JoinTerminatedSnoc(ls: seq<string>, x: string)
    ensures JoinTerminated(ls + [x]) == JoinTerminated(ls) + x + "\n"
  {
    if ls != [] {
      assert (ls + [x])[1..] == ls[1..] + [x];
      JoinTerminatedSnoc(ls[1..], x);
    } else {
      assert (ls + [x])[1..] == [];
    }
  }

  predicate NoNewline(line: string) {
    forall j :: 0 <= j < |line| ==> line[j] != '\n'
  }

  predicate EndsWithCr(line: string) {
    |line| > 0 && line[|line| - 1] == '\r'
  }

  /** `lines` undoes JoinTerminated when no line has '\n' in it or a '\r' at its end. */
  lemma {:induction false} LinesOfJoinTerminated(ls: seq<string>)
    requires forall i :: 0 <= i < |ls| ==> NoNewline(ls[i]) && !EndsWithCr(ls[i])
    ensures Lines(JoinTerminated(ls)) == ls
  {
    if ls != [] {
      LinesOfJoinTerminated(ls[1..]);
      LinesCons(ls[0], JoinTerminated(ls[1..]));
    }
  }

  /** `lines` reads back the first line of a line-terminated header. */
  lemma LinesTerminatedStep(ls: seq<string>, rest: string)
    requires ls != [] && NoNewline(ls[0]) && !EndsWithCr(ls[0])
    ensures Lines(JoinTerminated(ls) + rest) == [ls[0]] + Lines(JoinTerminated(ls[1..]) + rest)
  {
    var tail := JoinTerminated(ls[1..]) + rest;
    assert JoinTerminated(ls) + rest == ls[0] + "\n" + tail;
    LinesCons(ls[0], tail);
  }

  /** `lines` reads back the lines of a line-terminated header and then the lines of what follows it. */
  lemma {:induction false} LinesAfterJoinTerminated(ls: seq<string>, rest: string)
    requires forall i :: 0 <= i < |ls| ==> NoNewline(ls[i]) && !EndsWithCr(ls[i])
    ensures Lines(JoinTerminated(ls) + rest) == ls + Lines(rest)
  {
    if ls == [] {
      assert JoinTerminated(ls) + rest == rest;
    } else {
      calc {
        Lines(JoinTerminated(ls) + rest);
        == { LinesTerminatedStep(ls, rest); }
        [ls[0]] + Lines(JoinTerminated(ls[1..]) + rest);
        == { LinesAfterJoinTerminated(ls[1..], rest); }
        [ls[0]] + (ls[1..] + Lines(rest));
        == { assert ls == [ls[0]] + ls[1..]; }
        ls + Lines(rest);
      }
    }
  }

  /** `slice.join(sep)`. */
  function Join(ls: seq<string>, sep: string): string {
    if ls == [] then "" else if |ls| == 1 then ls[0] else ls[0] + sep + Join(ls[1..], sep)
  }

  // ---------------------------------------------------------------------
  // trimming
  // ---------------------------------------------------------------------

  /** Unicode White_Space, the set `char::is_whitespace` (and so `trim`) uses. */
  predicate IsWhitespace(c: char) {
    ('\U{9}' <= c <= '\U{D}') || c == ' ' || c == '\U{85}' || c == '\U{A0}' ||
    c == '\U{1680}' || ('\U{2000}' <= c <= '\U{200A}') || c == '\U{2028}' ||
    c == '\U{2029}' || c == '\U{202F}' || c == '\U{205F}' || c == '\U{3000}'
  }

  function TrimStart(s: string): (r: string)
    ensures |r| <= |s| && r == s[|s| - |r|..]
    ensures r == [] || !IsWhitespace(r[0])
    ensures forall j :: 0 <= j < |s| - |r| ==> IsWhitespace(s[j])
  {
    if s != [] && IsWhitespace(s[0]) then TrimStart(s[1..]) else s
  }

  function TrimEnd(s: string): (r: string)
    ensures |r| <= |s| && r == s[..|r|]
    ensures r == [] || !IsWhitespace(r[|r| - 1])
    ensures forall j :: |r| <= j < |s| ==> IsWhitespace(s[j])
  {
    if s != [] && IsWhitespace(s[|s| - 1]) then TrimEnd(s[..|s| - 1]) else s
  }

  function Trim(s: string): (r: string)
    ensures |r| <= |s|
    ensures r == [] || (!IsWhitespace(r[0]) && !IsWhitespace(r[|r| - 1]))
  {
    TrimEnd(TrimStart(s))
  }

  /** `trim_start_matches(c)` for a single character. */
  function TrimStartChar(s: string, c: char): (r: string)
    ensures |r| <= |s| && r == s[|s| - |r|..]
    ensures r == [] || r[0] != c
    ensures forall j :: 0 <= j < |s| - |r| ==> s[j] == c
  {
    if s != [] && s[0] == c then TrimStartChar(s[1..], c) else s
  }

  /** `trim_end_matches(suffix)`: removes the suffix as long as it is there. */
  function TrimEndMatches(s: string, suffix: string): (r: string)
    requires |suffix| > 0
    ensures |r| <= |s| && r == s[..|r|]
    ensures !EndsWith(r, suffix)
    decreases |s|
  {
    if EndsWith(s, suffix) then TrimEndMatches(s[..|s| - |suffix|], suffix) else s
  }

  // ---------------------------------------------------------------------
  // searching and rewriting
  // ---------------------------------------------------------------------

  /** Index of the first occurrence of `c`. */
  function IndexOf(s: string, c: char): (r: Option<nat>)
    ensures r.None? ==> c !in s
    ensures r.Some? ==> r.value < |s| && s[r.value] == c && c !in s[..r.value]
  {
    if s == [] then None
    else if s[0] == c then Some(0)
    else match IndexOf(s[1..], c)
      case None => None
      case Some(k) =>
        assert s[..k + 1] == [s[0]] + s[1..][..k];
        Some(k + 1)
  }

  /** `split_once(c)`: the text before and after the first `c`. */
  function SplitOnce(s: string, c: char): (r: Option<(string, string)>)
    ensures r.None? <==> c !in s
    ensures r.Some? ==> s == r.value.0 + [c] + r.value.1 && c !in r.value.0
  {
    match IndexOf(s, c)
    case None => None
    case Some(k) =>
      assert s == s[..k] + [c] + s[k + 1..];
      Some((s[..k], s[k + 1..]))
  }

  /** The first `c` of a text is the one right after a `c`-free start. */
  lemma {:induction false} IndexOfAt(a: string, c: char, b: string)
    requires c !in a
    ensures IndexOf(a + [c] + b, c) == Some(|a|)
    decreases |a|
  {
    if a != [] {
      assert (a + [c] + b)[1..] == a[1..] + [c] + b;
      IndexOfAt(a[1..], c, b);
    }
  }

  /** `split_once` undoes joining two texts with a separator the first does not contain. */
  lemma SplitOnceAt(a: string, c: char, b: string)
    requires c !in a
    ensures SplitOnce(a + [c] + b, c) == Some((a, b))
  {
    IndexOfAt(a, c, b);
    var s := a + [c] + b;
    assert s[..|a|] == a;
    assert s[|a| + 1..] == b;
  }

  /** `replace(from, to)` for single characters. */
  function ReplaceChar(s: string, from: char, to: char): (r: string)
    ensures |r| == |s|
    ensures forall j :: 0 <= j < |s| ==> r[j] == (if s[j] == from then to else s[j])
  {
    if s == [] then [] else [if s[0] == from then to else s[0]] + ReplaceChar(s[1..], from, to)
  }

  /** ASCII `to_lowercase`. */
  function AsciiLower(s: string): (r: string)
    ensures |r| == |s|
    ensures forall j :: 0 <= j < |s| ==>
      r[j] == (if 'A' <= s[j] <= 'Z' then (s[j] as int + 32) as char else s[j])
  {
    if s == [] then []
    else [if 'A' <= s[0] <= 'Z' then (s[0] as int + 32) as char else s[0]] + AsciiLower(s[1..])
  }

  /** Number of bytes `c` takes in UTF-8. */
  function Utf8Width(c: char): nat {
    if c as int < 0x80 then 1 else if c as int < 0x800 then 2 else if c as int < 0x1_0000 then 3 else 4
  }

  /** Number of bytes of the UTF-8 encoding, which is what Rust's `str::len` counts. */
  function Utf8Len(s: string): (n: nat)
    ensures |s| <= n <= 4 * |s|
  {
    if s == [] then 0 else Utf8Width(s[0]) + Utf8Len(s[1..])
  }

  lemma {:induction false} Utf8LenAppend(a: string, b: string)
    ensures Utf8Len(a + b) == Utf8Len(a) + Utf8Len(b)
  {
    if a != [] {
      assert (a + b)[1..] == a[1..] + b;
      Utf8LenAppend(a[1..], b);
    } else {
      assert a + b == b;
    }
  }

  predicate IsAscii(s: string) {
    forall j :: 0 <= j < |s| ==> s[j] as int < 0x80
  }

  lemma {:induction false} AsciiUtf8Len(s: string)
    requires IsAscii(s)
    ensures Utf8Len(s) == |s|
  {
    if s != [] {
      AsciiUtf8Len(s[1..]);
    }
  }

  /** Slices of a text without '\n' have none either. */
  lemma NoNewlineSlice(s: string, i: nat, j: nat)
    requires NoNewline(s) && i <= j <= |s|
    ensures NoNewline(s[i..j])
  {
    forall k | 0 <= k < j - i ensures s[i..j][k] != '\n' {
      assert s[i..j][k] == s[i + k];
    }
  }

  /** A text of two-byte characters takes twice its length in bytes. */
  lemma {:induction false} TwoByteUtf8Len(s: string)
    requires forall j :: 0 <= j < |s| ==> Utf8Width(s[j]) == 2
    ensures Utf8Len(s) == 2 * |s|
  {
    if s != [] {
      assert forall j :: 0 <= j < |s| - 1 ==> s[1..][j] == s[j + 1];
      TwoByteUtf8Len(s[1..]);
    }
  }

  /**
    * The longest prefix of `s` whose encoding fits in `n` bytes: the slice
    * up to the last character boundary at or before byte `n`.
    */
  function FloorPrefix(s: string, n: nat): (r: string)
    ensures StartsWith(s, r) && Utf8Len(r) <= n
    ensures r == s || Utf8Len(r) + Utf8Width(s[|r|]) > n
  {
    if s == [] || Utf8Width(s[0]) > n then
      assert s[..0] == [];
      []
    else
      var rest := FloorPrefix(s[1..], n - Utf8Width(s[0]));
      assert ([s[0]] + rest)[1..] == rest;
      assert s[..|rest| + 1] == [s[0]] + s[1..][..|rest|];
      assert rest == s[1..] ==> [s[0]] + rest == s;
      [s[0]] + rest
  }

  /** Where the byte slice exists, it is the longest prefix that fits. */
  lemma {:induction false} FloorPrefixAgrees(s: string, n: nat)
    requires BytePrefix(s, n).Some?
    ensures FloorPrefix(s, n) == BytePrefix(s, n).value
  {
    if n > 0 {
      FloorPrefixAgrees(s[1..], n - Utf8Width(s[0]));
    }
  }

  /**
    * `&s[..n]` with `n` counted in bytes: the prefix whose encoding is
    * exactly `n` bytes long, or none when byte `n` falls inside a character
    * or past the end (where Rust panics).
    */
  function BytePrefix(s: string, n: nat): (r: Option<string>)
    ensures r.Some? ==> StartsWith(s, r.value) && Utf8Len(r.value) == n
    ensures r.None? ==> forall k :: 0 <= k <= |s| ==> Utf8Len(s[..k]) != n
    ensures IsAscii(s) && n <= |s| ==> r == Some(s[..n])
  {
    if n == 0 then
      assert s[..0] == [];
      Some([])
    else if s == [] then None
    else if Utf8Width(s[0]) > n then
      assert forall k :: 1 <= k <= |s| ==> s[..k] == [s[0]] + s[1..][..k - 1];
      None
    else match BytePrefix(s[1..], n - Utf8Width(s[0]))
      case None =>
        assert forall k :: 1 <= k <= |s| ==> s[..k] == [s[0]] + s[1..][..k - 1];
        None
      case Some(p) =>
        assert ([s[0]] + p)[1..] == p;
        assert s[..|p| + 1] == [s[0]] + s[1..][..|p|];
        assert IsAscii(s) && n <= |s| ==> s[..n] == [s[0]] + s[1..][..n - 1];
        Some([s[0]] + p)
  }
}
