/**
  The three `os.path` operations the application uses, with the semantics of
  Python's POSIX implementation (`posixpath`): `join`, `basename` and
  `splitext`. Paths are plain strings; `/` separates components and `.`
  introduces an extension.
 */
module PosixPath {

  const Sep: char := '/'
  const ExtSep: char := '.'

  /** Index of the last occurrence of `c` in `s`, or -1 when there is none
      (Python's `str.rfind`). */
  function RFind(s: string, c: char): (r: int)
    ensures -1 <= r < |s|
    ensures 0 <= r ==> s[r] == c
    ensures forall j :: r < j < |s| ==> s[j] != c
  {
    if |s| == 0 then -1
    else if s[|s| - 1] == c then |s| - 1
    else RFind(s[..|s| - 1], c)
  }

  predicate IsAbsolute(p: string) {
    |p| > 0 && p[0] == Sep
  }

  /** `os.path.join(a, b)`: an absolute `b` replaces `a`; otherwise `b` is
      appended to `a`, with one separator in between unless `a` is empty or
      already ends in one. */
  function Join(a: string, b: string): (r: string)
    ensures |b| <= |r| && r[|r| - |b|..] == b
    ensures IsAbsolute(b) ==> r == b
    ensures !IsAbsolute(b) ==> |a| <= |r| <= |a| + |b| + 1 && r[..|a|] == a
    ensures !IsAbsolute(b) && a != [] ==> |b| < |r| && r[|r| - |b| - 1] == Sep
    ensures !IsAbsolute(b) ==> r == a + b || r == a + [Sep] + b
    ensures !IsAbsolute(b) && (a == [] || a[|a| - 1] == Sep) ==> r == a + b
  {
    if IsAbsolute(b) then b
    else if a == [] || a[|a| - 1] == Sep then a + b
    else a + [Sep] + b
  }

  /** `os.path.basename(p)`: the longest suffix of `p` without a separator. */
  function Basename(p: string): (r: string)
    ensures |r| <= |p| && r == p[|p| - |r|..]
    ensures Sep !in r
    ensures |r| < |p| ==> p[|p| - |r| - 1] == Sep
  {
    var i := RFind(p, Sep);
    var r := p[i + 1..];
    assert forall k :: 0 <= k < |r| ==> r[k] == p[i + 1 + k];
    r
  }

  /** `os.path.splitext(p)`: splits off the last `.`-suffix of the final
      component, unless every character before that dot in the component is
      itself a dot (so `.bashrc` and `..` have no extension). */
  function SplitExt(p: string): (r: (string, string))
    ensures r.0 + r.1 == p
    ensures r.1 == [] || (r.1[0] == ExtSep && ExtSep !in r.1[1..] && Sep !in r.1)
  {
    var sepIndex := RFind(p, Sep);
    var dotIndex := RFind(p, ExtSep);
    if sepIndex < dotIndex && exists k | sepIndex + 1 <= k < dotIndex :: p[k] != ExtSep then
      var ext := p[dotIndex..];
      assert forall k :: 0 <= k < |ext| ==> ext[k] == p[dotIndex + k];
      (p[..dotIndex], ext)
    else
      (p, [])
  }

  /** Independent description of an extension dot: `p[i]` is the last dot of
      `p`, no separator follows it, and the final component before it holds a
      character other than a dot. */
  ghost predicate ExtDotAt(p: string, i: int) {
    && 0 <= i < |p|
    && p[i] == ExtSep
    && (forall k :: i < k < |p| ==> p[k] != ExtSep && p[k] != Sep)
    && (exists k :: 0 <= k < i && p[k] != ExtSep && p[k] != Sep
                    && forall j :: k < j < i ==> p[j] != Sep)
  }

  /** `splitext` finds an extension exactly when `p` has an extension dot,
      and then splits at that dot. */
  lemma SplitExtIsExtDot(p: string)
    ensures SplitExt(p).1 != [] ==> ExtDotAt(p, |SplitExt(p).0|)
    ensures SplitExt(p).1 == [] ==> forall i :: !ExtDotAt(p, i)
  {
    var sepIndex := RFind(p, Sep);
    var dotIndex := RFind(p, ExtSep);
    if SplitExt(p).1 != [] {
      assert sepIndex < dotIndex;
      var k :| sepIndex + 1 <= k < dotIndex && p[k] != ExtSep;
      assert |SplitExt(p).0| == dotIndex;
      assert 0 <= k < dotIndex && p[k] != ExtSep && p[k] != Sep
             && forall j :: k < j < dotIndex ==> p[j] != Sep;
    } else {
      forall i | 0 <= i < |p| && p[i] == ExtSep
        ensures !ExtDotAt(p, i)
      {
        if ExtDotAt(p, i) {
          assert dotIndex == i;
          var k :| 0 <= k < i && p[k] != ExtSep && p[k] != Sep
                   && forall j :: k < j < i ==> p[j] != Sep;
          assert false;
        }
      }
    }
  }

  /** At most one position of a path is an extension dot. */
  lemma ExtDotUnique(p: string, i: int, j: int)
    requires ExtDotAt(p, i) && ExtDotAt(p, j)
    ensures i == j
  {
  }

  /** `splitext(stem + "." + x)` gives `(stem, "." + x)` when neither part
      contains a separator or a dot and the stem is not empty. */
  lemma SplitExtPlain(stem: string, x: string)
    requires stem != []
    requires Sep !in stem && ExtSep !in stem
    requires Sep !in x && ExtSep !in x
    ensures SplitExt(stem + [ExtSep] + x) == (stem, [ExtSep] + x)
  {
    var p := stem + [ExtSep] + x;
    var n := |stem|;
    assert p[n] == ExtSep;
    assert forall k :: n < k < |p| ==> p[k] == x[k - n - 1];
    assert 0 <= 0 < n && p[0] != ExtSep && p[0] != Sep
           && forall j :: 0 < j < n ==> p[j] != Sep;
    assert ExtDotAt(p, n);
    SplitExtIsExtDot(p);
    var r := SplitExt(p);
    ExtDotUnique(p, n, |r.0|);
    assert r.0 == p[..n] == stem;
    assert r.1 == p[n..] == [ExtSep] + x;
  }

  /** The basename of `join(a, b)` is `b` itself when `b` holds no separator. */
  lemma BasenameOfJoin(a: string, b: string)
    requires Sep !in b
    ensures Basename(Join(a, b)) == b
  {
    var r := Join(a, b);
    var i := RFind(r, Sep);
    if a == [] {
      assert r == b;
      assert i == -1;
    } else {
      assert r[|r| - |b| - 1] == Sep;
      assert forall k :: |r| - |b| <= k < |r| ==> r[k] == b[k - (|r| - |b|)];
      assert i == |r| - |b| - 1;
    }
  }
}
