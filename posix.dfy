/** Python's `posixpath` (`os.path` on Linux) on string paths with separator '/'. */
module Posix {
  import opened Text

  /** `s.rfind(c)`: the index of the last `c` in `s`, or -1. */
  function RFind(s: string, c: char): (r: int)
    ensures -1 <= r < |s|
    ensures r >= 0 ==> s[r] == c
    ensures forall k :: r < k < |s| ==> s[k] != c
  {
    if |s| == 0 then -1
    else if s[|s| - 1] == c then |s| - 1
    else RFind(s[..|s| - 1], c)
  }

  predicate NoSlash(s: string) {
    forall k :: 0 <= k < |s| ==> s[k] != '/'
  }

  predicate AllSlashes(s: string) {
    forall k :: 0 <= k < |s| ==> s[k] == '/'
  }

  /** `s.rstrip('/')`. */
  function RStripSlashes(s: string): (r: string)
    ensures |r| <= |s| && r == s[..|r|]
    ensures r == [] || r[|r| - 1] != '/'
    ensures forall k :: |r| <= k < |s| ==> s[k] == '/'
  {
    if |s| == 0 || s[|s| - 1] != '/' then s else RStripSlashes(s[..|s| - 1])
  }

  /** `os.path.basename(p)`: everything after the last '/'. */
  function Basename(p: string): string {
    p[RFind(p, '/') + 1..]
  }

  /**
   * `os.path.dirname(p)`: everything up to the last '/', with trailing slashes removed
   * unless the head consists of slashes only.
   */
  function Dirname(p: string): string {
    var head := p[..RFind(p, '/') + 1];
    if head != "" && !AllSlashes(head) then RStripSlashes(head) else head
  }

  /** `os.path.join(a, b)` for two components. */
  function Join(a: string, b: string): string {
    if StartsWith(b, "/") then b
    else if a == "" || EndsWith(a, "/") then a + b
    else a + "/" + b
  }

  /**
   * `os.path.splitext(p)`: splits at the last '.', provided it lies in the last component and
   * that component has a character other than '.' before it; otherwise the extension is empty.
   */
  function SplitExt(p: string): (string, string) {
    var sep := RFind(p, '/');
    var dot := RFind(p, '.');
    if dot > sep && exists k :: sep + 1 <= k < dot && p[k] != '.' then (p[..dot], p[dot..])
    else (p, "")
  }

  lemma SplitExtRoundTrip(p: string)
    ensures SplitExt(p).0 + SplitExt(p).1 == p
  {
  }

  lemma {:induction false} RFindAfter(a: string, b: string, c: char)
    requires forall k :: 0 <= k < |b| ==> b[k] != c
    ensures RFind(a + b, c) == RFind(a, c)
    decreases |b|
  {
    if |b| > 0 {
      assert (a + b)[..|a + b| - 1] == a + b[..|b| - 1];
      RFindAfter(a, b[..|b| - 1], c);
    } else {
      assert a + b == a;
    }
  }

  lemma RFindLast(a: string, b: string, c: char)
    requires forall k :: 0 <= k < |b| ==> b[k] != c
    ensures RFind(a + [c] + b, c) == |a|
  {
    RFindAfter(a + [c], b, c);
  }

  lemma SplitExtNoSlash(p: string)
    requires NoSlash(p)
    ensures NoSlash(SplitExt(p).0) && NoSlash(SplitExt(p).1)
  {
  }

  lemma BasenameNoSlash(p: string)
    ensures NoSlash(Basename(p))
  {
  }

  /** Joining a directory with a plain name and taking the basename gives back the name. */
  lemma JoinBasename(d: string, name: string)
    requires NoSlash(name) && name != ""
    ensures Basename(Join(d, name)) == name
  {
    if d == "" {
      RFindAfter("", name, '/');
      assert "" + name == name;
    } else if EndsWith(d, "/") {
      assert d == d[..|d| - 1] + ['/'];
      RFindLast(d[..|d| - 1], name, '/');
      assert d[..|d| - 1] + ['/'] + name == d + name;
    } else {
      RFindLast(d, name, '/');
    }
  }

  /** `Dirname(p)` is empty, all slashes, or ends in a character other than a slash. */
  lemma DirnameShape(p: string)
    ensures var d := Dirname(p);
      d == "" || AllSlashes(d) || (d[|d| - 1] != '/' && !AllSlashes(d))
  {
    var head := p[..RFind(p, '/') + 1];
    if head != "" && !AllSlashes(head) {
      var r := RStripSlashes(head);
      var k :| 0 <= k < |head| && head[k] != '/';
      assert k < |r| && r[k] != '/';
    }
  }

  /** Joining `Dirname(p)` with a plain name yields a path in that same directory. */
  lemma JoinDirname(p: string, name: string)
    requires NoSlash(name) && name != ""
    ensures Dirname(Join(Dirname(p), name)) == Dirname(p)
  {
    var d := Dirname(p);
    DirnameShape(p);
    if d == "" {
      JoinDirnameEmpty(name);
    } else if AllSlashes(d) {
      JoinDirnameRoot(d, name);
    } else {
      JoinDirnamePlain(d, name);
    }
  }

  lemma JoinDirnameEmpty(name: string)
    requires NoSlash(name) && name != ""
    ensures Dirname(Join("", name)) == ""
  {
    RFindAfter("", name, '/');
    assert "" + name == name;
    assert Join("", name) == name;
  }

  lemma JoinDirnameRoot(d: string, name: string)
    requires NoSlash(name) && name != "" && d != "" && AllSlashes(d)
    ensures Dirname(Join(d, name)) == d
  {
    assert EndsWith(d, "/");
    assert name[0] != '/' && !StartsWith(name, "/");
    assert Join(d, name) == d + name;
    assert d == d[..|d| - 1] + ['/'];
    RFindLast(d[..|d| - 1], name, '/');
    assert d[..|d| - 1] + ['/'] + name == d + name;
    assert (d + name)[..|d|] == d;
  }

  lemma JoinDirnamePlain(d: string, name: string)
    requires NoSlash(name) && name != "" && d != "" && d[|d| - 1] != '/' && !AllSlashes(d)
    ensures Dirname(Join(d, name)) == d
  {
    assert !EndsWith(d, "/");
    var j := d + "/" + name;
    assert Join(d, name) == j;
    RFindLast(d, name, '/');
    assert j[..|d| + 1] == d + "/";
    var k :| 0 <= k < |d| && d[k] != '/';
    assert (d + "/")[k] != '/';
    assert RStripSlashes(d + "/") == RStripSlashes((d + "/")[..|d + "/"| - 1]);
    assert (d + "/")[..|d + "/"| - 1] == d;
  }
}
