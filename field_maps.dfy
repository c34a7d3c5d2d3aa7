/**
 * The `IntendedFor` half of `bidsifier/complete_jsons.py`: sidecars keyed by series number,
 * the nearest-preceding field-map lookup, the per-field-map target lists and their write-back.
 */
module FieldMaps {
  import opened Base
  import opened Text
  import opened Posix
  import opened Bids

  /** Python's `int(r)` on a float: truncation toward zero. */
  function Truncate(r: real): (i: int)
    ensures r >= 0.0 ==> i as real <= r < i as real + 1.0
    ensures r < 0.0 ==> i as real - 1.0 < r <= i as real
  {
    if r >= 0.0 then r.Floor else -((-r).Floor)
  }

  /** Python's `int(v)` on a JSON value. */
  function ToInt(v: Json): Result<int> {
    match v
    case Int(i) => Ok(i)
    case Num(r) => Ok(Truncate(r))
    case Bool(b) => Ok(if b then 1 else 0)
    case Str(s) =>
      (match ParseInt(s)
       case Some(i) => Ok(i)
       case None => Err(ValueError("invalid literal for int()")))
    case _ => Err(TypeError("int() argument must be a string or a number"))
  }

  /** `int(json.load(open(path))['SeriesNumber'])`. */
  function SeriesNumber(disk: JsonDisk, path: string): Result<int> {
    if path !in disk then Err(FileNotFoundError(path))
    else if "SeriesNumber" !in disk[path] then Err(KeyError("SeriesNumber"))
    else ToInt(disk[path]["SeriesNumber"])
  }

  /** The series numbers of `files` in order, paired with the files; the first failure raises. */
  function Entries(disk: JsonDisk, files: seq<string>): (r: Result<seq<(int, string)>>)
    ensures r.Ok? ==> |r.value| == |files|
    ensures r.Ok? ==> forall i :: 0 <= i < |files| ==>
      r.value[i].1 == files[i] && SeriesNumber(disk, files[i]) == Ok(r.value[i].0)
  {
    if |files| == 0 then Ok([])
    else
      var front :- Entries(disk, files[..|files| - 1]);
      var n :- SeriesNumber(disk, files[|files| - 1]);
      Ok(front + [(n, files[|files| - 1])])
  }

  /** Once a prefix of `files` raises, the whole list raises with the same exception. */
  lemma {:induction false} EntriesErrorSticks(disk: JsonDisk, files: seq<string>, i: nat)
    requires i <= |files| && Entries(disk, files[..i]).Err?
    ensures Entries(disk, files).Err? && Entries(disk, files).error == Entries(disk, files[..i]).error
    decreases |files|
  {
    if i == |files| {
      assert files[..i] == files;
    } else {
      var front := files[..|files| - 1];
      assert front[..i] == files[..i];
      EntriesErrorSticks(disk, front, i);
    }
  }

  /**
   * A Python dict from series number to file: `order` lists the keys in insertion order,
   * `file` maps each key to its value.
   */
  datatype SeriesIndex = SeriesIndex(order: seq<int>, file: map<int, string>)

  predicate IndexWellFormed(ix: SeriesIndex) {
    Distinct(ix.order) && ix.file.Keys == set n | n in ix.order
  }

  /** `d[n] = f`: a new key goes to the end, an existing key keeps its place and gets the new file. */
  function Put(ix: SeriesIndex, n: int, f: string): SeriesIndex {
    SeriesIndex(if n in ix.file then ix.order else ix.order + [n], ix.file[n := f])
  }

  /** The dict built by assigning the entries in order. */
  function IndexOf(entries: seq<(int, string)>): SeriesIndex {
    if |entries| == 0 then SeriesIndex([], map[])
    else
      var last := entries[|entries| - 1];
      Put(IndexOf(entries[..|entries| - 1]), last.0, last.1)
  }

  /**
   * The dict holds each series number of the entries exactly once, and a series number
   * that occurs several times keeps the file of its last occurrence.
   */
  lemma {:induction false} IndexOfSpec(entries: seq<(int, string)>)
    ensures IndexWellFormed(IndexOf(entries))
    ensures forall n :: n in IndexOf(entries).file <==> exists i :: 0 <= i < |entries| && entries[i].0 == n
    ensures forall n :: n in IndexOf(entries).file ==> exists i :: 0 <= i < |entries| && entries[i] == (n, IndexOf(entries).file[n])
    ensures forall i :: 0 <= i < |entries| && (forall j :: i < j < |entries| ==> entries[j].0 != entries[i].0) ==>
      IndexOf(entries).file[entries[i].0] == entries[i].1
  {
    if |entries| > 0 {
      var front := entries[..|entries| - 1];
      var last := entries[|entries| - 1];
      var ix := IndexOf(front);
      IndexOfSpec(front);
      var r := IndexOf(entries);
      assert r == Put(ix, last.0, last.1);
      if last.0 !in ix.file {
        assert Distinct(r.order) by {
          forall a, b | 0 <= a < b < |r.order| ensures r.order[a] != r.order[b] {
            if b == |ix.order| {
              assert r.order[a] == ix.order[a];
            }
          }
        }
      }
      forall n ensures n in r.file <==> exists i :: 0 <= i < |entries| && entries[i].0 == n {
        if n in ix.file && n != last.0 {
          var i :| 0 <= i < |front| && front[i].0 == n;
          assert entries[i].0 == n;
        }
        if n != last.0 && exists i :: 0 <= i < |entries| && entries[i].0 == n {
          var i :| 0 <= i < |entries| && entries[i].0 == n;
          assert i < |front| && front[i].0 == n;
        }
        if n == last.0 {
          assert entries[|entries| - 1].0 == n;
        }
      }
      forall i | 0 <= i < |entries| && (forall j :: i < j < |entries| ==> entries[j].0 != entries[i].0)
        ensures r.file[entries[i].0] == entries[i].1
      {
        if i < |front| {
          assert entries[i] == front[i];
          assert forall j :: i < j < |front| ==> front[j] == entries[j];
        }
      }
    }
  }

  /** `files_to_dict(files)`, or the exception reading a sidecar raises. */
  function SeriesDict(disk: JsonDisk, files: seq<string>): Result<SeriesIndex> {
    var entries :- Entries(disk, files);
    Ok(IndexOf(entries))
  }

  /**
   * `files_to_dict`: each sidecar in turn is read and filed under its integer series number;
   * a later file with the same number replaces the earlier one.
   */
  method FilesToDict(disk: JsonDisk, files: seq<string>) returns (r: Result<SeriesIndex>)
    ensures r == SeriesDict(disk, files)
  {
    var outDict := SeriesIndex([], map[]);
    ghost var entries: seq<(int, string)> := [];
    for i := 0 to |files|
      invariant Entries(disk, files[..i]) == Ok(entries)
      invariant outDict == IndexOf(entries)
    {
      assert files[..i + 1][..i] == files[..i];
      var acqTime := SeriesNumber(disk, files[i]);
      if acqTime.Err? {
        EntriesErrorSticks(disk, files, i + 1);
        return Err(acqTime.error);
      }
      outDict := Put(outDict, acqTime.value, files[i]);
      entries := entries + [(acqTime.value, files[i])];
    }
    assert files[..|files|] == files;
    return Ok(outDict);
  }

  predicate SortedInts(a: seq<int>) {
    forall i, j :: 0 <= i < j < |a| ==> a[i] <= a[j]
  }

  function InsertInt(x: int, s: seq<int>): (r: seq<int>)
    requires SortedInts(s)
    ensures SortedInts(r) && multiset(r) == multiset(s) + multiset{x}
  {
    if |s| == 0 || x <= s[0] then
      assert forall k :: 0 <= k < |s| ==> s[0] <= s[k];
      ConsSorted(x, s);
      [x] + s
    else
      var rest := InsertInt(x, s[1..]);
      assert s == [s[0]] + s[1..];
      BoundBelow(s[0], x, s[1..], rest);
      ConsSorted(s[0], rest);
      [s[0]] + rest
  }

  lemma ConsSorted(h: int, t: seq<int>)
    requires SortedInts(t) && forall k :: 0 <= k < |t| ==> h <= t[k]
    ensures SortedInts([h] + t)
  {
    forall i, j | 0 <= i < j < |[h] + t| ensures ([h] + t)[i] <= ([h] + t)[j] {
      assert ([h] + t)[j] == t[j - 1];
      if i > 0 {
        assert ([h] + t)[i] == t[i - 1];
      }
    }
  }

  /** A bound below `x` and below every element of `tail` bounds every element of `tail` with `x` added. */
  lemma BoundBelow(lo: int, x: int, tail: seq<int>, rest: seq<int>)
    requires lo <= x && multiset(rest) == multiset(tail) + multiset{x}
    requires forall k :: 0 <= k < |tail| ==> lo <= tail[k]
    ensures forall k :: 0 <= k < |rest| ==> lo <= rest[k]
  {
    forall k | 0 <= k < |rest| ensures lo <= rest[k] {
      var y := rest[k];
      assert y in multiset(rest);
      if y != x {
        assert y in multiset(tail);
        var j :| 0 <= j < |tail| && tail[j] == y;
      }
    }
  }

  /** Python's `sorted(xs)` for a list of `int`. */
  function SortInts(xs: seq<int>): (r: seq<int>)
    ensures SortedInts(r) && multiset(r) == multiset(xs)
  {
    if |xs| == 0 then []
    else
      assert xs == xs[..|xs| - 1] + [xs[|xs| - 1]];
      InsertInt(xs[|xs| - 1], SortInts(xs[..|xs| - 1]))
  }

  /**
   * The search loop of `bisect.bisect_right(a, x, lo, hi)`: with everything before `lo` at most
   * `x` and everything from `hi` on above it, it returns the split point between the two.
   */
  function BisectFrom(a: seq<int>, x: int, lo: nat, hi: nat): (r: nat)
    requires SortedInts(a) && lo <= hi <= |a|
    requires forall k :: 0 <= k < lo ==> a[k] <= x
    requires forall k :: hi <= k < |a| ==> x < a[k]
    ensures lo <= r <= hi
    ensures forall k :: 0 <= k < r ==> a[k] <= x
    ensures forall k :: r <= k < |a| ==> x < a[k]
    decreases hi - lo
  {
    if lo >= hi then lo
    else
      var mid := (lo + hi) / 2;
      if x < a[mid] then BisectFrom(a, x, lo, mid) else BisectFrom(a, x, mid + 1, hi)
  }

  /** `bisect.bisect_right(a, x)` on a sorted list: the number of elements at most `x`. */
  function BisectRight(a: seq<int>, x: int): (r: nat)
    requires SortedInts(a)
    ensures r <= |a|
    ensures forall k :: 0 <= k < r ==> a[k] <= x
    ensures forall k :: r <= k < |a| ==> x < a[k]
  {
    BisectFrom(a, x, 0, |a|)
  }

  /**
   * Lines 90-95: the index of the field map a scan with series number `x` is attached to.
   * It is the last field map whose series number is at most `x` (an equal number counts as
   * preceding), or the first field map when every field map comes later.
   */
  function NearestFieldMap(dts: seq<int>, x: int): (idx: nat)
    requires SortedInts(dts) && |dts| > 0
    ensures idx < |dts|
    ensures dts[idx] <= x ==> forall k :: idx < k < |dts| ==> x < dts[k]
    ensures x < dts[idx] ==> idx == 0 && forall k :: 0 <= k < |dts| ==> x < dts[k]
  {
    var i := BisectRight(dts, x) - 1;
    if i == -1 then 0 else i
  }

  /** A scan that comes no earlier than another is attached to the same or a later field map. */
  lemma NearestMonotone(dts: seq<int>, x: int, y: int)
    requires SortedInts(dts) && |dts| > 0 && x <= y
    ensures NearestFieldMap(dts, x) <= NearestFieldMap(dts, y)
  {
  }

  /** `s.split(sep)[-1]`: the text after the last separator that a left-to-right split finds. */
  function LastPiece(s: string, sep: string): (r: string)
    requires sep != []
    ensures EndsWith(s, r)
    ensures !Contains(r, sep)
    decreases |s|
  {
    if StartsWith(s, sep) then
      var r := LastPiece(s[|sep|..], sep);
      assert s[|sep|..][|s[|sep|..]| - |r|..] == s[|s| - |r|..];
      r
    else if |s| == 0 || !Contains(s[1..], sep) then s
    else
      var r := LastPiece(s[1..], sep);
      assert s[1..][|s[1..]| - |r|..] == s[|s| - |r|..];
      r
  }

  lemma LastPieceWithout(s: string, sep: string)
    requires sep != [] && !Contains(s, sep)
    ensures LastPiece(s, sep) == s
  {
  }

  /**
   * Lines 85-87: the `IntendedFor` entry of a target sidecar: its path with the last
   * extension replaced by `.nii.gz`, cut after the subject directory, first character dropped.
   */
  function TargetPath(subjDir: string, sidecar: string): string
    requires subjDir != []
  {
    var piece := LastPiece(SplitExt(sidecar).0 + ".nii.gz", subjDir);
    if |piece| == 0 then piece else piece[1..]
  }

  /** The last component of `p` has a character other than '.', so `splitext` can cut it. */
  predicate HasStem(p: string) {
    exists k :: RFind(p, '/') < k < |p| && p[k] != '.'
  }

  lemma {:induction false} RFindWithin(a: string, b: string, c: char)
    requires RFind(b, c) >= 0
    ensures RFind(a + b, c) == |a| + RFind(b, c)
    decreases |b|
  {
    if b[|b| - 1] != c {
      assert (a + b)[..|a + b| - 1] == a + b[..|b| - 1];
      RFindWithin(a, b[..|b| - 1], c);
    }
  }

  /** `splitext(prefix + rel + ".json")` cuts off exactly `.json` when `rel` has a stem. */
  lemma SplitExtJson(prefix: string, rel: string)
    requires HasStem(rel)
    ensures SplitExt(prefix + rel + ".json") == (prefix + rel, ".json")
  {
    var stem := prefix + rel;
    var p := stem + ".json";
    RFindLast(stem, "json", '.');
    assert stem + ['.'] + "json" == p;
    RFindAfter(stem, ".json", '/');
    var k :| RFind(rel, '/') < k < |rel| && rel[k] != '.';
    if RFind(rel, '/') >= 0 {
      RFindWithin(prefix, rel, '/');
    } else {
      RFindAfter(prefix, rel, '/');
    }
    assert p[|prefix| + k] == rel[k];
    assert RFind(p, '/') < |prefix| + k < RFind(p, '.');
  }

  /**
   * A target sidecar `<subject dir>/<rel>.json` is recorded as `<rel>.nii.gz`, provided the
   * subject directory occurs nowhere after its own position.
   */
  lemma TargetPathRelative(subjDir: string, rel: string)
    requires subjDir != [] && HasStem(rel)
    requires !Contains("/" + rel + ".nii.gz", subjDir)
    ensures TargetPath(subjDir, subjDir + "/" + rel + ".json") == rel + ".nii.gz"
  {
    SplitExtJson(subjDir + "/", rel);
    assert subjDir + "/" + rel + ".json" == (subjDir + "/") + rel + ".json";
    var s := subjDir + "/" + rel + ".nii.gz";
    assert SplitExt(subjDir + "/" + rel + ".json").0 + ".nii.gz" == s;
    assert StartsWith(s, subjDir);
    assert s[|subjDir|..] == "/" + rel + ".nii.gz";
    LastPieceWithout("/" + rel + ".nii.gz", subjDir);
  }

  /**
   * One (direction, acquisition) bucket of `complete_fmap_jsons`: the field maps by series
   * number, their sorted series numbers `dts`, the target scans by series number, and the
   * subject directory.
   */
  datatype Bucket = Bucket(fmaps: SeriesIndex, dts: seq<int>, targets: SeriesIndex, subjDir: string)

  predicate ValidBucket(b: Bucket) {
    && IndexWellFormed(b.fmaps) && IndexWellFormed(b.targets)
    && |b.dts| > 0 && SortedInts(b.dts) && multiset(b.dts) == multiset(b.fmaps.order)
    && b.subjDir != []
  }

  lemma DtsAreFieldMaps(b: Bucket, k: nat)
    requires ValidBucket(b) && k < |b.dts|
    ensures b.dts[k] in b.fmaps.file
  {
    assert b.dts[k] in multiset(b.dts);
  }

  /** The field-map sidecar target series `n` is attached to (lines 90-96). */
  function Owner(b: Bucket, n: int): string
    requires ValidBucket(b)
  {
    var k := NearestFieldMap(b.dts, n);
    DtsAreFieldMaps(b, k);
    b.fmaps.file[b.dts[k]]
  }

  /** What target series `n` contributes to its field map's list (lines 85-87). */
  function Target(b: Bucket, n: int): string
    requires ValidBucket(b) && n in b.targets.file
  {
    TargetPath(b.subjDir, b.targets.file[n])
  }

  /** The list field map `f` receives from the target series `ns`, in their order. */
  function Assigned(b: Bucket, ns: seq<int>, f: string): (r: seq<string>)
    requires ValidBucket(b) && forall n :: n in ns ==> n in b.targets.file
    ensures |r| <= |ns|
  {
    if |ns| == 0 then []
    else
      var n := ns[|ns| - 1];
      Assigned(b, ns[..|ns| - 1], f) + (if Owner(b, n) == f then [Target(b, n)] else [])
  }

  /**
   * Lines 72-97: every field map of the bucket gets a list, and each target, in dict order,
   * is appended to the list of the field map it is attached to.
   */
  method AssociateBucket(b: Bucket, fmapFiles: seq<string>) returns (lists: map<string, seq<string>>)
    requires ValidBucket(b)
    requires forall n :: n in b.fmaps.file ==> b.fmaps.file[n] in fmapFiles
    ensures lists.Keys == set f | f in fmapFiles
    ensures forall f :: f in lists ==> lists[f] == Assigned(b, b.targets.order, f)
  {
    lists := map f | f in fmapFiles :: [];
    var ns := b.targets.order;
    for i := 0 to |ns|
      invariant lists.Keys == set f | f in fmapFiles
      invariant forall f :: f in lists ==> lists[f] == Assigned(b, ns[..i], f)
    {
      var datFile := ns[i];
      var fn := TargetPath(b.subjDir, b.targets.file[datFile]);
      var idx := NearestFieldMap(b.dts, datFile);
      DtsAreFieldMaps(b, idx);
      var fmapFile := b.fmaps.file[b.dts[idx]];
      assert ns[..i + 1][..i] == ns[..i];
      lists := lists[fmapFile := lists[fmapFile] + [fn]];
    }
    assert ns[..|ns|] == ns;
  }

  /** Each target is on the list of the field map it is attached to. */
  lemma {:induction false} AssignedHasTarget(b: Bucket, ns: seq<int>, i: nat)
    requires ValidBucket(b) && (forall n :: n in ns ==> n in b.targets.file) && i < |ns|
    ensures Target(b, ns[i]) in Assigned(b, ns, Owner(b, ns[i]))
  {
    var front := ns[..|ns| - 1];
    if i < |ns| - 1 {
      assert ns[i] == front[i];
      AssignedHasTarget(b, front, i);
    }
  }

  /** The total length of the lists of the field maps `fs`. */
  function TotalAssigned(b: Bucket, ns: seq<int>, fs: seq<string>): nat
    requires ValidBucket(b) && forall n :: n in ns ==> n in b.targets.file
  {
    if |fs| == 0 then 0 else |Assigned(b, ns, fs[0])| + TotalAssigned(b, ns, fs[1..])
  }

  lemma {:induction false} TotalAssignedStep(b: Bucket, ns: seq<int>, fs: seq<string>)
    requires ValidBucket(b) && (forall n :: n in ns ==> n in b.targets.file) && |ns| > 0
    requires Distinct(fs)
    ensures TotalAssigned(b, ns, fs)
      == TotalAssigned(b, ns[..|ns| - 1], fs) + (if Owner(b, ns[|ns| - 1]) in fs then 1 else 0)
  {
    if |fs| > 0 {
      assert Distinct(fs[1..]) by {
        forall i, j | 0 <= i < j < |fs[1..]| ensures fs[1..][i] != fs[1..][j] {
          assert fs[1..][i] == fs[i + 1] && fs[1..][j] == fs[j + 1];
        }
      }
      TotalAssignedStep(b, ns, fs[1..]);
      if Owner(b, ns[|ns| - 1]) == fs[0] {
        assert fs[0] !in fs[1..] by {
          forall k | 0 <= k < |fs[1..]| ensures fs[1..][k] != fs[0] {
            assert fs[1..][k] == fs[k + 1];
          }
        }
      } else {
        assert Owner(b, ns[|ns| - 1]) in fs[1..] <==> Owner(b, ns[|ns| - 1]) in fs;
      }
    }
  }

  /**
   * Every target lands in exactly one list: over distinct field maps that include every owner,
   * the lists together hold as many entries as there are targets.
   */
  lemma {:induction false} AssignedPartition(b: Bucket, ns: seq<int>, fs: seq<string>)
    requires ValidBucket(b) && forall n :: n in ns ==> n in b.targets.file
    requires Distinct(fs) && forall n :: n in ns ==> Owner(b, n) in fs
    ensures TotalAssigned(b, ns, fs) == |ns|
  {
    if |ns| == 0 {
      TotalAssignedEmpty(b, fs);
    } else {
      TotalAssignedStep(b, ns, fs);
      assert ns[|ns| - 1] in ns;
      AssignedPartition(b, ns[..|ns| - 1], fs);
    }
  }

  lemma {:induction false} TotalAssignedEmpty(b: Bucket, fs: seq<string>)
    requires ValidBucket(b)
    ensures TotalAssigned(b, [], fs) == 0
  {
    if |fs| > 0 {
      TotalAssignedEmpty(b, fs[1..]);
    }
  }

  /** A list of paths as a JSON array of strings. */
  function StrArray(xs: seq<string>): Json {
    Arr(seq(|xs|, i requires 0 <= i < |xs| => Str(xs[i])))
  }

  /** The sidecar of a field map after lines 103-107: `IntendedFor` set when allowed. */
  function WithIntendedFor(data: Sidecar, targets: seq<string>, overwrite: bool): (r: Sidecar)
    ensures overwrite || "IntendedFor" !in data ==> r == data["IntendedFor" := StrArray(targets)]
    ensures !overwrite && "IntendedFor" in data ==> r == data
  {
    if overwrite || "IntendedFor" !in data then data["IntendedFor" := StrArray(targets)] else data
  }

  /**
   * Lines 99-107: each field-map sidecar of the bucket is read back and given its list under
   * `IntendedFor` when `overwrite` is set or the key is absent; its other keys, and every
   * other file, are left as they were.
   */
  method WriteBack(disk: JsonDisk, fmapFiles: seq<string>, lists: map<string, seq<string>>, overwrite: bool)
    returns (disk': JsonDisk)
    requires forall f :: f in fmapFiles ==> f in disk && f in lists
    ensures disk'.Keys == disk.Keys
    ensures forall p :: p in disk && p !in fmapFiles ==> disk'[p] == disk[p]
    ensures forall f :: f in fmapFiles ==> disk'[f] == WithIntendedFor(disk[f], lists[f], overwrite)
  {
    disk' := disk;
    for i := 0 to |fmapFiles|
      invariant disk'.Keys == disk.Keys
      invariant forall p :: p in disk && p !in fmapFiles[..i] ==> disk'[p] == disk[p]
      invariant forall f :: f in fmapFiles[..i] ==> disk'[f] == WithIntendedFor(disk[f], lists[f], overwrite)
    {
      var fmapFile := fmapFiles[i];
      var data := disk'[fmapFile];
      assert fmapFiles[..i + 1] == fmapFiles[..i] + [fmapFile];
      if overwrite || "IntendedFor" !in data {
        data := data["IntendedFor" := StrArray(lists[fmapFile])];
        disk' := disk'[fmapFile := data];
      }
    }
    assert fmapFiles[..|fmapFiles|] == fmapFiles;
  }
}
