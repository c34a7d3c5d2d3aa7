/**
 * `dataset.merge_datasets`: merging one subject's freshly converted BIDS dataset (the scratch
 * dataset) into the project's dataset, and registering its scans in the project's master table.
 * Paths are sequences of components, so `op.join(d, name)` is `d + [name]`.
 */
module Dataset {
  import opened Base
  import opened Tables

  type Path = seq<string>

  /** A file's contents: a tab-separated table pandas can read, or anything else. */
  datatype FileData = Opaque(content: string) | TsvFile(table: Table)

  /** The file system: the contents of every file and the set of directories. */
  datatype Fs = Fs(files: map<Path, FileData>, dirs: set<Path>)

  /** `p` lies strictly inside directory `d`. */
  predicate Below(d: Path, p: Path) {
    |d| < |p| && p[..|d|] == d
  }

  function PathString(p: Path): string {
    if |p| == 0 then "" else if |p| == 1 then p[0] else p[0] + "/" + PathString(p[1..])
  }

  /** `pd.read_csv(p, sep='\t')`: a missing file raises, a file that is not a table too. */
  function ReadTsv(fs: Fs, p: Path): (r: Result<Table>)
    ensures r.Ok? <==> p in fs.files && fs.files[p].TsvFile?
    ensures r.Ok? ==> r.value == fs.files[p].table
  {
    if p !in fs.files then Err(FileNotFoundError(PathString(p)))
    else match fs.files[p]
      case TsvFile(t) => Ok(t)
      case Opaque(_) => Err(ValueError("not a tab-separated table"))
  }

  function WriteFile(fs: Fs, p: Path, data: FileData): Fs {
    fs.(files := fs.files[p := data])
  }

  // ---------------------------------------------------------------------------------------
  // Boilerplate files (lines 9-14)

  const DatasetFiles: seq<string> := ["CHANGES", "README", "dataset_description.json", "participants.tsv"]

  /** One iteration of lines 11-14: copy `name` from the scratch dataset unless it is there. */
  function CopyIfAbsent(fs: Fs, scratch: Path, bids: Path, name: string): Result<Fs> {
    if bids + [name] in fs.files then Ok(fs)
    else if scratch + [name] !in fs.files then Err(FileNotFoundError(PathString(scratch + [name])))
    else Ok(WriteFile(fs, bids + [name], fs.files[scratch + [name]]))
  }

  /** Two one-level-deeper paths are equal only if their directories and names are. */
  lemma ChildInjective(a: Path, b: Path, m: string, n: string)
    requires a + [m] == b + [n]
    ensures a == b && m == n
  {
    assert (a + [m])[..|a|] == a && (b + [n])[..|b|] == b;
  }

  /** `p` is `bids/<n>` for one of `names`. */
  predicate IsTarget(bids: Path, names: seq<string>, p: Path) {
    |p| == |bids| + 1 && p[..|bids|] == bids && p[|bids|] in names
  }

  /** Boilerplate file `n` is absent from both datasets. */
  predicate MissingBoth(fs: Fs, scratch: Path, bids: Path, n: string) {
    bids + [n] !in fs.files && scratch + [n] !in fs.files
  }

  /**
   * `out` is `fs` with each of `names` present in the dataset: a file already there is
   * untouched, an absent one holds the scratch dataset's copy, and nothing else changes.
   */
  predicate CopiedAbsent(fs: Fs, scratch: Path, bids: Path, names: seq<string>, out: Fs) {
    && out.dirs == fs.dirs
    && (forall n :: n in names ==>
          && bids + [n] in out.files
          && (bids + [n] in fs.files || scratch + [n] in fs.files)
          && out.files[bids + [n]] == if bids + [n] in fs.files then fs.files[bids + [n]] else fs.files[scratch + [n]])
    && (forall p :: p in out.files ==> p in fs.files || IsTarget(bids, names, p))
    && (forall p :: p in fs.files ==> p in out.files && (IsTarget(bids, names, p) || out.files[p] == fs.files[p]))
  }

  /** Lines 9-14, file after file; the first file missing from both datasets raises. */
  function Boilerplate(fs: Fs, scratch: Path, bids: Path, names: seq<string>): Result<Fs> {
    if |names| == 0 then Ok(fs)
    else
      var mid :- Boilerplate(fs, scratch, bids, names[..|names| - 1]);
      CopyIfAbsent(mid, scratch, bids, names[|names| - 1])
  }

  /**
   * The copy of lines 9-14 fails exactly when some boilerplate file is in neither dataset;
   * otherwise each absent file is copied, a present one is untouched and no other file changes.
   */
  lemma {:induction false} BoilerplateOutcome(fs: Fs, scratch: Path, bids: Path, names: seq<string>)
    ensures Boilerplate(fs, scratch, bids, names).Err? <==> exists n :: n in names && MissingBoth(fs, scratch, bids, n)
    ensures Boilerplate(fs, scratch, bids, names).Ok? ==>
      CopiedAbsent(fs, scratch, bids, names, Boilerplate(fs, scratch, bids, names).value)
    decreases |names|
  {
    if |names| > 0 {
      var front := names[..|names| - 1];
      var name := names[|names| - 1];
      assert forall n :: n in names <==> n in front || n == name;
      BoilerplateOutcome(fs, scratch, bids, front);
      if Boilerplate(fs, scratch, bids, front).Ok? {
        BoilerplateStep(fs, scratch, bids, front, name, Boilerplate(fs, scratch, bids, front).value);
        assert front + [name] == names;
      }
    }
  }

  lemma BoilerplateStep(fs: Fs, scratch: Path, bids: Path, front: seq<string>, name: string, mid: Fs)
    requires CopiedAbsent(fs, scratch, bids, front, mid)
    requires forall n :: n in front ==> !MissingBoth(fs, scratch, bids, n)
    ensures CopyIfAbsent(mid, scratch, bids, name).Err? <==> MissingBoth(fs, scratch, bids, name)
    ensures CopyIfAbsent(mid, scratch, bids, name).Ok? ==>
      CopiedAbsent(fs, scratch, bids, front + [name], CopyIfAbsent(mid, scratch, bids, name).value)
  {
    var names := front + [name];
    var target := bids + [name];
    var source := scratch + [name];
    assert IsTarget(bids, front, target) <==> name in front by {
      assert target[..|bids|] == bids && target[|bids|] == name;
    }
    if target !in fs.files && !IsTarget(bids, front, target) {
      assert target !in mid.files;
      assert source in mid.files <==> source in fs.files;
      assert source in fs.files ==> mid.files[source] == fs.files[source];
    }
    var r := CopyIfAbsent(mid, scratch, bids, name);
    if r.Ok? {
      var out := r.value;
      forall p | p in out.files ensures p in fs.files || IsTarget(bids, names, p) {
        if p != target {
          assert p in mid.files;
        } else {
          assert p[..|bids|] == bids && p[|bids|] == name;
        }
      }
      forall n | n in names ensures
        && bids + [n] in out.files
        && (bids + [n] in fs.files || scratch + [n] in fs.files)
        && out.files[bids + [n]] == if bids + [n] in fs.files then fs.files[bids + [n]] else fs.files[scratch + [n]]
      {
        if n != name {
          assert n in front;
          ChildNames(bids, n, name);
        }
      }
      forall p | p in fs.files ensures p in out.files && (IsTarget(bids, names, p) || out.files[p] == fs.files[p]) {
        if IsTarget(bids, front, p) {
          assert IsTarget(bids, names, p);
        } else if p == target {
          assert p[..|bids|] == bids && p[|bids|] == name;
        }
      }
    }
  }

  lemma ChildNames(d: Path, m: string, n: string)
    requires m != n
    ensures d + [m] != d + [n]
  {
    assert (d + [m])[|d|] == m && (d + [n])[|d|] == n;
  }

  /** Lines 9-14 as a loop over the four boilerplate files. */
  method CopyBoilerplate(fs: Fs, scratch: Path, bids: Path) returns (r: Result<Fs>)
    ensures r == Boilerplate(fs, scratch, bids, DatasetFiles)
  {
    var cur := fs;
    for i := 0 to |DatasetFiles|
      invariant Boilerplate(fs, scratch, bids, DatasetFiles[..i]) == Ok(cur)
    {
      assert DatasetFiles[..i + 1][..i] == DatasetFiles[..i];
      var name := DatasetFiles[i];
      if bids + [name] !in cur.files {
        if scratch + [name] !in cur.files {
          BoilerplateErrorSticks(fs, scratch, bids, DatasetFiles[..i + 1], DatasetFiles);
          return Err(FileNotFoundError(PathString(scratch + [name])));
        }
        cur := WriteFile(cur, bids + [name], cur.files[scratch + [name]]);
      }
    }
    assert DatasetFiles[..|DatasetFiles|] == DatasetFiles;
    return Ok(cur);
  }

  lemma {:induction false} BoilerplateErrorSticks(fs: Fs, scratch: Path, bids: Path, pre: seq<string>, names: seq<string>)
    requires pre <= names && Boilerplate(fs, scratch, bids, pre).Err?
    ensures Boilerplate(fs, scratch, bids, names).Err?
    ensures Boilerplate(fs, scratch, bids, names) == Boilerplate(fs, scratch, bids, pre)
    decreases |names|
  {
    if names != pre {
      var front := names[..|names| - 1];
      assert pre <= front;
      BoilerplateErrorSticks(fs, scratch, bids, pre, front);
    }
  }

  // ---------------------------------------------------------------------------------------
  // Participants (lines 16-35)

  /**
   * Row `k` of `t` equals the row `ref` of a table with columns `refCols`, as
   * `(t == ref).all(axis=1)` decides: the row is aligned on the union of the columns, so a
   * column on one side only never matches, and a missing value matches nothing.
   */
  predicate RowMatches(t: Table, k: nat, ref: Row, refCols: seq<string>)
    requires k < |t.rows|
  {
    && (forall c :: c in refCols ==> c in t.columns)
    && (forall c :: c in t.columns ==> c in refCols && CellEq(Get(t.rows[k], c), Get(ref, c)))
  }

  predicate AnyRowMatches(t: Table, ref: Row, refCols: seq<string>) {
    exists k :: 0 <= k < |t.rows| && RowMatches(t, k, ref, refCols)
  }

  /**
   * Lines 16-35: both participants tables are read and their duplicate columns dropped. If a
   * new row equals row 0 of the dataset's table the file is left alone; otherwise it is
   * rewritten as the new rows followed by all of the dataset's rows. A dataset table without
   * rows has no row 0 and raises.
   */
  function ReconcileParticipants(fs: Fs, scratch: Path, bids: Path): (r: Result<Fs>)
    ensures r.Ok? <==>
      && ReadTsv(fs, scratch + ["participants.tsv"]).Ok?
      && ReadTsv(fs, bids + ["participants.tsv"]).Ok?
      && |fs.files[bids + ["participants.tsv"]].table.rows| > 0
    ensures r.Ok? ==> r.value.dirs == fs.dirs && r.value.files.Keys == fs.files.Keys
    ensures r.Ok? ==> forall p :: p in fs.files && p != bids + ["participants.tsv"] ==> r.value.files[p] == fs.files[p]
    ensures r.Ok? ==>
      var incoming := DropDuplicateColumns(fs.files[scratch + ["participants.tsv"]].table);
      var orig := DropDuplicateColumns(fs.files[bids + ["participants.tsv"]].table);
      r.value.files[bids + ["participants.tsv"]] ==
        if AnyRowMatches(incoming, orig.rows[0], orig.columns) then fs.files[bids + ["participants.tsv"]]
        else TsvFile(Concat(incoming, orig))
  {
    var newT :- ReadTsv(fs, scratch + ["participants.tsv"]);
    var origT :- ReadTsv(fs, bids + ["participants.tsv"]);
    var incoming := DropDuplicateColumns(newT);
    var orig := DropDuplicateColumns(origT);
    if |orig.rows| == 0 then Err(KeyError("0"))
    else if AnyRowMatches(incoming, orig.rows[0], orig.columns) then Ok(fs)
    else Ok(WriteFile(fs, bids + ["participants.tsv"], TsvFile(Concat(incoming, orig))))
  }

  /**
   * On a first merge the dataset's participants file has just been copied from the scratch
   * dataset, so its row 0 is a new row too: when that row has no missing value, the file is
   * left exactly as copied.
   */
  lemma FirstMergeKeepsParticipants(fs: Fs, scratch: Path, bids: Path, t: Table)
    requires bids + ["participants.tsv"] !in fs.files
    requires scratch + ["participants.tsv"] in fs.files && fs.files[scratch + ["participants.tsv"]] == TsvFile(t)
    requires |t.rows| > 0 && forall c :: c in t.columns ==> Get(t.rows[0], c).Some?
    requires Boilerplate(fs, scratch, bids, DatasetFiles).Ok?
    ensures ReconcileParticipants(Boilerplate(fs, scratch, bids, DatasetFiles).value, scratch, bids)
      == Boilerplate(fs, scratch, bids, DatasetFiles)
  {
    var mid := Boilerplate(fs, scratch, bids, DatasetFiles).value;
    FirstMergeCopies(fs, scratch, bids, t);
    RowZeroMatchesItself(t);
    var d := DropDuplicateColumns(t);
    assert ReadTsv(mid, scratch + ["participants.tsv"]) == Ok(t);
    assert ReadTsv(mid, bids + ["participants.tsv"]) == Ok(t);
    assert AnyRowMatches(d, d.rows[0], d.columns);
  }

  /** After the boilerplate copy of a first merge, both participants files hold the scratch table. */
  lemma FirstMergeCopies(fs: Fs, scratch: Path, bids: Path, t: Table)
    requires bids + ["participants.tsv"] !in fs.files
    requires scratch + ["participants.tsv"] in fs.files && fs.files[scratch + ["participants.tsv"]] == TsvFile(t)
    requires Boilerplate(fs, scratch, bids, DatasetFiles).Ok?
    ensures var mid := Boilerplate(fs, scratch, bids, DatasetFiles).value;
      && bids + ["participants.tsv"] in mid.files && mid.files[bids + ["participants.tsv"]] == TsvFile(t)
      && scratch + ["participants.tsv"] in mid.files && mid.files[scratch + ["participants.tsv"]] == TsvFile(t)
  {
    BoilerplateOutcome(fs, scratch, bids, DatasetFiles);
    assert "participants.tsv" in DatasetFiles;
  }

  /** Row 0 of a table without missing values in it matches itself once duplicate columns go. */
  lemma RowZeroMatchesItself(t: Table)
    requires |t.rows| > 0 && forall c :: c in t.columns ==> Get(t.rows[0], c).Some?
    ensures var d := DropDuplicateColumns(t); |d.rows| > 0 && RowMatches(d, 0, d.rows[0], d.columns)
  {
    var d := DropDuplicateColumns(t);
    forall c | c in d.columns ensures CellEq(Get(d.rows[0], c), Get(d.rows[0], c)) {
      assert c in t.columns;
      assert d.rows[0] == Reindex(t.rows[0], d.columns);
      assert Get(d.rows[0], c) == Get(t.rows[0], c);
    }
  }

  // ---------------------------------------------------------------------------------------
  // Subject and session trees (lines 37-50)

  /** Where a file `q` under `dst` is copied from by `copytree(src, dst)`. */
  function CopySource(src: Path, dst: Path, q: Path): Path
    requires |dst| <= |q|
  {
    src + q[|dst|..]
  }

  /** The files `copytree(src, dst)` creates. */
  function CopiedFiles(files: map<Path, FileData>, src: Path, dst: Path): set<Path> {
    set p | p in files && Below(src, p) :: dst + p[|src|..]
  }

  /**
   * `shutil.copytree(src, dst)`: a missing source or an existing destination raises; otherwise
   * every file and directory under `src` is recreated under `dst`, and everything outside `dst`
   * is unchanged.
   */
  function CopyTree(fs: Fs, src: Path, dst: Path): (r: Result<Fs>)
    ensures r.Err? <==> src !in fs.dirs || dst in fs.dirs || dst in fs.files
    ensures r.Ok? ==> dst in r.value.dirs && fs.dirs <= r.value.dirs
    ensures r.Ok? ==> forall p :: p in fs.files && !Below(dst, p) ==> p in r.value.files && r.value.files[p] == fs.files[p]
    ensures r.Ok? ==> forall p :: p in fs.files && Below(src, p) ==>
      dst + p[|src|..] in r.value.files && r.value.files[dst + p[|src|..]] == fs.files[p]
    ensures r.Ok? ==> forall q :: q in r.value.files ==>
      q in fs.files || (Below(dst, q) && CopySource(src, dst, q) in fs.files)
  {
    if src !in fs.dirs then Err(FileNotFoundError(PathString(src)))
    else if dst in fs.dirs || dst in fs.files then Err(FileExistsError(PathString(dst)))
    else
      var copied := CopiedFiles(fs.files, src, dst);
      assert forall q :: q in copied ==> Below(dst, q) && CopySource(src, dst, q) in fs.files by {
        forall q | q in copied ensures Below(dst, q) && CopySource(src, dst, q) in fs.files {
          var p :| p in fs.files && Below(src, p) && q == dst + p[|src|..];
          assert q[|dst|..] == p[|src|..];
          assert p == src + p[|src|..];
        }
      }
      var files := map q | q in fs.files.Keys + copied ::
        if Below(dst, q) && CopySource(src, dst, q) in fs.files then fs.files[CopySource(src, dst, q)] else fs.files[q];
      var dirs := fs.dirs + {dst} + set d | d in fs.dirs && Below(src, d) :: dst + d[|src|..];
      assert forall p :: p in fs.files && Below(src, p) ==> dst + p[|src|..] in copied;
      assert forall p :: p in fs.files && Below(src, p) ==> CopySource(src, dst, dst + p[|src|..]) == p by {
        forall p | p in fs.files && Below(src, p) ensures CopySource(src, dst, dst + p[|src|..]) == p {
          assert (dst + p[|src|..])[|dst|..] == p[|src|..];
          assert p == src + p[|src|..];
        }
      }
      Ok(Fs(files, dirs))
  }

  function SubjectName(sub: string): string {
    "sub-" + sub
  }

  function SessionName(ses: string): string {
    "ses-" + ses
  }

  /**
   * Lines 37-50: the subject's tree is copied whole when the dataset lacks it; otherwise, when a
   * session is given (even an empty one), only the session's tree is copied, and only if the
   * dataset lacks it; otherwise nothing changes. Files outside the subject's directory never
   * change.
   */
  function CopySubtree(fs: Fs, scratch: Path, bids: Path, sub: string, ses: Option<string>): (r: Result<Fs>)
    ensures r.Ok? ==> forall p :: p in fs.files && !Below(bids + [SubjectName(sub)], p) ==>
      p in r.value.files && r.value.files[p] == fs.files[p]
    ensures bids + [SubjectName(sub)] !in fs.dirs ==>
      r == CopyTree(fs, scratch + [SubjectName(sub)], bids + [SubjectName(sub)])
    ensures bids + [SubjectName(sub)] in fs.dirs && ses.Some? && bids + [SubjectName(sub), SessionName(ses.value)] !in fs.dirs ==>
      r == CopyTree(fs, scratch + [SubjectName(sub), SessionName(ses.value)], bids + [SubjectName(sub), SessionName(ses.value)])
    ensures bids + [SubjectName(sub)] in fs.dirs && (ses.None? || bids + [SubjectName(sub), SessionName(ses.value)] in fs.dirs) ==>
      r == Ok(fs)
  {
    var scratchSub := scratch + [SubjectName(sub)];
    var outSub := bids + [SubjectName(sub)];
    if outSub !in fs.dirs then CopyTree(fs, scratchSub, outSub)
    else if ses.Some? then
      var outSes := outSub + [SessionName(ses.value)];
      assert outSes == bids + [SubjectName(sub), SessionName(ses.value)];
      assert scratchSub + [SessionName(ses.value)] == scratch + [SubjectName(sub), SessionName(ses.value)];
      if outSes !in fs.dirs then
        var r := CopyTree(fs, scratchSub + [SessionName(ses.value)], outSes);
        assert forall p :: !Below(outSub, p) ==> !Below(outSes, p) by {
          forall p | Below(outSes, p) ensures Below(outSub, p) {
            assert p[..|outSub|] == p[..|outSes|][..|outSub|];
          }
        }
        r
      else Ok(fs)
    else Ok(fs)
  }

  // ---------------------------------------------------------------------------------------
  // Scans registry (lines 52-79)

  /** The subject's scans table: `ses-<ses>/sub-<sub>_ses-<ses>_scans.tsv` when `ses` is truthy. */
  function ScansPath(bids: Path, sub: string, ses: Option<string>): Path {
    bids + [SubjectName(sub)]
      + if Truthy(ses) then [SessionName(ses.value), SubjectName(sub) + "_" + SessionName(ses.value) + "_scans.tsv"]
        else [SubjectName(sub) + "_scans.tsv"]
  }

  /** `op.dirname(bids_dir)`. */
  function Parent(p: Path): Path {
    if |p| == 0 then [] else p[..|p| - 1]
  }

  /** The project's master table, `code/<project>_scans.tsv` beside the dataset. */
  function MasterPath(bids: Path, project: string): Path {
    Parent(bids) + ["code", project + "_scans.tsv"]
  }

  /**
   * Lines 61-62: every row gets `remove` = 0 and `annotation` = ''; the other cells and the
   * order of the rows are unchanged, and the two columns go at the end unless already there.
   */
  function Annotated(t: Table): (r: Table)
    ensures |r.rows| == |t.rows|
    ensures forall k :: 0 <= k < |t.rows| ==>
      && "remove" in r.rows[k] && r.rows[k]["remove"] == Some(IntVal(0))
      && "annotation" in r.rows[k] && r.rows[k]["annotation"] == Some(StrVal(""))
      && forall c :: c in t.rows[k] && c != "remove" && c != "annotation" ==> c in r.rows[k] && r.rows[k][c] == t.rows[k][c]
    ensures "remove" in r.columns && "annotation" in r.columns
    ensures forall c :: c in t.columns ==> c in r.columns
    ensures WellFormed(t) ==> WellFormed(r)
  {
    var withRemove := SetColumn(t, "remove", IntVal(0));
    var r := SetColumn(withRemove, "annotation", StrVal(""));
    if WellFormed(t) then
      SetColumnWellFormed(t, "remove", IntVal(0));
      SetColumnWellFormed(withRemove, "annotation", StrVal(""));
      r
    else r
  }

  /**
   * Lines 69-74: `master.append(added)` written with the master's columns: the master's rows then
   * the added rows, each narrowed (or padded with missing cells) to the master's columns.
   */
  function AppendToMaster(master: Table, added: Table): (w: Table)
    ensures w.columns == master.columns
    ensures |w.rows| == |master.rows| + |added.rows|
    ensures forall k :: 0 <= k < |master.rows| ==> w.rows[k] == Reindex(master.rows[k], master.columns)
    ensures forall k :: 0 <= k < |added.rows| ==> w.rows[|master.rows| + k] == Reindex(added.rows[k], master.columns)
  {
    var appended := Concat(master, added);
    forall k | 0 <= k < |master.rows|
      ensures Reindex(appended.rows[k], master.columns) == Reindex(master.rows[k], master.columns)
    {
      ReindexTwice(master.rows[k], appended.columns, master.columns);
    }
    forall k | 0 <= k < |added.rows|
      ensures Reindex(appended.rows[|master.rows| + k], master.columns) == Reindex(added.rows[k], master.columns)
    {
      ReindexTwice(added.rows[k], appended.columns, master.columns);
    }
    Project(appended, master.columns)
  }

  /**
   * Lines 52-79: the subject's scans table, annotated, is appended to the master table and
   * written in the master's own column order; with no master table yet, the annotated table
   * becomes the master, and writing it raises when the `code` directory is missing. Only the
   * master file changes.
   */
  function RegisterScans(fs: Fs, bids: Path, project: string, sub: string, ses: Option<string>): (r: Result<Fs>)
    ensures r.Ok? <==>
      && ReadTsv(fs, ScansPath(bids, sub, ses)).Ok?
      && (MasterPath(bids, project) in fs.files ==> ReadTsv(fs, MasterPath(bids, project)).Ok?)
      && (MasterPath(bids, project) !in fs.files ==> Parent(bids) + ["code"] in fs.dirs)
    ensures r.Ok? ==> r.value.dirs == fs.dirs
    ensures r.Ok? ==> r.value.files.Keys == fs.files.Keys + {MasterPath(bids, project)}
    ensures r.Ok? ==> forall p :: p in fs.files && p != MasterPath(bids, project) ==> r.value.files[p] == fs.files[p]
    ensures r.Ok? ==>
      var added := Annotated(fs.files[ScansPath(bids, sub, ses)].table);
      r.value.files[MasterPath(bids, project)] ==
        if MasterPath(bids, project) in fs.files then TsvFile(AppendToMaster(fs.files[MasterPath(bids, project)].table, added))
        else TsvFile(added)
  {
    var scans :- ReadTsv(fs, ScansPath(bids, sub, ses));
    var added := Annotated(scans);
    var masterPath := MasterPath(bids, project);
    if masterPath in fs.files then
      var master :- ReadTsv(fs, masterPath);
      Ok(WriteFile(fs, masterPath, TsvFile(AppendToMaster(master, added))))
    else if Parent(bids) + ["code"] !in fs.dirs then Err(FileNotFoundError(PathString(masterPath)))
    else
      Ok(WriteFile(fs, masterPath, TsvFile(added)))
  }

  /** A well-formed master table keeps its rows exactly; the new rows follow, annotated. */
  lemma MasterRowsKept(master: Table, scans: Table)
    requires WellFormed(master) && "remove" in master.columns && "annotation" in master.columns
    ensures var written := AppendToMaster(master, Annotated(scans));
      && written.rows[..|master.rows|] == master.rows
      && forall k :: |master.rows| <= k < |written.rows| ==>
           && "remove" in written.rows[k] && written.rows[k]["remove"] == Some(IntVal(0))
           && "annotation" in written.rows[k] && written.rows[k]["annotation"] == Some(StrVal(""))
  {
    var added := Annotated(scans);
    var written := AppendToMaster(master, added);
    forall k | 0 <= k < |master.rows| ensures written.rows[k] == master.rows[k] {
      ReindexOwnColumns(master.rows[k], master.columns);
    }
    forall k | |master.rows| <= k < |written.rows|
      ensures && "remove" in written.rows[k] && written.rows[k]["remove"] == Some(IntVal(0))
              && "annotation" in written.rows[k] && written.rows[k]["annotation"] == Some(StrVal(""))
    {
      assert written.rows[k] == Reindex(added.rows[k - |master.rows|], master.columns);
    }
  }

  // ---------------------------------------------------------------------------------------
  // The whole merge

  /** `merge_datasets` (lines 7-79): the four steps in order; the first failure stops the rest. */
  function Merge(fs: Fs, scratch: Path, bids: Path, project: string, sub: string, ses: Option<string>): Result<Fs> {
    var copied :- Boilerplate(fs, scratch, bids, DatasetFiles);
    var reconciled :- ReconcileParticipants(copied, scratch, bids);
    var merged :- CopySubtree(reconciled, scratch, bids, sub, ses);
    RegisterScans(merged, bids, project, sub, ses)
  }

  /** The merge step by step, as lines 7-79 run it. */
  method MergeDatasets(fs: Fs, scratch: Path, bids: Path, project: string, sub: string, ses: Option<string>)
    returns (r: Result<Fs>)
    ensures r == Merge(fs, scratch, bids, project, sub, ses)
  {
    var copied := CopyBoilerplate(fs, scratch, bids);
    if copied.Err? {
      return copied;
    }
    var reconciled := ReconcileParticipants(copied.value, scratch, bids);
    if reconciled.Err? {
      return reconciled;
    }
    var merged := CopySubtree(reconciled.value, scratch, bids, sub, ses);
    if merged.Err? {
      return merged;
    }
    r := RegisterScans(merged.value, bids, project, sub, ses);
  }

  /**
   * A merge changes only the boilerplate files of the dataset, the subject's directory and the
   * master table: every other file keeps its contents.
   */
  lemma MergeFrame(fs: Fs, scratch: Path, bids: Path, project: string, sub: string, ses: Option<string>, p: Path)
    requires Merge(fs, scratch, bids, project, sub, ses).Ok? && p in fs.files
    requires !IsTarget(bids, DatasetFiles, p) && !Below(bids + [SubjectName(sub)], p) && p != MasterPath(bids, project)
    ensures p in Merge(fs, scratch, bids, project, sub, ses).value.files
    ensures Merge(fs, scratch, bids, project, sub, ses).value.files[p] == fs.files[p]
  {
    BoilerplateOutcome(fs, scratch, bids, DatasetFiles);
    var copied := Boilerplate(fs, scratch, bids, DatasetFiles).value;
    assert p != bids + ["participants.tsv"] by {
      assert (bids + ["participants.tsv"])[..|bids|] == bids;
    }
  }
}
