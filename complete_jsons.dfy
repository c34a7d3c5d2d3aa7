/**
 * `bidsifier/complete_jsons.py`: fill in `IntendedFor` for field maps, `TotalReadoutTime` for
 * field maps, functional and diffusion scans, and `TaskName` for functional scans.
 * An image's metadata is `layout.get_metadata`, the sidecars that apply to it merged as they
 * currently are on disk; image shapes are a parameter (what `nib.load(path).shape` reports).
 */
module CompleteJsons {
  import opened Base
  import opened Text
  import opened Posix
  import opened Bids
  import opened Readout
  import opened FieldMaps

  /** The `session=` keyword of the queries guarded by `if ses:`. */
  function SessionFilter(ses: Option<string>): Option<string> {
    if Truthy(ses) then ses else None
  }

  function Paths(files: seq<BidsFile>): (r: seq<string>)
    ensures |r| == |files| && forall i :: 0 <= i < |files| ==> r[i] == files[i].path
  {
    seq(|files|, i requires 0 <= i < |files| => files[i].path)
  }

  /** Lines 51-55: the subject directory, with `sub-` added when the label lacks it. */
  function SubjectDir(bidsDir: string, sid: string): (r: string)
    ensures r != []
  {
    Join(bidsDir, if StartsWith(sid, "sub-") then sid else "sub-" + sid)
  }

  function FmapQuery(sid: string, ses: Option<string>, dir: string, acq: string): Query {
    Query(Some(sid), SessionFilter(ses), Some("fmap"), None, Some(acq), Some(dir), Some("json"))
  }

  function TargetQuery(sid: string, ses: Option<string>, acq: string): Query {
    Query(Some(sid), SessionFilter(ses), Some(acq), None, None, None, Some("json"))
  }

  /** A field-map sidecar of the layout: the only files the `IntendedFor` pass rewrites. */
  predicate FieldMapJson(layout: Layout, p: string) {
    exists f :: f in layout.files && f.path == p && f.modality == "fmap" && f.ext == "json"
  }

  /**
   * Lines 69-83: the field maps of a bucket by series number, their sorted series numbers
   * and the target scans by series number; reading any sidecar may raise.
   */
  function MakeBucket(disk: JsonDisk, fmapFiles: seq<string>, targetFiles: seq<string>, subjDir: string)
    : (r: Result<Bucket>)
    requires |fmapFiles| > 0 && subjDir != []
    ensures r.Ok? ==> ValidBucket(r.value) && r.value.subjDir == subjDir
    ensures r.Ok? ==> forall f :: f in fmapFiles ==> f in disk
    ensures r.Ok? ==> forall n :: n in r.value.fmaps.file ==> r.value.fmaps.file[n] in fmapFiles
    ensures r.Err? <==> SeriesDict(disk, fmapFiles).Err? || SeriesDict(disk, targetFiles).Err?
  {
    var fmaps :- SeriesDict(disk, fmapFiles);
    var targets :- SeriesDict(disk, targetFiles);
    SeriesDictFacts(disk, fmapFiles);
    SeriesDictFacts(disk, targetFiles);
    var dts := SortInts(fmaps.order);
    assert |dts| > 0 by {
      assert |multiset(dts)| == |multiset(fmaps.order)|;
    }
    Ok(Bucket(fmaps, dts, targets, subjDir))
  }

  /**
   * A dict `files_to_dict` builds is well formed, has a key when there is a file, holds only
   * the given files, and every given file was read.
   */
  lemma SeriesDictFacts(disk: JsonDisk, files: seq<string>)
    requires SeriesDict(disk, files).Ok?
    ensures var ix := SeriesDict(disk, files).value;
      && IndexWellFormed(ix)
      && (|files| > 0 ==> |ix.order| > 0)
      && (forall n :: n in ix.file ==> ix.file[n] in files)
    ensures forall f :: f in files ==> f in disk
  {
    var ix := SeriesDict(disk, files).value;
    var fe := Entries(disk, files).value;
    IndexOfSpec(fe);
    if |files| > 0 {
      assert fe[0].0 in ix.file;
    }
    forall f | f in files ensures f in disk {
      var i :| 0 <= i < |files| && files[i] == f;
      assert SeriesNumber(disk, files[i]).Ok?;
    }
    forall n | n in ix.file ensures ix.file[n] in files {
      var i :| 0 <= i < |fe| && fe[i] == (n, ix.file[n]);
      assert files[i] == ix.file[n];
    }
  }

  /**
   * Lines 60-107 for one (direction, acquisition) bucket: with no field map nothing happens;
   * otherwise each field-map sidecar gets, when `overwrite` is set or it has none, the
   * `IntendedFor` list of the targets attached to it, and no other file changes.
   */
  method CompleteBucket(layout: Layout, disk: JsonDisk, subjDir: string, sid: string,
                        ses: Option<string>, dir: string, acq: string, overwrite: bool)
    returns (r: Result<JsonDisk>)
    requires subjDir != []
    ensures var fmapFiles := Paths(Get(layout, FmapQuery(sid, ses, dir, acq)));
      var targetFiles := Paths(Get(layout, TargetQuery(sid, ses, acq)));
      && (|fmapFiles| == 0 ==> r == Ok(disk))
      && (|fmapFiles| > 0 ==> (r.Err? <==> MakeBucket(disk, fmapFiles, targetFiles, subjDir).Err?))
      && (|fmapFiles| > 0 && r.Ok? ==> var b := MakeBucket(disk, fmapFiles, targetFiles, subjDir).value;
           && r.value.Keys == disk.Keys
           && (forall p :: p in disk && p !in fmapFiles ==> r.value[p] == disk[p])
           && (forall f :: f in fmapFiles ==>
                r.value[f] == WithIntendedFor(disk[f], Assigned(b, b.targets.order, f), overwrite)))
  {
    var fmapFiles := Paths(Get(layout, FmapQuery(sid, ses, dir, acq)));
    if |fmapFiles| == 0 {
      return Ok(disk);
    }
    var targetFiles := Paths(Get(layout, TargetQuery(sid, ses, acq)));
    var bucket := MakeBucket(disk, fmapFiles, targetFiles, subjDir);
    if bucket.Err? {
      return Err(bucket.error);
    }
    var lists := AssociateBucket(bucket.value, fmapFiles);
    var written := WriteBack(disk, fmapFiles, lists, overwrite);
    return Ok(written);
  }

  /** The bucket pass only rewrites field-map sidecars of the layout. */
  lemma BucketFilesAreFieldMaps(layout: Layout, sid: string, ses: Option<string>, dir: string, acq: string, p: string)
    requires p in Paths(Get(layout, FmapQuery(sid, ses, dir, acq)))
    ensures FieldMapJson(layout, p)
  {
    var files := Get(layout, FmapQuery(sid, ses, dir, acq));
    var i :| 0 <= i < |files| && Paths(files)[i] == p;
    assert files[i] in files;
  }

  /**
   * The readout step for one image (lines 111-134 with the image's own metadata, 207-229):
   * the image must load; when `overwrite` is set or the sidecar has no `TotalReadoutTime`, the
   * sidecar is written with the computed value added and every other key kept; otherwise the
   * disk is unchanged.
   */
  function CompleteReadout(layout: Layout, disk: JsonDisk, shapes: map<string, seq<nat>>, nifti: string, overwrite: bool)
    : (r: Result<JsonDisk>)
    ensures var data := GetMetadata(layout, disk, nifti);
      r.Err? <==> (nifti !in shapes
        || ((overwrite || "TotalReadoutTime" !in data) && TotalReadoutTime(data, shapes[nifti]).Err?))
    ensures r.Ok? && !overwrite && "TotalReadoutTime" in GetMetadata(layout, disk, nifti) ==> r.value == disk
    ensures r.Ok? && (overwrite || "TotalReadoutTime" !in GetMetadata(layout, disk, nifti)) ==>
      var data := GetMetadata(layout, disk, nifti);
      && r.value.Keys == disk.Keys + {SidecarPath(nifti)}
      && r.value[SidecarPath(nifti)].Keys == data.Keys + {"TotalReadoutTime"}
      && r.value[SidecarPath(nifti)]["TotalReadoutTime"] == Num(TotalReadoutTime(data, shapes[nifti]).value)
      && (forall k :: k in data && k != "TotalReadoutTime" ==> r.value[SidecarPath(nifti)][k] == data[k])
    ensures r.Ok? ==> forall p :: p in disk && p != SidecarPath(nifti) ==> p in r.value && r.value[p] == disk[p]
  {
    if nifti !in shapes then Err(FileNotFoundError(nifti))
    else
      var data := GetMetadata(layout, disk, nifti);
      if overwrite || "TotalReadoutTime" !in data then
        var trt :- TotalReadoutTime(data, shapes[nifti]);
        Ok(disk[SidecarPath(nifti) := data["TotalReadoutTime" := Num(trt)]])
      else Ok(disk)
  }

  /**
   * The field-map readout step AS WRITTEN at lines 111-134: the metadata comes from `fn`, the
   * target path left over from the last association loop (`stale`; `None` when no loop ever
   * assigned it, a `NameError`), while the result is written to the field map's own sidecar.
   */
  function FmapReadoutAsWritten(disk: JsonDisk, shapes: map<string, seq<nat>>, nifti: string,
                                stale: Option<Sidecar>, overwrite: bool): (r: Result<JsonDisk>)
    ensures r.Ok? ==> stale.Some? && nifti in shapes
    ensures r.Ok? && (overwrite || "TotalReadoutTime" !in stale.value) ==>
      && TotalReadoutTime(stale.value, shapes[nifti]).Ok? && SidecarPath(nifti) in r.value
      && r.value[SidecarPath(nifti)]
        == stale.value["TotalReadoutTime" := Num(TotalReadoutTime(stale.value, shapes[nifti]).value)]
    ensures stale.None? && nifti in shapes ==> r == Err(NameError("fn"))
  {
    if nifti !in shapes then Err(FileNotFoundError(nifti))
    else if stale.None? then Err(NameError("fn"))
    else
      var data := stale.value;
      if overwrite || "TotalReadoutTime" !in data then
        var trt :- TotalReadoutTime(data, shapes[nifti]);
        Ok(disk[SidecarPath(nifti) := data["TotalReadoutTime" := Num(trt)]])
      else Ok(disk)
  }

  /**
   * The stale lookup replaces a field map's sidecar by another scan's metadata: whatever the
   * field map's own metadata held (its `IntendedFor` list included) is lost when the scan last
   * associated has no `IntendedFor`, while the corrected step keeps every key of the sidecar.
   */
  lemma StaleLookupDropsIntendedFor(layout: Layout, disk: JsonDisk, shapes: map<string, seq<nat>>, nifti: string, stale: Sidecar)
    requires nifti in shapes && "IntendedFor" in GetMetadata(layout, disk, nifti)
    requires "IntendedFor" !in stale && "TotalReadoutTime" !in stale
    requires TotalReadoutTime(stale, shapes[nifti]).Ok?
    requires "TotalReadoutTime" !in GetMetadata(layout, disk, nifti)
    requires TotalReadoutTime(GetMetadata(layout, disk, nifti), shapes[nifti]).Ok?
    ensures FmapReadoutAsWritten(disk, shapes, nifti, Some(stale), false).Ok?
    ensures "IntendedFor" !in FmapReadoutAsWritten(disk, shapes, nifti, Some(stale), false).value[SidecarPath(nifti)]
    ensures CompleteReadout(layout, disk, shapes, nifti, false).Ok?
    ensures "IntendedFor" in CompleteReadout(layout, disk, shapes, nifti, false).value[SidecarPath(nifti)]
  {
  }

  /**
   * The functional step AS WRITTEN at lines 164-186: the write test runs after the fields were
   * added, so it reduces to `overwrite`. `Some(d)`: `d` is written; `None`: nothing is written.
   */
  function FuncSidecarAsWritten(data: Sidecar, shape: seq<nat>, task: string, overwrite: bool)
    : (r: Result<Option<Sidecar>>)
    ensures r.Ok? ==> (r.value.Some? <==> overwrite)
  {
    var withTrt :-
      if overwrite || "TotalReadoutTime" !in data then
        var trt :- TotalReadoutTime(data, shape);
        Ok(data["TotalReadoutTime" := Num(trt)])
      else Ok(data);
    var withTask := if overwrite || "TaskName" !in withTrt then withTrt["TaskName" := Str(task)] else withTrt;
    if overwrite || "TaskName" !in withTask || "TotalReadoutTime" !in withTask then Ok(Some(withTask))
    else Ok(None)
  }

  /**
   * The functional step as evidently intended: the sidecar is written when `overwrite` is set
   * or a field was added. The written sidecar has both fields and keeps every other key; a
   * field is replaced by the queried task name or the computed readout time when `overwrite`
   * is set or it was absent, and kept as it was otherwise.
   */
  function FuncSidecar(data: Sidecar, shape: seq<nat>, task: string, overwrite: bool)
    : (r: Result<Option<Sidecar>>)
    ensures r.Ok? ==> (r.value.Some? <==> overwrite || "TaskName" !in data || "TotalReadoutTime" !in data)
    ensures r.Ok? && r.value.Some? ==> var d := r.value.value;
      && d.Keys == data.Keys + {"TaskName", "TotalReadoutTime"}
      && (overwrite || "TaskName" !in data ==> d["TaskName"] == Str(task))
      && (!overwrite && "TaskName" in data ==> d["TaskName"] == data["TaskName"])
      && (overwrite || "TotalReadoutTime" !in data ==>
            TotalReadoutTime(data, shape).Ok?
            && d["TotalReadoutTime"] == Num(TotalReadoutTime(data, shape).value))
      && (!overwrite && "TotalReadoutTime" in data ==> d["TotalReadoutTime"] == data["TotalReadoutTime"])
      && (forall k :: k in data && k != "TaskName" && k != "TotalReadoutTime" ==> d[k] == data[k])
    ensures r.Err? <==> (overwrite || "TotalReadoutTime" !in data) && TotalReadoutTime(data, shape).Err?
  {
    var addTrt := overwrite || "TotalReadoutTime" !in data;
    var addTask := overwrite || "TaskName" !in data;
    var withTrt :-
      if addTrt then
        var trt :- TotalReadoutTime(data, shape);
        Ok(data["TotalReadoutTime" := Num(trt)])
      else Ok(data);
    var withTask := if addTask then withTrt["TaskName" := Str(task)] else withTrt;
    if addTrt || addTask then Ok(Some(withTask)) else Ok(None)
  }

  /**
   * A functional sidecar with a readout but no task name: the corrected step writes its task
   * name, the step as written never writes it unless `overwrite` is set.
   */
  lemma FuncWriteTestSkipsNewFields()
    ensures var data: Sidecar := map["TotalReadoutTime" := Num(0.05)];
      && FuncSidecarAsWritten(data, [64, 64, 30], "rest", false) == Ok(None)
      && FuncSidecar(data, [64, 64, 30], "rest", false).Ok?
      && FuncSidecar(data, [64, 64, 30], "rest", false).value.Some?
      && FuncSidecar(data, [64, 64, 30], "rest", false).value.value["TaskName"] == Str("rest")
  {
    var data: Sidecar := map["TotalReadoutTime" := Num(0.05)];
    assert "TaskName" !in data;
  }

  /** With `overwrite` set, the step as written and the corrected step agree. */
  lemma FuncStepsAgreeOnOverwrite(data: Sidecar, shape: seq<nat>, task: string)
    ensures FuncSidecarAsWritten(data, shape, task, true) == FuncSidecar(data, shape, task, true)
  {
  }

  /** The functional step for one image: load it, complete its sidecar, write it if needed. */
  function CompleteFunc(layout: Layout, disk: JsonDisk, shapes: map<string, seq<nat>>, nifti: string, task: string, overwrite: bool)
    : (r: Result<JsonDisk>)
    ensures r.Err? <==> nifti !in shapes || FuncSidecar(GetMetadata(layout, disk, nifti), shapes[nifti], task, overwrite).Err?
    ensures r.Ok? ==> var w := FuncSidecar(GetMetadata(layout, disk, nifti), shapes[nifti], task, overwrite).value;
      && (w.None? ==> r.value == disk)
      && (w.Some? ==> r.value.Keys == disk.Keys + {SidecarPath(nifti)} && r.value[SidecarPath(nifti)] == w.value)
    ensures r.Ok? ==> forall p :: p in disk && p != SidecarPath(nifti) ==> p in r.value && r.value[p] == disk[p]
  {
    if nifti !in shapes then Err(FileNotFoundError(nifti))
    else
      var written :- FuncSidecar(GetMetadata(layout, disk, nifti), shapes[nifti], task, overwrite);
      if written.Some? then Ok(disk[SidecarPath(nifti) := written.value]) else Ok(disk)
  }

  /** The readout step for each image in turn; the first exception stops the pass. */
  function ReadoutPass(layout: Layout, disk: JsonDisk, shapes: map<string, seq<nat>>, niftis: seq<string>, overwrite: bool)
    : Result<JsonDisk>
  {
    if |niftis| == 0 then Ok(disk)
    else
      var before :- ReadoutPass(layout, disk, shapes, niftis[..|niftis| - 1], overwrite);
      CompleteReadout(layout, before, shapes, niftis[|niftis| - 1], overwrite)
  }

  /** A readout pass leaves every file but the sidecars of its images as it was. */
  lemma {:induction false} ReadoutPassKeeps(layout: Layout, disk: JsonDisk, shapes: map<string, seq<nat>>, niftis: seq<string>,
                                            overwrite: bool, p: string)
    requires ReadoutPass(layout, disk, shapes, niftis, overwrite).Ok?
    requires p in disk && forall x :: x in niftis ==> p != SidecarPath(x)
    ensures p in ReadoutPass(layout, disk, shapes, niftis, overwrite).value
    ensures ReadoutPass(layout, disk, shapes, niftis, overwrite).value[p] == disk[p]
    decreases |niftis|
  {
    if |niftis| > 0 {
      var front := niftis[..|niftis| - 1];
      assert forall x :: x in front ==> x in niftis;
      ReadoutPassKeeps(layout, disk, shapes, front, overwrite, p);
      assert niftis[|niftis| - 1] in niftis;
    }
  }

  /** The pass over `xs + ys` is the pass over `xs` followed by the pass over `ys`. */
  lemma {:induction false} ReadoutPassAppend(layout: Layout, disk: JsonDisk, shapes: map<string, seq<nat>>,
                                             xs: seq<string>, ys: seq<string>, overwrite: bool)
    ensures ReadoutPass(layout, disk, shapes, xs + ys, overwrite)
      == match ReadoutPass(layout, disk, shapes, xs, overwrite)
         case Err(e) => Err(e)
         case Ok(mid) => ReadoutPass(layout, mid, shapes, ys, overwrite)
    decreases |ys|
  {
    if |ys| == 0 {
      assert xs + ys == xs;
    } else {
      var front := ys[..|ys| - 1];
      var last := ys[|ys| - 1];
      assert (xs + ys)[..|xs + ys| - 1] == xs + front;
      assert (xs + ys)[|xs + ys| - 1] == last;
      ReadoutPassAppend(layout, disk, shapes, xs, front, overwrite);
      match ReadoutPass(layout, disk, shapes, xs + front, overwrite)
      case Err(e) =>
        assert ReadoutPass(layout, disk, shapes, xs + ys, overwrite) == Err(e);
      case Ok(m) =>
        assert ReadoutPass(layout, disk, shapes, xs + ys, overwrite) == CompleteReadout(layout, m, shapes, last, overwrite);
    }
  }

  /** One more image of the readout pass is one more readout step. */
  lemma ReadoutPassStep(layout: Layout, disk: JsonDisk, shapes: map<string, seq<nat>>, niftis: seq<string>, j: nat,
                        overwrite: bool, cur: JsonDisk)
    requires j < |niftis| && ReadoutPass(layout, disk, shapes, niftis[..j], overwrite) == Ok(cur)
    ensures ReadoutPass(layout, disk, shapes, niftis[..j + 1], overwrite) == CompleteReadout(layout, cur, shapes, niftis[j], overwrite)
  {
    assert niftis[..j + 1][..j] == niftis[..j];
  }

  lemma ReadoutPassErrorSticks(layout: Layout, disk: JsonDisk, shapes: map<string, seq<nat>>,
                               pre: seq<string>, all: seq<string>, overwrite: bool)
    requires pre <= all && ReadoutPass(layout, disk, shapes, pre, overwrite).Err?
    ensures ReadoutPass(layout, disk, shapes, all, overwrite) == ReadoutPass(layout, disk, shapes, pre, overwrite)
  {
    ReadoutPassAppend(layout, disk, shapes, pre, all[|pre|..], overwrite);
    assert pre + all[|pre|..] == all;
  }

  /** The inner loop of lines 207-229: the readout step for each image of one query. */
  method ReadoutLoop(layout: Layout, disk: JsonDisk, shapes: map<string, seq<nat>>, niftis: seq<string>, overwrite: bool)
    returns (r: Result<JsonDisk>)
    ensures r == ReadoutPass(layout, disk, shapes, niftis, overwrite)
  {
    var cur := disk;
    for j := 0 to |niftis|
      invariant ReadoutPass(layout, disk, shapes, niftis[..j], overwrite) == Ok(cur)
    {
      ReadoutPassStep(layout, disk, shapes, niftis, j, overwrite, cur);
      var step := CompleteReadout(layout, cur, shapes, niftis[j], overwrite);
      if step.Err? {
        ReadoutPassErrorSticks(layout, disk, shapes, niftis[..j + 1], niftis, overwrite);
        return step;
      }
      cur := step.value;
    }
    assert niftis[..|niftis|] == niftis;
    return Ok(cur);
  }

  /** The functional step for each (image, task) pair in turn. */
  function FuncPass(layout: Layout, disk: JsonDisk, shapes: map<string, seq<nat>>, items: seq<(string, string)>, overwrite: bool)
    : Result<JsonDisk>
  {
    if |items| == 0 then Ok(disk)
    else
      var before :- FuncPass(layout, disk, shapes, items[..|items| - 1], overwrite);
      CompleteFunc(layout, before, shapes, items[|items| - 1].0, items[|items| - 1].1, overwrite)
  }

  /** A functional pass leaves every file but the sidecars of its images as it was. */
  lemma {:induction false} FuncPassKeeps(layout: Layout, disk: JsonDisk, shapes: map<string, seq<nat>>, items: seq<(string, string)>,
                                         overwrite: bool, p: string)
    requires FuncPass(layout, disk, shapes, items, overwrite).Ok?
    requires p in disk && forall x :: x in items ==> p != SidecarPath(x.0)
    ensures p in FuncPass(layout, disk, shapes, items, overwrite).value
    ensures FuncPass(layout, disk, shapes, items, overwrite).value[p] == disk[p]
    decreases |items|
  {
    if |items| > 0 {
      var front := items[..|items| - 1];
      assert forall x :: x in front ==> x in items;
      FuncPassKeeps(layout, disk, shapes, front, overwrite, p);
      assert items[|items| - 1] in items;
    }
  }

  lemma {:induction false} FuncPassAppend(layout: Layout, disk: JsonDisk, shapes: map<string, seq<nat>>,
                                          xs: seq<(string, string)>, ys: seq<(string, string)>, overwrite: bool)
    ensures FuncPass(layout, disk, shapes, xs + ys, overwrite)
      == match FuncPass(layout, disk, shapes, xs, overwrite)
         case Err(e) => Err(e)
         case Ok(mid) => FuncPass(layout, mid, shapes, ys, overwrite)
    decreases |ys|
  {
    if |ys| == 0 {
      assert xs + ys == xs;
    } else {
      var front := ys[..|ys| - 1];
      var last := ys[|ys| - 1];
      assert (xs + ys)[..|xs + ys| - 1] == xs + front;
      assert (xs + ys)[|xs + ys| - 1] == last;
      FuncPassAppend(layout, disk, shapes, xs, front, overwrite);
      match FuncPass(layout, disk, shapes, xs + front, overwrite)
      case Err(e) =>
        assert FuncPass(layout, disk, shapes, xs + ys, overwrite) == Err(e);
      case Ok(m) =>
        assert FuncPass(layout, disk, shapes, xs + ys, overwrite) == CompleteFunc(layout, m, shapes, last.0, last.1, overwrite);
    }
  }

  function DwiQuery(sid: string, ses: Option<string>): Query {
    Query(Some(sid), SessionFilter(ses), Some("dwi"), None, None, None, Some("nii.gz"))
  }

  /** The diffusion images of lines 199-207, subject after subject. */
  function DwiImagesOf(layout: Layout, subs: seq<string>, ses: Option<string>): seq<string> {
    if |subs| == 0 then []
    else DwiImagesOf(layout, subs[..|subs| - 1], ses) + Paths(Get(layout, DwiQuery(subs[|subs| - 1], ses)))
  }

  /** The diffusion images of the subjects from position `i` on. */
  function DwiRest(layout: Layout, subs: seq<string>, i: nat, ses: Option<string>): seq<string>
    requires i <= |subs|
    decreases |subs| - i
  {
    if i == |subs| then [] else Paths(Get(layout, DwiQuery(subs[i], ses))) + DwiRest(layout, subs, i + 1, ses)
  }

  lemma {:induction false} DwiImagesSplit(layout: Layout, subs: seq<string>, i: nat, ses: Option<string>)
    requires i <= |subs|
    ensures DwiImagesOf(layout, subs, ses) == DwiImagesOf(layout, subs[..i], ses) + DwiRest(layout, subs, i, ses)
    decreases |subs| - i
  {
    if i == |subs| {
      assert subs[..i] == subs;
    } else {
      DwiImagesSplit(layout, subs, i + 1, ses);
      assert subs[..i + 1][..i] == subs[..i];
    }
  }

  /**
   * `complete_dwi_jsons` (lines 189-229): the readout step for the diffusion images of each
   * subject in turn.
   */
  method CompleteDwiJsons(layout: Layout, disk: JsonDisk, shapes: map<string, seq<nat>>,
                          subs: seq<string>, ses: Option<string>, overwrite: bool)
    returns (r: Result<JsonDisk>)
    ensures r == ReadoutPass(layout, disk, shapes, DwiImagesOf(layout, subs, ses), overwrite)
  {
    var cur := disk;
    for i := 0 to |subs|
      invariant ReadoutPass(layout, disk, shapes, DwiImagesOf(layout, subs[..i], ses), overwrite) == Ok(cur)
    {
      var step := DwiSubject(layout, disk, cur, shapes, subs, i, ses, overwrite);
      if step.Err? {
        DwiErrorSticks(layout, disk, shapes, subs, i + 1, ses, overwrite);
        return step;
      }
      cur := step.value;
    }
    assert subs[..|subs|] == subs;
    return Ok(cur);
  }

  /** Lines 199-229 for subject `i`: the readout step for each of its diffusion images. */
  method DwiSubject(layout: Layout, disk: JsonDisk, cur: JsonDisk, shapes: map<string, seq<nat>>,
                    subs: seq<string>, i: nat, ses: Option<string>, overwrite: bool)
    returns (step: Result<JsonDisk>)
    requires i < |subs| && ReadoutPass(layout, disk, shapes, DwiImagesOf(layout, subs[..i], ses), overwrite) == Ok(cur)
    ensures step == ReadoutPass(layout, disk, shapes, DwiImagesOf(layout, subs[..i + 1], ses), overwrite)
  {
    var niftis := Paths(Get(layout, DwiQuery(subs[i], ses)));
    ghost var done := DwiImagesOf(layout, subs[..i], ses);
    assert subs[..i + 1][..i] == subs[..i];
    assert DwiImagesOf(layout, subs[..i + 1], ses) == done + niftis;
    ReadoutPassAppend(layout, disk, shapes, done, niftis, overwrite);
    step := ReadoutLoop(layout, cur, shapes, niftis, overwrite);
  }

  /** Once the images of the first `i` subjects raise, so do those of all of them, with that error. */
  lemma DwiErrorSticks(layout: Layout, disk: JsonDisk, shapes: map<string, seq<nat>>,
                       subs: seq<string>, i: nat, ses: Option<string>, overwrite: bool)
    requires i <= |subs| && ReadoutPass(layout, disk, shapes, DwiImagesOf(layout, subs[..i], ses), overwrite).Err?
    ensures ReadoutPass(layout, disk, shapes, DwiImagesOf(layout, subs, ses), overwrite)
      == ReadoutPass(layout, disk, shapes, DwiImagesOf(layout, subs[..i], ses), overwrite)
  {
    DwiImagesSplit(layout, subs, i, ses);
    ReadoutPassAppend(layout, disk, shapes, DwiImagesOf(layout, subs[..i], ses), DwiRest(layout, subs, i, ses), overwrite);
  }

  /** A sidecar next to an image of the layout: the only files the readout passes write. */
  predicate ImageSidecar(layout: Layout, p: string) {
    exists f :: f in layout.files && f.ext == "nii.gz" && p == SidecarPath(f.path)
  }

  /** The files a query with `ext = nii.gz` returns are images of the layout. */
  lemma QueriedImages(layout: Layout, q: Query, x: string)
    requires q.ext == Some("nii.gz") && x in Paths(Get(layout, q))
    ensures exists f :: f in layout.files && f.ext == "nii.gz" && f.path == x
  {
    var files := Get(layout, q);
    var i :| 0 <= i < |files| && Paths(files)[i] == x;
    assert files[i] in files;
  }

  /** A readout pass over images of the layout leaves every file but their sidecars alone. */
  lemma ReadoutPassFrame(layout: Layout, disk: JsonDisk, shapes: map<string, seq<nat>>,
                         niftis: seq<string>, overwrite: bool, p: string)
    requires forall x :: x in niftis ==> exists f :: f in layout.files && f.ext == "nii.gz" && f.path == x
    requires ReadoutPass(layout, disk, shapes, niftis, overwrite).Ok? && p in disk && !ImageSidecar(layout, p)
    ensures p in ReadoutPass(layout, disk, shapes, niftis, overwrite).value
    ensures ReadoutPass(layout, disk, shapes, niftis, overwrite).value[p] == disk[p]
  {
    forall x | x in niftis ensures p != SidecarPath(x) {
      var f :| f in layout.files && f.ext == "nii.gz" && f.path == x;
    }
    ReadoutPassKeeps(layout, disk, shapes, niftis, overwrite, p);
  }

  lemma {:induction false} DwiImagesAreImages(layout: Layout, subs: seq<string>, ses: Option<string>, x: string)
    requires x in DwiImagesOf(layout, subs, ses)
    ensures exists f :: f in layout.files && f.ext == "nii.gz" && f.path == x
    decreases |subs|
  {
    if x in DwiImagesOf(layout, subs[..|subs| - 1], ses) {
      DwiImagesAreImages(layout, subs[..|subs| - 1], ses, x);
    } else {
      QueriedImages(layout, DwiQuery(subs[|subs| - 1], ses), x);
    }
  }

  /** `layout.get_tasks()`: task labels of the layout, each once, sorted. */
  function TaskLabels(layout: Layout): seq<string> {
    SortStrings(Unique(TaskEntities(layout.files)))
  }

  /** Task labels are sorted, distinct, and exactly those task entities that some file of the layout has. */
  lemma TaskLabelsSpec(layout: Layout)
    ensures SortedStrings(TaskLabels(layout)) && Distinct(TaskLabels(layout))
    ensures forall t :: t in TaskLabels(layout) <==> exists f :: f in layout.files && f.task == Some(t)
  {
    var labels := Unique(TaskEntities(layout.files));
    var r := SortStrings(labels);
    assert multiset(r) == multiset(labels);
    PermutationDistinct(labels, r);
    forall t ensures t in r <==> t in labels {
      assert t in r <==> t in multiset(r);
      assert t in labels <==> t in multiset(labels);
    }
  }

  /** Task entity of each file that has one, in index order. */
  function TaskEntities(files: seq<BidsFile>): (r: seq<string>)
    ensures forall t :: t in r <==> exists f :: f in files && f.task == Some(t)
  {
    if |files| == 0 then []
    else
      var rest := TaskEntities(files[1..]);
      assert forall f :: f in files <==> f == files[0] || f in files[1..];
      (if files[0].task.Some? then [files[0].task.value] else []) + rest
  }

  /** The elements of `xs`, each once, in order of first occurrence. */
  function Unique(xs: seq<string>): (r: seq<string>)
    ensures Distinct(r) && forall x :: x in r <==> x in xs
  {
    if |xs| == 0 then []
    else
      var front := Unique(xs[..|xs| - 1]);
      assert forall x :: x in xs <==> x in xs[..|xs| - 1] || x == xs[|xs| - 1] by {
        assert xs == xs[..|xs| - 1] + [xs[|xs| - 1]];
      }
      if xs[|xs| - 1] in front then front else front + [xs[|xs| - 1]]
  }

  function FuncQuery(sid: string, ses: Option<string>, task: string): Query {
    Query(Some(sid), SessionFilter(ses), Some("func"), Some(task), None, None, Some("nii.gz"))
  }

  /** The images of one query, each paired with its queried task. */
  function WithTask(niftis: seq<string>, task: string): (r: seq<(string, string)>)
    ensures |r| == |niftis| && forall i :: 0 <= i < |niftis| ==> r[i] == (niftis[i], task)
  {
    seq(|niftis|, i requires 0 <= i < |niftis| => (niftis[i], task))
  }

  /** The (image, task) pairs of one subject, task after task (lines 149-157). */
  function FuncItems(layout: Layout, sid: string, ses: Option<string>, tasks: seq<string>): seq<(string, string)> {
    if |tasks| == 0 then []
    else
      var task := tasks[|tasks| - 1];
      FuncItems(layout, sid, ses, tasks[..|tasks| - 1]) + WithTask(Paths(Get(layout, FuncQuery(sid, ses, task))), task)
  }

  /** The (image, task) pairs of all subjects, subject after subject (lines 147-157). */
  function FuncImagesOf(layout: Layout, subs: seq<string>, ses: Option<string>): seq<(string, string)> {
    if |subs| == 0 then []
    else FuncImagesOf(layout, subs[..|subs| - 1], ses) + FuncItems(layout, subs[|subs| - 1], ses, TaskLabels(layout))
  }

  lemma {:induction false} FuncItemsPrefix(layout: Layout, sid: string, ses: Option<string>, tasks: seq<string>, i: nat)
    requires i <= |tasks|
    ensures FuncItems(layout, sid, ses, tasks[..i]) <= FuncItems(layout, sid, ses, tasks)
    decreases |tasks|
  {
    if i == |tasks| {
      assert tasks[..i] == tasks;
    } else {
      var front := tasks[..|tasks| - 1];
      assert front[..i] == tasks[..i];
      FuncItemsPrefix(layout, sid, ses, front, i);
    }
  }

  lemma {:induction false} FuncImagesPrefix(layout: Layout, subs: seq<string>, ses: Option<string>, i: nat)
    requires i <= |subs|
    ensures FuncImagesOf(layout, subs[..i], ses) <= FuncImagesOf(layout, subs, ses)
    decreases |subs|
  {
    if i == |subs| {
      assert subs[..i] == subs;
    } else {
      var front := subs[..|subs| - 1];
      assert front[..i] == subs[..i];
      FuncImagesPrefix(layout, front, ses, i);
    }
  }

  lemma FuncPassErrorSticks(layout: Layout, disk: JsonDisk, shapes: map<string, seq<nat>>,
                            pre: seq<(string, string)>, all: seq<(string, string)>, overwrite: bool)
    requires pre <= all && FuncPass(layout, disk, shapes, pre, overwrite).Err?
    ensures FuncPass(layout, disk, shapes, all, overwrite) == FuncPass(layout, disk, shapes, pre, overwrite)
  {
    FuncPassAppend(layout, disk, shapes, pre, all[|pre|..], overwrite);
    assert pre + all[|pre|..] == all;
  }

  /** One more image of the functional pass is one more functional step. */
  lemma FuncPassStep(layout: Layout, disk: JsonDisk, shapes: map<string, seq<nat>>, items: seq<(string, string)>, k: nat,
                     overwrite: bool, cur: JsonDisk)
    requires k < |items| && FuncPass(layout, disk, shapes, items[..k], overwrite) == Ok(cur)
    ensures FuncPass(layout, disk, shapes, items[..k + 1], overwrite) == CompleteFunc(layout, cur, shapes, items[k].0, items[k].1, overwrite)
  {
    assert items[..k + 1][..k] == items[..k];
  }

  /** The inner loop of lines 157-186: the functional step for each image of one task. */
  method FuncLoop(layout: Layout, disk: JsonDisk, shapes: map<string, seq<nat>>, items: seq<(string, string)>, overwrite: bool)
    returns (r: Result<JsonDisk>)
    ensures r == FuncPass(layout, disk, shapes, items, overwrite)
  {
    var cur := disk;
    for k := 0 to |items|
      invariant FuncPass(layout, disk, shapes, items[..k], overwrite) == Ok(cur)
    {
      FuncPassStep(layout, disk, shapes, items, k, overwrite, cur);
      var step := CompleteFunc(layout, cur, shapes, items[k].0, items[k].1, overwrite);
      if step.Err? {
        FuncPassErrorSticks(layout, disk, shapes, items[..k + 1], items, overwrite);
        return step;
      }
      cur := step.value;
    }
    assert items[..|items|] == items;
    return Ok(cur);
  }

  /** Loop over tasks, lines 149-186 for one subject. */
  method FuncSubject(layout: Layout, disk: JsonDisk, shapes: map<string, seq<nat>>,
                     sid: string, ses: Option<string>, tasks: seq<string>, overwrite: bool)
    returns (r: Result<JsonDisk>)
    ensures r == FuncPass(layout, disk, shapes, FuncItems(layout, sid, ses, tasks), overwrite)
  {
    var cur := disk;
    for j := 0 to |tasks|
      invariant FuncPass(layout, disk, shapes, FuncItems(layout, sid, ses, tasks[..j]), overwrite) == Ok(cur)
    {
      var task := tasks[j];
      var items := WithTask(Paths(Get(layout, FuncQuery(sid, ses, task))), task);
      ghost var done := FuncItems(layout, sid, ses, tasks[..j]);
      assert tasks[..j + 1][..j] == tasks[..j];
      assert FuncItems(layout, sid, ses, tasks[..j + 1]) == done + items;
      FuncPassAppend(layout, disk, shapes, done, items, overwrite);
      var step := FuncLoop(layout, cur, shapes, items, overwrite);
      if step.Err? {
        FuncItemsPrefix(layout, sid, ses, tasks, j + 1);
        FuncPassErrorSticks(layout, disk, shapes, done + items, FuncItems(layout, sid, ses, tasks), overwrite);
        return step;
      }
      cur := step.value;
    }
    assert tasks[..|tasks|] == tasks;
    return Ok(cur);
  }

  /**
   * `complete_func_jsons` (lines 137-186): for each subject and each task label of the
   * layout, the functional step for each image of that subject and task.
   */
  method CompleteFuncJsons(layout: Layout, disk: JsonDisk, shapes: map<string, seq<nat>>,
                           subs: seq<string>, ses: Option<string>, overwrite: bool)
    returns (r: Result<JsonDisk>)
    ensures r == FuncPass(layout, disk, shapes, FuncImagesOf(layout, subs, ses), overwrite)
  {
    var tasks := TaskLabels(layout);
    var cur := disk;
    for i := 0 to |subs|
      invariant FuncPass(layout, disk, shapes, FuncImagesOf(layout, subs[..i], ses), overwrite) == Ok(cur)
    {
      ghost var done := FuncImagesOf(layout, subs[..i], ses);
      ghost var items := FuncItems(layout, subs[i], ses, tasks);
      assert subs[..i + 1][..i] == subs[..i];
      assert FuncImagesOf(layout, subs[..i + 1], ses) == done + items;
      FuncPassAppend(layout, disk, shapes, done, items, overwrite);
      var step := FuncSubject(layout, cur, shapes, subs[i], ses, tasks, overwrite);
      if step.Err? {
        FuncImagesPrefix(layout, subs, ses, i + 1);
        FuncPassErrorSticks(layout, disk, shapes, done + items, FuncImagesOf(layout, subs, ses), overwrite);
        return step;
      }
      cur := step.value;
    }
    assert subs[..|subs|] == subs;
    return Ok(cur);
  }

  lemma {:induction false} FuncItemsAreImages(layout: Layout, sid: string, ses: Option<string>,
                                              tasks: seq<string>, x: (string, string))
    requires x in FuncItems(layout, sid, ses, tasks)
    ensures exists f :: f in layout.files && f.ext == "nii.gz" && f.path == x.0
    decreases |tasks|
  {
    var task := tasks[|tasks| - 1];
    var niftis := Paths(Get(layout, FuncQuery(sid, ses, task)));
    if x in FuncItems(layout, sid, ses, tasks[..|tasks| - 1]) {
      FuncItemsAreImages(layout, sid, ses, tasks[..|tasks| - 1], x);
    } else {
      var i :| 0 <= i < |niftis| && WithTask(niftis, task)[i] == x;
      QueriedImages(layout, FuncQuery(sid, ses, task), niftis[i]);
    }
  }

  lemma {:induction false} FuncImagesAreImages(layout: Layout, subs: seq<string>, ses: Option<string>, x: (string, string))
    requires x in FuncImagesOf(layout, subs, ses)
    ensures exists f :: f in layout.files && f.ext == "nii.gz" && f.path == x.0
    decreases |subs|
  {
    if x in FuncImagesOf(layout, subs[..|subs| - 1], ses) {
      FuncImagesAreImages(layout, subs[..|subs| - 1], ses, x);
    } else {
      FuncItemsAreImages(layout, subs[|subs| - 1], ses, TaskLabels(layout), x);
    }
  }

  /** The readout query of lines 109-110: it passes `ses` as given, even when it is falsy. */
  function FmapImageQuery(sid: string, ses: Option<string>): Query {
    Query(Some(sid), ses, Some("fmap"), None, None, None, Some("nii.gz"))
  }

  /** The directions and acquisitions of the bucket loops (lines 57-58). */
  const Directions: seq<string> := ["AP", "PA"]
  const Acquisitions: seq<string> := ["func", "dwi"]

  /**
   * `complete_fmap_jsons` (lines 35-134) with the readout step reading each field map's own
   * sidecar: for each subject, the four buckets, then the readout step for each field-map
   * image. Only field-map sidecars and image sidecars of the layout can change.
   */
  method CompleteFmapJsons(layout: Layout, disk: JsonDisk, shapes: map<string, seq<nat>>,
                           bidsDir: string, subs: seq<string>, ses: Option<string>, overwrite: bool)
    returns (r: Result<JsonDisk>)
    ensures r.Ok? ==> forall p :: p in disk && !FieldMapJson(layout, p) && !ImageSidecar(layout, p) ==>
      p in r.value && r.value[p] == disk[p]
  {
    var cur := disk;
    for i := 0 to |subs|
      invariant forall p :: p in disk && !FieldMapJson(layout, p) && !ImageSidecar(layout, p) ==>
        p in cur && cur[p] == disk[p]
    {
      var sid := subs[i];
      var subjDir := SubjectDir(bidsDir, sid);
      for d := 0 to |Directions|
        invariant forall p :: p in disk && !FieldMapJson(layout, p) && !ImageSidecar(layout, p) ==>
          p in cur && cur[p] == disk[p]
      {
        for a := 0 to |Acquisitions|
          invariant forall p :: p in disk && !FieldMapJson(layout, p) && !ImageSidecar(layout, p) ==>
            p in cur && cur[p] == disk[p]
        {
          var step := CompleteBucket(layout, cur, subjDir, sid, ses, Directions[d], Acquisitions[a], overwrite);
          if step.Err? {
            return step;
          }
          forall p | p in cur && !FieldMapJson(layout, p) ensures p in step.value && step.value[p] == cur[p] {
            if p in Paths(Get(layout, FmapQuery(sid, ses, Directions[d], Acquisitions[a]))) {
              BucketFilesAreFieldMaps(layout, sid, ses, Directions[d], Acquisitions[a], p);
            }
          }
          cur := step.value;
        }
      }
      var niftis := Paths(Get(layout, FmapImageQuery(sid, ses)));
      var step := ReadoutLoop(layout, cur, shapes, niftis, overwrite);
      if step.Err? {
        return step;
      }
      forall x | x in niftis ensures exists f :: f in layout.files && f.ext == "nii.gz" && f.path == x {
        QueriedImages(layout, FmapImageQuery(sid, ses), x);
      }
      forall p | p in cur && !ImageSidecar(layout, p) ensures p in step.value && step.value[p] == cur[p] {
        ReadoutPassFrame(layout, cur, shapes, niftis, overwrite, p);
      }
      cur := step.value;
    }
    return Ok(cur);
  }

  /**
   * `run` (lines 232-235): the field-map pass, then the functional pass, then the diffusion
   * pass, each on the files the previous one left. Only field-map sidecars and image sidecars
   * of the layout can change.
   */
  method Run(layout: Layout, disk: JsonDisk, shapes: map<string, seq<nat>>,
             bidsDir: string, subs: seq<string>, ses: Option<string>, overwrite: bool)
    returns (r: Result<JsonDisk>)
    ensures r.Ok? ==> forall p :: p in disk && !FieldMapJson(layout, p) && !ImageSidecar(layout, p) ==>
      p in r.value && r.value[p] == disk[p]
  {
    var afterFmap := CompleteFmapJsons(layout, disk, shapes, bidsDir, subs, ses, overwrite);
    if afterFmap.Err? {
      return afterFmap;
    }
    var afterFunc := CompleteFuncJsons(layout, afterFmap.value, shapes, subs, ses, overwrite);
    if afterFunc.Err? {
      return afterFunc;
    }
    forall p | p in afterFmap.value && !ImageSidecar(layout, p)
      ensures p in afterFunc.value && afterFunc.value[p] == afterFmap.value[p]
    {
      forall x | x in FuncImagesOf(layout, subs, ses) ensures p != SidecarPath(x.0) {
        FuncImagesAreImages(layout, subs, ses, x);
      }
      FuncPassKeeps(layout, afterFmap.value, shapes, FuncImagesOf(layout, subs, ses), overwrite, p);
    }
    r := CompleteDwiJsons(layout, afterFunc.value, shapes, subs, ses, overwrite);
    if r.Ok? {
      forall x | x in DwiImagesOf(layout, subs, ses)
        ensures exists f :: f in layout.files && f.ext == "nii.gz" && f.path == x
      {
        DwiImagesAreImages(layout, subs, ses, x);
      }
      forall p | p in afterFunc.value && !ImageSidecar(layout, p)
        ensures p in r.value && r.value[p] == afterFunc.value[p]
      {
        ReadoutPassFrame(layout, afterFunc.value, shapes, DwiImagesOf(layout, subs, ses), overwrite, p);
      }
    }
  }
}
