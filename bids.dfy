/**
 * The parts of a BIDS dataset the scripts see: JSON sidecars, and the file index that
 * `bids.grabbids.BIDSLayout` answers queries from.
 */
module Bids {
  import opened Base
  import opened Text

  /** A JSON value as `json.load` returns it. */
  datatype Json =
    | Null
    | Bool(b: bool)
    | Int(i: int)
    | Num(r: real)
    | Str(s: string)
    | Arr(items: seq<Json>)
    | Obj(fields: map<string, Json>)

  /** The top-level object of a sidecar file. */
  type Sidecar = map<string, Json>

  /** `float(v)` for a JSON number; anything else cannot be used as a number here. */
  function AsReal(v: Json): Option<real> {
    match v
    case Int(i) => Some(i as real)
    case Num(r) => Some(r)
    case _ => None
  }

  /** The sidecar of an image: `path.replace('.nii.gz', '.json')`. */
  function SidecarPath(nifti: string): string {
    ReplaceAll(nifti, ".nii.gz", ".json")
  }

  /** For an image path whose only `.nii.gz` is its suffix, the sidecar path swaps that suffix. */
  lemma SidecarPathSwapsSuffix(stem: string)
    requires forall i :: 0 <= i < |stem| ==> !StartsWith((stem + ".nii.gz")[i..], ".nii.gz")
    ensures SidecarPath(stem + ".nii.gz") == stem + ".json"
  {
    ReplaceAtEnd(stem, ".nii.gz", ".json");
  }

  /** One indexed file and the BIDS entities parsed from its name. */
  datatype BidsFile = BidsFile(
    path: string,
    subject: string,
    session: Option<string>,
    modality: string,
    task: Option<string>,
    acq: Option<string>,
    dir: Option<string>,
    ext: string)

  /** Sidecar contents by path, as they currently are on disk. */
  type JsonDisk = map<string, Sidecar>

  /**
   * The layout: the indexed files in index order and, for each image, the indexed sidecars
   * that apply to it by inheritance, from the dataset root down to the image's own sidecar.
   */
  datatype Layout = Layout(files: seq<BidsFile>, sidecars: map<string, seq<string>>)

  /** The keyword arguments of `layout.get(...)`; `None` leaves an entity unconstrained. */
  datatype Query = Query(
    subject: Option<string>,
    session: Option<string>,
    modality: Option<string>,
    task: Option<string>,
    acq: Option<string>,
    dir: Option<string>,
    ext: Option<string>)

  predicate Admits(want: Option<string>, have: Option<string>) {
    want.None? || have == want
  }

  predicate Matches(q: Query, f: BidsFile) {
    && Admits(q.subject, Some(f.subject))
    && Admits(q.session, f.session)
    && Admits(q.modality, Some(f.modality))
    && Admits(q.task, f.task)
    && Admits(q.acq, f.acq)
    && Admits(q.dir, f.dir)
    && Admits(q.ext, Some(f.ext))
  }

  function Filter(files: seq<BidsFile>, q: Query): (r: seq<BidsFile>)
    ensures forall f :: f in r <==> f in files && Matches(q, f)
  {
    if |files| == 0 then []
    else (if Matches(q, files[0]) then [files[0]] else []) + Filter(files[1..], q)
  }

  /** `layout.get(**q)`: the matching files, in index order. */
  function Get(layout: Layout, q: Query): seq<BidsFile> {
    Filter(layout.files, q)
  }

  /** The sidecars of `chain`, read from disk now, each one updating the ones before it. */
  function Merged(disk: JsonDisk, chain: seq<string>): Sidecar {
    if |chain| == 0 then map[]
    else
      var front := Merged(disk, chain[..|chain| - 1]);
      var p := chain[|chain| - 1];
      if p in disk then front + disk[p] else front
  }

  /**
   * `layout.get_metadata(path)`: the sidecars that apply to the image merged, a nearer one
   * overriding a farther one key by key; empty for a path with no sidecar.
   */
  function GetMetadata(layout: Layout, disk: JsonDisk, path: string): Sidecar {
    if path in layout.sidecars then Merged(disk, layout.sidecars[path]) else map[]
  }

  /** The sidecar at `p` exists and holds `k`. */
  predicate Holds(disk: JsonDisk, p: string, k: string) {
    p in disk && k in disk[p]
  }

  /** A key is in the merged metadata exactly when some sidecar of the chain holds it. */
  lemma {:induction false} MergedKeys(disk: JsonDisk, chain: seq<string>, k: string)
    ensures k in Merged(disk, chain) <==> exists i :: 0 <= i < |chain| && Holds(disk, chain[i], k)
  {
    if |chain| > 0 {
      var front := chain[..|chain| - 1];
      MergedKeys(disk, front, k);
      forall i | 0 <= i < |front| ensures front[i] == chain[i] {}
    }
  }

  /** The merged value of a key is the one of the last sidecar of the chain that holds it. */
  lemma {:induction false} MergedValue(disk: JsonDisk, chain: seq<string>, k: string, i: nat)
    requires i < |chain| && Holds(disk, chain[i], k)
    requires forall j :: i < j < |chain| ==> !Holds(disk, chain[j], k)
    ensures k in Merged(disk, chain) && Merged(disk, chain)[k] == disk[chain[i]][k]
  {
    var n := |chain| - 1;
    if i < n {
      var front := chain[..n];
      MergedValue(disk, front, k, i);
      assert !Holds(disk, chain[n], k);
    }
  }
}
