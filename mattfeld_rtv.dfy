/** The heudiconv heuristic `heuristics/Mattfeld_RTV.py`, for the RTV protocol. */
module MattfeldRtv {
  import opened Base
  import opened Text
  import opened Heuristics

  /** The six output keys of lines 21-38. */
  datatype Category = Rest | Rtv | FmapFunc | FmapDwi | Dwi | T1w

  const Categories: seq<Category> := [Rest, Rtv, FmapFunc, FmapDwi, Dwi, T1w]

  /** The key of each category, as `create_key` builds it from the template of lines 21-38. */
  function Template(c: Category): string {
    match c
    case Rest => "func/sub-{subject}_ses-{session}_task-rest_run-{item:02d}_bold"
    case Rtv => "func/sub-${subjects}_ses-${session}_task-rtv_run{item:02d}_bold"
    case FmapFunc => "fmap/sub-{subject}_ses-{session}_acq-func_dir-{dir}_run-{item:02d}_epi"
    case FmapDwi => "fmap/sub-{subject}_ses-{session}_acq-dwi_dir-{dir}_run-{item:02d}_epi"
    case Dwi => "dwi/sub-{subject}_ses-{session}_run-{item:02d}_dwi"
    case T1w => "anat/sub-{subject}_ses-{session}_T1w"
  }

  /** The position of `c` in `Categories`. */
  function Index(c: Category): nat {
    match c
    case Rest => 0
    case Rtv => 1
    case FmapFunc => 2
    case FmapDwi => 3
    case Dwi => 4
    case T1w => 5
  }

  /** The six keys are six different keys. */
  lemma CategoriesDistinct()
    ensures Distinct(Categories)
  {
    assert forall k :: 0 <= k < |Categories| ==> Index(Categories[k]) == k;
  }

  /** Line 40: every key starts with an empty list. */
  function Initial(): (info: map<Category, seq<Entry>>)
    ensures info.Keys == set c | c in Categories
    ensures forall c :: Lookup(info, c) == []
  {
    map c | c in Categories :: []
  }

  /** No entry is filed before the first series. */
  lemma InitialEmpty()
    ensures Size(Initial(), Categories) == 0
  {
    SizeEmpty(Initial(), Categories);
  }

  /** The position of each rule in lines 44-52; the field maps come last. */
  function Rank(c: Category): nat {
    match c
    case T1w => 0
    case Rest => 1
    case Rtv => 2
    case Dwi => 3
    case FmapFunc => 4
    case FmapDwi => 4
  }

  /** The condition of the rule for `c` on lines 44-51 (no such rule for the field maps). */
  predicate Guard(c: Category, s: SeqInfo) {
    match c
    case T1w => s.slices == 176 && EndsWith(s.description, "T1w_MPR_vNav")
    case Rest => s.volumes == 750 && Contains(s.description, "fMRI_RTV_Rest")
    case Rtv => s.volumes == 380 && Contains(s.description, "fMRI_RTV_Run")
    case Dwi => s.slices > 1 && s.volumes == 103 && Contains(s.description, "dMRI")
    case FmapFunc => false
    case FmapDwi => false
  }

  /** Some rule tried before the one for `c` applies. */
  predicate AnyBefore(c: Category, s: SeqInfo)
    decreases Rank(c)
  {
    match c
    case T1w => false
    case Rest => Guard(T1w, s)
    case Rtv => AnyBefore(Rest, s) || Guard(Rest, s)
    case Dwi => AnyBefore(Rtv, s) || Guard(Rtv, s)
    case FmapFunc => AnyBefore(Dwi, s) || Guard(Dwi, s)
    case FmapDwi => AnyBefore(Dwi, s) || Guard(Dwi, s)
  }

  /** The rule for `c` is the first one that applies to `s`. */
  predicate Takes(c: Category, s: SeqInfo) {
    Guard(c, s) && !AnyBefore(c, s)
  }

  /** A series none of the scan rules takes, whose description names a distortion map (line 52). */
  predicate FieldMapSeries(s: SeqInfo) {
    !AnyBefore(FmapFunc, s) && Contains(s.description, "DistortionMap")
  }

  const Directions: seq<string> := ["PA", "AP", "RL", "LR"]

  /**
   * Lines 43-78 for series `i`: the first rule whose condition holds appends the series to its
   * list; a resting-state series is filed by its number, which `int` must be able to read. A
   * distortion map is ignored in last position; otherwise its direction comes from its suffix
   * (an unknown one raises) and it is for diffusion when `TowardsDwi` holds of the next two
   * series. Field-map entries carry no acquisition label.
   */
  function Rule(seqinfo: seq<SeqInfo>, i: nat): (r: Result<Filing<Category>>)
    requires i < |seqinfo|
    ensures forall c :: c !in {FmapFunc, FmapDwi} ==> (FiledUnder(r, c) <==> r.Ok? && Takes(c, seqinfo[i]))
    ensures r.Ok? ==> !r.value.Replace?
    ensures r.Ok? && !r.value.Skip? && r.value.cat !in {FmapFunc, FmapDwi, Rest} ==> r.value.entry == Series(seqinfo[i].seriesId)
    ensures FiledUnder(r, Rest) ==> ParseInt(seqinfo[i].seriesId).Some? && r.value.entry == SeriesNumber(ParseInt(seqinfo[i].seriesId).value)
    ensures r.Err? <==>
      || (Takes(Rest, seqinfo[i]) && ParseInt(seqinfo[i].seriesId).None?)
      || (FieldMapSeries(seqinfo[i]) && i + 1 < |seqinfo| && Direction(seqinfo[i].description, Directions).Err?)
    ensures r.Err? ==> r.error.ValueError?
    ensures FieldMapSeries(seqinfo[i]) && i + 1 == |seqinfo| ==> r == Ok(Skip)
    ensures FiledUnder(r, FmapDwi) ==>
      && FieldMapSeries(seqinfo[i]) && i + 1 < |seqinfo| && r.value.Append?
      && TowardsDwi(seqinfo[i + 1], NextNext(seqinfo, i))
      && r.value.entry == FieldMap(seqinfo[i].seriesId, Direction(seqinfo[i].description, Directions).value, None)
    ensures FiledUnder(r, FmapFunc) ==>
      && FieldMapSeries(seqinfo[i]) && i + 1 < |seqinfo| && r.value.Append?
      && !TowardsDwi(seqinfo[i + 1], NextNext(seqinfo, i))
      && r.value.entry == FieldMap(seqinfo[i].seriesId, Direction(seqinfo[i].description, Directions).value, None)
    ensures FieldMapSeries(seqinfo[i]) && i + 1 < |seqinfo| && Direction(seqinfo[i].description, Directions).Ok? ==>
      FiledUnder(r, FmapFunc) || FiledUnder(r, FmapDwi)
  {
    var s := seqinfo[i];
    var id := s.seriesId;
    if Guard(T1w, s) then Ok(Append(T1w, Series(id)))
    else if Guard(Rest, s) then
      match ParseInt(id)
      case Some(n) => Ok(Append(Rest, SeriesNumber(n)))
      case None => Err(ValueError("invalid literal for int(): " + id))
    else if Guard(Rtv, s) then Ok(Append(Rtv, Series(id)))
    else if Guard(Dwi, s) then Ok(Append(Dwi, Series(id)))
    else if Contains(s.description, "DistortionMap") then
      if i + 1 < |seqinfo| then
        var next := seqinfo[i + 1];
        var nextNext := NextNext(seqinfo, i);
        var dir :- Direction(s.description, Directions);
        if TowardsDwi(next, nextNext) then Ok(Append(FmapDwi, FieldMap(id, dir, None)))
        else Ok(Append(FmapFunc, FieldMap(id, dir, None)))
      else Ok(Skip)
    else Ok(Skip)
  }

  /** A resting-state series whose id is the decimal rendering of `n` is filed as the number `n` (line 47). */
  lemma RestFiledByNumber(seqinfo: seq<SeqInfo>, i: nat, n: int)
    requires i < |seqinfo| && Takes(Rest, seqinfo[i]) && seqinfo[i].seriesId == IntToString(n)
    ensures Rule(seqinfo, i) == Ok(Append(Rest, SeriesNumber(n)))
  {
    ParseIntToString(n);
  }

  /** `infotodict(seqinfo)` (lines 10-79): the series filed one after another. */
  method InfoToDict(seqinfo: seq<SeqInfo>) returns (r: Result<map<Category, seq<Entry>>>)
    ensures r == Filed(Rule, seqinfo, |seqinfo|, Initial())
  {
    var info := Initial();
    for i := 0 to |seqinfo|
      invariant Filed(Rule, seqinfo, i, Initial()) == Ok(info)
    {
      var next := FileNext(Rule, seqinfo, i, Initial(), info);
      if next.Err? {
        FiledErrorSticks(Rule, seqinfo, i + 1, |seqinfo|, Initial());
        return next;
      }
      info := next.value;
    }
    return Ok(info);
  }

  /** Every key of `info` has a list when `infotodict` returns. */
  lemma InfoHasEveryKey(seqinfo: seq<SeqInfo>)
    requires Filed(Rule, seqinfo, |seqinfo|, Initial()).Ok?
    ensures forall c :: c in Categories ==> c in Filed(Rule, seqinfo, |seqinfo|, Initial()).value
  {
    FiledKeepsKeys(Rule, seqinfo, |seqinfo|, Initial());
  }

  /** Each series is filed under at most one key: the lists hold at most one entry per series. */
  lemma InfoAtMostOnePerSeries(seqinfo: seq<SeqInfo>)
    requires Filed(Rule, seqinfo, |seqinfo|, Initial()).Ok?
    ensures Size(Filed(Rule, seqinfo, |seqinfo|, Initial()).value, Categories) <= |seqinfo|
  {
    InitialEmpty();
    CategoriesDistinct();
    AtMostOneEntryPerSeries(Rule, seqinfo, |seqinfo|, Initial(), Categories);
  }

  /** Every list, T1w included, holds the series filed under it, in scanning order (lines 44-76). */
  lemma ListsInScanOrder(seqinfo: seq<SeqInfo>, c: Category)
    requires Filed(Rule, seqinfo, |seqinfo|, Initial()).Ok?
    ensures Lookup(Filed(Rule, seqinfo, |seqinfo|, Initial()).value, c) == EntriesFiled(Rule, seqinfo, |seqinfo|, c)
  {
    AppendedInOrder(Rule, seqinfo, |seqinfo|, Initial(), c);
  }
}
