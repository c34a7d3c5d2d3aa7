/** The heudiconv heuristic `heuristics/Dick_AHEAD.py`, for the AHEAD protocol. */
module DickAhead {
  import opened Base
  import opened Text
  import opened Heuristics

  /** The six output keys of lines 26-43. */
  datatype Category = Emotion | Kcpt | Dwi | FmapFunc | FmapDwi | T1w

  const Categories: seq<Category> := [Emotion, Kcpt, Dwi, FmapFunc, FmapDwi, T1w]

  /** The key of each category, as `create_key` builds it from the template of lines 26-43. */
  function Template(c: Category): string {
    match c
    case Emotion => "sub-{subject}/{session}/func/sub-{subject}_{session}_task-emotion_run-{item:02d}_bold"
    case Kcpt => "sub-{subject}/{session}/func/sub-{subject}_{session}_task-kcpt_run-{item:02d}_bold"
    case Dwi => "sub-{subject}/{session}/dwi/sub-{subject}_{session}_run-{item:02d}_dwi"
    case FmapFunc => "sub-{subject}/{session}/fmap/sub-{subject}_{session}_acq-func_dir-{dir}_run-{item:02d}_epi"
    case FmapDwi => "sub-{subject}/{session}/fmap/sub-{subject}_{session}_acq-dwi_dir-{dir}_run-{item:02d}_epi"
    case T1w => "sub-{subject}/{session}/anat/sub-{subject}_{session}_T1w"
  }

  /** The position of `c` in `Categories`. */
  function Index(c: Category): nat {
    match c
    case Emotion => 0
    case Kcpt => 1
    case Dwi => 2
    case FmapFunc => 3
    case FmapDwi => 4
    case T1w => 5
  }

  /** The six keys are six different keys. */
  lemma CategoriesDistinct()
    ensures Distinct(Categories)
  {
    assert forall k :: 0 <= k < |Categories| ==> Index(Categories[k]) == k;
  }

  /** Lines 45-46: every key starts with an empty list. */
  function Initial(): (info: map<Category, seq<Entry>>)
    ensures info.Keys == set c | c in Categories
    ensures forall c :: Lookup(info, c) == []
  {
    map c | c in Categories :: []
  }

  /** No entry is filed before the first series. */
  lemma InitialEmpty()
    ensures Size(Initial(), Categories) == 0
  {
    SizeEmpty(Initial(), Categories);
  }

  /** The position of each rule in lines 50-58; the field maps come last. */
  function Rank(c: Category): nat {
    match c
    case T1w => 0
    case Emotion => 1
    case Kcpt => 2
    case Dwi => 3
    case FmapFunc => 4
    case FmapDwi => 4
  }

  /** The condition of the rule for `c` on lines 50-57 (no such rule for the field maps). */
  predicate Guard(c: Category, s: SeqInfo) {
    match c
    case T1w => s.slices == 176 && EndsWith(s.description, "T1w_MPR_vNav")
    case Emotion => s.volumes == 362 && EndsWith(s.description, "fMRI_Axial_EMOTION_2.5mm_TR1")
    case Kcpt => s.volumes == 226 && EndsWith(s.description, "fMRI_Axial_KCPT_2.5mm_TR1")
    case Dwi => s.slices == 81 && s.volumes == 103 && EndsWith(s.description, "dMRI")
    case FmapFunc => false
    case FmapDwi => false
  }

  /** Some rule tried before the one for `c` applies. */
  predicate AnyBefore(c: Category, s: SeqInfo)
    decreases Rank(c)
  {
    match c
    case T1w => false
    case Emotion => Guard(T1w, s)
    case Kcpt => AnyBefore(Emotion, s) || Guard(Emotion, s)
    case Dwi => AnyBefore(Kcpt, s) || Guard(Kcpt, s)
    case FmapFunc => AnyBefore(Dwi, s) || Guard(Dwi, s)
    case FmapDwi => AnyBefore(Dwi, s) || Guard(Dwi, s)
  }

  /** The rule for `c` is the first one that applies to `s`. */
  predicate Takes(c: Category, s: SeqInfo) {
    Guard(c, s) && !AnyBefore(c, s)
  }

  /** A series none of the scan rules takes, whose description names a distortion map (line 58). */
  predicate FieldMapSeries(s: SeqInfo) {
    !AnyBefore(FmapFunc, s) && Contains(s.description, "DistortionMap")
  }

  const Directions: seq<string> := ["PA", "AP", "RL", "LR"]

  /**
   * Lines 48-86 for series `i`: the first rule whose condition holds files the series; the
   * T1w scan replaces its list, every other match appends. A distortion map is
   * ignored in last position; otherwise its direction comes from its suffix (an unknown one
   * raises) and it is for diffusion when `TowardsDwi` holds of the next two series.
   */
  function Rule(seqinfo: seq<SeqInfo>, i: nat): (r: Result<Filing<Category>>)
    requires i < |seqinfo|
    ensures forall c :: c !in {FmapFunc, FmapDwi} ==> (FiledUnder(r, c) <==> Takes(c, seqinfo[i]))
    ensures r.Ok? && r.value.Replace? <==> FiledUnder(r, T1w)
    ensures r.Ok? && !r.value.Skip? && r.value.cat !in {FmapFunc, FmapDwi} ==> r.value.entry == Series(seqinfo[i].seriesId)
    ensures r.Err? <==> FieldMapSeries(seqinfo[i]) && i + 1 < |seqinfo| && Direction(seqinfo[i].description, Directions).Err?
    ensures FieldMapSeries(seqinfo[i]) && i + 1 == |seqinfo| ==> r == Ok(Skip)
    ensures FiledUnder(r, FmapDwi) ==>
      && FieldMapSeries(seqinfo[i]) && i + 1 < |seqinfo| && r.value.Append?
      && TowardsDwi(seqinfo[i + 1], NextNext(seqinfo, i))
      && r.value.entry == FieldMap(seqinfo[i].seriesId, Direction(seqinfo[i].description, Directions).value, Some("dwi"))
    ensures FiledUnder(r, FmapFunc) ==>
      && FieldMapSeries(seqinfo[i]) && i + 1 < |seqinfo| && r.value.Append?
      && !TowardsDwi(seqinfo[i + 1], NextNext(seqinfo, i))
      && r.value.entry == FieldMap(seqinfo[i].seriesId, Direction(seqinfo[i].description, Directions).value, Some("func"))
    ensures FieldMapSeries(seqinfo[i]) && i + 1 < |seqinfo| && Direction(seqinfo[i].description, Directions).Ok? ==>
      FiledUnder(r, FmapFunc) || FiledUnder(r, FmapDwi)
  {
    var s := seqinfo[i];
    var id := s.seriesId;
    if Guard(T1w, s) then Ok(Replace(T1w, Series(id)))
    else if Guard(Emotion, s) then Ok(Append(Emotion, Series(id)))
    else if Guard(Kcpt, s) then Ok(Append(Kcpt, Series(id)))
    else if Guard(Dwi, s) then Ok(Append(Dwi, Series(id)))
    else if Contains(s.description, "DistortionMap") then
      if i + 1 < |seqinfo| then
        var next := seqinfo[i + 1];
        var nextNext := NextNext(seqinfo, i);
        var dir :- Direction(s.description, Directions);
        if TowardsDwi(next, nextNext) then Ok(Append(FmapDwi, FieldMap(id, dir, Some("dwi"))))
        else Ok(Append(FmapFunc, FieldMap(id, dir, Some("func"))))
      else Ok(Skip)
    else Ok(Skip)
  }

  /** `infotodict(seqinfo)` (lines 13-87): the series filed one after another. */
  method InfoToDict(seqinfo: seq<SeqInfo>) returns (r: Result<map<Category, seq<Entry>>>)
    ensures r == Filed(Rule, seqinfo, |seqinfo|, Initial())
  {
    var info := Initial();
    for i := 0 to |seqinfo|
      invariant Filed(Rule, seqinfo, i, Initial()) == Ok(info)
    {
      var next := FileNext(Rule, seqinfo, i, Initial(), info);
      if next.Err? {
        FiledErrorSticks(Rule, seqinfo, i + 1, |seqinfo|, Initial());
        return next;
      }
      info := next.value;
    }
    return Ok(info);
  }

  /** Every key of `info` has a list when `infotodict` returns. */
  lemma InfoHasEveryKey(seqinfo: seq<SeqInfo>)
    requires Filed(Rule, seqinfo, |seqinfo|, Initial()).Ok?
    ensures forall c :: c in Categories ==> c in Filed(Rule, seqinfo, |seqinfo|, Initial()).value
  {
    FiledKeepsKeys(Rule, seqinfo, |seqinfo|, Initial());
  }

  /** Each series is filed under at most one key: the lists hold at most one entry per series. */
  lemma InfoAtMostOnePerSeries(seqinfo: seq<SeqInfo>)
    requires Filed(Rule, seqinfo, |seqinfo|, Initial()).Ok?
    ensures Size(Filed(Rule, seqinfo, |seqinfo|, Initial()).value, Categories) <= |seqinfo|
  {
    InitialEmpty();
    CategoriesDistinct();
    AtMostOneEntryPerSeries(Rule, seqinfo, |seqinfo|, Initial(), Categories);
  }

  /** The T1w list holds at most the latest matching series (lines 50-51). */
  lemma T1wHoldsLatest(seqinfo: seq<SeqInfo>)
    requires Filed(Rule, seqinfo, |seqinfo|, Initial()).Ok?
    ensures var filed := EntriesFiled(Rule, seqinfo, |seqinfo|, T1w);
      Lookup(Filed(Rule, seqinfo, |seqinfo|, Initial()).value, T1w) == if filed == [] then [] else [filed[|filed| - 1]]
  {
    ReplacedHoldsLatest(Rule, seqinfo, |seqinfo|, Initial(), T1w);
  }

  /** Every other list holds the series filed under it, in scanning order (lines 52-84). */
  lemma ListsInScanOrder(seqinfo: seq<SeqInfo>, c: Category)
    requires c != T1w
    requires Filed(Rule, seqinfo, |seqinfo|, Initial()).Ok?
    ensures Lookup(Filed(Rule, seqinfo, |seqinfo|, Initial()).value, c) == EntriesFiled(Rule, seqinfo, |seqinfo|, c)
  {
    AppendedInOrder(Rule, seqinfo, |seqinfo|, Initial(), c);
  }
}
