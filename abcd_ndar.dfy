/** The heudiconv heuristic `heuristics/ABCD_NDAR.py`, for the ABCD protocol. */
module AbcdNdar {
  import opened Base
  import opened Text
  import opened Heuristics

  /** The nine output keys of lines 25-48. */
  datatype Category = Rest | StopSignal | EmotionalNback | MonetaryIncentive | Dwi | FmapFunc | FmapDwi | T1w | T2w

  const Categories: seq<Category> := [Rest, StopSignal, EmotionalNback, MonetaryIncentive, Dwi, FmapFunc, FmapDwi, T1w, T2w]

  /** The key of each category, as `create_key` builds it from the template of lines 25-48. */
  function Template(c: Category): string {
    match c
    case Rest => "sub-{subject}/{session}/func/sub-{subject}_{session}_task-rest_run-{item:02d}_bold"
    case StopSignal => "sub-{subject}/{session}/func/sub-{subject}_{session}_task-stopsignal_run-{item:02d}_bold"
    case EmotionalNback => "sub-{subject}/{session}/func/sub-{subject}_{session}_task-emotionalnback_run-{item:02d}_bold"
    case MonetaryIncentive => "sub-{subject}/{session}/func/sub-{subject}_{session}_task-monetaryincentive_run-{item:02d}_bold"
    case Dwi => "sub-{subject}/{session}/dwi/sub-{subject}_{session}_run-{item:02d}_dwi"
    case FmapFunc => "sub-{subject}/{session}/fmap/sub-{subject}_{session}_acq-rest_dir-{dir}_run-{item:02d}_epi"
    case FmapDwi => "sub-{subject}/{session}/fmap/sub-{subject}_{session}_acq-dwi_dir-{dir}_run-{item:02d}_epi"
    case T1w => "sub-{subject}/{session}/anat/sub-{subject}_{session}_T1w"
    case T2w => "sub-{subject}/{session}/anat/sub-{subject}_{session}_T2w"
  }

  /** The position of `c` in `Categories`. */
  function Index(c: Category): nat {
    match c
    case Rest => 0
    case StopSignal => 1
    case EmotionalNback => 2
    case MonetaryIncentive => 3
    case Dwi => 4
    case FmapFunc => 5
    case FmapDwi => 6
    case T1w => 7
    case T2w => 8
  }

  /** The nine keys are nine different keys. */
  lemma CategoriesDistinct()
    ensures Distinct(Categories)
  {
    assert forall k :: 0 <= k < |Categories| ==> Index(Categories[k]) == k;
  }

  /** Line 50: every key starts with an empty list. */
  function Initial(): (info: map<Category, seq<Entry>>)
    ensures info.Keys == set c | c in Categories
    ensures forall c :: Lookup(info, c) == []
  {
    map c | c in Categories :: []
  }

  /** No entry is filed before the first series. */
  lemma InitialEmpty()
    ensures Size(Initial(), Categories) == 0
  {
    SizeEmpty(Initial(), Categories);
  }

  /** The position of each rule in lines 55-69; the field maps come last. */
  function Rank(c: Category): nat {
    match c
    case T1w => 0
    case T2w => 1
    case Rest => 2
    case StopSignal => 3
    case EmotionalNback => 4
    case MonetaryIncentive => 5
    case Dwi => 6
    case FmapFunc => 7
    case FmapDwi => 7
  }

  /** The condition of the rule for `c` on lines 55-68 (no such rule for the field maps). */
  predicate Guard(c: Category, s: SeqInfo) {
    match c
    case T1w => s.slices == 176 && EndsWith(s.description, "ABCD_T1w_MPR_vNav")
    case T2w => s.slices == 176 && EndsWith(s.description, "ABCD_T2w_SPC_vNav")
    case Rest => s.volumes == 383 && EndsWith(s.description, "ABCD_fMRI_rest")
    case StopSignal => s.volumes == 445 && EndsWith(s.description, "ABCD_fMRI_task_Stop")
    case EmotionalNback => s.volumes == 370 && EndsWith(s.description, "ABCD_fMRI_task_Emotional_n-back")
    case MonetaryIncentive => s.volumes == 411 && EndsWith(s.description, "ABCD_fMRI_task_Monetary_Incentive")
    case Dwi => s.slices == 81 && s.volumes == 103 && EndsWith(s.description, "ABCD_dMRI")
    case FmapFunc => false
    case FmapDwi => false
  }

  /** Some rule tried before the one for `c` applies. */
  predicate AnyBefore(c: Category, s: SeqInfo)
    decreases Rank(c)
  {
    match c
    case T1w => false
    case T2w => Guard(T1w, s)
    case Rest => AnyBefore(T2w, s) || Guard(T2w, s)
    case StopSignal => AnyBefore(Rest, s) || Guard(Rest, s)
    case EmotionalNback => AnyBefore(StopSignal, s) || Guard(StopSignal, s)
    case MonetaryIncentive => AnyBefore(EmotionalNback, s) || Guard(EmotionalNback, s)
    case Dwi => AnyBefore(MonetaryIncentive, s) || Guard(MonetaryIncentive, s)
    case FmapFunc => AnyBefore(Dwi, s) || Guard(Dwi, s)
    case FmapDwi => AnyBefore(Dwi, s) || Guard(Dwi, s)
  }

  /** The rule for `c` is the first one that applies to `s`. */
  predicate Takes(c: Category, s: SeqInfo) {
    Guard(c, s) && !AnyBefore(c, s)
  }

  /** A series none of the scan rules takes, whose description names a distortion map (line 69). */
  predicate FieldMapSeries(s: SeqInfo) {
    && !Guard(T1w, s) && !Guard(T2w, s) && !Guard(Rest, s) && !Guard(StopSignal, s)
    && !Guard(EmotionalNback, s) && !Guard(MonetaryIncentive, s) && !Guard(Dwi, s)
    && Contains(s.description, "DistortionMap")
  }

  const Directions: seq<string> := ["PA", "AP"]

  /**
   * Lines 69-92 for a distortion map `i` that is not the last series: its direction comes from
   * its suffix (neither `PA` nor `AP` raises), and it is for diffusion exactly when `TowardsDwi`
   * holds of the next two series.
   */
  function FieldMapRule(seqinfo: seq<SeqInfo>, i: nat): (r: Result<Filing<Category>>)
    requires i + 1 < |seqinfo|
    ensures r.Err? <==> Direction(seqinfo[i].description, Directions).Err?
    ensures r.Ok? ==>
      var dwi := TowardsDwi(seqinfo[i + 1], NextNext(seqinfo, i));
      var dir := Direction(seqinfo[i].description, Directions).value;
      && r.value.Append?
      && r.value.cat == (if dwi then FmapDwi else FmapFunc)
      && r.value.entry == FieldMap(seqinfo[i].seriesId, dir, Some(if dwi then "dwi" else "func"))
  {
    var dir :- Direction(seqinfo[i].description, Directions);
    if TowardsDwi(seqinfo[i + 1], NextNext(seqinfo, i)) then Ok(Append(FmapDwi, FieldMap(seqinfo[i].seriesId, dir, Some("dwi"))))
    else Ok(Append(FmapFunc, FieldMap(seqinfo[i].seriesId, dir, Some("func"))))
  }

  /**
   * Lines 54-94 for series `i`: the first rule whose condition holds files the series; the
   * structural scans replace their list, every other match appends. A distortion map is
   * ignored in last position; otherwise its direction comes from its suffix (an unknown one
   * raises) and it is for diffusion when `TowardsDwi` holds of the next two series.
   */
  function Rule(seqinfo: seq<SeqInfo>, i: nat): (r: Result<Filing<Category>>)
    requires i < |seqinfo|
    ensures r.Ok? && r.value.Replace? <==> FiledUnder(r, T1w) || FiledUnder(r, T2w)
    ensures r.Ok? && !r.value.Skip? && r.value.cat !in {FmapFunc, FmapDwi} ==> r.value.entry == Series(seqinfo[i].seriesId)
    ensures r.Err? <==> FieldMapSeries(seqinfo[i]) && i + 1 < |seqinfo| && Direction(seqinfo[i].description, Directions).Err?
    ensures FieldMapSeries(seqinfo[i]) && i + 1 == |seqinfo| ==> r == Ok(Skip)
    ensures FieldMapSeries(seqinfo[i]) && i + 1 < |seqinfo| ==> r == FieldMapRule(seqinfo, i)
    ensures r.Ok? && !r.value.Skip? && r.value.cat in {FmapFunc, FmapDwi} ==> FieldMapSeries(seqinfo[i]) && i + 1 < |seqinfo|
  {
    var s := seqinfo[i];
    var id := s.seriesId;
    if Guard(T1w, s) then Ok(Replace(T1w, Series(id)))
    else if Guard(T2w, s) then Ok(Replace(T2w, Series(id)))
    else if Guard(Rest, s) then Ok(Append(Rest, Series(id)))
    else if Guard(StopSignal, s) then Ok(Append(StopSignal, Series(id)))
    else if Guard(EmotionalNback, s) then Ok(Append(EmotionalNback, Series(id)))
    else if Guard(MonetaryIncentive, s) then Ok(Append(MonetaryIncentive, Series(id)))
    else if Guard(Dwi, s) then Ok(Append(Dwi, Series(id)))
    else if Contains(s.description, "DistortionMap") then
      if i + 1 < |seqinfo| then FieldMapRule(seqinfo, i)
      else Ok(Skip)
    else Ok(Skip)
  }

  /** Lines 55-68: a series is filed under a scan key exactly when that key's rule is the first that applies. */
  lemma RuleTakesFirst(seqinfo: seq<SeqInfo>, i: nat, c: Category)
    requires i < |seqinfo| && c != FmapFunc && c != FmapDwi
    ensures FiledUnder(Rule(seqinfo, i), c) <==> Takes(c, seqinfo[i])
  {
    var r := Rule(seqinfo, i);
    if FiledUnder(r, c) || Takes(c, seqinfo[i]) {
      match c
      case T1w =>
      case T2w =>
      case Rest =>
      case StopSignal =>
      case EmotionalNback =>
      case MonetaryIncentive =>
      case Dwi =>
    }
  }

  /** `infotodict(seqinfo)` (lines 12-95): the series filed one after another. */
  method InfoToDict(seqinfo: seq<SeqInfo>) returns (r: Result<map<Category, seq<Entry>>>)
    ensures r == Filed(Rule, seqinfo, |seqinfo|, Initial())
  {
    var info := Initial();
    for i := 0 to |seqinfo|
      invariant Filed(Rule, seqinfo, i, Initial()) == Ok(info)
    {
      var next := FileNext(Rule, seqinfo, i, Initial(), info);
      if next.Err? {
        FiledErrorSticks(Rule, seqinfo, i + 1, |seqinfo|, Initial());
        return next;
      }
      info := next.value;
    }
    return Ok(info);
  }

  /** Every key of `info` has a list when `infotodict` returns. */
  lemma InfoHasEveryKey(seqinfo: seq<SeqInfo>)
    requires Filed(Rule, seqinfo, |seqinfo|, Initial()).Ok?
    ensures forall c :: c in Categories ==> c in Filed(Rule, seqinfo, |seqinfo|, Initial()).value
  {
    FiledKeepsKeys(Rule, seqinfo, |seqinfo|, Initial());
  }

  /** Each series is filed under at most one key: the lists hold at most one entry per series. */
  lemma InfoAtMostOnePerSeries(seqinfo: seq<SeqInfo>)
    requires Filed(Rule, seqinfo, |seqinfo|, Initial()).Ok?
    ensures Size(Filed(Rule, seqinfo, |seqinfo|, Initial()).value, Categories) <= |seqinfo|
  {
    InitialEmpty();
    CategoriesDistinct();
    AtMostOneEntryPerSeries(Rule, seqinfo, |seqinfo|, Initial(), Categories);
  }

  /** The T1w and T2w lists hold at most the latest matching series (lines 55-58). */
  lemma StructuralHoldsLatest(seqinfo: seq<SeqInfo>, c: Category)
    requires c == T1w || c == T2w
    requires Filed(Rule, seqinfo, |seqinfo|, Initial()).Ok?
    ensures var filed := EntriesFiled(Rule, seqinfo, |seqinfo|, c);
      Lookup(Filed(Rule, seqinfo, |seqinfo|, Initial()).value, c) == if filed == [] then [] else [filed[|filed| - 1]]
  {
    ReplacedHoldsLatest(Rule, seqinfo, |seqinfo|, Initial(), c);
  }

  /** Every other list holds the series filed under it, in scanning order (lines 59-92). */
  lemma ListsInScanOrder(seqinfo: seq<SeqInfo>, c: Category)
    requires c != T1w && c != T2w
    requires Filed(Rule, seqinfo, |seqinfo|, Initial()).Ok?
    ensures Lookup(Filed(Rule, seqinfo, |seqinfo|, Initial()).value, c) == EntriesFiled(Rule, seqinfo, |seqinfo|, c)
  {
    AppendedInOrder(Rule, seqinfo, |seqinfo|, Initial(), c);
  }
}
