/** The heudiconv heuristic `heuristics/Sutherland_ACE.py`, for the ACE protocol. */
module SutherlandAce {
  import opened Base
  import opened Text
  import opened Heuristics

  /** The seven output keys of lines 26-43. */
  datatype Category = Nback | Mid | Rest | FmapRest | FmapNback | FmapMid | T1w

  const Categories: seq<Category> := [Nback, Mid, Rest, FmapRest, FmapNback, FmapMid, T1w]

  /** The key of each category, as `create_key` builds it from the template of lines 26-43. */
  function Template(c: Category): string {
    match c
    case Nback => "sub-{subject}/{session}/func/sub-{subject}_{session}_task-nback_run-{item:02d}_bold"
    case Mid => "sub-{subject}/{session}/func/sub-{subject}_{session}_task-mid_run-{item:02d}_bold"
    case Rest => "sub-{subject}/{session}/func/sub-{subject}_{session}_task-rest_run-{item:02d}_bold"
    case FmapRest => "sub-{subject}/{session}/fmap/sub-{subject}_{session}_acq-rest_dir-{dir}_run-{item:02d}_epi"
    case FmapNback => "sub-{subject}/{session}/fmap/sub-{subject}_{session}_acq-nback_dir-{dir}_run-{item:02d}_epi"
    case FmapMid => "sub-{subject}/{session}/fmap/sub-{subject}_{session}_acq-mid_dir-{dir}_run-{item:02d}_epi"
    case T1w => "sub-{subject}/{session}/anat/sub-{subject}_{session}_run-{item:02d}_T1w"
  }

  /** The position of `c` in `Categories`. */
  function Index(c: Category): nat {
    match c
    case Nback => 0
    case Mid => 1
    case Rest => 2
    case FmapRest => 3
    case FmapNback => 4
    case FmapMid => 5
    case T1w => 6
  }

  /** The seven keys are seven different keys. */
  lemma CategoriesDistinct()
    ensures Distinct(Categories)
  {
    assert forall k :: 0 <= k < |Categories| ==> Index(Categories[k]) == k;
  }

  /** Lines 45-47: every key starts with an empty list. */
  function Initial(): (info: map<Category, seq<Entry>>)
    ensures info.Keys == set c | c in Categories
    ensures forall c :: Lookup(info, c) == []
  {
    map c | c in Categories :: []
  }

  /** No entry is filed before the first series. */
  lemma InitialEmpty()
    ensures Size(Initial(), Categories) == 0
  {
    SizeEmpty(Initial(), Categories);
  }

  predicate IsT1w(description: string) {
    EndsWith(description, "T1w_MPR_vNav")
  }

  predicate IsNback(description: string) {
    || EndsWith(description, "fMRI_task_n-back_1")
    || EndsWith(description, "fMRI_task_n-back_2")
    || EndsWith(description, "fMRI_task_n-back_3")
  }

  predicate IsMid(description: string) {
    || EndsWith(description, "fMRI_task_MID1")
    || EndsWith(description, "fMRI_task_MID2")
    || EndsWith(description, "fMRI_task_MID3")
    || EndsWith(description, "fMRI_task_MID4")
  }

  predicate IsRest(description: string) {
    EndsWith(description, "fMRI_rest")
  }

  /** The position of each rule in lines 51-63; the field maps come last. */
  function Rank(c: Category): nat {
    match c
    case T1w => 0
    case Nback => 1
    case Mid => 2
    case Rest => 3
    case FmapRest => 4
    case FmapNback => 4
    case FmapMid => 4
  }

  /** The condition of the rule for `c` on lines 51-61 (no such rule for the field maps). */
  predicate Guard(c: Category, s: SeqInfo) {
    match c
    case T1w => s.slices == 176 && IsT1w(s.description)
    case Nback => IsNback(s.description)
    case Mid => IsMid(s.description)
    case Rest => IsRest(s.description)
    case FmapRest => false
    case FmapNback => false
    case FmapMid => false
  }

  /** Some rule tried before the one for `c` applies. */
  predicate AnyBefore(c: Category, s: SeqInfo)
    decreases Rank(c)
  {
    match c
    case T1w => false
    case Nback => Guard(T1w, s)
    case Mid => AnyBefore(Nback, s) || Guard(Nback, s)
    case Rest => AnyBefore(Mid, s) || Guard(Mid, s)
    case FmapRest => AnyBefore(Rest, s) || Guard(Rest, s)
    case FmapNback => AnyBefore(Rest, s) || Guard(Rest, s)
    case FmapMid => AnyBefore(Rest, s) || Guard(Rest, s)
  }

  /** The rule for `c` is the first one that applies to `s`. */
  predicate Takes(c: Category, s: SeqInfo) {
    Guard(c, s) && !AnyBefore(c, s)
  }

  /** A series none of the scan rules takes, whose description names a distortion map (line 63). */
  predicate FieldMapSeries(s: SeqInfo) {
    !AnyBefore(FmapRest, s) && Contains(s.description, "DistortionMap")
  }

  const Directions: seq<string> := ["PA", "AP"]

  /** The scan a field map of direction `dir` is for: two ahead for `PA`, the next for `AP` (lines 66-71). */
  function Partner(seqinfo: seq<SeqInfo>, i: nat, dir: string): SeqInfo
    requires i + 2 < |seqinfo|
  {
    if dir == "PA" then seqinfo[i + 2] else seqinfo[i + 1]
  }

  /** The field-map key for a field map whose partner scan has `description` (lines 73-81), if any. */
  function FieldMapKey(description: string): Option<Category> {
    if IsRest(description) then Some(FmapRest)
    else if IsNback(description) then Some(FmapNback)
    else if IsMid(description) then Some(FmapMid)
    else None
  }

  /** The `acq` label written with a field map of each key (lines 74-81). */
  function AcqLabel(c: Category): string {
    match c
    case FmapNback => "nback"
    case FmapMid => "mid"
    case _ => "rest"
  }

  /** The direction test of lines 66-71: `PA` first, then `AP`. */
  lemma DirectionOfSuffix(description: string)
    ensures Direction(description, Directions).Ok? <==>
      EndsWith(description, "DistortionMap_PA") || EndsWith(description, "DistortionMap_AP")
    ensures EndsWith(description, "DistortionMap_PA") ==> Direction(description, Directions) == Ok("PA")
    ensures !EndsWith(description, "DistortionMap_PA") && EndsWith(description, "DistortionMap_AP") ==>
      Direction(description, Directions) == Ok("AP")
  {
    assert "DistortionMap_" + "PA" == "DistortionMap_PA";
    assert "DistortionMap_" + "AP" == "DistortionMap_AP";
    assert Directions[1..] == ["AP"] && Directions[1..][1..] == [];
  }

  /** A field map filed under the key its partner scan calls for, or left out. */
  function FieldMapFiling(id: string, dir: string, partner: SeqInfo): (f: Filing<Category>)
    ensures FieldMapKey(partner.description).None? <==> f.Skip?
    ensures !f.Skip? ==>
      && f.Append? && Some(f.cat) == FieldMapKey(partner.description)
      && f.entry == FieldMap(id, dir, Some(AcqLabel(f.cat)))
  {
    match FieldMapKey(partner.description)
    case None => Skip
    case Some(c) => Append(c, FieldMap(id, dir, Some(AcqLabel(c))))
  }

  /** The field-map keys are the three keys a partner scan can call for. */
  const FieldMapKeys: set<Category> := {FmapRest, FmapNback, FmapMid}

  /**
   * Lines 64-81 for a distortion map `i` more than two series from the end: its direction comes
   * from its suffix (neither `PA` nor `AP` raises `ValueError`), and its key from its partner scan.
   */
  function FieldMapRule(seqinfo: seq<SeqInfo>, i: nat): (r: Result<Filing<Category>>)
    requires i + 2 < |seqinfo|
    ensures r.Err? <==> Direction(seqinfo[i].description, Directions).Err?
    ensures r.Err? ==> r.error.ValueError?
    ensures r.Ok? ==>
      var dir := Direction(seqinfo[i].description, Directions).value;
      r.value == FieldMapFiling(seqinfo[i].seriesId, dir, Partner(seqinfo, i, dir))
    ensures r.Ok? && !r.value.Skip? ==> r.value.Append? && r.value.cat in FieldMapKeys
  {
    var dir :- Direction(seqinfo[i].description, Directions);
    Ok(FieldMapFiling(seqinfo[i].seriesId, dir, Partner(seqinfo, i, dir)))
  }

  /**
   * Lines 50-83 for series `i`, with a field map whose suffix is neither `PA` nor `AP` rejected
   * with `ValueError`. A T1w scan looks at the next series (there must be one) and is filed,
   * as a one-element list, only when the next is not a T1w scan too; a field map more than two
   * series from the end is filed under the key its partner scan calls for.
   */
  function Rule(seqinfo: seq<SeqInfo>, i: nat): (r: Result<Filing<Category>>)
    requires i < |seqinfo|
    ensures forall c :: c !in FieldMapKeys && c != T1w ==> (FiledUnder(r, c) <==> Takes(c, seqinfo[i]))
    ensures FiledUnder(r, T1w) <==> Takes(T1w, seqinfo[i]) && i + 1 < |seqinfo| && !IsT1w(seqinfo[i + 1].description)
    ensures r.Ok? ==> !r.value.Replace?
    ensures r.Ok? && !r.value.Skip? && r.value.cat !in FieldMapKeys ==>
      r.value.entry == if r.value.cat == T1w then SeriesList([seqinfo[i].seriesId]) else Series(seqinfo[i].seriesId)
    ensures r.Err? <==>
      || (Takes(T1w, seqinfo[i]) && i + 1 == |seqinfo|)
      || (FieldMapSeries(seqinfo[i]) && i + 2 < |seqinfo| && Direction(seqinfo[i].description, Directions).Err?)
    ensures r.Err? ==> r.error.IndexError? || r.error.ValueError?
    ensures FieldMapSeries(seqinfo[i]) && i + 2 >= |seqinfo| ==> r == Ok(Skip)
    ensures FieldMapSeries(seqinfo[i]) && i + 2 < |seqinfo| && Direction(seqinfo[i].description, Directions).Ok? ==>
      var dir := Direction(seqinfo[i].description, Directions).value;
      r == Ok(FieldMapFiling(seqinfo[i].seriesId, dir, Partner(seqinfo, i, dir)))
    ensures r.Ok? && !r.value.Skip? && r.value.cat in FieldMapKeys ==> FieldMapSeries(seqinfo[i])
  {
    var s := seqinfo[i];
    var id := s.seriesId;
    if Guard(T1w, s) then
      if i + 1 < |seqinfo| then
        if IsT1w(seqinfo[i + 1].description) then Ok(Skip) else Ok(Append(T1w, SeriesList([id])))
      else Err(IndexError("list index out of range"))
    else if Guard(Nback, s) then Ok(Append(Nback, Series(id)))
    else if Guard(Mid, s) then Ok(Append(Mid, Series(id)))
    else if Guard(Rest, s) then Ok(Append(Rest, Series(id)))
    else if Contains(s.description, "DistortionMap") then
      if i + 2 < |seqinfo| then
        FieldMapRule(seqinfo, i)
      else Ok(Skip)
    else Ok(Skip)
  }

  /** `infotodict(seqinfo)` (lines 13-84), with the rule above: the series filed one after another. */
  method InfoToDict(seqinfo: seq<SeqInfo>) returns (r: Result<map<Category, seq<Entry>>>)
    ensures r == Filed(Rule, seqinfo, |seqinfo|, Initial())
  {
    var info := Initial();
    for i := 0 to |seqinfo|
      invariant Filed(Rule, seqinfo, i, Initial()) == Ok(info)
    {
      var next := FileNext(Rule, seqinfo, i, Initial(), info);
      if next.Err? {
        FiledErrorSticks(Rule, seqinfo, i + 1, |seqinfo|, Initial());
        return next;
      }
      info := next.value;
    }
    return Ok(info);
  }

  /** Every key of `info` has a list when `infotodict` returns. */
  lemma InfoHasEveryKey(seqinfo: seq<SeqInfo>)
    requires Filed(Rule, seqinfo, |seqinfo|, Initial()).Ok?
    ensures forall c :: c in Categories ==> c in Filed(Rule, seqinfo, |seqinfo|, Initial()).value
  {
    FiledKeepsKeys(Rule, seqinfo, |seqinfo|, Initial());
  }

  /** Each series is filed under at most one key: the lists hold at most one entry per series. */
  lemma InfoAtMostOnePerSeries(seqinfo: seq<SeqInfo>)
    requires Filed(Rule, seqinfo, |seqinfo|, Initial()).Ok?
    ensures Size(Filed(Rule, seqinfo, |seqinfo|, Initial()).value, Categories) <= |seqinfo|
  {
    InitialEmpty();
    CategoriesDistinct();
    AtMostOneEntryPerSeries(Rule, seqinfo, |seqinfo|, Initial(), Categories);
  }

  /** Every list holds the series filed under it, in scanning order (lines 56-81). */
  lemma ListsInScanOrder(seqinfo: seq<SeqInfo>, c: Category)
    requires Filed(Rule, seqinfo, |seqinfo|, Initial()).Ok?
    ensures Lookup(Filed(Rule, seqinfo, |seqinfo|, Initial()).value, c) == EntriesFiled(Rule, seqinfo, |seqinfo|, c)
  {
    AppendedInOrder(Rule, seqinfo, |seqinfo|, Initial(), c);
  }

  /*
   * The loop as written. `next_scan` and `dir_` are locals of `infotodict` that keep their
   * values from one series to the next; a field map whose suffix is neither `PA` nor `AP`
   * assigns neither and goes on with whatever an earlier series left in them, or fails with
   * `UnboundLocalError` (a `NameError`) when nothing did.
   */

  /** The locals `next_scan` (also set by the T1w rule) and `dir_` between two series. */
  datatype Locals = Locals(nextScan: Option<SeqInfo>, dir: Option<string>)

  datatype Step = Step(filing: Filing<Category>, locals: Locals)

  /** Lines 50-83 for series `i`, as written, from the locals the earlier series left. */
  function StepAsWritten(seqinfo: seq<SeqInfo>, i: nat, locals: Locals): Result<Step>
    requires i < |seqinfo|
  {
    var s := seqinfo[i];
    var id := s.seriesId;
    if Guard(T1w, s) then
      if i + 1 < |seqinfo| then
        var next := seqinfo[i + 1];
        Ok(Step(if IsT1w(next.description) then Skip else Append(T1w, SeriesList([id])), locals.(nextScan := Some(next))))
      else Err(IndexError("list index out of range"))
    else if Guard(Nback, s) then Ok(Step(Append(Nback, Series(id)), locals))
    else if Guard(Mid, s) then Ok(Step(Append(Mid, Series(id)), locals))
    else if Guard(Rest, s) then Ok(Step(Append(Rest, Series(id)), locals))
    else if Contains(s.description, "DistortionMap") then
      if i + 2 < |seqinfo| then FieldMapStepAsWritten(seqinfo, i, locals)
      else Ok(Step(Skip, locals))
    else Ok(Step(Skip, locals))
  }

  /** Lines 64-81 as written, for a distortion map `i` more than two series from the end. */
  function FieldMapStepAsWritten(seqinfo: seq<SeqInfo>, i: nat, locals: Locals): Result<Step>
    requires i + 2 < |seqinfo|
  {
    var description := seqinfo[i].description;
    var now :=
      if EndsWith(description, "DistortionMap_PA") then Locals(Some(seqinfo[i + 2]), Some("PA"))
      else if EndsWith(description, "DistortionMap_AP") then Locals(Some(seqinfo[i + 1]), Some("AP"))
      else locals;
    if now.nextScan.None? then Err(NameError("next_scan"))
    else if FieldMapKey(now.nextScan.value.description).None? then Ok(Step(Skip, now))
    else if now.dir.None? then Err(NameError("dir_"))
    else Ok(Step(FieldMapFiling(seqinfo[i].seriesId, now.dir.value, now.nextScan.value), now))
  }

  datatype Run = Run(info: map<Category, seq<Entry>>, locals: Locals)

  /** `infotodict` as written, over the first `n` series. */
  function RunAsWritten(seqinfo: seq<SeqInfo>, n: nat): Result<Run>
    requires n <= |seqinfo|
  {
    if n == 0 then Ok(Run(Initial(), Locals(None, None)))
    else
      var before :- RunAsWritten(seqinfo, n - 1);
      var step :- StepAsWritten(seqinfo, n - 1, before.locals);
      Ok(Run(Apply(before.info, step.filing), step.locals))
  }

  /** Every field map that reaches the direction test (more than two series from the end) ends in `PA` or `AP`. */
  predicate KnownDirections(seqinfo: seq<SeqInfo>) {
    forall i :: 0 <= i < |seqinfo| - 2 && FieldMapSeries(seqinfo[i]) ==> Direction(seqinfo[i].description, Directions).Ok?
  }

  /** When the locals never matter, one series is filed as the rule above files it. */
  lemma StepAgrees(seqinfo: seq<SeqInfo>, i: nat, locals: Locals)
    requires i < |seqinfo|
    requires FieldMapSeries(seqinfo[i]) && i + 2 < |seqinfo| ==> Direction(seqinfo[i].description, Directions).Ok?
    ensures StepAsWritten(seqinfo, i, locals).Ok? <==> Rule(seqinfo, i).Ok?
    ensures Rule(seqinfo, i).Ok? ==> StepAsWritten(seqinfo, i, locals).value.filing == Rule(seqinfo, i).value
  {
    var s := seqinfo[i];
    if FieldMapSeries(s) && i + 2 < |seqinfo| {
      assert StepAsWritten(seqinfo, i, locals) == FieldMapStepAsWritten(seqinfo, i, locals);
      assert Rule(seqinfo, i) == FieldMapRule(seqinfo, i);
      DirectionOfSuffix(s.description);
      var dir := Direction(s.description, Directions).value;
      var partner := Partner(seqinfo, i, dir);
      assert FieldMapRule(seqinfo, i) == Ok(FieldMapFiling(s.seriesId, dir, partner));
      assert FieldMapStepAsWritten(seqinfo, i, locals) == Ok(Step(FieldMapFiling(s.seriesId, dir, partner), Locals(Some(partner), Some(dir))));
    }
  }

  /** The as-written walk over the first `n` series raises exactly when `Filed` does, and otherwise files the same lists. */
  predicate AgreeUpTo(seqinfo: seq<SeqInfo>, n: nat)
    requires n <= |seqinfo|
  {
    && (RunAsWritten(seqinfo, n).Ok? <==> Filed(Rule, seqinfo, n, Initial()).Ok?)
    && (RunAsWritten(seqinfo, n).Ok? ==> RunAsWritten(seqinfo, n).value.info == Filed(Rule, seqinfo, n, Initial()).value)
  }

  /** On series whose field maps all end in `PA` or `AP`, the loop as written and the rule above agree. */
  lemma {:induction false} AsWrittenAgrees(seqinfo: seq<SeqInfo>, n: nat)
    requires n <= |seqinfo| && KnownDirections(seqinfo)
    ensures AgreeUpTo(seqinfo, n)
  {
    if n > 0 {
      AsWrittenAgrees(seqinfo, n - 1);
      AsWrittenStepAgrees(seqinfo, n - 1);
    }
  }

  /** One more series keeps the as-written walk and `Filed` in step. */
  lemma AsWrittenStepAgrees(seqinfo: seq<SeqInfo>, i: nat)
    requires i < |seqinfo| && KnownDirections(seqinfo)
    requires AgreeUpTo(seqinfo, i)
    ensures AgreeUpTo(seqinfo, i + 1)
  {
    var before := RunAsWritten(seqinfo, i);
    if before.Ok? {
      assert FieldMapSeries(seqinfo[i]) && i + 2 < |seqinfo| ==> Direction(seqinfo[i].description, Directions).Ok?;
      StepAgrees(seqinfo, i, before.value.locals);
      var step := StepAsWritten(seqinfo, i, before.value.locals);
      var rule := Rule(seqinfo, i);
      if step.Ok? {
        assert rule.Ok? && step.value.filing == rule.value;
        assert RunAsWritten(seqinfo, i + 1).value.info == Apply(before.value.info, rule.value);
        assert Filed(Rule, seqinfo, i + 1, Initial()).value == Apply(before.value.info, rule.value);
      } else {
        assert rule.Err?;
        assert RunAsWritten(seqinfo, i + 1).Err? && Filed(Rule, seqinfo, i + 1, Initial()).Err?;
      }
    } else {
      assert RunAsWritten(seqinfo, i + 1).Err? && Filed(Rule, seqinfo, i + 1, Initial()).Err?;
    }
  }

  /** A description that ends in none of the characters the scan rules test for matches none of them. */
  lemma NoScanSuffix(description: string)
    requires |description| > 0 && description[|description| - 1] !in "1234tv"
    ensures !IsT1w(description) && !IsNback(description) && !IsMid(description) && !IsRest(description)
  {
    NotEndingWith(description, "T1w_MPR_vNav");
    NotEndingWith(description, "fMRI_task_n-back_1");
    NotEndingWith(description, "fMRI_task_n-back_2");
    NotEndingWith(description, "fMRI_task_n-back_3");
    NotEndingWith(description, "fMRI_task_MID1");
    NotEndingWith(description, "fMRI_task_MID2");
    NotEndingWith(description, "fMRI_task_MID3");
    NotEndingWith(description, "fMRI_task_MID4");
    NotEndingWith(description, "fMRI_rest");
  }

  /** An anterior-posterior field map, a resting scan, a right-left field map and two other series. */
  function StaleExample(): seq<SeqInfo> {
    [SeqInfo("1", 0, 0, "DistortionMap_AP"), SeqInfo("2", 0, 0, "fMRI_rest"),
     SeqInfo("3", 0, 0, "DistortionMap_RL"), SeqInfo("4", 0, 0, "x"), SeqInfo("5", 0, 0, "x")]
  }

  /** The locals once the first field map of `StaleExample` is filed. */
  function StaleLocals(): Locals {
    Locals(Some(SeqInfo("2", 0, 0, "fMRI_rest")), Some("AP"))
  }

  /** A distortion map the scan rules do not take reaches the field-map step. */
  lemma ReachesFieldMapStep(q: seq<SeqInfo>, i: nat, locals: Locals)
    requires i + 2 < |q| && FieldMapSeries(q[i])
    ensures StepAsWritten(q, i, locals) == FieldMapStepAsWritten(q, i, locals)
  {
  }

  /** A series whose description starts by naming a distortion map and ends in `P`, `A` or `L`. */
  lemma DistortionSeries(s: SeqInfo)
    requires StartsWith(s.description, "DistortionMap") && s.description[|s.description| - 1] in "PAL"
    ensures FieldMapSeries(s)
  {
    NoScanSuffix(s.description);
    assert Contains(s.description, "DistortionMap");
  }

  lemma StaleStep0(q: seq<SeqInfo>)
    requires |q| == 5 && q[0] == StaleExample()[0] && q[1] == StaleExample()[1]
    ensures StepAsWritten(q, 0, Locals(None, None))
      == Ok(Step(Append(FmapRest, FieldMap("1", "AP", Some("rest"))), StaleLocals()))
  {
    var d := q[0].description;
    assert StartsWith(d, "DistortionMap") && d[|d| - 1] == 'P';
    DistortionSeries(q[0]);
    ReachesFieldMapStep(q, 0, Locals(None, None));
    NotEndingWith(d, "DistortionMap_PA");
    assert d[|d| - 16..] == "DistortionMap_AP";
    assert IsRest(q[1].description);
    assert FieldMapKey(q[1].description) == Some(FmapRest);
    assert Locals(Some(q[1]), Some("AP")) == StaleLocals();
    assert FieldMapFiling("1", "AP", q[1]) == Append(FmapRest, FieldMap("1", "AP", Some("rest")));
  }

  lemma StaleStep1(q: seq<SeqInfo>, locals: Locals)
    requires |q| == 5 && q[1] == StaleExample()[1]
    ensures StepAsWritten(q, 1, locals) == Ok(Step(Append(Rest, Series("2")), locals))
  {
    assert IsRest(q[1].description);
    NotEndingWith(q[1].description, "fMRI_task_n-back_1");
    NotEndingWith(q[1].description, "fMRI_task_n-back_2");
    NotEndingWith(q[1].description, "fMRI_task_n-back_3");
    NotEndingWith(q[1].description, "fMRI_task_MID1");
    NotEndingWith(q[1].description, "fMRI_task_MID2");
    NotEndingWith(q[1].description, "fMRI_task_MID3");
    NotEndingWith(q[1].description, "fMRI_task_MID4");
  }

  lemma StaleStep2(q: seq<SeqInfo>)
    requires |q| == 5 && q[2] == StaleExample()[2]
    ensures StepAsWritten(q, 2, StaleLocals())
      == Ok(Step(Append(FmapRest, FieldMap("3", "AP", Some("rest"))), StaleLocals()))
  {
    var d := q[2].description;
    assert StartsWith(d, "DistortionMap") && d[|d| - 1] == 'L';
    DistortionSeries(q[2]);
    ReachesFieldMapStep(q, 2, StaleLocals());
    NotEndingWith(d, "DistortionMap_PA");
    NotEndingWith(d, "DistortionMap_AP");
    var partner := StaleLocals().nextScan.value;
    assert IsRest(partner.description);
    assert FieldMapKey(partner.description) == Some(FmapRest);
    assert FieldMapFiling("3", "AP", partner) == Append(FmapRest, FieldMap("3", "AP", Some("rest")));
  }

  lemma StaleStepOther(q: seq<SeqInfo>, i: nat, locals: Locals)
    requires i < |q| && q[i].slices == 0 && q[i].description == "x"
    ensures StepAsWritten(q, i, locals) == Ok(Step(Skip, locals))
  {
    NoScanSuffix(q[i].description);
    assert !Contains("x", "DistortionMap") by {
      assert !StartsWith("x", "DistortionMap") && "x"[1..] == [];
    }
  }

  lemma StaleMapUnknown(s: SeqInfo)
    requires s == StaleExample()[2]
    ensures FieldMapSeries(s) && Direction(s.description, Directions).Err?
  {
    var d := s.description;
    assert |d| == 16 && d[15] == 'L';
    assert StartsWith(d, "DistortionMap");
    DistortionSeries(s);
    NotEndingWith(d, "DistortionMap_PA");
    NotEndingWith(d, "DistortionMap_AP");
    DirectionOfSuffix(d);
  }

  lemma StaleRuleRejects(q: seq<SeqInfo>)
    requires |q| == 5 && q[2] == StaleExample()[2]
    ensures Rule(q, 2).Err?
  {
    StaleMapUnknown(q[2]);
  }

  /**
   * The right-left field map of `StaleExample` is filed, as written, as a second resting-state
   * field map with the earlier map's direction; the rule above rejects it.
   */
  lemma StaleFieldMap()
    ensures RunAsWritten(StaleExample(), 5).Ok?
    ensures Lookup(RunAsWritten(StaleExample(), 5).value.info, FmapRest)
      == [FieldMap("1", "AP", Some("rest")), FieldMap("3", "AP", Some("rest"))]
    ensures Filed(Rule, StaleExample(), 5, Initial()).Err?
  {
    var q := StaleExample();
    var map0 := FieldMap("1", "AP", Some("rest"));
    var map2 := FieldMap("3", "AP", Some("rest"));
    StaleFirstTwo(q);
    StaleStep2(q);
    StaleStepOther(q, 3, StaleLocals());
    StaleStepOther(q, 4, StaleLocals());
    var run2 := RunAsWritten(q, 2);
    var run3 := RunAsWritten(q, 3);
    assert run3.Ok? && Lookup(run3.value.info, FmapRest) == [map0, map2] && run3.value.locals == StaleLocals();
    var run4 := RunAsWritten(q, 4);
    assert run4.Ok? && Lookup(run4.value.info, FmapRest) == [map0, map2] && run4.value.locals == StaleLocals();
    StaleRuleRejects(q);
    FiledErrorSticks(Rule, q, 3, 5, Initial());
  }

  /** After the first two series of `StaleExample`, one resting-state field map is filed. */
  lemma StaleFirstTwo(q: seq<SeqInfo>)
    requires q == StaleExample()
    ensures RunAsWritten(q, 2).Ok?
    ensures Lookup(RunAsWritten(q, 2).value.info, FmapRest) == [FieldMap("1", "AP", Some("rest"))]
    ensures RunAsWritten(q, 2).value.locals == StaleLocals()
  {
    StaleStep0(q);
    StaleStep1(q, StaleLocals());
    var run1 := RunAsWritten(q, 1);
    assert run1.Ok? && Lookup(run1.value.info, FmapRest) == [FieldMap("1", "AP", Some("rest"))];
  }
}
