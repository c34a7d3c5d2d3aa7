/**
 * What the heudiconv heuristics under `heuristics/` share: the series records they classify,
 * `create_key`, and the `info` dictionary that `infotodict` fills by walking the series in order
 * and filing each one under at most one output key.
 */
module Heuristics {
  import opened Base
  import opened Text

  /**
   * The fields of a heudiconv series record the heuristics read: `s[2]` the series id, `s[8]`
   * the number of slices, `s[9]` the number of volumes and `s[12]` the series description.
   */
  datatype SeqInfo = SeqInfo(seriesId: string, slices: int, volumes: int, description: string)

  /** The tuple `create_key` returns: the path template, the output type and the annotation classes. */
  datatype Key = Key(template: string, outtype: string, annotationClasses: Option<seq<string>>)

  /**
   * `create_key(template, outtype, annotation_classes)`: a missing or empty template raises
   * `ValueError`; otherwise the three arguments come back as the key, unchanged.
   */
  function CreateKey(template: Option<string>, outtype: string, annotationClasses: Option<seq<string>>): (r: Result<Key>)
    ensures r.Err? <==> template.None? || template.value == ""
    ensures r.Err? ==> r.error.ValueError?
    ensures r.Ok? ==>
      && r.value.template == template.value
      && r.value.outtype == outtype
      && r.value.annotationClasses == annotationClasses
  {
    if template.None? || template.value == "" then Err(ValueError("Template must be a valid format string"))
    else Ok(Key(template.value, outtype, annotationClasses))
  }

  /** What `infotodict` puts in a list of `info`. */
  datatype Entry =
    | Series(id: string)
    | SeriesList(ids: seq<string>)
    | SeriesNumber(n: int)
    | FieldMap(item: string, dir: string, acq: Option<string>)

  /** What happens to `info` for one series: nothing, an append to a list, or a list replaced by one entry. */
  datatype Filing<C> = Skip | Append(cat: C, entry: Entry) | Replace(cat: C, entry: Entry)

  /** The list of `info` under `c`. */
  function Lookup<C>(info: map<C, seq<Entry>>, c: C): seq<Entry> {
    if c in info then info[c] else []
  }

  /** `info[c].append(e)`, `info[c] = [e]`, or nothing. */
  function Apply<C(!new)>(info: map<C, seq<Entry>>, f: Filing<C>): (r: map<C, seq<Entry>>)
    ensures info.Keys <= r.Keys
    ensures forall c :: (f.Skip? || c != f.cat) ==> Lookup(r, c) == Lookup(info, c)
  {
    match f
    case Skip => info
    case Append(c, e) => info[c := Lookup(info, c) + [e]]
    case Replace(c, e) => info[c := [e]]
  }

  /** The rule of a heuristic for series `i` may read every series. */
  ghost predicate Total<C>(rule: (seq<SeqInfo>, nat) --> Result<Filing<C>>, seqinfo: seq<SeqInfo>) {
    forall i :: 0 <= i < |seqinfo| ==> rule.requires(seqinfo, i)
  }

  /** `infotodict` over the first `n` series: each series filed by `rule`, the first error stops the walk. */
  function Filed<C(!new)>(rule: (seq<SeqInfo>, nat) --> Result<Filing<C>>, seqinfo: seq<SeqInfo>, n: nat,
                    init: map<C, seq<Entry>>): Result<map<C, seq<Entry>>>
    requires Total(rule, seqinfo) && n <= |seqinfo|
  {
    if n == 0 then Ok(init)
    else
      var before :- Filed(rule, seqinfo, n - 1, init);
      var f :- rule(seqinfo, n - 1);
      Ok(Apply(before, f))
  }

  lemma {:induction false} FiledErrorSticks<C(!new)>(rule: (seq<SeqInfo>, nat) --> Result<Filing<C>>, seqinfo: seq<SeqInfo>,
                                               m: nat, n: nat, init: map<C, seq<Entry>>)
    requires Total(rule, seqinfo) && m <= n <= |seqinfo| && Filed(rule, seqinfo, m, init).Err?
    ensures Filed(rule, seqinfo, n, init) == Filed(rule, seqinfo, m, init)
    decreases n
  {
    if n > m {
      FiledErrorSticks(rule, seqinfo, m, n - 1, init);
    }
  }

  /** One turn of the loop of `infotodict`: series `i` filed into `info`, the lists of the first `i` series. */
  method FileNext<C(!new)>(rule: (seq<SeqInfo>, nat) --> Result<Filing<C>>, seqinfo: seq<SeqInfo>, i: nat,
                           init: map<C, seq<Entry>>, info: map<C, seq<Entry>>) returns (r: Result<map<C, seq<Entry>>>)
    requires Total(rule, seqinfo) && i < |seqinfo| && Filed(rule, seqinfo, i, init) == Ok(info)
    ensures r == Filed(rule, seqinfo, i + 1, init)
  {
    var f := rule(seqinfo, i);
    if f.Err? {
      return Err(f.error);
    }
    return Ok(Apply(info, f.value));
  }

  /** Filing never removes a key: every list `info` starts with is still there at the end. */
  lemma {:induction false} FiledKeepsKeys<C(!new)>(rule: (seq<SeqInfo>, nat) --> Result<Filing<C>>, seqinfo: seq<SeqInfo>,
                                             n: nat, init: map<C, seq<Entry>>)
    requires Total(rule, seqinfo) && n <= |seqinfo| && Filed(rule, seqinfo, n, init).Ok?
    ensures init.Keys <= Filed(rule, seqinfo, n, init).value.Keys
    decreases n
  {
    if n > 0 {
      FiledKeepsKeys(rule, seqinfo, n - 1, init);
    }
  }

  /** The number of entries in the lists of `info` under `cats`. */
  function Size<C>(info: map<C, seq<Entry>>, cats: seq<C>): nat {
    if |cats| == 0 then 0 else |Lookup(info, cats[0])| + Size(info, cats[1..])
  }

  /** Lists that are all empty hold no entries. */
  lemma {:induction false} SizeEmpty<C>(info: map<C, seq<Entry>>, cats: seq<C>)
    requires forall c :: c in cats ==> Lookup(info, c) == []
    ensures Size(info, cats) == 0
    decreases |cats|
  {
    if |cats| > 0 {
      assert cats[0] in cats;
      assert forall c :: c in cats[1..] ==> c in cats;
      SizeEmpty(info, cats[1..]);
    }
  }

  lemma {:induction false} SizeUpdate<C>(info: map<C, seq<Entry>>, cats: seq<C>, c: C, v: seq<Entry>)
    requires Distinct(cats)
    ensures Size(info[c := v], cats) + (if c in cats then |Lookup(info, c)| else 0)
      == Size(info, cats) + (if c in cats then |v| else 0)
    decreases |cats|
  {
    if |cats| > 0 {
      assert Distinct(cats[1..]) by {
        forall i, j | 0 <= i < j < |cats[1..]| ensures cats[1..][i] != cats[1..][j] {
          assert cats[1..][i] == cats[i + 1] && cats[1..][j] == cats[j + 1];
        }
      }
      assert c == cats[0] ==> c !in cats[1..] by {
        if c == cats[0] {
          forall k | 0 <= k < |cats[1..]| ensures cats[1..][k] != c {
            assert cats[1..][k] == cats[k + 1];
          }
        }
      }
      assert c in cats <==> c == cats[0] || c in cats[1..];
      SizeUpdate(info, cats[1..], c, v);
    }
  }

  /**
   * Each series is filed under at most one key: after the first `n` series, the lists together
   * hold at most `n` more entries than they started with.
   */
  lemma {:induction false} AtMostOneEntryPerSeries<C(!new)>(rule: (seq<SeqInfo>, nat) --> Result<Filing<C>>,
                                                      seqinfo: seq<SeqInfo>, n: nat, init: map<C, seq<Entry>>, cats: seq<C>)
    requires Total(rule, seqinfo) && n <= |seqinfo| && Distinct(cats)
    requires Filed(rule, seqinfo, n, init).Ok?
    ensures Size(Filed(rule, seqinfo, n, init).value, cats) <= Size(init, cats) + n
    decreases n
  {
    if n > 0 {
      AtMostOneEntryPerSeries(rule, seqinfo, n - 1, init, cats);
      var before := Filed(rule, seqinfo, n - 1, init).value;
      var f := rule(seqinfo, n - 1).value;
      match f
      case Skip =>
      case Append(c, e) => SizeUpdate(before, cats, c, Lookup(before, c) + [e]);
      case Replace(c, e) => SizeUpdate(before, cats, c, [e]);
    }
  }

  /** The filing of series `i` goes to `c`. */
  predicate FiledUnder<C(==)>(r: Result<Filing<C>>, c: C) {
    r.Ok? && !r.value.Skip? && r.value.cat == c
  }

  /** The entries filed under `c` by the first `n` series, in series order. */
  function EntriesFiled<C(==)>(rule: (seq<SeqInfo>, nat) --> Result<Filing<C>>, seqinfo: seq<SeqInfo>, n: nat, c: C): seq<Entry>
    requires Total(rule, seqinfo) && n <= |seqinfo|
  {
    if n == 0 then []
    else EntriesFiled(rule, seqinfo, n - 1, c) + (if FiledUnder(rule(seqinfo, n - 1), c) then [rule(seqinfo, n - 1).value.entry] else [])
  }

  /** No series among the first `n` replaces the list under `c`. */
  predicate NeverReplaced<C(==)>(rule: (seq<SeqInfo>, nat) --> Result<Filing<C>>, seqinfo: seq<SeqInfo>, n: nat, c: C)
    requires Total(rule, seqinfo) && n <= |seqinfo|
  {
    forall i :: 0 <= i < n ==> !(FiledUnder(rule(seqinfo, i), c) && rule(seqinfo, i).value.Replace?)
  }

  /** No series among the first `n` appends to the list under `c`. */
  predicate NeverAppended<C(==)>(rule: (seq<SeqInfo>, nat) --> Result<Filing<C>>, seqinfo: seq<SeqInfo>, n: nat, c: C)
    requires Total(rule, seqinfo) && n <= |seqinfo|
  {
    forall i :: 0 <= i < n ==> !(FiledUnder(rule(seqinfo, i), c) && rule(seqinfo, i).value.Append?)
  }

  /** A list only ever appended to ends up holding the entries filed under it, in series order. */
  lemma {:induction false} AppendedInOrder<C(!new)>(rule: (seq<SeqInfo>, nat) --> Result<Filing<C>>, seqinfo: seq<SeqInfo>,
                                              n: nat, init: map<C, seq<Entry>>, c: C)
    requires Total(rule, seqinfo) && n <= |seqinfo| && Filed(rule, seqinfo, n, init).Ok?
    requires NeverReplaced(rule, seqinfo, n, c)
    ensures Lookup(Filed(rule, seqinfo, n, init).value, c) == Lookup(init, c) + EntriesFiled(rule, seqinfo, n, c)
    decreases n
  {
    if n > 0 {
      AppendedInOrder(rule, seqinfo, n - 1, init, c);
      assert !(FiledUnder(rule(seqinfo, n - 1), c) && rule(seqinfo, n - 1).value.Replace?);
    }
  }

  /**
   * A list only ever replaced ends up empty when no series was filed under it, and otherwise
   * holding just the entry of the last series filed under it.
   */
  lemma {:induction false} ReplacedHoldsLatest<C(!new)>(rule: (seq<SeqInfo>, nat) --> Result<Filing<C>>, seqinfo: seq<SeqInfo>,
                                                  n: nat, init: map<C, seq<Entry>>, c: C)
    requires Total(rule, seqinfo) && n <= |seqinfo| && Filed(rule, seqinfo, n, init).Ok?
    requires NeverAppended(rule, seqinfo, n, c) && Lookup(init, c) == []
    ensures var filed := EntriesFiled(rule, seqinfo, n, c);
      Lookup(Filed(rule, seqinfo, n, init).value, c) == if filed == [] then [] else [filed[|filed| - 1]]
    decreases n
  {
    if n > 0 {
      ReplacedHoldsLatest(rule, seqinfo, n - 1, init, c);
      assert !(FiledUnder(rule(seqinfo, n - 1), c) && rule(seqinfo, n - 1).value.Append?);
    }
  }

  /**
   * The direction of a field-map series: the first of `dirs` whose `DistortionMap_<dir>` ends
   * the description; none of them raises `ValueError`.
   */
  function Direction(description: string, dirs: seq<string>): (r: Result<string>)
    ensures r.Ok? <==> exists d :: d in dirs && EndsWith(description, "DistortionMap_" + d)
    ensures r.Ok? ==> r.value in dirs && EndsWith(description, "DistortionMap_" + r.value)
    ensures r.Err? ==> r.error.ValueError?
  {
    if |dirs| == 0 then Err(ValueError("Fieldmap scan " + description + " not supported"))
    else if EndsWith(description, "DistortionMap_" + dirs[0]) then Ok(dirs[0])
    else
      var rest := Direction(description, dirs[1..]);
      assert forall d :: d in dirs <==> d == dirs[0] || d in dirs[1..];
      rest
  }

  /**
   * The look-ahead of the ABCD-style field-map rule: the field map is for diffusion when the
   * next or the one after ends with `dMRI` and the next does not mention `fMRI`.
   */
  predicate TowardsDwi(next: SeqInfo, nextNext: SeqInfo) {
    (EndsWith(next.description, "dMRI") || EndsWith(nextNext.description, "dMRI"))
      && !Contains(next.description, "fMRI")
  }

  /** The series after the next, or the next again when series `i + 1` is the last. */
  function NextNext(seqinfo: seq<SeqInfo>, i: nat): SeqInfo
    requires i + 1 < |seqinfo|
  {
    if i + 2 < |seqinfo| then seqinfo[i + 2] else seqinfo[i + 1]
  }
}
