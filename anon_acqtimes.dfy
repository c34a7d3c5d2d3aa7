/**
 * `anon_acqtimes.anon_acqtimes`: shifting every acquisition time of a BIDS dataset by a whole
 * number of days so that each subject's first scan falls on 1800-01-01, keeping the time of
 * day and the time between scans (and, in a longitudinal study, between sessions).
 *
 * An acquisition time is a date, counted in days from 1800-01-01, and a second of that day.
 * The column holds ISO 8601 stamps of one format, whose string minimum is the earliest stamp.
 */
module AnonAcqtimes {
  import opened Base
  import opened Text
  import opened Posix

  const SecondsPerDay := 86400

  /** One `acq_time`: `day` counts days from 1800-01-01, `second` is the second of that day. */
  datatype Stamp = Stamp(day: int, second: int)

  predicate ValidStamp(t: Stamp) {
    0 <= t.second < SecondsPerDay
  }

  /** The stamp as a number of seconds since 1800-01-01 00:00:00. */
  function Seconds(t: Stamp): int {
    t.day * SecondsPerDay + t.second
  }

  /** `a` is no later than `b`: the order of the stamps' ISO 8601 texts. */
  predicate NotAfter(a: Stamp, b: Stamp) {
    a.day < b.day || (a.day == b.day && a.second <= b.second)
  }

  /** For stamps within their day, the order of the texts is the order of the instants. */
  lemma NotAfterIsChronological(a: Stamp, b: Stamp)
    requires ValidStamp(a) && ValidStamp(b)
    ensures NotAfter(a, b) <==> Seconds(a) <= Seconds(b)
  {
    if a.day < b.day {
      assert Seconds(a) < (a.day + 1) * SecondsPerDay <= b.day * SecondsPerDay <= Seconds(b);
    } else if a.day > b.day {
      assert Seconds(b) < (b.day + 1) * SecondsPerDay <= a.day * SecondsPerDay <= Seconds(a);
    }
  }

  /** Line 28: the baseline date 1800-01-01, day 0 of the count. */
  const BaselineDay := 0

  /** `df['acq_time'].min()` (lines 39, 56): the earliest stamp of a non-empty column. */
  function Earliest(times: seq<Stamp>): (r: Stamp)
    requires |times| > 0
    ensures r in times
    ensures forall t :: t in times ==> NotAfter(r, t)
  {
    if |times| == 1 then times[0]
    else
      var rest := Earliest(times[..|times| - 1]);
      assert forall t :: t in times ==> t in times[..|times| - 1] || t == times[|times| - 1];
      if NotAfter(rest, times[|times| - 1]) then rest else times[|times| - 1]
  }

  /**
   * Lines 39-41 (and 56-58): the date of the earliest stamp minus the baseline, in days.
   * The minimum of an empty column is NaN, a float, whose `split` raises.
   */
  function Offset(times: seq<Stamp>): Result<int> {
    if |times| == 0 then Err(AttributeError("'float' object has no attribute 'split'"))
    else Ok(Earliest(times).day - BaselineDay)
  }

  /** Lines 42-43 (and 60-61): every stamp moved back by `diff` whole days. */
  function Shift(times: seq<Stamp>, diff: int): seq<Stamp> {
    seq(|times|, k requires 0 <= k < |times| => Stamp(times[k].day - diff, times[k].second))
  }

  /**
   * Shifting moves every stamp by the same `diff` days: each scan keeps its time of day, and
   * the time between any two scans is kept.
   */
  lemma ShiftKeepsDifferences(a: seq<Stamp>, b: seq<Stamp>, diff: int, j: nat, k: nat)
    requires j < |a| && k < |b|
    ensures |Shift(a, diff)| == |a| && Shift(a, diff)[j].second == a[j].second
    ensures Seconds(Shift(a, diff)[j]) - Seconds(Shift(b, diff)[k]) == Seconds(a[j]) - Seconds(b[k])
  {
    var x, y := Shift(a, diff)[j], Shift(b, diff)[k];
    assert Seconds(x) == Seconds(a[j]) - diff * SecondsPerDay;
    assert Seconds(y) == Seconds(b[k]) - diff * SecondsPerDay;
  }

  /** The anonymised column starts on 1800-01-01, at the time of day of the first scan. */
  lemma {:induction false} ShiftLandsOnBaseline(times: seq<Stamp>)
    requires Offset(times).Ok?
    ensures forall t :: t in Shift(times, Offset(times).value) ==> BaselineDay <= t.day
    ensures exists t :: t in Shift(times, Offset(times).value) && t == Stamp(BaselineDay, Earliest(times).second)
  {
    var diff := Offset(times).value;
    var shifted := Shift(times, diff);
    var e := Earliest(times);
    forall t | t in shifted
      ensures BaselineDay <= t.day
    {
      var k :| 0 <= k < |shifted| && shifted[k] == t;
      assert NotAfter(e, times[k]);
    }
    var k :| 0 <= k < |times| && times[k] == e;
    assert shifted[k] == Stamp(BaselineDay, e.second);
    assert shifted[k] in shifted;
  }

  // ---------------------------------------------------------------------------------------
  // The dataset

  /**
   * What the BIDS layout and the file system give: the subjects, the dataset's sessions
   * (line 32), each subject's sessions (line 48) and the `acq_time` column of each scans file
   * that exists, by path.
   */
  datatype Dataset = Dataset(
    dir: string,
    subjects: seq<string>,
    sessions: seq<string>,
    sessionsOf: map<string, seq<string>>,
    scans: map<string, seq<Stamp>>)

  /** One anonymised scans table: its file and its shifted column. */
  datatype Table = Table(path: string, times: seq<Stamp>)

  /** Lines 36-37: the scans file of a subject in a dataset without sessions. */
  function CrossPath(ds: Dataset, sub: string): string {
    Join(ds.dir, "sub-" + sub + "/sub-" + sub + "_scans.tsv")
  }

  /** Lines 50-52: the scans file of one session of a subject. */
  function SessionPath(ds: Dataset, sub: string, ses: string): string {
    Join(ds.dir, "sub-" + sub + "/ses-" + ses + "/sub-" + sub + "_ses-" + ses + "_scans.tsv")
  }

  /** `pd.read_csv(path, sep='\t')['acq_time']`: a missing file raises. */
  function ReadTimes(ds: Dataset, path: string): (r: Result<seq<Stamp>>)
    ensures r.Ok? <==> path in ds.scans
    ensures r.Ok? ==> r.value == ds.scans[path]
  {
    if path in ds.scans then Ok(ds.scans[path]) else Err(FileNotFoundError(path))
  }

  /** Line 48: the subject's own sessions, sorted. */
  function SubjectSessions(ds: Dataset, sub: string): (r: seq<string>)
    ensures SortedStrings(r)
  {
    SortStrings(if sub in ds.sessionsOf then ds.sessionsOf[sub] else [])
  }

  /** Lines 36-44: a subject of a dataset without sessions, shifted by its own first scan. */
  function CrossTable(ds: Dataset, sub: string): Result<Table> {
    var path := CrossPath(ds, sub);
    var times :- ReadTimes(ds, path);
    var diff :- Offset(times);
    Ok(Table(path, Shift(times, diff)))
  }

  /** Lines 55-58: the offset of a subject, from its first session in sorted order. */
  function FirstOffset(ds: Dataset, sub: string, sess: seq<string>): Result<int>
    requires |sess| > 0
  {
    var times :- ReadTimes(ds, SessionPath(ds, sub, sess[0]));
    Offset(times)
  }

  /** Lines 49-61: the first `n` sessions of a subject, each shifted by the subject's offset. */
  function SessionTables(ds: Dataset, sub: string, sess: seq<string>, n: nat): Result<seq<Table>>
    requires n <= |sess|
  {
    if n == 0 then Ok([])
    else
      var prev :- SessionTables(ds, sub, sess, n - 1);
      var path := SessionPath(ds, sub, sess[n - 1]);
      var times :- ReadTimes(ds, path);
      var diff :- FirstOffset(ds, sub, sess);
      Ok(prev + [Table(path, Shift(times, diff))])
  }

  /** The tables of one subject: lines 35-44 without sessions, lines 46-61 with them. */
  function SubjectTables(ds: Dataset, sub: string): Result<seq<Table>> {
    if |ds.sessions| == 0 then
      var t :- CrossTable(ds, sub);
      Ok([t])
    else
      var sess := SubjectSessions(ds, sub);
      SessionTables(ds, sub, sess, |sess|)
  }

  /** The first `n` subjects, in the order of `layout.get_subjects()` (line 34). */
  function SubjectsTables(ds: Dataset, n: nat): Result<seq<Table>>
    requires n <= |ds.subjects|
  {
    if n == 0 then Ok([])
    else
      var prev :- SubjectsTables(ds, n - 1);
      var ts :- SubjectTables(ds, ds.subjects[n - 1]);
      Ok(prev + ts)
  }

  /** `anon_acqtimes(dset_dir)`: every anonymised table, in processing order. */
  function Anonymised(ds: Dataset): Result<seq<Table>> {
    SubjectsTables(ds, |ds.subjects|)
  }

  // ---------------------------------------------------------------------------------------
  // The loops

  /** A failed step leaves the sessions that follow failed with the same error. */
  lemma {:induction false} SessionErrorSticks(ds: Dataset, sub: string, sess: seq<string>, n: nat, m: nat)
    requires n <= m <= |sess|
    requires SessionTables(ds, sub, sess, n).Err?
    ensures SessionTables(ds, sub, sess, m).Err?
    ensures SessionTables(ds, sub, sess, m).error == SessionTables(ds, sub, sess, n).error
    decreases m
  {
    if m > n {
      SessionErrorSticks(ds, sub, sess, n, m - 1);
    }
  }

  lemma {:induction false} SubjectsErrorSticks(ds: Dataset, n: nat, m: nat)
    requires n <= m <= |ds.subjects|
    requires SubjectsTables(ds, n).Err?
    ensures SubjectsTables(ds, m).Err?
    ensures SubjectsTables(ds, m).error == SubjectsTables(ds, n).error
    decreases m
  {
    if m > n {
      SubjectsErrorSticks(ds, n, m - 1);
    }
  }

  /** Once the first session is done, the subject's offset is known. */
  lemma {:induction false} SessionsFixOffset(ds: Dataset, sub: string, sess: seq<string>, n: nat)
    requires 0 < n <= |sess|
    requires SessionTables(ds, sub, sess, n).Ok?
    ensures FirstOffset(ds, sub, sess).Ok?
    decreases n
  {
    if n > 1 {
      SessionsFixOffset(ds, sub, sess, n - 1);
    }
  }

  /** Lines 48-61 for one subject: `diff` is set at `i == 0` and kept for the later sessions. */
  method ShiftSessions(ds: Dataset, sub: string) returns (r: Result<seq<Table>>)
    requires |ds.sessions| > 0
    ensures r == SubjectTables(ds, sub)
  {
    var sess := SubjectSessions(ds, sub);
    var tables: seq<Table> := [];
    var diff := 0;
    for i := 0 to |sess|
      invariant SessionTables(ds, sub, sess, i) == Ok(tables)
      invariant i > 0 ==> FirstOffset(ds, sub, sess) == Ok(diff)
    {
      var path := SessionPath(ds, sub, sess[i]);
      var times := ReadTimes(ds, path);
      if times.Err? {
        SessionErrorSticks(ds, sub, sess, i + 1, |sess|);
        return Err(times.error);
      }
      if i == 0 {
        var offset := Offset(times.value);
        if offset.Err? {
          SessionErrorSticks(ds, sub, sess, i + 1, |sess|);
          return Err(offset.error);
        }
        diff := offset.value;
      }
      tables := tables + [Table(path, Shift(times.value, diff))];
    }
    return Ok(tables);
  }

  /** Lines 35-61 for one subject: the branch the dataset's sessions select (line 35). */
  method ShiftSubject(ds: Dataset, sub: string) returns (r: Result<seq<Table>>)
    ensures r == SubjectTables(ds, sub)
  {
    if |ds.sessions| == 0 {
      var t := CrossTable(ds, sub);
      if t.Err? {
        return Err(t.error);
      }
      return Ok([t.value]);
    }
    r := ShiftSessions(ds, sub);
  }

  /** Lines 28-63: the subjects anonymised one after another; nothing is written back. */
  method AnonAcqtimes(ds: Dataset) returns (r: Result<seq<Table>>)
    ensures r == Anonymised(ds)
  {
    var tables: seq<Table> := [];
    for n := 0 to |ds.subjects|
      invariant SubjectsTables(ds, n) == Ok(tables)
    {
      var ts := ShiftSubject(ds, ds.subjects[n]);
      if ts.Err? {
        SubjectsErrorSticks(ds, n + 1, |ds.subjects|);
        return Err(ts.error);
      }
      tables := tables + ts.value;
    }
    return Ok(tables);
  }

  // ---------------------------------------------------------------------------------------
  // What the anonymisation keeps

  /**
   * Lines 48-61: every session of a subject is read from its own file and shifted by the
   * offset of the first session in sorted order.
   */
  lemma {:induction false} SessionsShareOffset(ds: Dataset, sub: string, sess: seq<string>, n: nat)
    requires n <= |sess|
    requires SessionTables(ds, sub, sess, n).Ok?
    ensures |SessionTables(ds, sub, sess, n).value| == n
    ensures forall j :: 0 <= j < n ==>
      && SessionPath(ds, sub, sess[j]) in ds.scans
      && FirstOffset(ds, sub, sess).Ok?
      && SessionTables(ds, sub, sess, n).value[j]
         == Table(SessionPath(ds, sub, sess[j]), Shift(ds.scans[SessionPath(ds, sub, sess[j])], FirstOffset(ds, sub, sess).value))
    decreases n
  {
    if n > 0 {
      SessionsShareOffset(ds, sub, sess, n - 1);
    }
  }

  /**
   * Lines 14-18: in a longitudinal study the time between any two scans of a subject, in the
   * same session or not, is what it was.
   */
  lemma TimeBetweenSessionsKept(ds: Dataset, sub: string, j: nat, k: nat, a: nat, b: nat)
    requires |ds.sessions| > 0
    requires SubjectTables(ds, sub).Ok?
    requires j < |SubjectSessions(ds, sub)| && k < |SubjectSessions(ds, sub)|
    ensures |SubjectTables(ds, sub).value| == |SubjectSessions(ds, sub)|
    ensures SessionPath(ds, sub, SubjectSessions(ds, sub)[j]) in ds.scans
    ensures SessionPath(ds, sub, SubjectSessions(ds, sub)[k]) in ds.scans
    ensures var sess := SubjectSessions(ds, sub);
      var out := SubjectTables(ds, sub).value;
      var x := ds.scans[SessionPath(ds, sub, sess[j])];
      var y := ds.scans[SessionPath(ds, sub, sess[k])];
      && |out[j].times| == |x| && |out[k].times| == |y|
      && (a < |x| && b < |y| ==>
          Seconds(out[j].times[a]) - Seconds(out[k].times[b]) == Seconds(x[a]) - Seconds(y[b]))
  {
    var sess := SubjectSessions(ds, sub);
    SessionsShareOffset(ds, sub, sess, |sess|);
    var x := ds.scans[SessionPath(ds, sub, sess[j])];
    var y := ds.scans[SessionPath(ds, sub, sess[k])];
    if a < |x| && b < |y| {
      ShiftKeepsDifferences(x, y, FirstOffset(ds, sub, sess).value, a, b);
    }
  }

  /** Lines 14-16 and 55-58: a subject's first session starts on 1800-01-01. */
  lemma FirstSessionOnBaseline(ds: Dataset, sub: string)
    requires |ds.sessions| > 0
    requires SubjectTables(ds, sub).Ok?
    requires |SubjectSessions(ds, sub)| > 0
    ensures exists t :: t in SubjectTables(ds, sub).value[0].times && t.day == BaselineDay
    ensures forall t :: t in SubjectTables(ds, sub).value[0].times ==> BaselineDay <= t.day
  {
    var sess := SubjectSessions(ds, sub);
    SessionsShareOffset(ds, sub, sess, |sess|);
    var times := ds.scans[SessionPath(ds, sub, sess[0])];
    assert FirstOffset(ds, sub, sess) == Offset(times);
    ShiftLandsOnBaseline(times);
  }

  /**
   * Lines 34-44: a dataset without sessions gives one table per subject, read from the
   * subject's own scans file and starting on 1800-01-01.
   */
  lemma {:induction false} CrossSectionalTables(ds: Dataset, n: nat)
    requires |ds.sessions| == 0
    requires n <= |ds.subjects|
    requires SubjectsTables(ds, n).Ok?
    ensures |SubjectsTables(ds, n).value| == n
    ensures forall j :: 0 <= j < n ==>
      && CrossPath(ds, ds.subjects[j]) in ds.scans
      && Offset(ds.scans[CrossPath(ds, ds.subjects[j])]).Ok?
      && SubjectsTables(ds, n).value[j] == Table(CrossPath(ds, ds.subjects[j]),
           Shift(ds.scans[CrossPath(ds, ds.subjects[j])], Offset(ds.scans[CrossPath(ds, ds.subjects[j])]).value))
    decreases n
  {
    if n > 0 {
      CrossSectionalTables(ds, n - 1);
    }
  }
}
