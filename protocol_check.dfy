/**
 * `protocol_check.py`: counts the scan directories of a session for every scan type the
 * project's protocol lists, compares the counts and the number of DICOM files with the
 * protocol's numbers, and mails the mismatches. The directory tests, the listing of the
 * session directory and the number of files in each scan's DICOM directory are inputs.
 */
module ProtocolCheck {
  import opened Base
  import opened Text
  import opened Posix

  /** A value of the protocol JSON object: the numbers of a scan type, or a plain string. */
  datatype Value = Requirements(num: Option<int>, dicoms: Option<int>) | Str(s: string)

  /** One key of the protocol JSON object, in file order. */
  datatype Entry = Entry(key: string, value: Value)

  /**
   * What lines 24-48 find on disk: whether the working directory and the BIDS directory's
   * parent are directories, whether `code/config.json` exists and its `protocol` entry,
   * whether the protocol file exists and whether the subject and session working
   * directories exist.
   */
  datatype Setup = Setup(workDirIsDir: bool, bidsParentIsDir: bool, configIsFile: bool,
                         configProtocol: Option<string>, protocolIsFile: bool,
                         subjectIsDir: bool, sessionIsDir: bool)

  /** The input checks of lines 24-48, in their order. */
  function Validate(setup: Setup): (r: Result<()>)
    ensures r.Ok? <==>
      && setup.workDirIsDir && setup.bidsParentIsDir && setup.configIsFile
      && setup.configProtocol.Some? && setup.protocolIsFile && setup.subjectIsDir && setup.sessionIsDir
    ensures r.Err? ==> r.error.ValueError? || r.error == KeyError("protocol") || r.error == FileNotFoundError("code/config.json")
    ensures r.Err? && !r.error.ValueError? ==> setup.workDirIsDir && setup.bidsParentIsDir
    ensures r.Err? && r.error.KeyError? ==> setup.configIsFile
  {
    if !setup.workDirIsDir then Err(ValueError("Argument \"workdir\" must be an existing directory."))
    else if !setup.bidsParentIsDir then Err(ValueError("Argument \"bids_dir\" must be an existing directory."))
    else if !setup.configIsFile then Err(FileNotFoundError("code/config.json"))
    else if setup.configProtocol.None? then Err(KeyError("protocol"))
    else if !setup.protocolIsFile then Err(ValueError("Argument \"protocol\" must exist."))
    else if !setup.subjectIsDir then Err(ValueError("Subject directory does not exist in working directory."))
    else if !setup.sessionIsDir then Err(ValueError("Session directory does not exist in subjects working directory."))
    else Ok(())
  }

  /** Some entry of `d` has key `k`. */
  predicate HasKey(d: seq<Entry>, k: string) {
    exists i :: 0 <= i < |d| && d[i].key == k
  }

  /** No key appears twice: what a Python dict holds. */
  predicate DistinctKeys(d: seq<Entry>) {
    forall i, j :: 0 <= i < j < |d| ==> d[i].key != d[j].key
  }

  /** The keys of a non-empty sequence: its first key and the keys of the rest. */
  lemma KeysOfCons(d: seq<Entry>)
    requires |d| > 0
    ensures forall k :: HasKey(d, k) <==> d[0].key == k || HasKey(d[1..], k)
  {
    forall k | HasKey(d, k) && d[0].key != k ensures HasKey(d[1..], k) {
      var i :| 0 <= i < |d| && d[i].key == k;
      assert d[1..][i - 1] == d[i];
    }
    forall k | HasKey(d[1..], k) ensures HasKey(d, k) {
      var i :| 0 <= i < |d| - 1 && d[1..][i].key == k;
      assert d[i + 1] == d[1..][i];
    }
  }

  /** `d[e.key] = e.value` on a dict: an existing key keeps its place, a new one goes last. */
  function Put(d: seq<Entry>, e: Entry): (r: seq<Entry>)
    requires DistinctKeys(d)
    ensures DistinctKeys(r)
    ensures forall k :: HasKey(r, k) <==> HasKey(d, k) || k == e.key
  {
    if |d| == 0 then
      KeysOfCons([e]);
      assert [e][1..] == [];
      [e]
    else if d[0].key == e.key then
      var r := [e] + d[1..];
      assert forall i :: 0 <= i < |d| ==> r[i].key == d[i].key;
      KeysOfCons(d);
      KeysOfCons(r);
      assert r[1..] == d[1..];
      r
    else
      var rest := Put(d[1..], e);
      KeysOfCons(d);
      assert !HasKey(d[1..], d[0].key);
      var r := [d[0]] + rest;
      KeysOfCons(r);
      assert r[1..] == rest;
      assert forall j :: 0 < j < |r| ==> r[j].key != d[0].key;
      r
  }

  /**
   * `json.load` of the protocol object: its pairs, in file order, become a dict; a repeated
   * key keeps the place of its first occurrence and takes the value of its last.
   */
  function Loaded(pairs: seq<Entry>): (r: seq<Entry>)
    ensures DistinctKeys(r)
    ensures forall k :: HasKey(r, k) <==> HasKey(pairs, k)
  {
    if |pairs| == 0 then []
    else
      var n := |pairs| - 1;
      assert forall k :: HasKey(pairs, k) <==> HasKey(pairs[..n], k) || k == pairs[n].key by {
        forall k | HasKey(pairs, k) && k != pairs[n].key ensures HasKey(pairs[..n], k) {
          var i :| 0 <= i < |pairs| && pairs[i].key == k;
          assert pairs[..n][i] == pairs[i];
        }
        forall k | HasKey(pairs[..n], k) ensures HasKey(pairs, k) {
          var i :| 0 <= i < n && pairs[..n][i].key == k;
        }
      }
      Put(Loaded(pairs[..n]), pairs[n])
  }

  /** Line 57: `email` and `project` are not scan types. */
  predicate IsScanKey(key: string) {
    key != "email" && key != "project"
  }

  /** Lines 61-65: a directory counts toward `key` when its name contains it and neither `PMU` nor `setter`. */
  predicate CountsToward(key: string, name: string) {
    Contains(name, key) && !Contains(name, "PMU") && !Contains(name, "setter")
  }

  /** `tmp_scan_list`: the directories of `names` that count toward `key`, in listing order. */
  function Matching(key: string, names: seq<string>): (r: seq<string>)
    ensures |r| <= |names|
    ensures forall t :: t in r <==> t in names && CountsToward(key, t)
    ensures forall t :: CountsToward(key, t) ==> multiset(r)[t] == multiset(names)[t]
  {
    if |names| == 0 then []
    else
      var last := names[|names| - 1];
      assert names == names[..|names| - 1] + [last];
      Matching(key, names[..|names| - 1]) + (if CountsToward(key, last) then [last] else [])
  }

  /** The loop of lines 62-66. */
  method MatchingScans(key: string, names: seq<string>) returns (r: seq<string>)
    ensures r == Matching(key, names)
  {
    r := [];
    for i := 0 to |names|
      invariant r == Matching(key, names[..i])
    {
      assert names[..i + 1][..i] == names[..i];
      if CountsToward(key, names[i]) {
        r := r + [names[i]];
      }
    }
    assert names[..|names|] == names;
  }

  /** The line of lines 71-72. */
  function CountLine(found: nat, key: string, num: int): string {
    "There are " + IntToString(found) + " scans for " + key + ", but should be " + IntToString(num) + "\n"
  }

  /** The line of lines 81-83. */
  function DicomLine(found: nat, name: string, required: int): string {
    "There are " + IntToString(found) + " DICOMs for " + name + ", but should be " + IntToString(required) + "\n"
  }

  /** The DICOM directory of scan directory `name` (lines 75-76). */
  function DicomDir(sessionDir: string, name: string): string {
    Join(Join(sessionDir, name), "resources/DICOM/files")
  }

  /** The directories of `names` whose DICOM count is known and differs from `required`. */
  function Mismatched(names: seq<string>, counts: map<string, nat>, required: int): (r: seq<string>)
    ensures forall t :: t in r <==> t in names && t in counts && counts[t] != required
  {
    if |names| == 0 then []
    else
      var last := names[|names| - 1];
      assert names == names[..|names| - 1] + [last];
      Mismatched(names[..|names| - 1], counts, required) + (if last in counts && counts[last] != required then [last] else [])
  }

  /**
   * Lines 74-83 over the counted directories `names`: one line for each whose DICOM count
   * differs from `required`; listing a missing DICOM directory raises.
   */
  function DicomLines(sessionDir: string, names: seq<string>, counts: map<string, nat>, required: int): Result<seq<string>> {
    if |names| == 0 then Ok([])
    else
      var last := names[|names| - 1];
      var before :- DicomLines(sessionDir, names[..|names| - 1], counts, required);
      if last !in counts then Err(FileNotFoundError(DicomDir(sessionDir, last)))
      else Ok(before + if counts[last] != required then [DicomLine(counts[last], last, required)] else [])
  }

  /**
   * The DICOM loop raises exactly when a counted directory has no DICOM listing, and otherwise
   * writes one line per directory whose count is off, in listing order, naming the directory,
   * the count found and the count required.
   */
  lemma {:induction false} DicomLinesOutcome(sessionDir: string, names: seq<string>, counts: map<string, nat>, required: int)
    ensures var r := DicomLines(sessionDir, names, counts, required);
      && (r.Err? <==> exists t :: t in names && t !in counts)
      && (r.Err? ==> r.error.FileNotFoundError?)
    ensures var r := DicomLines(sessionDir, names, counts, required);
      r.Ok? ==>
        && |r.value| == |Mismatched(names, counts, required)|
        && forall k :: 0 <= k < |r.value| ==>
             var t := Mismatched(names, counts, required)[k];
             r.value[k] == DicomLine(counts[t], t, required)
    decreases |names|
  {
    if |names| > 0 {
      var last := names[|names| - 1];
      assert names == names[..|names| - 1] + [last];
      DicomLinesOutcome(sessionDir, names[..|names| - 1], counts, required);
    }
  }

  /** The first missing DICOM directory is the error of the whole loop. */
  lemma {:induction false} DicomLinesErrorSticks(sessionDir: string, names: seq<string>, k: nat, counts: map<string, nat>, required: int)
    requires k <= |names| && DicomLines(sessionDir, names[..k], counts, required).Err?
    ensures DicomLines(sessionDir, names, counts, required).Err?
    ensures DicomLines(sessionDir, names, counts, required).error == DicomLines(sessionDir, names[..k], counts, required).error
    decreases |names| - k
  {
    if k < |names| {
      var n := |names|;
      assert names[..n - 1][..k] == names[..k];
      DicomLinesErrorSticks(sessionDir, names[..n - 1], k, counts, required);
      assert DicomLines(sessionDir, names, counts, required).error == DicomLines(sessionDir, names[..n - 1], counts, required).error;
    } else {
      assert names[..k] == names;
    }
  }

  /** The directories counted for a scan entry, and whether its count or one of its DICOM counts is off. */
  predicate EntryMismatch(entry: Entry, names: seq<string>, counts: map<string, nat>)
    requires entry.value.Requirements? && entry.value.num.Some? && entry.value.dicoms.Some?
  {
    var found := Matching(entry.key, names);
    |found| != entry.value.num.value || |Mismatched(found, counts, entry.value.dicoms.value)| > 0
  }

  /**
   * Lines 57-83 for one key of the protocol: nothing for `email` and `project`; otherwise the
   * count line when the number of counted directories differs from `num`, then the DICOM lines.
   * A scan key whose value is a string, or lacks `num` or `dicoms`, raises.
   */
  function EntryLines(sessionDir: string, entry: Entry, names: seq<string>, counts: map<string, nat>): Result<seq<string>>
  {
    if !IsScanKey(entry.key) then Ok([])
    else
      match entry.value
      case Str(_) => Err(TypeError("string indices must be integers"))
      case Requirements(num, dicoms) =>
        if num.None? then Err(KeyError("num"))
        else if dicoms.None? then Err(KeyError("dicoms"))
        else
          var found := Matching(entry.key, names);
          var countLines := if |found| != num.value then [CountLine(|found|, entry.key, num.value)] else [];
          var dicomLines :- DicomLines(sessionDir, found, counts, dicoms.value);
          Ok(countLines + dicomLines)
  }

  /**
   * The lines of one key: none for `email` and `project`; a string value, a missing `num` or
   * `dicoms`, or a counted directory without a DICOM listing raises; otherwise one line for a
   * wrong count plus one per directory with a wrong DICOM count, so none exactly when
   * nothing is off.
   */
  lemma EntryLinesOutcome(sessionDir: string, entry: Entry, names: seq<string>, counts: map<string, nat>)
    ensures !IsScanKey(entry.key) ==> EntryLines(sessionDir, entry, names, counts) == Ok([])
    ensures IsScanKey(entry.key) && entry.value.Str? ==> EntryLines(sessionDir, entry, names, counts).Err? && EntryLines(sessionDir, entry, names, counts).error.TypeError?
    ensures IsScanKey(entry.key) && entry.value.Requirements? ==>
      (EntryLines(sessionDir, entry, names, counts).Err? <==>
        || entry.value.num.None? || entry.value.dicoms.None?
        || exists t :: t in Matching(entry.key, names) && t !in counts)
    ensures IsScanKey(entry.key) && EntryLines(sessionDir, entry, names, counts).Ok? ==>
      && entry.value.Requirements? && entry.value.num.Some? && entry.value.dicoms.Some?
      && (EntryLines(sessionDir, entry, names, counts).value != [] <==> EntryMismatch(entry, names, counts))
      && var found := Matching(entry.key, names);
         |EntryLines(sessionDir, entry, names, counts).value| == (if |found| != entry.value.num.value then 1 else 0) + |Mismatched(found, counts, entry.value.dicoms.value)|
  {
    if IsScanKey(entry.key) && WellFormedScan(entry) {
      DicomLinesOutcome(sessionDir, Matching(entry.key, names), counts, entry.value.dicoms.value);
    }
  }

  /** The message lines of the first `|entries|` keys of the protocol, in order; the first error stops. */
  function AllLines(sessionDir: string, entries: seq<Entry>, names: seq<string>, counts: map<string, nat>): Result<seq<string>> {
    if |entries| == 0 then Ok([])
    else
      var before :- AllLines(sessionDir, entries[..|entries| - 1], names, counts);
      var mine :- EntryLines(sessionDir, entries[|entries| - 1], names, counts);
      Ok(before + mine)
  }

  /** A scan key whose value holds both numbers. */
  predicate WellFormedScan(entry: Entry) {
    entry.value.Requirements? && entry.value.num.Some? && entry.value.dicoms.Some?
  }

  /** Some scan key of the protocol has a count or a DICOM count that is off. */
  predicate AnyMismatch(entries: seq<Entry>, names: seq<string>, counts: map<string, nat>) {
    exists i :: 0 <= i < |entries| && IsScanKey(entries[i].key) && WellFormedScan(entries[i])
      && EntryMismatch(entries[i], names, counts)
  }

  /** One key's lines, when it raises nothing, are non-empty exactly when it is a scan key whose counts are off. */
  lemma EntryLinesNonEmpty(sessionDir: string, entry: Entry, names: seq<string>, counts: map<string, nat>)
    requires EntryLines(sessionDir, entry, names, counts).Ok?
    ensures EntryLines(sessionDir, entry, names, counts).value != [] <==>
      IsScanKey(entry.key) && WellFormedScan(entry) && EntryMismatch(entry, names, counts)
  {
    EntryLinesOutcome(sessionDir, entry, names, counts);
  }

  /** A mismatch among the keys is one among all but the last, or one at the last. */
  lemma AnyMismatchSplit(entries: seq<Entry>, names: seq<string>, counts: map<string, nat>)
    requires |entries| > 0
    ensures var n := |entries|; var last := entries[n - 1];
      AnyMismatch(entries, names, counts) <==>
        AnyMismatch(entries[..n - 1], names, counts)
        || (IsScanKey(last.key) && WellFormedScan(last) && EntryMismatch(last, names, counts))
  {
    var n := |entries|;
    var init := entries[..n - 1];
    if AnyMismatch(entries, names, counts) {
      var i :| 0 <= i < n && IsScanKey(entries[i].key) && WellFormedScan(entries[i]) && EntryMismatch(entries[i], names, counts);
      if i < n - 1 {
        assert init[i] == entries[i];
      }
    }
    if AnyMismatch(init, names, counts) {
      var i :| 0 <= i < n - 1 && IsScanKey(init[i].key) && WellFormedScan(init[i]) && EntryMismatch(init[i], names, counts);
      assert init[i] == entries[i];
    }
  }

  /** The protocol produced message lines exactly when a scan type's count or a DICOM count is off. */
  lemma {:induction false} LinesIffMismatch(sessionDir: string, entries: seq<Entry>, names: seq<string>, counts: map<string, nat>)
    requires AllLines(sessionDir, entries, names, counts).Ok?
    ensures AllLines(sessionDir, entries, names, counts).value != [] <==> AnyMismatch(entries, names, counts)
    decreases |entries|
  {
    if |entries| > 0 {
      var n := |entries|;
      LinesIffMismatch(sessionDir, entries[..n - 1], names, counts);
      EntryLinesNonEmpty(sessionDir, entries[n - 1], names, counts);
      AnyMismatchSplit(entries, names, counts);
    }
  }

  /** The first error of the protocol walk is the walk's error. */
  lemma {:induction false} AllLinesErrorSticks(sessionDir: string, entries: seq<Entry>, k: nat, names: seq<string>, counts: map<string, nat>)
    requires k <= |entries| && AllLines(sessionDir, entries[..k], names, counts).Err?
    ensures AllLines(sessionDir, entries, names, counts).Err?
    ensures AllLines(sessionDir, entries, names, counts).error == AllLines(sessionDir, entries[..k], names, counts).error
    decreases |entries| - k
  {
    if k < |entries| {
      var n := |entries|;
      assert entries[..n - 1][..k] == entries[..k];
      AllLinesErrorSticks(sessionDir, entries[..n - 1], k, names, counts);
      AllLinesLastErr(sessionDir, entries, names, counts);
    } else {
      assert entries[..k] == entries;
    }
  }

  /** An error before the last key is the error of the whole walk. */
  lemma AllLinesLastErr(sessionDir: string, entries: seq<Entry>, names: seq<string>, counts: map<string, nat>)
    requires |entries| > 0 && AllLines(sessionDir, entries[..|entries| - 1], names, counts).Err?
    ensures AllLines(sessionDir, entries, names, counts) == AllLines(sessionDir, entries[..|entries| - 1], names, counts)
  {
  }

  /** The mail of lines 86-92: the project, the subject, the session, the recipients and the message file. */
  datatype Mail = Mail(project: Value, sub: string, ses: string, email: Value, messageFile: string, body: seq<string>)

  /**
   * What a run leaves: whether a mismatch was found, the lines it appended to the message
   * file, the mail it sent, and the message file afterwards (`None` when absent).
   */
  datatype Report = Report(warning: bool, lines: seq<string>, mail: Option<Mail>, messageFile: Option<seq<string>>)

  /** `protocol_options[key]`: the entry with that key, the first one when the keys repeat. */
  function Find(entries: seq<Entry>, key: string): (r: Result<Value>)
    ensures r.Ok? <==> exists i :: 0 <= i < |entries| && entries[i].key == key
    ensures r.Err? ==> r.error == KeyError(key)
    ensures r.Ok? ==> exists i :: 0 <= i < |entries| && entries[i] == Entry(key, r.value)
  {
    if |entries| == 0 then Err(KeyError(key))
    else if entries[0].key == key then Ok(entries[0].value)
    else
      var r := Find(entries[1..], key);
      assert forall i :: 0 <= i < |entries[1..]| ==> entries[1..][i] == entries[i + 1];
      assert entries[0].key != key;
      r
  }

  /** On a dict, looking a key up after `d[e.key] = e.value` gives `e.value` for that key and the old value for any other. */
  lemma {:induction false} FindPut(d: seq<Entry>, e: Entry, k: string)
    requires DistinctKeys(d)
    ensures Find(Put(d, e), k) == if k == e.key then Ok(e.value) else Find(d, k)
    decreases |d|
  {
    if |d| > 0 && d[0].key != e.key {
      assert Put(d, e)[1..] == Put(d[1..], e);
      FindPut(d[1..], e, k);
    }
  }

  /** Setting a key the dict lacks appends it. */
  lemma {:induction false} PutNew(d: seq<Entry>, e: Entry)
    requires DistinctKeys(d) && !HasKey(d, e.key)
    ensures Put(d, e) == d + [e]
    decreases |d|
  {
    if |d| > 0 {
      KeysOfCons(d);
      PutNew(d[1..], e);
      assert [d[0]] + (d[1..] + [e]) == d + [e];
    }
  }

  /** A key of the loaded protocol has the value of its last occurrence among the pairs. */
  lemma {:induction false} LoadedValue(pairs: seq<Entry>, i: nat)
    requires i < |pairs| && forall j :: i < j < |pairs| ==> pairs[j].key != pairs[i].key
    ensures Find(Loaded(pairs), pairs[i].key) == Ok(pairs[i].value)
    decreases |pairs|
  {
    var n := |pairs| - 1;
    FindPut(Loaded(pairs[..n]), pairs[n], pairs[i].key);
    if i < n {
      LoadedValue(pairs[..n], i);
    }
  }

  /** Pairs without a repeated key load as they are, in file order. */
  lemma {:induction false} LoadedWithoutRepeats(pairs: seq<Entry>)
    requires DistinctKeys(pairs)
    ensures Loaded(pairs) == pairs
    decreases |pairs|
  {
    if |pairs| > 0 {
      var n := |pairs| - 1;
      LoadedWithoutRepeats(pairs[..n]);
      assert !HasKey(pairs[..n], pairs[n].key);
      PutNew(pairs[..n], pairs[n]);
      assert pairs[..n] + [pairs[n]] == pairs;
    }
  }

  /** The path of line 31-32. */
  function MessagePath(workDir: string, sub: string, ses: string): string {
    Join(workDir, sub + "-" + ses + "-protocol_error.txt")
  }

  /**
   * `main(work_dir, bids_dir, sub, ses)` (lines 22-94): the checks, then the lines of every
   * scan type of the loaded protocol appended to the message file, which starts as `prior`;
   * when there is any line, the mail is sent with the project and recipients of the protocol
   * and the file is removed. The first failing step's exception is the run's.
   */
  function Check(setup: Setup, workDir: string, sub: string, ses: string, pairs: seq<Entry>,
                 names: seq<string>, counts: map<string, nat>, prior: Option<seq<string>>): (r: Result<Report>)
    ensures var entries := Loaded(pairs);
      var all := AllLines(Join(Join(workDir, sub), ses), entries, names, counts);
      r.Ok? <==>
        && Validate(setup).Ok? && all.Ok?
        && (AnyMismatch(entries, names, counts) ==> HasKey(entries, "project") && HasKey(entries, "email"))
    ensures Validate(setup).Err? ==> r == Err(Validate(setup).error)
    ensures var all := AllLines(Join(Join(workDir, sub), ses), Loaded(pairs), names, counts);
      Validate(setup).Ok? && all.Err? ==> r == Err(all.error)
    ensures var all := AllLines(Join(Join(workDir, sub), ses), Loaded(pairs), names, counts);
      (r.Err? && Validate(setup).Ok? && all.Ok? && AnyMismatch(Loaded(pairs), names, counts)) ==>
        r.error == (if !HasKey(Loaded(pairs), "project") then KeyError("project") else KeyError("email"))
    ensures r.Ok? ==>
      && AllLines(Join(Join(workDir, sub), ses), Loaded(pairs), names, counts) == Ok(r.value.lines)
      && (r.value.warning <==> AnyMismatch(Loaded(pairs), names, counts))
      && (r.value.warning <==> r.value.mail.Some?)
      && (r.value.warning ==> r.value.messageFile.None?)
      && (!r.value.warning ==> r.value.messageFile == prior && r.value.lines == [])
    ensures r.Ok? && r.value.warning ==>
      && Find(Loaded(pairs), "project").Ok? && Find(Loaded(pairs), "email").Ok?
      && r.value.mail.value.project == Find(Loaded(pairs), "project").value
      && r.value.mail.value.email == Find(Loaded(pairs), "email").value
      && r.value.mail.value.body == (if prior.Some? then prior.value else []) + r.value.lines
  {
    var _ :- Validate(setup);
    var entries := Loaded(pairs);
    var sessionDir := Join(Join(workDir, sub), ses);
    var lines :- AllLines(sessionDir, entries, names, counts);
    LinesIffMismatch(sessionDir, entries, names, counts);
    if lines != [] then
      var project :- Find(entries, "project");
      var email :- Find(entries, "email");
      var body := (if prior.Some? then prior.value else []) + lines;
      Ok(Report(true, lines, Some(Mail(project, sub, ses, email, MessagePath(workDir, sub, ses), body)), None))
    else Ok(Report(false, [], None, prior))
  }

  /** The scan loop of lines 74-83 for one scan type. */
  method DicomLoop(sessionDir: string, found: seq<string>, counts: map<string, nat>, required: int)
    returns (r: Result<seq<string>>)
    ensures r == DicomLines(sessionDir, found, counts, required)
  {
    var lines := [];
    for j := 0 to |found|
      invariant DicomLines(sessionDir, found[..j], counts, required).Ok?
      invariant DicomLines(sessionDir, found[..j], counts, required).value == lines
    {
      assert found[..j + 1][..j] == found[..j];
      var t := found[j];
      if t !in counts {
        DicomLinesErrorSticks(sessionDir, found, j + 1, counts, required);
        return Err(FileNotFoundError(DicomDir(sessionDir, t)));
      }
      if counts[t] != required {
        lines := lines + [DicomLine(counts[t], t, required)];
      }
    }
    assert found[..|found|] == found;
    return Ok(lines);
  }

  /** Lines 57-83 for one key of the protocol. */
  method CheckEntry(sessionDir: string, entry: Entry, names: seq<string>, counts: map<string, nat>)
    returns (r: Result<seq<string>>)
    ensures r == EntryLines(sessionDir, entry, names, counts)
  {
    if !IsScanKey(entry.key) {
      return Ok([]);
    }
    if entry.value.Str? {
      return Err(TypeError("string indices must be integers"));
    }
    if entry.value.num.None? {
      return Err(KeyError("num"));
    }
    if entry.value.dicoms.None? {
      return Err(KeyError("dicoms"));
    }
    var num := entry.value.num.value;
    var found := MatchingScans(entry.key, names);
    var lines := [];
    if |found| != num {
      lines := lines + [CountLine(|found|, entry.key, num)];
    }
    var dicomLines := DicomLoop(sessionDir, found, counts, entry.value.dicoms.value);
    if dicomLines.Err? {
      return Err(dicomLines.error);
    }
    assert EntryLines(sessionDir, entry, names, counts).Ok?;
    assert EntryLines(sessionDir, entry, names, counts).value == lines + dicomLines.value;
    return Ok(lines + dicomLines.value);
  }

  /** The loop of lines 56-83: the `warning` flag and the message lines built up over the protocol's keys. */
  method ProtocolLines(sessionDir: string, entries: seq<Entry>, names: seq<string>, counts: map<string, nat>)
    returns (r: Result<seq<string>>, warning: bool)
    ensures r == AllLines(sessionDir, entries, names, counts)
    ensures r.Ok? ==> (warning <==> r.value != [])
  {
    warning := false;
    var lines := [];
    for i := 0 to |entries|
      invariant AllLines(sessionDir, entries[..i], names, counts) == Ok(lines)
      invariant warning <==> lines != []
    {
      assert entries[..i + 1][..i] == entries[..i];
      var mine := CheckEntry(sessionDir, entries[i], names, counts);
      if mine.Err? {
        AllLinesErrorSticks(sessionDir, entries, i + 1, names, counts);
        return Err(mine.error), warning;
      }
      lines := lines + mine.value;
      warning := warning || mine.value != [];
    }
    assert entries[..|entries|] == entries;
    return Ok(lines), warning;
  }

  /** `main` (lines 22-94): the checks, the protocol loaded, its lines, then the mail. */
  method CheckProtocol(setup: Setup, workDir: string, sub: string, ses: string, pairs: seq<Entry>,
              names: seq<string>, counts: map<string, nat>, prior: Option<seq<string>>) returns (r: Result<Report>)
    ensures r == Check(setup, workDir, sub, ses, pairs, names, counts, prior)
  {
    var valid := Validate(setup);
    if valid.Err? {
      return Err(valid.error);
    }
    var entries := Loaded(pairs);
    var sessionDir := Join(Join(workDir, sub), ses);
    var lines, warning := ProtocolLines(sessionDir, entries, names, counts);
    if lines.Err? {
      return Err(lines.error);
    }
    if warning {
      var project := Find(entries, "project");
      if project.Err? {
        return Err(project.error);
      }
      var email := Find(entries, "email");
      if email.Err? {
        return Err(email.error);
      }
      var body := (if prior.Some? then prior.value else []) + lines.value;
      return Ok(Report(true, lines.value, Some(Mail(project.value, sub, ses, email.value, MessagePath(workDir, sub, ses), body)), None));
    }
    return Ok(Report(false, [], None, prior));
  }
}
