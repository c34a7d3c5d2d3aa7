/**
 * `mriqc.run_mriqc` and the version extraction of `mriqc.mriqc_group`: turning the MRIQC
 * section of a configuration into one participant-level run per anatomical modality and per
 * functional task that has images, each with its settings serialised as `--field value` flags.
 * The shell command around the flags and its execution are not modelled: a run is the
 * modality or task, the process count and the flag string.
 */
module Mriqc {
  import opened Base
  import opened Text
  import opened Posix

  // ---------------------------------------------------------------------------------------
  // Settings and the flag string (lines 47-55 and 92-100)

  /** A setting's value: a list of strings, or any other JSON value as `str` renders it. */
  datatype Value = Scalar(text: string) | List(items: seq<string>)

  /** One `field: value` pair of a settings dictionary; a dictionary is a sequence in key order. */
  datatype Setting = Setting(field: string, value: Value)

  /** Lines 50-53: a list is joined with single spaces, anything else is used as it is. */
  function Rendered(v: Value): string {
    match v
    case Scalar(t) => t
    case List(items) => JoinStrings(items, " ")
  }

  /** The flag of one setting, `--<field> <value>`. */
  function Flag(s: Setting): string {
    "--" + s.field + " " + Rendered(s.value)
  }

  /** The flags of all settings, in key order. */
  function Flags(settings: seq<Setting>): (r: seq<string>)
    ensures |r| == |settings|
    ensures forall k :: 0 <= k < |settings| ==> r[k] == Flag(settings[k])
  {
    if |settings| == 0 then [] else Flags(settings[..|settings| - 1]) + [Flag(settings[|settings| - 1])]
  }

  /** `kwarg_str` after the first `n` passes of the loop of lines 49-54. */
  function Accumulated(settings: seq<Setting>, n: nat): string
    requires n <= |settings|
  {
    if n == 0 then "" else Accumulated(settings, n - 1) + Flag(settings[n - 1]) + " "
  }

  /**
   * The flag string: the settings' flags in key order, separated by single spaces, without
   * trailing whitespace.
   */
  function KwargString(settings: seq<Setting>): string {
    RStrip(JoinStrings(Flags(settings), " "))
  }

  /**
   * Lines 47-55: `kwarg_str` grows by one flag and one space per setting, and line 55 strips
   * the trailing whitespace; the result is the flag string.
   */
  method BuildKwargs(settings: seq<Setting>) returns (kwargs: string)
    ensures kwargs == KwargString(settings)
  {
    kwargs := "";
    for i := 0 to |settings|
      invariant kwargs == Accumulated(settings, i)
    {
      var field := settings[i].field;
      var val := Rendered(settings[i].value);
      kwargs := kwargs + "--" + field + " " + val + " ";
    }
    if |settings| > 0 {
      AccumulatedIsJoin(settings, |settings|);
      assert settings[..|settings|] == settings;
      RStripSpace(JoinStrings(Flags(settings), " "));
    }
    kwargs := RStrip(kwargs);
  }

  /** `sep.join` of one more part. */
  lemma {:induction false} JoinSnoc(parts: seq<string>, x: string, sep: string)
    requires |parts| > 0
    ensures JoinStrings(parts + [x], sep) == JoinStrings(parts, sep) + sep + x
    decreases |parts|
  {
    if |parts| == 1 {
      assert (parts + [x])[1..] == [x];
    } else {
      assert (parts + [x])[1..] == parts[1..] + [x];
      JoinSnoc(parts[1..], x, sep);
    }
  }

  /** The accumulated string is the flags separated by single spaces, plus one trailing space. */
  lemma {:induction false} AccumulatedIsJoin(settings: seq<Setting>, n: nat)
    requires 0 < n <= |settings|
    ensures Accumulated(settings, n) == JoinStrings(Flags(settings[..n]), " ") + " "
    decreases n
  {
    if n == 1 {
      assert Flags(settings[..1]) == [Flag(settings[0])];
    } else {
      AccumulatedIsJoin(settings, n - 1);
      var fs := Flags(settings[..n - 1]);
      assert Flags(settings[..n]) == fs + [Flag(settings[n - 1])] by {
        assert settings[..n][..n - 1] == settings[..n - 1];
      }
      JoinSnoc(fs, Flag(settings[n - 1]), " ");
    }
  }

  /**
   * The flag string has no trailing whitespace, is empty when there are no settings, and is
   * exactly the flags joined by single spaces when the last value does not end in whitespace.
   */
  lemma KwargsAreJoinedFlags(settings: seq<Setting>)
    ensures var s := KwargString(settings); s == [] || !IsSpace(s[|s| - 1])
    ensures |settings| == 0 ==> KwargString(settings) == ""
    ensures |settings| > 0 && !IsSpace(Flag(settings[|settings| - 1])[|Flag(settings[|settings| - 1])| - 1]) ==>
      KwargString(settings) == JoinStrings(Flags(settings), " ")
  {
    RStripStrips(JoinStrings(Flags(settings), " "));
    if |settings| > 0 {
      var j := JoinStrings(Flags(settings), " ");
      var f := Flag(settings[|settings| - 1]);
      if !IsSpace(f[|f| - 1]) {
        JoinEndsWithLast(Flags(settings), " ");
        assert j[|j| - |f|..][|f| - 1] == j[|j| - 1];
        RStripKeeps(j);
      }
    }
  }

  /** Removing trailing whitespace ignores one more trailing space. */
  lemma RStripSpace(s: string)
    ensures RStrip(s + " ") == RStrip(s)
  {
    assert (s + " ")[..|s|] == s;
  }

  /** A string that does not end in whitespace is its own `rstrip()`. */
  lemma RStripKeeps(s: string)
    requires |s| > 0 && !IsSpace(s[|s| - 1])
    ensures RStrip(s) == s
  {
  }

  /** A join ends with its last part. */
  lemma {:induction false} JoinEndsWithLast(parts: seq<string>, sep: string)
    requires |parts| > 0
    ensures EndsWith(JoinStrings(parts, sep), parts[|parts| - 1])
    decreases |parts|
  {
    if |parts| > 1 {
      JoinEndsWithLast(parts[1..], sep);
      var rest := JoinStrings(parts[1..], sep);
      var last := parts[|parts| - 1];
      assert (parts[0] + sep + rest)[|parts[0] + sep + rest| - |last|..] == rest[|rest| - |last|..];
    }
  }

  // ---------------------------------------------------------------------------------------
  // The process count (lines 39-42, and 134-137 of `mriqc_group`)

  /** `mriqc_config['n_procs']`: a JSON number or a string. */
  datatype Count = Number(n: int) | CountText(s: string)

  /** One modality or task section: its name and its settings dictionary. */
  datatype Section = Section(name: string, settings: seq<Setting>)

  /** The keys of the MRIQC configuration that the runs read; `None` is an absent key. */
  datatype Config = Config(
    nProcs: Option<Count>,
    anat: Option<seq<Section>>,
    func: Option<seq<Section>>)

  /** `n_procs`: 1 when the key is absent, `int(value)` otherwise (a malformed string raises). */
  function NProcs(config: Config): (r: Result<int>)
    ensures config.nProcs.None? ==> r == Ok(1)
    ensures config.nProcs.Some? && config.nProcs.value.Number? ==> r == Ok(config.nProcs.value.n)
    ensures r.Err? <==> config.nProcs.Some? && config.nProcs.value.CountText? && ParseInt(config.nProcs.value.s).None?
    ensures r.Err? ==> r.error.ValueError?
  {
    match config.nProcs
    case None => Ok(1)
    case Some(Number(n)) => Ok(n)
    case Some(CountText(s)) =>
      match ParseInt(s)
      case None => Err(ValueError("invalid literal for int() with base 10"))
      case Some(n) => Ok(n)
  }

  /** A count written as a decimal string reads back as that count. */
  lemma NProcsFromText(config: Config, n: int)
    requires config.nProcs == Some(CountText(IntToString(n)))
    ensures NProcs(config) == Ok(n)
  {
    ParseIntToString(n);
  }

  // ---------------------------------------------------------------------------------------
  // Globbing (lines 77-86)

  predicate NoStar(s: string) {
    forall i :: 0 <= i < |s| ==> s[i] != '*'
  }

  /** `glob`'s match of a path against a pattern: `*` stands for any run of characters but `/`. */
  predicate WildMatch(p: string, s: string)
    decreases |p| + |s|
  {
    if |p| == 0 then |s| == 0
    else if p[0] == '*' then WildMatch(p[1..], s) || (|s| > 0 && s[0] != '/' && WildMatch(p, s[1..]))
    else |s| > 0 && s[0] == p[0] && WildMatch(p[1..], s[1..])
  }

  /** `glob(pattern)` over the files that exist, in listing order. */
  function Glob(pattern: string, files: seq<string>): seq<string> {
    if |files| == 0 then []
    else Glob(pattern, files[..|files| - 1]) + (if WildMatch(pattern, files[|files| - 1]) then [files[|files| - 1]] else [])
  }

  /** The glob finds exactly the existing files that match the pattern. */
  lemma {:induction false} GlobFinds(pattern: string, files: seq<string>)
    ensures forall f :: f in Glob(pattern, files) <==> f in files && WildMatch(pattern, f)
    decreases |files|
  {
    if |files| > 0 {
      var init := files[..|files| - 1];
      GlobFinds(pattern, init);
      assert forall f :: f in files <==> f in init || f == files[|files| - 1];
    }
  }

  /** The directory and name prefix of a subject's bold sidecars (lines 79 and 84). */
  function FuncPrefix(sub: string): string {
    "sub-" + sub + "/func/sub-" + sub + "_"
  }

  function SessionPrefix(sub: string, ses: string): string {
    "sub-" + sub + "/ses-" + ses + "/func/sub-" + sub + "_ses-" + ses + "_"
  }

  function TaskInfix(task: string): string {
    "_task-" + task + "_"
  }

  const BoldSuffix := "_bold.json"

  lemma BoldSuffixNoStar()
    ensures NoStar(BoldSuffix)
  {
  }

  /** Lines 77-80: the bold sidecars of a task for a subject, in any session layout. */
  function PlainPattern(bidsDir: string, sub: string, task: string): string {
    Join(bidsDir, FuncPrefix(sub) + "*" + TaskInfix(task) + "*" + BoldSuffix)
  }

  /** Lines 82-86: the bold sidecars of a task in one session of a subject. */
  function SessionPattern(bidsDir: string, sub: string, ses: string, task: string): string {
    Join(bidsDir, SessionPrefix(sub, ses) + "*" + TaskInfix(task) + "*" + BoldSuffix)
  }

  /** Lines 76-89: the glob whose result decides the run; a truthy session replaces the first. */
  function TaskPattern(bidsDir: string, sub: string, ses: Option<string>, task: string): string {
    if Truthy(ses) then SessionPattern(bidsDir, sub, ses.value, task) else PlainPattern(bidsDir, sub, task)
  }

  /** Lines 88-89: a task runs when its glob finds at least one file. */
  predicate TaskRuns(bidsDir: string, sub: string, ses: Option<string>, task: string, files: seq<string>) {
    |Glob(TaskPattern(bidsDir, sub, ses, task), files)| > 0
  }

  /** A task runs exactly when some existing file matches its pattern. */
  lemma TaskRunsIffFound(bidsDir: string, sub: string, ses: Option<string>, task: string, files: seq<string>)
    ensures TaskRuns(bidsDir, sub, ses, task, files) <==> exists f :: f in files && WildMatch(TaskPattern(bidsDir, sub, ses, task), f)
  {
    var found := Glob(TaskPattern(bidsDir, sub, ses, task), files);
    GlobFinds(TaskPattern(bidsDir, sub, ses, task), files);
    if |found| > 0 {
      assert found[0] in found;
    }
  }


  lemma NoStarConcat(a: string, b: string)
    requires NoStar(a) && NoStar(b)
    ensures NoStar(a + b)
  {
    forall i | 0 <= i < |a + b|
      ensures (a + b)[i] != '*'
    {
      if i >= |a| {
        assert (a + b)[i] == b[i - |a|];
      }
    }
  }

  /** A literal prefix matches itself. */
  lemma {:induction false} MatchLiteral(lit: string, p: string, s: string)
    requires NoStar(lit) && WildMatch(p, s)
    ensures WildMatch(lit + p, lit + s)
    decreases |lit|
  {
    if |lit| > 0 {
      assert NoStar(lit[1..]) by {
        forall i | 0 <= i < |lit[1..]| ensures lit[1..][i] != '*' {
          assert lit[1..][i] == lit[i + 1];
        }
      }
      MatchLiteral(lit[1..], p, s);
      assert (lit + p)[0] == lit[0] && (lit + s)[0] == lit[0] && lit[0] != '*';
      assert (lit + p)[1..] == lit[1..] + p;
      assert (lit + s)[1..] == lit[1..] + s;
    } else {
      assert lit + p == p && lit + s == s;
    }
  }

  /** `*` matches any run of characters without `/`. */
  lemma {:induction false} MatchStar(x: string, p: string, s: string)
    requires NoSlash(x) && WildMatch(p, s)
    ensures WildMatch("*" + p, x + s)
    decreases |x|
  {
    if |x| == 0 {
      assert ("*" + p)[1..] == p;
      assert x + s == s;
    } else {
      MatchStar(x[1..], p, s);
      assert (x + s)[1..] == x[1..] + s;
    }
  }

  lemma MatchSelf(lit: string)
    requires NoStar(lit)
    ensures WildMatch(lit, lit)
  {
    assert WildMatch("", "");
    MatchLiteral(lit, "", "");
    assert lit + "" == lit;
  }

  /** A match of `q + lit`, for a literal `lit`, ends with `lit`. */
  lemma {:induction false} MatchEndsWith(q: string, lit: string, s: string)
    requires NoStar(lit) && WildMatch(q + lit, s)
    ensures EndsWith(s, lit)
    decreases |q| + |s|
  {
    var p := q + lit;
    if |q| == 0 {
      assert p == lit;
      MatchIsLiteral(lit, s);
    } else if q[0] == '*' {
      assert p[1..] == q[1..] + lit;
      if WildMatch(q[1..] + lit, s) {
        MatchEndsWith(q[1..], lit, s);
      } else {
        MatchEndsWith(q, lit, s[1..]);
        assert s[1..][|s[1..]| - |lit|..] == s[|s| - |lit|..];
      }
    } else {
      assert p[1..] == q[1..] + lit;
      MatchEndsWith(q[1..], lit, s[1..]);
      assert s[1..][|s[1..]| - |lit|..] == s[|s| - |lit|..];
    }
  }

  /** A pattern without `*` matches only itself. */
  lemma {:induction false} MatchIsLiteral(lit: string, s: string)
    requires NoStar(lit) && WildMatch(lit, s)
    ensures s == lit
    decreases |lit|
  {
    if |lit| > 0 {
      MatchIsLiteral(lit[1..], s[1..]);
      assert s == [s[0]] + s[1..];
    }
  }

  /** A literal, a wildcard and a pattern match the literal, a run without `/` and a match. */
  lemma MatchLiteralStar(lit: string, x: string, p: string, s: string)
    requires NoStar(lit) && NoSlash(x) && WildMatch(p, s)
    ensures WildMatch(lit + "*" + p, lit + x + s)
  {
    MatchStar(x, p, s);
    MatchLiteral(lit, "*" + p, x + s);
    assert lit + ("*" + p) == lit + "*" + p;
    assert lit + (x + s) == lit + x + s;
  }

  /** A pattern with two wildcards finds every path that fills them without `/`. */
  lemma TwoStarsFind(a: string, b: string, c: string, x: string, y: string)
    requires NoStar(a) && NoStar(b) && NoStar(c)
    requires NoSlash(x) && NoSlash(y)
    ensures WildMatch(a + "*" + b + "*" + c, a + x + b + y + c)
  {
    MatchSelf(c);
    MatchLiteralStar(b, y, c, c);
    MatchLiteralStar(a, x, b + "*" + c, b + y + c);
    assert a + "*" + (b + "*" + c) == a + "*" + b + "*" + c;
    assert a + x + (b + y + c) == a + x + b + y + c;
  }

  lemma NoStarPieces(sub: string, ses: string, task: string)
    requires NoStar(sub) && NoStar(ses) && NoStar(task)
    ensures NoStar(FuncPrefix(sub)) && NoStar(SessionPrefix(sub, ses)) && NoStar(TaskInfix(task)) && NoStar(BoldSuffix)
  {
    NoStarConcat("sub-", sub);
    NoStarConcat("sub-" + sub, "/func/sub-");
    NoStarConcat("sub-" + sub + "/func/sub-", sub);
    NoStarConcat("sub-" + sub + "/func/sub-" + sub, "_");
    NoStarConcat("sub-" + sub, "/ses-");
    NoStarConcat("sub-" + sub + "/ses-", ses);
    NoStarConcat("sub-" + sub + "/ses-" + ses, "/func/sub-");
    NoStarConcat("sub-" + sub + "/ses-" + ses + "/func/sub-", sub);
    NoStarConcat("sub-" + sub + "/ses-" + ses + "/func/sub-" + sub, "_ses-");
    NoStarConcat("sub-" + sub + "/ses-" + ses + "/func/sub-" + sub + "_ses-", ses);
    NoStarConcat("sub-" + sub + "/ses-" + ses + "/func/sub-" + sub + "_ses-" + ses, "_");
    NoStarConcat("_task-", task);
    NoStarConcat("_task-" + task, "_");
    BoldSuffixNoStar();
  }

  /**
   * Lines 77-80: a bold sidecar of a task under the subject's `func` directory, whatever
   * stands for the two wildcards, is found by the plain glob.
   */
  lemma PlainFileFound(bidsDir: string, sub: string, task: string, x: string, y: string)
    requires NoStar(bidsDir) && NoStar(sub) && NoStar(task)
    requires NoSlash(x) && NoSlash(y)
    ensures WildMatch(PlainPattern(bidsDir, sub, task), Join(bidsDir, FuncPrefix(sub) + x + TaskInfix(task) + y + BoldSuffix))
  {
    NoStarPieces(sub, "", task);
    TwoStarsFind(FuncPrefix(sub), TaskInfix(task), BoldSuffix, x, y);
    JoinMatch(bidsDir, FuncPrefix(sub) + "*" + TaskInfix(task) + "*" + BoldSuffix, FuncPrefix(sub) + x + TaskInfix(task) + y + BoldSuffix);
  }

  /** Lines 82-86: a bold sidecar of a task in the session's `func` directory is found. */
  lemma SessionFileFound(bidsDir: string, sub: string, ses: string, task: string, x: string, y: string)
    requires NoStar(bidsDir) && NoStar(sub) && NoStar(ses) && NoStar(task)
    requires NoSlash(x) && NoSlash(y)
    ensures WildMatch(SessionPattern(bidsDir, sub, ses, task), Join(bidsDir, SessionPrefix(sub, ses) + x + TaskInfix(task) + y + BoldSuffix))
  {
    NoStarPieces(sub, ses, task);
    TwoStarsFind(SessionPrefix(sub, ses), TaskInfix(task), BoldSuffix, x, y);
    JoinMatch(bidsDir, SessionPrefix(sub, ses) + "*" + TaskInfix(task) + "*" + BoldSuffix, SessionPrefix(sub, ses) + x + TaskInfix(task) + y + BoldSuffix);
  }

  /** Joining the same directory in front of a pattern and a path keeps the match. */
  lemma JoinMatch(d: string, p: string, s: string)
    requires NoStar(d) && WildMatch(p, s)
    requires |p| > 0 && |s| > 0 && p[0] == 's' && s[0] == 's'
    ensures WildMatch(Join(d, p), Join(d, s))
  {
    assert !StartsWith(p, "/") && !StartsWith(s, "/");
    if d == "" || EndsWith(d, "/") {
      MatchLiteral(d, p, s);
    } else {
      assert NoStar(d + "/");
      MatchLiteral(d + "/", p, s);
    }
  }

  /** A path joined under a directory keeps the path's suffix. */
  lemma JoinEndsWith(d: string, r: string, c: string)
    requires EndsWith(r, c)
    ensures EndsWith(Join(d, r), c)
  {
    var j := Join(d, r);
    if !StartsWith(r, "/") {
      assert j[|j| - |c|..] == r[|r| - |c|..];
    }
  }

  /** A match of a pattern that ends with a literal ends with that literal. */
  lemma MatchKeepsSuffix(p: string, c: string, f: string)
    requires NoStar(c) && EndsWith(p, c) && WildMatch(p, f)
    ensures EndsWith(f, c)
  {
    assert p == p[..|p| - |c|] + c;
    MatchEndsWith(p[..|p| - |c|], c, f);
  }

  lemma EndsWithConcat(r: string, c: string)
    ensures EndsWith(r + c, c)
  {
    assert (r + c)[|r + c| - |c|..] == c;
  }

  /** Every file that makes a task run is a bold sidecar (`_bold.json`). */
  lemma CountedFilesAreBoldSidecars(bidsDir: string, sub: string, ses: Option<string>, task: string, f: string)
    requires WildMatch(TaskPattern(bidsDir, sub, ses, task), f)
    ensures EndsWith(f, BoldSuffix)
  {
    var r := if Truthy(ses) then SessionPrefix(sub, ses.value) + "*" + TaskInfix(task) + "*"
      else FuncPrefix(sub) + "*" + TaskInfix(task) + "*";
    EndsWithConcat(r, BoldSuffix);
    JoinEndsWith(bidsDir, r + BoldSuffix, BoldSuffix);
    BoldSuffixNoStar();
    MatchKeepsSuffix(TaskPattern(bidsDir, sub, ses, task), BoldSuffix, f);
  }

  // ---------------------------------------------------------------------------------------
  // The runs (lines 15-116)

  /** One participant-level MRIQC run: an anatomical modality or a functional task. */
  datatype Run =
    | AnatRun(modality: string, nProcs: int, kwargs: string)
    | FuncRun(task: string, nProcs: int, kwargs: string)

  /** The commands issued, and the exception that stopped `run_mriqc`, if any. */
  datatype Outcome = Outcome(runs: seq<Run>, error: Option<Error>)

  /** Lines 46-71: one run per modality of the first `n` anatomical sections, in key order. */
  function AnatRuns(sections: seq<Section>, nProcs: int, n: nat): seq<Run>
    requires n <= |sections|
  {
    if n == 0 then []
    else AnatRuns(sections, nProcs, n - 1) + [AnatRun(sections[n - 1].name, nProcs, KwargString(sections[n - 1].settings))]
  }

  /** Whether each functional task has images (lines 76-89), section by section. */
  function Gates(bidsDir: string, sub: string, ses: Option<string>, sections: seq<Section>, files: seq<string>): (g: seq<bool>)
    ensures |g| == |sections|
  {
    seq(|sections|, k requires 0 <= k < |sections| => TaskRuns(bidsDir, sub, ses, sections[k].name, files))
  }

  /** Lines 75-116: one run per task of the first `n` functional sections whose gate is open. */
  function FuncRuns(sections: seq<Section>, nProcs: int, gates: seq<bool>, n: nat): seq<Run>
    requires n <= |sections| == |gates|
  {
    if n == 0 then []
    else
      var s := sections[n - 1];
      FuncRuns(sections, nProcs, gates, n - 1) + (if gates[n - 1] then [FuncRun(s.name, nProcs, KwargString(s.settings))] else [])
  }

  /**
   * `run_mriqc(bids_dir, ..., mriqc_config, sub, ses)`, with `files` the files that exist.
   * A malformed `n_procs` stops it before any run, a missing `anat` key too, and a missing
   * `func` key after the anatomical runs.
   */
  function RunMriqcSpec(config: Config, bidsDir: string, sub: string, ses: Option<string>, files: seq<string>): Outcome {
    match NProcs(config)
    case Err(e) => Outcome([], Some(e))
    case Ok(nProcs) =>
      if config.anat.None? then Outcome([], Some(KeyError("anat")))
      else
        var anat := AnatRuns(config.anat.value, nProcs, |config.anat.value|);
        if config.func.None? then Outcome(anat, Some(KeyError("func")))
        else
          var sections := config.func.value;
          Outcome(anat + FuncRuns(sections, nProcs, Gates(bidsDir, sub, ses, sections, files), |sections|), None)
  }

  /** Lines 76-89: whether a task's glob finds anything, the session glob replacing the plain one. */
  method FindsImages(bidsDir: string, sub: string, ses: Option<string>, task: string, files: seq<string>) returns (run: bool)
    ensures run == TaskRuns(bidsDir, sub, ses, task, files)
  {
    run := false;
    var taskJsonFiles := Glob(PlainPattern(bidsDir, sub, task), files);
    if Truthy(ses) {
      taskJsonFiles := Glob(SessionPattern(bidsDir, sub, ses.value, task), files);
    }
    if |taskJsonFiles| > 0 {
      run := true;
    }
  }

  /** Lines 45-71: a run per anatomical modality, each with its flag string. */
  method RunAnat(anatConfig: seq<Section>, nProcs: int) returns (runs: seq<Run>)
    ensures runs == AnatRuns(anatConfig, nProcs, |anatConfig|)
  {
    runs := [];
    for i := 0 to |anatConfig|
      invariant runs == AnatRuns(anatConfig, nProcs, i)
    {
      var kwargs := BuildKwargs(anatConfig[i].settings);
      runs := runs + [AnatRun(anatConfig[i].name, nProcs, kwargs)];
    }
  }

  /** Lines 74-116: a run per functional task whose glob finds images, each with its flags. */
  method RunFunc(funcConfig: seq<Section>, nProcs: int, bidsDir: string, sub: string, ses: Option<string>, files: seq<string>)
    returns (runs: seq<Run>)
    ensures runs == FuncRuns(funcConfig, nProcs, Gates(bidsDir, sub, ses, funcConfig, files), |funcConfig|)
  {
    runs := [];
    ghost var gates := Gates(bidsDir, sub, ses, funcConfig, files);
    for i := 0 to |funcConfig|
      invariant runs == FuncRuns(funcConfig, nProcs, gates, i)
    {
      var more := RunTask(funcConfig, i, nProcs, bidsDir, sub, ses, files);
      runs := runs + more;
    }
  }

  /** Lines 76-116 for the `i`-th task: its run, when its glob finds images. */
  method RunTask(funcConfig: seq<Section>, i: nat, nProcs: int, bidsDir: string, sub: string, ses: Option<string>,
                 files: seq<string>) returns (runs: seq<Run>)
    requires i < |funcConfig|
    ensures var gates := Gates(bidsDir, sub, ses, funcConfig, files);
      FuncRuns(funcConfig, nProcs, gates, i) + runs == FuncRuns(funcConfig, nProcs, gates, i + 1)
  {
    var task := funcConfig[i].name;
    var run := FindsImages(bidsDir, sub, ses, task, files);
    assert run == Gates(bidsDir, sub, ses, funcConfig, files)[i];
    runs := [];
    if run {
      var kwargs := BuildKwargs(funcConfig[i].settings);
      runs := [FuncRun(task, nProcs, kwargs)];
    }
  }

  /** Lines 38-116: the anatomical runs, then the functional runs whose task has images. */
  method RunMriqc(config: Config, bidsDir: string, sub: string, ses: Option<string>, files: seq<string>) returns (o: Outcome)
    ensures o == RunMriqcSpec(config, bidsDir, sub, ses, files)
  {
    var nProcs := 1;
    if config.nProcs.Some? {
      var n := NProcs(config);
      if n.Err? {
        return Outcome([], Some(n.error));
      }
      nProcs := n.value;
    }
    if config.anat.None? {
      return Outcome([], Some(KeyError("anat")));
    }
    var runs := RunAnat(config.anat.value, nProcs);
    if config.func.None? {
      return Outcome(runs, Some(KeyError("func")));
    }
    var funcRuns := RunFunc(config.func.value, nProcs, bidsDir, sub, ses, files);
    return Outcome(runs + funcRuns, None);
  }

  /** Lines 46-71: the anatomical runs are one per modality, in key order, with its flags. */
  lemma {:induction false} AnatRunsEach(sections: seq<Section>, nProcs: int, n: nat)
    requires n <= |sections|
    ensures |AnatRuns(sections, nProcs, n)| == n
    ensures forall k :: 0 <= k < n ==>
      AnatRuns(sections, nProcs, n)[k] == AnatRun(sections[k].name, nProcs, KwargString(sections[k].settings))
    decreases n
  {
    if n > 0 {
      AnatRunsEach(sections, nProcs, n - 1);
    }
  }

  /** Lines 75-116: a task is run, with its own flags, exactly when its gate is open. */
  lemma {:induction false} FuncRunsExactly(sections: seq<Section>, nProcs: int, gates: seq<bool>, n: nat)
    requires n <= |sections| == |gates|
    ensures forall k :: 0 <= k < n && gates[k] ==>
      FuncRun(sections[k].name, nProcs, KwargString(sections[k].settings)) in FuncRuns(sections, nProcs, gates, n)
    ensures forall r :: r in FuncRuns(sections, nProcs, gates, n) ==>
      exists k :: 0 <= k < n && gates[k] && r == FuncRun(sections[k].name, nProcs, KwargString(sections[k].settings))
    decreases n
  {
    if n > 0 {
      FuncRunsExactly(sections, nProcs, gates, n - 1);
      var prev := FuncRuns(sections, nProcs, gates, n - 1);
      var s := sections[n - 1];
      var last := FuncRun(s.name, nProcs, KwargString(s.settings));
      var tail := if gates[n - 1] then [last] else [];
      var all := FuncRuns(sections, nProcs, gates, n);
      assert all == prev + tail;
      forall k | 0 <= k < n && gates[k]
        ensures FuncRun(sections[k].name, nProcs, KwargString(sections[k].settings)) in all
      {
        var run := FuncRun(sections[k].name, nProcs, KwargString(sections[k].settings));
        if k < n - 1 {
          assert run in prev;
        } else {
          assert run == last && tail == [last];
        }
        assert run in prev + tail;
      }
      forall r | r in all
        ensures exists k :: 0 <= k < n && gates[k] && r == FuncRun(sections[k].name, nProcs, KwargString(sections[k].settings))
      {
        if r !in prev {
          assert r in tail;
          assert gates[n - 1] && r == FuncRun(sections[n - 1].name, nProcs, KwargString(sections[n - 1].settings));
        }
      }
    }
  }

  /**
   * Lines 73-116: when `run_mriqc` completes, each task of every functional section whose glob
   * finds an image has a run with the section's flags.
   */
  lemma FuncRunWhenImages(config: Config, bidsDir: string, sub: string, ses: Option<string>, files: seq<string>, k: nat)
    requires RunMriqcSpec(config, bidsDir, sub, ses, files).error.None?
    requires config.func.Some? && k < |config.func.value|
    requires TaskRuns(bidsDir, sub, ses, config.func.value[k].name, files)
    ensures NProcs(config).Ok?
    ensures var s := config.func.value[k];
      FuncRun(s.name, NProcs(config).value, KwargString(s.settings)) in RunMriqcSpec(config, bidsDir, sub, ses, files).runs
  {
    var sections := config.func.value;
    var gates := Gates(bidsDir, sub, ses, sections, files);
    FuncRunsExactly(sections, NProcs(config).value, gates, |sections|);
    assert gates[k];
  }

  /**
   * Lines 73-116: every functional run of a completed `run_mriqc` is the run of a section whose
   * glob finds an image, with that section's flags.
   */
  lemma FuncRunOnlyWithImages(config: Config, bidsDir: string, sub: string, ses: Option<string>, files: seq<string>, r: Run)
    requires RunMriqcSpec(config, bidsDir, sub, ses, files).error.None?
    requires r in RunMriqcSpec(config, bidsDir, sub, ses, files).runs && r.FuncRun?
    ensures NProcs(config).Ok? && config.func.Some?
    ensures exists k :: (0 <= k < |config.func.value| && TaskRuns(bidsDir, sub, ses, config.func.value[k].name, files)
      && r == FuncRun(config.func.value[k].name, NProcs(config).value, KwargString(config.func.value[k].settings)))
  {
    var nProcs := NProcs(config).value;
    var anatSections, sections := config.anat.value, config.func.value;
    var anat := AnatRuns(anatSections, nProcs, |anatSections|);
    var gates := Gates(bidsDir, sub, ses, sections, files);
    AnatRunsEach(anatSections, nProcs, |anatSections|);
    assert r !in anat;
    FuncRunsExactly(sections, nProcs, gates, |sections|);
    var k :| 0 <= k < |sections| && gates[k] && r == FuncRun(sections[k].name, nProcs, KwargString(sections[k].settings));
    assert TaskRuns(bidsDir, sub, ses, sections[k].name, files);
  }

  // ---------------------------------------------------------------------------------------
  // The MRIQC version (line 148 of `mriqc_group`)

  /** Line 146: the directory the image names of the configuration are relative to. */
  const ImagesDir := "/home/data/cis/singularity-images/"

  /** The characters of `[\d.]`. */
  predicate VersionChar(c: char) {
    IsDigit(c) || c == '.'
  }

  /** The pattern `_([\d.]+)` can start matching at `j`. */
  predicate MatchStart(s: string, j: int) {
    0 <= j && j + 1 < |s| && s[j] == '_' && VersionChar(s[j + 1])
  }

  /** The first match start at or after `i`, as `re.search` scans. */
  function FindFrom(s: string, i: nat): (r: Option<nat>)
    requires i <= |s|
    ensures r.Some? ==> i <= r.value && MatchStart(s, r.value)
    ensures forall j :: i <= j && (r.None? || j < r.value) ==> !MatchStart(s, j)
    decreases |s| - i
  {
    if i == |s| then None
    else if MatchStart(s, i) then Some(i)
    else FindFrom(s, i + 1)
  }

  /** The length of the run of `[\d.]` characters starting at `i`, as the greedy `+` takes it. */
  function RunLength(s: string, i: nat): (r: nat)
    requires i <= |s|
    ensures i + r <= |s|
    ensures forall k :: i <= k < i + r ==> VersionChar(s[k])
    ensures i + r == |s| || !VersionChar(s[i + r])
    decreases |s| - i
  {
    if i == |s| || !VersionChar(s[i]) then 0 else 1 + RunLength(s, i + 1)
  }

  /**
   * `re.search(r'_([\d.]+)', path).group(1)`: the longest run of digits and dots after the
   * first `_` that is followed by one; without a match, `None.group` raises.
   */
  function Version(path: string): (r: Result<string>)
    ensures r.Err? <==> forall j :: 0 <= j < |path| ==> !MatchStart(path, j)
    ensures r.Err? ==> r.error.AttributeError?
    ensures r.Ok? ==> exists i :: (MatchStart(path, i) && (forall j :: 0 <= j < i ==> !MatchStart(path, j))
      && |r.value| > 0 && i + 1 + |r.value| <= |path| && r.value == path[i + 1..i + 1 + |r.value|]
      && (forall k :: 0 <= k < |r.value| ==> VersionChar(r.value[k]))
      && (i + 1 + |r.value| == |path| || !VersionChar(path[i + 1 + |r.value|])))
  {
    match FindFrom(path, 0)
    case None => Err(AttributeError("'NoneType' object has no attribute 'group'"))
    case Some(i) =>
      var n := RunLength(path, i + 1);
      assert path[i + 1..i + 1 + n][0] == path[i + 1];
      Ok(path[i + 1..i + 1 + n])
  }

  /**
   * The image path is the configured name under `ImagesDir`, which holds no `_`: the version
   * of a name such as `poldracklab_mriqc_0.15.1-2019.simg` is `0.15.1`.
   */
  lemma VersionOfImage(pre: string, v: string, rest: string)
    requires !StartsWith(pre + "_" + v + rest, "/")
    requires forall j :: 0 <= j < |pre| && pre[j] == '_' ==> j + 1 < |pre| && !VersionChar(pre[j + 1])
    requires |v| > 0 && forall k :: 0 <= k < |v| ==> VersionChar(v[k])
    requires rest == [] || !VersionChar(rest[0])
    ensures Version(Join(ImagesDir, pre + "_" + v + rest)) == Ok(v)
  {
    var name := pre + "_" + v + rest;
    ImagePath(name);
    var path := ImagesDir + name;
    var at := |ImagesDir| + |pre|;
    NoMatchBeforeVersion(pre, v, rest);
    assert path[at] == '_' && path[at + 1] == v[0];
    assert path[at + 1..at + 1 + |v|] == v;
    VersionAt(path, at, v);
  }

  /** A relative name is put under the images directory by plain concatenation. */
  lemma ImagePath(name: string)
    requires !StartsWith(name, "/")
    ensures Join(ImagesDir, name) == ImagesDir + name
  {
    assert EndsWith(ImagesDir, "/");
  }

  /** No `_` of the image directory or of `pre` starts a match. */
  lemma NoMatchBeforeVersion(pre: string, v: string, rest: string)
    requires forall j :: 0 <= j < |pre| && pre[j] == '_' ==> j + 1 < |pre| && !VersionChar(pre[j + 1])
    ensures forall j :: 0 <= j < |ImagesDir| + |pre| ==> !MatchStart(ImagesDir + pre + "_" + v + rest, j)
  {
    var path := ImagesDir + pre + "_" + v + rest;
    var at := |ImagesDir| + |pre|;
    forall j | 0 <= j < at
      ensures !MatchStart(path, j)
    {
      if j < |ImagesDir| {
        assert path[j] == ImagesDir[j];
      } else {
        assert path[j] == pre[j - |ImagesDir|];
        if path[j] == '_' && j + 1 < at {
          assert path[j + 1] == pre[j + 1 - |ImagesDir|];
        }
      }
    }
  }

  /** The first match starting at `at`, followed by a run of `n` version characters, gives that run. */
  lemma VersionAt(path: string, at: nat, v: string)
    requires MatchStart(path, at) && forall j :: 0 <= j < at ==> !MatchStart(path, j)
    requires at + 1 + |v| <= |path| && path[at + 1..at + 1 + |v|] == v
    requires forall k :: 0 <= k < |v| ==> VersionChar(v[k])
    requires at + 1 + |v| == |path| || !VersionChar(path[at + 1 + |v|])
    ensures Version(path) == Ok(v)
  {
    FindFromSkips(path, 0, at);
    forall k | at + 1 <= k < at + 1 + |v|
      ensures VersionChar(path[k])
    {
      assert path[k] == v[k - at - 1];
    }
    RunLengthOf(path, at + 1, |v|);
  }

  /** The scan passes over positions where no match starts. */
  lemma {:induction false} FindFromSkips(s: string, i: nat, at: nat)
    requires i <= at && MatchStart(s, at)
    requires forall j :: i <= j < at ==> !MatchStart(s, j)
    ensures FindFrom(s, i) == Some(at)
    decreases at - i
  {
    if i < at {
      FindFromSkips(s, i + 1, at);
    }
  }

  /** The greedy run stops where the characters of `[\d.]` stop. */
  lemma {:induction false} RunLengthOf(s: string, i: nat, n: nat)
    requires i + n <= |s|
    requires forall k :: i <= k < i + n ==> VersionChar(s[k])
    requires i + n == |s| || !VersionChar(s[i + n])
    ensures RunLength(s, i) == n
    decreases n
  {
    if n > 0 {
      RunLengthOf(s, i + 1, n - 1);
    }
  }
}
