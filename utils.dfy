/** `utils.clean_csv`: write a copy of a CSV file with every missing value replaced by 0. */
module Utils {
  import opened Base
  import opened Text
  import opened Posix
  import opened Tables

  /**
   * A CSV file on disk, as the table pandas reads from it and the options it was written with
   * (`None` line terminator: the platform default; `withIndex`: whether the index was written).
   */
  datatype CsvFile = CsvFile(table: Table, lineTerminator: Option<string>, withIndex: bool)

  type CsvDisk = map<string, CsvFile>

  /** The output path of the cleaner: `<stem>_cleaned<ext>` next to the input; never the input path. */
  function CleanedPath(inFile: string): (outFile: string)
    ensures outFile != inFile
  {
    var (stem, ext) := SplitExt(Basename(inFile));
    var name := stem + "_cleaned" + ext;
    BasenameNoSlash(inFile);
    SplitExtNoSlash(Basename(inFile));
    SplitExtRoundTrip(Basename(inFile));
    assert NoSlash(name);
    JoinDirname(inFile, name);
    JoinBasename(Dirname(inFile), name);
    Join(Dirname(inFile), name)
  }

  /**
   * The cleaned file lies in the input's directory, and its name is the input's name with
   * `_cleaned` inserted before the input's last extension.
   */
  lemma CleanedPathPlacement(inFile: string)
    ensures Dirname(CleanedPath(inFile)) == Dirname(inFile)
    ensures var (stem, ext) := SplitExt(Basename(inFile));
      Basename(CleanedPath(inFile)) == stem + "_cleaned" + ext && Basename(inFile) == stem + ext
  {
    var (stem, ext) := SplitExt(Basename(inFile));
    var name := stem + "_cleaned" + ext;
    BasenameNoSlash(inFile);
    SplitExtNoSlash(Basename(inFile));
    SplitExtRoundTrip(Basename(inFile));
    assert NoSlash(name);
    JoinDirname(inFile, name);
    JoinBasename(Dirname(inFile), name);
  }

  /**
   * `clean_csv(in_file)`: reads the table (a missing file raises), and writes it with missing
   * cells set to 0, `\n` line endings and no index, to `CleanedPath(in_file)`. The input file and
   * every other file are left as they were.
   */
  function CleanCsv(disk: CsvDisk, inFile: string): (r: Result<CsvDisk>)
    ensures r.Err? <==> inFile !in disk
    ensures r.Ok? ==> r.value.Keys == disk.Keys + {CleanedPath(inFile)}
    ensures r.Ok? ==> r.value[inFile] == disk[inFile]
    ensures r.Ok? ==> forall p :: p in disk && p != CleanedPath(inFile) ==> r.value[p] == disk[p]
    ensures r.Ok? ==> var out := r.value[CleanedPath(inFile)];
      out.table == FillMissing(disk[inFile].table) && out.lineTerminator == Some("\n") && !out.withIndex
  {
    if inFile !in disk then Err(FileNotFoundError(inFile))
    else
      var outFile := CleanedPath(inFile);
      assert outFile != inFile;
      Ok(disk[outFile := CsvFile(FillMissing(disk[inFile].table), Some("\n"), false)])
  }
}
