/** `clean_mriqc_csv.main`: the command-line twin of `utils.clean_csv`. */
module CleanMriqcCsv {
  import opened Base
  import opened Tables
  import opened Utils

  /**
   * `main(in_file)`: the same output path and the same NaN-to-0 table as `Utils.CleanCsv`, written
   * without the index and with pandas' default line terminator. No other file, the input
   * included, changes.
   */
  function CleanMain(disk: CsvDisk, inFile: string): (r: Result<CsvDisk>)
    ensures r.Err? <==> inFile !in disk
    ensures r.Ok? ==> r.value.Keys == disk.Keys + {CleanedPath(inFile)}
    ensures r.Ok? ==> r.value[inFile] == disk[inFile]
    ensures r.Ok? ==> forall p :: p in disk && p != CleanedPath(inFile) ==> r.value[p] == disk[p]
    ensures r.Ok? ==> var out := r.value[CleanedPath(inFile)];
      out.table == FillMissing(disk[inFile].table) && out.lineTerminator.None? && !out.withIndex
  {
    if inFile !in disk then Err(FileNotFoundError(inFile))
    else
      var outFile := CleanedPath(inFile);
      assert outFile != inFile;
      Ok(disk[outFile := CsvFile(FillMissing(disk[inFile].table), None, false)])
  }

  /** Both cleaners write the same table to the same place; only the line terminator differs. */
  lemma SameAsCleanCsv(disk: CsvDisk, inFile: string)
    requires inFile in disk
    ensures CleanMain(disk, inFile).Ok? && CleanCsv(disk, inFile).Ok?
    ensures CleanMain(disk, inFile).value.Keys == CleanCsv(disk, inFile).value.Keys
    ensures var p := CleanedPath(inFile);
      CleanMain(disk, inFile).value[p].table == CleanCsv(disk, inFile).value[p].table
  {
  }
}
