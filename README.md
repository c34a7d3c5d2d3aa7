# cis-processing decision logic, modelled in Dafny

This project models the deterministic decision logic of the FIU CIS neuroimaging pipeline
(`fiuneuro/cis-processing`). Everything around that logic runs shell commands and is not
modelled. The logic is stated over abstract inputs:

- sidecars are string-keyed JSON maps;
- tables are column lists with rows mapping a column to a cell, where a missing cell is `None`;
- directory listings, image shapes and BIDS file indexes are given as values;
- the filesystem is a map from path to content.

The modelled parts are:

- **Field-map association and sidecar completion** (`bidsifier/complete_jsons.py`, modules
  `FieldMaps`, `Readout` and `CompleteJsons`).
  - Sidecars are keyed by `SeriesNumber`.
  - Each functional or diffusion scan is attached to the field map with the greatest series
    number not above its own, falling back to the earliest field map.
  - The target lists are written into `IntendedFor` under the overwrite policy.
  - `TotalReadoutTime` is computed as `EffectiveEchoSpacing * (floor(npe / acc) - 1)`.
  - `TaskName` is set for functional scans.
- **Dataset merge** (`dataset.py`, module `Dataset` over `Tables`).
  - Boilerplate files are copied only when absent.
  - Participant rows are deduplicated against the target's row 0.
  - The subject or session tree is copied only when absent.
  - The scans table is annotated and appended to the project's master scans table.
- **Series classification heuristics** (`heuristics/*.py`, modules `Heuristics`, `AbcdNdar`,
  `SutherlandAce`, `DickAhead` and `MattfeldRtv`).
  - `create_key` validates its template.
  - `infotodict` files each series under at most one key by first-matching rule.
  - It is modelled as a per-series rule folded over the series list (`Heuristics.Filed`).
- **Protocol compliance check** (`protocol_check.py`, module `ProtocolCheck`).
- **Metadata whitelist filter** (`bidsifier/clean_metadata.py`, module `CleanMetadata`).
- **Acquisition-time anonymisation** (`anon_acqtimes.py`, module `AnonAcqtimes`).
- **MRIQC flag strings, task gating and version extraction** (`mriqc.py`, module `Mriqc`).
- **CSV missing-value cleaner** (`utils.py` and `clean_mriqc_csv.py`, modules `Utils` and
  `CleanMriqcCsv`).

Shared modules:

- `Base`: `Option`/`Result` and the Python exception kinds.
- `Text`: string helpers, `int()` parsing and sorting.
- `Posix`: `posixpath` `basename`/`dirname`/`join`/`splitext`.
- `Bids`: JSON values, `BIDSLayout` queries and `get_metadata`.
- `Tables`: the pandas operations used.

Where the source loops, the model has a `method` with a loop. Each such method is proved equal to
a specification function, and the properties are proved about that function. Exceptions are
`Err` results carrying the Python exception kind.

## Model

| member | source | states |
|---|---|---|
| Heuristics.CreateKey | heuristics/ABCD_NDAR.py:6-9 | fails with ValueError exactly when the template is None or empty; otherwise returns the template, output type and annotation classes unchanged |
| Heuristics.Apply | heuristics/ABCD_NDAR.py:53-94 | filing a series changes at most the one list it is filed under; every key stays present |
| Heuristics.FileNext | heuristics/ABCD_NDAR.py:53-94 | one loop step of `infotodict` yields the filing state after one more series |
| Heuristics.FiledErrorSticks | heuristics/ABCD_NDAR.py:83-84 | once a series raises, `infotodict` raises that same error whatever follows |
| Heuristics.FiledKeepsKeys | heuristics/ABCD_NDAR.py:50-51 | every key of the initial dictionary is still present at the end |
| Heuristics.AtMostOneEntryPerSeries | heuristics/ABCD_NDAR.py:53-94 | the lists hold at most one entry per series walked, over the initial size |
| Heuristics.AppendedInOrder | heuristics/ABCD_NDAR.py:59-92 | a key that is never replaced ends with the entries filed under it, in series order |
| Heuristics.ReplacedHoldsLatest | heuristics/ABCD_NDAR.py:55-58 | a key that is only replaced ends with just the latest entry filed under it, or empty |
| Heuristics.Direction | heuristics/ABCD_NDAR.py:78-84 | succeeds exactly when the description ends with `DistortionMap_<d>` for an allowed direction d and returns such a d; otherwise ValueError |
| AbcdNdar.Initial | heuristics/ABCD_NDAR.py:50-51 | all nine output keys are present and every list is empty |
| AbcdNdar.FieldMapRule | heuristics/ABCD_NDAR.py:72-92 | a distortion map that is not last fails exactly on an unknown direction; otherwise it is appended as a `dwi` field map iff the next or next-next description ends with `dMRI` and the next lacks `fMRI`, else as `func`, with its id and direction |
| AbcdNdar.Rule | heuristics/ABCD_NDAR.py:53-94 | T1w/T2w replace and all other keys append; a last distortion map is skipped; an error occurs exactly for a non-last distortion map with an unknown direction; field-map filings come only from distortion maps |
| AbcdNdar.RuleTakesFirst | heuristics/ABCD_NDAR.py:55-68 | a series is filed under a structural or functional key exactly when that key's test (slice or volume counts plus description suffix) is the first that matches |
| AbcdNdar.InfoToDict | heuristics/ABCD_NDAR.py:12-95 | the loop computes the fold of the rule over all series |
| AbcdNdar.InfoHasEveryKey | heuristics/ABCD_NDAR.py:50-51 | every output key is in the result |
| AbcdNdar.InfoAtMostOnePerSeries | heuristics/ABCD_NDAR.py:53-94 | the result holds at most one entry per series |
| AbcdNdar.StructuralHoldsLatest | heuristics/ABCD_NDAR.py:55-58 | T1w and T2w hold only the latest matching series |
| AbcdNdar.ListsInScanOrder | heuristics/ABCD_NDAR.py:59-92 | every other key holds exactly the series filed under it, in scan order |
| SutherlandAce.Initial | heuristics/Sutherland_ACE.py:45-47 | all seven output keys are present and every list is empty |
| SutherlandAce.DirectionOfSuffix | heuristics/Sutherland_ACE.py:66-71 | only the suffixes `DistortionMap_PA` and `DistortionMap_AP` give a direction, PA and AP respectively |
| SutherlandAce.FieldMapFiling | heuristics/Sutherland_ACE.py:73-81 | the looked-ahead series decides the bucket (rest, nback or mid, with a matching `acq`); if it matches none the field map is dropped |
| SutherlandAce.FieldMapRule | heuristics/Sutherland_ACE.py:64-81 | a distortion map with two series after it looks two ahead for PA and one ahead for AP; it fails exactly on an unknown direction |
| SutherlandAce.Rule | heuristics/Sutherland_ACE.py:49-83 | first match wins; a T1 is filed as a one-element list only when the next series is not a T1, and a T1 in last position raises IndexError; nothing is replaced; a distortion map within two of the end is skipped |
| SutherlandAce.InfoToDict | heuristics/Sutherland_ACE.py:13-84 | the loop computes the fold of the rule over all series |
| SutherlandAce.InfoHasEveryKey | heuristics/Sutherland_ACE.py:45-47 | every output key is in the result |
| SutherlandAce.InfoAtMostOnePerSeries | heuristics/Sutherland_ACE.py:49-83 | the result holds at most one entry per series |
| SutherlandAce.ListsInScanOrder | heuristics/Sutherland_ACE.py:49-83 | every key holds exactly the series filed under it, in scan order |
| SutherlandAce.StepAgrees | heuristics/Sutherland_ACE.py:49-83 | with known directions, one step of the code as written (stale locals and all) files exactly as the rule does |
| SutherlandAce.AsWrittenAgrees | heuristics/Sutherland_ACE.py:49-83 | when every distortion map has direction PA or AP, the code as written and the corrected rule give the same result |
| SutherlandAce.StaleFieldMap | heuristics/Sutherland_ACE.py:64-71 | on a concrete series list, the code as written files a `DistortionMap_RL` series as an AP rest field map, reusing the previous direction and look-ahead; the corrected rule raises |
| DickAhead.Rule | heuristics/Dick_AHEAD.py:48-86 | first match wins (T1 176 slices, emotion 362 volumes, kcpt 226, dwi 81 slices and 103 volumes); T1 replaces; a last distortion map is skipped; the direction is PA/AP/RL/LR or ValueError; dwi vs func follows the look-ahead rule, with `acq` set |
| DickAhead.InfoToDict | heuristics/Dick_AHEAD.py:13-87 | the loop computes the fold of the rule over all series |
| DickAhead.InfoHasEveryKey | heuristics/Dick_AHEAD.py:45-46 | every output key is in the result |
| DickAhead.InfoAtMostOnePerSeries | heuristics/Dick_AHEAD.py:48-86 | the result holds at most one entry per series |
| DickAhead.T1wHoldsLatest | heuristics/Dick_AHEAD.py:50-51 | T1w holds only the latest matching series |
| DickAhead.ListsInScanOrder | heuristics/Dick_AHEAD.py:52-84 | every other key holds exactly the series filed under it, in scan order |
| MattfeldRtv.Rule | heuristics/Mattfeld_RTV.py:42-78 | first match wins, and everything appends (T1 included); rest needs 750 volumes and `fMRI_RTV_Rest` and stores `int(id)`, raising ValueError if that fails; task needs 380 volumes; dwi needs more than 1 slice and 103 volumes; field-map entries have no `acq` |
| MattfeldRtv.RestFiledByNumber | heuristics/Mattfeld_RTV.py:46-47 | a rest run with a numeric id is filed under its integer series number |
| MattfeldRtv.InfoToDict | heuristics/Mattfeld_RTV.py:10-79 | the loop computes the fold of the rule over all series |
| MattfeldRtv.InfoHasEveryKey | heuristics/Mattfeld_RTV.py:40 | every output key is in the result |
| MattfeldRtv.InfoAtMostOnePerSeries | heuristics/Mattfeld_RTV.py:42-78 | the result holds at most one entry per series |
| MattfeldRtv.ListsInScanOrder | heuristics/Mattfeld_RTV.py:42-78 | every key holds exactly the series filed under it, in scan order |
| FieldMaps.Truncate | bidsifier/complete_jsons.py:30 | `int()` of a real truncates toward zero |
| FieldMaps.Entries | bidsifier/complete_jsons.py:26-30 | pairs every file, in order, with its integer SeriesNumber |
| FieldMaps.EntriesErrorSticks | bidsifier/complete_jsons.py:26-30 | a file whose SeriesNumber cannot be read makes the whole conversion fail with that error |
| FieldMaps.IndexOfSpec | bidsifier/complete_jsons.py:26-31 | the keys are exactly the series numbers present; each key maps to a file with that number, and the last file with a given number wins |
| FieldMaps.FilesToDict | bidsifier/complete_jsons.py:20-32 | the loop computes the series index of the files |
| FieldMaps.SortInts | bidsifier/complete_jsons.py:71 | the result is sorted and a permutation of the input |
| FieldMaps.BisectRight | bidsifier/complete_jsons.py:90 | everything before the result is at most x and everything from it on exceeds x |
| FieldMaps.NearestFieldMap | bidsifier/complete_jsons.py:90-95 | picks the last field map whose number is at most the scan's; if none precedes it, picks the first, and then every field map follows the scan |
| FieldMaps.NearestMonotone | bidsifier/complete_jsons.py:90-95 | a later scan never gets an earlier field map |
| FieldMaps.LastPiece | bidsifier/complete_jsons.py:87 | `split(sep)[-1]` is a suffix of the string that does not contain the separator |
| FieldMaps.TargetPathRelative | bidsifier/complete_jsons.py:85-87 | the recorded target of `<subj>/<rel>.json` is `<rel>.nii.gz`, relative to the subject directory |
| FieldMaps.AssociateBucket | bidsifier/complete_jsons.py:72-97 | every field map of the bucket gets a list, and each list holds exactly the targets assigned to it, in order |
| FieldMaps.AssignedHasTarget | bidsifier/complete_jsons.py:90-97 | every target lands in the list of its nearest field map |
| FieldMaps.AssignedPartition | bidsifier/complete_jsons.py:84-97 | the lists together hold each target exactly once |
| FieldMaps.WithIntendedFor | bidsifier/complete_jsons.py:103-104 | `IntendedFor` is set when overwriting or when absent; otherwise the sidecar is unchanged, and every other key is kept |
| FieldMaps.WriteBack | bidsifier/complete_jsons.py:99-107 | each field-map sidecar is rewritten under the overwrite policy and no other file changes |
| Readout.AxisOf | bidsifier/complete_jsons.py:122-124 | `i`, `j` and `k` select axes 0, 1 and 2; any other letter is a KeyError |
| Readout.PhaseAxis | bidsifier/complete_jsons.py:122-124 | an axis is found exactly when the direction's first element is one of `i`, `j`, `k`; an empty direction is an IndexError, any other first letter or non-container item a KeyError, a list or object item a TypeError |
| Readout.TotalReadoutTime | bidsifier/complete_jsons.py:119-131 | a readout time is computed exactly when the acceleration is a nonzero number, the phase axis is within the image's dimensions and the echo spacing is a number |
| Readout.ReadoutValue | bidsifier/complete_jsons.py:125-131 | with a positive acceleration `acc`, the echo-train length is the number of whole multiples of `acc` in the phase-encoding dimension, and the time is the echo spacing times one less than it |
| Readout.ReadoutExample | bidsifier/complete_jsons.py:119-131 | a 64-step phase axis with acceleration 2 and echo spacing 0.0005 gives 0.0155 |
| Readout.ReadoutWithoutAcceleration | bidsifier/complete_jsons.py:121-131 | without `ParallelReductionFactorInPlane` the acceleration is 1 and the time is `EffectiveEchoSpacing * (npe - 1)` |
| Readout.ReadoutNeedsSpacing | bidsifier/complete_jsons.py:127-130 | a missing `EffectiveEchoSpacing` always fails, and fails with that error exactly when the earlier lookups succeed |
| Readout.ReadoutIgnoresPolarity | bidsifier/complete_jsons.py:122-124 | `j-` and `j` give the same readout time |
| CompleteJsons.SubjectDir | bidsifier/complete_jsons.py:51-55 | the subject directory is never empty |
| CompleteJsons.MakeBucket | bidsifier/complete_jsons.py:69-83 | the field maps and targets of a bucket are indexed by series number; this fails exactly when a SeriesNumber cannot be read |
| CompleteJsons.SeriesDictFacts | bidsifier/complete_jsons.py:20-32 | the index of a non-empty file list is non-empty, names only listed files, and every listed file exists |
| CompleteJsons.CompleteBucket | bidsifier/complete_jsons.py:57-107 | a bucket without field maps changes nothing; otherwise each field map's sidecar gets `IntendedFor` set to its assigned targets under the overwrite policy, and no other file changes |
| CompleteJsons.BucketFilesAreFieldMaps | bidsifier/complete_jsons.py:61-67 | the bucket query returns only field-map JSON files |
| CompleteJsons.CompleteReadout | bidsifier/complete_jsons.py:207-229 | the image's merged metadata gets `TotalReadoutTime` (all other keys kept) and is written to its sidecar when overwriting or the time is absent; otherwise nothing changes; this fails exactly when the shape is unknown or the computation fails; no other file changes |
| CompleteJsons.FmapReadoutAsWritten | bidsifier/complete_jsons.py:109-134 | as written, a field map's readout time is computed from the stale `fn` metadata and written over its sidecar; an unbound `fn` is a NameError |
| CompleteJsons.StaleLookupDropsIntendedFor | bidsifier/complete_jsons.py:99-134 | the code as written can drop the `IntendedFor` it just wrote, which the corrected readout keeps |
| CompleteJsons.FuncSidecarAsWritten | bidsifier/complete_jsons.py:164-186 | as written, a functional sidecar is rewritten exactly when `overwrite` is true |
| CompleteJsons.FuncSidecar | bidsifier/complete_jsons.py:164-186 | a functional sidecar is written exactly when overwriting or when `TaskName` or `TotalReadoutTime` was missing; `TaskName` is the queried task label and `TotalReadoutTime` the computed readout time when overwriting or absent, and each keeps its old value otherwise; other keys are kept; it fails exactly when a needed readout computation fails |
| CompleteJsons.FuncWriteTestSkipsNewFields | bidsifier/complete_jsons.py:180-186 | concrete input: as written, a sidecar without `TaskName` is never rewritten when not overwriting, while the corrected step writes `TaskName` |
| CompleteJsons.FuncStepsAgreeOnOverwrite | bidsifier/complete_jsons.py:164-186 | with `overwrite` set, the code as written and the corrected step agree |
| CompleteJsons.CompleteFunc | bidsifier/complete_jsons.py:157-186 | this fails exactly when the shape is unknown or the sidecar step fails; the image's sidecar becomes the completed merged metadata when the step writes, and nothing changes otherwise; no other file changes |
| CompleteJsons.ReadoutPassKeeps | bidsifier/complete_jsons.py:207-229 | a readout pass leaves every file that is not one of its images' sidecars unchanged |
| CompleteJsons.ReadoutPassErrorSticks | bidsifier/complete_jsons.py:223-225 | once an image raises, the pass raises that error |
| CompleteJsons.ReadoutLoop | bidsifier/complete_jsons.py:207-229 | the loop computes the readout pass over the images |
| CompleteJsons.DwiSubject | bidsifier/complete_jsons.py:200-229 | one subject's iteration extends the pass by that subject's diffusion images |
| CompleteJsons.DwiErrorSticks | bidsifier/complete_jsons.py:199-229 | a subject that raises ends the whole diffusion pass with that error |
| CompleteJsons.CompleteDwiJsons | bidsifier/complete_jsons.py:189-229 | the loop computes the readout pass over every subject's diffusion images, subject by subject |
| CompleteJsons.ReadoutPassFrame | bidsifier/complete_jsons.py:207-229 | a readout pass changes only sidecars of images |
| CompleteJsons.FuncPassKeeps | bidsifier/complete_jsons.py:157-186 | a functional pass leaves every file that is not one of its images' sidecars unchanged |
| CompleteJsons.TaskLabelsSpec | bidsifier/complete_jsons.py:149 | task labels are sorted and distinct, and are exactly those task entities that the dataset's files carry |
| CompleteJsons.FuncLoop | bidsifier/complete_jsons.py:157-186 | the loop computes the functional pass over its images |
| CompleteJsons.FuncSubject | bidsifier/complete_jsons.py:149-186 | one subject's iteration is the pass over that subject's images, task by task |
| CompleteJsons.CompleteFuncJsons | bidsifier/complete_jsons.py:137-186 | the loop computes the functional pass over every subject's images |
| CompleteJsons.CompleteFmapJsons | bidsifier/complete_jsons.py:35-134 | on success, no file other than field-map JSONs and image sidecars changes |
| CompleteJsons.Run | bidsifier/complete_jsons.py:232-235 | on success of all three passes, no file other than field-map JSONs and image sidecars changes |
| Dataset.ReadTsv | dataset.py:16-21 | reading succeeds exactly for an existing table file and returns its table |
| Dataset.BoilerplateOutcome | dataset.py:9-14 | this fails exactly when some boilerplate file is missing from both datasets; an existing target file is untouched, an absent one becomes a copy of the source, and nothing else changes |
| Dataset.CopyBoilerplate | dataset.py:9-14 | the loop computes the boilerplate copy over the four file names |
| Dataset.ReconcileParticipants | dataset.py:16-35 | participants.tsv is left as it is if some new row equals the target's row 0 in every column (after duplicate-column removal); otherwise it becomes the new rows followed by the original ones; nothing else changes |
| Dataset.FirstMergeCopies | dataset.py:12-14 | on a first merge, the target's participants.tsv is a copy of the source's |
| Dataset.FirstMergeKeepsParticipants | dataset.py:12-35 | on a first merge with a complete row 0, reconciling leaves the file system as the boilerplate copy left it |
| Dataset.RowZeroMatchesItself | dataset.py:24-27 | a row with no missing cells matches itself; a missing cell never compares equal |
| Dataset.CopyTree | dataset.py:40 | `copytree` fails exactly when the source is missing or the destination exists; it copies every file below the source, adds nothing else, and leaves files outside the destination alone |
| Dataset.CopySubtree | dataset.py:37-50 | an absent subject tree is copied whole; otherwise an absent session tree is copied when a session is given; otherwise nothing changes |
| Dataset.Annotated | dataset.py:61-62 | every row gets `remove` = 0 and `annotation` = '', and every other cell is kept |
| Dataset.AppendToMaster | dataset.py:68-74 | the master rows come first, then the new rows, all in the master's column order |
| Dataset.RegisterScans | dataset.py:52-79 | this fails exactly when the scans table or an existing master cannot be read, or when there is no master and no `code` directory to write it in; the master becomes master + annotated scans, or the annotated scans if absent; nothing else changes |
| Dataset.MasterRowsKept | dataset.py:68-74 | appending keeps the master's rows unchanged, and every new row has `remove` 0 and an empty `annotation` |
| Dataset.MergeDatasets | dataset.py:7-79 | the method computes the merge |
| Dataset.MergeFrame | dataset.py:7-79 | a merge changes no file outside the boilerplate targets, the subject's tree and the master table |
| Tables.ReindexTwice | dataset.py:72-74 | narrowing a row's columns twice is narrowing once |
| Tables.FirstOfEachExact | dataset.py:16-21 | a column is kept exactly when no earlier column holds the same values |
| Tables.DropDuplicateColumns | dataset.py:16-21 | keeps the first of each set of identical columns, row count unchanged |
| Tables.DropDuplicateColumnsKeeps | dataset.py:16-21 | a column survives exactly when no earlier column holds the same values |
| Tables.NewColumns | dataset.py:29-30 | the added columns are those of the second table not in the first |
| Tables.Concat | dataset.py:29-30 | the rows of the first table come first, then those of the second, over the union of the columns |
| Tables.SetColumn | dataset.py:61-62 | every row gets the value in that column, and the column is added at the end if new |
| Tables.SetColumnWellFormed | dataset.py:61-62 | setting a column keeps every row covering exactly the table's columns |
| Tables.FillMissing | utils.py:48 | every missing cell becomes 0, every other cell is kept, and the columns and row order are unchanged |
| Tables.Project | dataset.py:72-74 | writing with `columns=` keeps the rows in order, restricted to the given columns |
| ProtocolCheck.Validate | protocol_check.py:24-48 | the input checks pass exactly when the work directory, the dataset's parent directory, `code/config.json` with a `protocol` entry, the protocol file and the subject and session directories exist; in that order they fail with ValueError, FileNotFoundError for a missing config, KeyError for a config without `protocol`, then ValueError |
| ProtocolCheck.Matching | protocol_check.py:61-66 | the counted directories are exactly those that contain the key and neither `PMU` nor `setter`, in listing order with multiplicity |
| ProtocolCheck.MatchingScans | protocol_check.py:62-66 | the loop computes the counted directories |
| ProtocolCheck.Mismatched | protocol_check.py:74-83 | lists exactly the counted directories whose DICOM count differs from the requirement |
| ProtocolCheck.DicomLinesOutcome | protocol_check.py:74-83 | this fails exactly when a counted directory has no DICOM listing; otherwise there is one line per mismatched directory, stating its count |
| ProtocolCheck.DicomLinesErrorSticks | protocol_check.py:74-77 | a missing DICOM directory ends the check with that error |
| ProtocolCheck.DicomLoop | protocol_check.py:74-83 | the loop computes the DICOM lines |
| ProtocolCheck.EntryLinesOutcome | protocol_check.py:56-83 | `email` and `project` give no lines; a scan type with a wrong count gives one count line plus the DICOM lines; a malformed entry fails |
| ProtocolCheck.EntryLinesNonEmpty | protocol_check.py:56-83 | a scan type produces lines exactly when its count or a DICOM count mismatches |
| ProtocolCheck.CheckEntry | protocol_check.py:56-83 | the loop body computes one protocol entry's lines |
| ProtocolCheck.ProtocolLines | protocol_check.py:53-83 | the loop computes the message lines of every key in order, and `warning` is set exactly when there is a line |
| ProtocolCheck.LinesIffMismatch | protocol_check.py:53-94 | the message has lines exactly when some scan type mismatches |
| ProtocolCheck.AllLinesErrorSticks | protocol_check.py:56-83 | a failing entry ends the whole check with that error |
| ProtocolCheck.Find | protocol_check.py:88-91 | a protocol key lookup succeeds exactly when the key is present and returns its value; otherwise KeyError |
| ProtocolCheck.Put | protocol_check.py:50-51 | setting a key of a dict keeps its keys distinct and adds exactly that key |
| ProtocolCheck.Loaded | protocol_check.py:50-51 | the loaded protocol holds each key of the file exactly once |
| ProtocolCheck.FindPut | protocol_check.py:50-51 | after setting a key, looking it up gives the new value and any other key gives what it gave before |
| ProtocolCheck.LoadedValue | protocol_check.py:50-51 | a key repeated in the file takes the value of its last occurrence |
| ProtocolCheck.LoadedWithoutRepeats | protocol_check.py:50-51 | a file without repeated keys loads as it is, in file order |
| ProtocolCheck.Check | protocol_check.py:22-94 | succeeds exactly when the input checks pass, every entry of the loaded protocol is well formed with its DICOM directories listed, and a mismatch finds `project` and `email`; otherwise the first failing step's error is returned; `warning` holds exactly when some mismatch occurred; only then is mail sent to the protocol's `email` with its `project` and the message file removed; otherwise the message file is left as it was |
| ProtocolCheck.CheckProtocol | protocol_check.py:22-94 | the loop computes the protocol check |
| CleanMetadata.Cleaned | bidsifier/clean_metadata.py:49-54 | the output keys are kept keys; a kept top-level value wins; a kept key absent at top level comes from `global.const` exactly when `global` exists and `const` has it; malformed `global` fails |
| CleanMetadata.CleanSidecar | bidsifier/clean_metadata.py:49-54 | the loop computes the filtered sidecar |
| CleanMetadata.CleanedIdempotent | bidsifier/clean_metadata.py:49-54 | filtering its own output changes nothing |
| CleanMetadata.CleanScan | bidsifier/clean_metadata.py:46-57 | the scan's `.json` sidecar is replaced by the filtered metadata, and nothing else changes |
| AnonAcqtimes.Earliest | anon_acqtimes.py:39 | the minimum is one of the stamps and not after any of them |
| AnonAcqtimes.ShiftLandsOnBaseline | anon_acqtimes.py:39-44 | after the shift, no scan is before 1800-01-01 and the first scan lands on it at its time of day |
| AnonAcqtimes.ReadTimes | anon_acqtimes.py:38 | reading succeeds exactly for an existing scans file |
| AnonAcqtimes.SubjectSessions | anon_acqtimes.py:48 | the subject's sessions are sorted |
| AnonAcqtimes.SessionErrorSticks | anon_acqtimes.py:49-62 | a failing session ends the subject with that error |
| AnonAcqtimes.SubjectsErrorSticks | anon_acqtimes.py:34-62 | a failing subject ends the run with that error |
| AnonAcqtimes.SessionsFixOffset | anon_acqtimes.py:54-58 | if any session succeeds, the first session's offset exists |
| AnonAcqtimes.SessionsShareOffset | anon_acqtimes.py:49-62 | every session of a subject is shifted by the offset of its first session |
| AnonAcqtimes.TimeBetweenSessionsKept | anon_acqtimes.py:49-62 | the time between any two scans of a subject, across sessions, is preserved |
| AnonAcqtimes.FirstSessionOnBaseline | anon_acqtimes.py:54-62 | the first session's earliest scan lands on 1800-01-01 and none is before it |
| AnonAcqtimes.CrossSectionalTables | anon_acqtimes.py:34-44 | without sessions, each subject's table is shifted by its own offset |
| AnonAcqtimes.ShiftSessions | anon_acqtimes.py:48-62 | the loop computes the longitudinal shift of one subject |
| AnonAcqtimes.ShiftSubject | anon_acqtimes.py:35-62 | one subject is handled by the branch that the presence of sessions selects |
| AnonAcqtimes.AnonAcqtimes | anon_acqtimes.py:12-63 | the loop computes the shifted tables of every subject, and nothing is written |
| Mriqc.Flags | mriqc.py:49-54 | one `--field value` flag per setting, in key order |
| Mriqc.BuildKwargs | mriqc.py:47-55 | the loop computes the flag string |
| Mriqc.AccumulatedIsJoin | mriqc.py:47-54 | before stripping, the string is the flags joined by single spaces plus a trailing space |
| Mriqc.KwargsAreJoinedFlags | mriqc.py:47-55 | the flag string has no trailing whitespace, is empty for no settings, and is the flags joined by single spaces when the last value does not end in whitespace |
| Mriqc.NProcs | mriqc.py:39-42 | `n_procs` is 1 when absent and `int(value)` otherwise; a non-numeric string is a ValueError |
| Mriqc.NProcsFromText | mriqc.py:42 | `int()` reads back a printed integer |
| Mriqc.GlobFinds | mriqc.py:77-86 | the glob finds exactly the existing files that match the pattern |
| Mriqc.TaskRunsIffFound | mriqc.py:76-91 | a task runs exactly when some file matches its pattern; with a session only the session-level pattern counts |
| Mriqc.PlainFileFound | mriqc.py:77-80 | every `sub-<s>/func/sub-<s>_*_task-<t>_*_bold.json` file matches the subject pattern |
| Mriqc.SessionFileFound | mriqc.py:81-86 | every session-level bold sidecar of a task matches that task's session pattern |
| Mriqc.CountedFilesAreBoldSidecars | mriqc.py:77-86 | every file that counts is a `_bold.json` file |
| Mriqc.FindsImages | mriqc.py:76-91 | the method decides whether a task runs |
| Mriqc.RunAnat | mriqc.py:45-71 | one anatomical run per modality, in order |
| Mriqc.RunTask | mriqc.py:75-116 | one task's iteration adds that task's run exactly when it is gated in |
| Mriqc.RunFunc | mriqc.py:74-116 | the loop computes the functional runs |
| Mriqc.RunMriqc | mriqc.py:39-116 | the method computes the runs of the configuration |
| Mriqc.AnatRunsEach | mriqc.py:45-71 | the k-th anatomical run is the k-th modality with its flag string |
| Mriqc.FuncRunsExactly | mriqc.py:74-116 | the functional runs are exactly the gated tasks with their flag strings |
| Mriqc.FuncRunWhenImages | mriqc.py:76-116 | a task with matching images is run |
| Mriqc.FuncRunOnlyWithImages | mriqc.py:76-116 | every functional run is of a task with matching images |
| Mriqc.FindFrom | mriqc.py:148 | the regex search finds the first `_` followed by a digit or dot |
| Mriqc.RunLength | mriqc.py:148 | the match extends over the longest run of digits and dots |
| Mriqc.Version | mriqc.py:146-148 | the version is the run of digits and dots after the first `_` that starts one; with no match, `.group` fails with AttributeError |
| Mriqc.VersionOfImage | mriqc.py:146-148 | an image named `<pre>_<v><rest>` gives version `v` when no earlier `_` starts a match |
| Utils.CleanedPath | utils.py:41-45 | the output path never equals the input path |
| Utils.CleanedPathPlacement | utils.py:41-45 | the output is in the input's directory, with basename `<stem>_cleaned<ext>` |
| Utils.CleanCsv | utils.py:30-49 | this fails exactly when the input is missing; the input is kept; the output is the input with missing cells as 0, written with `\n` line endings and no index; nothing else changes |
| CleanMriqcCsv.CleanMain | clean_mriqc_csv.py:15-24 | this fails exactly when the input is missing; the input is kept; the output is the input with missing cells as 0, written without an index; nothing else changes |
| CleanMriqcCsv.SameAsCleanCsv | clean_mriqc_csv.py:15-24 | the script writes the same file and table as `utils.clean_csv` |
| Text.RStripStrips | mriqc.py:55 | `rstrip` removes exactly the trailing whitespace |
| Text.ParseIntToString | mriqc.py:42 | `int()` of a printed integer gives it back |
| Text.SortStrings | bidsifier/complete_jsons.py:149 | the result is sorted and a permutation of the input |
| Posix.SplitExtRoundTrip | utils.py:43 | the stem and extension put together give the name back |
| Posix.JoinBasename | utils.py:45 | the basename of a directory joined with a plain name is that name |
| Posix.JoinDirname | utils.py:42-45 | joining a name to a path's directory and taking the directory again gives the same directory |
| Bids.SidecarPathSwapsSuffix | bidsifier/clean_metadata.py:47 | the sidecar of `<stem>.nii.gz` is `<stem>.json` |
| Bids.Filter | bidsifier/complete_jsons.py:61-67 | a layout query returns exactly the files that match every given entity |
| Bids.MergedKeys | bidsifier/complete_jsons.py:161 | a key is in an image's merged metadata exactly when some sidecar that applies to it holds the key |
| Bids.MergedValue | bidsifier/complete_jsons.py:161 | the merged value of a key is the one of the nearest sidecar that holds it |

## Left out

- Shell commands, `mail`, Singularity and job submission are not modelled; neither are file
  reads and writes as I/O. Files are values, and JSON pretty-printing (`sort_keys`, `indent`)
  is a serialisation boundary.
- `nib.load` shapes, `BIDSLayout` indexing, `dateutil` parsing and pandas CSV parsing are not
  modelled; their results are inputs. The index gives the files with their entities and, for
  each image, the sidecars that apply to it from the dataset root down. `get_metadata` is
  modelled: it merges those sidecars as they are on disk at the time of the call.
- Bids.GetMetadata: a sidecar the index lists but that is no longer on disk is skipped rather
  than raising, and the pybids rules that choose which sidecars apply are not modelled.
- Floats are Dafny `real`: there is no IEEE rounding, infinity or NaN arithmetic in the readout
  time.
- CompleteJsons.SubjectDir: `op.abspath` is not modelled. The directory is the joined path, so
  callers are assumed to pass absolute dataset paths.
- CompleteJsons.CompleteFmapJsons: its contract states only which files it may change. The
  per-bucket content is stated by `CompleteJsons.CompleteBucket`, and the readout by
  `CompleteJsons.CompleteReadout`. It composes that corrected readout, not the stale `fn`
  lookup of the source.
- CompleteJsons.Run: its contract states only which files it may change. The three passes have
  their own contracts, and it runs the corrected field-map and functional passes.
- The field-map readout uses each field map's own merged metadata. The stale `fn` lookup is
  modelled separately as the as-written member (see Findings).
- CompleteJsons.CompleteFunc: it composes the corrected `CompleteJsons.FuncSidecar`, so it
  writes a sidecar that lacked `TaskName` or `TotalReadoutTime` even without `overwrite`. The
  source as written never writes without `overwrite` (see Findings).
- CompleteJsons.FuncPass: built from `CompleteJsons.CompleteFunc`, so it has the same
  correction.
- CompleteJsons.FuncLoop: computes `CompleteJsons.FuncPass`, with the same correction.
- CompleteJsons.FuncSubject: computes `CompleteJsons.FuncPass`, with the same correction.
- CompleteJsons.CompleteFuncJsons: computes `CompleteJsons.FuncPass`, with the same correction.
- Readout.ToFloat: a string is read as an integer only. Python's `float()` also accepts
  decimals, exponents, surrounding whitespace, `inf` and `nan`; such strings raise ValueError in
  the model.
- FieldMaps.ToInt: a string is an optional sign and ASCII digits. Surrounding whitespace and
  underscores between digits, which `int()` accepts, raise ValueError in the model.
- MattfeldRtv.Rule: `int(id)` reads the same strings as `FieldMaps.ToInt`. A series id with
  surrounding whitespace or underscores raises ValueError in the model.
- Heuristics: a series record is reduced to its id, slice count, volume count and description.
  The `create_key` format-string templates are constants, and the `outtype` default is not
  modelled.
- Mriqc.NProcs: `int()` of a float value is not modelled; a numeric config value is an
  integer. A string is an optional `+` or `-` and ASCII digits; surrounding whitespace and
  underscores between digits, which `int()` accepts, raise ValueError in the model.
- Mriqc: a setting's value is either its text as `format` renders it or a list of strings;
  `str()` of numbers and other JSON values is not modelled.
- Mriqc.RunMriqc: every `mriqc` command is taken to succeed. `utils.run` (utils.py:24-27) raises
  on a nonzero exit status, which would stop the later runs; command execution is not modelled,
  so `Outcome.runs` lists the commands issued.
- Mriqc.Version: `\d` is taken as the ASCII digits only.
- Mriqc.GlobFinds: only `*` is a wildcard. `?`, `[...]` and the hiding of dot-files are not
  modelled.
- `mriqc_group` beyond the version extraction (path checks, the group command) is not
  modelled; it is orchestration.
- AnonAcqtimes: a stamp is a day number and a second of the day. Time zones, fractional
  seconds and the string form written back are not modelled.
  - The column minimum is taken chronologically. This equals the string minimum for stamps of
    one ISO 8601 format.
  - A NaN cell in `acq_time` is not modelled.
- Tables: cells are integers, reals or strings. Pandas dtype inference (for example an integer
  column turning into floats once a NaN is filled) is not modelled.
- Dataset: the race between concurrent jobs appending to the master scans table is not modelled.
- Dataset.MasterPath: paths are sequences of components. A `bids_dir` given with a trailing `/`,
  whose `op.dirname` is the directory itself, is not modelled.
- ProtocolCheck: the message file's content before the run is an input. Appending to it is
  modelled as the lines of this run following the prior content.
- ProtocolCheck.Check: when an entry raises after earlier entries appended lines, the source
  leaves those lines in the message file. The model's error result carries no file state.
- ProtocolCheck: malformed JSON in `code/config.json` or the protocol file is not modelled. A
  protocol value is an object with optional `num` and `dicoms`, or a string; other JSON values
  are not modelled.

## Findings

| source | as written | input that shows it | evidently intended | confidence | as-written member | corrected member |
|---|---|---|---|---|---|---|
| heuristics/Sutherland_ACE.py:64-71 | a distortion map whose suffix is neither `_PA` nor `_AP` reuses `next_scan` and `dir_` left over from an earlier series | series `DistortionMap_AP` (1), `fMRI_rest` (2), `DistortionMap_RL` (3), then two others: series 3 is filed as an AP rest field map | reject an unknown direction, as the other heuristics do with ValueError | not executed | SutherlandAce.StaleFieldMap | SutherlandAce.Rule |
| bidsifier/complete_jsons.py:116 | the field-map readout reads the metadata of `fn`, the last target path from the association loop, not the field map's own metadata, and writes it over the field map's JSON | a field map whose sidecar has `IntendedFor` while the stale metadata lacks it: the written sidecar loses `IntendedFor` | read the field map's own metadata | not executed | CompleteJsons.StaleLookupDropsIntendedFor | CompleteJsons.CompleteReadout |
| bidsifier/complete_jsons.py:183-186 | the write test runs after `TaskName` and `TotalReadoutTime` have been added, so without `overwrite` the sidecar is never written | sidecar `{"TotalReadoutTime": 0.05}`, shape 64×64×30, task `rest`, `overwrite` false: nothing is written | write when either field was missing before this step | not executed | CompleteJsons.FuncWriteTestSkipsNewFields | CompleteJsons.FuncSidecar |
