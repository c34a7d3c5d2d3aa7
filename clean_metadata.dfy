/**
 * `bidsifier/clean_metadata.py`: rewrite every image's sidecar so that it holds only
 * whitelisted keys, taking a key missing at top level from the `global.const` block when present.
 */
module CleanMetadata {
  import opened Base
  import opened Bids

  /** `KEEP_KEYS`: the sidecar keys that survive the clean-up, in the order of the source. */
  const KeepKeys: seq<string> :=
    KeepKeys1 + KeepKeys2 + KeepKeys3 + KeepKeys4 + KeepKeys5
    + KeepKeys6 + KeepKeys7 + KeepKeys8 + KeepKeys9 + KeepKeys10

  const KeepKeys1: seq<string> := [
    "AnatomicalLandmarkCoordinates", "AcquisitionDuration", "CogAtlasID", "CogPOID",
    "CoilCombinationMethod", "ConversionSoftware", "ConversionSoftwareVersion", "DelayAfterTrigger"]
  const KeepKeys2: seq<string> := [
    "DelayTime", "DeviceSerialNumber", "DwellTime", "EchoNumbers", "EchoTime", "EchoTrainLength",
    "EffectiveEchoSpacing", "FlipAngle"]
  const KeepKeys3: seq<string> := [
    "GradientSetType", "HighBit", "ImagedNucleus", "ImageType", "ImagingFrequency",
    "InPlanePhaseEncodingDirection", "InstitutionName", "InstitutionAddress"]
  const KeepKeys4: seq<string> := [
    "InstitutionalDepartmentName", "Instructions", "IntendedFor", "InversionTime",
    "MRAcquisitionType", "MagneticFieldStrength", "Manufacturer", "ManufacturersModelName"]
  const KeepKeys5: seq<string> := [
    "MatrixCoilMode", "Modality", "MRTransmitCoilSequence", "MultibandAccelerationFactor",
    "NumberOfAverages", "NumberOfPhaseEncodingSteps", "NumberOfVolumesDiscardedByScanner",
    "NumberOfVolumesDiscardedByUser"]
  const KeepKeys6: seq<string> := [
    "NumberShots", "ParallelAcquisitionTechnique", "ParallelReductionFactorInPlane",
    "PartialFourier", "PartialFourierDirection", "PhaseEncodingDirection", "PixelBandwidth",
    "ProtocolName"]
  const KeepKeys7: seq<string> := [
    "PulseSequenceDetails", "PulseSequenceType", "ReceiveCoilActiveElements", "ReceiveCoilName",
    "RepetitionTime", "Rows", "SAR", "ScanningSequence"]
  const KeepKeys8: seq<string> := [
    "ScanOptions", "SequenceName", "SequenceVariant", "SeriesDescription", "SeriesNumber",
    "SliceEncodingDirection", "SliceLocation", "SliceThickness"]
  const KeepKeys9: seq<string> := [
    "SliceTiming", "SoftwareVersions", "SpacingBetweenSlices", "StationName", "TaskDescription",
    "TaskName", "TotalReadoutTime", "Units"]
  const KeepKeys10: seq<string> := [
    "VolumeTiming"]

  /** No whitelisted key is called `global`, so a cleaned sidecar has no fallback block. */
  lemma GlobalNotKept()
    ensures "global" !in KeepKeys
  {
    GlobalNotInFirstHalf();
    GlobalNotInSecondHalf();
    assert KeepKeys == (KeepKeys1 + KeepKeys2 + KeepKeys3 + KeepKeys4 + KeepKeys5)
      + (KeepKeys6 + KeepKeys7 + KeepKeys8 + KeepKeys9 + KeepKeys10);
  }

  lemma GlobalNotInFirstHalf()
    ensures "global" !in KeepKeys1 + KeepKeys2 + KeepKeys3 + KeepKeys4 + KeepKeys5
  {
    assert "global" !in KeepKeys1;
    assert "global" !in KeepKeys2;
    assert "global" !in KeepKeys3;
    assert "global" !in KeepKeys4;
    assert "global" !in KeepKeys5;
  }

  lemma GlobalNotInSecondHalf()
    ensures "global" !in KeepKeys6 + KeepKeys7 + KeepKeys8 + KeepKeys9 + KeepKeys10
  {
    assert "global" !in KeepKeys6;
    assert "global" !in KeepKeys7;
    assert "global" !in KeepKeys8;
    assert "global" !in KeepKeys9;
    assert "global" !in KeepKeys10;
  }

  /**
   * `metadata['global']['const']`, with the exception Python raises when `global` is not an
   * object, has no `const`, or `const` is not an object.
   */
  function GlobalConst(md: Sidecar): Result<map<string, Json>>
    requires "global" in md
  {
    match md["global"]
    case Obj(g) =>
      if "const" !in g then Err(KeyError("const"))
      else (match g["const"]
        case Obj(c) => Ok(c)
        case _ => Err(AttributeError("'const' has no attribute 'keys'")))
    case _ => Err(TypeError("'global' is not subscriptable by a string"))
  }

  /** Some whitelisted key is absent at top level, so the loop looks into `global`. */
  predicate LooksIntoGlobal(keep: seq<string>, md: Sidecar) {
    "global" in md && exists k :: k in keep && k !in md
  }

  /**
   * The cleaned sidecar for the whitelist `keep`. Its keys are whitelisted; a whitelisted
   * top-level key keeps its value; a whitelisted key absent at top level comes from
   * `global.const` exactly when `global` exists and its `const` has the key; a malformed
   * `global` raises only when it is consulted.
   */
  function Cleaned(keep: seq<string>, md: Sidecar): (r: Result<Sidecar>)
    ensures r.Err? <==> LooksIntoGlobal(keep, md) && GlobalConst(md).Err?
    ensures r.Ok? ==> forall k :: k in r.value ==> k in keep
    ensures r.Ok? ==> forall k :: k in keep && k in md ==> k in r.value && r.value[k] == md[k]
    ensures r.Ok? ==> forall k :: k in keep && k !in md ==>
      (k in r.value <==> "global" in md && k in GlobalConst(md).value)
    ensures r.Ok? ==> forall k :: k in r.value && k !in md ==> r.value[k] == GlobalConst(md).value[k]
  {
    if LooksIntoGlobal(keep, md) then
      match GlobalConst(md)
      case Err(e) => Err(e)
      case Ok(c) => Ok(map k | k in keep && (k in md || k in c) :: if k in md then md[k] else c[k])
    else
      Ok(map k | k in keep && k in md :: md[k])
  }

  /**
   * The sidecar the loop of `main` has built after looking at the first `i` whitelisted keys:
   * every whitelisted top-level key, and the fallbacks found so far.
   */
  ghost function BuiltSoFar(keep: seq<string>, md: Sidecar, c: map<string, Json>, i: nat): Sidecar
    requires i <= |keep|
  {
    map k | k in keep && (k in md || (k in keep[..i] && k in c)) :: if k in md then md[k] else c[k]
  }

  /**
   * The loop of `main` for one scan: the whitelisted top-level keys, then, key by key, the
   * fallback into `global.const`.
   */
  method CleanSidecar(keep: seq<string>, md: Sidecar) returns (r: Result<Sidecar>)
    ensures r == Cleaned(keep, md)
  {
    ghost var c: map<string, Json> :=
      if "global" in md && GlobalConst(md).Ok? then GlobalConst(md).value else map[];
    var md2 := map k | k in keep && k in md :: md[k];
    assert md2 == BuiltSoFar(keep, md, c, 0);
    for i := 0 to |keep|
      invariant "global" in md && (exists j :: 0 <= j < i && keep[j] !in md) ==> GlobalConst(md).Ok?
      invariant md2 == BuiltSoFar(keep, md, c, i)
    {
      var key := keep[i];
      assert keep[..i + 1] == keep[..i] + [key];
      if key !in md && "global" in md {
        var g := GlobalConst(md);
        if g.Err? {
          assert LooksIntoGlobal(keep, md);
          return Err(g.error);
        }
        if key in g.value {
          md2 := md2[key := g.value[key]];
        }
      }
      assert md2 == BuiltSoFar(keep, md, c, i + 1);
    }
    assert keep[..|keep|] == keep;
    if LooksIntoGlobal(keep, md) {
      var k :| k in keep && k !in md;
      var j :| 0 <= j < |keep| && keep[j] == k;
      assert c == GlobalConst(md).value;
      assert md2 == map k | k in keep && (k in md || k in c) :: if k in md then md[k] else c[k];
    } else {
      assert md2 == map k | k in keep && k in md :: md[k];
    }
    return Ok(md2);
  }

  /**
   * The clean-up is idempotent for a whitelist without `global` (as `KeepKeys` is, by
   * `GlobalNotKept`): a cleaned sidecar has no `global` block left, so cleaning it again
   * changes nothing.
   */
  lemma CleanedIdempotent(keep: seq<string>, md: Sidecar)
    requires "global" !in keep && Cleaned(keep, md).Ok?
    ensures Cleaned(keep, Cleaned(keep, md).value) == Cleaned(keep, md)
  {
    var once := Cleaned(keep, md).value;
    assert !LooksIntoGlobal(keep, once);
    assert Cleaned(keep, once).value == once;
  }

  /**
   * One scan of `main`: the cleaned merged metadata of the image replaces its sidecar, at the
   * image path with `.nii.gz` swapped for `.json`; a failure writes nothing for that scan.
   */
  method CleanScan(layout: Layout, disk: JsonDisk, scan: string)
    returns (r: Result<JsonDisk>)
    ensures r.Err? <==> Cleaned(KeepKeys, GetMetadata(layout, disk, scan)).Err?
    ensures r.Ok? ==> r.value == disk[SidecarPath(scan) := Cleaned(KeepKeys, GetMetadata(layout, disk, scan)).value]
  {
    var cleaned := CleanSidecar(KeepKeys, GetMetadata(layout, disk, scan));
    if cleaned.Err? {
      return Err(cleaned.error);
    }
    return Ok(disk[SidecarPath(scan) := cleaned.value]);
  }
}
