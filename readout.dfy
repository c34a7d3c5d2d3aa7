/**
 * The readout-time computation that `bidsifier/complete_jsons.py` repeats for field maps,
 * functional scans and diffusion scans: `EffectiveEchoSpacing * (floor(npe / acc) - 1)`.
 */
module Readout {
  import opened Base
  import opened Text
  import opened Bids

  /** Python's `float(v)` on a JSON value. */
  function ToFloat(v: Json): Result<real> {
    match v
    case Int(i) => Ok(i as real)
    case Num(r) => Ok(r)
    case Bool(b) => Ok(if b then 1.0 else 0.0)
    case Str(s) =>
      (match ParseInt(s)
       case Some(i) => Ok(i as real)
       case None => Err(ValueError("could not convert string to float")))
    case _ => Err(TypeError("float() argument must be a string or a number"))
  }

  /** `float(data.get('ParallelReductionFactorInPlane', 1.0))`. */
  function Acceleration(data: Sidecar): Result<real> {
    if "ParallelReductionFactorInPlane" in data then ToFloat(data["ParallelReductionFactorInPlane"])
    else Ok(1.0)
  }

  /** The image axis named by a direction letter: `{'i': 0, 'j': 1, 'k': 2}[c]`. */
  function AxisOf(c: char): (r: Result<nat>)
    ensures r.Ok? <==> c in "ijk"
    ensures r.Ok? ==> r.value < 3 && "ijk"[r.value] == c
  {
    if c == 'i' then Ok(0)
    else if c == 'j' then Ok(1)
    else if c == 'k' then Ok(2)
    else Err(KeyError([c]))
  }

  /** A direction whose first element is one of the letters `i`, `j`, `k`. */
  predicate NamesAxis(v: Json) {
    || (v.Str? && |v.s| > 0 && v.s[0] in "ijk")
    || (v.Arr? && |v.items| > 0 && v.items[0].Str? && |v.items[0].s| == 1 && v.items[0].s[0] in "ijk")
  }

  /**
   * `{'i': 0, 'j': 1, 'k': 2}[data['PhaseEncodingDirection'][0]]`: the axis named by the first
   * letter of the direction, so that `j` and `j-` both select axis 1.
   */
  function PhaseAxis(data: Sidecar): (r: Result<nat>)
    ensures r.Ok? ==> r.value < 3
    ensures r.Ok? <==> "PhaseEncodingDirection" in data && NamesAxis(data["PhaseEncodingDirection"])
  {
    if "PhaseEncodingDirection" !in data then Err(KeyError("PhaseEncodingDirection"))
    else
      match data["PhaseEncodingDirection"]
      case Str(s) => if |s| == 0 then Err(IndexError("string index out of range")) else AxisOf(s[0])
      case Arr(items) =>
        if |items| == 0 then Err(IndexError("list index out of range"))
        else if items[0].Str? && |items[0].s| == 1 then AxisOf(items[0].s[0])
        else
          (match items[0]
          case Str(t) => Err(KeyError(t))
          case Int(i) => Err(KeyError(IntToString(i)))
          case Arr(_) => Err(TypeError("unhashable type: 'list'"))
          case Obj(_) => Err(TypeError("unhashable type: 'dict'"))
          case Null => Err(KeyError("None"))
          case Bool(b) => Err(KeyError(if b then "True" else "False"))
          case Num(_) => Err(KeyError("float")))
      case Obj(_) => Err(KeyError("0"))
      case _ => Err(TypeError("object is not subscriptable"))
  }

  /** `data.get('EffectiveEchoSpacing', None)` as a number; a missing or null value raises. */
  function EchoSpacing(data: Sidecar): Result<real> {
    if "EffectiveEchoSpacing" !in data || data["EffectiveEchoSpacing"].Null? then
      Err(MissingFieldError("EffectiveEchoSpacing"))
    else
      match data["EffectiveEchoSpacing"]
      case Int(i) => Ok(i as real)
      case Num(r) => Ok(r)
      case Bool(b) => Ok(if b then 1.0 else 0.0)
      case _ => Err(TypeError("unsupported operand type for *"))
  }

  /**
   * The total readout time of an image of the given shape: the echo spacing times one less
   * than the echo-train length, the number of phase-encoding steps floor-divided by the
   * acceleration factor. The steps raise in the order of the source: the acceleration factor,
   * the direction, the image axis, the division, then the echo spacing.
   */
  function TotalReadoutTime(data: Sidecar, shape: seq<nat>): (r: Result<real>)
    ensures r.Ok? <==>
      && Acceleration(data).Ok? && Acceleration(data).value != 0.0
      && PhaseAxis(data).Ok? && PhaseAxis(data).value < |shape|
      && EchoSpacing(data).Ok?
  {
    var acc :- Acceleration(data);
    var axis :- PhaseAxis(data);
    if axis >= |shape| then Err(IndexError("tuple index out of range"))
    else if acc == 0.0 then Err(ZeroDivisionError)
    else
      var etl := (shape[axis] as real / acc).Floor;
      var ees :- EchoSpacing(data);
      Ok(ees * (etl as real - 1.0))
  }

  /**
   * Without an acceleration factor the echo train is the whole phase-encoding dimension:
   * the readout time is the echo spacing times one less than that dimension.
   */
  lemma ReadoutWithoutAcceleration(data: Sidecar, shape: seq<nat>)
    requires "ParallelReductionFactorInPlane" !in data
    requires PhaseAxis(data).Ok? && PhaseAxis(data).value < |shape| && EchoSpacing(data).Ok?
    ensures TotalReadoutTime(data, shape).Ok?
    ensures TotalReadoutTime(data, shape).value
      == EchoSpacing(data).value * (shape[PhaseAxis(data).value] as real - 1.0)
  {
    var npe := shape[PhaseAxis(data).value];
    assert Acceleration(data).value == 1.0;
    assert npe as real / 1.0 == npe as real;
    assert (npe as real).Floor == npe;
  }

  /**
   * A sidecar without `EffectiveEchoSpacing` raises exactly when every earlier step succeeds;
   * no readout time is produced for it.
   */
  lemma ReadoutNeedsSpacing(data: Sidecar, shape: seq<nat>)
    requires "EffectiveEchoSpacing" !in data
    ensures TotalReadoutTime(data, shape).Err?
    ensures TotalReadoutTime(data, shape) == Err(MissingFieldError("EffectiveEchoSpacing")) <==>
      && Acceleration(data).Ok? && Acceleration(data).value != 0.0
      && PhaseAxis(data).Ok? && PhaseAxis(data).value < |shape|
  {
  }

  /** Only the axis letter matters: a reversed direction (`j-`) gives the same readout time as `j`. */
  lemma ReadoutIgnoresPolarity(data: Sidecar, shape: seq<nat>, c: char)
    requires c in "ijk"
    ensures var reversed := TotalReadoutTime(data["PhaseEncodingDirection" := Str([c, '-'])], shape);
      var plain := TotalReadoutTime(data["PhaseEncodingDirection" := Str([c])], shape);
      reversed.Ok? == plain.Ok? && (plain.Ok? ==> reversed.value == plain.value)
  {
    var a := data["PhaseEncodingDirection" := Str([c, '-'])];
    var b := data["PhaseEncodingDirection" := Str([c])];
    assert Acceleration(a) == Acceleration(b);
    assert EchoSpacing(a) == EchoSpacing(b);
    assert a["PhaseEncodingDirection"].s[0] == c == b["PhaseEncodingDirection"].s[0];
    assert PhaseAxis(a) == AxisOf(c) == PhaseAxis(b);
  }

  /**
   * The value: with a positive acceleration factor `acc`, the echo-train length is the number
   * `etl` of whole multiples of `acc` in the phase-encoding dimension `npe`, and the readout
   * time is the echo spacing times `etl - 1`.
   */
  lemma ReadoutValue(data: Sidecar, shape: seq<nat>, etl: int)
    requires TotalReadoutTime(data, shape).Ok? && Acceleration(data).value > 0.0
    requires var acc := Acceleration(data).value;
      var npe := shape[PhaseAxis(data).value] as real;
      etl as real * acc <= npe < (etl + 1) as real * acc
    ensures TotalReadoutTime(data, shape).value == EchoSpacing(data).value * (etl as real - 1.0)
  {
    FloorOfQuotient(shape[PhaseAxis(data).value] as real, Acceleration(data).value, etl);
  }

  /** `floor(n / a)` for a positive `a` is the number of whole multiples of `a` in `n`. */
  lemma FloorOfQuotient(n: real, a: real, k: int)
    requires a > 0.0 && k as real * a <= n < (k + 1) as real * a
    ensures (n / a).Floor == k
  {
    var x := n / a;
    assert x * a == n;
    var below := x - k as real;
    var above := (k + 1) as real - x;
    assert below * a == n - k as real * a;
    assert above * a == (k + 1) as real * a - n;
    assert below >= 0.0 && above > 0.0;
  }

  /**
   * A phase-encoding dimension of 64 with an acceleration factor of 2 gives an echo train of
   * 32 and, at an echo spacing of 0.0005 s, a readout time of 31 * 0.0005 = 0.0155 s.
   */
  lemma ReadoutExample()
    ensures var data: Sidecar := map[
        "PhaseEncodingDirection" := Str("j-"),
        "ParallelReductionFactorInPlane" := Int(2),
        "EffectiveEchoSpacing" := Num(0.0005)];
      TotalReadoutTime(data, [64, 64, 30]) == Ok(0.0155)
  {
  }
}
