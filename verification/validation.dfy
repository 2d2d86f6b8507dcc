/**
 * Request validation performed by `GeneratorUI.generate_map` before anything
 * is queued: the coordinates string, the map-size string and its evenness and
 * squareness checks. Python's `float()` and `int()` are collaborators passed in
 * as parsers.
 */
module Validation {
  import opened Wrappers
  import Text

  const InvalidCoordinatesMsg := "Invalid latitude and longitude!"
  const InvalidSizeMsg := "Invalid map size!"
  const OddSizeMsg := "Map size must be a power of 2. For example: 2, 4, ... 2048, 4096, ..."
  const NonSquareMsg := "Map size must be square (height == width)."

  /** Python's `int(text)`: `None` where it raises `ValueError`. */
  type IntParser = string -> Option<int>

  /** Python's `float(text)`, with floats idealised as reals. */
  type FloatParser = string -> Option<real>

  /** `tuple(map(parse, text.split(sep)))` unpacked into exactly two values:
      every piece must parse and there must be exactly two pieces. */
  function ParsePair<T>(text: string, sep: char, parse: string -> Option<T>): (r: Option<(T, T)>)
    ensures r.Some? <==>
      var parts := Text.Split(text, sep);
      |parts| == 2 && parse(parts[0]).Some? && parse(parts[1]).Some?
    ensures r.Some? ==>
      var parts := Text.Split(text, sep);
      Some(r.value.0) == parse(parts[0]) && Some(r.value.1) == parse(parts[1])
  {
    var parts := Text.Split(text, sep);
    if (forall i :: 0 <= i < |parts| ==> parse(parts[i]).Some?) && |parts| == 2 then
      Some((parse(parts[0]).value, parse(parts[1]).value))
    else
      None
  }

  /** The `lat_lon` property: two comma-separated floats, no range check. */
  function ParseCoordinates(text: string, parseFloat: FloatParser): (r: Option<(real, real)>)
    ensures r.Some? <==>
      var parts := Text.Split(text, ',');
      |parts| == 2 && parseFloat(parts[0]).Some? && parseFloat(parts[1]).Some?
    ensures r.Some? ==>
      var parts := Text.Split(text, ',');
      Some(r.value.0) == parseFloat(parts[0]) && Some(r.value.1) == parseFloat(parts[1])
  {
    ParsePair(text, ',', parseFloat)
  }

  /** The `map_size` property: two `x`-separated integers. */
  function ParseMapSize(text: string, parseInt: IntParser): (r: Option<(int, int)>)
    ensures r.Some? <==>
      var parts := Text.Split(text, 'x');
      |parts| == 2 && parseInt(parts[0]).Some? && parseInt(parts[1]).Some?
    ensures r.Some? ==>
      var parts := Text.Split(text, 'x');
      Some(r.value.0) == parseInt(parts[0]) && Some(r.value.1) == parseInt(parts[1])
  {
    ParsePair(text, 'x', parseInt)
  }

  /** Evenness test as written in Python (`n % 2 != 0`); Python's floored and
      Dafny's Euclidean remainder agree for the divisor 2, negatives included. */
  predicate Even(n: int)
  {
    n % 2 == 0
  }

  /** The map-size checks of `generate_map`, in order: parse, both even, equal.
      On success the common side length is returned. */
  function CheckMapSize(text: string, parseInt: IntParser): (r: Result<int, string>)
    ensures r.Success? <==>
      var parts := Text.Split(text, 'x');
      && |parts| == 2
      && parseInt(parts[0]).Some? && parseInt(parts[1]).Some?
      && parseInt(parts[0]).value == parseInt(parts[1]).value
      && Even(parseInt(parts[0]).value)
    ensures r.Success? ==> parseInt(Text.Split(text, 'x')[0]) == Some(r.value)
    ensures r.Failure? ==> r.error in {InvalidSizeMsg, OddSizeMsg, NonSquareMsg}
    ensures r == Failure(InvalidSizeMsg) <==> ParseMapSize(text, parseInt).None?
    ensures r == Failure(OddSizeMsg) <==>
      ParseMapSize(text, parseInt).Some? &&
      (!Even(ParseMapSize(text, parseInt).value.0) || !Even(ParseMapSize(text, parseInt).value.1))
    ensures r == Failure(NonSquareMsg) ==>
      ParseMapSize(text, parseInt).Some? &&
      Even(ParseMapSize(text, parseInt).value.0) && Even(ParseMapSize(text, parseInt).value.1) &&
      ParseMapSize(text, parseInt).value.0 != ParseMapSize(text, parseInt).value.1
  {
    match ParseMapSize(text, parseInt)
    case None => Failure(InvalidSizeMsg)
    case Some((height, width)) =>
      if height % 2 != 0 || width % 2 != 0 then Failure(OddSizeMsg)
      else if height != width then Failure(NonSquareMsg)
      else Success(height)
  }

  /** The text the custom-size widget builds, `f"{v}x{v}"`. */
  function CustomSizeText(v: nat): string
  {
    Text.Decimal(v) + "x" + Text.Decimal(v)
  }

  /** A custom size typed into the widget is accepted exactly when it is
      even, and then it is the side length; odd ones get the evenness error. */
  lemma CustomSizeRoundTrip(v: nat, parseInt: IntParser)
    requires parseInt(Text.Decimal(v)) == Some(v)
    ensures CheckMapSize(CustomSizeText(v), parseInt) ==
      if v % 2 == 0 then Success(v) else Failure(OddSizeMsg)
  {
    var d := Text.Decimal(v);
    assert 'x' !in d;
    assert CustomSizeText(v) == d + ['x'] + d;
    Text.SplitTwo(d, 'x', d);
  }

  /** Only evenness is checked: a non-power-of-two such as 6 passes, and so do
      zero and negative sizes. */
  lemma EvenNonPowerOfTwoAccepted(parseInt: IntParser)
    requires parseInt("6") == Some(6) && parseInt("0") == Some(0) && parseInt("-2") == Some(-2)
    ensures CheckMapSize("6x6", parseInt) == Success(6)
    ensures CheckMapSize("0x0", parseInt) == Success(0)
    ensures CheckMapSize("-2x-2", parseInt) == Success(-2)
  {
    assert "6x6" == "6" + ['x'] + "6";
    Text.SplitTwo("6", 'x', "6");
    assert "0x0" == "0" + ['x'] + "0";
    Text.SplitTwo("0", 'x', "0");
    assert "-2x-2" == "-2" + ['x'] + "-2";
    Text.SplitTwo("-2", 'x', "-2");
  }

  /** Evenness is checked before squareness, so `3x4` reports the evenness
      error; an odd square such as `2047x2047` is refused the same way. */
  lemma EvennessReportedBeforeSquareness(parseInt: IntParser)
    requires parseInt("3") == Some(3) && parseInt("4") == Some(4) && parseInt("2047") == Some(2047)
    ensures CheckMapSize("3x4", parseInt) == Failure(OddSizeMsg)
    ensures CheckMapSize("2047x2047", parseInt) == Failure(OddSizeMsg)
  {
    assert ParseMapSize("3x4", parseInt) == Some((3, 4)) by {
      assert "3x4" == "3" + ['x'] + "4";
      Text.SplitTwo("3", 'x', "4");
    }
    assert ParseMapSize("2047x2047", parseInt) == Some((2047, 2047)) by {
      assert "2047x2047" == "2047" + ['x'] + "2047";
      Text.SplitTwo("2047", 'x', "2047");
    }
  }

  /** The coordinates are not range-checked: a latitude of 91 is accepted. */
  lemma CoordinatesNotRangeChecked(parseFloat: FloatParser)
    requires parseFloat("91") == Some(91.0) && parseFloat("0") == Some(0.0)
    ensures ParseCoordinates("91,0", parseFloat) == Some((91.0, 0.0))
  {
    assert "91,0" == "91" + [','] + "0";
    Text.SplitTwo("91", ',', "0");
  }
}
