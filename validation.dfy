/** The argument validators of utils/validation.py: each either passes or
    raises, so each becomes a function returning an Outcome. */
module Validation {
  import opened Results
  import opened Util

  /** The largest seed the sampler accepts, 2**32 - 1. */
  const MaxSeed: int := 0x1_0000_0000 - 1

  /** A `row_height` argument: one height for every row, or one per layout row. */
  datatype RowHeight = Height(h: int) | Heights(hs: seq<int>)

  /** Python's `all(x > 0 for x in hs)`. */
  function AllPositive(hs: seq<int>): (b: bool)
    ensures b <==> forall i | 0 <= i < |hs| :: hs[i] > 0
  {
    if hs == [] then true else hs[0] > 0 && AllPositive(hs[1..])
  }

  /** `validate_row_height(row_height, layout)`: a single height must not be
      negative (0 passes); a list needs one entry per layout row and every
      entry positive. Every failure is a ValueError. */
  function ValidateRowHeight<R>(rowHeight: RowHeight, layout: seq<R>): (r: Outcome)
    ensures rowHeight.Height? ==> (r.Pass? <==> rowHeight.h >= 0)
    ensures rowHeight.Heights? ==>
      (r.Pass? <==> |rowHeight.hs| == |layout| && forall i | 0 <= i < |rowHeight.hs| :: rowHeight.hs[i] > 0)
    ensures r.Fail? ==> r.error == ValueError
  {
    match rowHeight
    case Height(h) => if h < 0 then Fail(ValueError) else Pass
    case Heights(hs) =>
      if |hs| != |layout| then Fail(ValueError)
      else if !AllPositive(hs) then Fail(ValueError)
      else Pass
  }

  /** A colour argument: a string, a tuple, or a value of some other type. */
  datatype ColorSpec = HexString(s: string) | Components(cs: seq<int>) | OtherType

  /** The range test of `validate_color`, on the first three components. */
  function ComponentsInRange(cs: seq<int>): (r: Outcome)
    requires |cs| >= 3
    ensures r.Pass? <==> forall i | 0 <= i < 3 :: 0 <= cs[i] <= 255
    ensures r.Fail? ==> r.error == ValueError
  {
    if !(0 <= cs[0] <= 255) || !(0 <= cs[1] <= 255) || !(0 <= cs[2] <= 255) then Fail(ValueError)
    else Pass
  }

  /** The string branch of `validate_color`: `hex_to_rgb` as written, then
      the range check. In the model, where a hex number has no sign, a parsed
      colour always passes it; Python's `int` would also read `#-12345` as
      (-1, 35, 69), which the check refuses. */
  function ValidateHexString(s: string): (r: Outcome)
    ensures r.Pass? <==> HexToRgbAsWritten(s).Ok?
    ensures r.Fail? ==> r.error == ValueError
  {
    var res := HexToRgbAsWritten(s);
    if res.Err? then Fail(res.error)
    else ComponentsInRange([res.value.r, res.value.g, res.value.b])
  }

  /** `validate_color`: a string goes through `hex_to_rgb` as written and can
      only fail there; a tuple needs exactly three components in 0..255;
      anything else is a TypeError. */
  function ValidateColor(color: ColorSpec): (r: Outcome)
    ensures color.HexString? ==> (r.Pass? <==> HexToRgbAsWritten(color.s).Ok?)
    ensures color.HexString? && r.Fail? ==> r.error == ValueError
    ensures color.Components? ==>
      (r.Pass? <==> |color.cs| == 3 && forall i | 0 <= i < 3 :: 0 <= color.cs[i] <= 255)
    ensures color.Components? && r.Fail? ==> r.error == ValueError
    ensures color.OtherType? ==> r == Fail(TypeError)
  {
    match color
    case HexString(s) => ValidateHexString(s)
    case Components(cs) =>
      if |cs| != 3 then Fail(ValueError) else ComponentsInRange(cs)
    case OtherType => Fail(TypeError)
  }

  /** `validate_seed`: None, or an integer in 0..2**32 - 1 inclusive. */
  function ValidateSeed(seed: Option<int>): (r: Outcome)
    ensures r.Pass? <==> seed.None? || 0 <= seed.value <= 4294967295
    ensures r.Fail? ==> r.error == ValueError
  {
    match seed
    case None => Pass
    case Some(n) => if n < 0 || n > MaxSeed then Fail(ValueError) else Pass
  }

  /** A string colour passes exactly when it is `#` and six hex digits, or
      `##` and five, the second form being the one `lstrip('#')` lets through. */
  lemma ValidateColorStrings(s: string)
    ensures ValidateColor(HexString(s)).Pass? <==>
      (HexToRgb(s).Ok? || (|s| == 7 && s[..2] == "##" && AllHex(s[2..])))
  {
    if |s| >= 2 && s[1] == '#' {
      if |s| == 7 && s[0] == '#' {
        assert s[1..][0] == '#' && !IsHexDigit(s[1..][0]);
        if s[2] != '#' {
          LStripHashSkips("##", s[2..]);
          assert s == "##" + s[2..];
        } else {
          assert !IsHexDigit(s[2..][0]);
          assert |LStripHash(s)| < 5;
        }
      }
    } else {
      AsWrittenAgreesOnSingleHash(s);
    }
  }

  /** `validate_color` accepts `##abcde`. */
  lemma ValidateColorDoubleHash()
    ensures ValidateColor(HexString("##abcde")) == Pass
  {
    DoubleHashAccepted();
  }

  /** The row-height and seed cases the source's tests pin down. */
  lemma ValidationExamples()
    ensures ValidateRowHeight(Height(-10), [0]) == Fail(ValueError)
    ensures ValidateRowHeight(Height(0), [0]) == Pass
    ensures ValidateSeed(Some(MaxSeed)) == Pass && ValidateSeed(Some(MaxSeed + 1)) == Fail(ValueError)
  {
  }

  /** The component-list colour cases the source's tests pin down. */
  lemma ValidateColorExamples()
    ensures ValidateColor(Components([0, 0])) == Fail(ValueError)
    ensures ValidateColor(Components([0, 0, 500])) == Fail(ValueError)
    ensures ValidateColor(Components([500, 0, 0])) == Fail(ValueError)
    ensures ValidateColor(Components([12, 12, 12])) == Pass
  {
    assert [0, 0, 500][2] == 500 && [500, 0, 0][0] == 500;
  }

  /** The hex-string colour cases the source's tests pin down. */
  lemma ValidateHexExamples()
    ensures ValidateColor(HexString("#asdfasdfa")) == Fail(ValueError)
    ensures ValidateColor(HexString("#ffffff")) == Pass
  {
    assert |"#asdfasdfa"| == 10;
    assert HexToRgbAsWritten("#ffffff").Ok? by {
      HexToRgbWhite();
      AsWrittenAgreesOnSingleHash("#ffffff");
    }
  }
}
