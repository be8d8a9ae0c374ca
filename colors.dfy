/**
 * The colour preview helpers of the settings page: a `#rrggbb` string is read
 * into three channels, the channels into a hue in degrees, and the hue into
 * the index of the nearest of `steps` evenly spaced palette colours (index 0
 * is the gray kept for colours without a hue).
 *
 * JavaScript numbers are exact reals here. `NaN` is `None`.
 */
module Colors {
  import opened Wrappers
  import opened JsString

  /** Channel values as `Number("0x" + pair)` gives them: `None` is `NaN`. */
  datatype Rgb = Rgb(r: Option<nat>, g: Option<nat>, b: Option<nat>)

  /** `toRGB`: `null` unless the string has exactly seven characters; then the pairs at 1, 3 and 5. */
  function ToRgb(hex: string): (r: Option<Rgb>)
    ensures r.Some? <==> |hex| == 7
  {
    if |hex| != 7 then None
    else Some(Rgb(HexNumber(Substr(hex, 1, 2)), HexNumber(Substr(hex, 3, 2)), HexNumber(Substr(hex, 5, 2))))
  }

  // ---------------------------------------------------------------------
  // Hexadecimal pairs, the inverse direction of `ToRgb`

  function HexChar(d: nat): (c: char)
    requires d < 16
    ensures IsHexDigit(c) && HexDigitValue(c) == d
  {
    "0123456789abcdef"[d]
  }

  /** Two lower-case hexadecimal digits for a channel value. */
  function HexPair(n: nat): (s: string)
    requires n < 256
    ensures |s| == 2
  {
    [HexChar(n / 16), HexChar(n % 16)]
  }

  lemma HexPairValue(n: nat)
    requires n < 256
    ensures HexNumber(HexPair(n)) == Some(n)
  {
    var s := HexPair(n);
    assert TrimEnd(s) == s;
    assert s[..1] == [s[0]];
    assert HexValue(s[..1]) == HexDigitValue(s[0]);
  }

  /** A seven-character string is read whatever its first character: the channels are its pairs at 1, 3 and 5. */
  lemma ToRgbPairs(hex: string)
    requires |hex| == 7
    ensures ToRgb(hex) == Some(Rgb(HexNumber(hex[1..3]), HexNumber(hex[3..5]), HexNumber(hex[5..7])))
  {
  }

  /** `toRGB` reads back the channels `#rrggbb` was written from. */
  lemma ToRgbOfHex(r: nat, g: nat, b: nat)
    requires r < 256 && g < 256 && b < 256
    ensures ToRgb(['#'] + HexPair(r) + HexPair(g) + HexPair(b)) == Some(Rgb(Some(r), Some(g), Some(b)))
  {
    var hex := ['#'] + HexPair(r) + HexPair(g) + HexPair(b);
    ToRgbPairs(hex);
    assert hex[1..3] == HexPair(r);
    assert hex[3..5] == HexPair(g);
    assert hex[5..7] == HexPair(b);
    HexPairValue(r);
    HexPairValue(g);
    HexPairValue(b);
  }

  /** Every channel `toRGB` reads is at most 255, or `NaN`. */
  lemma ToRgbBounded(hex: string)
    requires ToRgb(hex).Some?
    ensures Bounded(ToRgb(hex).value)
  {
    ToRgbPairs(hex);
    PairBounded(hex[1..3]);
    PairBounded(hex[3..5]);
    PairBounded(hex[5..7]);
  }

  lemma PairBounded(s: string)
    requires |s| == 2
    ensures HexNumber(s).Some? ==> HexNumber(s).value <= 255
  {
    var d := TrimEnd(s);
    if HexNumber(s).Some? {
      HexValueTwoDigits(d);
    }
  }

  predicate Bounded(c: Rgb) {
    (c.r.Some? ==> c.r.value <= 255) && (c.g.Some? ==> c.g.value <= 255) && (c.b.Some? ==> c.b.value <= 255)
  }

  // ---------------------------------------------------------------------
  // The `forEach` folds that find the extreme channels

  /** `xs.forEach(e => m = (m < e) ? m : e)` starting from `m`. */
  function MinFold(xs: seq<real>, m: real): (r: real)
    decreases |xs|
  {
    if xs == [] then m else MinFold(xs[1..], if m < xs[0] then m else xs[0])
  }

  /** `xs.forEach(e => m = (m < e) ? e : m)` starting from `m`. */
  function MaxFold(xs: seq<real>, m: real): (r: real)
    decreases |xs|
  {
    if xs == [] then m else MaxFold(xs[1..], if m < xs[0] then xs[0] else m)
  }

  /** The minimum fold is the least of the start value and the elements. */
  lemma {:induction false} MinFoldLeast(xs: seq<real>, m: real)
    ensures MinFold(xs, m) <= m
    ensures forall i :: 0 <= i < |xs| ==> MinFold(xs, m) <= xs[i]
    ensures MinFold(xs, m) == m || MinFold(xs, m) in xs
    decreases |xs|
  {
    if xs != [] {
      var m' := if m < xs[0] then m else xs[0];
      MinFoldLeast(xs[1..], m');
      forall i | 0 <= i < |xs| ensures MinFold(xs, m) <= xs[i] {
        if i > 0 {
          assert xs[i] == xs[1..][i - 1];
        }
      }
    }
  }

  /** The maximum fold is the greatest of the start value and the elements. */
  lemma {:induction false} MaxFoldGreatest(xs: seq<real>, m: real)
    ensures MaxFold(xs, m) >= m
    ensures forall i :: 0 <= i < |xs| ==> MaxFold(xs, m) >= xs[i]
    ensures MaxFold(xs, m) == m || MaxFold(xs, m) in xs
    decreases |xs|
  {
    if xs != [] {
      var m' := if m < xs[0] then xs[0] else m;
      MaxFoldGreatest(xs[1..], m');
      forall i | 0 <= i < |xs| ensures MaxFold(xs, m) >= xs[i] {
        if i > 0 {
          assert xs[i] == xs[1..][i - 1];
        }
      }
    }
  }

  // ---------------------------------------------------------------------
  // `calcHue`

  /**
   * The hue in the sextant of the largest channel, before scaling: the red
   * test comes first, so a tie between red and another channel is read as red.
   */
  function Sextant(red: real, green: real, blue: real, lo: real, hi: real): real
    requires lo < hi
  {
    if hi == red then (green - blue) / (hi - lo)
    else if hi == green then 2.0 + (blue - red) / (hi - lo)
    else 4.0 + (red - green) / (hi - lo)
  }

  /**
   * `calcHue`. A `NaN` channel makes the result `NaN`: the gray test fails,
   * and whichever channel ends up largest, the formula of its branch reads
   * both other channels, one of which is the `NaN`.
   */
  function CalcHue(c: Rgb): Option<real> {
    if c.r.None? || c.g.None? || c.b.None? then None
    else
      var red := c.r.value as real / 255.0;
      var green := c.g.value as real / 255.0;
      var blue := c.b.value as real / 255.0;
      if red == green && green == blue then Some(-1.0)
      else
        var lo := MinFold([red, green, blue], 1.0);
        var hi := MaxFold([red, green, blue], 0.0);
        ExtremesApart(red, green, blue);
        var hue := Sextant(red, green, blue, lo, hi) * 60.0;
        Some(if hue < 0.0 then hue + 360.0 else hue)
  }

  /** Unless all three channels agree, the folds' minimum and maximum differ, and bracket every channel. */
  lemma ExtremesApart(red: real, green: real, blue: real)
    requires !(red == green && green == blue)
    ensures MinFold([red, green, blue], 1.0) < MaxFold([red, green, blue], 0.0)
    ensures MinFold([red, green, blue], 1.0) <= red <= MaxFold([red, green, blue], 0.0)
    ensures MinFold([red, green, blue], 1.0) <= green <= MaxFold([red, green, blue], 0.0)
    ensures MinFold([red, green, blue], 1.0) <= blue <= MaxFold([red, green, blue], 0.0)
  {
    var xs := [red, green, blue];
    MinFoldLeast(xs, 1.0);
    MaxFoldGreatest(xs, 0.0);
    assert xs[0] == red && xs[1] == green && xs[2] == blue;
  }

  /** `calcHue` is -1 exactly when the three channels are equal numbers. */
  lemma CalcHueGray(c: Rgb)
    ensures CalcHue(c) == Some(-1.0) <==> (c.r.Some? && c.g.Some? && c.b.Some? && c.r.value == c.g.value == c.b.value)
  {
    if c.r.Some? && c.g.Some? && c.b.Some? && !(c.r.value == c.g.value == c.b.value) {
      CalcHueRange(c);
    }
  }

  /** `calcHue` is `NaN` exactly when a channel is `NaN`. */
  lemma CalcHueNaN(c: Rgb)
    ensures CalcHue(c).None? <==> (c.r.None? || c.g.None? || c.b.None?)
  {
  }

  /** The largest difference between two channels over the spread of the extremes is at most 1. */
  lemma SpreadBound(x: real, y: real, lo: real, hi: real)
    requires lo <= x <= hi && lo <= y <= hi && lo < hi
    ensures -1.0 <= (x - y) / (hi - lo) <= 1.0
  {
    DivBounds(x - y, hi - lo);
  }

  lemma DivBounds(a: real, d: real)
    requires d > 0.0 && -d <= a <= d
    ensures -1.0 <= a / d <= 1.0
  {
    var q := a / d;
    assert q * d == a;
    assert (1.0 - q) * d == d - a;
    assert (1.0 + q) * d == d + a;
  }

  /** A hue that is not gray lies in [0, 360). */
  lemma CalcHueRange(c: Rgb)
    requires c.r.Some? && c.g.Some? && c.b.Some? && !(c.r.value == c.g.value == c.b.value)
    ensures CalcHue(c).Some? && 0.0 <= CalcHue(c).value < 360.0
  {
    CalcHueSextant(c);
  }

  /**
   * Which sextant the hue falls in is decided by the largest channel, red
   * first: red gives [0, 60] or [300, 360), green [60, 180], blue [180, 300].
   */
  lemma CalcHueSextant(c: Rgb)
    requires c.r.Some? && c.g.Some? && c.b.Some? && !(c.r.value == c.g.value == c.b.value)
    ensures CalcHue(c).Some?
    ensures c.r.value >= c.g.value && c.r.value >= c.b.value ==>
              (0.0 <= CalcHue(c).value <= 60.0 || 300.0 <= CalcHue(c).value < 360.0)
    ensures !(c.r.value >= c.g.value && c.r.value >= c.b.value) && c.g.value >= c.b.value ==>
              60.0 <= CalcHue(c).value <= 180.0
    ensures !(c.r.value >= c.g.value && c.r.value >= c.b.value) && c.g.value < c.b.value ==>
              180.0 <= CalcHue(c).value <= 300.0
  {
    var red := c.r.value as real / 255.0;
    var green := c.g.value as real / 255.0;
    var blue := c.b.value as real / 255.0;
    var xs := [red, green, blue];
    var lo := MinFold(xs, 1.0);
    var hi := MaxFold(xs, 0.0);
    ExtremesApart(red, green, blue);
    MaxFoldGreatest(xs, 0.0);
    assert hi == red || hi == green || hi == blue;
    SpreadBound(green, blue, lo, hi);
    SpreadBound(blue, red, lo, hi);
    SpreadBound(red, green, lo, hi);
  }

  // ---------------------------------------------------------------------
  // `closestColor`

  /**
   * `closestColor(hue, steps)`: 0 (gray) for a negative hue, else the index
   * of the nearest of `steps` evenly spaced hues, plus one. `NaN` in gives
   * `NaN` out, and so does `steps == 0`, where the step is `Infinity`.
   */
  function ClosestColor(hue: Option<real>, steps: nat): (r: Option<int>)
    ensures r.None? <==> hue.None? || (hue.value >= 0.0 && steps == 0)
    ensures r.Some? ==> (r.value == 0 <==> hue.value < 0.0)
    ensures r.Some? ==> r.value >= 0
  {
    if hue.None? then None
    else if hue.value < 0.0 then Some(0)
    else if steps == 0 then None
    else
      var size := 360.0 / steps as real;
      Some(Floor((hue.value + size / 2.0) / size) + 1)
  }

  /** Any negative hue is gray, whatever the number of steps. */
  lemma ClosestColorNegative(hue: real, steps: nat)
    requires hue < 0.0
    ensures ClosestColor(Some(hue), steps) == Some(0)
  {
  }

  /** With the default twelve steps, the index is floor((hue + 15) / 30) + 1, with no wrap-around. */
  lemma ClosestColorTwelve(hue: real)
    requires hue >= 0.0
    ensures ClosestColor(Some(hue), 12) == Some(Floor((hue + 15.0) / 30.0) + 1)
  {
    assert 360.0 / 12.0 == 30.0;
  }

  lemma DivideMonotone(x: real, y: real, d: real)
    requires x <= y && d > 0.0
    ensures x / d <= y / d
  {
    assert y / d - x / d == (y - x) / d;
  }

  /** A larger hue never gives a smaller index, for the same number of steps. */
  lemma ClosestColorMonotone(h1: real, h2: real, steps: nat)
    requires h1 <= h2 && steps >= 1
    ensures ClosestColor(Some(h1), steps).Some? && ClosestColor(Some(h2), steps).Some?
    ensures ClosestColor(Some(h1), steps).value <= ClosestColor(Some(h2), steps).value
  {
    if h1 >= 0.0 {
      var size := 360.0 / steps as real;
      DivideMonotone(h1 + size / 2.0, h2 + size / 2.0, size);
    }
  }

  /** The last half step below 360 gives index 13, one past the thirteen-entry palette (0 to 12). */
  lemma ClosestColorOverflow(hue: real)
    requires 345.0 <= hue < 360.0
    ensures ClosestColor(Some(hue), 12) == Some(13)
  {
    ClosestColorTwelve(hue);
  }

  /** An example: `#ff0010` is red with a touch of blue, hue 356.2..., and gets index 13. */
  lemma PreviewOverflowExample()
    ensures ToRgb(['#'] + HexPair(255) + HexPair(0) + HexPair(16)) == Some(Rgb(Some(255), Some(0), Some(16)))
    ensures 345.0 <= CalcHue(Rgb(Some(255), Some(0), Some(16))).value < 360.0
    ensures ClosestColor(CalcHue(Rgb(Some(255), Some(0), Some(16))), 12) == Some(13)
  {
    ToRgbOfHex(255, 0, 16);
    ExtremesApart(1.0, 0.0, 16.0 / 255.0);
    assert MinFold([1.0, 0.0, 16.0 / 255.0], 1.0) == 0.0;
    assert MaxFold([1.0, 0.0, 16.0 / 255.0], 0.0) == 1.0;
    ClosestColorOverflow(CalcHue(Rgb(Some(255), Some(0), Some(16))).value);
  }

  /**
   * `closestColor` as evidently intended: the index wraps modulo `steps`, as
   * the chat overlay's own palette rule does, so the hues just below 360 go
   * back to the first colour.
   */
  function ClosestColorWrapped(hue: Option<real>, steps: nat): Option<int> {
    if hue.None? then None
    else if hue.value < 0.0 then Some(0)
    else if steps == 0 then None
    else
      var size := 360.0 / steps as real;
      Some(Floor((hue.value + size / 2.0) / size) % steps as int + 1)
  }

  /** The wrapped index always names a palette entry: 0 for gray, else 1 to `steps`. */
  lemma ClosestColorWrappedRange(hue: real, steps: nat)
    requires steps >= 1
    ensures ClosestColorWrapped(Some(hue), steps).Some?
    ensures 0 <= ClosestColorWrapped(Some(hue), steps).value <= steps
    ensures ClosestColorWrapped(Some(hue), steps).value == 0 <==> hue < 0.0
  {
  }

  /** Below the last half step the wrapped index is the one `closestColor` gives. */
  lemma ClosestColorWrappedAgrees(hue: real)
    requires 0.0 <= hue < 345.0
    ensures ClosestColorWrapped(Some(hue), 12) == ClosestColor(Some(hue), 12)
  {
    assert 360.0 / 12.0 == 30.0;
    assert (hue + 15.0) / 30.0 < 12.0;
  }

  /** From the last half step on, the wrapped index is the first colour again. */
  lemma ClosestColorWrappedTurns(hue: real)
    requires 345.0 <= hue < 360.0
    ensures ClosestColorWrapped(Some(hue), 12) == Some(1)
  {
    assert 360.0 / 12.0 == 30.0;
    assert 12.0 <= (hue + 15.0) / 30.0 < 13.0;
  }
}
