/**
 * How the chat overlay picks the accent colour of a message: the `color`
 * tag (or, without one, the sender's name) becomes a hue with
 * `getColorHue`, and the hue becomes an index into a thirteen-entry palette
 * whose first entry is gray.
 */
module ChatColor {
  import opened Wrappers
  import opened JsString
  import opened IrcMessage
  import Colors

  /** The accent palette; entry 0 is the gray of colours without a hue. */
  const Palette: seq<string> := [
    "--gAccentColorGray", "--gAccentColorRed", "--gAccentColorOrange", "--gAccentColorYellow",
    "--gAccentColorLime", "--gAccentColorGreen", "--gAccentColorMint", "--gAccentColorTeal",
    "--gAccentColorBlue", "--gAccentColorPurple", "--gAccentColorLavender", "--gAccentColorPink",
    "--gAccentColorBlush"
  ]

  /** The sum of the UTF-16 code units of a string. */
  function CharCodeSum(s: string): nat {
    if s == [] then 0 else CharCodeSum(s[..|s| - 1]) + s[|s| - 1] as nat
  }

  /** `Number("0x" + digits) / 255`, `None` for `NaN`. */
  function Channel(digits: string): Option<real> {
    var n := HexNumber(digits);
    if n.None? then None else Some(n.value as real / 255.0)
  }

  /** The three channels `getColorHue` reads from the text after `#`: equal thirds, rounded down. */
  function Channels(t: string): seq<Option<real>> {
    var compLen := |t| / 3;
    [Channel(Substr(t, 0, compLen)), Channel(Substr(t, compLen, compLen)), Channel(Substr(t, 2 * compLen, compLen))]
  }

  /** The check `!(color[i] < 256)` fails for every channel: each is a number below 256. */
  predicate AllBelow256(color: seq<Option<real>>) {
    forall i :: 0 <= i < |color| ==> color[i].Some? && color[i].value < 256.0
  }

  /** `%` on numbers: the remainder has the sign of the dividend. */
  function FloatRem(x: real, m: real): real
    requires m > 0.0
  {
    var q := if x >= 0.0 then Floor(x / m) else -Floor(-x / m);
    x - m * q as real
  }

  /** The hue of channels that passed the number check: -1 when the extremes coincide. */
  function HueOfChannels(red: real, green: real, blue: real): real {
    var lo := Colors.MinFold([red, green, blue], 1.0);
    var hi := Colors.MaxFold([red, green, blue], 0.0);
    if lo == hi then -1.0
    else
      FoldsOrdered(red, green, blue);
      FloatRem(Colors.Sextant(red, green, blue, lo, hi) + 6.0, 6.0) * 60.0
  }

  /** The folds' minimum never exceeds their maximum. */
  lemma FoldsOrdered(red: real, green: real, blue: real)
    ensures Colors.MinFold([red, green, blue], 1.0) <= Colors.MaxFold([red, green, blue], 0.0)
  {
    Colors.MinFoldLeast([red, green, blue], 1.0);
    Colors.MaxFoldGreatest([red, green, blue], 0.0);
    assert [red, green, blue][0] == red;
  }

  /**
   * `getColorHue`: -1 for a missing or empty string; the code-unit sum
   * modulo 360 for a string that does not start with `#`; otherwise the hue
   * of the three channels after the `#`, or -1 when one of them is not a
   * number below 256.
   */
  function ColorHue(colorString: Option<string>): real {
    if colorString.None? || colorString.value == "" then -1.0
    else
      var s := colorString.value;
      if s[0] != '#' then (CharCodeSum(s) % 360) as real
      else
        var color := Channels(SliceFrom(s, 1));
        if !AllBelow256(color) then -1.0
        else HueOfChannels(color[0].value, color[1].value, color[2].value)
  }

  /** `getColorHue`, with its loops: the hash sum, the number check and the two `forEach` folds. */
  method GetColorHue(colorString: Option<string>) returns (hue: real)
    ensures hue == ColorHue(colorString)
  {
    if colorString.None? || colorString.value == "" {
      return -1.0;
    }
    var s := colorString.value;
    if s[0] != '#' {
      var hashval := 0;
      var i := 0;
      while i < |s|
        invariant 0 <= i <= |s|
        invariant hashval == CharCodeSum(s[..i])
      {
        assert s[..i + 1][..i] == s[..i];
        hashval := hashval + s[i] as int;
        i := i + 1;
      }
      assert s[..i] == s;
      return (hashval % 360) as real;
    }
    var color := Channels(SliceFrom(s, 1));
    var i := 0;
    while i < |color|
      invariant 0 <= i <= |color|
      invariant forall j :: 0 <= j < i ==> color[j].Some? && color[j].value < 256.0
    {
      if !(color[i].Some? && color[i].value < 256.0) {
        return -1.0;
      }
      i := i + 1;
    }
    var values := [color[0].value, color[1].value, color[2].value];
    var min := 1.0;
    var max := 0.0;
    i := 0;
    while i < |values|
      invariant 0 <= i <= |values|
      invariant Colors.MinFold(values, 1.0) == Colors.MinFold(values[i..], min)
    {
      assert values[i..][1..] == values[i + 1..];
      min := if min < values[i] then min else values[i];
      i := i + 1;
    }
    i := 0;
    while i < |values|
      invariant 0 <= i <= |values|
      invariant Colors.MaxFold(values, 0.0) == Colors.MaxFold(values[i..], max)
    {
      assert values[i..][1..] == values[i + 1..];
      max := if max < values[i] then values[i] else max;
      i := i + 1;
    }
    if min == max {
      return -1.0;
    }
    FoldsOrdered(values[0], values[1], values[2]);
    var uHue := Colors.Sextant(values[0], values[1], values[2], min, max);
    uHue := FloatRem(uHue + 6.0, 6.0);
    return uHue * 60.0;
  }

  // ---------------------------------------------------------------------
  // Properties of the hue

  /** A missing or empty string is gray. */
  lemma ColorHueMissing(colorString: Option<string>)
    requires colorString.None? || colorString.value == ""
    ensures ColorHue(colorString) == -1.0
  {
  }

  /** A name (no leading `#`) hashes to the sum of its code units modulo 360: a whole number in [0, 360). */
  lemma ColorHueOfName(s: string)
    requires s != "" && s[0] != '#'
    ensures ColorHue(Some(s)) == (CharCodeSum(s) % 360) as real
    ensures 0.0 <= ColorHue(Some(s)) < 360.0
  {
  }

  /** Every hue is -1 or lies in [0, 360). */
  lemma ColorHueRange(colorString: Option<string>)
    ensures ColorHue(colorString) == -1.0 || 0.0 <= ColorHue(colorString) < 360.0
  {
    if colorString.Some? && colorString.value != "" && colorString.value[0] == '#' {
      var color := Channels(SliceFrom(colorString.value, 1));
      if AllBelow256(color) {
        HueRange(color[0].value, color[1].value, color[2].value);
      }
    }
  }

  /** The hue of two differing extremes lies in [0, 360). */
  lemma HueRange(red: real, green: real, blue: real)
    ensures HueOfChannels(red, green, blue) == -1.0 || 0.0 <= HueOfChannels(red, green, blue) < 360.0
  {
    var lo := Colors.MinFold([red, green, blue], 1.0);
    var hi := Colors.MaxFold([red, green, blue], 0.0);
    if lo != hi {
      SextantBounds(red, green, blue);
      var x := Colors.Sextant(red, green, blue, lo, hi) + 6.0;
      RemSix(x);
    }
  }

  /** The sextant value lies in [-1, 5]. */
  lemma SextantBounds(red: real, green: real, blue: real)
    requires Colors.MinFold([red, green, blue], 1.0) != Colors.MaxFold([red, green, blue], 0.0)
    ensures Colors.MinFold([red, green, blue], 1.0) < Colors.MaxFold([red, green, blue], 0.0)
    ensures -1.0 <= Colors.Sextant(red, green, blue, Colors.MinFold([red, green, blue], 1.0), Colors.MaxFold([red, green, blue], 0.0)) <= 5.0
  {
    var xs := [red, green, blue];
    var lo := Colors.MinFold(xs, 1.0);
    var hi := Colors.MaxFold(xs, 0.0);
    Colors.MinFoldLeast(xs, 1.0);
    Colors.MaxFoldGreatest(xs, 0.0);
    assert xs[0] == red && xs[1] == green && xs[2] == blue;
    Colors.SpreadBound(green, blue, lo, hi);
    Colors.SpreadBound(blue, red, lo, hi);
    Colors.SpreadBound(red, green, lo, hi);
  }

  /** For `x` in [5, 11], `x % 6` is `x` below 6 and `x - 6` from 6 on. */
  lemma RemSix(x: real)
    requires 5.0 <= x <= 11.0
    ensures FloatRem(x, 6.0) == (if x < 6.0 then x else x - 6.0)
    ensures 0.0 <= FloatRem(x, 6.0) < 6.0
  {
    if x < 6.0 {
      assert Floor(x / 6.0) == 0;
    } else {
      assert 1.0 <= x / 6.0 < 2.0;
      assert Floor(x / 6.0) == 1;
    }
  }

  /**
   * On a `#rrggbb` string of hexadecimal pairs, `getColorHue` agrees with the
   * settings page's `calcHue` of `toRGB`: the same test for gray and the same
   * hue, though one normalises negative sextants by `% 6` and the other by
   * adding 360.
   */
  lemma ColorHueAgreesWithCalcHue(s: string)
    requires |s| == 7 && s[0] == '#'
    requires Colors.ToRgb(s).value.r.Some? && Colors.ToRgb(s).value.g.Some? && Colors.ToRgb(s).value.b.Some?
    ensures Colors.CalcHue(Colors.ToRgb(s).value).Some?
    ensures ColorHue(Some(s)) == Colors.CalcHue(Colors.ToRgb(s).value).value
  {
    var t := SliceFrom(s, 1);
    assert Substr(t, 0, 2) == Substr(s, 1, 2);
    assert Substr(t, 2, 2) == Substr(s, 3, 2);
    assert Substr(t, 4, 2) == Substr(s, 5, 2);
    var c := Colors.ToRgb(s).value;
    Colors.ToRgbBounded(s);
    assert Channels(t) == [Some(c.r.value as real / 255.0), Some(c.g.value as real / 255.0), Some(c.b.value as real / 255.0)];
    ChannelsAgree(c);
  }

  /** The two hue formulas agree on channels of at most 255. */
  lemma ChannelsAgree(c: Colors.Rgb)
    requires c.r.Some? && c.g.Some? && c.b.Some? && Colors.Bounded(c)
    ensures Colors.CalcHue(c).Some?
    ensures HueOfChannels(c.r.value as real / 255.0, c.g.value as real / 255.0, c.b.value as real / 255.0)
         == Colors.CalcHue(c).value
  {
    var red := c.r.value as real / 255.0;
    var green := c.g.value as real / 255.0;
    var blue := c.b.value as real / 255.0;
    var xs := [red, green, blue];
    var lo := Colors.MinFold(xs, 1.0);
    var hi := Colors.MaxFold(xs, 0.0);
    Colors.MinFoldLeast(xs, 1.0);
    Colors.MaxFoldGreatest(xs, 0.0);
    assert xs[0] == red && xs[1] == green && xs[2] == blue;
    if !(red == green && green == blue) {
      Colors.ExtremesApart(red, green, blue);
      SextantBounds(red, green, blue);
      RemSix(Colors.Sextant(red, green, blue, lo, hi) + 6.0);
    } else {
      assert lo == red && hi == red;
    }
  }

  // ---------------------------------------------------------------------
  // The palette index

  /**
   * The palette entry a hue selects: 0 (gray) for a negative hue, else the
   * nearest of twelve hue steps, wrapped so that the last half step goes
   * back to the first colour, plus one.
   */
  function PaletteIndex(hue: real): int {
    var paletteSize := if |Palette| - 1 > 0 then |Palette| - 1 else 1;
    var stepsize := 360.0 / paletteSize as real;
    var coloridx := if hue >= 0.0 then Floor((hue + stepsize / 2.0) / stepsize) % paletteSize else -1;
    coloridx + 1
  }

  /** Hue -1 gives gray; any hue in [0, 360) gives floor((hue + 15) / 30) mod 12 + 1, in 1 to 12. */
  lemma PaletteIndexRange(hue: real)
    ensures hue < 0.0 ==> PaletteIndex(hue) == 0
    ensures hue >= 0.0 ==> PaletteIndex(hue) == Floor((hue + 15.0) / 30.0) % 12 + 1
    ensures hue >= 0.0 ==> 1 <= PaletteIndex(hue) <= 12
    ensures 0 <= PaletteIndex(hue) < |Palette|
  {
    assert |Palette| == 13;
    assert 360.0 / 12.0 == 30.0;
  }

  /** The overlay's rule is the settings page's `closestColor` with the wrap-around added. */
  lemma PaletteIndexWrapped(hue: real)
    ensures Colors.ClosestColorWrapped(Some(hue), 12) == Some(PaletteIndex(hue))
  {
    PaletteIndexRange(hue);
    assert 360.0 / 12.0 == 30.0;
  }

  /**
   * The string `getColorHue` is given: the `color` tag when it is truthy and
   * seven characters long, `null` when it is truthy but of another length,
   * and the sender's name when the tag is missing, null or empty.
   */
  function ColorInput(tag: TagValue, name: Option<string>): Option<string> {
    if tag.Text? && tag.text != "" then (if |tag.text| != 7 then None else Some(tag.text))
    else name
  }

  /** The palette entry of a message. */
  function AccentIndex(tag: TagValue, name: Option<string>): int {
    PaletteIndex(ColorHue(ColorInput(tag, name)))
  }

  /** A colour tag whose length is not 7 is forced to gray. */
  lemma BadColorTagGray(tag: string, name: Option<string>)
    requires tag != "" && |tag| != 7
    ensures AccentIndex(Text(tag), name) == 0
  {
  }

  /** Every message gets a palette entry: gray, or one of the twelve colours. */
  lemma AccentIndexInPalette(tag: TagValue, name: Option<string>)
    ensures 0 <= AccentIndex(tag, name) < |Palette|
    ensures AccentIndex(tag, name) == 0 <==> ColorHue(ColorInput(tag, name)) == -1.0
  {
    ColorHueRange(ColorInput(tag, name));
    PaletteIndexRange(ColorHue(ColorInput(tag, name)));
  }
}
