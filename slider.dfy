/** The speed slider of main.py: the conversions between a speed value and the knob's
    x coordinate. The widget's drawing and event handling are not part of this model. */
module SliderModel {
  import opened Wrappers
  import opened PyNum

  /** The geometry the conversions read: the track's left edge and width, and the value range. */
  datatype Slider = Slider(x: int, width: int, minVal: int, maxVal: int)

  /** The slider main() builds: at x = 10, 280 pixels wide, speeds 1 to 10. */
  const SpeedSlider: Slider := Slider(10, 280, 1, 10)

  /** `value_to_pos`: the fraction of the value range, scaled to the track and truncated by
      `int()`. `None` is the division by zero of an empty value range. */
  function ValueToPos(s: Slider, value: int): (r: Option<int>)
    ensures r.None? <==> s.maxVal == s.minVal
    ensures r.Some? && s.minVal <= value <= s.maxVal && 0 <= s.width ==>
              s.x <= r.value <= s.x + s.width
    ensures r.Some? && value == s.minVal ==> r.value == s.x
    ensures r.Some? && value == s.maxVal ==> r.value == s.x + s.width
  {
    if s.maxVal == s.minVal then None
    else
      var ratio := (value - s.minVal) as real / (s.maxVal - s.minVal) as real;
      SelfQuotient((s.maxVal - s.minVal) as real);
      ScaledFractionBounds(ratio, s.width);
      Some(s.x + Trunc(ratio * s.width as real))
  }

  /** `pos_to_value`: the fraction of the track, scaled to the value range, rounded half to
      even and clamped. `None` is the division by zero of a zero-width track. */
  function PosToValue(s: Slider, pos: int): (r: Option<int>)
    ensures r.None? <==> s.width == 0
    ensures r.Some? && s.minVal <= s.maxVal ==> s.minVal <= r.value <= s.maxVal
    ensures r.Some? && s.minVal > s.maxVal ==> r.value == s.minVal
  {
    if s.width == 0 then None
    else Some(Max(s.minVal, Min(s.maxVal, Round(Reading(s, pos)))))
  }

  /** The unrounded value under `pos`: its fraction of the track scaled to the value range. */
  function Reading(s: Slider, pos: int): real
    requires s.width != 0
  {
    s.minVal as real + (pos - s.x) as real / s.width as real * (s.maxVal - s.minVal) as real
  }

  /** A fraction in [0, 1] of a non-negative width truncates to a pixel within the width. */
  lemma ScaledFractionBounds(ratio: real, width: int)
    ensures 0.0 <= ratio <= 1.0 && 0 <= width ==> 0 <= Trunc(ratio * width as real) <= width
    ensures ratio == 0.0 ==> Trunc(ratio * width as real) == 0
    ensures ratio == 1.0 ==> Trunc(ratio * width as real) == width
  {
    var w := width as real;
    if 0.0 <= ratio <= 1.0 && 0 <= width {
      ScaleWithin(ratio, w);
    }
    if ratio == 1.0 {
      assert ratio * w == w;
    }
  }

  lemma ScaleWithin(ratio: real, w: real)
    requires 0.0 <= ratio <= 1.0 && 0.0 <= w
    ensures 0.0 <= ratio * w <= w
  {
  }

  lemma SelfQuotient(k: real)
    requires k != 0.0
    ensures k / k == 1.0
  {
  }

  /** Placing the knob for a value and reading the value back returns that value whenever the
      track has more than two pixels per unit of the range: truncating the pixel loses less
      than half a unit, which rounding restores. */
  lemma {:induction false} RoundTrip(s: Slider, value: int)
    requires s.minVal < s.maxVal && 2 * (s.maxVal - s.minVal) < s.width
    requires s.minVal <= value <= s.maxVal
    ensures ValueToPos(s, value).Some?
    ensures PosToValue(s, ValueToPos(s, value).value) == Some(value)
  {
    var k := (s.maxVal - s.minVal) as real;
    var w := s.width as real;
    var u := (value - s.minVal) as real;
    var pixel := Trunc(u / k * w);
    assert ValueToPos(s, value).value == s.x + pixel;
    PixelLossBelowHalf(k, w, u, pixel);
    ReadBack(s, pixel, value);
  }

  /** Reading back the knob at `pixel` past the track's left edge yields `value` when the
      unrounded reading lies in `(value - 1/2, value]`. */
  lemma ReadBack(s: Slider, pixel: int, value: int)
    requires s.minVal <= value <= s.maxVal && 0 < s.width
    requires var read := pixel as real / s.width as real * (s.maxVal - s.minVal) as real;
             (value - s.minVal) as real - 0.5 < read <= (value - s.minVal) as real
    ensures PosToValue(s, s.x + pixel) == Some(value)
  {
    assert (s.x + pixel - s.x) as real == pixel as real;
    var read := Reading(s, s.x + pixel);
    assert value as real - 0.5 < read <= value as real;
    RoundNear(read, value);
  }

  /** The arithmetic of `RoundTrip`: with `pixel = floor(u / k * w)`, mapping the pixel back
      gives a value in `(u - 1/2, u]`. */
  lemma PixelLossBelowHalf(k: real, w: real, u: real, pixel: int)
    requires 0.0 < k && 2.0 * k < w
    requires pixel as real <= u / k * w < pixel as real + 1.0
    ensures u - 0.5 < pixel as real / w * k <= u
  {
    var r := w / k;
    DivBothStrict(2.0 * k, w, k);
    TimesOver(2.0, k);
    Regroup(u, k, w, pixel as real);
    LossBelowHalf(pixel as real, u, r);
  }

  /** With `r` pixels per unit, a pixel `p` with `p <= u * r < p + 1` reads back within half
      a unit below `u`. */
  lemma LossBelowHalf(p: real, u: real, r: real)
    requires 2.0 < r && p <= u * r < p + 1.0
    ensures u - 0.5 < p / r <= u
  {
    DivBoth(p, u * r, r);
    DivBothStrict(u * r, p + 1.0, r);
    assert u * r / r == u;
    assert (p + 1.0) / r == p / r + 1.0 / r;
    assert 1.0 / r < 0.5;
  }

  lemma TimesOver(a: real, c: real)
    requires c != 0.0
    ensures a * c / c == a
  {
  }

  lemma Regroup(u: real, k: real, w: real, p: real)
    requires 0.0 < k && 0.0 < w
    ensures u / k * w == u * (w / k)
    ensures p / w * k == p / (w / k)
  {
  }

  lemma DivBoth(a: real, b: real, c: real)
    requires a <= b && 0.0 < c
    ensures a / c <= b / c
  {
  }

  lemma DivBothStrict(a: real, b: real, c: real)
    requires a < b && 0.0 < c
    ensures a / c < b / c
  {
  }

  /** The slider main() builds reads back every speed it can show. */
  lemma SpeedSliderRoundTrips(value: int)
    requires 1 <= value <= 10
    ensures PosToValue(SpeedSlider, ValueToPos(SpeedSlider, value).value) == Some(value)
  {
    RoundTrip(SpeedSlider, value);
  }
}
