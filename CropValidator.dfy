/**
 * The colour heuristic that decides whether a photo plausibly shows a crop
 * (`validateCropImage`). Every pixel is tested against two independent
 * predicates, "green-like" and "yellow-like"; the image is crop-like when
 * the two shares together exceed five percent of the pixels.
 */
module CropValidator {

  /** One colour sample of a canvas pixel, as `getImageData` delivers it. */
  type Channel = x: int | 0 <= x < 256

  /** The red, green and blue samples of a pixel; the alpha sample is never read. */
  datatype Pixel = Pixel(r: Channel, g: Channel, b: Channel)

  /** What the validator resolves with: the two counts, the pixel count and the verdict. */
  datatype Validation = Validation(greenPixels: nat, yellowPixels: nat, totalPixels: nat, hasCropColors: bool)

  function Abs(x: int): nat { if x < 0 then -x else x }

  /** The green test. */
  function IsGreenLike(p: Pixel): (b: bool)
    // Green dominates: it is above 80, more than 20 above red, and above blue.
    ensures b ==> 80 < p.g && p.r < p.g - 20 && p.b < p.g
    // So no pixel whose red equals its green passes, grey ones included.
    ensures p.r == p.g ==> !b
  {
    p.g > 80 && p.g > p.r && p.g > p.b && p.g - p.r > 20
  }

  /** The yellow test. */
  function IsYellowLike(p: Pixel): (b: bool)
    // Red and green are both above 100 and within 50 of each other, blue below 150.
    ensures b ==> 100 < p.r && 100 < p.g && p.b < 150 && p.g - 50 < p.r < p.g + 50
    // Light greys (every channel the same, between 101 and 149) pass as yellow.
    ensures p.r == p.g == p.b && 100 < p.r < 150 ==> b
  {
    p.r > 100 && p.g > 100 && p.b < 150 && Abs(p.r - p.g) < 50
  }

  /** How many pixels of `ps` satisfy `f`, counted front to back as the scan does. */
  function CountWhere(ps: seq<Pixel>, f: Pixel -> bool): (n: nat)
    ensures n <= |ps|
  {
    if ps == [] then 0
    else CountWhere(ps[..|ps| - 1], f) + (if f(ps[|ps| - 1]) then 1 else 0)
  }

  function CountGreen(ps: seq<Pixel>): nat { CountWhere(ps, IsGreenLike) }

  function CountYellow(ps: seq<Pixel>): nat { CountWhere(ps, IsYellowLike) }

  /**
   * The threshold `cropColorPercentage > 5`, multiplied out by the pixel
   * count: `100 * (green + yellow) > 5 * total`. With no pixels it is false,
   * as the source's `NaN > 5` is.
   */
  predicate IsCropLike(green: nat, yellow: nat, total: nat)
  {
    100 * (green + yellow) > 5 * total
  }

  /** The validation the scan of `ps` must produce. */
  function ValidationOf(ps: seq<Pixel>): Validation
  {
    var g, y := CountGreen(ps), CountYellow(ps);
    Validation(g, y, |ps|, IsCropLike(g, y, |ps|))
  }

  /** The scan of `validateCropImage`: one pass over every pixel, no early exit. */
  method ValidateCropImage(pixels: seq<Pixel>) returns (v: Validation)
    ensures v == ValidationOf(pixels)
    ensures v.greenPixels <= v.totalPixels && v.yellowPixels <= v.totalPixels
    ensures v.totalPixels == |pixels|
  {
    var greenPixels, yellowPixels := 0, 0;
    var totalPixels := |pixels|;
    for i := 0 to |pixels|
      invariant greenPixels == CountGreen(pixels[..i])
      invariant yellowPixels == CountYellow(pixels[..i])
    {
      assert pixels[..i + 1][..i] == pixels[..i];
      var p := pixels[i];
      if IsGreenLike(p) {
        greenPixels := greenPixels + 1;
      }
      if IsYellowLike(p) {
        yellowPixels := yellowPixels + 1;
      }
    }
    assert pixels[..|pixels|] == pixels;
    v := Validation(greenPixels, yellowPixels, totalPixels,
                    IsCropLike(greenPixels, yellowPixels, totalPixels));
  }

  // ----- Properties -----

  /** The indices of the pixels that satisfy `f`. */
  function IndicesWhere(ps: seq<Pixel>, f: Pixel -> bool): set<nat>
  {
    set i: nat | i < |ps| && f(ps[i])
  }

  /** The count is the number of distinct pixels that satisfy the predicate. */
  lemma {:induction false} CountIsCardinality(ps: seq<Pixel>, f: Pixel -> bool)
    ensures CountWhere(ps, f) == |IndicesWhere(ps, f)|
  {
    if ps != [] {
      var n := |ps| - 1;
      var init := ps[..n];
      CountIsCardinality(init, f);
      assert forall i: nat :: i < n ==> init[i] == ps[i];
      if f(ps[n]) {
        assert IndicesWhere(ps, f) == IndicesWhere(init, f) + {n};
      } else {
        assert IndicesWhere(ps, f) == IndicesWhere(init, f);
      }
    }
  }

  /** Green-like and yellow-like are not exclusive: this pixel is both. */
  lemma BothColoursPixel()
    ensures IsGreenLike(Pixel(120, 150, 0)) && IsYellowLike(Pixel(120, 150, 0))
  {
  }

  /** A pixel satisfying both predicates in every position counts twice over. */
  lemma {:induction false} DoubleCountedImage(ps: seq<Pixel>)
    requires forall i :: 0 <= i < |ps| ==> ps[i] == Pixel(120, 150, 0)
    ensures CountGreen(ps) == |ps| && CountYellow(ps) == |ps|
    ensures ValidationOf(ps).greenPixels + ValidationOf(ps).yellowPixels == 2 * |ps|
  {
    if ps != [] {
      DoubleCountedImage(ps[..|ps| - 1]);
    }
  }

  /** So the combined share can exceed one hundred percent. */
  lemma CombinedShareCanExceedAll()
    ensures var v := ValidationOf([Pixel(120, 150, 0)]);
            v.greenPixels + v.yellowPixels > v.totalPixels
  {
    DoubleCountedImage([Pixel(120, 150, 0)]);
  }

  /** The real-valued percentages the source computes (for a non-empty image). */
  function Percentage(count: nat, total: nat): real
    requires total > 0
  {
    (count as real / total as real) * 100.0
  }

  /**
   * The integer threshold agrees with the source's real percentages: for a
   * non-empty image, green% + yellow% > 5 exactly when 100 * (green + yellow) > 5 * total.
   */
  lemma PercentageThreshold(green: nat, yellow: nat, total: nat)
    requires total > 0
    ensures Percentage(green, total) + Percentage(yellow, total) > 5.0 <==> IsCropLike(green, yellow, total)
  {
    var t := total as real;
    assert Percentage(green, total) + Percentage(yellow, total) == (100.0 * (green + yellow) as real) / t;
    assert (100.0 * (green + yellow) as real) / t > 5.0 <==> 100.0 * (green + yellow) as real > 5.0 * t;
  }

  /** Green and yellow shares adding up to exactly five percent are not enough. */
  lemma ExactlyFivePercentIsNotCropLike(ps: seq<Pixel>)
    requires |ps| > 0
    requires Percentage(CountGreen(ps), |ps|) + Percentage(CountYellow(ps), |ps|) == 5.0
    ensures !ValidationOf(ps).hasCropColors
  {
    PercentageThreshold(CountGreen(ps), CountYellow(ps), |ps|);
  }

  /** An empty image is never crop-like. */
  lemma EmptyImageIsNotCropLike()
    ensures ValidationOf([]) == Validation(0, 0, 0, false)
  {
  }

  /** One green pixel in nineteen is over five percent; one in twenty is not. */
  lemma {:induction false} OneGreenPixelIn(ps: seq<Pixel>, k: nat)
    requires k < |ps| && IsGreenLike(ps[k]) && !IsYellowLike(ps[k])
    requires forall i :: 0 <= i < |ps| && i != k ==> !IsGreenLike(ps[i]) && !IsYellowLike(ps[i])
    ensures ValidationOf(ps).hasCropColors <==> |ps| < 20
  {
    CountIsCardinality(ps, IsGreenLike);
    CountIsCardinality(ps, IsYellowLike);
    assert IndicesWhere(ps, IsGreenLike) == {k};
    assert IndicesWhere(ps, IsYellowLike) == {};
  }
}
