/** Images, binary masks and the colour segmenter of the rover perception
    pipeline (`color_thresh` in code/perception.py).

    An image is a grid of RGB pixels, a mask a grid of integers of the same
    height and width. Row `r`, column `c` of a grid `g` is `g[r][c]`. */
module Imaging {

  /** One RGB triple: a pixel of the camera image or a threshold. */
  datatype Rgb = Rgb(red: int, green: int, blue: int) {
    /** Channel `k` of the triple, as `img[:,:,k]` selects it. */
    function At(k: int): int
      requires 0 <= k < 3
    {
      if k == 0 then red else if k == 1 then green else blue
    }
  }

  type Image = seq<seq<Rgb>>
  type Mask = seq<seq<int>>

  /** `g` has `h` rows of `w` entries each. */
  predicate IsGrid<T>(g: seq<seq<T>>, h: nat, w: nat) {
    |g| == h && forall r :: 0 <= r < |g| ==> |g[r]| == w
  }

  /** Every channel of every pixel is an 8-bit value. */
  predicate IsByteImage(img: Image) {
    forall r, c, k :: 0 <= r < |img| && 0 <= c < |img[r]| && 0 <= k < 3 ==> 0 <= img[r][c].At(k) <= 255
  }

  /** Every entry of the mask is 0 or 1. */
  predicate IsBinary(m: Mask) {
    forall r, c :: 0 <= r < |m| && 0 <= c < |m[r]| ==> m[r][c] == 0 || m[r][c] == 1
  }

  /** The pixel lies strictly between `low` and `high` in all three channels. */
  predicate InBand(p: Rgb, low: Rgb, high: Rgb) {
    low.red < p.red < high.red && low.green < p.green < high.green && low.blue < p.blue < high.blue
  }

  /** `InBand` read channel by channel, as the source compares `img[:,:,k]`. */
  lemma InBandByChannel(p: Rgb, low: Rgb, high: Rgb)
    ensures InBand(p, low, high) <==> forall k :: 0 <= k < 3 ==> low.At(k) < p.At(k) < high.At(k)
  {
    assert low.At(0) < p.At(0) < high.At(0) <==> low.red < p.red < high.red;
    assert low.At(1) < p.At(1) < high.At(1) <==> low.green < p.green < high.green;
    assert low.At(2) < p.At(2) < high.At(2) <==> low.blue < p.blue < high.blue;
  }

  /** One row of `color_thresh`. */
  function ThreshRow(row: seq<Rgb>, low: Rgb, high: Rgb): (m: seq<int>)
    ensures |m| == |row|
    ensures forall c :: 0 <= c < |row| ==>
      (m[c] == 1 <==> forall k :: 0 <= k < 3 ==> low.At(k) < row[c].At(k) < high.At(k))
    ensures forall c :: 0 <= c < |row| ==> m[c] == 0 || m[c] == 1
  {
    if row == [] then []
    else
      InBandByChannel(row[0], low, high);
      [if InBand(row[0], low, high) then 1 else 0] + ThreshRow(row[1..], low, high)
  }

  /** `color_thresh`: a fresh mask of the image's shape holding 1 exactly where
      every channel lies strictly inside `(low[k], high[k])`, and 0 elsewhere. */
  function ColorThresh(img: Image, low: Rgb, high: Rgb): (m: Mask)
    ensures |m| == |img|
    ensures forall r :: 0 <= r < |img| ==> |m[r]| == |img[r]|
    ensures IsBinary(m)
    ensures forall r, c :: 0 <= r < |img| && 0 <= c < |img[r]| ==>
      (m[r][c] == 1 <==> forall k :: 0 <= k < 3 ==> low.At(k) < img[r][c].At(k) < high.At(k))
  {
    if img == [] then []
    else [ThreshRow(img[0], low, high)] + ColorThresh(img[1..], low, high)
  }

  /** A channel value equal to either bound never selects the pixel. */
  lemma BoundsAreExclusive(img: Image, low: Rgb, high: Rgb, r: nat, c: nat, k: int)
    requires r < |img| && c < |img[r]| && 0 <= k < 3
    requires img[r][c].At(k) == low.At(k) || img[r][c].At(k) == high.At(k)
    ensures ColorThresh(img, low, high)[r][c] == 0
  {
  }

  /** The mask of an `h` by `w` image is `h` by `w`. */
  lemma ColorThreshShape(img: Image, low: Rgb, high: Rgb, h: nat, w: nat)
    requires IsGrid(img, h, w)
    ensures IsGrid(ColorThresh(img, low, high), h, w)
  {
  }

  // The three class thresholds of the perception step.
  const NavigableLow := Rgb(180, 180, 180)
  const NavigableHigh := Rgb(255, 255, 255)
  const ObstacleLow := Rgb(0, 0, 0)
  const ObstacleHigh := Rgb(30, 30, 30)
  const RockLow := Rgb(120, 90, 0)
  const RockHigh := Rgb(230, 200, 70)

  /** No pixel belongs to two of the three classes. */
  lemma ClassesAreDisjoint(p: Rgb)
    ensures !(InBand(p, NavigableLow, NavigableHigh) && InBand(p, ObstacleLow, ObstacleHigh))
    ensures !(InBand(p, NavigableLow, NavigableHigh) && InBand(p, RockLow, RockHigh))
    ensures !(InBand(p, RockLow, RockHigh) && InBand(p, ObstacleLow, ObstacleHigh))
  {
  }

  /** So at every pixel at most one of the three masks is set. */
  lemma {:induction false} MasksAreDisjoint(img: Image, r: nat, c: nat)
    requires r < |img| && c < |img[r]|
    ensures ColorThresh(img, NavigableLow, NavigableHigh)[r][c]
          + ColorThresh(img, RockLow, RockHigh)[r][c]
          + ColorThresh(img, ObstacleLow, ObstacleHigh)[r][c] <= 1
  {
    var p := img[r][c];
    ClassesAreDisjoint(p);
    InBandByChannel(p, NavigableLow, NavigableHigh);
    InBandByChannel(p, RockLow, RockHigh);
    InBandByChannel(p, ObstacleLow, ObstacleHigh);
  }

  /** With the upper bound 255 taken strictly, a byte pixel with any saturated
      channel is never navigable; with the lower bound 0 taken strictly, a byte
      pixel with any channel at 0 is never an obstacle. */
  lemma SaturatedAndBlackChannelsExcluded(img: Image, r: nat, c: nat, k: int)
    requires IsByteImage(img) && r < |img| && c < |img[r]| && 0 <= k < 3
    ensures img[r][c].At(k) == 255 ==> ColorThresh(img, NavigableLow, NavigableHigh)[r][c] == 0
    ensures img[r][c].At(k) == 0 ==> ColorThresh(img, ObstacleLow, ObstacleHigh)[r][c] == 0
  {
  }
}
