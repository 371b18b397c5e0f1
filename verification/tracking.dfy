/**
  The segmentation and localisation steps of the tracker: the tolerance band
  around a reference colour, the per-pixel band test that turns a frame into a
  binary mask, the grey-to-BGR replication of that mask, and the rule that
  reduces the blob detector's keypoints to at most one tracked position.
 */
module Tracking {
  import opened Bytes
  import opened Optional
  import opened Colors
  import opened Images

  /** A white and a black BGR pixel: the two values a replicated mask holds. */
  const WhitePixel := Bgr(255, 255, 255)
  const BlackPixel := Bgr(0, 0, 0)

  // ---------------------------------------------------------------------------
  // Tolerance band

  /**
    `lower_upper`: the band `(color - tolerance, color + tolerance)` built with
    the saturating scalar operators, so it collapses at 0 and 255 instead of
    wrapping.
   */
  function LowerUpper(color: Color, tolerance: Byte): (band: (Color, Color))
    ensures Leq(band.0, color) && Leq(color, band.1)
    ensures forall i :: 0 <= i < 3 ==>
      band.0.At(i) == (if color.At(i) < tolerance then 0 else color.At(i) - tolerance)
    ensures forall i :: 0 <= i < 3 ==>
      band.1.At(i) == (if color.At(i) + tolerance > MAX then MAX else color.At(i) + tolerance)
    ensures tolerance == 0 ==> band == (color, color)
  {
    ScalarIdentities(color);
    (SubScalar(color, tolerance), AddScalar(color, tolerance))
  }

  /** The bound handed to the range test: the colour's channels in B, G, R order. */
  function ToScalar(c: Color): (s: Bgr)
    ensures s.b == c.At(2) && s.g == c.At(1) && s.r == c.At(0)
  {
    Bgr(c.b, c.g, c.r)
  }

  /** Every channel of `p` lies in the inclusive range given by `lower` and `upper`. */
  predicate InBand(p: Bgr, lower: Bgr, upper: Bgr)
  {
    && lower.b <= p.b <= upper.b
    && lower.g <= p.g <= upper.g
    && lower.r <= p.r <= upper.r
  }

  /**
    The meaning of a tolerance band, independent of how it is built: each
    channel of the frame pixel is within `tolerance` of the matching channel
    of the reference colour.
   */
  predicate WithinTolerance(p: Bgr, color: Color, tolerance: Byte)
  {
    Dist(p.b, color.b) <= tolerance && Dist(p.g, color.g) <= tolerance && Dist(p.r, color.r) <= tolerance
  }

  /**
    The band, reordered to B, G, R, admits exactly the pixels within
    `tolerance` of the reference colour, channel by matching channel.
   */
  lemma BandIsTolerance(p: Bgr, color: Color, tolerance: Byte)
    ensures var (lower, upper) := LowerUpper(color, tolerance);
      InBand(p, ToScalar(lower), ToScalar(upper)) <==> WithinTolerance(p, color, tolerance)
  {
  }

  /** The pixel whose channels are the reference colour always matches, whatever the tolerance. */
  lemma ReferencePixelMatches(color: Color, tolerance: Byte)
    ensures var (lower, upper) := LowerUpper(color, tolerance);
      InBand(ToScalar(color), ToScalar(lower), ToScalar(upper))
  {
    BandIsTolerance(ToScalar(color), color, tolerance);
  }

  // ---------------------------------------------------------------------------
  // Segmentation

  /**
    `in_range` on a 3-channel frame: one mask byte per pixel, 255 where every
    channel is inside its bound and 0 elsewhere.
   */
  method InRange(src: Frame, lower: Bgr, upper: Bgr) returns (dst: Mask)
    requires src.Valid()
    ensures dst.rows == src.rows && dst.cols == src.cols && dst.Valid()
    ensures forall i :: 0 <= i < |dst.data| ==> (dst.data[i] == MAX <==> InBand(src.data[i], lower, upper))
    ensures forall i :: 0 <= i < |dst.data| ==> (dst.data[i] == 0 <==> !InBand(src.data[i], lower, upper))
  {
    var values: seq<Byte> := [];
    var k := 0;
    while k < |src.data|
      invariant 0 <= k <= |src.data|
      invariant |values| == k
      invariant forall i :: 0 <= i < k ==> (values[i] == MAX <==> InBand(src.data[i], lower, upper))
      invariant forall i :: 0 <= i < k ==> (values[i] == 0 <==> !InBand(src.data[i], lower, upper))
    {
      var v: Byte := if InBand(src.data[k], lower, upper) then MAX else 0;
      values := values + [v];
      k := k + 1;
    }
    dst := Image(src.rows, src.cols, values);
  }

  /**
    `cvt_color(GRAY2BGR)`: each mask byte copied into all three channels.
    The conversion rejects an empty image, and the caller unwraps its result,
    so an empty mask is a panic.
   */
  method GrayToBgr(src: Mask) returns (dst: Frame)
    requires src.Valid() && src.NonEmpty()
    ensures dst.rows == src.rows && dst.cols == src.cols && dst.Valid()
    ensures forall i :: 0 <= i < |dst.data| ==> dst.data[i].b == dst.data[i].g == dst.data[i].r == src.data[i]
  {
    var pixels: seq<Bgr> := [];
    var k := 0;
    while k < |src.data|
      invariant 0 <= k <= |src.data|
      invariant |pixels| == k
      invariant forall i :: 0 <= i < k ==> pixels[i].b == pixels[i].g == pixels[i].r == src.data[i]
    {
      pixels := pixels + [Bgr(src.data[k], src.data[k], src.data[k])];
      k := k + 1;
    }
    dst := Image(src.rows, src.cols, pixels);
  }

  /**
    `isolate_obj`: the frame turned into a black-and-white mask of the pixels
    within `tolerance` of `color`, with the same dimensions as the frame. An
    empty frame makes the grey-to-BGR conversion panic.
   */
  method IsolateObj(img: Frame, color: Color, tolerance: Byte) returns (dst: Frame)
    requires img.Valid() && img.NonEmpty()
    ensures dst.rows == img.rows && dst.cols == img.cols && dst.Valid()
    ensures forall i :: 0 <= i < |dst.data| ==> dst.data[i].b == dst.data[i].g == dst.data[i].r
    ensures forall i :: 0 <= i < |dst.data| ==>
      dst.data[i] == (if WithinTolerance(img.data[i], color, tolerance) then WhitePixel else BlackPixel)
  {
    var (lower, upper) := LowerUpper(color, tolerance);
    var mask := InRange(img, ToScalar(lower), ToScalar(upper));
    dst := GrayToBgr(mask);
    forall i | 0 <= i < |dst.data|
      ensures dst.data[i] == (if WithinTolerance(img.data[i], color, tolerance) then WhitePixel else BlackPixel)
    {
      BandIsTolerance(img.data[i], color, tolerance);
    }
  }

  // ---------------------------------------------------------------------------
  // Localisation

  /** A point with coordinates of the detector's numeric type. */
  datatype Point<F> = Point(x: F, y: F)

  /** What the blob detector reports for one region: its centre point. */
  datatype KeyPoint<F> = KeyPoint(pt: Point<F>)

  /** The tracked object's position in frame coordinates. */
  datatype Ball<F> = Ball(x: F, y: F)

  /**
    `keypoints.get(0)`: the first keypoint, or nothing when the list is empty.
   */
  function Get<T>(items: seq<T>, index: nat): (item: Option<T>)
    ensures item.Some? <==> index < |items|
    ensures item.Some? ==> item.value == items[index]
  {
    if index < |items| then Some(items[index]) else None
  }

  /** The "first region wins" reduction: no keypoints gives no ball. */
  function FirstBall<F>(keypoints: seq<KeyPoint<F>>): (ball: Option<Ball<F>>)
    ensures ball.None? <==> |keypoints| == 0
    ensures ball.Some? ==> ball.value == Ball(keypoints[0].pt.x, keypoints[0].pt.y)
  {
    match Get(keypoints, 0)
    case Some(kp) => Some(Ball(kp.pt.x, kp.pt.y))
    case None => None
  }

  /** Keypoints after the first never influence the tracked position. */
  lemma FirstBallIgnoresRest<F>(first: KeyPoint<F>, rest: seq<KeyPoint<F>>, other: seq<KeyPoint<F>>)
    ensures FirstBall([first] + rest) == FirstBall([first] + other)
    ensures FirstBall([first] + rest).Some?
  {
  }

  /**
    `process_image`: isolate the reference colour, run the detector on the
    mask, and keep the first keypoint as the ball. The detector is a
    parameter; `dst` is the mask image the caller gets back.
   */
  method ProcessImage<F>(detect: Frame -> seq<KeyPoint<F>>, src: Frame, color: Color, tolerance: Byte)
    returns (ball: Option<Ball<F>>, dst: Frame)
    requires src.Valid() && src.NonEmpty()
    ensures dst.rows == src.rows && dst.cols == src.cols && dst.Valid()
    ensures forall i :: 0 <= i < |dst.data| ==>
      dst.data[i] == (if WithinTolerance(src.data[i], color, tolerance) then WhitePixel else BlackPixel)
    ensures ball.None? <==> |detect(dst)| == 0
    ensures ball.Some? ==> ball.value == Ball(detect(dst)[0].pt.x, detect(dst)[0].pt.y)
  {
    dst := IsolateObj(src, color, tolerance);
    var keypoints := detect(dst);
    ball := FirstBall(keypoints);
  }
}
