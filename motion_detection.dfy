/** The motion detector of motion_detection.py: a running-average
    background that the first call seeds, a thresholded difference image,
    and "motion" when some changed region is larger than `min_area`.

    The OpenCV image operations are not interpreted here: a `Vision`
    value supplies them, and everything proved about the detector holds for
    every choice of them. Only the binary threshold is written out. */
module MotionDetection {
  import opened Wrappers

  /** A camera frame, as raw pixel values. */
  type Image = seq<int>
  /** A single-channel 8-bit image. */
  type Gray = seq<int>
  /** The floating-point running-average background. */
  type Background = seq<real>

  /** The OpenCV operations the detector calls, left uninterpreted. */
  datatype Vision = Vision(
    grayscale: Image -> Gray,                          // cv2.cvtColor(.., COLOR_BGR2GRAY)
    blur: Gray -> Gray,                                // cv2.blur(.., (9, 9))
    accumulate: (Gray, Background, real) -> Background, // cv2.accumulateWeighted
    scaleAbs: Background -> Gray,                      // cv2.convertScaleAbs
    absDiff: (Gray, Gray) -> Gray,                     // cv2.absdiff
    dilate: Gray -> Gray,                              // cv2.dilate(.., None, iterations=2)
    contourAreas: Gray -> seq<real>                    // cv2.findContours, then cv2.contourArea of each
  )

  /** `gray.astype("float")`: the seed background. */
  function AsFloat(g: Gray): (b: Background)
    ensures |b| == |g| && forall i :: 0 <= i < |g| ==> b[i] == g[i] as real
  {
    seq(|g|, i requires 0 <= i < |g| => g[i] as real)
  }

  /** Python's `int(x)`: truncation toward zero. */
  function Trunc(x: real): (n: int)
    ensures 0.0 <= x ==> n as real <= x < n as real + 1.0
    ensures x < 0.0 ==> n as real - 1.0 < x <= n as real
  {
    if x >= 0.0 then x.Floor else -((-x).Floor)
  }

  /** `int(x)` is within one of `x` and never on the other side of zero. */
  lemma TruncWithinOne(x: real)
    ensures -1.0 < Trunc(x) as real - x < 1.0
    ensures 0.0 <= x ==> 0 <= Trunc(x)
    ensures x <= 0.0 ==> Trunc(x) <= 0
  {
  }

  /** The threshold level `int(255 * sensitivity)`. */
  function ThresholdLevel(sensitivity: real): (level: int)
    ensures 0.0 <= sensitivity ==> level as real <= 255.0 * sensitivity < level as real + 1.0
    ensures sensitivity < 0.0 ==> level as real - 1.0 < 255.0 * sensitivity <= level as real
  {
    Trunc(255.0 * sensitivity)
  }

  /** With the default sensitivity 0.2 the level is 51. */
  lemma DefaultThresholdLevel()
    ensures ThresholdLevel(0.2) == 51
  {
  }

  /** `cv2.threshold(delta, level, 255, THRESH_BINARY)`: a pixel strictly
      above the level becomes 255, every other pixel 0. */
  function Binarize(delta: Gray, level: int): (mask: Gray)
    ensures |mask| == |delta|
    ensures forall i :: 0 <= i < |delta| ==> (mask[i] == 255 <==> delta[i] > level)
    ensures forall i :: 0 <= i < |delta| ==> (mask[i] == 0 <==> delta[i] <= level)
  {
    seq(|delta|, i requires 0 <= i < |delta| => if delta[i] > level then 255 else 0)
  }

  /** `any(area > min_area for area in areas)`. */
  function AnyAreaAbove(areas: seq<real>, minArea: real): (r: bool)
    ensures r <==> exists i :: 0 <= i < |areas| && areas[i] > minArea
  {
    if areas == [] then false
    else areas[0] > minArea || AnyAreaAbove(areas[1..], minArea)
  }

  class MotionDetector {
    const vision: Vision
    const sensitivity: real
    const minArea: real
    /** Weight for accumulateWeighted. */
    const alpha: real
    /** `None` until the first call seeds it, and again after `Reset`. */
    var previousFrame: Option<Background>
    var motionDetected: bool

    /** The smoothed intensity image that `DetectMotion` compares. */
    function Smoothed(frame: Image): Gray
      reads this
    {
      vision.blur(vision.grayscale(frame))
    }

    /** A fresh detector has no background and reports no motion. */
    constructor (vision: Vision, sensitivity: real := 0.2, minArea: real := 500.0)
      ensures this.vision == vision && this.sensitivity == sensitivity && this.minArea == minArea
      ensures alpha == 0.5
      ensures previousFrame == None && !motionDetected
    {
      this.vision := vision;
      this.sensitivity := sensitivity;
      this.minArea := minArea;
      alpha := 0.5;
      previousFrame := None;
      motionDetected := false;
    }

    /** The first call after construction or `Reset` only seeds the
        background and reports no motion, leaving the status alone. Every
        later call folds the frame into the background and reports, and
        stores, whether some contour of the thresholded difference is larger
        than `minArea`. Either way a background is set afterwards. */
    method DetectMotion(currentFrame: Image) returns (detected: bool)
      modifies this
      ensures previousFrame.Some?
      ensures old(previousFrame).None? ==>
                && previousFrame == Some(AsFloat(Smoothed(currentFrame)))
                && !detected
                && motionDetected == old(motionDetected)
      ensures old(previousFrame).Some? ==>
                && previousFrame == Some(vision.accumulate(Smoothed(currentFrame), old(previousFrame).value, alpha))
                && detected == motionDetected
                && var areas := AreasOf(currentFrame, previousFrame.value);
                   (detected <==> exists i :: 0 <= i < |areas| && areas[i] > minArea)
    {
      var gray := Smoothed(currentFrame);
      if previousFrame.None? {
        previousFrame := Some(AsFloat(gray));
        return false;
      }
      previousFrame := Some(vision.accumulate(gray, previousFrame.value, alpha));
      var frameDelta := vision.absDiff(gray, vision.scaleAbs(previousFrame.value));
      var thresh := Binarize(frameDelta, ThresholdLevel(sensitivity));
      thresh := vision.dilate(thresh);
      var areas := vision.contourAreas(thresh);
      motionDetected := AnyAreaAbove(areas, minArea);
      detected := motionDetected;
    }

    /** The contour areas a non-seeding call measures. */
    function AreasOf(frame: Image, background: Background): seq<real>
      reads this
    {
      var delta := vision.absDiff(Smoothed(frame), vision.scaleAbs(background));
      vision.contourAreas(vision.dilate(Binarize(delta, ThresholdLevel(sensitivity))))
    }

    /** The status stored by the most recent non-seeding call. */
    function GetMotionStatus(): (status: bool)
      reads this
      ensures status == motionDetected
    {
      motionDetected
    }

    /** Forgets the background, so the next call seeds again and reports no
        motion; the status reads false until then. */
    method Reset()
      modifies this
      ensures previousFrame == None && !motionDetected
    {
      previousFrame := None;
      motionDetected := false;
    }
  }

  /** After `Reset` the next call reports no motion and the status stays
      false: the detector behaves as a fresh one. */
  method ResetThenDetect(d: MotionDetector, frame: Image) returns (detected: bool)
    modifies d
    ensures !detected && !d.GetMotionStatus()
    ensures d.previousFrame == Some(AsFloat(d.Smoothed(frame)))
  {
    d.Reset();
    detected := d.DetectMotion(frame);
  }
}
