/** Gesture classification: the pure part of the pose-to-key controller.

    Landmark coordinates arrive as integer pixels (the caller has already
    truncated the pose model's normalised floats).  The source compares them
    with `w / 2` and `h / 3` using Python's true division; each of those
    comparisons is stated once over the reals, as the source writes it, and
    computed over the integers. */
module Gestures {

  datatype Option<T> = None | Some(value: T)

  /** Lane index: 0 left, 1 middle, 2 right (the source's "Lane 1" .. "Lane 3"). */
  type Lane = i: int | 0 <= i <= 2

  /** Vertical action: the source's strings "NONE", "JUMP" and "ROLL". */
  datatype Action = Neutral | Jump | Roll

  /** Key events sent to the game (arrow keys and the space bar). */
  datatype Key = Left | Right | Up | Down | Space

  /** Half-height of the neutral band, in pixels. */
  const THRESHOLD: int := 55
  /** Pixels added to the shoulders' mean when calibrating the neutral height. */
  const CALIBRATION_OFFSET: int := 10
  /** Minimum time between two lane changes, in seconds. */
  const LANE_COOLDOWN: real := 0.18
  /** Minimum time between two changes of the vertical action, in seconds. */
  const ACTION_COOLDOWN: real := 0.05

  function Abs(x: int): nat
  {
    if x < 0 then -x else x
  }

  /** Python's `int(s / 2)`: true division, then truncation toward zero
      (unlike Dafny's `/`, which rounds toward minus infinity here). */
  function TruncHalf(s: int): (r: int)
    ensures 0 <= s ==> 0 <= s - 2 * r <= 1
    ensures s < 0 ==> -1 <= s - 2 * r <= 0
    ensures Abs(2 * r) <= Abs(s)
  {
    if s >= 0 then s / 2 else -((-s) / 2)
  }

  /** The neutral body height `start` computes: the mean of the two shoulder
      heights, truncated toward zero, plus the calibration offset. */
  function Calibrate(ly: int, ry: int): (r: int)
    ensures 0 <= ly + ry ==> 2 * (r - CALIBRATION_OFFSET) <= ly + ry <= 2 * (r - CALIBRATION_OFFSET) + 1
    ensures ly + ry < 0 ==> 2 * (r - CALIBRATION_OFFSET) - 1 <= ly + ry <= 2 * (r - CALIBRATION_OFFSET)
  {
    TruncHalf(ly + ry) + CALIBRATION_OFFSET
  }

  /** The start gesture: the control wrist is above the top third of the frame. */
  function StartGesture(py: int, h: int): (b: bool)
    ensures b <==> (py as real) < (h as real) / 3.0
  {
    3 * py < h
  }

  /** Target lane from the shoulders' x-positions relative to the centre line.
      Every comparison is strict, so a shoulder exactly on the centre line, or
      shoulders crossed over it, give no target. */
  function ClassifyLane(lx: int, rx: int, w: int): (t: Option<Lane>)
    ensures var c, l, r := w as real / 2.0, lx as real, rx as real;
      && (t == Some(0) <==> l < c && r < c)
      && (t == Some(1) <==> l < c && c < r)
      && (t == Some(2) <==> c < l && c < r)
      && (t == None <==> l == c || r == c || (c < l && r < c))
  {
    if 2 * lx < w && 2 * rx < w then Some(0)
    else if 2 * lx < w && 2 * rx > w then Some(1)
    else if 2 * lx > w && 2 * rx > w then Some(2)
    else None
  }

  /** The vertical action for the current height, measured against the neutral
      height.  Image y grows downward, so a negative displacement means the
      body is raised.  Only a displacement strictly beyond the band counts. */
  function ClassifyAction(currHeight: int, userHeight: int, threshold: int): (a: Action)
    ensures var d := currHeight - userHeight;
      && (a == Jump <==> d < -threshold)
      && (a == Roll <==> -threshold <= d && threshold < d)
      && (a == Neutral <==> -threshold <= d <= threshold)
  {
    if currHeight < userHeight - threshold then Jump
    else if currHeight > userHeight + threshold then Roll
    else Neutral
  }

  /** The band in which the action state is forced back to "NONE". */
  predicate InResetBand(currHeight: int, userHeight: int, threshold: int)
  {
    Abs(currHeight - userHeight) < threshold
  }

  /** Inside the open reset band the classifier always answers Neutral. */
  lemma ResetBandIsNeutral(currHeight: int, userHeight: int, threshold: int)
    requires InResetBand(currHeight, userHeight, threshold)
    ensures ClassifyAction(currHeight, userHeight, threshold) == Neutral
  {
  }

  /** A height exactly one threshold away from neutral classifies as Neutral
      but lies outside the reset band. */
  lemma BoundaryIsNeutralWithoutReset(currHeight: int, userHeight: int, threshold: int)
    requires Abs(currHeight - userHeight) == threshold
    ensures ClassifyAction(currHeight, userHeight, threshold) == Neutral
    ensures !InResetBand(currHeight, userHeight, threshold)
  {
  }

  /** On the frame used for calibration the measured height lies
      CALIBRATION_OFFSET pixels above the neutral one: Neutral, inside the
      reset band. */
  lemma CalibratedFrameIsNeutral(ly: int, ry: int)
    ensures TruncHalf(ly + ry) - Calibrate(ly, ry) == -CALIBRATION_OFFSET
    ensures ClassifyAction(TruncHalf(ly + ry), Calibrate(ly, ry), THRESHOLD) == Neutral
    ensures InResetBand(TruncHalf(ly + ry), Calibrate(ly, ry), THRESHOLD)
  {
  }
}
