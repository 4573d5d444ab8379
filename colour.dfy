/** Stick-colour calibration (drum.py:55-64): a clicked HSV pixel becomes an
    inclusive HSV window, the bounds later handed to `cv2.inRange`. */
module StickColour {

  /** One 8-bit image channel. */
  type Channel = x: int | 0 <= x <= 255

  /** An HSV pixel as OpenCV stores it, one byte per component. */
  datatype Hsv = Hsv(h: Channel, s: Channel, v: Channel)

  /** The `(lower_bound, upper_bound)` pair stored for one stick. */
  datatype ColorRange = ColorRange(lower: Hsv, upper: Hsv)

  /** Tolerances of drum.py:59-60: the window reaches 20 below and above in
      hue, 100 below in saturation and value, and 255 above them. */
  const HueTolerance := 20
  const LowTolerance := 100
  const HighTolerance := 255

  /** `np.maximum(c - tol, 0)` on one component (numpy widens to int64, so nothing wraps). */
  function Floor(c: Channel, tol: nat): (b: Channel) {
    if c - tol < 0 then 0 else c - tol
  }

  /** `np.minimum(c + tol, 255)` on one component. */
  function Ceil(c: Channel, tol: nat): (b: Channel) {
    if c + tol > 255 then 255 else c + tol
  }

  /** Per-pixel meaning of a range for `cv2.inRange`: inclusive on every component. */
  predicate Contains(r: ColorRange, p: Hsv) {
    && r.lower.h <= p.h <= r.upper.h
    && r.lower.s <= p.s <= r.upper.s
    && r.lower.v <= p.v <= r.upper.v
  }

  /** The colours the calibration means to accept around the clicked pixel `c`:
      hue within 20 either way, saturation and value at most 100 below. */
  predicate NearSample(c: Hsv, p: Hsv) {
    && c.h - HueTolerance <= p.h <= c.h + HueTolerance
    && c.s - LowTolerance <= p.s
    && c.v - LowTolerance <= p.v
  }

  /** The bounds derived from the clicked pixel (drum.py:58-60). */
  function RangeOf(c: Hsv): (r: ColorRange)
    ensures r.lower.h <= c.h <= r.upper.h
    ensures r.lower.s <= c.s <= r.upper.s && r.lower.v <= c.v <= r.upper.v
    ensures r.upper.s == 255 && r.upper.v == 255
    ensures forall p: Hsv :: Contains(r, p) <==> NearSample(c, p)
  {
    ColorRange(
      Hsv(Floor(c.h, HueTolerance), Floor(c.s, LowTolerance), Floor(c.v, LowTolerance)),
      Hsv(Ceil(c.h, HueTolerance), Ceil(c.s, HighTolerance), Ceil(c.v, HighTolerance)))
  }

  /** The worked example: `(100, 150, 200)` gives `(80, 50, 100)` .. `(120, 255, 255)`. */
  lemma RangeOfExample()
    ensures RangeOf(Hsv(100, 150, 200)) == ColorRange(Hsv(80, 50, 100), Hsv(120, 255, 255))
  {
  }

  /** Near the channel ends the window is cut off rather than wrapped:
      hue 5 gives a lower hue of 0, hue 250 an upper hue of 255. */
  lemma RangeOfClamps()
    ensures RangeOf(Hsv(5, 30, 60)).lower == Hsv(0, 0, 0)
    ensures RangeOf(Hsv(250, 255, 255)) == ColorRange(Hsv(230, 155, 155), Hsv(255, 255, 255))
  {
  }
}
