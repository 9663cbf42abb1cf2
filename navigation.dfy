/** Frame navigation arithmetic (src/app.py): the slider's range clamp and
    the enabled state `check_available_buttons` gives the jump buttons. */
module Navigation {

  /** Frames skipped by the "3 secs" buttons: hard-coded, not derived from the fps. */
  const ThreeSecFrames := 75

  /** `QSlider.setValue`: a value outside `[lo, hi]` is moved to the nearer bound. */
  function Clamp(v: int, lo: int, hi: int): (r: int)
    requires lo <= hi
    ensures lo <= r <= hi
    ensures lo <= v <= hi ==> r == v
    ensures v < lo ==> r == lo
    ensures v > hi ==> r == hi
  {
    if v < lo then lo else if v > hi then hi else v
  }

  /** Clamping is idempotent: a value already in range is kept. */
  lemma ClampIdempotent(v: int, lo: int, hi: int)
    requires lo <= hi
    ensures Clamp(Clamp(v, lo, hi), lo, hi) == Clamp(v, lo, hi)
  {
  }

  /** Enabled state of the six jump buttons. */
  datatype NavButtons = NavButtons(prev3Sec: bool, prev10Frames: bool, prevFrame: bool,
                                   nextFrame: bool, next10Frames: bool, next3Sec: bool)

  const AllNavEnabled := NavButtons(true, true, true, true, true, true)

  /** `check_available_buttons`: a forward button is disabled when
      `value + step >= frame_count - 1`, a backward one when `value - step < 0`.
      Measured against the slider range `[0, frame_count - 1]`, a backward
      button is enabled exactly when its move is not clamped at frame 0, and
      an enabled forward button never has its move clamped at the last frame;
      the "3 secs" buttons are enabled only when the guards of `inc_3_sec`
      and `dec_3_sec` let the jump through. */
  function AvailableButtons(value: int, frameCount: int): (b: NavButtons)
    ensures 0 <= value < frameCount ==>
      && (b.prevFrame <==> Clamp(value - 1, 0, frameCount - 1) == value - 1)
      && (b.prev10Frames <==> Clamp(value - 10, 0, frameCount - 1) == value - 10)
      && (b.prev3Sec <==> Clamp(value - ThreeSecFrames, 0, frameCount - 1) == value - ThreeSecFrames)
      && (b.nextFrame ==> Clamp(value + 1, 0, frameCount - 1) == value + 1)
      && (b.next10Frames ==> Clamp(value + 10, 0, frameCount - 1) == value + 10)
      && (b.next3Sec ==> value + ThreeSecFrames <= frameCount - 1)
  {
    NavButtons(prev3Sec := !(value - ThreeSecFrames < 0),
               prev10Frames := !(value - 10 < 0),
               prevFrame := !(value - 1 < 0),
               nextFrame := !(value + 1 >= frameCount - 1),
               next10Frames := !(value + 10 >= frameCount - 1),
               next3Sec := !(value + ThreeSecFrames >= frameCount - 1))
  }

  /** The forward buttons stop one step early: from the last-but-one frame
      the "next frame" button is disabled although the step would land on
      the last frame, and the "3 secs" button is disabled at exactly 75
      frames before the end although `inc_3_sec` would accept that jump. */
  lemma ForwardButtonsStopOneEarly(frameCount: int)
    requires frameCount >= 2 + ThreeSecFrames
    ensures !AvailableButtons(frameCount - 2, frameCount).nextFrame
    ensures !AvailableButtons(frameCount - 1 - ThreeSecFrames, frameCount).next3Sec
  {
  }
}
