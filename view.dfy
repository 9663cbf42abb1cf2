/** The viewer side of the labeler (src/view.py): points on the frame
    canvas, corner normalisation, the drawing state of the frame viewer and
    the enabled state of the trim and table controls. */
module View {
  import opened Common

  /** A pixel position on the scaled frame canvas, as delivered by a mouse event. */
  datatype Point = Point(x: int, y: int)

  function Min(a: int, b: int): int { if a <= b then a else b }
  function Max(a: int, b: int): int { if a <= b then b else a }

  /** `revise_coor`: the top-left and bottom-right corners of the rectangle
      spanned by two dragged corners. */
  function ReviseCoor(p1: Point, p2: Point): (r: (Point, Point))
    ensures r.0.x <= r.1.x && r.0.y <= r.1.y
    ensures r.0.x <= p1.x && r.0.x <= p2.x && (r.0.x == p1.x || r.0.x == p2.x)
    ensures r.0.y <= p1.y && r.0.y <= p2.y && (r.0.y == p1.y || r.0.y == p2.y)
    ensures r.1.x >= p1.x && r.1.x >= p2.x && (r.1.x == p1.x || r.1.x == p2.x)
    ensures r.1.y >= p1.y && r.1.y >= p2.y && (r.1.y == p1.y || r.1.y == p2.y)
  {
    (Point(Min(p1.x, p2.x), Min(p1.y, p2.y)), Point(Max(p1.x, p2.x), Max(p1.y, p2.y)))
  }

  /** The drag direction does not matter. */
  lemma ReviseCoorSymmetric(p1: Point, p2: Point)
    ensures ReviseCoor(p1, p2) == ReviseCoor(p2, p1)
  {
  }

  /** Normalising an already normalised pair changes nothing. */
  lemma ReviseCoorIdempotent(p1: Point, p2: Point)
    ensures var r := ReviseCoor(p1, p2); ReviseCoor(r.0, r.1) == r
  {
  }

  /** A click without a drag is not rejected: both corners are the clicked point. */
  lemma ReviseCoorZeroArea(p: Point)
    ensures ReviseCoor(p, p) == (p, p)
  {
  }

  /** Enabled flags of the controls that `VideoAppViewer.__init__` creates
      disabled and `enable_buttons` turns on. */
  datatype Controls = Controls(initTrim: bool, selectEvent: bool, beginCelebration: bool,
                               stopTrim: bool, addRecord: bool, deleteRecord: bool, cutVideo: bool)

  const AllDisabled := Controls(false, false, false, false, false, false, false)
  const AllEnabled := Controls(true, true, true, true, true, true, true)

  /** `VideoFrameViewer`: the label showing the frame, which holds the
      rectangle being dragged. */
  class FrameViewer {
    var isDrawing: bool
    var isSelecting: bool
    var pt1: Option<Point>
    var pt2: Option<Point>
    var selectPt1: Option<Point>
    var selectPt2: Option<Point>

    constructor ()
      ensures !isDrawing && !isSelecting
      ensures pt1 == None && pt2 == None && selectPt1 == None && selectPt2 == None
    {
      isDrawing := false;
      isSelecting := false;
      pt1, pt2 := None, None;
      selectPt1, selectPt2 := None, None;
    }
  }
}
