/** Label records (src/app.py): one rectangle bound to a frame, the scaling
    from canvas to video pixels, and the list helpers the application uses
    on its `records` list. */
module Records {
  import opened Common
  import opened View

  /** One entry of `records`: the keys `frame_idx`, `fps`, `x1`, `y1`, `x2`, `y2`. */
  datatype LabelRecord = LabelRecord(frameIdx: int, fps: int, x1: int, y1: int, x2: int, y2: int)

  /** `int(c * 1.5)`: canvas coordinate to video pixel, truncated toward zero
      as Python's `int` does on a float. */
  function ScaleCoor(c: int): (r: int)
    ensures c >= 0 ==> 0 <= r && 2 * r <= 3 * c < 2 * r + 2
    ensures c < 0 ==> r <= 0 && 2 * r - 2 < 3 * c <= 2 * r
  {
    if c >= 0 then (3 * c) / 2 else -((-3 * c) / 2)
  }

  /** Scaling keeps the order of coordinates, so a normalised rectangle stays normalised. */
  lemma ScaleMonotone(a: int, b: int)
    requires a <= b
    ensures ScaleCoor(a) <= ScaleCoor(b)
  {
  }

  /** The record `event_frame_mouse_release` builds from the two dragged corners. */
  function MakeRecord(frameIdx: int, fps: int, p1: Point, p2: Point): (r: LabelRecord)
    ensures r.frameIdx == frameIdx && r.fps == fps
    ensures r.x1 <= r.x2 && r.y1 <= r.y2
    ensures r.x1 <= ScaleCoor(p1.x) && r.x1 <= ScaleCoor(p2.x) && (r.x1 == ScaleCoor(p1.x) || r.x1 == ScaleCoor(p2.x))
    ensures r.y1 <= ScaleCoor(p1.y) && r.y1 <= ScaleCoor(p2.y) && (r.y1 == ScaleCoor(p1.y) || r.y1 == ScaleCoor(p2.y))
    ensures r.x2 >= ScaleCoor(p1.x) && r.x2 >= ScaleCoor(p2.x) && (r.x2 == ScaleCoor(p1.x) || r.x2 == ScaleCoor(p2.x))
    ensures r.y2 >= ScaleCoor(p1.y) && r.y2 >= ScaleCoor(p2.y) && (r.y2 == ScaleCoor(p1.y) || r.y2 == ScaleCoor(p2.y))
  {
    var corners := ReviseCoor(p1, p2);
    ScaleMonotone(corners.0.x, corners.1.x);
    ScaleMonotone(corners.0.y, corners.1.y);
    ScaleMonotone(corners.0.x, p1.x);
    ScaleMonotone(corners.0.x, p2.x);
    ScaleMonotone(corners.0.y, p1.y);
    ScaleMonotone(corners.0.y, p2.y);
    ScaleMonotone(p1.x, corners.1.x);
    ScaleMonotone(p2.x, corners.1.x);
    ScaleMonotone(p1.y, corners.1.y);
    ScaleMonotone(p2.y, corners.1.y);
    LabelRecord(frameIdx, fps, ScaleCoor(corners.0.x), ScaleCoor(corners.0.y),
                ScaleCoor(corners.1.x), ScaleCoor(corners.1.y))
  }

  /** The records of one frame, in list order (the filter of `_get_records_by_frame_idx`). */
  function RecordsAt(records: seq<LabelRecord>, frameIdx: int): (r: seq<LabelRecord>)
    ensures |r| <= |records|
    ensures forall x :: multiset(r)[x] == if x.frameIdx == frameIdx then multiset(records)[x] else 0
  {
    if records == [] then []
    else
      var rest := RecordsAt(records[1..], frameIdx);
      assert records == [records[0]] + records[1..];
      if records[0].frameIdx == frameIdx then [records[0]] + rest else rest
  }

  /** The filter distributes over concatenation, so it keeps list order. */
  lemma {:induction false} RecordsAtAppend(a: seq<LabelRecord>, b: seq<LabelRecord>, frameIdx: int)
    ensures RecordsAt(a + b, frameIdx) == RecordsAt(a, frameIdx) + RecordsAt(b, frameIdx)
    decreases |a|
  {
    if a == [] {
      assert a + b == b;
    } else {
      assert (a + b)[1..] == a[1..] + b;
      RecordsAtAppend(a[1..], b, frameIdx);
    }
  }

  /** A single record is kept exactly when it is on the frame. */
  lemma RecordsAtSingle(x: LabelRecord, frameIdx: int)
    ensures RecordsAt([x], frameIdx) == if x.frameIdx == frameIdx then [x] else []
  {
    assert [x][1..] == [];
  }

  /** The frame `_get_records_by_frame_idx` looks up: `frame_idx or
      self.render_frame_idx`, so both a missing index and index 0 (falsy in
      Python) mean the rendered frame. */
  function LookupFrame(frameIdx: Option<int>, renderFrameIdx: int): (key: int)
    ensures frameIdx.Some? && frameIdx.value != 0 ==> key == frameIdx.value
    ensures frameIdx.None? || frameIdx == Some(0) ==> key == renderFrameIdx
  {
    match frameIdx
    case None => renderFrameIdx
    case Some(f) => if f == 0 then renderFrameIdx else f
  }

  /** Frame of the last record (in list order) strictly before `render`:
      the target of `_goto_previous_record`. */
  function PreviousRecordFrame(records: seq<LabelRecord>, render: int): (r: Option<int>)
    ensures r.None? <==> forall k :: 0 <= k < |records| ==> records[k].frameIdx >= render
    ensures r.Some? ==> exists k :: 0 <= k < |records| && records[k].frameIdx == r.value && r.value < render
                                    && forall j :: k < j < |records| ==> records[j].frameIdx >= render
  {
    if records == [] then None
    else if records[|records| - 1].frameIdx < render then Some(records[|records| - 1].frameIdx)
    else PreviousRecordFrame(records[..|records| - 1], render)
  }

  /** Frame of the first record (in list order) strictly after `render`:
      the target of `_goto_next_record`. */
  function NextRecordFrame(records: seq<LabelRecord>, render: int): (r: Option<int>)
    ensures r.None? <==> forall k :: 0 <= k < |records| ==> records[k].frameIdx <= render
    ensures r.Some? ==> exists k :: 0 <= k < |records| && records[k].frameIdx == r.value && r.value > render
                                    && forall j :: 0 <= j < k ==> records[j].frameIdx <= render
  {
    if records == [] then None
    else if records[0].frameIdx > render then Some(records[0].frameIdx)
    else
      var r := NextRecordFrame(records[1..], render);
      assert r.Some? ==> exists k :: 0 <= k < |records| - 1 && records[1..][k].frameIdx == r.value && r.value > render
                                    && forall j :: 0 <= j < k ==> records[1..][j].frameIdx <= render;
      r
  }

  /** A record whose corners are exactly `p1` (top-left) and `p2` (bottom-right). */
  predicate Matches(record: LabelRecord, p1: Point, p2: Point)
  {
    record.x1 == p1.x && record.y1 == p1.y && record.x2 == p2.x && record.y2 == p2.y
  }

  /** The loop of `_remove_record`: every matching record overwrites the
      target, so the last match wins. */
  method LastMatching(current: seq<LabelRecord>, p1: Point, p2: Point) returns (target: Option<LabelRecord>)
    ensures target.None? <==> forall k :: 0 <= k < |current| ==> !Matches(current[k], p1, p2)
    ensures target.Some? ==> exists k :: 0 <= k < |current| && current[k] == target.value && Matches(target.value, p1, p2)
                                         && forall j :: k < j < |current| ==> !Matches(current[j], p1, p2)
  {
    target := None;
    var i := 0;
    ghost var at := 0;
    while i < |current|
      invariant 0 <= i <= |current|
      invariant target.None? <==> forall k :: 0 <= k < i ==> !Matches(current[k], p1, p2)
      invariant target.Some? ==> 0 <= at < i && current[at] == target.value && Matches(target.value, p1, p2)
                                 && forall j :: at < j < i ==> !Matches(current[j], p1, p2)
    {
      if Matches(current[i], p1, p2) {
        target := Some(current[i]);
        at := i;
      }
      i := i + 1;
    }
  }

  /** Position of the first occurrence of `x` (Python's `list.index`). */
  function FirstIndex<T(==)>(s: seq<T>, x: T): (i: nat)
    requires x in s
    ensures i < |s| && s[i] == x && x !in s[..i]
  {
    if s[0] == x then 0
    else
      assert s == [s[0]] + s[1..];
      var j := FirstIndex(s[1..], x);
      assert s[..j + 1] == [s[0]] + s[1..][..j];
      j + 1
  }

  /** Python's `list.remove`: drops the first occurrence of `x`. */
  function RemoveFirst<T(==)>(s: seq<T>, x: T): (r: seq<T>)
    requires x in s
    ensures |r| == |s| - 1
    ensures multiset(r) == multiset(s) - multiset{x}
    ensures r == s[..FirstIndex(s, x)] + s[FirstIndex(s, x) + 1..]
  {
    var i := FirstIndex(s, x);
    assert s == s[..i] + [x] + s[i + 1..];
    s[..i] + s[i + 1..]
  }
}
