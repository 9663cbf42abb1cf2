/** The trim table and the numbers `cut_videos` derives from it
    (src/app.py). A table row is a copy of the trim form; cutting turns
    every row into a subclip window and a manifest row. */
module TrimTable {
  import opened Common
  import opened Trim

  /** Seconds of padding added on each side of a highlight (`video_fps * 30` frames). */
  const PaddingSeconds := 30

  /** One manifest line (`label_info` in `cut_videos`), without the output
      file name, plus the window handed to the subclip cutter. */
  datatype ManifestRow = ManifestRow(
    number: int,                 // `#_highlight`
    startingFrame: int,          // init frame
    goalFrame: Option<int>,      // event frame, empty text when not set
    endingFrame: int,            // stop frame
    startCelebration: Option<int>,
    startingTime: string,        // init timestamp
    endingTime: string,          // stop timestamp
    addedFramesBefore: int,      // `frame_to_add`
    fps: int,
    startSeconds: real,          // `i_trim_sec`
    endSeconds: real)            // `s_trim_sec`

  /** A row `int()` can convert: both the init and the stop text are numbers. */
  predicate Cuttable(row: TrimEntry)
  {
    row.init.Some? && row.stop.Some?
  }

  /** The cut of one table row, numbered `number`. */
  function ManifestRowFor(row: TrimEntry, number: int, fps: int): (m: ManifestRow)
    requires Cuttable(row) && fps > 0
    ensures m.number == number && m.fps == fps && m.addedFramesBefore == PaddingSeconds * fps
    ensures m.startingFrame == row.init.value && m.endingFrame == row.stop.value
    ensures m.goalFrame == row.event && m.startCelebration == row.celebration
    ensures m.startingTime == row.initTimestamp && m.endingTime == row.stopTimestamp
    ensures m.startSeconds == (row.init.value as real) / (fps as real) - PaddingSeconds as real
    ensures m.endSeconds == (row.stop.value as real) / (fps as real) + PaddingSeconds as real
  {
    var frameToAdd := fps * PaddingSeconds;
    var startSeconds := ((row.init.value - frameToAdd) as real) / (fps as real);
    var endSeconds := ((row.stop.value + frameToAdd) as real) / (fps as real);
    PaddingArithmetic(row.init.value, fps);
    PaddingArithmetic(row.stop.value, fps);
    ManifestRow(number, row.init.value, row.event, row.stop.value, row.celebration,
                row.initTimestamp, row.stopTimestamp, frameToAdd, fps, startSeconds, endSeconds)
  }

  /** Moving a frame index by `30 * fps` frames moves its time by 30 seconds. */
  lemma PaddingArithmetic(frame: int, fps: int)
    requires fps > 0
    ensures ((frame - fps * PaddingSeconds) as real) / (fps as real) == (frame as real) / (fps as real) - PaddingSeconds as real
    ensures ((frame + fps * PaddingSeconds) as real) / (fps as real) == (frame as real) / (fps as real) + PaddingSeconds as real
  {
    var r := fps as real;
    assert ((frame - fps * PaddingSeconds) as real) == (frame as real) - r * (PaddingSeconds as real);
    assert ((frame + fps * PaddingSeconds) as real) == (frame as real) + r * (PaddingSeconds as real);
  }

  /** The window is 60 seconds longer than the highlight, and the start is
      not clamped at zero: a highlight starting at frame 0 is cut from -30 s. */
  lemma WindowWidenedNotClamped(row: TrimEntry, fps: int)
    requires Cuttable(row) && fps > 0
    ensures var m := ManifestRowFor(row, 1, fps);
      m.endSeconds - m.startSeconds == ((row.stop.value - row.init.value) as real) / (fps as real) + 2.0 * PaddingSeconds as real
    ensures row.init == Some(0) ==> ManifestRowFor(row, 1, fps).startSeconds == -(PaddingSeconds as real)
  {
    var r := fps as real;
    assert (row.stop.value as real) / r - (row.init.value as real) / r == ((row.stop.value - row.init.value) as real) / r;
  }
}
