# video-labeler: the annotation state machine

A Dafny model of the core of the video-labeler desktop tool. In that tool a
user opens a match video, steps through its frames, draws one rectangle
around the on-screen clock, and sets four frame markers for each highlight:
start (init), end (stop), event (goal) and start of celebration. The user
then adds the highlight to a trim table and cuts every row of the table into
a padded subclip, writing one manifest line per row.

The model covers:

- `VideoApp` (src/app.py) as a class `App.VideoApp`. Every Qt widget value
  the application reads or writes becomes a field:
  - the slider's value and maximum;
  - the four marker text fields, as `Option<int>`, where `None` is an empty
    field;
  - the two OCR timestamp fields;
  - the trim table rows;
  - the enabled flags of the trim, table and jump buttons.

  The class invariant `Valid()` ties these together:
  - the slider spans the open video;
  - at most one rectangle record exists, and it is normalised;
  - `x1..y2` are set together, and the trim controls are enabled exactly
    when they are set;
  - a drag in progress has its anchor;
  - the trim form is weakly ordered (init <= event <= stop).

  Every handler preserves this invariant, as long as the markers are set
  only through their four buttons: the marker fields are editable text
  fields, and a number typed into one is not modelled.
- `VideoFrameViewer` (src/view.py) as `View.FrameViewer`, with its drawing
  flags and corners, plus `revise_coor` as the pure function
  `View.ReviseCoor`.
- Pure modules beside them:
  - `Records`: the label record, the `int(c * 1.5)` scaling, the record
    filters and Python's `list.index` / `list.remove`;
  - `Navigation`: the slider clamp and `check_available_buttons`;
  - `Trim`: the four marker checks as written, and the order they keep;
  - `TrimTable`: the arithmetic of `cut_videos`;
  - `Timecode`: `_frame_idx_to_hms`, with a parser as the partner of its
    round trip.

Python and Qt semantics that the model spells out:

- `int()` of a float truncates toward zero.
- `frame_idx or render_frame_idx` treats frame 0 as missing.
- `list.remove` drops the first equal element.
- `//` floors, and the datetime result wraps at one day.
- `QSlider.setValue` clamps to the range.
- `QTableWidget.removeRow` ignores an index out of range.
- A button whose `setDisabled(True)` is in force emits no click. This is why
  the OCR setters require their button to be enabled, and so require a
  drawn rectangle.

What the proofs show about the code as written:

- **Init is locked once stop and event are set.** With both stop and event
  set, `set_init_trim_value` accepts a frame only when `stop < f < event`.
  Every other setter keeps `event <= stop`, so once both are set through
  their buttons init can never be set again with its button
  (`Trim.InitLockedOnceStopAndEventSet`).
- **The order kept is weak, not strict.** The error messages ask for a start
  BEFORE the event and an end AFTER it, that is, a strict order. The checks
  accept equal frames (`Trim.OrderNotStrict`), and the model follows the
  code.
- **The celebration marker is unordered.** Nothing orders it against the
  event, and init is never checked against it (`Trim.CelebrationUnordered`).
- **The forward buttons stop one step early.** The forward jump buttons are
  disabled one step before the last frame (`Navigation.ForwardButtonsStopOneEarly`).
- **The selection is never reset.** `item_selected` is never reset after a deletion, so a second click on "delete" removes the row that moved into the selected position (`App.VideoApp.DeleteRecordFromTable` keeps the selection).
- **The padding is not clamped.** The cut window starts 30 s before the
  highlight with no clamp at zero (`TrimTable.WindowWidenedNotClamped`).

## Model

| member | source | states |
|---|---|---|
| View.ReviseCoor | src/view.py:35-38 | the first corner is the per-axis minimum and the second the per-axis maximum of the two dragged points, so the result is ordered on both axes and each coordinate is one of the inputs |
| View.ReviseCoorSymmetric | src/view.py:35-38 | the drag direction does not matter: swapping the two points gives the same rectangle |
| View.ReviseCoorIdempotent | src/view.py:35-38 | normalising an already normalised pair changes nothing |
| View.ReviseCoorZeroArea | src/view.py:35-38 | a click with no drag yields the degenerate rectangle at that point rather than an error |
| View.FrameViewer.constructor | src/view.py:15-21 | a new viewer is not drawing or selecting and has no corners |
| Records.ScaleCoor | src/app.py:672-675 | `int(c * 1.5)` truncates toward zero: for c >= 0 the result r satisfies 2r <= 3c < 2r + 2, and symmetrically for negative c |
| Records.ScaleMonotone | src/app.py:669-675 | scaling preserves the order of coordinates, so a normalised rectangle stays normalised in video pixels |
| Records.MakeRecord | src/app.py:669-676 | the record of a release is on the given frame and fps, is normalised, and each corner coordinate is the scaled minimum or maximum of the dragged points |
| Records.RecordsAt | src/app.py:305 | the filter keeps exactly the records of the given frame, each with its multiplicity, and never grows the list |
| Records.RecordsAtAppend | src/app.py:305 | filtering a concatenation is the concatenation of the filtered parts, so the filter keeps list order |
| Records.RecordsAtSingle | src/app.py:305 | a single record is kept exactly when it is on the frame |
| Records.LookupFrame | src/app.py:304 | a missing index and index 0 (falsy in Python) both select the rendered frame; any other index selects itself |
| Records.PreviousRecordFrame | src/app.py:600-605 | none exactly when no record lies before the rendered frame; otherwise the frame of the last such record in list order |
| Records.NextRecordFrame | src/app.py:608-613 | none exactly when no record lies after the rendered frame; otherwise the frame of the first such record in list order |
| Records.LastMatching | src/app.py:323-328 | the loop of `_remove_record` finds nothing exactly when no record has the given corners; otherwise it finds the last record that has them |
| Records.FirstIndex | src/app.py:330 | `list.index`: the position of the first occurrence |
| Records.RemoveFirst | src/app.py:331 | `list.remove`: the list without its first occurrence of the element, one shorter, with the multiset reduced by exactly that element |
| Navigation.Clamp | src/app.py:386 | `QSlider.setValue` keeps an in-range value and moves any other value to the nearer bound |
| Navigation.ClampIdempotent | src/app.py:386 | setting an already clamped value changes nothing |
| Navigation.AvailableButtons | src/app.py:239-272 | for a slider value on the video, a backward jump button is enabled exactly when `QSlider.setValue` would not clamp its move at frame 0; an enabled +1 or +10 button's move is never clamped at the last frame; an enabled "3 secs" forward button passes the guard of `inc_3_sec` |
| Navigation.ForwardButtonsStopOneEarly | src/app.py:242-267 | "next frame" is disabled on the last-but-one frame, and "3 secs" is disabled exactly 75 frames before the end, although `inc_3_sec` would accept that jump |
| Trim.CheckInit | src/app.py:447-471 | a rejected init frame raises one of the three init error dialogs, each only in the situation its message names: both bounds set, only stop set and exceeded, or only event set and exceeded |
| Trim.CheckStop | src/app.py:493-516 | a rejected stop frame raises one of the three stop error dialogs, each only in the situation its message names |
| Trim.CheckMark | src/app.py:526-553 | a rejected event or celebration frame raises one of the three bounds error dialogs, each only in the situation its message names |
| Trim.InitRule | src/app.py:447-471 | init is accepted when stop and event are both set iff stop < f < event, with only stop iff f <= stop, with only event iff f <= event, and always with neither |
| Trim.StopRule | src/app.py:493-516 | stop is accepted when init and event are both set iff it is strictly after both, with one of them iff it is at or after it, and always with neither |
| Trim.MarkRule | src/app.py:526-553 | event (and celebration) is accepted iff it lies between the bounds that are set, inclusively |
| Trim.SettersTouchOnlyTheirMarker | src/app.py:447-590 | each setter writes only its own marker field, and a rejected frame leaves the form unchanged |
| Trim.InitLockedOnceStopAndEventSet | src/app.py:447-449 | on a weakly ordered form with stop and event set, every init frame is rejected |
| Trim.SettersPreserveOrder | src/app.py:432-592 | each of the four setters takes a weakly ordered form (init <= event <= stop) to a weakly ordered form |
| Trim.OrderNotStrict | src/app.py:432-555 | init, stop and event may all be set to the same frame |
| Trim.CelebrationUnordered | src/app.py:558-590 | a celebration before the event is accepted, and so is an init after the celebration |
| TrimTable.ManifestRowFor | src/app.py:357-376 | a row is cut from init/fps - 30 s to stop/fps + 30 s, and its manifest line copies the markers and timestamps, adds `30 * fps` frames and the fps |
| TrimTable.PaddingArithmetic | src/app.py:365-366 | moving a frame by `30 * fps` frames moves its time by exactly 30 seconds |
| TrimTable.WindowWidenedNotClamped | src/app.py:338-371 | the cut window is the highlight plus 60 seconds, and a highlight at frame 0 is cut from -30 s |
| Timecode.Pad2 | src/app.py:165 | a two-digit zero-padded field is two decimal digits |
| Timecode.Pad2RoundTrip | src/app.py:165 | reading a padded field back gives the number |
| Timecode.SecondsToHms | src/app.py:165 | `%H:%M:%S` is eight characters with colons at positions 2 and 5 |
| Timecode.FrameIdxToHms | src/app.py:160-165 | the timestamp of a frame is eight characters in `HH:MM:SS` layout |
| Timecode.SplitTimeOfDay | src/app.py:163-165 | hours, minutes and seconds of a time of day are in range and recombine to it |
| Timecode.ParsePadded | src/app.py:165 | reading back three zero-padded fields in range gives the time of day they denote |
| Timecode.SecondsToHmsRoundTrip | src/app.py:165 | printing a time of day and parsing it back gives it unchanged |
| Timecode.HmsRoundTrip | src/app.py:160-165 | parsing the printed timestamp gives `frame_idx // fps` modulo one day |
| App.InFrame | src/app.py:196-198 | a point inside the canvas needs a canvas at least two pixels wide and high, and points on the border rows and columns are outside |
| App.VideoApp.constructor | src/app.py:38-67 | the start state: no video, slider range [0, 0], nothing drawn, no records, empty form and table, trim and table controls disabled, guide at its first step |
| App.VideoApp.SetSliderValue | src/app.py:386 | the slider moves to the clamped value and nothing else changes |
| App.VideoApp.OpenVideo | src/app.py:76-79 | opening a video records its frame count, fps and size, renders frame 0, stops playback, and sets the slider range to [0, frame_count - 1] with the slider at 0; the jump buttons reflect the slider value from before |
| App.VideoApp.ReadVideo | src/app.py:97-106 | `read_video` and its first frame update: target, rendered frame and slider go to 0, playback and forced update are off, and the buttons are checked against the old slider value |
| App.VideoApp.BindWidgets | src/app.py:108-111 | the slider range becomes [0, frame_count - 1] |
| App.VideoApp.CheckAvailableButtons | src/app.py:239-272 | the six jump buttons take the enabled state for the current slider value |
| App.VideoApp.UpdateFrame | src/app.py:206-237 | buttons refreshed; a pending change or forced update is cleared and, when the target exists and decodes, rendered with the slider synced; otherwise nothing moves |
| App.VideoApp.IncFrame | src/app.py:385-388 | one frame forward, clamped at the last frame; the target follows the slider |
| App.VideoApp.DecFrame | src/app.py:391-394 | one frame back, clamped at frame 0; the target follows the slider |
| App.VideoApp.Inc10Frames | src/app.py:397-400 | ten frames forward, clamped at the last frame; the target follows the slider |
| App.VideoApp.Dec10Frames | src/app.py:403-406 | ten frames back, clamped at frame 0; the target follows the slider |
| App.VideoApp.Inc3Sec | src/app.py:409-413 | exactly 75 frames forward when that stays on the video, otherwise nothing changes |
| App.VideoApp.Dec3Sec | src/app.py:416-420 | exactly 75 frames back when that stays at or above frame 0, otherwise nothing changes |
| App.VideoApp.OnSliderReleased | src/app.py:616-618 | the target becomes the slider value |
| App.VideoApp.GotoPreviousRecord | src/app.py:600-605 | found exactly when a record lies before the rendered frame, and then the target is the last such record's frame; otherwise the target is kept |
| App.VideoApp.GotoNextRecord | src/app.py:608-613 | found exactly when a record lies after the rendered frame, and then the target is the first such record's frame; otherwise the target is kept |
| App.VideoApp.PlayStep | src/app.py:186-194 | while playing, the target advances one frame past the rendered one, or playback stops at the end; otherwise nothing changes |
| App.VideoApp.OnPlayVideoClicked | src/app.py:626-635 | playback toggles, and starting it runs one play step at once |
| App.VideoApp.MousePress | src/app.py:638-649 | a left click strictly inside the canvas while paused starts a drag anchored at the click; anything else changes nothing |
| App.VideoApp.MouseMove | src/app.py:652-657 | during a drag the second corner follows the pointer, even outside the canvas |
| App.VideoApp.MouseRelease | src/app.py:660-690 | a release ends the drag and takes the pointer as second corner when inside the canvas; with a second corner it replaces the records by the one normalised record of the rectangle on the rendered frame, enables the controls and forces a redraw; without one it reports that `revise_coor` raises, with nothing else changed |
| App.VideoApp.StoreRecord | src/app.py:677-688 | the records become exactly the new record, `x1..y2` its corners, the controls enabled, the guide at its second step |
| App.VideoApp.EnableButtons | src/app.py:693-700 | all seven trim and table controls become enabled, and nothing else changes |
| App.VideoApp.GetRecordsByFrameIdx | src/app.py:302-305 | the result holds exactly the records of the looked-up frame, and it is their filter in list order (see `Records.RecordsAtAppend`), with a missing index or index 0 meaning the rendered frame |
| App.VideoApp.RemoveRecord | src/app.py:320-332 | with no record of the frame matching the corners nothing changes; otherwise the first occurrence of a matching record is removed and the list shrinks by one |
| App.VideoApp.SetInitTrimValue | src/app.py:432-473 | the init timestamp takes the OCR text; the verdict is the init check on the slider frame, and init takes that frame exactly when accepted, with the other markers kept |
| App.VideoApp.SetStopTrimValue | src/app.py:476-518 | the guide moves to its third step, the stop timestamp takes the OCR text, and stop takes the slider frame exactly when the stop check accepts it |
| App.VideoApp.SetEventValue | src/app.py:521-555 | the event marker takes the slider frame exactly when the inclusive bounds check accepts it; nothing else in the form changes |
| App.VideoApp.SetCelebrationValue | src/app.py:558-592 | the celebration marker takes the slider frame exactly when the same bounds check accepts it; nothing else in the form changes |
| App.VideoApp.AddTrimToTable | src/app.py:722-729 | the form becomes the new first row with no validation, and the old rows move down by one in order |
| App.VideoApp.SelectTrimFromTable | src/app.py:595-596 | the selection becomes the clicked row |
| App.VideoApp.DeleteRecordFromTable | src/app.py:423-429 | "no item selected" is reported exactly without a selection; a selected row in range is removed with the others kept in order; otherwise the table is unchanged |
| App.VideoApp.CutVideos | src/app.py:335-382 | succeeds exactly when every row has init and stop, giving one manifest row per table row, numbered from 1 in table order; otherwise fails at the first row that lacks them |

## Left out

- File and process I/O are not modelled: the video capture and frame decoding, `cv2.imwrite` of the OCR crop, the OCR recogniser, the `ffmpeg` subclip cutting, the CSV manifest and `save_file`. The decode outcome (`readOk`) and the recognised text (`recognized`) are parameters. The manifest rows are returned instead of written, and the output file name is not modelled.
- Painting, pixmap conversion, `draw_rects`, repaints and status-bar texts (`_update_frame_status`, `on_slider_moved`, the guide messages) only display state. `_get_nrecord_in_current_frame` only counts records for display. None of them is modelled.
- The timers are not modelled. `_update_frame` and `_play_video` reschedule themselves through `QTimer.singleShot`, and their modelled bodies are `UpdateFrame` and `PlayStep`. In the model they run when called.
- App.VideoApp.UpdateFrame: does not model the float pixmap scaling that recomputes `scale_width`/`scale_height` from the screen. The canvas size is given to `OpenVideo` instead.
- App.VideoApp.OpenVideo: takes the first frame read to succeed, and so does not model `render_frame_idx` being `None` until a frame is rendered.
- App.VideoApp.SetInitTrimValue: does not model `cap.read()` failing at the end of the stream (the source then raises on the crop). It requires its button to be enabled, so a rectangle exists.
- App.VideoApp.SetStopTrimValue: the same as `SetInitTrimValue`.
- App.VideoApp.CutVideos: requires a positive fps. With fps 0 the source divides by zero.
- The four marker fields change only through their setters in the model. They are editable text fields in the program, and a number typed into one directly is not modelled. The weak order `init <= event <= stop` that `Valid()` keeps, and the lock of init once stop and event are set, hold only under this restriction.
- App.VideoApp.MouseRelease: returns `raised` for the release whose `revise_coor` raises `TypeError`, with the state as left at the raise. The termination of the program that PyQt5 performs on an unhandled exception in an event handler is not modelled.
- Floating-point arithmetic is modelled exactly. `int(c * 1.5)` in `Records.ScaleCoor` is computed on integers (exact for the coordinates a canvas has), and the seconds `/ fps` in `TrimTable.ManifestRowFor` and `TrimTable.PaddingArithmetic` are exact reals, not rounded binary floats.
- `int()` on a marker field the user typed a non-number into is not modelled. The fields hold integers or are empty.
- `_frame_idx_to_hmsf` is not modelled. Its fractional-second format depends on floating point.
- The `OverflowError` that Python's date arithmetic raises for an index that leaves the years 1 to 9999 is not modelled. `Timecode.FrameIdxToHms` wraps modulo one day for every index.
- The events preview is not modelled: `get_events` (pandas), `event_preview_clicked`, `get_frame_from_event`, `get_event_name` and `get_event_description`.
- `limit_nlabel` is not modelled: it is read from the configuration and never used.
- The keyboard dispatch (`keyPressEvent`) is not modelled. It only calls `OnPlayVideoClicked`, `IncFrame` and `DecFrame`.
- `event_frame_mouse_double_click` is not modelled. It is assigned to `label_frame.mouse`, which Qt never calls.
- `bind_widgets` connects the signals again on every call. A repeated open therefore delivers each click more than once, and this is not modelled.
- App.VideoApp.RemoveRecord: models the removal only. The call to `remove_record_from_preview` that follows it refers to a method that does not exist.
- The drawing configuration (colours, thickness, styles) is not modelled, and neither is the selection drawing: `select_pt1`/`select_pt2` are never set by the core. `is_selecting` is modelled, and `MousePress` clears it.
- `MyMainApp`, `VideoAppMain` and the file dialog are not part of this model.
