/** The annotation state machine of `VideoApp` (src/app.py), with the state
    its viewer base class `VideoAppViewer` (src/view.py) sets up. Qt widgets
    hold this state in the source; here each widget value is a field:
    the slider's value and maximum, the four marker text fields and two
    timestamp fields (the trim form), the trim table's rows, and the enabled
    flags of the controls. */
module App {
  import opened Common
  import opened View
  import opened Records
  import opened Navigation
  import opened Trim
  import opened TrimTable

  /** The guide message selector `self.status`. */
  datatype Status = First | Second | Third

  datatype MouseButton = LeftButton | RightButton | OtherButton

  /** `_check_coor_in_frame`: strictly inside the scaled canvas, so the
      border rows and columns count as outside and a canvas narrower than
      two pixels has no inside point. */
  predicate InFrame(x: int, y: int, width: int, height: int)
    ensures InFrame(x, y, width, height) ==> width >= 2 && height >= 2
    ensures x == 0 || y == 0 || x == width || y == height ==> !InFrame(x, y, width, height)
  {
    0 < x < width && 0 < y < height
  }

  class VideoApp {
    const labelFrame: FrameViewer

    // facts about the open video; zero until one is opened
    var frameCount: int
    var fps: int
    var scaleWidth: int
    var scaleHeight: int

    // the slider: range [0, sliderMax]
    var sliderMax: int
    var sliderValue: int

    var targetFrameIdx: int
    var renderFrameIdx: int
    var isPlayingVideo: bool
    var isForceUpdate: bool
    var status: Status

    var records: seq<LabelRecord>
    // the last drawn rectangle in video pixels; unset before the first drag
    var x1: Option<int>
    var y1: Option<int>
    var x2: Option<int>
    var y2: Option<int>

    var controls: Controls
    var navButtons: NavButtons

    var form: TrimEntry
    var table: seq<TrimEntry>
    var itemSelected: Option<int>

    ghost predicate Valid()
      reads this, labelFrame
    {
      && VideoValid() && DragValid() && RecordsValid() && SelectionValid() && WeaklyOrdered(form)
    }

    /** The slider spans the frames of the open video, and the frame indices are non-negative. */
    ghost predicate VideoValid()
      reads this`frameCount, this`fps, this`sliderMax, this`sliderValue, this`targetFrameIdx, this`renderFrameIdx
    {
      && frameCount >= 0 && fps >= 0
      && sliderMax == (if frameCount > 0 then frameCount - 1 else 0)
      && 0 <= sliderValue <= sliderMax
      && 0 <= targetFrameIdx && 0 <= renderFrameIdx
    }

    /** A drag in progress has its anchor. */
    ghost predicate DragValid()
      reads labelFrame`isDrawing, labelFrame`pt1
    {
      labelFrame.isDrawing ==> labelFrame.pt1.Some?
    }

    /** At most one record is kept, and it is a normalised rectangle on a real frame. */
    ghost predicate RecordsValid()
      reads this`records
    {
      && |records| <= 1
      && forall k :: 0 <= k < |records| ==>
           records[k].frameIdx >= 0 && records[k].x1 <= records[k].x2 && records[k].y1 <= records[k].y2
    }

    /** The last drawn rectangle is set as a whole and normalised; the trim
        and table controls are enabled exactly once it exists. */
    ghost predicate SelectionValid()
      reads this`x1, this`y1, this`x2, this`y2, this`controls
    {
      && x1.Some? == y1.Some? == x2.Some? == y2.Some?
      && (x1.Some? ==> x1.value <= x2.value && y1.value <= y2.value)
      && controls == (if x1.Some? then AllEnabled else AllDisabled)
    }

    /** `VideoAppViewer.__init__` followed by `VideoApp.__init__`: no video,
        nothing drawn, every trim and table control disabled. */
    constructor ()
      ensures Valid() && fresh(labelFrame)
      ensures !labelFrame.isDrawing && !labelFrame.isSelecting
      ensures labelFrame.pt1 == None && labelFrame.pt2 == None
      ensures labelFrame.selectPt1 == None && labelFrame.selectPt2 == None
      ensures itemSelected == None && sliderMax == 0 && sliderValue == 0
      ensures controls == AllDisabled && navButtons == AllNavEnabled
      ensures x1 == None && y1 == None && x2 == None && y2 == None
      ensures records == [] && status == First && form == EmptyEntry && table == []
      ensures !isPlayingVideo && !isForceUpdate
    {
      labelFrame := new FrameViewer();
      frameCount, fps := 0, 0;
      scaleWidth, scaleHeight := 0, 0;
      sliderMax, sliderValue := 0, 0;
      targetFrameIdx, renderFrameIdx := 0, 0;
      isPlayingVideo, isForceUpdate := false, false;
      status := First;
      records := [];
      x1, y1, x2, y2 := None, None, None, None;
      controls := AllDisabled;
      navButtons := AllNavEnabled;
      form := EmptyEntry;
      table := [];
      itemSelected := None;
    }

    /** `QSlider.setValue`. */
    method SetSliderValue(v: int)
      requires Valid()
      modifies this`sliderValue
      ensures Valid()
      ensures sliderValue == Clamp(v, 0, sliderMax)
    {
      sliderValue := Clamp(v, 0, sliderMax);
    }

    /** Setting `videopath`: `read_video` and then `bind_widgets`. */
    method OpenVideo(newFrameCount: int, newFps: int, newScaleWidth: int, newScaleHeight: int)
      requires Valid()
      requires newFrameCount > 0 && newFps > 0 && newScaleWidth > 0 && newScaleHeight > 0
      modifies this`frameCount, this`fps, this`scaleWidth, this`scaleHeight, this`sliderMax,
               this`sliderValue, this`targetFrameIdx, this`renderFrameIdx, this`isPlayingVideo,
               this`isForceUpdate, this`navButtons
      ensures Valid()
      ensures frameCount == newFrameCount && fps == newFps
      ensures scaleWidth == newScaleWidth && scaleHeight == newScaleHeight
      ensures sliderMax == frameCount - 1 && sliderValue == 0
      ensures targetFrameIdx == 0 && renderFrameIdx == 0
      ensures !isPlayingVideo && !isForceUpdate
      ensures navButtons == AvailableButtons(old(sliderValue), newFrameCount)
    {
      ReadVideo(newFrameCount, newFps, newScaleWidth, newScaleHeight);
      BindWidgets();
    }

    /** `read_video` with its first `_update_frame`, whose frame read is
        taken to succeed: the buttons are checked against the slider value
        left from before, frame 0 is rendered and the slider, whose range is
        still the old one, is moved to it. */
    method ReadVideo(newFrameCount: int, newFps: int, newScaleWidth: int, newScaleHeight: int)
      requires 0 <= sliderMax
      modifies this`frameCount, this`fps, this`scaleWidth, this`scaleHeight,
               this`sliderValue, this`targetFrameIdx, this`renderFrameIdx, this`isPlayingVideo,
               this`isForceUpdate, this`navButtons
      ensures frameCount == newFrameCount && fps == newFps
      ensures scaleWidth == newScaleWidth && scaleHeight == newScaleHeight
      ensures targetFrameIdx == 0 && renderFrameIdx == 0 && sliderValue == 0
      ensures !isPlayingVideo && !isForceUpdate
      ensures navButtons == AvailableButtons(old(sliderValue), newFrameCount)
    {
      frameCount, fps := newFrameCount, newFps;
      targetFrameIdx := 0;
      isPlayingVideo, isForceUpdate := false, false;
      CheckAvailableButtons();
      scaleWidth, scaleHeight := newScaleWidth, newScaleHeight;
      renderFrameIdx := 0;
      sliderValue := Clamp(renderFrameIdx, 0, sliderMax);
    }

    /** `bind_widgets`: the slider range becomes `[0, frame_count - 1]`. */
    method BindWidgets()
      modifies this`sliderMax
      ensures sliderMax == frameCount - 1
    {
      sliderMax := frameCount - 1;
    }

    /** `check_available_buttons`: the jump buttons' enabled state for the
        current slider value. */
    method CheckAvailableButtons()
      modifies this`navButtons
      ensures navButtons == AvailableButtons(sliderValue, frameCount)
    {
      navButtons := AvailableButtons(sliderValue, frameCount);
    }

    /** One tick of `_update_frame`: refresh the jump buttons, then render
        the target frame when it differs from the rendered one or an update
        is forced. `readOk` is the outcome of decoding the frame. */
    method UpdateFrame(readOk: bool)
      requires Valid()
      modifies this`navButtons, this`isForceUpdate, this`renderFrameIdx, this`sliderValue
      ensures Valid()
      ensures navButtons == AvailableButtons(old(sliderValue), frameCount)
      ensures !isForceUpdate
      ensures targetFrameIdx != old(renderFrameIdx) || old(isForceUpdate) ==>
                if targetFrameIdx < frameCount && readOk
                then renderFrameIdx == targetFrameIdx && sliderValue == targetFrameIdx
                else renderFrameIdx == old(renderFrameIdx) && sliderValue == old(sliderValue)
      ensures targetFrameIdx == old(renderFrameIdx) && !old(isForceUpdate) ==>
                renderFrameIdx == old(renderFrameIdx) && sliderValue == old(sliderValue)
    {
      CheckAvailableButtons();
      if targetFrameIdx != renderFrameIdx || isForceUpdate {
        isForceUpdate := false;
        // _read_frame logs and returns nothing for an index past the end
        if targetFrameIdx < frameCount && readOk {
          renderFrameIdx := targetFrameIdx;
          sliderValue := Clamp(renderFrameIdx, 0, sliderMax);
        }
      }
    }

    /** `inc_frame`. */
    method IncFrame()
      requires Valid()
      modifies this`sliderValue, this`targetFrameIdx
      ensures Valid()
      ensures sliderValue == if old(sliderValue) + 1 <= sliderMax then old(sliderValue) + 1 else sliderMax
      ensures targetFrameIdx == sliderValue
      ensures frameCount > 0 ==> 0 <= sliderValue <= frameCount - 1
    {
      SetSliderValue(sliderValue + 1);
      targetFrameIdx := sliderValue;
    }

    /** `dec_frame`. */
    method DecFrame()
      requires Valid()
      modifies this`sliderValue, this`targetFrameIdx
      ensures Valid()
      ensures sliderValue == if old(sliderValue) - 1 >= 0 then old(sliderValue) - 1 else 0
      ensures targetFrameIdx == sliderValue
      ensures frameCount > 0 ==> 0 <= sliderValue <= frameCount - 1
    {
      SetSliderValue(sliderValue - 1);
      targetFrameIdx := sliderValue;
    }

    /** `inc_10_frames`. */
    method Inc10Frames()
      requires Valid()
      modifies this`sliderValue, this`targetFrameIdx
      ensures Valid()
      ensures sliderValue == if old(sliderValue) + 10 <= sliderMax then old(sliderValue) + 10 else sliderMax
      ensures targetFrameIdx == sliderValue
      ensures frameCount > 0 ==> 0 <= sliderValue <= frameCount - 1
    {
      SetSliderValue(sliderValue + 10);
      targetFrameIdx := sliderValue;
    }

    /** `dec_10_frames`. */
    method Dec10Frames()
      requires Valid()
      modifies this`sliderValue, this`targetFrameIdx
      ensures Valid()
      ensures sliderValue == if old(sliderValue) - 10 >= 0 then old(sliderValue) - 10 else 0
      ensures targetFrameIdx == sliderValue
      ensures frameCount > 0 ==> 0 <= sliderValue <= frameCount - 1
    {
      SetSliderValue(sliderValue - 10);
      targetFrameIdx := sliderValue;
    }

    /** `inc_3_sec`: a guarded jump of exactly 75 frames, a no-op when it
        would pass the last frame. */
    method Inc3Sec()
      requires Valid()
      modifies this`sliderValue, this`targetFrameIdx
      ensures Valid()
      ensures old(sliderValue) + ThreeSecFrames <= frameCount - 1 ==>
                sliderValue == old(sliderValue) + ThreeSecFrames && targetFrameIdx == sliderValue
      ensures old(sliderValue) + ThreeSecFrames > frameCount - 1 ==>
                sliderValue == old(sliderValue) && targetFrameIdx == old(targetFrameIdx)
    {
      if sliderValue + ThreeSecFrames <= frameCount - 1 {
        SetSliderValue(sliderValue + ThreeSecFrames);
        targetFrameIdx := sliderValue;
      }
    }

    /** `dec_3_sec`: a guarded jump of exactly 75 frames back, a no-op when it
        would pass frame 0. */
    method Dec3Sec()
      requires Valid()
      modifies this`sliderValue, this`targetFrameIdx
      ensures Valid()
      ensures old(sliderValue) - ThreeSecFrames >= 0 ==>
                sliderValue == old(sliderValue) - ThreeSecFrames && targetFrameIdx == sliderValue
      ensures old(sliderValue) - ThreeSecFrames < 0 ==>
                sliderValue == old(sliderValue) && targetFrameIdx == old(targetFrameIdx)
    {
      if sliderValue - ThreeSecFrames >= 0 {
        SetSliderValue(sliderValue - ThreeSecFrames);
        targetFrameIdx := sliderValue;
      }
    }

    /** `on_slider_released`. */
    method OnSliderReleased()
      requires Valid()
      modifies this`targetFrameIdx
      ensures Valid()
      ensures targetFrameIdx == sliderValue
    {
      targetFrameIdx := sliderValue;
    }

    /** `_goto_previous_record`: jump to the last record, in list order,
        before the rendered frame; `found` is false when the source shows
        "no previous record". */
    method GotoPreviousRecord() returns (found: bool)
      requires Valid()
      modifies this`targetFrameIdx
      ensures Valid()
      ensures found <==> exists k :: 0 <= k < |records| && records[k].frameIdx < renderFrameIdx
      ensures found ==> exists k :: 0 <= k < |records| && records[k].frameIdx == targetFrameIdx < renderFrameIdx
                                    && forall j :: k < j < |records| ==> records[j].frameIdx >= renderFrameIdx
      ensures !found ==> targetFrameIdx == old(targetFrameIdx)
    {
      var previous := PreviousRecordFrame(records, renderFrameIdx);
      if previous.None? {
        found := false;
      } else {
        found := true;
        targetFrameIdx := previous.value;
      }
    }

    /** `_goto_next_record`: jump to the first record, in list order, after
        the rendered frame; `found` is false when the source shows "no next record". */
    method GotoNextRecord() returns (found: bool)
      requires Valid()
      modifies this`targetFrameIdx
      ensures Valid()
      ensures found <==> exists k :: 0 <= k < |records| && records[k].frameIdx > renderFrameIdx
      ensures found ==> exists k :: 0 <= k < |records| && records[k].frameIdx == targetFrameIdx > renderFrameIdx
                                    && forall j :: 0 <= j < k && j < |records| ==> records[j].frameIdx <= renderFrameIdx
      ensures !found ==> targetFrameIdx == old(targetFrameIdx)
    {
      var next := NextRecordFrame(records, renderFrameIdx);
      if next.None? {
        found := false;
      } else {
        found := true;
        targetFrameIdx := next.value;
      }
    }

    /** One step of `_play_video` (the timer that reschedules it is left
        out): advance the target by one frame, or stop playback at the end. */
    method PlayStep()
      requires Valid()
      modifies this`isPlayingVideo, this`targetFrameIdx
      ensures Valid()
      ensures !(old(isPlayingVideo) && fps != 0) ==>
                isPlayingVideo == old(isPlayingVideo) && targetFrameIdx == old(targetFrameIdx)
      ensures old(isPlayingVideo) && fps != 0 && renderFrameIdx + 1 >= frameCount ==>
                !isPlayingVideo && targetFrameIdx == old(targetFrameIdx)
      ensures old(isPlayingVideo) && fps != 0 && renderFrameIdx + 1 < frameCount ==>
                isPlayingVideo && targetFrameIdx == renderFrameIdx + 1
    {
      if isPlayingVideo && fps != 0 {
        var frameIdx := if renderFrameIdx + 1 < frameCount then renderFrameIdx + 1 else frameCount;
        if frameIdx == frameCount {
          // on_play_video_clicked: toggles playback off
          isPlayingVideo := !isPlayingVideo;
        } else {
          targetFrameIdx := frameIdx;
        }
      }
    }

    /** `on_play_video_clicked`: toggle playback; starting it runs one play step at once. */
    method OnPlayVideoClicked()
      requires Valid()
      modifies this`isPlayingVideo, this`targetFrameIdx
      ensures Valid()
      ensures old(isPlayingVideo) ==> !isPlayingVideo && targetFrameIdx == old(targetFrameIdx)
      ensures !old(isPlayingVideo) && fps != 0 && renderFrameIdx + 1 >= frameCount ==>
                !isPlayingVideo && targetFrameIdx == old(targetFrameIdx)
      ensures !old(isPlayingVideo) && fps != 0 && renderFrameIdx + 1 < frameCount ==>
                isPlayingVideo && targetFrameIdx == renderFrameIdx + 1
      ensures !old(isPlayingVideo) && fps == 0 ==> isPlayingVideo && targetFrameIdx == old(targetFrameIdx)
    {
      isPlayingVideo := !isPlayingVideo;
      if isPlayingVideo {
        PlayStep();
      }
    }

    /** `event_frame_mouse_press`: a left click strictly inside the canvas,
        while not playing, starts a drag anchored at the click. */
    method MousePress(x: int, y: int, button: MouseButton)
      requires Valid()
      modifies labelFrame`isDrawing, labelFrame`isSelecting, labelFrame`pt1
      ensures Valid()
      ensures InFrame(x, y, scaleWidth, scaleHeight) && !isPlayingVideo && button == LeftButton ==>
                labelFrame.isDrawing && !labelFrame.isSelecting && labelFrame.pt1 == Some(Point(x, y))
      ensures !(InFrame(x, y, scaleWidth, scaleHeight) && !isPlayingVideo && button == LeftButton) ==>
                labelFrame.isDrawing == old(labelFrame.isDrawing) && labelFrame.isSelecting == old(labelFrame.isSelecting)
                && labelFrame.pt1 == old(labelFrame.pt1)
    {
      if InFrame(x, y, scaleWidth, scaleHeight) && !isPlayingVideo {
        if button == LeftButton {
          labelFrame.isDrawing := true;
          labelFrame.isSelecting := false;
          labelFrame.pt1 := Some(Point(x, y));
        }
      }
    }

    /** `event_frame_mouse_move`: while dragging, the second corner follows
        the pointer, inside the canvas or not. */
    method MouseMove(x: int, y: int)
      requires Valid()
      modifies labelFrame`pt2
      ensures Valid()
      ensures labelFrame.pt2 == if labelFrame.isDrawing then Some(Point(x, y)) else old(labelFrame.pt2)
    {
      if labelFrame.isDrawing {
        labelFrame.pt2 := Some(Point(x, y));
      }
    }

    /** `event_frame_mouse_release`: ends the drag and replaces `records`
        by the one record of the dragged rectangle on the rendered frame.
        When no second corner exists (released outside the canvas without
        moving), `revise_coor` raises after the drag has been ended: `raised`
        reports that path, and the state is the one left at the raise. */
    method MouseRelease(x: int, y: int) returns (raised: bool)
      requires Valid()
      modifies labelFrame`isDrawing, labelFrame`pt2, this`records, this`controls, this`status,
               this`x1, this`y1, this`x2, this`y2, this`isForceUpdate
      ensures Valid()
      ensures !old(labelFrame.isDrawing) ==>
                && labelFrame.isDrawing == old(labelFrame.isDrawing) && labelFrame.pt2 == old(labelFrame.pt2)
                && records == old(records) && controls == old(controls) && status == old(status)
                && x1 == old(x1) && y1 == old(y1) && x2 == old(x2) && y2 == old(y2)
                && isForceUpdate == old(isForceUpdate)
      ensures raised <==> old(labelFrame.isDrawing) && labelFrame.pt2.None?
      ensures old(labelFrame.isDrawing) ==> !labelFrame.isDrawing
      ensures old(labelFrame.isDrawing) ==>
                labelFrame.pt2 == if InFrame(x, y, scaleWidth, scaleHeight) then Some(Point(x, y)) else old(labelFrame.pt2)
      ensures old(labelFrame.isDrawing) && labelFrame.pt2.Some? ==>
                && records == [MakeRecord(renderFrameIdx, fps, labelFrame.pt1.value, labelFrame.pt2.value)]
                && records[0].frameIdx == renderFrameIdx
                && records[0].x1 <= records[0].x2 && records[0].y1 <= records[0].y2
                && x1 == Some(records[0].x1) && y1 == Some(records[0].y1)
                && x2 == Some(records[0].x2) && y2 == Some(records[0].y2)
                && controls == AllEnabled && status == Second && isForceUpdate
      ensures old(labelFrame.isDrawing) && labelFrame.pt2.None? ==>
                && records == old(records) && controls == old(controls) && status == old(status)
                && x1 == old(x1) && y1 == old(y1) && x2 == old(x2) && y2 == old(y2)
                && isForceUpdate == old(isForceUpdate)
    {
      raised := false;
      if labelFrame.isDrawing {
        labelFrame.isDrawing := false;
        if InFrame(x, y, scaleWidth, scaleHeight) {
          labelFrame.pt2 := Some(Point(x, y));
        }
        if labelFrame.pt2.Some? {
          StoreRecord(MakeRecord(renderFrameIdx, fps, labelFrame.pt1.value, labelFrame.pt2.value));
        } else {
          raised := true;
        }
      }
    }

    /** The end of a successful release: `records` is cleared and given the
        new record, the controls are enabled (`enable_buttons`), the guide
        moves to its second step, `x1`..`y2` take the record's corners and a
        redraw is forced. */
    method StoreRecord(record: LabelRecord)
      requires Valid()
      requires record.frameIdx >= 0 && record.x1 <= record.x2 && record.y1 <= record.y2
      modifies this`records, this`controls, this`status, this`x1, this`y1, this`x2, this`y2, this`isForceUpdate
      ensures Valid()
      ensures records == [record] && controls == AllEnabled && status == Second && isForceUpdate
      ensures x1 == Some(record.x1) && y1 == Some(record.y1) && x2 == Some(record.x2) && y2 == Some(record.y2)
    {
      // records.clear() followed by records.append(record)
      records := [record];
      EnableButtons();
      status := Second;
      x1, y1, x2, y2 := Some(record.x1), Some(record.y1), Some(record.x2), Some(record.y2);
      isForceUpdate := true;
    }

    /** `enable_buttons`: the seven trim and table controls are enabled. */
    method EnableButtons()
      modifies this`controls
      ensures controls == AllEnabled
    {
      controls := AllEnabled;
    }

    /** `_get_records_by_frame_idx`: the records of the given frame, where
        a missing index and index 0 both mean the rendered frame. */
    function GetRecordsByFrameIdx(frameIdx: Option<int>): (r: seq<LabelRecord>)
      reads this
      ensures forall k :: 0 <= k < |r| ==> r[k] in records && r[k].frameIdx == LookupFrame(frameIdx, renderFrameIdx)
      ensures forall x :: x in records && x.frameIdx == LookupFrame(frameIdx, renderFrameIdx) ==> x in r
      ensures r == RecordsAt(records, LookupFrame(frameIdx, renderFrameIdx))
    {
      var found := RecordsAt(records, LookupFrame(frameIdx, renderFrameIdx));
      assert forall x :: x in found <==> x in multiset(found);
      assert forall x :: x in records <==> x in multiset(records);
      found
    }

    /** `_remove_record`: removes the first record equal to the last record
        of the given frame whose corners are exactly `p1` and `p2`; nothing
        changes when none matches. (The preview update it then calls does not
        exist, so the source raises after the removal.) */
    method RemoveRecord(frameIdx: Option<int>, p1: Point, p2: Point)
      requires Valid()
      modifies this`records
      ensures Valid()
      ensures var key := LookupFrame(frameIdx, renderFrameIdx);
        (forall x :: x in old(records) && x.frameIdx == key ==> !Matches(x, p1, p2)) ==> records == old(records)
      ensures var key := LookupFrame(frameIdx, renderFrameIdx);
        (exists x :: x in old(records) && x.frameIdx == key && Matches(x, p1, p2)) ==>
          exists t :: t in old(records) && t.frameIdx == key && Matches(t, p1, p2)
                      && records == RemoveFirst(old(records), t) && |records| == |old(records)| - 1
    {
      var current := GetRecordsByFrameIdx(frameIdx);
      var target := LastMatching(current, p1, p2);
      if target.Some? {
        records := RemoveFirst(records, target.value);
      }
    }

    /** `set_init_trim_value`: store the current slider frame as the init
        marker if the written check accepts it, after filling the init
        timestamp from the OCR result `recognized`. Runs only from its
        button, which is enabled once a rectangle exists. */
    method SetInitTrimValue(recognized: string) returns (v: Verdict)
      requires Valid() && controls.initTrim
      modifies this`form
      ensures Valid()
      ensures v == CheckInit(sliderValue, old(form.stop), old(form.event))
      ensures form.init == if v.Accept? then Some(sliderValue) else old(form.init)
      ensures form.stop == old(form.stop) && form.event == old(form.event) && form.celebration == old(form.celebration)
      ensures form.initTimestamp == recognized && form.stopTimestamp == old(form.stopTimestamp)
    {
      var frameSelected := sliderValue;
      form := form.(initTimestamp := recognized);
      SettersPreserveOrder(form, frameSelected);
      v := CheckInit(frameSelected, form.stop, form.event);
      if v.Accept? {
        form := form.(init := Some(frameSelected));
      }
    }

    /** `set_stop_trim_value`: moves the guide to its third step (whatever
        the outcome), fills the stop timestamp and stores the slider frame
        as the stop marker if the check accepts it. */
    method SetStopTrimValue(recognized: string) returns (v: Verdict)
      requires Valid() && controls.stopTrim
      modifies this`form, this`status
      ensures Valid()
      ensures status == Third
      ensures v == CheckStop(sliderValue, old(form.init), old(form.event))
      ensures form.stop == if v.Accept? then Some(sliderValue) else old(form.stop)
      ensures form.init == old(form.init) && form.event == old(form.event) && form.celebration == old(form.celebration)
      ensures form.stopTimestamp == recognized && form.initTimestamp == old(form.initTimestamp)
    {
      var frameSelected := sliderValue;
      status := Third;
      form := form.(stopTimestamp := recognized);
      SettersPreserveOrder(form, frameSelected);
      v := CheckStop(frameSelected, form.init, form.event);
      if v.Accept? {
        form := form.(stop := Some(frameSelected));
      }
    }

    /** `set_event_value`. */
    method SetEventValue() returns (v: Verdict)
      requires Valid()
      modifies this`form
      ensures Valid()
      ensures v == CheckMark(sliderValue, old(form.init), old(form.stop))
      ensures form == if v.Accept? then old(form).(event := Some(sliderValue)) else old(form)
    {
      var frameSelected := sliderValue;
      SettersPreserveOrder(form, frameSelected);
      v := CheckMark(frameSelected, form.init, form.stop);
      if v.Accept? {
        form := form.(event := Some(frameSelected));
      }
    }

    /** `set_celebration_value`: the same bounds as the event marker, and no
        constraint against it. */
    method SetCelebrationValue() returns (v: Verdict)
      requires Valid()
      modifies this`form
      ensures Valid()
      ensures v == CheckMark(sliderValue, old(form.init), old(form.stop))
      ensures form == if v.Accept? then old(form).(celebration := Some(sliderValue)) else old(form)
    {
      var frameSelected := sliderValue;
      SettersPreserveOrder(form, frameSelected);
      v := CheckMark(frameSelected, form.init, form.stop);
      if v.Accept? {
        form := form.(celebration := Some(frameSelected));
      }
    }

    /** `add_trim_to_table`: the six form fields become a new row 0, with no
        validation; the other rows move down by one. */
    method AddTrimToTable()
      requires Valid()
      modifies this`table
      ensures Valid()
      ensures |table| == |old(table)| + 1 && table[0] == form
      ensures forall k :: 0 <= k < |old(table)| ==> table[k + 1] == old(table)[k]
    {
      table := [form] + table;
    }

    /** `select_trim_from_table`: remembers the clicked row. */
    method SelectTrimFromTable(currentRow: int)
      requires Valid()
      modifies this`itemSelected
      ensures Valid()
      ensures itemSelected == Some(currentRow)
    {
      itemSelected := Some(currentRow);
    }

    /** `delete_record_from_table`: removes the selected row (Qt ignores a
        row index out of range); with no selection it reports "No item
        selected!" and changes nothing. The selection itself is kept. */
    method DeleteRecordFromTable() returns (noSelection: bool)
      requires Valid()
      modifies this`table
      ensures Valid()
      ensures noSelection <==> itemSelected.None?
      ensures itemSelected.Some? && 0 <= itemSelected.value < |old(table)| ==>
                |table| == |old(table)| - 1
                && table == old(table)[..itemSelected.value] + old(table)[itemSelected.value + 1..]
      ensures !(itemSelected.Some? && 0 <= itemSelected.value < |old(table)|) ==> table == old(table)
    {
      if itemSelected.Some? {
        noSelection := false;
        var row := itemSelected.value;
        if 0 <= row < |table| {
          table := table[..row] + table[row + 1..];
        }
      } else {
        noSelection := true;
      }
    }

    /** The computation of `cut_videos`: one manifest row per table row, in
        table order, numbered from 1. A row whose init or stop field is empty
        makes `int()` raise, so the cut fails at the first such row. */
    method CutVideos() returns (r: Result<seq<ManifestRow>, nat>)
      requires fps > 0
      ensures r.Success? <==> forall k :: 0 <= k < |table| ==> Cuttable(table[k])
      ensures r.Failure? ==> r.error < |table| && !Cuttable(table[r.error])
                             && forall k :: 0 <= k < r.error ==> Cuttable(table[k])
      ensures r.Success? ==> |r.value| == |table|
                             && forall k :: 0 <= k < |table| ==> r.value[k] == ManifestRowFor(table[k], k + 1, fps)
    {
      var labelInfo: seq<ManifestRow> := [];
      var i := 1;
      var row := 0;
      while row < |table|
        invariant 0 <= row <= |table| && i == row + 1 && |labelInfo| == row
        invariant forall k :: 0 <= k < row ==> Cuttable(table[k]) && labelInfo[k] == ManifestRowFor(table[k], k + 1, fps)
      {
        if !Cuttable(table[row]) {
          return Failure(row);
        }
        labelInfo := labelInfo + [ManifestRowFor(table[row], i, fps)];
        i := i + 1;
        row := row + 1;
      }
      r := Success(labelInfo);
    }
  }
}
