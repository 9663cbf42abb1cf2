/** Trim-marker validation (src/app.py, `set_init_trim_value`,
    `set_stop_trim_value`, `set_event_value`, `set_celebration_value`).
    Each marker is the integer in a text field, `None` while the field is
    empty; a candidate frame is checked only against the markers that are set. */
module Trim {
  import opened Common

  /** The message of the error dialog a rejected candidate raises. */
  datatype TrimError =
    | InitNotBeforeEventAndStop  // both stop and event set
    | InitAfterStop
    | InitAfterEvent
    | StopNotAfterEventAndInit   // both init and event set
    | StopBeforeInit
    | StopBeforeEvent
    | MarkNotBetweenInitAndStop  // event or celebration, both bounds set
    | MarkAfterStop
    | MarkBeforeInit

  datatype Verdict = Accept | Reject(error: TrimError)

  /** The check of `set_init_trim_value`, branch by branch as written: with
      both stop and event set it accepts only `stop < f < event`. Each error
      dialog is raised only in the situation its message describes. */
  function CheckInit(f: int, stop: Option<int>, event: Option<int>): (v: Verdict)
    ensures v.Reject? ==> v.error in {InitNotBeforeEventAndStop, InitAfterStop, InitAfterEvent}
    ensures v == Reject(InitNotBeforeEventAndStop) ==> stop.Some? && event.Some?
    ensures v == Reject(InitAfterStop) ==> event.None? && stop.Some? && f > stop.value
    ensures v == Reject(InitAfterEvent) ==> stop.None? && event.Some? && f > event.value
  {
    if stop.Some? && event.Some? then
      if stop.value < f && event.value > f then Accept else Reject(InitNotBeforeEventAndStop)
    else if stop.Some? && stop.value < f then Reject(InitAfterStop)
    else if event.Some? && event.value < f then Reject(InitAfterEvent)
    else Accept
  }

  /** The check of `set_stop_trim_value`; each error dialog is raised only
      in the situation its message describes. */
  function CheckStop(f: int, init: Option<int>, event: Option<int>): (v: Verdict)
    ensures v.Reject? ==> v.error in {StopNotAfterEventAndInit, StopBeforeInit, StopBeforeEvent}
    ensures v == Reject(StopNotAfterEventAndInit) ==> init.Some? && event.Some?
    ensures v == Reject(StopBeforeInit) ==> event.None? && init.Some? && f < init.value
    ensures v == Reject(StopBeforeEvent) ==> init.None? && event.Some? && f < event.value
  {
    if init.Some? && event.Some? then
      if init.value < f && event.value < f then Accept else Reject(StopNotAfterEventAndInit)
    else if init.Some? && init.value > f then Reject(StopBeforeInit)
    else if event.Some? && event.value > f then Reject(StopBeforeEvent)
    else Accept
  }

  /** The check shared by `set_event_value` and `set_celebration_value`;
      neither looks at the other's marker. Each error dialog is raised only
      in the situation its message describes. */
  function CheckMark(f: int, init: Option<int>, stop: Option<int>): (v: Verdict)
    ensures v.Reject? ==> v.error in {MarkNotBetweenInitAndStop, MarkAfterStop, MarkBeforeInit}
    ensures v == Reject(MarkNotBetweenInitAndStop) ==> init.Some? && stop.Some? && (f < init.value || f > stop.value)
    ensures v == Reject(MarkAfterStop) ==> init.None? && stop.Some? && f > stop.value
    ensures v == Reject(MarkBeforeInit) ==> stop.None? && init.Some? && f < init.value
  {
    if stop.Some? && init.Some? then
      if f > stop.value || f < init.value then Reject(MarkNotBetweenInitAndStop) else Accept
    else if stop.Some? then
      if f > stop.value then Reject(MarkAfterStop) else Accept
    else if init.Some? then
      if f < init.value then Reject(MarkBeforeInit) else Accept
    else Accept
  }

  /** Init, as written: strictly between stop and event when both are set;
      at or before the one bound that is set; anything when neither is. */
  lemma InitRule(f: int, stop: Option<int>, event: Option<int>)
    ensures stop.Some? && event.Some? ==> (CheckInit(f, stop, event).Accept? <==> stop.value < f < event.value)
    ensures stop.Some? && event.None? ==> (CheckInit(f, stop, event).Accept? <==> f <= stop.value)
    ensures stop.None? && event.Some? ==> (CheckInit(f, stop, event).Accept? <==> f <= event.value)
    ensures stop.None? && event.None? ==> CheckInit(f, stop, event) == Accept
  {
  }

  /** Stop: strictly after both init and event when both are set; at or
      after the one that is set; anything when neither is. */
  lemma StopRule(f: int, init: Option<int>, event: Option<int>)
    ensures init.Some? && event.Some? ==> (CheckStop(f, init, event).Accept? <==> init.value < f && event.value < f)
    ensures init.Some? && event.None? ==> (CheckStop(f, init, event).Accept? <==> init.value <= f)
    ensures init.None? && event.Some? ==> (CheckStop(f, init, event).Accept? <==> event.value <= f)
    ensures init.None? && event.None? ==> CheckStop(f, init, event) == Accept
  {
  }

  /** Event and celebration: within the bounds that are set, inclusively. */
  lemma MarkRule(f: int, init: Option<int>, stop: Option<int>)
    ensures init.Some? && stop.Some? ==> (CheckMark(f, init, stop).Accept? <==> init.value <= f <= stop.value)
    ensures init.None? && stop.Some? ==> (CheckMark(f, init, stop).Accept? <==> f <= stop.value)
    ensures init.Some? && stop.None? ==> (CheckMark(f, init, stop).Accept? <==> init.value <= f)
    ensures init.None? && stop.None? ==> CheckMark(f, init, stop) == Accept
  {
  }

  /** The trim form: the four marker fields and the two OCR timestamp
      fields. A row of the trim table holds the same six values. */
  datatype TrimEntry = TrimEntry(init: Option<int>, stop: Option<int>, event: Option<int>,
                                 celebration: Option<int>, initTimestamp: string, stopTimestamp: string)

  const EmptyEntry := TrimEntry(None, None, None, None, "", "")

  /** The outcome of one setter on the form: the candidate is stored in its
      own field when accepted, and nothing is stored otherwise. */
  function ApplyInit(e: TrimEntry, f: int): TrimEntry
  {
    if CheckInit(f, e.stop, e.event).Accept? then e.(init := Some(f)) else e
  }

  function ApplyStop(e: TrimEntry, f: int): TrimEntry
  {
    if CheckStop(f, e.init, e.event).Accept? then e.(stop := Some(f)) else e
  }

  function ApplyEvent(e: TrimEntry, f: int): TrimEntry
  {
    if CheckMark(f, e.init, e.stop).Accept? then e.(event := Some(f)) else e
  }

  function ApplyCelebration(e: TrimEntry, f: int): TrimEntry
  {
    if CheckMark(f, e.init, e.stop).Accept? then e.(celebration := Some(f)) else e
  }

  /** Each setter changes at most its own marker, and a rejected candidate
      changes nothing. */
  lemma SettersTouchOnlyTheirMarker(e: TrimEntry, f: int)
    ensures ApplyInit(e, f) == e.(init := ApplyInit(e, f).init)
    ensures ApplyStop(e, f) == e.(stop := ApplyStop(e, f).stop)
    ensures ApplyEvent(e, f) == e.(event := ApplyEvent(e, f).event)
    ensures ApplyCelebration(e, f) == e.(celebration := ApplyCelebration(e, f).celebration)
    ensures !CheckInit(f, e.stop, e.event).Accept? ==> ApplyInit(e, f) == e
    ensures !CheckStop(f, e.init, e.event).Accept? ==> ApplyStop(e, f) == e
    ensures !CheckMark(f, e.init, e.stop).Accept? ==> ApplyEvent(e, f) == e && ApplyCelebration(e, f) == e
  {
  }

  /** The ordering the setters actually keep between init, event and stop:
      non-strict, and with no constraint on the celebration marker. */
  predicate WeaklyOrdered(e: TrimEntry)
  {
    && (e.init.Some? && e.event.Some? ==> e.init.value <= e.event.value)
    && (e.event.Some? && e.stop.Some? ==> e.event.value <= e.stop.value)
    && (e.init.Some? && e.stop.Some? ==> e.init.value <= e.stop.value)
  }

  /** Once stop and event are both set on a weakly ordered form, the
      written check of `set_init_trim_value` rejects every frame: it asks
      for `stop < f < event` while the form has `event <= stop`. */
  lemma InitLockedOnceStopAndEventSet(e: TrimEntry, f: int)
    requires WeaklyOrdered(e) && e.stop.Some? && e.event.Some?
    ensures CheckInit(f, e.stop, e.event) == Reject(InitNotBeforeEventAndStop)
  {
  }

  /** Every setter, applied to a weakly ordered form, gives a weakly ordered form. */
  lemma SettersPreserveOrder(e: TrimEntry, f: int)
    requires WeaklyOrdered(e)
    ensures WeaklyOrdered(ApplyInit(e, f))
    ensures WeaklyOrdered(ApplyStop(e, f))
    ensures WeaklyOrdered(ApplyEvent(e, f))
    ensures WeaklyOrdered(ApplyCelebration(e, f))
  {
    if e.stop.Some? && e.event.Some? {
      InitLockedOnceStopAndEventSet(e, f);
    }
  }

  /** The order kept is not strict: setting init, then stop, then event at
      the same frame is accepted each time. */
  lemma OrderNotStrict()
    ensures var e := ApplyEvent(ApplyStop(ApplyInit(EmptyEntry, 100), 100), 100);
      e.init == e.stop == e.event == Some(100)
  {
  }

  /** Nothing orders the celebration marker against the event marker, and
      a later init is not checked against the celebration marker. */
  lemma CelebrationUnordered()
    ensures var e := ApplyCelebration(ApplyEvent(EmptyEntry, 200), 100);
      e.event == Some(200) && e.celebration == Some(100)
    ensures var e := ApplyInit(ApplyCelebration(EmptyEntry, 50), 100);
      e.celebration == Some(50) && e.init == Some(100)
  {
  }
}
