/** `_frame_idx_to_hms` (src/app.py): a frame index as an `HH:MM:SS`
    time of day, whole seconds obtained by floor division by the fps.
    `ParseHms` reads such a string back and is the partner of the round trip. */
module Timecode {
  import opened Common

  const SecondsPerDay := 86400

  function DigitChar(d: int): (c: char)
    requires 0 <= d < 10
    ensures '0' <= c <= '9'
  {
    ('0' as int + d) as char
  }

  /** A two-digit, zero-padded field (`%H`, `%M`, `%S`). */
  function Pad2(n: int): (s: string)
    requires 0 <= n < 100
    ensures |s| == 2 && '0' <= s[0] <= '9' && '0' <= s[1] <= '9'
  {
    [DigitChar(n / 10), DigitChar(n % 10)]
  }

  /** `strftime('%H:%M:%S')` of the time of day `t` seconds after midnight. */
  function SecondsToHms(t: int): (s: string)
    requires 0 <= t < SecondsPerDay
    ensures |s| == 8 && s[2] == ':' && s[5] == ':'
  {
    Pad2(t / 3600) + ":" + Pad2(t % 3600 / 60) + ":" + Pad2(t % 60)
  }

  /** Adding `frame_idx // fps` seconds to a midnight base and printing the
      time of day: whole days are dropped, and a negative index wraps to the
      previous day as Python's floor division and date arithmetic do. */
  function FrameIdxToHms(frameIdx: int, fps: int): (s: string)
    requires fps > 0
    ensures |s| == 8 && s[2] == ':' && s[5] == ':'
  {
    SecondsToHms((frameIdx / fps) % SecondsPerDay)
  }

  function DigitValue(c: char): Option<int>
  {
    if '0' <= c <= '9' then Some(c as int - '0' as int) else None
  }

  function TwoDigits(a: char, b: char): Option<int>
  {
    match (DigitValue(a), DigitValue(b))
    case (Some(x), Some(y)) => Some(10 * x + y)
    case _ => None
  }

  /** Reads `HH:MM:SS` back to seconds after midnight; `None` for anything
      that is not a valid time of day in that layout. */
  function ParseHms(s: string): Option<int>
  {
    if |s| != 8 || s[2] != ':' || s[5] != ':' then None
    else match (TwoDigits(s[0], s[1]), TwoDigits(s[3], s[4]), TwoDigits(s[6], s[7]))
      case (Some(h), Some(m), Some(sec)) =>
        if h < 24 && m < 60 && sec < 60 then Some(3600 * h + 60 * m + sec) else None
      case _ => None
  }

  lemma Pad2RoundTrip(n: int)
    requires 0 <= n < 100
    ensures TwoDigits(Pad2(n)[0], Pad2(n)[1]) == Some(n)
  {
  }

  /** Hours, minutes and seconds of a time of day are in range and recombine to it. */
  lemma SplitTimeOfDay(t: int)
    requires 0 <= t < SecondsPerDay
    ensures 0 <= t / 3600 < 24 && 0 <= t % 3600 / 60 < 60 && 0 <= t % 60 < 60
    ensures 3600 * (t / 3600) + 60 * (t % 3600 / 60) + t % 60 == t
  {
    var r := t % 3600;
    assert t == 3600 * (t / 3600) + r;
    assert r == 60 * (r / 60) + r % 60;
    assert r % 60 == t % 60;
  }

  /** Reading back three padded fields in range gives their time of day. */
  lemma ParsePadded(h: int, m: int, sec: int)
    requires 0 <= h < 24 && 0 <= m < 60 && 0 <= sec < 60
    ensures ParseHms(Pad2(h) + ":" + Pad2(m) + ":" + Pad2(sec)) == Some(3600 * h + 60 * m + sec)
  {
    Pad2RoundTrip(h);
    Pad2RoundTrip(m);
    Pad2RoundTrip(sec);
    var s := Pad2(h) + ":" + Pad2(m) + ":" + Pad2(sec);
    assert s[0] == Pad2(h)[0] && s[1] == Pad2(h)[1];
    assert s[3] == Pad2(m)[0] && s[4] == Pad2(m)[1];
    assert s[6] == Pad2(sec)[0] && s[7] == Pad2(sec)[1];
  }

  /** Printing a time of day and reading it back gives it unchanged. */
  lemma {:induction false} SecondsToHmsRoundTrip(t: int)
    requires 0 <= t < SecondsPerDay
    ensures ParseHms(SecondsToHms(t)) == Some(t)
  {
    SplitTimeOfDay(t);
    ParsePadded(t / 3600, t % 3600 / 60, t % 60);
  }

  /** Reading back the printed timestamp gives the whole seconds of the
      frame, modulo one day. */
  lemma {:induction false} HmsRoundTrip(frameIdx: int, fps: int)
    requires fps > 0
    ensures ParseHms(FrameIdxToHms(frameIdx, fps)) == Some((frameIdx / fps) % SecondsPerDay)
  {
    SecondsToHmsRoundTrip((frameIdx / fps) % SecondsPerDay);
  }
}
