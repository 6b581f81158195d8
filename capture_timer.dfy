/** The "m:ss" overlay of components/map/CaptureTimer.tsx. */
module CaptureTimerView {
  import opened Wrappers
  import opened Text

  /** The overlay text, or `None` when the component renders nothing. */
  function TimerText(captureSeconds: nat, isCaptureActive: bool): Option<string> {
    if !isCaptureActive then None
    else Some(ClockText(captureSeconds / 60, captureSeconds % 60))
  }

  /** `${minutes}:${seconds.toString().padStart(2, '0')}`. */
  function ClockText(minutes: nat, seconds: nat): string {
    NatToString(minutes) + ":" + PadStart(NatToString(seconds), 2, '0')
  }

  /** Reads "m:ss" text back: a non-empty run of digits for the minutes, a
      colon, then exactly two digits for the seconds. */
  function ClockValue(t: string): Option<nat> {
    if |t| < 4 || t[|t| - 3] != ':' then None
    else
      var mm, ss := t[..|t| - 3], t[|t| - 2..];
      if !AllDigits(mm) || !AllDigits(ss) then None
      else Some(DigitsValue(mm) * 60 + DigitsValue(ss))
  }

  /** The seconds field `seconds.toString().padStart(2, '0')` for a value
      below 60: two digits whose value is the input. */
  lemma PaddedSeconds(v: nat)
    requires v < 60
    ensures var p := PadStart(NatToString(v), 2, '0');
      |p| == 2 && AllDigits(p) && DigitsValue(p) == v
  {
    var p := PadStart(NatToString(v), 2, '0');
    NatToStringRoundTrip(v);
    if v < 10 {
      assert p == ['0', DigitChar(v)];
      assert p[..1] == ['0'];
    } else {
      assert NatToString(v) == NatToString(v / 10) + [DigitChar(v % 10)];
      assert |NatToString(v)| == 2;
    }
  }

  /** "m:ss" is the minutes, then a colon, then the two seconds digits. */
  lemma ClockShape(mm: string, ss: string)
    requires mm != [] && |ss| == 2
    ensures var t := mm + ":" + ss;
      |t| >= 4 && t[|t| - 3] == ':' && t[..|t| - 3] == mm && t[|t| - 2..] == ss
  {
  }

  /** Reading "m:ss" built from digit strings gives minutes * 60 + seconds. */
  lemma ClockValueOf(mm: string, ss: string, t: string, q: nat, r: nat)
    requires mm != [] && AllDigits(mm) && DigitsValue(mm) == q
    requires |ss| == 2 && AllDigits(ss) && DigitsValue(ss) == r
    requires |t| >= 4 && t[|t| - 3] == ':' && t[..|t| - 3] == mm && t[|t| - 2..] == ss
    ensures ClockValue(t) == Some(q * 60 + r)
    ensures AllDigits(t[|t| - 2..]) && DigitsValue(t[|t| - 2..]) == r
  {
  }

  /** Minutes and seconds below 60 written as "m:ss" read back as
      minutes * 60 + seconds, the last two characters being the seconds. */
  lemma ClockRoundTrip(q: nat, r: nat)
    requires r < 60
    ensures var t := ClockText(q, r);
      && ClockValue(t) == Some(q * 60 + r)
      && |t| >= 4 && t[|t| - 3] == ':' && AllDigits(t[|t| - 2..]) && DigitsValue(t[|t| - 2..]) == r
  {
    var mm := NatToString(q);
    var ss := PadStart(NatToString(r), 2, '0');
    PaddedSeconds(r);
    NatToStringRoundTrip(q);
    ClockShape(mm, ss);
    ClockValueOf(mm, ss, mm + ":" + ss, q, r);
  }

  /** While capture is active the overlay shows the counter as minutes, a
      colon and two-digit seconds, the seconds being the counter modulo 60,
      and the text reads back as the counter. */
  lemma TimerRoundTrip(captureSeconds: nat)
    ensures TimerText(captureSeconds, true).Some?
    ensures ClockValue(TimerText(captureSeconds, true).value) == Some(captureSeconds)
    ensures var t := TimerText(captureSeconds, true).value;
      |t| >= 4 && t[|t| - 3] == ':' && AllDigits(t[|t| - 2..]) && DigitsValue(t[|t| - 2..]) == captureSeconds % 60
  {
    var q, r := captureSeconds / 60, captureSeconds % 60;
    assert q * 60 + r == captureSeconds;
    ClockRoundTrip(q, r);
  }

  /** Nothing is rendered while capture is inactive. */
  lemma InactiveRendersNothing(captureSeconds: nat)
    ensures TimerText(captureSeconds, false) == None
  {
  }

  lemma TimerExamples()
    ensures TimerText(5, true) == Some("0:05")
    ensures TimerText(60, true) == Some("1:00")
    ensures TimerText(75, true) == Some("1:15")
  {
    assert NatToString(0) == "0";
    assert NatToString(5) == "5";
    assert NatToString(1) == "1";
    assert NatToString(15) == "15";
    assert PadStart("5", 2, '0') == "05";
    assert PadStart("0", 2, '0') == "00";
    assert PadStart("15", 2, '0') == "15";
    assert NatToString(0) + ":" + "05" == "0:05";
    assert NatToString(1) + ":" + "00" == "1:00";
    assert NatToString(1) + ":" + "15" == "1:15";
  }
}
