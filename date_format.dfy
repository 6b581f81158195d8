/** formatDuration of utils/date.ts: minutes as "45m" or "2h 0m". */
module DateFormat {
  import opened Wrappers
  import opened Text
  import opened DurationText

  /** formatDuration. */
  function FormatDuration(minutes: int): string {
    if minutes < 60 then IntToString(minutes) + "m"
    else
      var hours := minutes / 60;
      var mins := minutes % 60;
      IntToString(hours) + "h " + IntToString(mins) + "m"
  }

  /** From an hour up the text is always an hours and a minutes component,
      the minutes below 60 (present even when 0), and it reads back as the
      input. */
  lemma FormatDurationAboveHour(n: int)
    requires n >= 60
    ensures Parse(FormatDuration(n)) ==
              Some([Component(n / 60, DurationText.Hours), Component(n % 60, DurationText.Minutes)])
    ensures n % 60 < 60
    ensures MinutesValue(FormatDuration(n)) == Some(n)
  {
    var cs := [Component(n / 60, DurationText.Hours), Component(n % 60, DurationText.Minutes)];
    HoursAndMinutes(n);
    ParseRender(cs);
    TwoComponentMinutes(n / 60, n % 60);
  }

  lemma TwoComponentMinutes(h: nat, m: nat)
    ensures Total([Component(h, DurationText.Hours), Component(m, DurationText.Minutes)], MinutesPer) == h * 60 + m
  {
    var cs := [Component(h, DurationText.Hours), Component(m, DurationText.Minutes)];
    assert cs[1..][1..] == [];
    assert Total(cs[1..], MinutesPer) == m;
  }

  /** From an hour up the text is the rendering of two components. */
  lemma HoursAndMinutes(n: int)
    requires n >= 60
    ensures FormatDuration(n) == Render([Component(n / 60, DurationText.Hours), Component(n % 60, DurationText.Minutes)])
  {
    var cs := [Component(n / 60, DurationText.Hours), Component(n % 60, DurationText.Minutes)];
    RenderCons(cs);
    RenderCons(cs[1..]);
    assert cs[1..] == [Component(n % 60, DurationText.Minutes)];
  }

  /** Below an hour a non-negative input is written in minutes and reads back
      as the input. */
  lemma FormatDurationBelowHour(n: nat)
    requires n < 60
    ensures Parse(FormatDuration(n)) == Some([Component(n, DurationText.Minutes)])
    ensures MinutesValue(FormatDuration(n)) == Some(n)
  {
    assert FormatDuration(n) == Piece(Component(n, DurationText.Minutes));
    ParseLast(Component(n, DurationText.Minutes));
    assert Total([Component(n, DurationText.Minutes)], MinutesPer) == n;
  }

  lemma FormatDurationExamples()
    ensures FormatDuration(45) == "45m"
    ensures FormatDuration(120) == "2h 0m"
    ensures FormatDuration(61) == "1h 1m"
  {
    assert NatToString(45) == "45";
    assert NatToString(2) == "2";
    assert NatToString(1) == "1";
    assert NatToString(0) == "0";
  }
}
