/** utils/formatTime.ts: seconds as "45s", "2m", "1h 1m", and the detailed
    variant that keeps every component. */
module FormatTime {
  import opened Wrappers
  import opened Text
  import opened DurationText

  /** JavaScript `a % b` for a positive divisor: the result takes the sign
      of the dividend. (`Math.floor(a / b)` is Dafny's `a / b` when `b > 0`.) */
  function JsRem(a: int, b: int): (r: int)
    requires b > 0
    ensures a >= 0 ==> r == a % b
    ensures a >= 0 ==> 0 <= r < b
    ensures a < 0 ==> -b < r <= 0
  {
    if a >= 0 then a % b else -((-a) % b)
  }

  /** The component `${v}` + unit when `v > 0`, nothing otherwise. */
  function Part(v: int, u: Unit): (cs: seq<Component>)
    ensures v > 0 ==> cs == [Component(v, u)]
    ensures v <= 0 ==> cs == []
  {
    if v > 0 then [Component(v, u)] else []
  }

  function Hours(seconds: int): int { seconds / 3600 }
  function Minutes(seconds: int): int { JsRem(seconds, 3600) / 60 }
  function RemainingSeconds(seconds: int): int { JsRem(seconds, 60) }

  /** The `parts` list of formatTime for an input of at least a minute: the
      seconds component only when there are no hours. */
  function TimeParts(seconds: int): seq<Component> {
    Part(Hours(seconds), DurationText.Hours)
      + Part(Minutes(seconds), DurationText.Minutes)
      + (if Hours(seconds) == 0 then Part(RemainingSeconds(seconds), DurationText.Seconds) else [])
  }

  /** The `parts` list of formatTimeDetailed: every positive component. */
  function DetailedParts(seconds: int): seq<Component> {
    Part(Hours(seconds), DurationText.Hours)
      + Part(Minutes(seconds), DurationText.Minutes)
      + Part(RemainingSeconds(seconds), DurationText.Seconds)
  }

  /** `parts.join(' ') || '0s'`. */
  function JoinOrZero(cs: seq<Component>): string {
    var joined := Render(cs);
    if joined == "" then "0s" else joined
  }

  /** formatTime. */
  function FormatTime(seconds: int): string {
    if seconds < 60 then IntToString(seconds) + "s" else JoinOrZero(TimeParts(seconds))
  }

  /** formatTimeDetailed. */
  function FormatTimeDetailed(seconds: int): string {
    JoinOrZero(DetailedParts(seconds))
  }

  // ---------------------------------------------------------------------------
  // Arithmetic of the split
  // ---------------------------------------------------------------------------

  /** For a non-negative input the three fields are hours, minutes below 60
      and seconds below 60, and they add back up to the input. */
  lemma Split(n: int)
    requires n >= 0
    ensures 0 <= Minutes(n) < 60 && 0 <= RemainingSeconds(n) < 60 && Hours(n) >= 0
    ensures Hours(n) * 3600 + Minutes(n) * 60 + RemainingSeconds(n) == n
  {
    var h, q := n / 3600, n % 3600;
    var m, r := q / 60, q % 60;
    assert q == 60 * m + r;
    assert n == 60 * (60 * h + m) + r;
    assert n % 60 == r;
  }

  /** The parts are canonical: positive values in h, m, s order. */
  lemma PartsCanonical(a: int, b: int, c: int)
    ensures Canonical(Part(a, DurationText.Hours) + Part(b, DurationText.Minutes) + Part(c, DurationText.Seconds))
  {
  }

  lemma PartsTotal(a: int, b: int, c: int)
    requires a >= 0 && b >= 0 && c >= 0
    ensures Total(Part(a, DurationText.Hours) + Part(b, DurationText.Minutes) + Part(c, DurationText.Seconds), SecondsPer)
            == a * 3600 + b * 60 + c
  {
    var ph, pm, ps := Part(a, DurationText.Hours), Part(b, DurationText.Minutes), Part(c, DurationText.Seconds);
    TotalAppend(ph + pm, ps, SecondsPer);
    TotalAppend(ph, pm, SecondsPer);
  }

  // ---------------------------------------------------------------------------
  // Properties of formatTime
  // ---------------------------------------------------------------------------

  /** A canonical rendering is never the "0s" fallback text. */
  lemma RenderNotZero(cs: seq<Component>)
    requires cs != [] && Canonical(cs)
    ensures Render(cs) != "0s"
  {
    ParseRender(cs);
    assert Parse("0s") == Some([Component(0, DurationText.Seconds)]) by {
      assert Piece(Component(0, DurationText.Seconds)) == "0s";
      ParseLast(Component(0, DurationText.Seconds));
    }
  }

  /** From one minute up the parts list is non-empty, canonical, and reads
      back as the input with the seconds dropped once there are hours. */
  lemma FormatTimeAboveMinute(n: int)
    requires n >= 60
    ensures TimeParts(n) != [] && Canonical(TimeParts(n))
    ensures FormatTime(n) == Render(TimeParts(n))
    ensures FormatTime(n) != "0s"
    ensures SecondsValue(FormatTime(n)) == Some(if n >= 3600 then n - n % 60 else n)
  {
    Split(n);
    var h, m, r := Hours(n), Minutes(n), RemainingSeconds(n);
    var c := if h == 0 then r else 0;
    assert TimeParts(n) == Part(h, DurationText.Hours) + Part(m, DurationText.Minutes) + Part(c, DurationText.Seconds);
    PartsCanonical(h, m, c);
    PartsTotal(h, m, c);
    assert TimeParts(n) != [] by {
      if h == 0 {
        assert m > 0;
      }
    }
    RenderNonEmpty(TimeParts(n));
    RenderNotZero(TimeParts(n));
    RenderedValue(TimeParts(n));
  }

  /** Below a minute the input is written as is, followed by "s": for a
      non-negative input it reads back as the input. */
  lemma FormatTimeBelowMinute(n: nat)
    requires n < 60
    ensures SecondsValue(FormatTime(n)) == Some(n)
  {
    assert FormatTime(n) == Piece(Component(n, DurationText.Seconds));
    ParseLast(Component(n, DurationText.Seconds));
    assert Total([Component(n, DurationText.Seconds)], SecondsPer) == n;
  }

  /** The documented examples, with 7325 rendered as the code does. */
  lemma FormatTimeExamples()
    ensures FormatTime(45) == "45s"
    ensures FormatTime(120) == "2m"
    ensures FormatTime(3665) == "1h 1m"
    ensures FormatTime(7325) == "2h 2m"
  {
    assert NatToString(45) == "45";
    assert NatToString(2) == "2";
    assert NatToString(1) == "1";
    assert TimeParts(120) == [Component(2, DurationText.Minutes)];
    assert TimeParts(3665) == [Component(1, DurationText.Hours), Component(1, DurationText.Minutes)];
    assert TimeParts(7325) == [Component(2, DurationText.Hours), Component(2, DurationText.Minutes)];
  }

  // ---------------------------------------------------------------------------
  // Properties of formatTimeDetailed
  // ---------------------------------------------------------------------------

  /** For a positive input every component appears and the text reads back
      as exactly the input. */
  lemma DetailedRoundTrip(n: int)
    requires n > 0
    ensures Canonical(DetailedParts(n))
    ensures FormatTimeDetailed(n) == Render(DetailedParts(n))
    ensures SecondsValue(FormatTimeDetailed(n)) == Some(n)
  {
    Split(n);
    var h, m, r := Hours(n), Minutes(n), RemainingSeconds(n);
    PartsCanonical(h, m, r);
    PartsTotal(h, m, r);
    assert DetailedParts(n) != [];
    RenderNonEmpty(DetailedParts(n));
    RenderedValue(DetailedParts(n));
  }

  /** Zero and negative inputs have no positive component and give "0s". */
  lemma DetailedNonPositive(n: int)
    requires n <= 0
    ensures FormatTimeDetailed(n) == "0s"
  {
    assert Hours(n) <= 0;
    assert Minutes(n) <= 0;
    assert DetailedParts(n) == [];
  }

  lemma FormatTimeDetailedExamples()
    ensures FormatTimeDetailed(7325) == "2h 2m 5s"
    ensures FormatTimeDetailed(3665) == "1h 1m 5s"
    ensures FormatTimeDetailed(0) == "0s"
  {
    assert NatToString(2) == "2";
    assert NatToString(1) == "1";
    assert NatToString(5) == "5";
    assert DetailedParts(7325) == [Component(2, DurationText.Hours), Component(2, DurationText.Minutes), Component(5, DurationText.Seconds)];
    assert DetailedParts(3665) == [Component(1, DurationText.Hours), Component(1, DurationText.Minutes), Component(5, DurationText.Seconds)];
    DetailedNonPositive(0);
  }
}
