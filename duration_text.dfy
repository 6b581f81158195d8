/** The "1h 2m 5s" notation the time formatters produce: a list of
    components, each a number followed by a unit letter, joined by single
    spaces. The parser reads such a string back; the formatters' round-trip
    properties are stated through it. */
module DurationText {
  import opened Wrappers
  import opened Text

  datatype Unit = Hours | Minutes | Seconds {
    function Symbol(): char {
      match this
      case Hours => 'h'
      case Minutes => 'm'
      case Seconds => 's'
    }

    /** Position in the h, m, s order. */
    function Rank(): nat {
      match this
      case Hours => 0
      case Minutes => 1
      case Seconds => 2
    }
  }

  datatype Component = Component(value: nat, unit: Unit)

  /** `${value}h`, `${value}m` or `${value}s`. */
  function Piece(c: Component): string {
    NatToString(c.value) + [c.unit.Symbol()]
  }

  function Pieces(cs: seq<Component>): (ps: seq<string>)
    ensures |ps| == |cs|
  {
    if cs == [] then [] else [Piece(cs[0])] + Pieces(cs[1..])
  }

  /** `parts.join(' ')`. */
  function Render(cs: seq<Component>): string {
    Join(Pieces(cs), " ")
  }

  /** Components with positive values in strict h, m, s order: the shape
      every formatter builds. */
  ghost predicate Canonical(cs: seq<Component>) {
    && (forall i :: 0 <= i < |cs| ==> cs[i].value > 0)
    && (forall i, j :: 0 <= i < j < |cs| ==> cs[i].unit.Rank() < cs[j].unit.Rank())
  }

  /** The weighted sum of the components, `perUnit` giving each unit's weight. */
  function Total(cs: seq<Component>, perUnit: Unit -> nat): nat {
    if cs == [] then 0 else cs[0].value * perUnit(cs[0].unit) + Total(cs[1..], perUnit)
  }

  function SecondsPer(u: Unit): nat {
    match u
    case Hours => 3600
    case Minutes => 60
    case Seconds => 1
  }

  function MinutesPer(u: Unit): nat {
    match u
    case Hours => 60
    case Minutes => 1
    case Seconds => 0
  }

  // ---------------------------------------------------------------------------
  // Reading the notation back
  // ---------------------------------------------------------------------------

  /** The longest prefix of decimal digits. */
  function LeadingDigits(s: string): (d: string)
    ensures AllDigits(d) && StartsWith(s, d)
    ensures d == s || !IsDigit(s[|d|])
  {
    if s == [] || !IsDigit(s[0]) then [] else [s[0]] + LeadingDigits(s[1..])
  }

  function UnitOf(c: char): Option<Unit> {
    if c == 'h' then Some(Hours)
    else if c == 'm' then Some(Minutes)
    else if c == 's' then Some(Seconds)
    else None
  }

  /** Parses "12h 3m 4s"-style text; `None` for anything else. */
  function Parse(s: string): Option<seq<Component>>
    decreases |s|
  {
    var d := LeadingDigits(s);
    if d == [] || |d| == |s| then None
    else
      match UnitOf(s[|d|])
      case None => None
      case Some(u) =>
        var c := Component(DigitsValue(d), u);
        var rest := s[|d| + 1..];
        if rest == [] then Some([c])
        else if rest[0] != ' ' then None
        else Prepend(c, Parse(rest[1..]))
  }

  function Prepend(c: Component, r: Option<seq<Component>>): Option<seq<Component>> {
    match r
    case None => None
    case Some(cs) => Some([c] + cs)
  }

  /** The value in seconds of "…h …m …s" text. */
  function SecondsValue(s: string): Option<nat> {
    match Parse(s)
    case None => None
    case Some(cs) => Some(Total(cs, SecondsPer))
  }

  /** The value in minutes of "…h …m" text. */
  function MinutesValue(s: string): Option<nat> {
    match Parse(s)
    case None => None
    case Some(cs) => Some(Total(cs, MinutesPer))
  }

  lemma {:induction false} LeadingDigitsOf(d: string, rest: string)
    requires AllDigits(d)
    requires rest == [] || !IsDigit(rest[0])
    ensures LeadingDigits(d + rest) == d
    decreases |d|
  {
    if d != [] {
      assert (d + rest)[1..] == d[1..] + rest;
      LeadingDigitsOf(d[1..], rest);
    } else {
      assert d + rest == rest;
    }
  }

  /** Rendering peels off the first component. */
  lemma RenderCons(cs: seq<Component>)
    requires cs != []
    ensures |cs| == 1 ==> Render(cs) == Piece(cs[0])
    ensures |cs| > 1 ==> Render(cs) == Piece(cs[0]) + " " + Render(cs[1..])
  {
    assert Pieces(cs)[0] == Piece(cs[0]);
    if |cs| > 1 {
      assert Pieces(cs)[1..] == Pieces(cs[1..]);
    }
  }

  /** Parsing reads one component and then stops at the end of the text. */
  lemma ParseLast(c: Component)
    ensures Parse(Piece(c)) == Some([c])
  {
    ParseHead(c, "");
    assert Piece(c) + "" == Piece(c);
  }

  /** Parsing reads one component and then the rest after a space. */
  lemma ParseStep(c: Component, rest: string)
    ensures Parse(Piece(c) + " " + rest) == Prepend(c, Parse(rest))
  {
    var tail := " " + rest;
    ParseHead(c, tail);
    assert Piece(c) + " " + rest == Piece(c) + tail;
    assert tail[1..] == rest;
  }

  lemma ParseHead(c: Component, tail: string)
    requires tail == [] || tail[0] == ' '
    ensures var s := Piece(c) + tail;
      var d := LeadingDigits(s);
      d == NatToString(c.value) && d != [] && |d| < |s| && UnitOf(s[|d|]) == Some(c.unit)
      && DigitsValue(d) == c.value && s[|d| + 1..] == tail
  {
    var digits := NatToString(c.value);
    var s := Piece(c) + tail;
    assert s == digits + ([c.unit.Symbol()] + tail);
    LeadingDigitsOf(digits, [c.unit.Symbol()] + tail);
    NatToStringRoundTrip(c.value);
    assert s[|digits|] == c.unit.Symbol();
    assert UnitOf(c.unit.Symbol()) == Some(c.unit);
    assert s[|digits| + 1..] == tail;
  }

  /** Parsing a rendered list of components gives the list back. */
  lemma {:induction false} ParseRender(cs: seq<Component>)
    requires cs != []
    ensures Parse(Render(cs)) == Some(cs)
    decreases |cs|
  {
    RenderCons(cs);
    if |cs| == 1 {
      ParseLast(cs[0]);
      assert [cs[0]] == cs;
    } else {
      ParseStep(cs[0], Render(cs[1..]));
      ParseRender(cs[1..]);
      assert [cs[0]] + cs[1..] == cs;
    }
  }

  /** Every rendered piece is non-empty, so a non-empty list renders to a
      non-empty string. */
  lemma RenderNonEmpty(cs: seq<Component>)
    requires cs != []
    ensures Render(cs) != ""
  {
    RenderCons(cs);
  }
  /** The weighted sum distributes over concatenation. */
  lemma {:induction false} TotalAppend(a: seq<Component>, b: seq<Component>, perUnit: Unit -> nat)
    ensures Total(a + b, perUnit) == Total(a, perUnit) + Total(b, perUnit)
    decreases |a|
  {
    if a != [] {
      assert (a + b)[1..] == a[1..] + b;
      TotalAppend(a[1..], b, perUnit);
    } else {
      assert a + b == b;
    }
  }

  /** The value of rendered text is the weighted sum of what was rendered. */
  lemma RenderedValue(cs: seq<Component>)
    requires cs != []
    ensures SecondsValue(Render(cs)) == Some(Total(cs, SecondsPer))
    ensures MinutesValue(Render(cs)) == Some(Total(cs, MinutesPer))
  {
    ParseRender(cs);
  }
}
