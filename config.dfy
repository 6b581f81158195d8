/** Game constants (constants/config.ts) and the POI type vocabulary
    (types/index.ts). */
module Config {

  /** Seconds of entry mode before capture starts. */
  const EntryDurationSeconds: nat := 10
  /** Detection radius around a POI, in meters. Distance is not part of this
      model; the radius is kept for reference. */
  const ClaimRadiusMeters: nat := 50
  /** Declared per-session maximum; the capture hook does not read it and
      hard-codes its own 60-second ceiling instead. */
  const MaxCaptureSeconds: nat := 60
  /** Bonus seconds for completing a full minute. */
  const MinuteBonusSeconds: nat := 10

  /** An entry of POI_CATEGORIES. */
  datatype Category = Category(icon: string, color: string, labelText: string)

  /** The POI_CATEGORIES table: one entry per key. */
  function PoiCategories(): (t: map<string, Category>)
    ensures t.Keys == {"park", "museum", "historic", "church", "monument", "other"}
  {
    map[
      "park" := Category("\U{1F333}", "#4CAF50", "Park"),
      "museum" := Category("\U{1F3A8}", "#9C27B0", "Museum"),
      "historic" := Category("\U{1F3DB}\U{FE0F}", "#795548", "Historisch"),
      "church" := Category("\U{26EA}", "#607D8B", "Kerk"),
      "monument" := Category("\U{1F5FF}", "#9E9E9E", "Monument"),
      "other" := Category("\U{1F4CD}", "#757575", "Overig")
    ]
  }

  /** The POIType union of types/index.ts. */
  datatype POIType = Park | Museum | Historic | Church | Monument | Other {
    /** The string tag the type is stored and dispatched under. */
    function Name(): (s: string)
      ensures s in PoiCategories()
    {
      match this
      case Park => "park"
      case Museum => "museum"
      case Historic => "historic"
      case Church => "church"
      case Monument => "monument"
      case Other => "other"
    }
  }

  /** Every POI type has its own tag. */
  lemma NameInjective(a: POIType, b: POIType)
    requires a.Name() == b.Name()
    ensures a == b
  {
  }
}
