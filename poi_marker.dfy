/** components/map/POIMarker.tsx: which icon shape a POI is drawn with and
    which category entry colours it. The shapes themselves are not
    modelled. */
module PoiMarker {
  import Config

  /** The generators of utils/mapIcons.ts. */
  datatype IconGenerator = CastleIcon | WindmillIcon | MuseumIcon | ParkIcon | ChurchIcon | MonumentIcon

  /** getIconGenerator. */
  function GetIconGenerator(poiType: string): IconGenerator {
    if poiType == "castle" then CastleIcon
    else if poiType == "windmill" then WindmillIcon
    else if poiType == "museum" then MuseumIcon
    else if poiType == "park" then ParkIcon
    else if poiType == "church" then ChurchIcon
    else if poiType == "monument" || poiType == "historic" then MonumentIcon
    else if poiType == "attraction" then CastleIcon
    else CastleIcon
  }

  /** `POI_CATEGORIES[poi.type] || POI_CATEGORIES.other`. */
  function CategoryFor(poiType: string): Config.Category {
    var table := Config.PoiCategories();
    if poiType in table then table[poiType] else table["other"]
  }

  /** Each named shape has its own generator, monuments and historic sites
      share one, and "attraction" and every other string get the castle. */
  lemma IconDispatch(poiType: string)
    ensures GetIconGenerator("castle") == CastleIcon && GetIconGenerator("windmill") == WindmillIcon
    ensures GetIconGenerator("museum") == MuseumIcon && GetIconGenerator("park") == ParkIcon
    ensures GetIconGenerator("church") == ChurchIcon
    ensures GetIconGenerator("monument") == MonumentIcon && GetIconGenerator("historic") == MonumentIcon
    ensures GetIconGenerator(poiType) == CastleIcon <==>
      poiType !in {"windmill", "museum", "park", "church", "monument", "historic"}
  {
  }

  /** The icon and category of each POI type; "castle" and "windmill" have
      an icon of their own but fall back to the "other" category. */
  lemma MarkerForType(t: Config.POIType)
    ensures CategoryFor(t.Name()) == Config.PoiCategories()[t.Name()]
    ensures GetIconGenerator(t.Name()) == match t
      case Park => ParkIcon
      case Museum => MuseumIcon
      case Historic => MonumentIcon
      case Church => ChurchIcon
      case Monument => MonumentIcon
      case Other => CastleIcon
    ensures CategoryFor("castle") == CategoryFor("windmill") == Config.PoiCategories()["other"]
  {
  }
}
