/** services/geocoding.service.ts: country names and codes, the transforms
    applied to Nominatim's search and reverse-geocoding answers, and the
    popular-cities ranking computed from POI rows. The HTTP requests and the
    database query are not modelled; `parseFloat` is a parameter. */
module Geocoding {
  import opened Wrappers
  import opened Text
  import Grouping
  import Sorting

  // ---------------------------------------------------------------------------
  // Countries
  // ---------------------------------------------------------------------------

  /** The `codes` table of getCountryCode. */
  const CountryCodes: map<string, string> := map[
    "Netherlands" := "nl", "Belgium" := "be", "Germany" := "de", "France" := "fr",
    "United Kingdom" := "gb", "Spain" := "es", "Italy" := "it", "Poland" := "pl",
    "Austria" := "at", "Denmark" := "dk", "Sweden" := "se", "Norway" := "no",
    "Finland" := "fi"
  ]

  /** getCountryCode: the table's code, or "" for any other name. */
  function GetCountryCode(country: string): string {
    if country in CountryCodes then CountryCodes[country] else ""
  }

  datatype Country = Country(code: string, name: string, flag: string)

  /** getPopularCountries. */
  function PopularCountries(): (cs: seq<Country>)
    ensures |cs| == 13
  {
    [
      Country("NL", "Netherlands", "\U{1F1F3}\U{1F1F1}"),
      Country("BE", "Belgium", "\U{1F1E7}\U{1F1EA}"),
      Country("DE", "Germany", "\U{1F1E9}\U{1F1EA}"),
      Country("FR", "France", "\U{1F1EB}\U{1F1F7}"),
      Country("GB", "United Kingdom", "\U{1F1EC}\U{1F1E7}"),
      Country("ES", "Spain", "\U{1F1EA}\U{1F1F8}"),
      Country("IT", "Italy", "\U{1F1EE}\U{1F1F9}"),
      Country("PL", "Poland", "\U{1F1F5}\U{1F1F1}"),
      Country("AT", "Austria", "\U{1F1E6}\U{1F1F9}"),
      Country("DK", "Denmark", "\U{1F1E9}\U{1F1F0}"),
      Country("SE", "Sweden", "\U{1F1F8}\U{1F1EA}"),
      Country("NO", "Norway", "\U{1F1F3}\U{1F1F4}"),
      Country("FI", "Finland", "\U{1F1EB}\U{1F1EE}")
    ]
  }

  /** The Unicode regional-indicator symbol for an ASCII capital. */
  function RegionalIndicator(c: char): char
    requires 'A' <= c <= 'Z'
  {
    (0x1F1E6 + (c as int - 'A' as int)) as char
  }

  /** The two-letter code of a country, written as a flag. */
  function FlagOf(code: string): string
    requires |code| == 2 && 'A' <= code[0] <= 'Z' && 'A' <= code[1] <= 'Z'
  {
    [RegionalIndicator(code[0]), RegionalIndicator(code[1])]
  }

  /** Every popular country's name maps to its code lower-cased. */
  lemma CodesAreLowerCased()
    ensures forall c :: c in PopularCountries() ==> GetCountryCode(c.name) == Lower(c.code)
  {
    var cs := PopularCountries();
    forall i | 0 <= i < |cs|
      ensures GetCountryCode(cs[i].name) == Lower(cs[i].code)
    {
      var c := cs[i];
      assert |c.code| == 2 && Lower(c.code) == [LowerChar(c.code[0]), LowerChar(c.code[1])];
    }
  }

  /** Each flag is the regional-indicator spelling of the country's code. */
  lemma FlagsSpellCodes()
    ensures forall c :: c in PopularCountries() ==>
              |c.code| == 2 && 'A' <= c.code[0] <= 'Z' && 'A' <= c.code[1] <= 'Z' && c.flag == FlagOf(c.code)
  {
    var cs := PopularCountries();
    forall i | 0 <= i < |cs|
      ensures |cs[i].code| == 2 && 'A' <= cs[i].code[0] <= 'Z' && 'A' <= cs[i].code[1] <= 'Z'
              && cs[i].flag == FlagOf(cs[i].code)
    {
    }
  }

  /** Every name of the code table is a popular country. */
  lemma CodeTableNamesArePopular()
    ensures forall n :: n in CountryCodes ==> exists c :: c in PopularCountries() && c.name == n
  {
    var cs := PopularCountries();
    var names := seq(|cs|, i requires 0 <= i < |cs| => cs[i].name);
    assert names == ["Netherlands", "Belgium", "Germany", "France", "United Kingdom", "Spain", "Italy",
                     "Poland", "Austria", "Denmark", "Sweden", "Norway", "Finland"];
    forall n | n in CountryCodes
      ensures exists c :: c in cs && c.name == n
    {
      assert n in names;
      var i :| 0 <= i < |names| && names[i] == n;
      assert cs[i] in cs;
    }
  }

  /** A name outside the popular list has no code. */
  lemma UnknownCountryHasNoCode(country: string)
    requires forall c :: c in PopularCountries() ==> c.name != country
    ensures GetCountryCode(country) == ""
  {
    CodeTableNamesArePopular();
  }

  // ---------------------------------------------------------------------------
  // The flag literals as written
  // ---------------------------------------------------------------------------

  /** getPopularCountries as the source file spells it: each flag literal
      holds the UTF-8 bytes of a flag read back as Windows-1252 text, so the
      list shows "\U{F0}\U{178}\U{2021}\U{B3}\U{F0}\U{178}\U{2021}\U{B1}" for the Netherlands. */
  function PopularCountriesAsWritten(): (cs: seq<Country>)
    ensures |cs| == 13
  {
    [
      Country("NL", "Netherlands", "\U{F0}\U{178}\U{2021}\U{B3}\U{F0}\U{178}\U{2021}\U{B1}"),
      Country("BE", "Belgium", "\U{F0}\U{178}\U{2021}\U{A7}\U{F0}\U{178}\U{2021}\U{AA}"),
      Country("DE", "Germany", "\U{F0}\U{178}\U{2021}\U{A9}\U{F0}\U{178}\U{2021}\U{AA}"),
      Country("FR", "France", "\U{F0}\U{178}\U{2021}\U{AB}\U{F0}\U{178}\U{2021}\U{B7}"),
      Country("GB", "United Kingdom", "\U{F0}\U{178}\U{2021}\U{AC}\U{F0}\U{178}\U{2021}\U{A7}"),
      Country("ES", "Spain", "\U{F0}\U{178}\U{2021}\U{AA}\U{F0}\U{178}\U{2021}\U{B8}"),
      Country("IT", "Italy", "\U{F0}\U{178}\U{2021}\U{AE}\U{F0}\U{178}\U{2021}\U{B9}"),
      Country("PL", "Poland", "\U{F0}\U{178}\U{2021}\U{B5}\U{F0}\U{178}\U{2021}\U{B1}"),
      Country("AT", "Austria", "\U{F0}\U{178}\U{2021}\U{A6}\U{F0}\U{178}\U{2021}\U{B9}"),
      Country("DK", "Denmark", "\U{F0}\U{178}\U{2021}\U{A9}\U{F0}\U{178}\U{2021}\U{B0}"),
      Country("SE", "Sweden", "\U{F0}\U{178}\U{2021}\U{B8}\U{F0}\U{178}\U{2021}\U{AA}"),
      Country("NO", "Norway", "\U{F0}\U{178}\U{2021}\U{B3}\U{F0}\U{178}\U{2021}\U{B4}"),
      Country("FI", "Finland", "\U{F0}\U{178}\U{2021}\U{AB}\U{F0}\U{178}\U{2021}\U{AE}")
    ]
  }

  /** The bytes UTF-8 writes for one character. */
  function Utf8(c: char): (bs: seq<nat>)
    ensures forall i :: 0 <= i < |bs| ==> bs[i] < 256
  {
    var cp := c as int;
    if cp < 0x80 then [cp]
    else if cp < 0x800 then [0xC0 + cp / 0x40, 0x80 + cp % 0x40]
    else if cp < 0x10000 then [0xE0 + cp / 0x1000, 0x80 + (cp / 0x40) % 0x40, 0x80 + cp % 0x40]
    else [0xF0 + cp / 0x40000, 0x80 + (cp / 0x1000) % 0x40, 0x80 + (cp / 0x40) % 0x40, 0x80 + cp % 0x40]
  }

  function EncodeUtf8(s: string): (bs: seq<nat>)
    ensures forall i :: 0 <= i < |bs| ==> bs[i] < 256
  {
    if s == [] then [] else Utf8(s[0]) + EncodeUtf8(s[1..])
  }

  /** The characters Windows-1252 assigns to the bytes 0x80 to 0x9F, in
      byte order; the five bytes with none hold `None`. */
  const Windows1252High: seq<Option<char>> := [
      Some('\U{20AC}'), None, Some('\U{201A}'), Some('\U{192}'),
      Some('\U{201E}'), Some('\U{2026}'), Some('\U{2020}'), Some('\U{2021}'),
      Some('\U{2C6}'), Some('\U{2030}'), Some('\U{160}'), Some('\U{2039}'),
      Some('\U{152}'), None, Some('\U{17D}'), None,
      None, Some('\U{2018}'), Some('\U{2019}'), Some('\U{201C}'),
      Some('\U{201D}'), Some('\U{2022}'), Some('\U{2013}'), Some('\U{2014}'),
      Some('\U{2DC}'), Some('\U{2122}'), Some('\U{161}'), Some('\U{203A}'),
      Some('\U{153}'), None, Some('\U{17E}'), Some('\U{178}')
    ]

  /** One byte read as Windows-1252 text. */
  function Windows1252(b: nat): Option<char>
    requires b < 256
  {
    if 0x80 <= b < 0xA0 then Windows1252High[b - 0x80] else Some(b as char)
  }

  /** Bytes read as Windows-1252 text; `None` if one has no character. */
  function DecodeWindows1252(bs: seq<nat>): Option<string>
    requires forall i :: 0 <= i < |bs| ==> bs[i] < 256
  {
    if bs == [] then Some([])
    else
      var c := Windows1252(bs[0]);
      var rest := DecodeWindows1252(bs[1..]);
      if c.Some? && rest.Some? then Some([c.value] + rest.value) else None
  }

  /** Text saved as UTF-8 and opened as Windows-1252. */
  function Misread(s: string): Option<string> {
    DecodeWindows1252(EncodeUtf8(s))
  }

  /** The four characters a misread regional indicator turns into. */
  function MisreadIndicator(c: char): string
    requires 'A' <= c <= 'Z'
  {
    ['\U{F0}', '\U{178}', '\U{2021}', (0xA6 + (c as int - 'A' as int)) as char]
  }

  /** A regional indicator is four UTF-8 bytes, F0 9F 87 and one of A6 to BF. */
  lemma IndicatorBytes(c: char)
    requires 'A' <= c <= 'Z'
    ensures Utf8(RegionalIndicator(c)) == [0xF0, 0x9F, 0x87, 0xA6 + (c as int - 'A' as int)]
  {
    var k := c as int - 'A' as int;
    IndicatorFields(0x1F1E6 + k, k);
  }

  /** The UTF-8 fields of the code point 0x1F1E6 + k, for k below 26. */
  lemma IndicatorFields(cp: int, k: int)
    requires 0 <= k < 26 && cp == 0x1F1E6 + k
    ensures 0x10000 <= cp && cp / 0x40000 == 0
    ensures (cp / 0x1000) % 0x40 == 0x1F && (cp / 0x40) % 0x40 == 0x07 && cp % 0x40 == 0x26 + k
  {
    assert cp == 0x40 * 0x7C7 + (0x26 + k);
    assert cp / 0x40 == 0x7C7 && cp % 0x40 == 0x26 + k;
    assert cp == 0x1000 * 0x1F + (0x1E6 + k);
    assert cp / 0x1000 == 0x1F;
  }

  function Concat(a: Option<string>, b: Option<string>): Option<string> {
    if a.Some? && b.Some? then Some(a.value + b.value) else None
  }

  /** Decoding works byte by byte, so it distributes over concatenation. */
  lemma {:induction false} DecodeAppend(a: seq<nat>, b: seq<nat>)
    requires forall i :: 0 <= i < |a| ==> a[i] < 256
    requires forall i :: 0 <= i < |b| ==> b[i] < 256
    ensures DecodeWindows1252(a + b) == Concat(DecodeWindows1252(a), DecodeWindows1252(b))
    decreases |a|
  {
    if a == [] {
      assert a + b == b;
      var e := DecodeWindows1252(b);
      if e.Some? {
        assert [] + e.value == e.value;
      }
    } else {
      var ab := a + b;
      assert ab[0] == a[0] && ab[1..] == a[1..] + b;
      DecodeAppend(a[1..], b);
      var h := Windows1252(a[0]);
      var d := DecodeWindows1252(a[1..]);
      var e := DecodeWindows1252(b);
      if h.Some? && d.Some? && e.Some? {
        assert [h.value] + (d.value + e.value) == ([h.value] + d.value) + e.value;
      }
    }
  }

  /** Decoding reads one byte and then the rest. */
  lemma DecodeCons(b: nat, rest: seq<nat>, c: char, t: string)
    requires b < 256 && forall i :: 0 <= i < |rest| ==> rest[i] < 256
    requires Windows1252(b) == Some(c) && DecodeWindows1252(rest) == Some(t)
    ensures DecodeWindows1252([b] + rest) == Some([c] + t)
  {
    assert ([b] + rest)[1..] == rest;
  }

  /** The four bytes of a regional indicator read as four characters. */
  lemma DecodeIndicatorBytes(b3: nat)
    requires 0xA6 <= b3 <= 0xBF
    ensures DecodeWindows1252([0xF0, 0x9F, 0x87, b3]) == Some(['\U{F0}', '\U{178}', '\U{2021}', b3 as char])
  {
    var c3 := b3 as char;
    DecodeCons(b3, [], c3, []);
    assert [b3] + [] == [b3] && [c3] + [] == [c3];
    DecodeCons(0x87, [b3], '\U{2021}', [c3]);
    assert [0x87] + [b3] == [0x87, b3] && ['\U{2021}'] + [c3] == ['\U{2021}', c3];
    DecodeCons(0x9F, [0x87, b3], '\U{178}', ['\U{2021}', c3]);
    assert [0x9F] + [0x87, b3] == [0x9F, 0x87, b3] && ['\U{178}'] + ['\U{2021}', c3] == ['\U{178}', '\U{2021}', c3];
    DecodeCons(0xF0, [0x9F, 0x87, b3], '\U{F0}', ['\U{178}', '\U{2021}', c3]);
    assert [0xF0] + [0x9F, 0x87, b3] == [0xF0, 0x9F, 0x87, b3];
    assert ['\U{F0}'] + ['\U{178}', '\U{2021}', c3] == ['\U{F0}', '\U{178}', '\U{2021}', c3];
  }

  /** Text decoded from two byte strings is the two texts one after the other. */
  lemma DecodeConcat(a: seq<nat>, b: seq<nat>, u: string, t: string)
    requires forall i :: 0 <= i < |a| ==> a[i] < 256
    requires forall i :: 0 <= i < |b| ==> b[i] < 256
    requires DecodeWindows1252(a) == Some(u) && DecodeWindows1252(b) == Some(t)
    ensures DecodeWindows1252(a + b) == Some(u + t)
  {
    DecodeAppend(a, b);
  }

  /** A misread flag is the two misread indicators. */
  lemma MisreadFlag(code: string)
    requires |code| == 2 && 'A' <= code[0] <= 'Z' && 'A' <= code[1] <= 'Z'
    ensures Misread(FlagOf(code)) == Some(MisreadIndicator(code[0]) + MisreadIndicator(code[1]))
  {
    var f := FlagOf(code);
    IndicatorBytes(code[0]);
    IndicatorBytes(code[1]);
    var b0 := 0xA6 + (code[0] as int - 'A' as int);
    var b1 := 0xA6 + (code[1] as int - 'A' as int);
    var e0: seq<nat> := [0xF0, 0x9F, 0x87, b0];
    var e1: seq<nat> := [0xF0, 0x9F, 0x87, b1];
    assert f[1..] == [f[1]] && f[1..][1..] == [];
    assert EncodeUtf8(f[1..]) == Utf8(f[1]) + EncodeUtf8([]);
    assert EncodeUtf8(f) == e0 + (e1 + []);
    assert e1 + [] == e1;
    DecodeIndicatorBytes(b0);
    DecodeIndicatorBytes(b1);
    DecodeConcat(e0, e1, MisreadIndicator(code[0]), MisreadIndicator(code[1]));
  }

  /** The as-written list has the intended codes and names, in order. */
  lemma AsWrittenCodesAndNames()
    ensures forall i :: 0 <= i < 13 ==>
      PopularCountriesAsWritten()[i].code == PopularCountries()[i].code
      && PopularCountriesAsWritten()[i].name == PopularCountries()[i].name
  {
  }

  /** Each as-written flag is eight characters: the two misread indicators
      of its code. */
  lemma AsWrittenFlagsSpelled()
    ensures forall i :: 0 <= i < 13 ==>
      var w := PopularCountriesAsWritten()[i];
      |w.code| == 2 && 'A' <= w.code[0] <= 'Z' && 'A' <= w.code[1] <= 'Z'
      && w.flag == MisreadIndicator(w.code[0]) + MisreadIndicator(w.code[1])
  {
  }

  /** As written, every flag is the misreading of the intended flag and
      differs from it; codes and names are those of the intended list. */
  lemma FlagsAreMisreadUtf8()
    ensures forall i :: 0 <= i < 13 ==>
      var w := PopularCountriesAsWritten()[i];
      var c := PopularCountries()[i];
      && w.code == c.code && w.name == c.name
      && Misread(c.flag) == Some(w.flag)
      && w.flag != c.flag
  {
    FlagsSpellCodes();
    AsWrittenCodesAndNames();
    AsWrittenFlagsSpelled();
    forall i | 0 <= i < 13
      ensures var w := PopularCountriesAsWritten()[i];
        var c := PopularCountries()[i];
        Misread(c.flag) == Some(w.flag) && w.flag != c.flag
    {
      var w := PopularCountriesAsWritten()[i];
      var c := PopularCountries()[i];
      assert c in PopularCountries();
      MisreadFlag(c.code);
      assert |w.flag| != |c.flag|;
    }
  }

  // ---------------------------------------------------------------------------
  // searchCities
  // ---------------------------------------------------------------------------

  /** The search URL for an already percent-encoded query; a country code,
      when given and non-empty, is appended lower-cased. */
  function SearchUrl(encodedQuery: string, countryCode: Option<string>): string {
    var url := "https://nominatim.openstreetmap.org/search?q=" + encodedQuery
               + "&format=json&limit=20&addressdetails=1";
    if countryCode.Some? && countryCode.value != "" then url + "&countrycodes=" + Lower(countryCode.value)
    else url
  }

  /** The country filter is appended exactly when a code is given, and in
      lower case. */
  lemma SearchUrlCountryFilter(encodedQuery: string, countryCode: Option<string>)
    ensures var base := SearchUrl(encodedQuery, None);
      if countryCode.Some? && countryCode.value != "" then
        SearchUrl(encodedQuery, countryCode) == base + "&countrycodes=" + Lower(countryCode.value)
      else SearchUrl(encodedQuery, countryCode) == base
    ensures countryCode.Some? ==> SearchUrl(encodedQuery, countryCode) == SearchUrl(encodedQuery, Some(Lower(countryCode.value)))
  {
    if countryCode.Some? {
      LowerIdempotent(countryCode.value);
    }
  }

  /** An item of the search answer. */
  datatype SearchItem = SearchItem(
    itemType: string,
    name: Option<string>,
    displayName: string,
    country: Option<string>,
    lat: string,
    lon: string)

  datatype City = City(name: string, country: string, lat: real, lng: real)

  predicate IsSettlement(item: SearchItem) {
    item.itemType in {"city", "town", "village", "municipality"}
  }

  /** The map step: the name falls back to the first comma-separated part
      of the display name, the country to "". */
  function SearchCity(item: SearchItem, parseFloat: string -> real): City {
    var name := if item.name.Some? && item.name.value != "" then item.name.value
                else FirstSegment(item.displayName, ',');
    var country := if item.country.Some? && item.country.value != "" then item.country.value else "";
    City(name, country, parseFloat(item.lat), parseFloat(item.lon))
  }

  /** The filter and map of searchCities. */
  function SearchCities(items: seq<SearchItem>, parseFloat: string -> real): seq<City>
    decreases |items|
  {
    if items == [] then []
    else
      var rest := SearchCities(items[1..], parseFloat);
      if IsSettlement(items[0]) then [SearchCity(items[0], parseFloat)] + rest else rest
  }

  /** Order and multiplicity: the results of a concatenation are those of
      the first part followed by those of the second, and one item gives its
      own city if it is a settlement and nothing otherwise. */
  lemma {:induction false} SearchCitiesKeepsOrder(a: seq<SearchItem>, b: seq<SearchItem>, item: SearchItem,
                                                  parseFloat: string -> real)
    ensures SearchCities(a + b, parseFloat) == SearchCities(a, parseFloat) + SearchCities(b, parseFloat)
    ensures SearchCities([item], parseFloat)
              == (if IsSettlement(item) then [SearchCity(item, parseFloat)] else [])
    decreases |a|
  {
    if a != [] {
      assert (a + b)[1..] == a[1..] + b;
      SearchCitiesKeepsOrder(a[1..], b, item, parseFloat);
    } else {
      assert a + b == b;
    }
  }

  /** Exactly the settlements become results. */
  lemma {:induction false} SearchCitiesKeepsSettlements(items: seq<SearchItem>, parseFloat: string -> real)
    ensures var r := SearchCities(items, parseFloat);
      |r| <= |items|
      && (forall i :: 0 <= i < |items| && IsSettlement(items[i]) ==> SearchCity(items[i], parseFloat) in r)
      && (forall c :: c in r ==> exists i :: 0 <= i < |items| && IsSettlement(items[i]) && c == SearchCity(items[i], parseFloat))
    decreases |items|
  {
    if items != [] {
      SearchCitiesKeepsSettlements(items[1..], parseFloat);
      var r := SearchCities(items, parseFloat);
      forall i | 0 <= i < |items| && IsSettlement(items[i])
        ensures SearchCity(items[i], parseFloat) in r
      {
        if i > 0 {
          assert items[i] == items[1..][i - 1];
        }
      }
      forall c | c in r
        ensures exists i :: 0 <= i < |items| && IsSettlement(items[i]) && c == SearchCity(items[i], parseFloat)
      {
        if IsSettlement(items[0]) && c == SearchCity(items[0], parseFloat) {
        } else {
          var j :| 0 <= j < |items[1..]| && IsSettlement(items[1..][j]) && c == SearchCity(items[1..][j], parseFloat);
          assert items[j + 1] == items[1..][j];
        }
      }
    }
  }

  /** Without a name the result is named after the display name up to its
      first comma, so the fallback name never holds a comma. */
  lemma SearchNameFallback(item: SearchItem, parseFloat: string -> real)
    requires item.name.None? || item.name == Some("")
    ensures var n := SearchCity(item, parseFloat).name;
      ',' !in n && StartsWith(item.displayName, n)
      && (n == item.displayName || item.displayName[|n|] == ',')
  {
  }

  // ---------------------------------------------------------------------------
  // getCityFromCoordinates
  // ---------------------------------------------------------------------------

  datatype Address = Address(
    city: Option<string>,
    town: Option<string>,
    village: Option<string>,
    municipality: Option<string>,
    country: Option<string>)

  datatype ReverseAnswer = ReverseAnswer(address: Option<Address>, lat: string, lon: string)

  /** The returned city; the name can be missing when none of the four
      address fields is set. */
  datatype Place = Place(name: Option<string>, country: Option<string>, lat: real, lng: real)

  function FirstTruthy(a: Option<string>, b: Option<string>): Option<string> {
    if a.Some? && a.value != "" then a else b
  }

  /** getCityFromCoordinates after the answer has been parsed. */
  function CityFromAnswer(answer: ReverseAnswer, parseFloat: string -> real): Option<Place> {
    match answer.address
    case None => None
    case Some(a) =>
      var name := FirstTruthy(a.city, FirstTruthy(a.town, FirstTruthy(a.village, a.municipality)));
      Some(Place(name, a.country, parseFloat(answer.lat), parseFloat(answer.lon)))
  }

  /** No address means no city; otherwise the name is the first set of city,
      town and village, and municipality as it is when none of those is set. */
  lemma CityNameFallback(answer: ReverseAnswer, parseFloat: string -> real)
    ensures CityFromAnswer(answer, parseFloat).None? <==> answer.address.None?
    ensures answer.address.Some? ==>
      var a := answer.address.value;
      var n := CityFromAnswer(answer, parseFloat).value.name;
      && (a.city.Some? && a.city.value != "" ==> n == a.city)
      && (!(a.city.Some? && a.city.value != "") && a.town.Some? && a.town.value != "" ==> n == a.town)
      && ((!(a.city.Some? && a.city.value != "") && !(a.town.Some? && a.town.value != "")
             && a.village.Some? && a.village.value != "") ==> n == a.village)
      && ((!(a.city.Some? && a.city.value != "") && !(a.town.Some? && a.town.value != "")
             && !(a.village.Some? && a.village.value != "")) ==> n == a.municipality)
      && (n.Some? && n.value != "" ==> n in {a.city, a.town, a.village, a.municipality})
  {
  }

  // ---------------------------------------------------------------------------
  // getPopularCities
  // ---------------------------------------------------------------------------

  /** A row of the POI query (the city is never null). */
  datatype PoiRow = PoiRow(city: string, country: Option<string>, latitude: real, longitude: real)

  /** `${country}` for a possibly null country. */
  function CountryText(country: Option<string>): string {
    if country.Some? then country.value else "null"
  }

  /** The Map key `${poi.city}-${poi.country}`. */
  function CityKey(r: PoiRow): string {
    r.city + "-" + CountryText(r.country)
  }

  /** One Map value: the city as first seen and the number of rows. */
  datatype CityCount = CityCount(key: string, first: PoiRow, count: int)

  function CountKey(c: CityCount): int { c.count }

  /** A popular city; `playerCount` is the row count. */
  datatype PopularCity = PopularCity(name: string, country: Option<string>, lat: real, lng: real, playerCount: int)

  function GroupFor(rows: seq<PoiRow>, k: string): CityCount
    requires k in Grouping.Keys(rows, CityKey)
  {
    CityCount(k, Grouping.FirstRow(rows, CityKey, k), Grouping.SumFor(rows, CityKey, k, Grouping.One))
  }

  /** `Array.from(cityMap.values())`: one group per key, by first appearance. */
  function Groups(rows: seq<PoiRow>): seq<CityCount> {
    var keys := Grouping.Keys(rows, CityKey);
    seq(|keys|, i requires 0 <= i < |keys| => GroupFor(rows, keys[i]))
  }

  function ToPopular(g: CityCount): PopularCity {
    PopularCity(g.first.city, g.first.country, g.first.latitude, g.first.longitude, g.count)
  }

  const MaxPopularCities: nat := 20

  /** Sort by count descending, keep the first 20, spread the city and add
      `playerCount`. */
  function PopularCities(rows: seq<PoiRow>): seq<PopularCity> {
    var top := Sorting.Take(Sorting.SortDesc(Groups(rows), CountKey), MaxPopularCities);
    seq(|top|, i requires 0 <= i < |top| => ToPopular(top[i]))
  }

  /** `Groups` and the loop's Map agree after `rows`. */
  ghost predicate Counted(rows: seq<PoiRow>, order: seq<string>, counts: map<string, CityCount>) {
    && order == Grouping.Keys(rows, CityKey)
    && (forall k :: k in order ==> k in counts)
    && forall k :: k in counts ==> k in order && counts[k] == GroupFor(rows, k)
  }

  /** The forEach that fills the Map: a new key gets its first row and count
      1; a known key has its count incremented. */
  method CountCities(rows: seq<PoiRow>) returns (groups: seq<CityCount>)
    ensures groups == Groups(rows)
  {
    var counts: map<string, CityCount> := map[];
    var order: seq<string> := [];
    var i := 0;
    while i < |rows|
      invariant 0 <= i <= |rows|
      invariant Counted(rows[..i], order, counts)
    {
      order, counts := CountRow(rows[..i], rows[i], order, counts);
      assert rows[..i + 1] == rows[..i] + [rows[i]];
      i := i + 1;
    }
    assert rows[..i] == rows;
    groups := CollectGroups(rows, order, counts);
  }

  /** One step of the forEach: a new key gets the row and count 1, a known
      key has its count incremented. */
  method CountRow(rows: seq<PoiRow>, r: PoiRow, order: seq<string>, counts: map<string, CityCount>)
    returns (order': seq<string>, counts': map<string, CityCount>)
    requires Counted(rows, order, counts)
    ensures Counted(rows + [r], order', counts')
  {
    var key := CityKey(r);
    if key !in counts {
      counts' := counts[key := CityCount(key, r, 1)];
      order' := order + [key];
    } else {
      counts' := counts[key := counts[key].(count := counts[key].count + 1)];
      order' := order;
    }
    CountStep(rows, r, order, counts, order', counts');
  }

  /** `Array.from(cityMap.values())`, in insertion order. */
  method CollectGroups(rows: seq<PoiRow>, order: seq<string>, counts: map<string, CityCount>)
    returns (groups: seq<CityCount>)
    requires Counted(rows, order, counts)
    ensures groups == Groups(rows)
  {
    ghost var all := Groups(rows);
    groups := [];
    var k := 0;
    while k < |order|
      invariant 0 <= k <= |order| == |all|
      invariant groups == all[..k]
    {
      groups := groups + [counts[order[k]]];
      k := k + 1;
    }
  }

  lemma CountStep(rows: seq<PoiRow>, r: PoiRow, order: seq<string>, counts: map<string, CityCount>,
                  order': seq<string>, counts': map<string, CityCount>)
    requires Counted(rows, order, counts)
    requires var k := CityKey(r);
      if k in counts then order' == order && counts' == counts[k := counts[k].(count := counts[k].count + 1)]
      else order' == order + [k] && counts' == counts[k := CityCount(k, r, 1)]
    ensures Counted(rows + [r], order', counts')
  {
    var next := rows + [r];
    Grouping.KeysSnoc(rows, r, CityKey);
    forall k | k in counts'
      ensures k in order' && counts'[k] == GroupFor(next, k)
    {
      Grouping.FirstRowSnoc(rows, r, CityKey, k);
      Grouping.SumForSnoc(rows, r, CityKey, k, Grouping.One);
      if k == CityKey(r) && k !in counts {
        Grouping.SumForAbsent(rows, CityKey, k, Grouping.One);
      }
    }
  }

  /** getPopularCities after the query has returned `rows`. */
  method GetPopularCities(rows: seq<PoiRow>) returns (cities: seq<PopularCity>)
    ensures cities == PopularCities(rows)
  {
    var groups := CountCities(rows);
    var top := Sorting.Take(Sorting.SortDesc(groups, CountKey), MaxPopularCities);
    cities := [];
    var i := 0;
    while i < |top|
      invariant 0 <= i <= |top|
      invariant |cities| == i
      invariant forall j :: 0 <= j < i ==> cities[j] == ToPopular(top[j])
    {
      cities := cities + [ToPopular(top[i])];
      i := i + 1;
    }
  }

  /** The group of a key: its first row carries the key, and its count is
      the number of rows with that key, which is at least one. */
  lemma GroupFacts(rows: seq<PoiRow>, k: string)
    requires k in Grouping.Keys(rows, CityKey)
    ensures var g := GroupFor(rows, k);
      && Grouping.HasKey(rows, CityKey, k)
      && CityKey(g.first) == k
      && g.count == multiset(Grouping.KeyColumn(rows, CityKey))[k]
      && g.count >= 1
  {
    Grouping.KeysAreRowKeys(rows, CityKey, k);
    Grouping.FirstRowIsFirst(rows, CityKey, k);
    Grouping.CountIsMultiplicity(rows, CityKey, k);
    var i :| 0 <= i < |rows| && rows[i] == Grouping.FirstRow(rows, CityKey, k) && CityKey(rows[i]) == k;
    var column := Grouping.KeyColumn(rows, CityKey);
    assert column[i] == k;
    assert k in multiset(column);
  }

  /** Every group is the first row with its key and the number of rows with
      that key. */
  lemma GroupsAreCounts(rows: seq<PoiRow>)
    ensures forall g :: g in Groups(rows) ==>
      && Grouping.HasKey(rows, CityKey, g.key)
      && CityKey(g.first) == g.key
      && g.count == multiset(Grouping.KeyColumn(rows, CityKey))[g.key]
      && g.count >= 1
  {
    var keys := Grouping.Keys(rows, CityKey);
    forall i | 0 <= i < |keys|
      ensures var g := GroupFor(rows, keys[i]);
        && Grouping.HasKey(rows, CityKey, g.key)
        && CityKey(g.first) == g.key
        && g.count == multiset(Grouping.KeyColumn(rows, CityKey))[g.key]
        && g.count >= 1
    {
      GroupFacts(rows, keys[i]);
    }
  }

  /** The Map key a popular city was counted under. */
  function PopularKey(p: PopularCity): string {
    p.name + "-" + CountryText(p.country)
  }

  /** Distinct keys make distinct groups. */
  lemma GroupsDistinct(rows: seq<PoiRow>)
    ensures Sorting.Distinct(Groups(rows))
    ensures forall g :: g in Groups(rows) ==> g == GroupFor(rows, g.key)
  {
  }

  /** The groups in ranking order. */
  function RankedGroups(rows: seq<PoiRow>): seq<CityCount> {
    Sorting.SortDesc(Groups(rows), CountKey)
  }

  /** The ranking holds every group once, in non-increasing count order, and
      the result is its first 20 entries. */
  lemma RankedGroupsFacts(rows: seq<PoiRow>)
    ensures var sorted := RankedGroups(rows);
      var r := PopularCities(rows);
      && |sorted| == |Grouping.Keys(rows, CityKey)|
      && Sorting.SortedDesc(sorted, CountKey)
      && Sorting.Distinct(sorted)
      && multiset(sorted) == multiset(Groups(rows))
      && (forall g :: g in sorted ==> g in Groups(rows))
      && |r| == (if |sorted| < MaxPopularCities then |sorted| else MaxPopularCities)
      && (forall i :: 0 <= i < |r| ==> r[i] == ToPopular(sorted[i]) && PopularKey(r[i]) == sorted[i].key)
  {
    var groups := Groups(rows);
    var sorted := RankedGroups(rows);
    var r := PopularCities(rows);
    Sorting.SortDescCorrect(groups, CountKey);
    GroupsAreCounts(rows);
    GroupsDistinct(rows);
    Sorting.PermutationDistinct(groups, sorted);
    forall g | g in sorted
      ensures g in groups
    {
      assert g in multiset(groups);
    }
    forall i | 0 <= i < |r|
      ensures r[i] == ToPopular(sorted[i]) && PopularKey(r[i]) == sorted[i].key
    {
      assert sorted[i] in sorted;
    }
  }

  /** getPopularCities returns at most 20 cities in non-increasing order of
      player count, and no city twice. */
  lemma PopularCitiesOrder(rows: seq<PoiRow>)
    ensures var r := PopularCities(rows);
      && |r| == (if |Grouping.Keys(rows, CityKey)| < MaxPopularCities then |Grouping.Keys(rows, CityKey)| else MaxPopularCities)
      && (forall i, j :: 0 <= i < j < |r| ==> r[i].playerCount >= r[j].playerCount)
      && (forall i, j :: 0 <= i < j < |r| ==> PopularKey(r[i]) != PopularKey(r[j]))
  {
    var sorted := RankedGroups(rows);
    var r := PopularCities(rows);
    RankedGroupsFacts(rows);
    forall i, j | 0 <= i < j < |r|
      ensures r[i].playerCount >= r[j].playerCount
    {
      assert CountKey(sorted[i]) >= CountKey(sorted[j]);
    }
    forall i, j | 0 <= i < j < |r|
      ensures PopularKey(r[i]) != PopularKey(r[j])
    {
      assert sorted[i] != sorted[j];
      assert sorted[i] in sorted && sorted[j] in sorted;
    }
  }

  /** Each city returned is the first row of its key, and its player count
      is the number of rows under that key. */
  lemma PopularCitiesCounts(rows: seq<PoiRow>)
    ensures var r := PopularCities(rows);
      var column := multiset(Grouping.KeyColumn(rows, CityKey));
      forall i :: 0 <= i < |r| ==>
        && PopularKey(r[i]) in Grouping.Keys(rows, CityKey)
        && r[i] == ToPopular(GroupFor(rows, PopularKey(r[i])))
        && r[i].playerCount == column[PopularKey(r[i])] >= 1
  {
    var sorted := RankedGroups(rows);
    var r := PopularCities(rows);
    RankedGroupsFacts(rows);
    GroupsAreCounts(rows);
    forall i | 0 <= i < |r|
      ensures && PopularKey(r[i]) in Grouping.Keys(rows, CityKey)
              && r[i] == ToPopular(GroupFor(rows, PopularKey(r[i])))
    {
      assert sorted[i] in sorted;
    }
  }

  /** Every key of the rows has its group somewhere in the ranking. */
  lemma GroupRanked(rows: seq<PoiRow>, k: string)
    requires k in Grouping.Keys(rows, CityKey)
    ensures var sorted := RankedGroups(rows);
      exists p :: 0 <= p < |sorted| && sorted[p] == GroupFor(rows, k)
  {
    var keys := Grouping.Keys(rows, CityKey);
    var groups := Groups(rows);
    var sorted := RankedGroups(rows);
    Sorting.SortDescCorrect(groups, CountKey);
    var a :| 0 <= a < |keys| && keys[a] == k;
    assert groups[a] in multiset(groups);
    assert groups[a] in multiset(sorted);
  }

  /** A key that does not make the list has no more rows than any city
      that does. */
  lemma PopularCitiesAreTop(rows: seq<PoiRow>)
    ensures var r := PopularCities(rows);
      var column := multiset(Grouping.KeyColumn(rows, CityKey));
      forall k :: Grouping.HasKey(rows, CityKey, k) ==>
        (exists i :: 0 <= i < |r| && PopularKey(r[i]) == k)
        || (forall i :: 0 <= i < |r| ==> r[i].playerCount >= column[k])
  {
    var sorted := RankedGroups(rows);
    var r := PopularCities(rows);
    var column := multiset(Grouping.KeyColumn(rows, CityKey));
    RankedGroupsFacts(rows);
    forall k | Grouping.HasKey(rows, CityKey, k)
      ensures (exists i :: 0 <= i < |r| && PopularKey(r[i]) == k)
              || (forall i :: 0 <= i < |r| ==> r[i].playerCount >= column[k])
    {
      Grouping.KeysAreRowKeys(rows, CityKey, k);
      GroupRanked(rows, k);
      var p :| 0 <= p < |sorted| && sorted[p] == GroupFor(rows, k);
      if p >= |r| {
        GroupFacts(rows, k);
        forall i | 0 <= i < |r|
          ensures r[i].playerCount >= column[k]
        {
          assert CountKey(sorted[i]) >= CountKey(sorted[p]);
        }
      } else {
        assert PopularKey(r[p]) == k;
      }
    }
  }

  /** The Map key joins city and country with a hyphen, so a hyphenated
      city in one country and a city in a hyphenated country can share a
      key; their rows are then counted as one city, named after the first. */
  lemma HyphenatedNamesShareAKey(a: PoiRow, b: PoiRow)
    requires a == PoiRow("A-B", Some("C"), 0.0, 0.0) && b == PoiRow("A", Some("B-C"), 1.0, 1.0)
    ensures var r := PopularCities([a, b]);
      |r| == 1 && r[0].name == "A-B" && r[0].playerCount == 2
  {
    var rows := [a, b];
    assert CityKey(a) == CityKey(b);
    assert rows[..1] == [a];
    assert Grouping.Keys([a], CityKey) == [CityKey(a)];
    assert Grouping.Keys(rows, CityKey) == [CityKey(a)];
    PopularCitiesCounts(rows);
    PopularCitiesOrder(rows);
    var r := PopularCities(rows);
    assert PopularKey(r[0]) == CityKey(a);
    Grouping.FirstRowSnoc([a], b, CityKey, CityKey(a));
    assert Grouping.KeyColumn(rows, CityKey) == [CityKey(a), CityKey(a)];
  }
}
