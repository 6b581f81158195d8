/** services/poi.service.ts: the classification of OpenStreetMap tags, the
    transform of the elements an Overpass query returns into POIs, and the
    per-POI leaderboard built from the month's claim rows. The HTTP request
    and the database query are not modelled: the functions take their
    already-parsed results. */
module PoiService {
  import opened Wrappers
  import opened Text
  import opened Config
  import Grouping
  import Sorting

  // ---------------------------------------------------------------------------
  // Tag classification
  // ---------------------------------------------------------------------------

  /** The tags of an element that the service reads; an absent tag is `None`. */
  datatype OsmTags = OsmTags(
    name: Option<string>,
    leisure: Option<string>,
    tourism: Option<string>,
    amenity: Option<string>,
    historic: Option<string>)

  /** A tag value is truthy when present and non-empty. */
  predicate Truthy(v: Option<string>) {
    v.Some? && v.value != ""
  }

  /** `a || b` for an optional tag and a string fallback. */
  function OrElse(a: Option<string>, b: string): (r: string)
    ensures Truthy(a) ==> r == a.value
    ensures !Truthy(a) ==> r == b
  {
    if Truthy(a) then a.value else b
  }

  /** detectPOIType. */
  function DetectPOIType(tags: OsmTags): POIType {
    if tags.leisure == Some("park") || tags.leisure == Some("garden") then Park
    else if tags.tourism == Some("museum") then Museum
    else if Truthy(tags.historic) then Historic
    else if tags.amenity == Some("place_of_worship") then Church
    else Other
  }

  /** The tag filters of the Overpass query the elements come from. */
  predicate QueryMatches(tags: OsmTags) {
    || tags.leisure == Some("park") || tags.leisure == Some("garden")
    || tags.historic.Some?
    || tags.amenity == Some("place_of_worship")
    || tags.tourism == Some("museum")
  }

  /** The classifier never yields "monument", and every element the query
      can return (bar one whose historic tag is present but empty) gets a
      specific type rather than "other". */
  lemma DetectPOITypeRange(tags: OsmTags)
    ensures DetectPOIType(tags) != Monument
    ensures QueryMatches(tags) && tags.historic != Some("") ==> DetectPOIType(tags) != Other
  {
  }

  /** The tests run in priority order: park or garden first, then museum,
      then historic, then place of worship, and "other" when none applies.
      Each type is stated as an if-and-only-if on the tags. */
  lemma DetectPOITypePriority(tags: OsmTags)
    ensures var park := tags.leisure == Some("park") || tags.leisure == Some("garden");
            var museum := tags.tourism == Some("museum");
            var worship := tags.amenity == Some("place_of_worship");
            && (DetectPOIType(tags) == Park <==> park)
            && (DetectPOIType(tags) == Museum <==> !park && museum)
            && (DetectPOIType(tags) == Historic <==> !park && !museum && Truthy(tags.historic))
            && (DetectPOIType(tags) == Church <==>
                  !park && !museum && !Truthy(tags.historic) && worship)
            && (DetectPOIType(tags) == Other <==>
                  !park && !museum && !Truthy(tags.historic) && !worship)
  {
  }

  // ---------------------------------------------------------------------------
  // Elements to POIs (fetchNearbyPOIs)
  // ---------------------------------------------------------------------------

  /** The `center` of a way. */
  datatype Center = Center(lat: Option<real>, lon: Option<real>)

  /** An element of the Overpass response. */
  datatype OsmElement = OsmElement(
    id: int,
    lat: Option<real>,
    lon: Option<real>,
    center: Option<Center>,
    tags: Option<OsmTags>)

  /** A POI as the transform builds it; `None` coordinates stand for
      `undefined`. */
  datatype Poi = Poi(
    id: string,
    name: string,
    coordinates: (Option<real>, Option<real>),
    latitude: Option<real>,
    longitude: Option<real>,
    poiType: POIType,
    category: string)

  /** `poi.tags?.name` is truthy. */
  predicate HasName(e: OsmElement) {
    e.tags.Some? && Truthy(e.tags.value.name)
  }

  /** `own || fallback` for a coordinate: 0 and absence are both falsy. */
  function CoordOr(own: Option<real>, fallback: Option<real>): Option<real> {
    if own.Some? && own.value != 0.0 then own else fallback
  }

  function CenterLat(e: OsmElement): Option<real> {
    if e.center.Some? then e.center.value.lat else None
  }

  function CenterLon(e: OsmElement): Option<real> {
    if e.center.Some? then e.center.value.lon else None
  }

  /** The map step for one named element. */
  function ToPoi(e: OsmElement): Poi
    requires HasName(e)
  {
    var tags := e.tags.value;
    var lat := CoordOr(e.lat, CenterLat(e));
    var lon := CoordOr(e.lon, CenterLon(e));
    Poi("osm_" + IntToString(e.id), tags.name.value, (lon, lat), lat, lon,
        DetectPOIType(tags), OrElse(tags.tourism, OrElse(tags.amenity, OrElse(tags.leisure, "other"))))
  }

  /** The filter and map of fetchNearbyPOIs. */
  function NearbyPois(elements: seq<OsmElement>): (pois: seq<Poi>)
    decreases |elements|
  {
    if elements == [] then []
    else
      var rest := NearbyPois(elements[1..]);
      if HasName(elements[0]) then [ToPoi(elements[0])] + rest else rest
  }

  /** Order and multiplicity: the POIs of a concatenation are those of the
      first part followed by those of the second, and one element gives its
      own POI if it is named and nothing otherwise. Together these fix the
      result as the named elements' POIs, one each, in element order. */
  lemma {:induction false} NearbyPoisKeepsOrder(a: seq<OsmElement>, b: seq<OsmElement>, e: OsmElement)
    ensures NearbyPois(a + b) == NearbyPois(a) + NearbyPois(b)
    ensures NearbyPois([e]) == (if HasName(e) then [ToPoi(e)] else [])
    decreases |a|
  {
    if a != [] {
      assert (a + b)[1..] == a[1..] + b;
      NearbyPoisKeepsOrder(a[1..], b, e);
    } else {
      assert a + b == b;
    }
  }

  /** Exactly the named elements become POIs. */
  lemma {:induction false} NearbyPoisAreNamedElements(elements: seq<OsmElement>)
    ensures forall e :: e in elements && HasName(e) ==> ToPoi(e) in NearbyPois(elements)
    ensures forall p :: p in NearbyPois(elements) ==>
              exists e :: e in elements && HasName(e) && p == ToPoi(e)
    ensures |NearbyPois(elements)| <= |elements|
    decreases |elements|
  {
    if elements != [] {
      NearbyPoisAreNamedElements(elements[1..]);
      forall e | e in elements && HasName(e)
        ensures ToPoi(e) in NearbyPois(elements)
      {
        if e != elements[0] {
          assert e in elements[1..];
        }
      }
      forall p | p in NearbyPois(elements)
        ensures exists e :: e in elements && HasName(e) && p == ToPoi(e)
      {
        if HasName(elements[0]) && p == ToPoi(elements[0]) {
          assert elements[0] in elements;
        } else {
          assert p in NearbyPois(elements[1..]);
          var e :| e in elements[1..] && HasName(e) && p == ToPoi(e);
          assert e in elements;
        }
      }
    }
  }

  /** Every POI has a non-empty name and a non-empty category, and its id is
      "osm_" followed by the element's id. */
  lemma ToPoiFields(e: OsmElement)
    requires HasName(e)
    ensures ToPoi(e).name != "" && ToPoi(e).category != ""
    ensures StartsWith(ToPoi(e).id, "osm_") && ToPoi(e).id[4..] == IntToString(e.id)
    ensures ToPoi(e).coordinates == (ToPoi(e).longitude, ToPoi(e).latitude)
  {
    assert ("osm_" + IntToString(e.id))[..4] == "osm_";
  }

  /** Two elements with different OSM ids never get the same POI id. */
  lemma ToPoiIdInjective(a: OsmElement, b: OsmElement)
    requires HasName(a) && HasName(b)
    requires ToPoi(a).id == ToPoi(b).id
    ensures a.id == b.id
  {
    ToPoiFields(a);
    ToPoiFields(b);
    IntToStringInjective(a.id, b.id);
  }

  /** The category is the first truthy of tourism, amenity and leisure, else
      "other". */
  lemma CategoryFallback(e: OsmElement)
    requires HasName(e)
    ensures var t := e.tags.value;
      ToPoi(e).category ==
        if Truthy(t.tourism) then t.tourism.value
        else if Truthy(t.amenity) then t.amenity.value
        else if Truthy(t.leisure) then t.leisure.value
        else "other"
  {
  }

  /** A way has no own coordinates (or a node has 0): the center's are used. */
  lemma CoordinatesFallBackToCenter(e: OsmElement)
    requires HasName(e)
    ensures e.lat.Some? && e.lat.value != 0.0 ==> ToPoi(e).latitude == e.lat
    ensures (e.lat.None? || e.lat == Some(0.0)) ==> ToPoi(e).latitude == CenterLat(e)
    ensures (e.lon.None? || e.lon == Some(0.0)) ==> ToPoi(e).longitude == CenterLon(e)
  {
  }

  // ---------------------------------------------------------------------------
  // Leaderboard (getPOILeaderboard)
  // ---------------------------------------------------------------------------

  /** A claim row of the query: the claimant, the minutes earned and the
      joined username, absent when the join found nothing. */
  datatype ClaimRow = ClaimRow(userId: string, minutes: int, username: Option<string>)

  /** One accumulator entry `{ userId, username, minutes }`. */
  datatype UserTotal = UserTotal(userId: string, username: string, minutes: int)

  datatype LeaderboardEntry = LeaderboardEntry(userId: string, username: string, minutes: int, rank: nat)

  function UserOf(c: ClaimRow): string { c.userId }
  function MinutesOf(c: ClaimRow): int { c.minutes }
  function MinutesKey(t: UserTotal): int { t.minutes }

  /** `claim.users?.username || 'Unknown'`. */
  function DisplayName(c: ClaimRow): (s: string)
    ensures s != ""
  {
    OrElse(c.username, "Unknown")
  }

  /** The accumulator entry the reduce ends with for user `u`: the name from
      the user's first row and the sum of all the user's minutes. */
  function TotalFor(claims: seq<ClaimRow>, u: string): UserTotal
    requires u in Grouping.Keys(claims, UserOf)
  {
    UserTotal(u, DisplayName(Grouping.FirstRow(claims, UserOf, u)),
              Grouping.SumFor(claims, UserOf, u, MinutesOf))
  }

  /** `Object.values` of the accumulator: one entry per user, in order of the
      user's first claim. */
  function Totals(claims: seq<ClaimRow>): seq<UserTotal> {
    var users := Grouping.Keys(claims, UserOf);
    seq(|users|, i requires 0 <= i < |users| => TotalFor(claims, users[i]))
  }

  /** The map step: ranks are positions counted from 1. */
  function Ranked(totals: seq<UserTotal>): seq<LeaderboardEntry>
  {
    seq(|totals|, i requires 0 <= i < |totals| =>
      LeaderboardEntry(totals[i].userId, totals[i].username, totals[i].minutes, i + 1))
  }

  /** The whole leaderboard: aggregate, sort by minutes descending, rank. */
  function Leaderboard(claims: seq<ClaimRow>): seq<LeaderboardEntry> {
    Ranked(Sorting.SortDesc(Totals(claims), MinutesKey))
  }

  /** `order` lists the users of `rows` by first claim and `acc` holds each
      one's finished entry: what the reduce has built after `rows`. */
  ghost predicate Accumulated(rows: seq<ClaimRow>, order: seq<string>, acc: map<string, UserTotal>) {
    && order == Grouping.Keys(rows, UserOf)
    && (forall u :: u in order ==> u in acc)
    && forall u :: u in acc ==> u in order && acc[u] == TotalFor(rows, u)
  }

  /** The reduce over the claim rows, as the source runs it: an accumulator
      keyed by user id, created on a user's first row and incremented on
      every row, then its values in insertion order. */
  method AggregateMinutes(claims: seq<ClaimRow>) returns (totals: seq<UserTotal>)
    ensures totals == Totals(claims)
  {
    var acc: map<string, UserTotal> := map[];
    var order: seq<string> := [];
    var i := 0;
    while i < |claims|
      invariant 0 <= i <= |claims|
      invariant Accumulated(claims[..i], order, acc)
    {
      order, acc := AccumulateRow(claims[..i], claims[i], order, acc);
      assert claims[..i + 1] == claims[..i] + [claims[i]];
      i := i + 1;
    }
    assert claims[..i] == claims;
    totals := CollectTotals(claims, order, acc);
  }

  /** One call of the reduce callback: a user's first row creates the entry
      with 0 minutes and the display name, then every row adds its minutes. */
  method AccumulateRow(rows: seq<ClaimRow>, c: ClaimRow, order: seq<string>, acc: map<string, UserTotal>)
    returns (order': seq<string>, acc': map<string, UserTotal>)
    requires Accumulated(rows, order, acc)
    ensures Accumulated(rows + [c], order', acc')
  {
    acc', order' := acc, order;
    if c.userId !in acc' {
      acc' := acc'[c.userId := UserTotal(c.userId, DisplayName(c), 0)];
      order' := order' + [c.userId];
    }
    acc' := acc'[c.userId := acc'[c.userId].(minutes := acc'[c.userId].minutes + c.minutes)];
    AccumulateStep(rows, c, order, acc, order', acc');
  }

  /** `Object.values(acc)`, in insertion order. */
  method CollectTotals(claims: seq<ClaimRow>, order: seq<string>, acc: map<string, UserTotal>)
    returns (totals: seq<UserTotal>)
    requires Accumulated(claims, order, acc)
    ensures totals == Totals(claims)
  {
    ghost var all := Totals(claims);
    totals := [];
    var k := 0;
    while k < |order|
      invariant 0 <= k <= |order| == |all|
      invariant totals == all[..k]
    {
      totals := totals + [acc[order[k]]];
      k := k + 1;
    }
  }

  /** One iteration of the reduce keeps the accumulator exact. */
  lemma AccumulateStep(rows: seq<ClaimRow>, c: ClaimRow, order: seq<string>, acc: map<string, UserTotal>,
                       order': seq<string>, acc': map<string, UserTotal>)
    requires Accumulated(rows, order, acc)
    requires order' == if c.userId in acc then order else order + [c.userId]
    requires var base := if c.userId in acc then acc[c.userId] else UserTotal(c.userId, DisplayName(c), 0);
      acc' == acc[c.userId := base.(minutes := base.minutes + c.minutes)]
    ensures Accumulated(rows + [c], order', acc')
  {
    var next := rows + [c];
    Grouping.KeysSnoc(rows, c, UserOf);
    forall u | u in acc'
      ensures u in order' && acc'[u] == TotalFor(next, u)
    {
      Grouping.FirstRowSnoc(rows, c, UserOf, u);
      Grouping.SumForSnoc(rows, c, UserOf, u, MinutesOf);
      if u == c.userId && u !in acc {
        Grouping.SumForAbsent(rows, UserOf, u, MinutesOf);
      }
    }
  }

  /** getPOILeaderboard after the query has returned `claims`. */
  method GetPOILeaderboard(claims: seq<ClaimRow>) returns (entries: seq<LeaderboardEntry>)
    ensures entries == Leaderboard(claims)
  {
    var totals := AggregateMinutes(claims);
    entries := Ranked(Sorting.SortDesc(totals, MinutesKey));
  }

  /** The leaderboard has one entry per user who claimed, ranked 1, 2, 3, …
      in non-increasing order of minutes. */
  lemma LeaderboardOrder(claims: seq<ClaimRow>)
    ensures var board := Leaderboard(claims);
      && |board| == |Grouping.Keys(claims, UserOf)|
      && (forall i :: 0 <= i < |board| ==> board[i].rank == i + 1)
      && (forall i, j :: 0 <= i < j < |board| ==> board[i].minutes >= board[j].minutes)
  {
    var totals := Totals(claims);
    var sorted := Sorting.SortDesc(totals, MinutesKey);
    Sorting.SortDescCorrect(totals, MinutesKey);
    var board := Leaderboard(claims);
    forall i, j | 0 <= i < j < |board|
      ensures board[i].minutes >= board[j].minutes
    {
      assert MinutesKey(sorted[i]) >= MinutesKey(sorted[j]);
    }
  }

  /** Each entry is a user who claimed, with the sum of that user's minutes
      and the name taken from that user's first row, and every user who
      claimed has an entry. */
  lemma LeaderboardEntries(claims: seq<ClaimRow>)
    ensures var board := Leaderboard(claims);
      && (forall i :: 0 <= i < |board| ==>
            && Grouping.HasKey(claims, UserOf, board[i].userId)
            && board[i].minutes == Grouping.SumFor(claims, UserOf, board[i].userId, MinutesOf)
            && board[i].userId in Grouping.Keys(claims, UserOf)
            && board[i].username == DisplayName(Grouping.FirstRow(claims, UserOf, board[i].userId)))
      && (forall u :: Grouping.HasKey(claims, UserOf, u) ==>
            exists i :: 0 <= i < |board| && board[i].userId == u)
  {
    var totals := Totals(claims);
    var users := Grouping.Keys(claims, UserOf);
    var sorted := Sorting.SortDesc(totals, MinutesKey);
    Sorting.SortDescCorrect(totals, MinutesKey);
    var board := Leaderboard(claims);
    forall i | 0 <= i < |board|
      ensures && Grouping.HasKey(claims, UserOf, board[i].userId)
              && board[i].minutes == Grouping.SumFor(claims, UserOf, board[i].userId, MinutesOf)
              && board[i].userId in Grouping.Keys(claims, UserOf)
              && board[i].username == DisplayName(Grouping.FirstRow(claims, UserOf, board[i].userId))
    {
      assert sorted[i] in multiset(totals);
      var j :| 0 <= j < |totals| && totals[j] == sorted[i];
      Grouping.KeysAreRowKeys(claims, UserOf, users[j]);
    }
    forall u | Grouping.HasKey(claims, UserOf, u)
      ensures exists i :: 0 <= i < |board| && board[i].userId == u
    {
      Grouping.KeysAreRowKeys(claims, UserOf, u);
      var j :| 0 <= j < |users| && users[j] == u;
      assert totals[j] in multiset(sorted);
      var i :| 0 <= i < |sorted| && sorted[i] == totals[j];
      assert board[i].userId == u;
    }
  }

  /** Every entry shows the username of the user's first claim row, and
      "Unknown" when that row has no username (absent or empty). */
  lemma MissingUsernameIsUnknown(claims: seq<ClaimRow>, i: nat)
    requires i < |Leaderboard(claims)|
    ensures var e := Leaderboard(claims)[i];
            && e.userId in Grouping.Keys(claims, UserOf)
            && var first := Grouping.FirstRow(claims, UserOf, e.userId);
               && (!Truthy(first.username) ==> e.username == "Unknown")
               && (Truthy(first.username) ==> e.username == first.username.value)
  {
    LeaderboardEntries(claims);
  }
}
