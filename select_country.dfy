/** app/profile/select-country.tsx: the search box over the popular
    countries keeps the countries whose lower-cased name includes the
    lower-cased search text. */
module SelectCountry {
  import opened Wrappers
  import opened Text
  import Geocoding

  predicate Matches(c: Geocoding.Country, search: string) {
    Contains(Lower(c.name), Lower(search))
  }

  /** `countries.filter(...)`. */
  function FilterCountries(countries: seq<Geocoding.Country>, search: string): seq<Geocoding.Country>
    decreases |countries|
  {
    if countries == [] then []
    else if Matches(countries[0], search) then [countries[0]] + FilterCountries(countries[1..], search)
    else FilterCountries(countries[1..], search)
  }

  /** `filteredCountries` for the current search text. The screen lists
      `getPopularCountries()` as the file spells it, flags included. */
  function FilteredCountries(search: string): seq<Geocoding.Country> {
    FilterCountries(Geocoding.PopularCountriesAsWritten(), search)
  }

  /** `a` can be obtained from `b` by deleting elements. */
  predicate IsSubsequence<T(==)>(a: seq<T>, b: seq<T>)
    decreases |b|
  {
    if a == [] then true
    else if b == [] then false
    else (a[0] == b[0] && IsSubsequence(a[1..], b[1..])) || IsSubsequence(a, b[1..])
  }

  /** The filter keeps the countries in their original order. */
  lemma {:induction false} FilterIsSubsequence(countries: seq<Geocoding.Country>, search: string)
    ensures IsSubsequence(FilterCountries(countries, search), countries)
    decreases |countries|
  {
    if countries != [] {
      FilterIsSubsequence(countries[1..], search);
      var rest := FilterCountries(countries[1..], search);
      if Matches(countries[0], search) {
        assert ([countries[0]] + rest)[1..] == rest;
      } else if rest != [] {
        assert IsSubsequence(rest, countries[1..]);
      }
    }
  }

  /** A country is listed exactly when its name matches the search. */
  lemma {:induction false} FilterMembership(countries: seq<Geocoding.Country>, search: string, c: Geocoding.Country)
    ensures c in FilterCountries(countries, search) <==> c in countries && Matches(c, search)
    decreases |countries|
  {
    if countries != [] {
      FilterMembership(countries[1..], search, c);
      assert countries == [countries[0]] + countries[1..];
    }
  }

  /** An empty search lists every country. */
  lemma {:induction false} EmptySearchKeepsAll(countries: seq<Geocoding.Country>)
    ensures FilterCountries(countries, "") == countries
    decreases |countries|
  {
    if countries != [] {
      ContainsEmpty(Lower(countries[0].name));
      EmptySearchKeepsAll(countries[1..]);
    }
  }

  /** Searches that differ only in letter case list the same countries. */
  lemma {:induction false} FilterIgnoresCase(countries: seq<Geocoding.Country>, s1: string, s2: string)
    requires Lower(s1) == Lower(s2)
    ensures FilterCountries(countries, s1) == FilterCountries(countries, s2)
    decreases |countries|
  {
    if countries != [] {
      FilterIgnoresCase(countries[1..], s1, s2);
    }
  }

  /** `w` is the entry `c` with its flag misread. */
  predicate MisreadEntry(w: Geocoding.Country, c: Geocoding.Country) {
    w.code == c.code && w.name == c.name && Geocoding.Misread(c.flag) == Some(w.flag)
  }

  /** Filtering two lists that agree entry by entry up to the misread flag
      lists the same countries, entry by entry. */
  lemma {:induction false} FilterPointwise(ws: seq<Geocoding.Country>, cs: seq<Geocoding.Country>, search: string)
    requires |ws| == |cs|
    requires forall i :: 0 <= i < |ws| ==> MisreadEntry(ws[i], cs[i])
    ensures |FilterCountries(ws, search)| == |FilterCountries(cs, search)|
    ensures forall j :: 0 <= j < |FilterCountries(ws, search)| ==>
              MisreadEntry(FilterCountries(ws, search)[j], FilterCountries(cs, search)[j])
    decreases |ws|
  {
    if ws != [] {
      assert MisreadEntry(ws[0], cs[0]);
      FilterPointwise(ws[1..], cs[1..], search);
    }
  }

  /** On the screen's list: the result lists at most the 13, in order, and
      all 13 for an empty search. The entries shown are those the intended
      list gives for the same search, with the same codes and names and the
      flags misread. */
  lemma FilteredCountriesFacts(search: string)
    ensures IsSubsequence(FilteredCountries(search), Geocoding.PopularCountriesAsWritten())
    ensures |FilteredCountries(search)| <= 13
    ensures FilteredCountries("") == Geocoding.PopularCountriesAsWritten()
    ensures |FilteredCountries(search)| == |FilterCountries(Geocoding.PopularCountries(), search)|
    ensures forall j :: 0 <= j < |FilteredCountries(search)| ==>
              MisreadEntry(FilteredCountries(search)[j], FilterCountries(Geocoding.PopularCountries(), search)[j])
  {
    var ws := Geocoding.PopularCountriesAsWritten();
    var cs := Geocoding.PopularCountries();
    FilterIsSubsequence(ws, search);
    SubsequenceNoLonger(FilteredCountries(search), ws);
    EmptySearchKeepsAll(ws);
    Geocoding.FlagsAreMisreadUtf8();
    assert forall i :: 0 <= i < |ws| ==> MisreadEntry(ws[i], cs[i]);
    FilterPointwise(ws, cs, search);
  }

  lemma {:induction false} SubsequenceNoLonger<T>(a: seq<T>, b: seq<T>)
    requires IsSubsequence(a, b)
    ensures |a| <= |b|
    decreases |b|
  {
    if a != [] {
      if a[0] == b[0] && IsSubsequence(a[1..], b[1..]) {
        SubsequenceNoLonger(a[1..], b[1..]);
      } else {
        SubsequenceNoLonger(a, b[1..]);
      }
    }
  }
}
