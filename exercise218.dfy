/** The country search: the directory is loaded once, filtered by name, and
    the number of matches picks one of four views. */
module Exercise218 {
  import opened Outcomes
  import opened Text
  import opened Seqs

  /** A country record as the directory returns it (the fields the views use). */
  datatype Country = Country(name: string, capital: string, population: int,
                             languages: seq<string>, flag: string)

  /** What `Countries` renders. `Listing` has one row, with a Show button,
      per country. */
  datatype View = TooMany | Listing(rows: seq<Country>) | Detail(country: Country) | NoMatches

  /** The keep test of `filteredCountries`. */
  function CountryMatches(query: string): Country -> bool {
    (c: Country) => Matches(c.name, query)
  }

  /** `countries.filter(country => country.name.toLowerCase().includes(filter.toLowerCase()))`. */
  function FilterCountries(countries: seq<Country>, query: string): (r: seq<Country>)
    ensures forall c :: c in r <==> c in countries && Matches(c.name, query)
    ensures IsSubsequence(r, countries)
  {
    FilterMembership(countries, CountryMatches(query));
    FilterIsSubsequence(countries, CountryMatches(query));
    Filter(countries, CountryMatches(query))
  }

  /** The `Countries` component: more than ten matches, two to ten, exactly
      one, or none. */
  function Classify(matches: seq<Country>): (v: View)
    ensures v.TooMany? <==> |matches| > 10
    ensures v.Listing? <==> 2 <= |matches| <= 10
    ensures v.Detail? <==> |matches| == 1
    ensures v.NoMatches? <==> matches == []
    ensures v.Listing? ==> v.rows == matches
    ensures v.Detail? ==> v.country == matches[0]
  {
    if |matches| > 10 then TooMany
    else if |matches| > 1 then Listing(matches)
    else if |matches| == 1 then Detail(matches[0])
    else NoMatches
  }

  /** After "Show" sets the filter to a country's name, that country is among
      the matches. */
  lemma ShownCountryMatches(countries: seq<Country>, c: Country)
    requires c in countries
    ensures c in FilterCountries(countries, c.name)
    ensures Classify(FilterCountries(countries, c.name)) != NoMatches
  {
    MatchesIgnoresCase(c.name, c.name);
  }

  /** ... but not necessarily the only one: a name contained in another name
      leaves both matching, so the list view stays. */
  lemma ShowMayLeaveSeveralMatches()
    ensures var niger := Country("Niger", "Niamey", 0, [], "");
            var nigeria := Country("Nigeria", "Abuja", 0, [], "");
            Classify(FilterCountries([niger, nigeria], niger.name)) == Listing([niger, nigeria])
  {
    var niger := Country("Niger", "Niamey", 0, [], "");
    var nigeria := Country("Nigeria", "Abuja", 0, [], "");
    assert ToLower("Niger") == "niger";
    assert ToLower("Nigeria") == "nigeria";
    assert OccursAt("nigeria", "niger", 0);
    assert Matches(niger.name, niger.name) && Matches(nigeria.name, niger.name);
    var r := FilterCountries([niger, nigeria], niger.name);
    assert r == Filter([niger, nigeria], CountryMatches(niger.name));
    assert [niger, nigeria][1..] == [nigeria];
    assert r == [niger, nigeria];
  }

  class App {
    var countries: seq<Country>
    var filter: string

    constructor ()
      ensures countries == [] && filter == ""
    {
      countries, filter := [], "";
    }

    /** The mount effect: a fulfilled GET replaces the directory; a rejected
        one is only logged. */
    method LoadCountries(reply: Response<seq<Country>>)
      modifies this`countries
      ensures reply.Ok? ==> countries == reply.value
      ensures reply.Err? ==> countries == old(countries)
      ensures reply.Err? && old(countries) == [] ==> CurrentView() == NoMatches
    {
      if reply.Ok? {
        countries := reply.value;
      }
    }

    method HandleFilterChange(value: string)
      modifies this`filter
      ensures filter == value
    {
      filter := value;
    }

    /** The Show button: the filter becomes the chosen country's name. */
    method HandleShowCountry(country: Country)
      modifies this`filter
      ensures filter == country.name
      ensures country in countries ==> country in FilteredCountries() && CurrentView() != NoMatches
    {
      filter := country.name;
      if country in countries {
        ShownCountryMatches(countries, country);
      }
    }

    function FilteredCountries(): (r: seq<Country>)
      reads this
      ensures forall c :: c in r <==> c in countries && Matches(c.name, filter)
      ensures IsSubsequence(r, countries)
    {
      FilterCountries(countries, filter)
    }

    function CurrentView(): (v: View)
      reads this
      ensures v.Listing? ==> v.rows == FilteredCountries()
      ensures v.Detail? ==> v.country in countries
    {
      Classify(FilteredCountries())
    }
  }
}
