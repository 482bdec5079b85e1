/**
 * The search box and the location selector: which records of the active list
 * the grid shows.
 */
module Search {
  import opened Wrappers
  import opened Seqs
  import opened Text
  import opened Movies

  /** The two tabs; `Favorites` stands for the favorites tab carrying the `active-tab` class. */
  datatype Tab = Catalog | Favorites

  /** The list a tab works on: the favorites exactly when the favorites tab is active. */
  function ActiveList(tab: Tab, favorites: seq<Movie>, catalog: seq<Movie>): (r: seq<Movie>)
    ensures tab == Favorites ==> r == favorites
    ensures tab != Favorites ==> r == catalog
  {
    if tab == Favorites then favorites else catalog
  }

  /** The search term: the query lower-cased, with surrounding whitespace cut away. */
  function SearchTerm(query: string): string {
    Trim(Lower(query))
  }

  /** The title, or the empty string when it is missing. */
  function TitleOrEmpty(title: Option<string>): string {
    if title.Some? then title.value else ""
  }

  /** A record passes when its lower-cased title contains the term and its location is the selected one, if any. */
  predicate Matches(movie: Movie, term: string, location: string) {
    Contains(Lower(TitleOrEmpty(movie.Title)), term) &&
    (location == "" || movie.Ubication == Some(location))
  }

  /** The records of the list kept by the search box's term and the selector's location. */
  function Filtered(list: seq<Movie>, query: string, location: string): seq<Movie> {
    var term := SearchTerm(query);
    Keep(list, (m: Movie) => Matches(m, term, location))
  }

  /**
   * The result is a subsequence of `list`, every record in it matches, and every
   * matching record of `list` is kept as often as it occurs there.
   */
  lemma FilteredIsOrderedSelection(list: seq<Movie>, query: string, location: string)
    ensures IsSubsequence(Filtered(list, query, location), list)
    ensures forall i :: 0 <= i < |Filtered(list, query, location)| ==> Matches(Filtered(list, query, location)[i], SearchTerm(query), location)
    ensures forall m :: multiset(Filtered(list, query, location))[m] == if Matches(m, SearchTerm(query), location) then multiset(list)[m] else 0
  {
    var term := SearchTerm(query);
    KeepSpec(list, (m: Movie) => Matches(m, term, location));
  }

  /** A query made only of white space and no location filter show the whole list, unchanged. */
  lemma BlankSearchKeepsAll(list: seq<Movie>, query: string)
    requires forall k :: 0 <= k < |query| ==> IsWhitespace(query[k])
    ensures Filtered(list, query, "") == list
  {
    var lowered := Lower(query);
    assert forall k :: 0 <= k < |lowered| ==> IsWhitespace(lowered[k]);
    assert SearchTerm(query) == "";
    var p := (m: Movie) => Matches(m, "", "");
    forall i | 0 <= i < |list| ensures p(list[i]) {
      ContainsEmpty(Lower(TitleOrEmpty(list[i].Title)));
    }
    KeepAllIsIdentity(list, p);
  }

  /** Searching the result again with the same inputs gives the same result. */
  lemma FilteredIdempotent(list: seq<Movie>, query: string, location: string)
    ensures Filtered(Filtered(list, query, location), query, location) == Filtered(list, query, location)
  {
    var term := SearchTerm(query);
    KeepIdempotent(list, (m: Movie) => Matches(m, term, location));
  }

  /** The title test ignores the case of ASCII letters on both sides. */
  lemma MatchIgnoresCase(movie: Movie, query: string, location: string, other: string)
    requires Lower(other) == Lower(TitleOrEmpty(movie.Title))
    ensures Matches(movie, SearchTerm(query), location) == Matches(movie.(Title := Some(other)), SearchTerm(query), location)
    ensures SearchTerm(Lower(query)) == SearchTerm(query)
  {
    LowerIdempotent(query);
  }

  /** Two records that differ only in title and location. */
  function Sample(title: string, location: string): Movie {
    Movie(Some(title), None, None, None, Some(location), None, None)
  }

  /** Searching "du" over "Dune" and "Arrival" finds "Dune" only. */
  lemma SampleTitleSearch()
    ensures Filtered([Sample("Dune", "North"), Sample("Arrival", "South")], "du", "") == [Sample("Dune", "North")]
  {
    var dune, arrival := Sample("Dune", "North"), Sample("Arrival", "South");
    var list := [dune, arrival];
    SampleTerms();
    var byTitle := (m: Movie) => Matches(m, "du", "");
    assert byTitle(dune) && !byTitle(arrival);
    assert Keep([arrival], byTitle) == [] by {
      assert [arrival][1..] == [];
    }
    assert Keep(list, byTitle) == [dune] + Keep([arrival], byTitle) by {
      assert list[1..] == [arrival];
    }
  }

  /** The search term for "du", and which of the two lowered titles contain it. */
  lemma SampleTerms()
    ensures SearchTerm("du") == "du"
    ensures Contains(Lower("Dune"), "du") && !Contains(Lower("Arrival"), "du")
  {
    assert Lower("du") == "du";
    assert Trim("du") == "du" by {
      assert !IsWhitespace('d') && !IsWhitespace('u');
    }
    SampleTitles();
    assert OccursAt("dune", "du", 0);
    DuNotInArrival();
  }

  /** The two sample titles, lowered. */
  lemma SampleTitles()
    ensures Lower("Dune") == "dune" && Lower("Arrival") == "arrival"
  {
  }

  /** "du" occurs nowhere in "arrival". */
  lemma DuNotInArrival()
    ensures !Contains("arrival", "du")
  {
    forall i | 0 <= i <= 5 ensures !OccursAt("arrival", "du", i) {
      assert "arrival"[i..i + 2][0] == "arrival"[i];
    }
  }

  /** Choosing the location "South" over "Dune" and "Arrival" finds "Arrival" only. */
  lemma SampleLocationSearch()
    ensures Filtered([Sample("Dune", "North"), Sample("Arrival", "South")], "", "South") == [Sample("Arrival", "South")]
  {
    var dune, arrival := Sample("Dune", "North"), Sample("Arrival", "South");
    var list := [dune, arrival];
    assert SearchTerm("") == "";
    ContainsEmpty(Lower("Arrival"));
    var byPlace := (m: Movie) => Matches(m, "", "South");
    assert !byPlace(dune) && byPlace(arrival);
    assert Keep([arrival], byPlace) == [arrival] + Keep([], byPlace) by {
      assert [arrival][1..] == [];
    }
    assert Keep(list, byPlace) == Keep([arrival], byPlace) by {
      assert list[1..] == [arrival];
    }
  }
}
