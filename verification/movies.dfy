/**
 * A catalog record and the favorites list: membership by `imdbID`, the toggle
 * that adds or removes a record, and what browser storage hands back at start-up.
 */
module Movies {
  import opened Wrappers
  import opened Seqs

  /** One entry of the catalog; every field may be missing from the JSON the API sends. */
  datatype Movie = Movie(
    Title: Option<string>,
    Poster: Option<string>,
    Type: Option<string>,
    Year: Option<string>,
    Ubication: Option<string>,
    description: Option<string>,
    imdbID: Option<string>)

  /** Some favorite carries the id; two missing ids compare equal, as two undefined values do in JavaScript. */
  predicate HasId(favs: seq<Movie>, id: Option<string>) {
    exists f | f in favs :: f.imdbID == id
  }

  /** The favorites with every entry carrying the id removed, the rest kept in order. */
  function WithoutId(favs: seq<Movie>, id: Option<string>): (r: seq<Movie>)
    ensures !HasId(r, id)
    ensures forall other :: other != id ==> (HasId(r, other) <==> HasId(favs, other))
  {
    var p := (f: Movie) => f.imdbID != id;
    var r := Keep(favs, p);
    KeepSpec(favs, p);
    assert forall m :: m in r <==> multiset(r)[m] > 0;
    assert forall m :: m in favs <==> multiset(favs)[m] > 0;
    r
  }

  /** Removes every entry with the movie's id if there is one, appends the movie otherwise. */
  function Toggle(favs: seq<Movie>, movie: Movie): seq<Movie> {
    if HasId(favs, movie.imdbID) then WithoutId(favs, movie.imdbID) else favs + [movie]
  }

  /** No two entries share an `imdbID`. */
  predicate UniqueIds(favs: seq<Movie>) {
    forall i, j :: 0 <= i < j < |favs| ==> favs[i].imdbID != favs[j].imdbID
  }

  /** A toggle flips whether the movie's id is a favorite and leaves every other id's membership alone. */
  lemma ToggleFlipsMembership(favs: seq<Movie>, movie: Movie)
    ensures HasId(Toggle(favs, movie), movie.imdbID) == !HasId(favs, movie.imdbID)
    ensures forall id :: id != movie.imdbID ==> (HasId(Toggle(favs, movie), id) <==> HasId(favs, id))
  {
    if !HasId(favs, movie.imdbID) {
      assert movie in favs + [movie];
    }
  }

  /** Toggling an absent movie appends it, and toggling it again gives back the very same list. */
  lemma ToggleAbsentRoundTrip(favs: seq<Movie>, movie: Movie)
    requires !HasId(favs, movie.imdbID)
    ensures Toggle(favs, movie) == favs + [movie]
    ensures Toggle(Toggle(favs, movie), movie) == favs
  {
    var added := favs + [movie];
    assert movie in added;
    var p := (f: Movie) => f.imdbID != movie.imdbID;
    KeepConcat(favs, [movie], p);
    assert forall i :: 0 <= i < |favs| ==> p(favs[i]) by {
      forall i | 0 <= i < |favs| ensures p(favs[i]) {
        assert favs[i] in favs;
      }
    }
    KeepAllIsIdentity(favs, p);
    assert Keep([movie], p) == [] by {
      assert [movie][1..] == [];
    }
    assert WithoutId(added, movie.imdbID) == Keep(added, p);
  }

  /**
   * Toggling a present movie removes every entry with its id and keeps all the
   * other entries, with their multiplicities, in their original order.
   */
  lemma TogglePresentRemoves(favs: seq<Movie>, movie: Movie)
    requires HasId(favs, movie.imdbID)
    ensures !HasId(Toggle(favs, movie), movie.imdbID)
    ensures IsSubsequence(Toggle(favs, movie), favs)
    ensures forall m: Movie :: m.imdbID != movie.imdbID ==> multiset(Toggle(favs, movie))[m] == multiset(favs)[m]
  {
    KeepSpec(favs, (f: Movie) => f.imdbID != movie.imdbID);
  }

  /** Dropping entries cannot create a repeated id. */
  lemma {:induction false} WithoutIdKeepsUniqueIds(favs: seq<Movie>, id: Option<string>)
    requires UniqueIds(favs)
    ensures UniqueIds(WithoutId(favs, id))
  {
    var r := WithoutId(favs, id);
    KeepSpec(favs, (f: Movie) => f.imdbID != id);
    forall i, j | 0 <= i < j < |r| ensures r[i].imdbID != r[j].imdbID {
      SubsequenceIndices(r, favs, i, j);
    }
  }

  /** Two positions of a subsequence come from two increasing positions of the sequence. */
  lemma {:induction false} SubsequenceIndices(r: seq<Movie>, s: seq<Movie>, i: int, j: int)
    requires IsSubsequence(r, s) && 0 <= i < j < |r|
    ensures exists a, b :: 0 <= a < b < |s| && s[a] == r[i] && s[b] == r[j]
    decreases |s|
  {
    if r[0] == s[0] && IsSubsequence(r[1..], s[1..]) {
      if i == 0 {
        assert r[j] == r[1..][j - 1];
        SubsequenceMember(r[1..], s[1..], j - 1);
        var b :| 0 <= b < |s[1..]| && s[1..][b] == r[j];
        assert s[0] == r[0] && s[b + 1] == r[j];
      } else {
        SubsequenceIndices(r[1..], s[1..], i - 1, j - 1);
        var a, b :| 0 <= a < b < |s[1..]| && s[1..][a] == r[1..][i - 1] && s[1..][b] == r[1..][j - 1];
        assert s[a + 1] == r[i] && s[b + 1] == r[j];
      }
    } else {
      SubsequenceIndices(r, s[1..], i, j);
      var a, b :| 0 <= a < b < |s[1..]| && s[1..][a] == r[i] && s[1..][b] == r[j];
      assert s[a + 1] == r[i] && s[b + 1] == r[j];
    }
  }

  /** Every element of a subsequence occurs in the sequence. */
  lemma {:induction false} SubsequenceMember(r: seq<Movie>, s: seq<Movie>, i: int)
    requires IsSubsequence(r, s) && 0 <= i < |r|
    ensures exists b :: 0 <= b < |s| && s[b] == r[i]
    decreases |s|
  {
    if r[0] == s[0] && IsSubsequence(r[1..], s[1..]) {
      if i == 0 {
        assert s[0] == r[0];
      } else {
        SubsequenceMember(r[1..], s[1..], i - 1);
        var b :| 0 <= b < |s[1..]| && s[1..][b] == r[1..][i - 1];
        assert s[b + 1] == r[i];
      }
    } else {
      SubsequenceMember(r, s[1..], i);
      var b :| 0 <= b < |s[1..]| && s[1..][b] == r[i];
      assert s[b + 1] == r[i];
    }
  }

  /** A toggle keeps the favorites free of repeated ids. */
  lemma ToggleKeepsUniqueIds(favs: seq<Movie>, movie: Movie)
    requires UniqueIds(favs)
    ensures UniqueIds(Toggle(favs, movie))
  {
    if HasId(favs, movie.imdbID) {
      WithoutIdKeepsUniqueIds(favs, movie.imdbID);
    } else {
      var r := favs + [movie];
      forall i, j | 0 <= i < j < |r| ensures r[i].imdbID != r[j].imdbID {
        if j == |favs| {
          assert r[i] in favs;
        }
      }
    }
  }

  /** The favorites after toggling each movie of `movies` in turn. */
  function ToggleAll(favs: seq<Movie>, movies: seq<Movie>): seq<Movie>
    decreases |movies|
  {
    if movies == [] then favs else ToggleAll(Toggle(favs, movies[0]), movies[1..])
  }

  /** No sequence of toggles introduces a repeated id. */
  lemma {:induction false} ToggleAllKeepsUniqueIds(favs: seq<Movie>, movies: seq<Movie>)
    requires UniqueIds(favs)
    ensures UniqueIds(ToggleAll(favs, movies))
    decreases |movies|
  {
    if movies != [] {
      ToggleKeepsUniqueIds(favs, movies[0]);
      ToggleAllKeepsUniqueIds(Toggle(favs, movies[0]), movies[1..]);
    }
  }

  /** Toggling the same movie twice always restores whether its id is a favorite. */
  lemma ToggleTwiceRestoresMembership(favs: seq<Movie>, movie: Movie)
    ensures HasId(Toggle(Toggle(favs, movie), movie), movie.imdbID) == HasId(favs, movie.imdbID)
  {
    ToggleFlipsMembership(favs, movie);
    ToggleFlipsMembership(Toggle(favs, movie), movie);
  }

  /** The favorites read back at start-up: a missing entry gives the empty list, a stored list itself. */
  function LoadFavorites(stored: Option<seq<Movie>>): (r: seq<Movie>)
    ensures stored.None? ==> r == []
    ensures stored.Some? ==> r == stored.value
  {
    match stored
    case None => []
    case Some(favs) => favs
  }

  /** What the API answered with, once decoded. */
  datatype Payload = MovieArray(movies: seq<Movie>) | NotAnArray

  /** The catalog taken from the API's answer: the array itself, or the empty list for anything else. */
  function CatalogOf(data: Payload): (r: seq<Movie>)
    ensures data.NotAnArray? ==> r == []
    ensures data.MovieArray? ==> r == data.movies
  {
    if data.MovieArray? then data.movies else []
  }
}
