/**
 * What the page draws: the grid of cards, the detail modal and the label of its
 * favorite button, with the fallbacks shown for missing fields.
 */
module Render {
  import opened Wrappers
  import opened Movies

  const NoImage := "https://placehold.co/220x320/374151/FFFFFF?text=No+Image"
  const Unknown := "Desconocido"
  const NoDescription := "Sin descripción disponible"
  const AddLabel := "Añadir a favoritos"
  const RemoveLabel := "Quitar de favoritos"

  /** A field counts as given when present and not the empty string, as a JavaScript truthiness test decides. */
  predicate Truthy(x: Option<string>) {
    x.Some? && x.value != ""
  }

  /** The field when it is given, the fallback otherwise. */
  function Shown(x: Option<string>, fallback: string): (r: string)
    ensures Truthy(x) ==> r == x.value
    ensures !Truthy(x) ==> r == fallback
    ensures fallback != "" ==> r != ""
  {
    if Truthy(x) then x.value else fallback
  }

  /** The text `textContent` holds after being assigned the field: a missing value reads back as "". */
  function TextContent(x: Option<string>): (r: string)
    ensures x.Some? ==> r == x.value
    ensures x.None? ==> r == ""
  {
    if x.Some? then x.value else ""
  }

  /** The favorite button's label: "remove" exactly for a favorite, "add" otherwise. */
  function LabelFor(isFavorite: bool): (r: string)
    ensures r == RemoveLabel <==> isFavorite
    ensures r == AddLabel <==> !isFavorite
  {
    if isFavorite then RemoveLabel else AddLabel
  }

  /** One card of the grid. */
  datatype Card = Card(movie: Movie, favorite: bool, poster: string, genre: string)

  /** The grid: still the page's initial markup, the "no results" notice, or cards. */
  datatype Grid = Markup | NoResults | Cards(cards: seq<Card>)

  /** The card for `movie`, starred when its id is among the favorites. */
  function CardOf(movie: Movie, favorites: seq<Movie>): (c: Card)
    ensures c.movie == movie
    ensures c.favorite <==> HasId(favorites, movie.imdbID)
    ensures c.poster == Shown(movie.Poster, NoImage) && c.poster != ""
    ensures c.genre == "Género: " + Shown(movie.Type, Unknown)
  {
    Card(movie, HasId(favorites, movie.imdbID), Shown(movie.Poster, NoImage), "Género: " + Shown(movie.Type, Unknown))
  }

  /** The grid `displayMovies(list)` leaves: the notice for an empty list, else one card per record in order. */
  function GridOf(list: seq<Movie>, favorites: seq<Movie>): (g: Grid)
    ensures g.NoResults? <==> list == []
    ensures g.Cards? <==> list != []
    ensures g.Cards? ==> |g.cards| == |list| && forall i :: 0 <= i < |list| ==> g.cards[i] == CardOf(list[i], favorites)
  {
    if list == [] then NoResults else Cards(seq(|list|, i requires 0 <= i < |list| => CardOf(list[i], favorites)))
  }

  /** Every star on the grid agrees with the favorites. */
  predicate StarsAgree(grid: Grid, favorites: seq<Movie>) {
    grid.Cards? ==> forall i :: 0 <= i < |grid.cards| ==> grid.cards[i].favorite == HasId(favorites, grid.cards[i].movie.imdbID)
  }

  /** A freshly drawn grid agrees with the favorites it was drawn from. */
  lemma GridStarsAgree(list: seq<Movie>, favorites: seq<Movie>)
    ensures StarsAgree(GridOf(list, favorites), favorites)
  {
  }

  /** The detail modal's texts. */
  datatype Detail = Detail(image: string, title: string, genre: string, year: string, location: string, description: string)

  /** `openModal`'s texts: each missing field replaced by its placeholder. */
  function DetailOf(movie: Movie): Detail {
    Detail(
      Shown(movie.Poster, NoImage),
      TextContent(movie.Title),
      "Género: " + Shown(movie.Type, Unknown),
      "Año: " + Shown(movie.Year, Unknown),
      "Ubicación: " + Shown(movie.Ubication, Unknown),
      Shown(movie.description, NoDescription))
  }

  /** The modal shows each given field and a fixed placeholder for each missing one. */
  lemma DetailFallbacks(movie: Movie)
    ensures DetailOf(movie).image != "" && DetailOf(movie).description != ""
    ensures Truthy(movie.Poster) ==> DetailOf(movie).image == movie.Poster.value
    ensures !Truthy(movie.Poster) ==> DetailOf(movie).image == NoImage
    ensures DetailOf(movie).title == TextContent(movie.Title)
    ensures Truthy(movie.Type) ==> DetailOf(movie).genre == "Género: " + movie.Type.value
    ensures !Truthy(movie.Type) ==> DetailOf(movie).genre == "Género: " + Unknown
    ensures Truthy(movie.Year) ==> DetailOf(movie).year == "Año: " + movie.Year.value
    ensures !Truthy(movie.Year) ==> DetailOf(movie).year == "Año: " + Unknown
    ensures Truthy(movie.Ubication) ==> DetailOf(movie).location == "Ubicación: " + movie.Ubication.value
    ensures !Truthy(movie.Ubication) ==> DetailOf(movie).location == "Ubicación: " + Unknown
    ensures Truthy(movie.description) ==> DetailOf(movie).description == movie.description.value
    ensures !Truthy(movie.description) ==> DetailOf(movie).description == NoDescription
  {
  }

  /**
   * The button label after `movie` was toggled: refreshed from the new favorites when
   * the modal is open and shows the movie's title, left as it was otherwise.
   */
  function RefreshedLabel(open: bool, shownTitle: string, movie: Movie, favorites: seq<Movie>, current: string): (r: string)
    ensures open && Some(shownTitle) == movie.Title ==> r == LabelFor(HasId(favorites, movie.imdbID))
    ensures !(open && Some(shownTitle) == movie.Title) ==> r == current
  {
    if open && Some(shownTitle) == movie.Title then LabelFor(HasId(favorites, movie.imdbID)) else current
  }

  /** With the modal open on the toggled movie's title, the label follows the toggle. */
  lemma LabelFollowsOwnToggle(shownTitle: string, movie: Movie, favorites: seq<Movie>, current: string)
    requires movie.Title == Some(shownTitle)
    ensures RefreshedLabel(true, shownTitle, movie, Toggle(favorites, movie), current) == LabelFor(!HasId(favorites, movie.imdbID))
  {
    ToggleFlipsMembership(favorites, movie);
  }

  /**
   * A movie without a title shows "" in the modal, which never equals its missing
   * title: toggling it from its own modal leaves a label that no longer matches.
   */
  lemma UntitledMovieLabelGoesStale(movie: Movie, favorites: seq<Movie>)
    requires movie.Title.None?
    ensures var current := LabelFor(HasId(favorites, movie.imdbID));
            var after := Toggle(favorites, movie);
            RefreshedLabel(true, DetailOf(movie).title, movie, after, current) != LabelFor(HasId(after, movie.imdbID))
  {
    ToggleFlipsMembership(favorites, movie);
  }

  /** Toggling another movie with the same title rewrites the label from that movie's membership. */
  lemma SameTitleOtherMovieRewritesLabel(shown: Movie, other: Movie, favorites: seq<Movie>, current: string)
    requires shown.Title.Some? && other.Title == shown.Title
    ensures RefreshedLabel(true, DetailOf(shown).title, other, Toggle(favorites, other), current)
            == LabelFor(!HasId(favorites, other.imdbID))
  {
    ToggleFlipsMembership(favorites, other);
  }
}
