/**
 * The page's state and the handlers that change it: the catalog, the favorites and
 * their stored copy, the active tab, the search inputs, the grid, the modal and the theme.
 */
module App {
  import opened Wrappers
  import opened Movies
  import opened Search
  import opened Locations
  import opened Render

  /** The page starts dark exactly when the stored theme is the string "dark". */
  predicate StoredDark(stored: Option<string>) {
    stored == Some("dark")
  }

  /** The string the theme toggle stores for a mode. */
  function ThemeName(dark: bool): (r: string)
    ensures r == "dark" || r == "light"
    ensures StoredDark(Some(r)) == dark
  {
    if dark then "dark" else "light"
  }

  /**
   * A toggle's stored string reloads as the mode it was written for, and a stored
   * "dark" or "light" is exactly what the toggle would write for the mode it loads as:
   * two toggles therefore restore both the mode and such a stored string.
   */
  lemma ThemeSurvivesReload(stored: Option<string>, dark: bool)
    ensures StoredDark(Some(ThemeName(dark))) == dark
    ensures stored == Some("dark") || stored == Some("light") ==> Some(ThemeName(StoredDark(stored))) == stored
  {
  }

  class Page {
    var allMovies: seq<Movie>
    var favorites: seq<Movie>
    var tab: Tab
    var dark: bool
    /** The search box's text. */
    var query: string
    /** The location selector's value; "" is "all locations". */
    var location: string
    /** The selector's options after "all locations". */
    var options: seq<string>
    var grid: Grid
    var modalOpen: bool
    /** The movie the modal's favorite button toggles, once the modal has been opened. */
    var modalMovie: Option<Movie>
    var detail: Detail
    var buttonLabel: string
    /** localStorage 'favorites', decoded. */
    var storedFavorites: Option<seq<Movie>>
    /** localStorage 'cineapp_theme'. */
    var storedTheme: Option<string>

    /** Reloading the page would restore the same favorites and the same theme. */
    ghost predicate StorageMirrored()
      reads this`favorites, this`storedFavorites, this`dark, this`storedTheme
    {
      favorites == LoadFavorites(storedFavorites) && dark == StoredDark(storedTheme)
    }

    /** The selector offers the catalog's locations and holds one of its entries. */
    ghost predicate SelectorValid()
      reads this`options, this`allMovies, this`location
    {
      options == LocationOptions(allMovies) && (location == "" || location in options)
    }

    /** Every star on the grid agrees with the favorites. */
    ghost predicate GridValid()
      reads this`grid, this`favorites
    {
      StarsAgree(grid, favorites)
    }

    /** The modal shows the movie its button toggles. */
    ghost predicate ModalValid()
      reads this`modalOpen, this`modalMovie, this`detail
    {
      (modalOpen ==> modalMovie.Some?) && (modalMovie.Some? ==> detail == DetailOf(modalMovie.value))
    }

    ghost predicate Valid()
      reads this
    {
      StorageMirrored() && SelectorValid() && GridValid() && ModalValid()
    }

    /** Page load: favorites and theme read back from storage, no catalog yet, modal hidden. */
    constructor (savedFavorites: Option<seq<Movie>>, savedTheme: Option<string>, initialTab: Tab)
      ensures Valid()
      ensures favorites == LoadFavorites(savedFavorites) && storedFavorites == savedFavorites
      ensures dark <==> savedTheme == Some("dark")
      ensures storedTheme == savedTheme
      ensures allMovies == [] && options == [] && tab == initialTab
      ensures query == "" && location == "" && grid == Markup
      ensures !modalOpen && modalMovie == None
    {
      allMovies := [];
      favorites := LoadFavorites(savedFavorites);
      storedFavorites := savedFavorites;
      tab := initialTab;
      dark := StoredDark(savedTheme);
      storedTheme := savedTheme;
      query := "";
      location := "";
      options := [];
      grid := Markup;
      modalOpen := false;
      modalMovie := None;
      detail := Detail("", "", "", "", "", "");
      buttonLabel := "";
    }

    /** Writes the favorites to storage. */
    method SaveFavorites()
      modifies this`storedFavorites
      ensures storedFavorites == Some(favorites)
    {
      storedFavorites := Some(favorites);
    }

    /** Marks the favorites tab active for "favorites" and the catalog tab for any other name. */
    method SetActiveTab(name: string)
      modifies this`tab
      ensures tab == Favorites <==> name == "favorites"
    {
      if name == "favorites" {
        tab := Favorites;
      } else {
        tab := Catalog;
      }
    }

    /** Redraws the grid from `list`, one card per record, starred by the current favorites. */
    method DisplayMovies(list: seq<Movie>)
      modifies this`grid
      ensures grid == GridOf(list, favorites)
    {
      if list == [] {
        grid := NoResults;
        return;
      }
      var cards: seq<Card> := [];
      var i := 0;
      while i < |list|
        invariant 0 <= i <= |list|
        invariant |cards| == i
        invariant forall k :: 0 <= k < i ==> cards[k] == CardOf(list[k], favorites)
      {
        var movie := list[i];
        var isFavorite := HasId(favorites, movie.imdbID);
        cards := cards + [Card(movie, isFavorite, Shown(movie.Poster, NoImage), "Género: " + Shown(movie.Type, Unknown))];
        i := i + 1;
      }
      grid := Cards(cards);
    }

    /** Redraws the active tab's whole list, without the search inputs. */
    method UpdateUIBasedOnTab()
      modifies this`grid
      ensures grid == GridOf(ActiveList(tab, favorites, allMovies), favorites)
    {
      if tab == Favorites {
        DisplayMovies(favorites);
      } else {
        DisplayMovies(allMovies);
      }
    }

    /** Redraws the grid from the active list narrowed by the search box and the selector. */
    method FilterMovies()
      modifies this`grid
      ensures grid == GridOf(Filtered(ActiveList(tab, favorites, allMovies), query, location), favorites)
    {
      var listToFilter := if tab == Favorites then favorites else allMovies;
      var filtered := Filtered(listToFilter, query, location);
      DisplayMovies(filtered);
    }

    /** Rebuilds the selector's options; rebuilding selects "all locations" again. */
    method PopulateFilters()
      modifies this`options, this`location
      ensures options == LocationOptions(allMovies)
      ensures location == ""
    {
      options := LocationOptions(allMovies);
      location := "";
    }

    /** A successful fetch: a non-array body becomes an empty catalog. */
    method LoadMovies(data: Payload)
      requires Valid()
      modifies this`allMovies, this`options, this`location, this`grid
      ensures Valid()
      ensures allMovies == CatalogOf(data)
      ensures options == LocationOptions(allMovies) && location == ""
      ensures grid == GridOf(ActiveList(tab, favorites, allMovies), favorites)
    {
      allMovies := if data.MovieArray? then data.movies else [];
      PopulateFilters();
      UpdateUIBasedOnTab();
      GridStarsAgree(ActiveList(tab, favorites, allMovies), favorites);
    }

    /** Shows `movie` in the modal, with the button labelled by its current favorite status. */
    method OpenModal(movie: Movie)
      requires Valid()
      modifies this`detail, this`buttonLabel, this`modalMovie, this`modalOpen
      ensures Valid()
      ensures detail == DetailOf(movie)
      ensures buttonLabel == LabelFor(HasId(favorites, movie.imdbID))
      ensures modalMovie == Some(movie) && modalOpen
    {
      detail := DetailOf(movie);
      var isFavorite := HasId(favorites, movie.imdbID);
      buttonLabel := if isFavorite then RemoveLabel else AddLabel;
      modalMovie := Some(movie);
      modalOpen := true;
    }

    /** Hides the modal; closing a closed modal changes nothing. */
    method CloseModalNow()
      requires Valid()
      modifies this`modalOpen
      ensures Valid()
      ensures !modalOpen
    {
      modalOpen := false;
    }

    /**
     * Adds `movie` to the favorites or removes every entry with its id, stores the
     * result, redraws the active tab, and refreshes the modal's label when the modal
     * is open on a movie of the same title.
     */
    method ToggleFavorite(movie: Movie)
      requires Valid()
      modifies this`favorites, this`storedFavorites, this`grid, this`buttonLabel
      ensures Valid()
      ensures favorites == Toggle(old(favorites), movie)
      ensures storedFavorites == Some(favorites)
      ensures grid == GridOf(ActiveList(tab, favorites, allMovies), favorites)
      ensures buttonLabel == RefreshedLabel(modalOpen, detail.title, movie, favorites, old(buttonLabel))
    {
      favorites := Toggle(favorites, movie);
      SaveFavorites();
      UpdateUIBasedOnTab();
      GridStarsAgree(ActiveList(tab, favorites, allMovies), favorites);
      if modalOpen && Some(detail.title) == movie.Title {
        var nowFavorite := HasId(favorites, movie.imdbID);
        buttonLabel := if nowFavorite then RemoveLabel else AddLabel;
      }
    }

    /** The modal's favorite button: toggles the movie the modal was opened on. */
    method PressFavoriteButton()
      requires Valid() && modalOpen
      modifies this`favorites, this`storedFavorites, this`grid, this`buttonLabel
      ensures Valid()
      ensures favorites == Toggle(old(favorites), modalMovie.value)
      ensures storedFavorites == Some(favorites)
      ensures grid == GridOf(ActiveList(tab, favorites, allMovies), favorites)
      ensures buttonLabel == RefreshedLabel(modalOpen, detail.title, modalMovie.value, favorites, old(buttonLabel))
      ensures modalMovie.value.Title.Some? ==> buttonLabel == LabelFor(!HasId(old(favorites), modalMovie.value.imdbID))
    {
      ToggleFavorite(modalMovie.value);
      if modalMovie.value.Title.Some? {
        LabelFollowsOwnToggle(detail.title, modalMovie.value, old(favorites), old(buttonLabel));
      }
    }

    /** Flips the theme and stores "dark" or "light" to match. */
    method ToggleTheme()
      requires Valid()
      modifies this`dark, this`storedTheme
      ensures Valid()
      ensures dark == !old(dark)
      ensures storedTheme == Some(ThemeName(dark))
    {
      dark := !dark;
      storedTheme := Some(if dark then "dark" else "light");
    }

    /** A click on a tab: that tab becomes active and its list is searched with the inputs kept as they are. */
    method SelectTab(name: string)
      requires Valid()
      modifies this`tab, this`grid
      ensures Valid()
      ensures tab == Favorites <==> name == "favorites"
      ensures grid == GridOf(Filtered(ActiveList(tab, favorites, allMovies), query, location), favorites)
    {
      SetActiveTab(name);
      FilterMovies();
      GridStarsAgree(Filtered(ActiveList(tab, favorites, allMovies), query, location), favorites);
      assert StarsAgree(grid, favorites);
    }

    /** Typing in the search box. */
    method InputSearch(text: string)
      requires Valid()
      modifies this`query, this`grid
      ensures Valid()
      ensures query == text
      ensures grid == GridOf(Filtered(ActiveList(tab, favorites, allMovies), query, location), favorites)
    {
      query := text;
      FilterMovies();
      GridStarsAgree(Filtered(ActiveList(tab, favorites, allMovies), query, location), favorites);
    }

    /** Picking an entry of the location selector: "all locations" or one of the options. */
    method ChangeLocation(choice: string)
      requires Valid()
      requires choice == "" || choice in options
      modifies this`location, this`grid
      ensures Valid()
      ensures location == choice
      ensures grid == GridOf(Filtered(ActiveList(tab, favorites, allMovies), query, location), favorites)
    {
      location := choice;
      FilterMovies();
      GridStarsAgree(Filtered(ActiveList(tab, favorites, allMovies), query, location), favorites);
    }
  }
}
