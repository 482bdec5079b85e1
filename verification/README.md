# Cartelera de cine: a model of the page's state

The page shows a movie catalog fetched from a remote API as a grid of cards. It
offers a search box over titles, a location selector, a favorites tab persisted in
`localStorage`, a detail modal with an add/remove-favorite button, and a light/dark
theme that is also persisted. All of its logic lives in `script.js`. This project
separates that logic from the DOM and `fetch` plumbing and models it in Dafny:

- `wrappers.dfy` (`Wrappers`): `Option`, for record fields that may be missing from the JSON.
- `seqs.dfy` (`Seqs`): `Array.prototype.filter` as `Keep`, with its meaning. The result is an order-preserving subsequence that holds every passing element exactly as often as the input does, and nothing else.
- `text.dfy` (`Text`): `toLowerCase` on ASCII, `trim` with JavaScript's whitespace set, `includes`, and the string order used by `sort()`.
- `movies.dfy` (`Movies`): the catalog record and favorites membership by `imdbID`. It also holds the toggle with its round-trip and no-duplicate-ids properties, what storage gives back at start-up, and the non-array rule for the API's payload.
- `search.dfy` (`Search`): the tab's source list and the search/location filter.
- `locations.dfy` (`Locations`): the options of the location selector. They are sorted, distinct and non-empty, and they are exactly the catalog's locations.
- `render.dfy` (`Render`): cards, the grid and its "no results" case, the modal's texts with their placeholders, and the favorite button's label with its refresh rule.
- `app.dfy` (`App`): the class `Page`, which holds the page's state and the handlers that change it. `Page.Valid()` states the following facts, and every handler keeps them:
  - reloading would restore the same favorites and theme;
  - the selector offers exactly the catalog's locations;
  - every card's star agrees with the favorites;
  - the modal shows the movie its button toggles.

Record fields keep the API's wire names (`Title`, `Poster`, `Type`, `Year`,
`Ubication`, `description`, `imdbID`), because the backend fixes them. Browser
storage is modelled by two fields, `storedFavorites` and `storedTheme`. Each holds
the last value written, or what was there at load time.

Four behaviours of the code that a reader might not expect are kept as written:
- Stored favorites are not checked. A missing entry, or a stored `null`, `false`, `0` or `""`, gives the empty list. A stored string that does not parse throws at load. A stored value that parses but is not an array, such as `{}`, is kept and throws at the first array method called on it: `forEach` when the favorites tab is drawn (script.js:75, 173), `filter` when the favorites tab is searched (script.js:162), otherwise `some` (script.js:76, 116, 129). Inside `loadMovies` the error is caught and its message replaces the grid (script.js:59-61).
- After a toggle, the grid shows the whole active list without the search inputs applied.
- The modal's label is refreshed when the modal's title equals the toggled movie's `Title`, not its `imdbID`.
- Favorites read back from storage are not deduplicated. The model proves that toggles keep a duplicate-free list duplicate-free.

## Model

| member | source | states |
|---|---|---|
| Seqs.KeepSpec | script.js:162-166 | A filter's result is a subsequence of its input in input order. Every element of it passes. Every passing element is kept exactly as often as it occurs, and no failing one is kept. |
| Seqs.KeepAllIsIdentity | script.js:162-166 | A filter that every element passes returns its input unchanged. |
| Seqs.KeepConcat | script.js:131 | Filtering `s + t` is filtering `s` followed by filtering `t`. |
| Seqs.KeepIdempotent | script.js:162-166 | Filtering a filter's result again with the same test changes nothing. |
| Text.LowerChar | script.js:158 | A lowered character is never an ASCII capital. It is whitespace exactly when the original is. Each ASCII capital becomes its own lower-case letter (code plus 32). Characters that are not ASCII capitals stay as they are. |
| Text.Lower | script.js:158 | `toLowerCase` keeps the length and lowers each character in place. |
| Text.LowerIdempotent | script.js:163 | Lower-casing a lowered string changes nothing. |
| Text.StartOfText | script.js:158 | The text starts after the maximal run of leading whitespace. |
| Text.EndOfText | script.js:158 | The text ends before the maximal run of trailing whitespace. |
| Text.Trim | script.js:158 | `trim` returns a contiguous slice of its input with only whitespace cut away on either side. The slice neither starts nor ends with whitespace. It is empty exactly when the input is all whitespace. |
| Text.ContainsEmpty | script.js:163 | Every title contains the empty term, so an empty search keeps everything. |
| Text.LessIrreflexive | script.js:147 | No string sorts before itself. |
| Text.LessAsymmetric | script.js:147 | Two strings never sort before each other. |
| Text.LessTransitive | script.js:147 | The string order used by `sort()` is transitive. |
| Text.LessTotal | script.js:147 | Any two different strings are ordered one way or the other. |
| Movies.HasId | script.js:76 | The `some` membership test by `imdbID`, also used at lines 116, 129 and 140 (two missing ids compare equal). It has no contract of its own. Its meaning is stated in the rows for Movies.WithoutId and Movies.ToggleFlipsMembership. |
| Movies.Toggle | script.js:129-134 | The favorites list update of `toggleFavorite`. It has no contract of its own. Its meaning is stated in the rows for Movies.ToggleFlipsMembership, Movies.ToggleAbsentRoundTrip, Movies.TogglePresentRemoves and Movies.ToggleKeepsUniqueIds. |
| Movies.WithoutId | script.js:131 | After `favorites.filter(f => f.imdbID !== id)`, no entry has the id. Every other id is a favorite exactly when it was before. |
| Movies.ToggleFlipsMembership | script.js:129-134 | A toggle flips whether the movie's `imdbID` is among the favorites and leaves every other id's membership alone. |
| Movies.ToggleAbsentRoundTrip | script.js:129-134 | If no favorite has the movie's id, the toggle gives `old + [movie]`, and a second toggle of the same movie gives back the original list exactly. |
| Movies.TogglePresentRemoves | script.js:129-131 | If the id is present, no entry has it after the toggle. The rest is a subsequence of the old list in its original order, with every other entry kept as often as before. |
| Movies.WithoutIdKeepsUniqueIds | script.js:131 | Removing entries by id cannot create two entries with the same id. |
| Movies.ToggleKeepsUniqueIds | script.js:129-134 | A favorites list with no repeated `imdbID` keeps none after a toggle. |
| Movies.ToggleAllKeepsUniqueIds | script.js:129-134 | The same holds after any sequence of toggles. |
| Movies.ToggleTwiceRestoresMembership | script.js:129-134 | Toggling a movie twice always restores whether its id is a favorite, even when the list order changes. |
| Movies.LoadFavorites | script.js:32 | A missing `favorites` entry (or a falsy stored value, which the model does not distinguish from it) loads as the empty list. A stored list loads as itself. |
| Movies.CatalogOf | script.js:56 | A payload that is not an array becomes the empty catalog. An array is taken as is. |
| Search.SearchTerm | script.js:158 | The lower-cased, trimmed query. It has no contract of its own. Its meaning is stated in the rows for Text.Lower, Text.Trim and Search.MatchIgnoresCase. |
| Search.Matches | script.js:163-165 | A record is kept when its title test and its location test both hold. It has no contract of its own. Its meaning is stated in the row for Search.FilteredIsOrderedSelection. |
| Search.Filtered | script.js:157-166 | The search over the active list. It has no contract of its own. Its meaning is stated in the rows for Search.FilteredIsOrderedSelection, Search.BlankSearchKeepsAll and Search.FilteredIdempotent. |
| Search.ActiveList | script.js:160 | The list searched is the favorites exactly when the favorites tab is active, and the full catalog otherwise. |
| Search.FilteredIsOrderedSelection | script.js:157-166 | The search result is a subsequence of the source list in source order. Every kept movie's lower-cased `Title` (missing read as "") contains the lower-cased, trimmed query, and its `Ubication` equals the location unless the location is "". Every source movie meeting both tests is kept, as often as it occurs. |
| Search.BlankSearchKeepsAll | script.js:158-166 | An empty or all-whitespace query with no location returns the source list unchanged. |
| Search.FilteredIdempotent | script.js:162-166 | Re-searching a result with the same inputs returns it unchanged. |
| Search.MatchIgnoresCase | script.js:158-163 | The title test depends only on the lower-cased title (a missing one read as "") and the lower-cased query. |
| Search.SampleTitleSearch | script.js:162-166 | Over "Dune"/"North" and "Arrival"/"South", the query "du" yields exactly the first record. |
| Search.SampleLocationSearch | script.js:162-166 | Over the same records, the location "South" yields exactly "Arrival". |
| Locations.Insert | script.js:147 | Inserting into a strictly ascending list keeps it strictly ascending and adds exactly the new string. |
| Locations.LocationOptions | script.js:147 | The options are strictly ascending. A string is an option exactly when it is non-empty and some catalog record has it as `Ubication`. |
| Locations.AscendingIsUnique | script.js:147 | Two strictly ascending lists with the same elements are equal, so the options are the sorted distinct locations however they are computed. |
| Locations.OptionsAreDistinct | script.js:147 | No option repeats and none is empty. |
| Render.Shown | script.js:82-88 | A field's fallback form gives the field when it is present and non-empty, and otherwise the fallback. It is never blank when the fallback is not blank. |
| Render.TextContent | script.js:110 | Assigning a missing title to `textContent` reads back as "". |
| Render.LabelFor | script.js:117 | The label is "Quitar de favoritos" exactly for a favorite, and "Añadir a favoritos" exactly otherwise. |
| Render.CardOf | script.js:75-90 | A card shows its movie. It is starred exactly when the movie's id is a favorite. It shows the poster or the placeholder image, and the genre or "Desconocido". |
| Render.GridOf | script.js:68-104 | An empty list draws the "no results" notice. Any other list draws one card per record, in list order. |
| Render.GridStarsAgree | script.js:76-79 | Every star of a freshly drawn grid agrees with the favorites it was drawn from. |
| Render.DetailOf | script.js:108-114 | The modal's texts for a movie. It has no contract of its own. Its meaning is stated in the row for Render.DetailFallbacks. |
| Render.DetailFallbacks | script.js:107-114 | The modal shows each given field, the poster included. Each missing or empty one shows its fixed placeholder: "Desconocido", "Sin descripción disponible" or the placeholder image. |
| Render.RefreshedLabel | script.js:138-142 | After a toggle, the label follows the new favorites when the modal is open and its title equals the toggled movie's `Title`. Otherwise the label is unchanged. |
| Render.LabelFollowsOwnToggle | script.js:139-141 | With the modal open on the toggled movie's title, the label becomes the one for the movie's new, flipped membership. |
| Render.UntitledMovieLabelGoesStale | script.js:110-142 | For a movie without a `Title`, toggling from its own modal leaves a label that contradicts its new membership. The modal shows "", which never equals the missing title. |
| Render.SameTitleOtherMovieRewritesLabel | script.js:139-141 | Toggling a different movie with the same `Title` rewrites the label from that other movie's membership. |
| App.ThemeName | script.js:192 | The toggle stores "dark" or "light", and the stored string reloads as the mode it was written for. |
| App.ThemeSurvivesReload | script.js:186-193 | A stored "dark" or "light" is exactly what the toggle writes for the mode it loads as, so two toggles restore both the mode and such a stored string. |
| App.Page.constructor | script.js:31-32 | At load, favorites come from storage and the catalog is empty. The theme is dark exactly when the stored value is "dark" (lines 186-189). The modal is hidden and the selector is on "all locations". |
| App.Page.SaveFavorites | script.js:35-37 | Storage then holds exactly the current favorites. |
| App.Page.SetActiveTab | script.js:39-47 | The favorites tab becomes active exactly for the name "favorites". |
| App.Page.DisplayMovies | script.js:68-104 | The grid becomes `GridOf(list, favorites)`. The loop builds one card per record with its star. |
| App.Page.UpdateUIBasedOnTab | script.js:171-177 | The grid shows the whole active list, with no search applied. |
| App.Page.FilterMovies | script.js:157-169 | The grid shows the active list narrowed by the current query and location. |
| App.Page.PopulateFilters | script.js:146-155 | The options become the catalog's sorted distinct locations, and the selection returns to "all locations". |
| App.Page.LoadMovies | script.js:56-58 | The catalog becomes the payload, or empty when the payload is not an array. The options are rebuilt and the active list is redrawn. |
| App.Page.OpenModal | script.js:107-121 | The modal shows the movie's texts and opens. Its button is labelled from the movie's current membership and bound to that movie. |
| App.Page.CloseModalNow | script.js:123-125 | The modal is hidden and nothing else changes, so closing twice is the same as closing once. |
| App.Page.ToggleFavorite | script.js:128-143 | The favorites become `Toggle(old, movie)` and are stored. The active list is redrawn unfiltered. The label is refreshed by the title-match rule. The page invariant is kept. |
| App.Page.PressFavoriteButton | script.js:118 | The modal's button toggles the movie the modal was opened on, stores the favorites and redraws the unfiltered active list. Its label follows the title-match refresh rule, so for a titled movie it flips to the label for the movie's new membership. |
| App.Page.ToggleTheme | script.js:190-193 | The mode flips and the stored value becomes "dark" or "light" to match it. |
| App.Page.SelectTab | script.js:196-208 | After a tab click, that tab is active and its list is searched with the query and location kept. |
| App.Page.InputSearch | script.js:211 | Typing updates the query and re-runs the search. |
| App.Page.ChangeLocation | script.js:212 | Choosing "all locations" or one of the options updates the location and re-runs the search. |

## Left out

- The network request, `async`/`await`, HTTP status errors and their message, and the loading indicator (script.js:50-65) are I/O. `LoadMovies` takes the decoded payload of a successful response.
- `JSON.parse`/`JSON.stringify` and `localStorage` itself are not modelled. Storage holds decoded values. A stored favorites string that does not parse makes the page throw at load, and that case is not modelled. Nor are stored values that parse to something other than a list: a falsy one (`null`, `false`, `0`, `""`) loads like a missing entry, and any other (such as `{}`) throws at the first array method called on it: `forEach` when the favorites tab is drawn (script.js:75, 173), `filter` when the favorites tab is searched (script.js:162), otherwise `some` (script.js:76, 116, 129). Inside `loadMovies` the error is caught and its message replaces the grid (script.js:59-61).
- DOM construction (`innerHTML`, `createElement`, `classList`, listeners, `stopPropagation`), the image `onerror` fallback, the `alt` text and a card's title text, and the mobile menu toggle (script.js:5-28, 81-103, 196-217) are not modelled. A card is a record of its movie, star, poster and genre text.
- Text.Lower: lower-cases ASCII letters only, not Unicode `toLowerCase`.
- Text.Less: orders strings by Unicode code point, not by UTF-16 code unit as `sort()` does. The two differ only between characters above U+FFFF and those in U+E000-U+FFFF.
- Record fields are modelled as strings or missing. A numeric `Ubication` is not modelled. The options show it as a string (script.js:147, 151), and `===` never matches it to the selector's string value (script.js:164). A numeric `Title` is not modelled either. It has no `toLowerCase`, so the search throws (script.js:163).
- App.Page.ToggleFavorite: `push` changes the favorites array in place while `filter` replaces it. No other reference to that array outlives a call, so the model assigns the new list in both cases.
- App.Page.constructor: the page's initial markup (the tab marked active, the modal's texts, the button label) is not part of this model. The active tab is a parameter, and the modal's texts start empty until the modal is first opened.
- App.Page.PressFavoriteButton: requires the modal to be open, because the button can only be clicked inside the visible modal.
