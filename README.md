# movibucks, modelled in Dafny

movibucks is a small browser movie library. A user searches the OMDB web
service, and the results appear as one carousel of movie cards per genre. The
user can rate a movie from one to five stars, and the whole state is kept in
browser storage. This project models the logic behind that interface and proves
properties of it:

- **Movies** (`movies.dfy`): `Movie`, `ActionMovie` and `ComedyMovie` as one
  datatype. Its `kind` field records which class built the movie. The module
  covers the constructors' defaults, `toJSON`/`fromJSON`, the class a genre
  selects, and the values each class puts into its card.
- **Users** (`users.dfy`): the class `User`. Its private ratings `Map` is a
  value that keeps insertion order. Rating clamps the value to 1..5. The
  ratings snapshot of `toJSON` reloads into exactly the same map.
- **Reviews** (`reviews.dfy`): the class `Review`. `setRating` ignores `NaN`
  and rounds and clamps everything else. The module also covers the star
  string and the truncated text.
- **Ratings** (`ratings.dfy`): the `Math.round` and clamp arithmetic that
  `User` and `Review` share.
- **Omdb** (`omdb.dfy`): `createMovieFromOMDB`, with `fetchMovie`,
  `fetchMovieById` and `searchMovies`. The network is an abstract function
  from each request to its parsed reply. A failed `fetch` or JSON parse is one
  reply value, `Failed`.
- **Catalog** (`catalog.dfy`): `groupMoviesByGenre` is a loop. It is proved to
  build the index `Group`, and `Group` is proved to be a partition of the
  list. The module also holds `restoreMovie`, the five mock movies, and the
  grouping loop as written over a plain JavaScript object (see Findings).
- **App** (`app.js` state, `app.dfy`): the class `Session` holds the
  module-level state: `user`, `allMovies`, `moviesByGenre` and the stored copy.
  Its methods are `saveState`, `loadState`, `handleSearch` and `init`. With
  the corrected grouping (see Findings), every method keeps the index equal to
  `Group(allMovies)` and every movie valid.
  Saving then loading gives the same user and the same movies back.
- **Slider** (`slider.dfy`): the carousel arithmetic: item sizes, visible
  items, maximum scroll, and the offset after a left or right click. Clicks
  never leave the scroll range.
- `strings.dfy` and `wrappers.dfy` are helpers: the JavaScript string
  operations the code uses, and `Option`.

A missing or falsy string field is `""` throughout. So the JavaScript
`x || d` is `Or(x, d)`.

## Model

| member | source | states |
|---|---|---|
| Strings.Or | js/classes/Movie.js:6-12 | the string default of a logical or: a non-empty `x` is kept, and an empty `x` gives the default |
| Strings.ContainsIff | js/app.js:248 | `includes` holds exactly when the needle occurs at some index |
| Strings.ContainsAt | js/app.js:248 | an occurrence at a known index makes `includes` true |
| Strings.Lower | js/app.js:247 | `toLowerCase` keeps the length and lowers each character |
| Strings.FirstField | js/app.js:88 | `split(',')[0]` is a prefix without the separator, followed by the separator or the end |
| Strings.FirstFieldAt | js/app.js:88 | up to its first separator, the first field is the text before it |
| Strings.FirstFieldWhole | js/app.js:88 | without a separator the first field is the whole string |
| Strings.TrimStart | js/app.js:88 | drops exactly the leading whitespace: a suffix whose first character is not blank |
| Strings.TrimEnd | js/app.js:88 | drops exactly the trailing whitespace: a prefix whose last character is not blank |
| Strings.Trim | js/app.js:88 | `trim()` is no longer than its input and has no blank at either end |
| Strings.TrimIsSlice | js/app.js:88 | the trimmed string is the slice of the input after its leading whitespace |
| Strings.TrimEmptyIff | js/app.js:254-255 | a query trims to empty exactly when it is all whitespace |
| Strings.TrimIdempotent | js/services/OMDBService.js:69 | trimming the already trimmed query again changes nothing |
| Strings.TrimKeepsAbsent | js/app.js:88 | trimming adds no character |
| Strings.TrimUnchanged | js/app.js:88 | a string with no outer blanks trims to itself |
| Strings.Truncate | js/classes/Movie.js:20 | a text over `n` characters becomes its first `n` and `...`; a shorter one is kept |
| Strings.EscapeQuotes | js/classes/Movie.js:25 | `replace(/"/g, '&quot;')` leaves no double quote, keeps a quote-free string, and never shortens the text |
| Strings.EscapeQuotesChar | js/classes/Movie.js:25 | a `"` becomes `&quot;`; any other character stays as it is |
| Strings.EscapeQuotesAppend | js/classes/Movie.js:25 | escaping a concatenation is the concatenation of the escaped parts, so together with `EscapeQuotesChar` each character is replaced in place, in order |
| Strings.EscapeQuotesLength | js/classes/Movie.js:25 | each quote grows the text by five characters |
| Strings.Repeat | js/classes/Review.js:36 | `c.repeat(n)` is `n` copies of `c` |
| Strings.NatToString | js/classes/Movie.js:21 | a natural number prints as a non-empty string of decimal digits |
| Strings.DigitValue | js/classes/Movie.js:21 | a digit's value is below ten and prints back as that digit |
| Strings.NatToStringValue | js/classes/Movie.js:21 | the printed digits denote `n`, with no leading zero |
| Strings.IntToString | js/classes/Movie.js:21 | an integer prints non-empty, with a leading digit exactly when it is not negative |
| Strings.IntToStringValue | js/classes/Movie.js:21 | `String(n)` is the canonical decimal of `n`: its digits denote `n`; for negative `n` a `-` is followed by exactly the digits of `-n`, which have no leading zero |
| Strings.IntToStringInjective | js/classes/Movie.js:21 | different ratings print differently, so the `n/5` label names the rating |
| Ratings.Round | js/classes/User.js:17 | `Math.round` is within one half of its argument |
| Ratings.ClampRating | js/classes/User.js:17 | the stored rating is the rounded value when it lies in 1..5, and 1 or 5 otherwise |
| Ratings.ClampWholeStars | js/app.js:186-187 | a whole star count from 1 to 5 is stored as given; others clamp to the nearer end |
| Movies.NewMovie | js/classes/Movie.js:5-13 | each constructor keeps every given field; a falsy id becomes `movie_` and the token, the title `Unknown`, the poster the placeholder URL, the plot `No description available.`, the rating `N/A`; a variant defaults the genre to its own name, the base class to `General` |
| Movies.ToJson | js/classes/Movie.js:35-45 | the seven fields without the class: rebuilding a well-formed movie with its own class from them gives it back |
| Movies.FromJson | js/classes/Movie.js:47-49 | `fromJSON` always builds the base class |
| Movies.JsonRoundTrip | js/classes/Movie.js:35-49 | `fromJSON(toJSON(m))` is `m` field for field; only the class is lost |
| Movies.ToJsonInjective | js/classes/Movie.js:35-45 | two movies of one class with the same JSON are equal |
| Movies.KindForGenre | js/services/OMDBService.js:12-29 | action exactly when the lowered genre contains "action"; comedy exactly when it contains "comedy" and not "action" |
| Movies.ActionBeforeComedy | js/services/OMDBService.js:23-28 | a genre naming both is an action movie |
| Movies.MissingCharNotContained | js/app.js:248 | a string lacking a character of the needle does not include it |
| Movies.LowerMissing | js/app.js:247 | a letter absent in both cases is absent after lower-casing |
| Movies.NoKeyword | js/services/OMDBService.js:29 | a genre without `t` and `y` in either case is a plain movie |
| Movies.GeneralIsPlain | js/services/OMDBService.js:19 | the default genre "General" selects the base class |
| Movies.ShortPlot | js/classes/Movie.js:20 | the card shows at most 123 characters, and a plot of 120 or fewer unchanged |
| Movies.RatingLabel | js/classes/Movie.js:21 | the label text; `Movies.RatingLabelCases` states its cases, and `Strings.IntToStringValue` states the digits |
| Movies.RatingLabelCases | js/classes/Movie.js:21 | the label shows `n/5` exactly when the user rating is truthy, and `IMDB: ` and the IMDB rating otherwise |
| Movies.StyleClass | js/classes/ActionMovie.js:16-18 | the card style of each class; `Movies.CardCommon` states that every card carries it |
| Movies.Badge | js/classes/ActionMovie.js:12-14 | the badge of each class; `Movies.BadgeNamesGenre` states which classes have one and what it ends in |
| Movies.CardOf | js/classes/ComedyMovie.js:20-34 | the values a card interpolates; `Movies.CardImage` and `Movies.CardCommon` state what they are for each class |
| Movies.BadgeNamesGenre | js/classes/ActionMovie.js:12-14 | only the variants have a badge, and it ends in the variant's genre name |
| Movies.CardImage | js/classes/Movie.js:25 | base and action cards escape the poster, so their `src` has no raw quote; the comedy card uses the poster and title verbatim |
| Movies.CardCommon | js/classes/Movie.js:19-32 | every card carries its class style, the id twice, the short plot and the rating label |
| Users.Put | js/classes/User.js:18 | `Map.set` keeps the map well formed: each key listed once, exactly the keys with values |
| Users.PutSpec | js/classes/User.js:18 | after `set(k, v)` the key maps to `v`, other keys are untouched, and a new key goes last |
| Users.Lookup | js/classes/User.js:25 | `has(k) ? get(k) : null`: a value exactly for a stored key, and that key's value |
| Users.Entries | js/classes/User.js:38-40 | the snapshot has one pair per key, in key order, each holding that key's value |
| Users.FromEntries | js/classes/User.js:47 | `new Map(entries)` is a well-formed map |
| Users.PrefixStep | js/classes/User.js:47 | one more snapshot pair is one more `set` after the earlier pairs |
| Users.EntriesPrefix | js/classes/User.js:47 | rebuilding the first `n` pairs gives the map's first `n` keys |
| Users.SnapshotRoundTrip | js/classes/User.js:38-48 | `new Map(Object.entries(snapshot))` is the same map, order included |
| Users.NewProfile | js/classes/User.js:7-11 | a new user keeps the given id, name and avatar; a missing id becomes `user_` and the token, the name `Movie Fan`, the avatar the placeholder URL; there are no ratings |
| Users.Rate | js/classes/User.js:16-19 | rating keeps the profile valid |
| Users.WithLoadedRatings | js/classes/User.js:45-49 | loading ratings keeps the profile valid |
| Users.ProfileJson | js/classes/User.js:51-58 | the serialised user; `Users.ProfileRoundTrip` states that it rebuilds the same user |
| Users.RateSpec | js/classes/User.js:16-19 | after `rateMovie(id, r)` the id holds `r` rounded and clamped to 1..5; every other id keeps its rating; only `id` may be added |
| Users.ReloadSnapshot | js/classes/User.js:38-49 | `loadRatings(getRatingsSnapshot())` leaves the user unchanged |
| Users.ProfileRoundTrip | js/classes/User.js:51-58 | a user rebuilt from `toJSON` by `new User(d)` and `loadRatings(d.ratings)` is the same user |
| Users.User.constructor | js/classes/User.js:7-11 | the new object is valid and has the value `NewProfile` describes |
| Users.User.RateMovie | js/classes/User.js:16-19 | the object's new value is `Rate` of its old value |
| Users.User.GetRating | js/classes/User.js:24-26 | the stored rating of a rated id, `null` exactly for an unrated one |
| Users.User.GetRatedMovies | js/classes/User.js:31-33 | each rated id once, and no other |
| Users.User.GetRatingsSnapshot | js/classes/User.js:38-40 | one pair per rated id, in insertion order, holding its rating |
| Users.User.LoadRatings | js/classes/User.js:45-49 | an object replaces the whole map, anything else leaves the user unchanged |
| Users.User.ToJson | js/classes/User.js:51-58 | the profile fields and the ratings snapshot |
| Reviews.SetRatingOf | js/classes/Review.js:21-26 | `NaN` keeps the rating; `Infinity` sets 5, `-Infinity` 1, and a finite number the clamped round value |
| Reviews.ClampNum | js/classes/Review.js:24 | the clamp of a number, infinities included, lies in 1..5 |
| Reviews.StarString | js/classes/Review.js:36 | five stars, the first `rating` of them filled |
| Reviews.StarStringInjective | js/classes/Review.js:36 | the star string determines the rating |
| Reviews.Review.constructor | js/classes/Review.js:8-16 | the review keeps its fields, defaults the timestamp, and sets a rating only when one is given |
| Reviews.Review.SetRating | js/classes/Review.js:21-26 | the new rating is `SetRatingOf` the old one |
| Reviews.Review.GetRating | js/classes/Review.js:31-33 | the private rating, always 0..5 |
| Reviews.Review.Stars | js/classes/Review.js:36 | a filled star at position `i` exactly when `i` is below the rating |
| Reviews.Review.ShortText | js/classes/Review.js:37 | text over 100 characters is cut to 100 and `...` |
| Reviews.Review.ToJson | js/classes/Review.js:47-55 | the fields and `getRating()` |
| Omdb.SecurePoster | js/services/OMDBService.js:17 | a leading `http://` in any case becomes `https://`; anything else is kept |
| Omdb.PosterFor | js/services/OMDBService.js:17 | a missing or `N/A` poster becomes the inline placeholder, any other is made secure |
| Omdb.PosterNeverInsecure | js/services/OMDBService.js:17 | no poster taken from the service starts with `http://` |
| Omdb.CreateMovieFromOmdb | js/services/OMDBService.js:11-30 | the record maps field by field with its defaults, and the class is the one the genre selects |
| Omdb.DetailResult | js/services/OMDBService.js:49-52 | a movie exactly when the reply parsed and `Response` is `'True'` |
| Omdb.TitleRequest | js/services/OMDBService.js:38-44 | the title query sends the trimmed title, and a year only when one is given; `Omdb.FetchMovie` states the outcome |
| Omdb.FetchMovie | js/services/OMDBService.js:35-57 | no key gives `null`; otherwise a movie exactly when the title request is accepted, built from that reply |
| Omdb.FetchMovieById | js/services/OMDBService.js:95-115 | no key gives `null`; otherwise a movie exactly when the id request is accepted, built from that reply |
| Omdb.Somes | js/services/OMDBService.js:81 | keeping the successful lookups never lengthens the list |
| Omdb.SomesAppend | js/services/OMDBService.js:79-81 | the kept results of a concatenation are the concatenated kept results, so order is kept |
| Omdb.SomesMember | js/services/OMDBService.js:81 | a value is kept exactly when its lookup succeeded |
| Omdb.SomesAllPresent | js/services/OMDBService.js:81 | when every lookup succeeds all are kept, in order |
| Omdb.SomesSnoc | js/services/OMDBService.js:79-81 | one more hit adds its movie at the end when its lookup succeeds |
| Omdb.Lookups | js/services/OMDBService.js:79-80 | one `fetchMovieById` per search hit, in `Search` order |
| Omdb.SearchHits | js/services/OMDBService.js:77 | the hits of an accepted reply with a non-empty `Search` list; `Omdb.SearchMovies` states the outcome |
| Omdb.CollectDetails | js/services/OMDBService.js:78-83 | the loop collects the successful detail lookups in hit order |
| Omdb.SearchMovies | js/services/OMDBService.js:62-90 | no key, a rejected reply or an empty `Search` give `[]`; otherwise the successful detail lookups in order |
| Omdb.SearchResult | js/services/OMDBService.js:62-90 | what a search returns; `Omdb.SearchMovies` computes it by the loop, and `Omdb.SearchResultsComeFromHits` and `Omdb.SearchKeepsAllHits` state what it holds |
| Omdb.SearchResultsComeFromHits | js/services/OMDBService.js:79-81 | every movie returned is the normalised detail record of one accepted hit |
| Omdb.SearchKeepsAllHits | js/services/OMDBService.js:79-81 | when every detail lookup is accepted, every hit is returned, in order |
| Catalog.GenreKey | js/app.js:87-88 | the main genre has no comma and no blank at either end |
| Catalog.GenreKeyCases | js/app.js:87-88 | a movie without a genre goes to "General"; a genre that is one trimmed word is its own key |
| Catalog.GroupMoviesByGenre | js/app.js:84-93 | the loop builds `Group(movies, GenreKey)` |
| Catalog.Group | js/app.js:84-93 | the index the intended loop builds; `Catalog.GroupIsBuckets` and `Catalog.GroupPartition` state what it holds |
| Catalog.Bucket | js/app.js:89-90 | the movies of one key, in list order; `Catalog.BucketMember` states which they are |
| Catalog.GroupStep | js/app.js:89-90 | one more item only opens or extends the bucket of its key |
| Catalog.GroupIsBuckets | js/app.js:84-93 | a bucket exists for exactly the keys that occur, and holds exactly the items with that key, in list order |
| Catalog.BucketMember | js/app.js:84-93 | an item is in bucket `k` exactly when it is in the list and has key `k` |
| Catalog.BucketAppend | js/app.js:260-261 | buckets of a concatenation are the concatenated buckets |
| Catalog.GroupAppend | js/app.js:260-261 | regrouping after new results are appended puts them, in order, after each bucket's old items |
| Catalog.BucketSizesSnoc | js/app.js:90 | one more item adds one to its own bucket and none to the others |
| Catalog.BucketSizesEmpty | js/app.js:85 | the empty list has empty buckets |
| Catalog.BucketSizesCover | js/app.js:84-93 | bucket sizes over distinct keys covering every item add up to the list length |
| Catalog.IndexSizeIsBucketSizes | js/app.js:84-93 | the index's bucket sizes are the list's bucket sizes |
| Catalog.GroupPartition | js/app.js:84-93 | grouping is a partition: each movie is in its own key's bucket and in no other, and bucket sizes sum to the number of movies |
| Catalog.ActionSciFiKey | js/app.js:87-88 | the genre "Action, Sci-Fi" has the key "Action" |
| Catalog.ComedyKey | js/app.js:87-88 | the genre "Comedy" has the key "Comedy" |
| Catalog.GroupTwo | js/app.js:84-93 | two items with different keys give two one-item buckets |
| Catalog.TwoGenreScenario | js/app.js:84-93 | an "Action, Sci-Fi" movie and a "Comedy" movie group into exactly the buckets "Action" and "Comedy", one movie each |
| Catalog.SlotOf | js/app.js:89 | `grouped[k]` finds an own bucket exactly for stored keys, and an inherited member exactly for unstored prototype names |
| Catalog.GroupAsWritten | js/app.js:84-93 | the loop as written over a plain object; `Catalog.GroupAsWrittenIff` states when it throws and what it builds otherwise |
| Catalog.GroupAsWrittenIff | js/app.js:89-90 | the loop over a plain object throws exactly when some key names an `Object.prototype` member, and otherwise builds `Group` |
| Catalog.GroupAsWrittenThrows | js/app.js:89-90 | one item whose key names an inherited member throws |
| Catalog.ConstructorKey | js/app.js:87-88 | the genre "constructor" has the key "constructor" |
| Catalog.ConstructorGenreThrows | js/app.js:89-90 | grouping one movie of genre "constructor" throws as written |
| Catalog.RestoreMovie | js/app.js:246-251 | the restored movie has the class its genre selects, keeps every given field, and is well formed |
| Catalog.RestoreRoundTrip | js/app.js:236 | a saved movie is restored unchanged, with its class chosen by its genre |
| Catalog.MockMovies | js/app.js:34-82 | the mock catalog has five movies |
| Catalog.ActionAt | js/app.js:248 | a genre starting with "Action" selects `ActionMovie` |
| Catalog.ComedyAt | js/app.js:249 | "Comedy" followed by text without a `t` selects `ComedyMovie` |
| Catalog.MockMoviesValid | js/app.js:34-82 | every mock movie is well formed and of the class its genre selects |
| Catalog.InceptionValid | js/app.js:36-44 | the first mock movie's class matches its genre |
| Catalog.ForrestGumpValid | js/app.js:45-53 | the second mock movie's class matches its genre |
| Catalog.AvengersValid | js/app.js:54-62 | the third mock movie's class matches its genre |
| Catalog.FightClubValid | js/app.js:63-71 | the fourth mock movie's class matches its genre |
| Catalog.ShawshankValid | js/app.js:72-80 | the fifth mock movie's class matches its genre |
| App.SaveData | js/app.js:218-224 | the saved object holds the user's JSON and every movie's JSON, in list order |
| App.RestoreAll | js/app.js:236 | restoring keeps the length and each entry's given fields, and picks each class from the genre |
| App.RestoreProfile | js/app.js:231-234 | the restored user is valid |
| App.SaveLoadRoundTrip | js/app.js:218-244 | loading what was saved gives the same user (ratings in order) and the same movies, and `loadState` reports success exactly when there were movies |
| App.SearchResultValid | js/services/OMDBService.js:62-90 | every movie a search yields is well formed and of its genre's class |
| App.KeyedSearch | js/app.js:257-281 | the catalog after a search with a key; `App.KeyedSearchAppends` states that it only appends |
| App.KeyedSearchAppends | js/app.js:257-281 | a search with a key only appends, keeping the old movies first; without the service key nothing changes |
| App.SearchOutcomeSpec | js/app.js:253-288 | a blank query changes nothing; with a key the search only appends; without one the mock list replaces the catalog; the result is valid and non-empty |
| App.SearchOutcome | js/app.js:253-288 | the catalog after `handleSearch`; `App.SearchOutcomeSpec` states its cases |
| App.AppendValid | js/app.js:260 | appending valid movies to a valid list keeps it valid |
| App.Session.constructor | js/app.js:19-21 | a newly allocated user with the default profile, an empty catalog, and an empty index |
| App.Session.SaveState | js/app.js:218-224 | storage becomes `SaveData` of the user and the catalog; nothing else changes |
| App.Session.SetMovies | js/app.js:236-237 | the catalog is replaced and the index regrouped to match it |
| App.Session.LoadState | js/app.js:226-244 | saved user data replaces the user even without movies; a non-empty movie list replaces the catalog and is the only case that returns true |
| App.Session.HandleSearch | js/app.js:253-288 | the catalog becomes `SearchOutcome`; every change is regrouped and saved; the user is untouched |
| App.Session.Init | js/app.js:290-298 | after `init` the catalog is never empty: the loaded list, or else the mock list, which is then saved; storage is unchanged unless the mock is saved; the user is the restored saved user when one is stored, and unchanged otherwise |
| Slider.ItemWidth | js/app.js:11-13 | 180 pixels up to a 600-pixel viewport, 270 above |
| Slider.ItemMargin | js/app.js:14-16 | 15 pixels up to a 600-pixel viewport, 30 above |
| Slider.Pitch | js/app.js:141 | one item and its margin take 195 or 300 pixels |
| Slider.VisibleItems | js/app.js:141 | at least one item, and the largest count that fits when one fits |
| Slider.MaxScroll | js/app.js:142 | never negative or above the item count, and the last item just fits at the end |
| Slider.Lowest | js/app.js:156 | the furthest offset is never positive |
| Slider.Step | js/app.js:152 | one click moves two items, or one when only one fits |
| Slider.ScrollLeft | js/app.js:153-154 | the left arrow never goes past the start: it moves one step when that stays at or before the start, and stops at the start otherwise |
| Slider.ScrollRight | js/app.js:155-156 | the right arrow never goes past the end: it moves one step when that stays within the end, and stops at the end otherwise |
| Slider.ScrollStaysInRange | js/app.js:152-156 | from an offset in range, either arrow stays in range and moves at most one step |
| Slider.RightThenLeft | js/app.js:152-156 | a right click from the start then a left click comes back to the start |
| Slider.FittingListIsFixed | js/app.js:141-156 | a list that fits in the viewport does not scroll |

## Left out

- Rendering: the HTML of cards, featured banner, carousels and reviews, and all DOM events. Only the values a card interpolates are modelled (`Movies.CardOf`).
- Dark mode: `initDarkMode` is presentation state in its own storage key.
- Network I/O and `await`: each request is answered by the input function `server`. Concurrent searches and their interleavings are not modelled. A thrown `fetch` or `res.json()` is the reply `Failed`.
- Browser storage, `JSON.stringify` and `JSON.parse`: storage is the `Session.storage` field, and saved data is its parsed shape `SavedData`. Text that does not parse is `Unparsable`. Entries of the wrong shape inside a parsed blob are not modelled.
- `Date.now()`, `Math.random()` and `new Date().toISOString()`: these become `token` and `now` parameters.
- The API key import: `js/services/OMDBService.js:1` imports `getOMDBKey`, which `js/config.js:3` does not export. Module linking therefore fails with a `SyntaxError`, so neither `OMDBService.js` nor `app.js`, which imports it, loads, and as written none of this code runs. The model describes the program with that import repaired. Whether each side sees a key is an input: `appKey` for `OMDB_API_KEY` in the entry point, and `serviceKey` for the service's key.
- The mock catalog is fixed when each session is created (`Session.mock`), instead of being rebuilt on each call. The mock movies have their ids, so no token is involved.
- `console` logging in the `catch` blocks.
- Slider: parsing the CSS `matrix(...)` transform with `parseFloat` is not modelled. The current offset `tx` and the viewport width are integer inputs, and floating-point offsets are not modelled.
- Strings.Lower: lower-cases ASCII letters only, not the full Unicode case mapping. String lengths count characters, not UTF-16 code units.
- Users.Rate: takes a `real` rating. `rateMovie` has no `NaN` guard, and a `NaN` rating, which would be stored as `NaN`, is not modelled. `Infinity` and `-Infinity`, which would be stored as 5 and 1, are not modelled here either; `Reviews.ClampNum` models them for reviews.
- Users.FromEntries: `loadRatings` stores whatever values the saved object holds without clamping. The model takes saved values to be integers and does not model property-order rules for keys that look like array indices.
- Movies.FromJson: `fromJSON` always builds the base class. `loadState` uses `restoreMovie` instead, which is modelled as `Catalog.RestoreMovie`.
- Genre order: `renderMovieLists` sorts the labels only when it renders (js/app.js:104). The index is a map, so key order is not part of it.
- App.Session.HandleSearch: in the source, a throw from the as-written grouping at js/app.js:261 or js/app.js:271 comes after `allMovies` has been replaced or pushed and before `saveState`, leaving the index stale and storage unsaved. The model groups with the corrected `GroupMoviesByGenre`, which cannot throw.
- App.Session.LoadState: when restoring or grouping throws inside the `try`, the source may leave `allMovies` assigned and `moviesByGenre` stale. The model groups with the corrected `GroupMoviesByGenre`, which cannot throw.

## Findings

| source | as written | input that shows it | evidently intended | confidence | as-written member | corrected member |
|---|---|---|---|---|---|---|
| js/app.js:84-93 | `grouped` is a plain `{}`, so `grouped[mainGenre]` finds inherited `Object.prototype` members; for such a genre `!grouped[k]` is false and `push` on the inherited function throws a `TypeError` | a movie whose genre is `"constructor"` (or `"toString"`, `"valueOf"`, `"__proto__"` and the other inherited names) | a bucket per main genre whatever its name, with every movie in exactly one bucket | not executed | Catalog.ConstructorGenreThrows | Catalog.GroupPartition |

`Catalog.GroupAsWritten` models the loop over a plain object. `Catalog.GroupAsWrittenIff` shows that it fails exactly when some main genre names an inherited member, and builds the intended index otherwise. The rest of the model groups with `Catalog.GroupMoviesByGenre`, which behaves like grouping into an object without a prototype. `Catalog.GroupPartition` is proved about what that method computes.
