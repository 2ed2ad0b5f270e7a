/**
 * The state of the application entry point: the current user, the movie list
 * `allMovies`, its genre index `moviesByGenre`, and the saved copy of both in
 * browser storage, with the transitions of `saveState`, `loadState`,
 * `handleSearch` and `init`.
 */
module App {
  import opened Wrappers
  import opened Strings
  import opened Movies
  import opened Users
  import opened Omdb
  import opened Catalog

  /** The saved object `{ user, movies }` after `JSON.parse`; a missing or falsy member is `None`. */
  datatype SavedData = SavedData(user: Option<UserData>, movies: Option<seq<MovieData>>)

  /**
   * What storage holds under the key `movibucks_data`: nothing (or `""`), text
   * that does not parse, or saved data.
   */
  datatype Stored = Nothing | Unparsable | Blob(data: SavedData)

  /** What `saveState` writes. */
  function SaveData(p: Profile, ms: seq<Movie>): (d: SavedData)
    requires ProfileValid(p)
    ensures d.user == Some(ProfileJson(p))
    ensures d.movies.Some? && |d.movies.value| == |ms|
    ensures forall i :: 0 <= i < |ms| ==> d.movies.value[i] == ToJson(ms[i])
  {
    SavedData(Some(ProfileJson(p)), Some(seq(|ms|, i requires 0 <= i < |ms| => ToJson(ms[i]))))
  }

  /** `data.movies.map(m => restoreMovie(m))`; `tokens(i)` stands for the generated-id part of entry `i`. */
  function RestoreAll(ds: seq<MovieData>, tokens: nat -> string): (ms: seq<Movie>)
    ensures |ms| == |ds| && CatalogValid(ms)
    ensures forall i :: 0 <= i < |ds| ==> KeepsGiven(ds[i], ms[i]) && ms[i].kind == KindForGenre(ds[i].genre)
  {
    var ms := seq(|ds|, i requires 0 <= i < |ds| => RestoreMovie(ds[i], tokens(i)));
    assert forall i :: 0 <= i < |ds| ==> ms[i] == RestoreMovie(ds[i], tokens(i));
    ms
  }

  /** `new User(d)` followed by `loadRatings(d.ratings)`. */
  function RestoreProfile(d: UserData, token: string): (p: Profile)
    ensures ProfileValid(p)
  {
    WithLoadedRatings(NewProfile(d, token), d.ratings)
  }

  /** `loadState()` returns true exactly when the saved data holds a non-empty movie list. */
  predicate Loaded(s: Stored)
  {
    s.Blob? && s.data.movies.Some? && |s.data.movies.value| > 0
  }

  /**
   * Saving then loading gives back the same user, ratings in the same order, and
   * the same movies, field for field and class for class.
   */
  lemma SaveLoadRoundTrip(p: Profile, ms: seq<Movie>, tokens: nat -> string, token: string)
    requires ProfileValid(p) && CatalogValid(ms)
    ensures var d := SaveData(p, ms);
      && RestoreProfile(d.user.value, token) == p
      && RestoreAll(d.movies.value, tokens) == ms
      && (Loaded(Blob(d)) <==> |ms| > 0)
  {
    ProfileRoundTrip(p, token);
    var d := SaveData(p, ms);
    forall i | 0 <= i < |ms| ensures RestoreAll(d.movies.value, tokens)[i] == ms[i] {
      RestoreRoundTrip(ms[i], tokens(i));
    }
  }

  /**
   * The catalog after a search with a key for the trimmed query `q`, `None`
   * when it stays as it was: the search results are appended, or else the
   * single title match is pushed.
   */
  function KeyedSearch(before: seq<Movie>, q: string, serviceKey: bool,
                       server: Request -> Reply, tokens: nat -> string, token: string): Option<seq<Movie>>
  {
    var results := SearchResult(q, 1, serviceKey, server, tokens);
    if |results| > 0 then Some(before + results)
    else match FetchMovie(q, "", serviceKey, server, token)
      case Some(single) => Some(before + [single])
      case None => None
  }

  /**
   * The catalog after `handleSearch(query)`, `None` when it stays as it was:
   * blank queries do nothing, a key leads to `KeyedSearch`, and without a key
   * the mock list replaces the catalog (`mock` is what `getMockMovies()`
   * returns).
   */
  function SearchOutcome(before: seq<Movie>, mock: seq<Movie>, query: string, appKey: bool, serviceKey: bool,
                         server: Request -> Reply, tokens: nat -> string, token: string): Option<seq<Movie>>
  {
    var q := Trim(query);
    if q == "" then None
    else if appKey then KeyedSearch(before, q, serviceKey, server, tokens, token)
    else Some(mock)
  }

  /** Every movie one search request yields is valid. */
  lemma SearchResultValid(title: string, page: int, hasKey: bool, server: Request -> Reply, tokens: nat -> string)
    ensures CatalogValid(SearchResult(title, page, hasKey, server, tokens))
  {
    var r := SearchResult(title, page, hasKey, server, tokens);
    forall i | 0 <= i < |r| ensures WellFormed(r[i]) && KindConsistent(r[i]) {
      var ids := SearchHits(server(BySearch(Trim(title), page))).value;
      assert r[i] in Somes(Lookups(ids, server, tokens));
      SearchResultsComeFromHits(ids, server, tokens, r[i]);
    }
  }

  /**
   * A search with a key only appends: the movies already there keep their
   * places, at least one valid movie follows, and without a key for the
   * service nothing changes.
   */
  lemma KeyedSearchAppends(before: seq<Movie>, q: string, serviceKey: bool,
                           server: Request -> Reply, tokens: nat -> string, token: string)
    requires CatalogValid(before)
    ensures var r := KeyedSearch(before, q, serviceKey, server, tokens, token);
      && (r.Some? ==> |r.value| > |before| && r.value[..|before|] == before && CatalogValid(r.value))
      && (!serviceKey ==> r == None)
  {
    SearchResultValid(q, 1, serviceKey, server, tokens);
    var results := SearchResult(q, 1, serviceKey, server, tokens);
    if |results| > 0 {
      assert (before + results)[..|before|] == before;
      AppendValid(before, results);
    } else {
      var single := FetchMovie(q, "", serviceKey, server, token);
      if single.Some? {
        assert (before + [single.value])[..|before|] == before;
        assert CatalogValid([single.value]);
        AppendValid(before, [single.value]);
      }
    }
  }

  /**
   * `handleSearch` never drops or reorders what was there: a blank query
   * changes nothing, a search with a key only appends, and without a key the
   * catalog becomes the mock list; what results is valid and non-empty.
   */
  lemma SearchOutcomeSpec(before: seq<Movie>, mock: seq<Movie>, query: string, appKey: bool, serviceKey: bool,
                          server: Request -> Reply, tokens: nat -> string, token: string)
    requires CatalogValid(before) && CatalogValid(mock) && |mock| > 0
    ensures var r := SearchOutcome(before, mock, query, appKey, serviceKey, server, tokens, token);
      && (Trim(query) == "" ==> r == None)
      && (Trim(query) != "" && !appKey ==> r == Some(mock))
      && (appKey && r.Some? ==> |r.value| > |before| && r.value[..|before|] == before)
      && (appKey && !serviceKey ==> r == None)
      && (r.Some? ==> CatalogValid(r.value) && |r.value| > 0)
  {
    KeyedSearchAppends(before, Trim(query), serviceKey, server, tokens, token);
  }

  lemma AppendValid(a: seq<Movie>, b: seq<Movie>)
    requires CatalogValid(a) && CatalogValid(b)
    ensures CatalogValid(a + b)
  {
    forall i | 0 <= i < |a + b| ensures WellFormed((a + b)[i]) && KindConsistent((a + b)[i]) {
      if i >= |a| {
        assert (a + b)[i] == b[i - |a|];
      }
    }
  }

  class Session {
    var user: User
    /** `getMockMovies()`, the catalog used when no key is configured. */
    const mock: seq<Movie>
    var allMovies: seq<Movie>
    var moviesByGenre: Index<Movie>
    /** The value stored under `movibucks_data`. */
    var storage: Stored

    /** The index always matches the list, and every movie in the list is valid. */
    ghost predicate Valid()
      reads this, user
    {
      && user.Valid()
      && moviesByGenre == Group(allMovies, GenreKey)
      && CatalogValid(allMovies)
      && CatalogValid(mock) && |mock| > 0
    }

    /** The module-level state before `init()`: a fresh user and an empty catalog. */
    constructor (stored: Stored, userToken: string)
      ensures Valid() && fresh(user)
      ensures user.Value() == NewProfile(UserData("", "", "", None), userToken)
      ensures allMovies == [] && storage == stored && mock == MockMovies()
    {
      MockMoviesValid();
      user := new User(UserData("", "", "", None), userToken);
      mock := MockMovies();
      allMovies := [];
      moviesByGenre := map[];
      storage := stored;
    }

    /** `saveState()`: the user and the movies, in list order, replace the stored value. */
    method SaveState()
      requires Valid()
      modifies this`storage
      ensures Valid()
      ensures storage == Blob(SaveData(user.Value(), allMovies))
    {
      var ms := allMovies;
      var movies := seq(|ms|, i requires 0 <= i < |ms| => ToJson(ms[i]));
      storage := Blob(SavedData(Some(user.ToJson()), Some(movies)));
    }

    /** `moviesByGenre = groupMoviesByGenre(allMovies)` after a change of list. */
    method SetMovies(ms: seq<Movie>)
      requires user.Valid() && CatalogValid(ms) && CatalogValid(mock) && |mock| > 0
      modifies this`allMovies, this`moviesByGenre
      ensures Valid() && allMovies == ms
    {
      allMovies := ms;
      moviesByGenre := GroupMoviesByGenre(ms);
    }

    /**
     * `loadState()`: saved user data replaces the user, whether or not movies
     * follow; a non-empty saved movie list replaces the catalog and is the only
     * case that returns true. Nothing stored, or text that does not parse,
     * leaves everything as it was.
     */
    method LoadState(tokens: nat -> string, userToken: string) returns (loaded: bool)
      requires Valid()
      modifies this
      ensures Valid()
      ensures loaded == Loaded(old(storage))
      ensures storage == old(storage)
      ensures old(storage).Blob? && old(storage).data.user.Some?
        ==> fresh(user) && user.Value() == RestoreProfile(old(storage).data.user.value, userToken)
      ensures !(old(storage).Blob? && old(storage).data.user.Some?)
        ==> user == old(user) && user.Value() == old(user.Value())
      ensures allMovies == (if loaded then RestoreAll(old(storage).data.movies.value, tokens) else old(allMovies))
    {
      loaded := false;
      if storage.Blob? {
        var data := storage.data;
        if data.user.Some? {
          var u := new User(data.user.value, userToken);
          u.LoadRatings(data.user.value.ratings);
          user := u;
        }
        if data.movies.Some? && |data.movies.value| > 0 {
          SetMovies(RestoreAll(data.movies.value, tokens));
          loaded := true;
        }
      }
    }

    /**
     * `handleSearch()` with the text of the search box: the catalog becomes
     * `SearchOutcome`, and every change is regrouped and saved; the user is
     * untouched. `appKey` is the key the entry point sees, `serviceKey` the one
     * the service reads.
     */
    method HandleSearch(query: string, appKey: bool, serviceKey: bool,
                        server: Request -> Reply, tokens: nat -> string, token: string)
      requires Valid()
      modifies this
      ensures Valid() && user == old(user)
      ensures var r := SearchOutcome(old(allMovies), mock, query, appKey, serviceKey, server, tokens, token);
        && (r.None? ==> allMovies == old(allMovies) && storage == old(storage))
        && (r.Some? ==> allMovies == r.value && storage == Blob(SaveData(user.Value(), allMovies)))
    {
      SearchOutcomeSpec(allMovies, mock, query, appKey, serviceKey, server, tokens, token);
      var q := Trim(query);
      if q == "" {
        return;
      }
      if appKey {
        var results := SearchMovies(q, 1, serviceKey, server, tokens);
        if |results| > 0 {
          SetMovies(allMovies + results);
          SaveState();
          return;
        }
        var single := FetchMovie(q, "", serviceKey, server, token);
        if single.Some? {
          SetMovies(allMovies + [single.value]);
          SaveState();
          return;
        }
        return;
      }
      SetMovies(mock);
      SaveState();
    }

    /** `init()`: load, and fall back to the mock list when the catalog is still empty. */
    method Init(tokens: nat -> string, userToken: string)
      requires Valid()
      modifies this
      ensures Valid() && |allMovies| > 0
      ensures var restored := if Loaded(old(storage)) then RestoreAll(old(storage).data.movies.value, tokens) else old(allMovies);
        allMovies == (if |restored| > 0 then restored else mock)
      ensures |old(allMovies)| == 0 && !Loaded(old(storage)) ==> storage == Blob(SaveData(user.Value(), mock))
      ensures Loaded(old(storage)) || |old(allMovies)| > 0 ==> storage == old(storage)
      ensures old(storage).Blob? && old(storage).data.user.Some?
        ==> fresh(user) && user.Value() == RestoreProfile(old(storage).data.user.value, userToken)
      ensures !(old(storage).Blob? && old(storage).data.user.Some?)
        ==> user == old(user) && user.Value() == old(user.Value())
    {
      var loaded := LoadState(tokens, userToken);
      if |allMovies| == 0 {
        SetMovies(mock);
        SaveState();
      }
    }
  }
}
