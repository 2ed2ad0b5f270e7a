/**
 * The OMDB service adapter: normalising a response record into a movie, and the
 * accept/reject rules of the three lookups. The network is the function `server`,
 * which maps each request the service would send to what the parsed reply was.
 */
module Omdb {
  import opened Wrappers
  import opened Strings
  import opened Movies

  /** The queries the service sends: by title (`t`, optional `y`), search (`s`, `page`), by id (`i`). */
  datatype Request =
    | ByTitle(title: string, year: Option<string>)
    | BySearch(title: string, page: int)
    | ById(imdbId: string)

  /**
   * A parsed response body, `""` for an absent string field; `search` holds the
   * `imdbID` of each entry of `Search`, `None` when `Search` is absent.
   */
  datatype Body = Body(
    response: string, imdbID: string, title: string, year: string, poster: string,
    plot: string, genre: string, imdbRating: string, search: Option<seq<string>>)

  /** The outcome of `fetch` then `res.json()`: anything thrown collapses into `Failed`. */
  datatype Reply = Failed | Parsed(body: Body)

  /** A reply the service turns into a movie. */
  predicate Accepted(reply: Reply)
  {
    reply.Parsed? && reply.body.response == "True"
  }

  /** `String(p).replace(/^http:\/\//i, 'https://')`. */
  function SecurePoster(p: string): (r: string)
    ensures StartsWithIgnoreCase(p, "http://") ==> r == "https://" + p[7..]
    ensures !StartsWithIgnoreCase(p, "http://") ==> r == p
  {
    if StartsWithIgnoreCase(p, "http://") then "https://" + p[7..] else p
  }

  /** `Poster && Poster !== 'N/A' ? SecurePoster(Poster) : placeholder`. */
  function PosterFor(p: string): (r: string)
    ensures p == "" || p == "N/A" ==> r == NoPosterSvg
    ensures p != "" && p != "N/A" ==> r == SecurePoster(p)
  {
    if p != "" && p != "N/A" then SecurePoster(p) else NoPosterSvg
  }

  /** A poster taken from the provider never starts with `http://`, in any letter case. */
  lemma PosterNeverInsecure(p: string)
    ensures !StartsWithIgnoreCase(PosterFor(p), "http://")
  {
    var r := PosterFor(p);
    if r == NoPosterSvg {
      assert Lower(r[..7])[0] == 'd';
      assert Lower("http://")[0] == 'h';
    } else if StartsWithIgnoreCase(p, "http://") {
      assert r[..7] == "https:/";
      assert Lower(r[..7])[4] == 's';
      assert Lower("http://")[4] == ':';
    }
  }

  /** `createMovieFromOMDB(data)`; `token` stands for the generated id if `imdbID` is missing. */
  function CreateMovieFromOmdb(b: Body, token: string): (m: Movie)
    ensures WellFormed(m)
    ensures m.kind == KindForGenre(b.genre) && m.kind == KindForGenre(m.genre)
    ensures m.id == Or(b.imdbID, GeneratedId(token))
    ensures m.title == Or(b.title, "Unknown") && m.year == b.year
    ensures m.plot == Or(b.plot, "No description available.")
    ensures m.genre == Or(b.genre, "General") && m.imdbRating == Or(b.imdbRating, "N/A")
    ensures m.poster == PosterFor(b.poster) && !StartsWithIgnoreCase(m.poster, "http://")
  {
    var base := MovieData(b.imdbID, Or(b.title, "Unknown"), Or(b.year, ""), PosterFor(b.poster),
      Or(b.plot, "No description available."), Or(b.genre, "General"), Or(b.imdbRating, "N/A"));
    PosterNeverInsecure(b.poster);
    GeneralIsPlain();
    NewMovie(KindForGenre(b.genre), base, token)
  }

  /** The movie an accepted detail reply yields, `null` otherwise. */
  function DetailResult(reply: Reply, token: string): (r: Option<Movie>)
    ensures r.Some? <==> Accepted(reply)
    ensures r.Some? ==> r.value == CreateMovieFromOmdb(reply.body, token)
  {
    if Accepted(reply) then Some(CreateMovieFromOmdb(reply.body, token)) else None
  }

  /** The request `fetchMovie(title, year)` sends. */
  function TitleRequest(title: string, year: string): Request
  {
    ByTitle(Trim(title), if year != "" then Some(year) else None)
  }

  /** `fetchMovie(title, year)`: no key, no request and `null`; else a movie exactly when `Response` is `'True'`. */
  function FetchMovie(title: string, year: string, hasKey: bool, server: Request -> Reply, token: string): (r: Option<Movie>)
    ensures !hasKey ==> r == None
    ensures hasKey ==> (r.Some? <==> Accepted(server(TitleRequest(title, year))))
    ensures hasKey && r.Some? ==> r.value == CreateMovieFromOmdb(server(TitleRequest(title, year)).body, token)
  {
    if !hasKey then None else DetailResult(server(TitleRequest(title, year)), token)
  }

  /** `fetchMovieById(imdbId)`. */
  function FetchMovieById(imdbId: string, hasKey: bool, server: Request -> Reply, token: string): (r: Option<Movie>)
    ensures !hasKey ==> r == None
    ensures hasKey ==> (r.Some? <==> Accepted(server(ById(imdbId))))
    ensures hasKey && r.Some? ==> r.value == CreateMovieFromOmdb(server(ById(imdbId)).body, token)
  {
    if !hasKey then None else DetailResult(server(ById(imdbId)), token)
  }

  /** The values of the present entries, in order. */
  function Somes<T>(xs: seq<Option<T>>): (r: seq<T>)
    ensures |r| <= |xs|
    decreases |xs|
  {
    if xs == [] then []
    else Somes(xs[..|xs| - 1]) + (if xs[|xs| - 1].Some? then [xs[|xs| - 1].value] else [])
  }

  /** Keeping the present entries commutes with concatenation, so their order is kept. */
  lemma {:induction false} SomesAppend<T>(a: seq<Option<T>>, b: seq<Option<T>>)
    ensures Somes(a + b) == Somes(a) + Somes(b)
    decreases |b|
  {
    if b != [] {
      var b' := b[..|b| - 1];
      assert (a + b)[..|a + b| - 1] == a + b';
      SomesAppend(a, b');
    } else {
      assert a + b == a;
    }
  }

  /** A value is kept exactly when it was present. */
  lemma {:induction false} SomesMember<T>(xs: seq<Option<T>>, x: T)
    ensures x in Somes(xs) <==> Some(x) in xs
    decreases |xs|
  {
    if xs != [] {
      var init := xs[..|xs| - 1];
      SomesMember(init, x);
      assert xs == init + [xs[|xs| - 1]];
    }
  }

  /** When every entry is present nothing is dropped. */
  lemma {:induction false} SomesAllPresent<T>(xs: seq<Option<T>>)
    requires forall i :: 0 <= i < |xs| ==> xs[i].Some?
    ensures |Somes(xs)| == |xs|
    ensures forall i :: 0 <= i < |xs| ==> Somes(xs)[i] == xs[i].value
    decreases |xs|
  {
    if xs != [] {
      SomesAllPresent(xs[..|xs| - 1]);
    }
  }

  /** One detail lookup per search hit, in `Search` order; `tokens(i)` is the id token of hit `i`. */
  function Lookups(ids: seq<string>, server: Request -> Reply, tokens: nat -> string): (r: seq<Option<Movie>>)
    ensures |r| == |ids|
    ensures forall i :: 0 <= i < |ids| ==> r[i] == FetchMovieById(ids[i], true, server, tokens(i))
  {
    seq(|ids|, i requires 0 <= i < |ids| => FetchMovieById(ids[i], true, server, tokens(i)))
  }

  /** The search hits, when the search reply is a success with a non-empty `Search` list. */
  function SearchHits(reply: Reply): Option<seq<string>>
  {
    if Accepted(reply) && reply.body.search.Some? && |reply.body.search.value| > 0
    then reply.body.search else None
  }

  /** The first `i + 1` entries keep what the first `i` keep, then entry `i` if present. */
  lemma SomesSnoc<T>(xs: seq<Option<T>>, i: nat)
    requires i < |xs|
    ensures Somes(xs[..i + 1]) == Somes(xs[..i]) + (if xs[i].Some? then [xs[i].value] else [])
  {
    assert xs[..i + 1][..i] == xs[..i];
  }

  /** What `searchMovies(title, page)` returns. */
  function SearchResult(title: string, page: int, hasKey: bool, server: Request -> Reply, tokens: nat -> string): seq<Movie>
  {
    if !hasKey then []
    else match SearchHits(server(BySearch(Trim(title), page)))
      case None => []
      case Some(ids) => Somes(Lookups(ids, server, tokens))
  }

  /** The loop of `searchMovies`: one detail lookup per hit, keeping the successes. */
  method CollectDetails(ids: seq<string>, server: Request -> Reply, tokens: nat -> string) returns (movies: seq<Movie>)
    ensures movies == Somes(Lookups(ids, server, tokens))
  {
    ghost var wanted := Lookups(ids, server, tokens);
    movies := [];
    for i := 0 to |ids|
      invariant movies == Somes(wanted[..i])
    {
      var full := FetchMovieById(ids[i], true, server, tokens(i));
      assert full == wanted[i];
      SomesSnoc(wanted, i);
      if full.Some? {
        movies := movies + [full.value];
      }
    }
    assert wanted[..|ids|] == wanted;
  }

  /**
   * `searchMovies(title, page)`: the successful detail lookups in `Search` order;
   * no key, a failed or empty search, or an error give `[]`.
   */
  method SearchMovies(title: string, page: int, hasKey: bool, server: Request -> Reply, tokens: nat -> string)
    returns (movies: seq<Movie>)
    ensures movies == SearchResult(title, page, hasKey, server, tokens)
    ensures !hasKey ==> movies == []
  {
    if !hasKey {
      return [];
    }
    var hits := SearchHits(server(BySearch(Trim(title), page)));
    if hits.None? {
      return [];
    }
    movies := CollectDetails(hits.value, server, tokens);
  }

  /** Every movie a search yields is the normalised record of one of its hits. */
  lemma SearchResultsComeFromHits(ids: seq<string>, server: Request -> Reply, tokens: nat -> string, m: Movie)
    requires m in Somes(Lookups(ids, server, tokens))
    ensures exists i :: 0 <= i < |ids| && Accepted(server(ById(ids[i]))) && m == CreateMovieFromOmdb(server(ById(ids[i])).body, tokens(i))
  {
    var xs := Lookups(ids, server, tokens);
    SomesMember(xs, m);
    var i :| 0 <= i < |xs| && xs[i] == Some(m);
    assert FetchMovieById(ids[i], true, server, tokens(i)) == Some(m);
  }

  /** When every detail lookup succeeds the search keeps all hits, in order. */
  lemma SearchKeepsAllHits(ids: seq<string>, server: Request -> Reply, tokens: nat -> string)
    requires forall i :: 0 <= i < |ids| ==> Accepted(server(ById(ids[i])))
    ensures var r := Somes(Lookups(ids, server, tokens));
      |r| == |ids| && forall i :: 0 <= i < |ids| ==> r[i] == CreateMovieFromOmdb(server(ById(ids[i])).body, tokens(i))
  {
    SomesAllPresent(Lookups(ids, server, tokens));
  }
}
