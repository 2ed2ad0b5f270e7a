/**
 * The movie records: `Movie` and its two display variants `ActionMovie` and
 * `ComedyMovie`, collapsed into one datatype whose `kind` names the class that
 * built it. A record never changes after construction.
 */
module Movies {
  import opened Wrappers
  import opened Strings

  /** The class a movie was built with. */
  datatype Kind = Plain | Action | Comedy

  /** The plain record a movie is built from and serialised to (`""` for a missing field). */
  datatype MovieData = MovieData(
    id: string, title: string, year: string, poster: string,
    plot: string, genre: string, imdbRating: string)

  datatype Movie = Movie(
    kind: Kind,
    id: string, title: string, year: string, poster: string,
    plot: string, genre: string, imdbRating: string)

  /** The poster a movie gets when it is constructed without one. */
  const PlaceholderPoster := "https://via.placeholder.com/270x200?text=No+Poster"

  /** The inline SVG used when a poster is missing on a card or from the provider. */
  const NoPosterSvg := "data:image/svg+xml," + "%3Csvg xmlns='http://www.w3.org/2000/svg' width='270' height='200'%3E%3Crect fill='%231a1a1a' width='270' height='200'/%3E%3Ctext fill='%23666' x='135' y='100' dominant-baseline='middle' text-anchor='middle' font-family='sans-serif' font-size='14'%3ENo Poster%3C/text%3E%3C/svg%3E"

  /** The genre a variant's constructor supplies when none is given. */
  function GenreDefault(k: Kind): string
  {
    match k
    case Plain => "General"
    case Action => "Action"
    case Comedy => "Comedy"
  }

  /** The id generated for a movie without one; `token` stands for the clock and random part. */
  function GeneratedId(token: string): string
  {
    "movie_" + token
  }

  /** Every field the constructor defaults to a non-empty value is non-empty. */
  predicate WellFormed(m: Movie)
  {
    m.id != "" && m.title != "" && m.poster != "" && m.plot != "" && m.genre != "" && m.imdbRating != ""
  }

  /** The non-empty fields of `d` are the fields of `m`. */
  predicate KeepsGiven(d: MovieData, m: Movie)
  {
    && (d.id != "" ==> m.id == d.id)
    && (d.title != "" ==> m.title == d.title)
    && m.year == d.year
    && (d.poster != "" ==> m.poster == d.poster)
    && (d.plot != "" ==> m.plot == d.plot)
    && (d.genre != "" ==> m.genre == d.genre)
    && (d.imdbRating != "" ==> m.imdbRating == d.imdbRating)
  }

  /**
   * `new Movie(d)`, `new ActionMovie(d)` or `new ComedyMovie(d)`: a variant first
   * fills in its own genre, then the base constructor fills in every falsy field.
   */
  function NewMovie(k: Kind, d: MovieData, token: string): (m: Movie)
    ensures m.kind == k && WellFormed(m) && KeepsGiven(d, m)
    ensures m.genre == Or(d.genre, GenreDefault(k))
    ensures d.id == "" ==> m.id == GeneratedId(token)
    ensures d.title == "" ==> m.title == "Unknown"
    ensures d.poster == "" ==> m.poster == PlaceholderPoster
    ensures d.plot == "" ==> m.plot == "No description available."
    ensures d.imdbRating == "" ==> m.imdbRating == "N/A"
  {
    var genre := if k == Plain then d.genre else Or(d.genre, GenreDefault(k));
    Movie(k,
      Or(d.id, GeneratedId(token)),
      Or(d.title, "Unknown"),
      Or(d.year, ""),
      Or(d.poster, PlaceholderPoster),
      Or(d.plot, "No description available."),
      Or(genre, "General"),
      Or(d.imdbRating, "N/A"))
  }

  /** `toJSON()`: the seven fields, without the class. */
  function ToJson(m: Movie): (d: MovieData)
    ensures WellFormed(m) ==> forall token :: NewMovie(m.kind, d, token) == m
  {
    MovieData(m.id, m.title, m.year, m.poster, m.plot, m.genre, m.imdbRating)
  }

  /** `Movie.fromJSON(d)`: always the base class. */
  function FromJson(d: MovieData, token: string): (m: Movie)
    ensures m.kind == Plain
  {
    NewMovie(Plain, d, token)
  }

  /** A constructed movie survives `toJSON` then `fromJSON` field for field; only the class is lost. */
  lemma JsonRoundTrip(m: Movie, token: string)
    requires WellFormed(m)
    ensures FromJson(ToJson(m), token) == m.(kind := Plain)
    ensures ToJson(FromJson(ToJson(m), token)) == ToJson(m)
  {
  }

  /** Two movies of one class with the same serialised form are the same movie. */
  lemma ToJsonInjective(a: Movie, b: Movie)
    requires a.kind == b.kind && ToJson(a) == ToJson(b)
    ensures a == b
  {
  }

  /**
   * The class chosen for a genre string (`restoreMovie`, `createMovieFromOMDB`):
   * "action" anywhere in the lower-cased genre wins over "comedy".
   */
  function KindForGenre(genre: string): (k: Kind)
    ensures k == Action <==> Contains(Lower(genre), "action")
    ensures k == Comedy <==> !Contains(Lower(genre), "action") && Contains(Lower(genre), "comedy")
  {
    var g := Lower(genre);
    if Contains(g, "action") then Action
    else if Contains(g, "comedy") then Comedy
    else Plain
  }

  /** A genre naming both wins for action: "Action, Comedy" restores as an `ActionMovie`. */
  lemma ActionBeforeComedy()
    ensures KindForGenre("Action, Comedy") == Action
  {
    var g := Lower("Action, Comedy");
    assert g[..6] == "action";
    ContainsAt(g, "action", 0);
  }

  /** A string lacking one of the characters of `t` does not contain `t`. */
  lemma MissingCharNotContained(s: string, t: string, j: nat)
    requires j < |t| && t[j] !in s
    ensures !Contains(s, t)
  {
    ContainsIff(s, t);
  }

  /** A lower-case letter absent from `s` in both cases is absent from `Lower(s)`. */
  lemma LowerMissing(s: string, c: char)
    requires 'a' <= c <= 'z' && c !in s && (c as int - 32) as char !in s
    ensures c !in Lower(s)
  {
  }

  /** A genre with no `t` (so no "action") and no `y` (so no "comedy") is an ordinary `Movie`. */
  lemma NoKeyword(genre: string)
    requires 't' !in genre && 'T' !in genre && 'y' !in genre && 'Y' !in genre
    ensures KindForGenre(genre) == Plain
  {
    LowerMissing(genre, 't');
    MissingCharNotContained(Lower(genre), "action", 2);
    LowerMissing(genre, 'y');
    MissingCharNotContained(Lower(genre), "comedy", 5);
  }

  /** The default genre "General" is neither action nor comedy. */
  lemma GeneralIsPlain()
    ensures KindForGenre("General") == Plain
  {
    NoKeyword("General");
  }

  /** The class of a movie is the one its genre selects. */
  predicate KindConsistent(m: Movie)
  {
    m.kind == KindForGenre(m.genre)
  }

  /** The short plot shown on a card. */
  function ShortPlot(plot: string): (r: string)
    ensures |r| <= 123
    ensures |plot| <= 120 ==> r == plot
    ensures |plot| > 120 ==> |r| == 123 && r[..120] == plot[..120] && r[120..] == "..."
  {
    Truncate(plot, 120)
  }

  /** `userRating ? userRating + '/5' : 'IMDB: ' + imdbRating`; `0` and `null` are falsy. */
  function RatingLabel(userRating: Option<int>, imdbRating: string): string
  {
    if userRating.Some? && userRating.value != 0 then IntToString(userRating.value) + "/5"
    else "IMDB: " + imdbRating
  }

  /** The label shows the user's stars exactly when the user rating is truthy. */
  lemma RatingLabelCases(userRating: Option<int>, imdbRating: string)
    ensures var r := RatingLabel(userRating, imdbRating);
      && (StartsWith(r, "IMDB: ") <==> userRating == None || userRating == Some(0))
      && (userRating.Some? && userRating.value != 0 ==> r == IntToString(userRating.value) + "/5")
      && (userRating == None || userRating == Some(0) ==> r[6..] == imdbRating)
  {
    var r := RatingLabel(userRating, imdbRating);
    if userRating.Some? && userRating.value != 0 {
      var s := IntToString(userRating.value);
      assert r[0] == s[0];
      assert r[0] != 'I';
    } else {
      assert r[..6] == "IMDB: ";
    }
  }

  /** `getGenreDisplayStyle()`, and the base card's fixed class. */
  function StyleClass(k: Kind): string
  {
    match k
    case Plain => "movie-card--default"
    case Action => "movie-card--action"
    case Comedy => "movie-card--comedy"
  }

  /** `getGenreBadge()`; the base card has no badge. */
  function Badge(k: Kind): Option<string>
  {
    match k
    case Plain => None
    case Action => Some("<i class=\"fas fa-bomb\"></i> Action")
    case Comedy => Some("<i class=\"fas fa-face-laugh\"></i> Comedy")
  }

  /** The badge text of a variant ends in its genre name. */
  lemma BadgeNamesGenre(k: Kind)
    ensures k == Plain <==> Badge(k) == None
    ensures k == Action ==> var b := Badge(k).value; |b| >= 7 && b[|b| - 7..] == " Action"
    ensures k == Comedy ==> var b := Badge(k).value; |b| >= 7 && b[|b| - 7..] == " Comedy"
  {
  }

  /** The values `getDisplayHTML(userRating)` interpolates into a card. */
  datatype Card = Card(
    styleClass: string, movieId: string, badge: Option<string>,
    imageSrc: string, imageAlt: string, caption: string,
    description: string, ratingLabel: string, starsMovieId: string)

  function CardOf(m: Movie, userRating: Option<int>): Card
  {
    var src := if m.kind == Comedy then m.poster else EscapeQuotes(Or(m.poster, NoPosterSvg));
    var alt := if m.kind == Comedy then m.title else "";
    Card(StyleClass(m.kind), m.id, Badge(m.kind), src, alt,
      m.title + " (" + m.year + ")", ShortPlot(m.plot), RatingLabel(userRating, m.imdbRating), m.id)
  }

  /**
   * The base and action cards quote-escape the poster, so their `src` attribute
   * holds no raw double quote, and a poster without quotes is shown as it is;
   * the comedy card puts the poster and the title in verbatim.
   */
  lemma CardImage(m: Movie, userRating: Option<int>)
    ensures var c := CardOf(m, userRating);
      && (m.kind != Comedy ==> '"' !in c.imageSrc && c.imageAlt == "")
      && (m.kind != Comedy && m.poster != "" && '"' !in m.poster ==> c.imageSrc == m.poster)
      && (m.kind == Comedy ==> c.imageSrc == m.poster && c.imageAlt == m.title)
  {
  }

  /** Every card carries its variant's class, the movie id twice, and the shared plot and label rules. */
  lemma CardCommon(m: Movie, userRating: Option<int>)
    ensures var c := CardOf(m, userRating);
      && c.styleClass == StyleClass(m.kind) && c.movieId == m.id && c.starsMovieId == m.id
      && |c.description| <= 123
      && (|m.plot| <= 120 ==> c.description == m.plot)
      && c.ratingLabel == RatingLabel(userRating, m.imdbRating)
  {
  }
}
