/**
 * The catalog logic of the application entry point: the genre index built from
 * the movie list, the choice of class when a stored movie is restored, and the
 * built-in mock catalog.
 */
module Catalog {
  import opened Wrappers
  import opened Strings
  import opened Movies

  /** The bucket of a movie: the first comma-separated token of its genre, trimmed. */
  function GenreKey(m: Movie): (k: string)
    ensures ',' !in k
    ensures k != [] ==> !IsWhitespace(k[0]) && !IsWhitespace(k[|k| - 1])
  {
    var head := FirstField(Or(m.genre, "General"), ',');
    TrimKeepsAbsent(head, ',');
    Trim(head)
  }

  /** A movie without a genre goes to "General"; a genre without commas or outer blanks is its own key. */
  lemma GenreKeyCases(m: Movie)
    ensures m.genre == "" ==> GenreKey(m) == "General"
    ensures ',' !in m.genre && m.genre != "" && !IsWhitespace(m.genre[0]) && !IsWhitespace(m.genre[|m.genre| - 1])
      ==> GenreKey(m) == m.genre
  {
    var g := Or(m.genre, "General");
    if m.genre == "" {
      assert g == "General";
      FirstFieldWhole(g, ',');
      TrimUnchanged(g);
    } else if ',' !in m.genre && !IsWhitespace(m.genre[0]) && !IsWhitespace(m.genre[|m.genre| - 1]) {
      FirstFieldWhole(g, ',');
      TrimUnchanged(g);
    }
  }

  type Index<T> = map<string, seq<T>>

  /** Append `m` to the bucket of `k`, opening the bucket if there is none. */
  function AddTo<T>(g: Index<T>, k: string, m: T): Index<T>
  {
    g[k := (if k in g then g[k] else []) + [m]]
  }

  /** The index the loop of `groupMoviesByGenre` builds, item by item, under `key`. */
  function Group<T>(ms: seq<T>, key: T -> string): Index<T>
    decreases |ms|
  {
    if ms == [] then map[]
    else AddTo(Group(ms[..|ms| - 1], key), key(ms[|ms| - 1]), ms[|ms| - 1])
  }

  /** The items of `ms` whose key is `k`, in list order. */
  function Bucket<T>(ms: seq<T>, key: T -> string, k: string): seq<T>
    decreases |ms|
  {
    if ms == [] then []
    else Bucket(ms[..|ms| - 1], key, k) + (if key(ms[|ms| - 1]) == k then [ms[|ms| - 1]] else [])
  }

  /** `groupMoviesByGenre(movies)`. */
  method GroupMoviesByGenre(movies: seq<Movie>) returns (grouped: Index<Movie>)
    ensures grouped == Group(movies, GenreKey)
  {
    grouped := map[];
    for i := 0 to |movies|
      invariant grouped == Group(movies[..i], GenreKey)
    {
      var m := movies[i];
      var mainGenre := GenreKey(m);
      var bucket := if mainGenre in grouped then grouped[mainGenre] else [];
      grouped := grouped[mainGenre := bucket + [m]];
      GroupStep(movies, GenreKey, i);
    }
    WholePrefix(movies);
  }

  lemma WholePrefix<T>(ms: seq<T>)
    ensures ms[..|ms|] == ms
  {
  }

  /** Grouping one more item of a list: its key gains a bucket if needed, and only that bucket grows. */
  lemma GroupStep<T>(ms: seq<T>, key: T -> string, i: nat)
    requires i < |ms|
    ensures Group(ms[..i + 1], key) == AddTo(Group(ms[..i], key), key(ms[i]), ms[i])
  {
    assert ms[..i + 1][..i] == ms[..i];
  }

  /**
   * The index has a bucket for exactly the keys that occur, and the bucket of a
   * key holds exactly the items with that key, in list order.
   */
  lemma {:induction false} GroupIsBuckets<T>(ms: seq<T>, key: T -> string)
    ensures forall k :: k in Group(ms, key) <==> exists i :: 0 <= i < |ms| && key(ms[i]) == k
    ensures forall k :: k in Group(ms, key) ==> Group(ms, key)[k] == Bucket(ms, key, k)
    ensures forall k :: k !in Group(ms, key) ==> Bucket(ms, key, k) == []
    decreases |ms|
  {
    if ms != [] {
      var init := ms[..|ms| - 1];
      GroupIsBuckets(init, key);
      forall k ensures k in Group(ms, key) <==> exists i :: 0 <= i < |ms| && key(ms[i]) == k {
        if k in Group(init, key) {
          var i :| 0 <= i < |init| && key(init[i]) == k;
          assert ms[i] == init[i];
        }
        if exists i :: 0 <= i < |ms| && key(ms[i]) == k {
          var i :| 0 <= i < |ms| && key(ms[i]) == k;
          if i < |init| {
            assert init[i] == ms[i];
          }
        }
      }
    }
  }

  /** An item is in bucket `k` exactly when it is in the list and its key is `k`. */
  lemma {:induction false} BucketMember<T>(ms: seq<T>, key: T -> string, k: string, m: T)
    ensures m in Bucket(ms, key, k) <==> m in ms && key(m) == k
    decreases |ms|
  {
    if ms != [] {
      var init := ms[..|ms| - 1];
      BucketMember(init, key, k, m);
      assert ms == init + [ms[|ms| - 1]];
    }
  }

  /** The buckets of a concatenation are the concatenated buckets: appending keeps each bucket's order. */
  lemma {:induction false} BucketAppend<T>(a: seq<T>, b: seq<T>, key: T -> string, k: string)
    ensures Bucket(a + b, key, k) == Bucket(a, key, k) + Bucket(b, key, k)
    decreases |b|
  {
    if b == [] {
      assert a + b == a;
    } else {
      var b' := b[..|b| - 1];
      assert (a + b)[..|a + b| - 1] == a + b';
      BucketAppend(a, b', key, k);
    }
  }

  /** Appending items to the list appends them, in order, to the end of their buckets. */
  lemma GroupAppend<T>(before: seq<T>, added: seq<T>, key: T -> string, k: string)
    ensures var g := Group(before + added, key);
      k in g ==> g[k] == (if k in Group(before, key) then Group(before, key)[k] else []) + Bucket(added, key, k)
  {
    GroupIsBuckets(before + added, key);
    GroupIsBuckets(before, key);
    BucketAppend(before, added, key, k);
  }

  /** Total size of the buckets of `ks`. */
  function BucketSizes<T>(ms: seq<T>, key: T -> string, ks: seq<string>): nat
    decreases |ks|
  {
    if ks == [] then 0 else |Bucket(ms, key, ks[0])| + BucketSizes(ms, key, ks[1..])
  }

  /** Adding one item adds one to the bucket of its key and nothing to the others. */
  lemma {:induction false} BucketSizesSnoc<T>(ms: seq<T>, key: T -> string, m: T, ks: seq<string>)
    requires Distinct(ks)
    ensures BucketSizes(ms + [m], key, ks) == BucketSizes(ms, key, ks) + (if key(m) in ks then 1 else 0)
    decreases |ks|
  {
    if ks != [] {
      assert (ms + [m])[..|ms + [m]| - 1] == ms;
      BucketSizesSnoc(ms, key, m, ks[1..]);
      if key(m) == ks[0] {
        assert key(m) !in ks[1..];
      }
    }
  }

  lemma {:induction false} BucketSizesEmpty<T>(key: T -> string, ks: seq<string>)
    ensures BucketSizes([], key, ks) == 0
    decreases |ks|
  {
    if ks != [] {
      BucketSizesEmpty(key, ks[1..]);
    }
  }

  /** Over distinct keys covering every item, the bucket sizes add up to the list length. */
  lemma {:induction false} BucketSizesCover<T>(ms: seq<T>, key: T -> string, ks: seq<string>)
    requires Distinct(ks)
    requires forall i :: 0 <= i < |ms| ==> key(ms[i]) in ks
    ensures BucketSizes(ms, key, ks) == |ms|
    decreases |ms|
  {
    if ms == [] {
      BucketSizesEmpty(key, ks);
    } else {
      var init := ms[..|ms| - 1];
      BucketSizesCover(init, key, ks);
      assert init + [ms[|ms| - 1]] == ms;
      BucketSizesSnoc(init, key, ms[|ms| - 1], ks);
    }
  }

  /** Total size of the index's buckets listed in `ks`. */
  function IndexSize<T>(g: Index<T>, ks: seq<string>): nat
    requires forall k :: k in ks ==> k in g
    decreases |ks|
  {
    if ks == [] then 0 else |g[ks[0]]| + IndexSize(g, ks[1..])
  }

  lemma {:induction false} IndexSizeIsBucketSizes<T>(ms: seq<T>, key: T -> string, ks: seq<string>)
    requires forall k :: k in ks ==> k in Group(ms, key)
    requires forall k :: k in Group(ms, key) ==> Group(ms, key)[k] == Bucket(ms, key, k)
    ensures IndexSize(Group(ms, key), ks) == BucketSizes(ms, key, ks)
    decreases |ks|
  {
    if ks != [] {
      IndexSizeIsBucketSizes(ms, key, ks[1..]);
    }
  }

  /**
   * Grouping is a partition: each item lies in the bucket of its key and in no
   * other, and the bucket sizes, over the keys listed once each, add up to the
   * number of items.
   */
  lemma GroupPartition<T>(ms: seq<T>, key: T -> string, ks: seq<string>)
    requires Distinct(ks)
    requires forall k :: k in ks <==> k in Group(ms, key)
    ensures IndexSize(Group(ms, key), ks) == |ms|
    ensures forall i :: 0 <= i < |ms| ==> key(ms[i]) in Group(ms, key) && ms[i] in Group(ms, key)[key(ms[i])]
    ensures forall i, k :: 0 <= i < |ms| && k in Group(ms, key) && ms[i] in Group(ms, key)[k] ==> k == key(ms[i])
  {
    GroupIsBuckets(ms, key);
    IndexSizeIsBucketSizes(ms, key, ks);
    BucketSizesCover(ms, key, ks);
    forall i | 0 <= i < |ms| ensures key(ms[i]) in Group(ms, key) && ms[i] in Group(ms, key)[key(ms[i])] {
      BucketMember(ms, key, key(ms[i]), ms[i]);
    }
    forall i, k | 0 <= i < |ms| && k in Group(ms, key) && ms[i] in Group(ms, key)[k] ensures k == key(ms[i]) {
      BucketMember(ms, key, k, ms[i]);
    }
  }

  /**
   * The names every plain JavaScript object inherits from `Object.prototype`
   * (section 20.1.3 of ECMA-262 and its Annex B). Looking one of them up in
   * the `{}` that `groupMoviesByGenre` fills yields an inherited, truthy value
   * that has no `push` method.
   */
  predicate PrototypeMember(k: string)
  {
    || k == "constructor" || k == "hasOwnProperty" || k == "isPrototypeOf"
    || k == "propertyIsEnumerable" || k == "toLocaleString" || k == "toString"
    || k == "valueOf" || k == "__proto__" || k == "__defineGetter__"
    || k == "__defineSetter__" || k == "__lookupGetter__" || k == "__lookupSetter__"
  }

  /** What `grouped[k]` finds in a plain object: an own bucket, an inherited member, or nothing. */
  datatype Slot<T> = Own(bucket: seq<T>) | Inherited | Missing

  function SlotOf<T>(g: Index<T>, k: string): (r: Slot<T>)
    ensures r.Own? <==> k in g
    ensures r.Inherited? <==> k !in g && PrototypeMember(k)
  {
    if k in g then Own(g[k]) else if PrototypeMember(k) then Inherited else Missing
  }

  /**
   * The loop of `groupMoviesByGenre` as written over a plain object: an
   * inherited member passes the `!grouped[k]` test, and the `push` on it throws
   * a `TypeError`, here `None`.
   */
  function GroupAsWritten<T>(ms: seq<T>, key: T -> string): Option<Index<T>>
    decreases |ms|
  {
    if ms == [] then Some(map[])
    else
      var last := ms[|ms| - 1];
      match GroupAsWritten(ms[..|ms| - 1], key)
      case None => None
      case Some(g) =>
        match SlotOf(g, key(last))
        case Own(b) => Some(g[key(last) := b + [last]])
        case Missing => Some(g[key(last) := [last]])
        case Inherited => None
  }

  /**
   * The loop as written throws exactly when some key names an inherited
   * member, and otherwise builds the intended index.
   */
  lemma {:induction false} GroupAsWrittenIff<T>(ms: seq<T>, key: T -> string)
    ensures GroupAsWritten(ms, key).None? <==> exists i :: 0 <= i < |ms| && PrototypeMember(key(ms[i]))
    ensures GroupAsWritten(ms, key).Some? ==> GroupAsWritten(ms, key) == Some(Group(ms, key))
    decreases |ms|
  {
    if ms != [] {
      var init := ms[..|ms| - 1];
      var last := ms[|ms| - 1];
      GroupAsWrittenIff(init, key);
      if exists i :: 0 <= i < |init| && PrototypeMember(key(init[i])) {
        var i :| 0 <= i < |init| && PrototypeMember(key(init[i]));
        assert ms[i] == init[i];
      } else {
        forall i | 0 <= i < |ms| - 1 ensures !PrototypeMember(key(ms[i])) {
          assert ms[i] == init[i];
        }
        GroupIsBuckets(init, key);
        if key(last) !in Group(init, key) {
          assert [] + [last] == [last];
        }
      }
    }
  }

  /** One item whose key names an inherited member is enough to make the loop as written throw. */
  lemma GroupAsWrittenThrows<T>(m: T, key: T -> string)
    requires PrototypeMember(key(m))
    ensures GroupAsWritten([m], key) == None
  {
    assert [m][..0] == [];
  }

  /** A movie whose genre is "constructor" has that word as its key, ... */
  lemma ConstructorKey(m: Movie)
    requires m.genre == "constructor"
    ensures GenreKey(m) == "constructor"
  {
    var g := m.genre;
    assert g[0] == 'c' && g[|g| - 1] == 'r';
    assert ',' !in g;
    assert Or(g, "General") == g;
    FirstFieldWhole(g, ',');
    TrimUnchanged(g);
  }

  /** ... so it makes the loop as written throw. */
  lemma ConstructorGenreThrows(m: Movie)
    requires m.genre == "constructor"
    ensures GroupAsWritten([m], GenreKey) == None
  {
    ConstructorKey(m);
    var k := GenreKey(m);
    assert PrototypeMember(k);
    GroupAsWrittenThrows(m, GenreKey);
  }

  /** "Action, Sci-Fi" goes to the "Action" bucket. */
  lemma ActionSciFiKey(m: Movie)
    requires m.genre == "Action, Sci-Fi"
    ensures GenreKey(m) == "Action"
  {
    var g := m.genre;
    assert Or(g, "General") == g;
    assert g[6] == ',' && ',' !in g[..6];
    FirstFieldAt(g, ',', 6);
    var head := g[..6];
    assert head == "Action";
    TrimUnchanged(head);
  }

  /** "Comedy" goes to the "Comedy" bucket. */
  lemma ComedyKey(m: Movie)
    requires m.genre == "Comedy"
    ensures GenreKey(m) == "Comedy"
  {
    var g := m.genre;
    assert g[0] == 'C' && g[|g| - 1] == 'y';
    assert ',' !in g;
    assert Or(g, "General") == g;
    FirstFieldWhole(g, ',');
    TrimUnchanged(g);
  }

  /** An action movie and then a comedy give one bucket each, keyed by their main genres. */
  lemma TwoGenreScenario(a: Movie, b: Movie)
    requires a.genre == "Action, Sci-Fi" && b.genre == "Comedy"
    ensures Group([a, b], GenreKey) == map["Action" := [a], "Comedy" := [b]]
  {
    ActionSciFiKey(a);
    ComedyKey(b);
    var ka := GenreKey(a);
    var kb := GenreKey(b);
    assert ka != kb by {
      assert ka[0] == 'A' && kb[0] == 'C';
    }
    GroupTwo(a, b, GenreKey);
  }

  /** Two items with different keys give two buckets of one item each. */
  lemma GroupTwo<T>(a: T, b: T, key: T -> string)
    requires key(a) != key(b)
    ensures Group([a, b], key) == map[key(a) := [a], key(b) := [b]]
  {
    assert [a, b][..1] == [a];
    assert [a][..0] == [];
    assert Group([a], key) == map[key(a) := [a]] by {
      assert [] + [a] == [a];
    }
    assert [] + [b] == [b];
  }

  /** `restoreMovie(json)`: the class the genre selects, filled in by its constructor. */
  function RestoreMovie(d: MovieData, token: string): (m: Movie)
    ensures m.kind == KindForGenre(d.genre)
    ensures WellFormed(m) && KindConsistent(m) && KeepsGiven(d, m)
  {
    GeneralIsPlain();
    assert KindForGenre("") == Plain;
    NewMovie(KindForGenre(d.genre), d, token)
  }

  /** A well-formed movie comes back from its stored form unchanged, its class chosen by its genre. */
  lemma RestoreRoundTrip(m: Movie, token: string)
    requires WellFormed(m)
    ensures RestoreMovie(ToJson(m), token) == m.(kind := KindForGenre(m.genre))
    ensures KindConsistent(m) ==> RestoreMovie(ToJson(m), token) == m
  {
  }

  /** `getMockMovies()`: the catalog shown when no provider key is configured. */
  function MockMovies(): (r: seq<Movie>)
    ensures |r| == 5
  {
    [Inception(), ForrestGump(), Avengers(), FightClub(), Shawshank()]
  }

  /** A poster address on the image host the mock catalog uses. */
  function MediaPoster(name: string): string
  {
    "https://m.media-amazon.com/images/M/" + name + "._V1_SX300.jpg"
  }

  // The long literals below are written in short pieces, which keeps the
  // proofs that mention the mock catalog small.

  function InceptionData(): MovieData
  {
    MovieData("tt1375666", "Inception", "2010",
      MediaPoster(
        "MV5BMjAxMzY3Njcx" +
        "NF5BMl5BanBnXkFt" +
        "ZTcwNTI5OTM0Mw@@"),
      "A thief who" +
      " steals" +
      " corporate" +
      " secrets through" +
      " the use of" +
      " dream-sharing" +
      " technology.",
      "Action, " + "Sci-Fi, " + "Thriller", "8.8")
  }

  function Inception(): Movie
  {
    NewMovie(Action, InceptionData(), "")
  }

  function ForrestGumpData(): MovieData
  {
    MovieData("tt0109830", "Forrest Gump", "1994",
      MediaPoster(
        "MV5BNWIwODRlZTUt" +
        "Y2U3ZS00Yzg1LWJh" +
        "NzYtMmZiYmEyNmU1" +
        "NjMzXkEyXkFQI1Ba" +
        "nBnXkFtZTgwMTQ4N" +
        "jkxNjE@"),
      "The presidencies" +
      " of Kennedy and" +
      " Johnson, the" +
      " Vietnam War," +
      " and more.",
      "Comedy" + ", Drama, Romance", "8.8")
  }

  function ForrestGump(): Movie
  {
    NewMovie(Comedy, ForrestGumpData(), "")
  }

  function AvengersData(): MovieData
  {
    MovieData("tt0848228", "The Avengers", "2012",
      MediaPoster(
        "MV5BNDYxNjQyMjAt" +
        "NTdiOS00NGYwLWFm" +
        "NTAtNThmYjU5ZGI2" +
        "YTI1XkEyXkFQI1Ba" +
        "nBnXkFtZTcwMTM0N" +
        "TUxMw@@"),
      "Earth's" +
      " mightiest" +
      " heroes must" +
      " come together" +
      " to stop Loki.",
      "Action, Sci-Fi", "8.0")
  }

  function Avengers(): Movie
  {
    NewMovie(Action, AvengersData(), "")
  }

  function FightClubData(): MovieData
  {
    MovieData("tt0137523", "Fight Club", "1999",
      MediaPoster(
        "MV5BNDIzNDU0YzEt" +
        "YzE5NS00YTA5LTg2" +
        "YzItMTkzZjc1ZTdm" +
        "ZGM0XkEyXkFQI1Ba" +
        "nBnXkFtZTcwMDU5N" +
        "jAyNA@@"),
      "An insomniac and" +
      " a soap salesman" +
      " form an" +
      " underground" +
      " fight club.",
      "Comedy" + ", Drama", "8.8")
  }

  function FightClub(): Movie
  {
    NewMovie(Comedy, FightClubData(), "")
  }

  function ShawshankData(): MovieData
  {
    MovieData("tt0111161", "The Shawshank Redemption", "1994",
      MediaPoster(
        "MV5BNDE3ODcxYzMt" +
        "Y2YzZC00NmNkLWJi" +
        "NDEtZDViZWM2MzIx" +
        "ZDYwXkEyXkFQI1Ba" +
        "nBnXkFtZTcwMTIwN" +
        "jAzNw@@"),
      "Two imprisoned" +
      " men bond over a" +
      " number of" +
      " years.",
      "Drama", "9.3")
  }

  function Shawshank(): Movie
  {
    NewMovie(Plain, ShawshankData(), "")
  }

  /** A genre that starts with "Action" selects `ActionMovie`. */
  lemma ActionAt(genre: string)
    requires |genre| >= 6 && genre[..6] == "Action"
    ensures KindForGenre(genre) == Action
  {
    var g := Lower(genre);
    assert g[..6] == "action";
    ContainsAt(g, "action", 0);
  }

  /** "Comedy" followed by text without a `t` selects `ComedyMovie`. */
  lemma ComedyAt(rest: string)
    requires 't' !in rest && 'T' !in rest
    ensures KindForGenre("Comedy" + rest) == Comedy
  {
    var genre := "Comedy" + rest;
    var g := Lower(genre);
    assert g[..6] == "comedy";
    ContainsAt(g, "comedy", 0);
    assert 't' !in genre;
    LowerMissing(genre, 't');
    MissingCharNotContained(g, "action", 2);
  }

  /** Every movie is well-formed and of the class its genre selects. */
  predicate CatalogValid(ms: seq<Movie>)
  {
    forall i :: 0 <= i < |ms| ==> WellFormed(ms[i]) && KindConsistent(ms[i])
  }

  /** The mock catalog holds five well-formed movies, each of the class its genre selects. */
  lemma MockMoviesValid()
    ensures CatalogValid(MockMovies())
  {
    var ms := MockMovies();
    forall i | 0 <= i < |ms|
      ensures WellFormed(ms[i]) && KindConsistent(ms[i])
    {
      if i == 0 {
        InceptionValid();
      } else if i == 1 {
        ForrestGumpValid();
      } else if i == 2 {
        AvengersValid();
      } else if i == 3 {
        FightClubValid();
      } else {
        ShawshankValid();
      }
    }
  }

  lemma InceptionValid()
    ensures KindConsistent(Inception())
  {
    ActionAt(InceptionData().genre);
  }

  lemma ForrestGumpValid()
    ensures KindConsistent(ForrestGump())
  {
    ComedyAt(", Drama, Romance");
  }

  lemma AvengersValid()
    ensures KindConsistent(Avengers())
  {
    ActionAt(AvengersData().genre);
  }

  lemma FightClubValid()
    ensures KindConsistent(FightClub())
  {
    ComedyAt(", Drama");
  }

  lemma ShawshankValid()
    ensures KindConsistent(Shawshank())
  {
    NoKeyword(ShawshankData().genre);
  }
}
