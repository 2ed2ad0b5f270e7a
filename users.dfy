/** A user profile and its private map from movie id to star rating. */
module Users {
  import opened Wrappers
  import opened Strings
  import opened Ratings

  /** A JavaScript `Map` from movie id to rating: its keys in insertion order, and its contents. */
  datatype RatingMap = RatingMap(keys: seq<string>, values: map<string, int>)

  /** Each key is listed once, and the listed keys are the keys with a value. */
  ghost predicate WellFormedMap(m: RatingMap)
  {
    Distinct(m.keys) && forall k :: k in m.keys <==> k in m.values
  }

  const EmptyRatings: RatingMap := RatingMap([], map[])

  /** `map.set(k, v)`: a new key goes last, a key already present keeps its place. */
  function Put(m: RatingMap, k: string, v: int): (r: RatingMap)
    requires WellFormedMap(m)
    ensures WellFormedMap(r)
  {
    RatingMap(if k in m.values then m.keys else m.keys + [k], m.values[k := v])
  }

  /** `map.has(k) ? map.get(k) : null`. */
  function Lookup(m: RatingMap, k: string): (r: Option<int>)
    ensures r.Some? <==> k in m.values
    ensures r.Some? ==> r.value == m.values[k]
  {
    if k in m.values then Some(m.values[k]) else None
  }

  /** `Object.fromEntries(map)` read back by `Object.entries`: the pairs in key order. */
  function Entries(m: RatingMap): (es: seq<(string, int)>)
    requires WellFormedMap(m)
    ensures |es| == |m.keys|
    ensures forall i :: 0 <= i < |es| ==> es[i] == (m.keys[i], m.values[m.keys[i]])
  {
    seq(|m.keys|, i requires 0 <= i < |m.keys| => (m.keys[i], m.values[m.keys[i]]))
  }

  /** `new Map(entries)`: the pairs set one after another, a later duplicate overwriting. */
  function FromEntries(es: seq<(string, int)>): (m: RatingMap)
    ensures WellFormedMap(m)
    decreases |es|
  {
    if es == [] then EmptyRatings
    else Put(FromEntries(es[..|es| - 1]), es[|es| - 1].0, es[|es| - 1].1)
  }

  /** Setting a key: its new value, every other key untouched, and no key listed twice. */
  lemma {:induction false} PutSpec(m: RatingMap, k: string, v: int)
    requires WellFormedMap(m)
    ensures Lookup(Put(m, k, v), k) == Some(v)
    ensures forall j :: j != k ==> Lookup(Put(m, k, v), j) == Lookup(m, j)
    ensures k in m.values ==> Put(m, k, v).keys == m.keys
    ensures k !in m.values ==> Put(m, k, v).keys == m.keys + [k]
    ensures forall j :: j in Put(m, k, v).keys <==> j in m.keys || j == k
  {
  }

  /** The first `n` keys of `m` with their values. */
  function PrefixMap(m: RatingMap, n: nat): RatingMap
    requires n <= |m.keys|
  {
    RatingMap(m.keys[..n], map k | k in m.values && k in m.keys[..n] :: m.values[k])
  }

  /** One more key of `m` is one more `set` on the shorter prefix. */
  lemma PrefixStep(m: RatingMap, n: nat)
    requires WellFormedMap(m) && 0 < n <= |m.keys|
    ensures PrefixMap(m, n) == Put(PrefixMap(m, n - 1), m.keys[n - 1], m.values[m.keys[n - 1]])
  {
    var prev := PrefixMap(m, n - 1);
    var k := m.keys[n - 1];
    assert m.keys[..n] == m.keys[..n - 1] + [k];
    var before := m.keys[..n - 1];
    assert k !in before by {
      forall i | 0 <= i < n - 1 ensures before[i] != k {
        assert before[i] == m.keys[i];
      }
    }
    assert k !in prev.values;
    var next := Put(prev, k, m.values[k]);
    assert next.keys == PrefixMap(m, n).keys;
    forall j ensures (j in next.values <==> j in PrefixMap(m, n).values)
      && (j in next.values ==> next.values[j] == PrefixMap(m, n).values[j])
    {
      assert j in m.keys[..n] <==> j in m.keys[..n - 1] || j == k;
    }
    assert next.values == PrefixMap(m, n).values;
  }

  lemma {:induction false} EntriesPrefix(m: RatingMap, n: nat)
    requires WellFormedMap(m) && n <= |m.keys|
    ensures FromEntries(Entries(m)[..n]) == PrefixMap(m, n)
    decreases n
  {
    var es := Entries(m);
    if n == 0 {
      assert es[..0] == [];
      assert PrefixMap(m, 0).values == map[];
    } else {
      var init := es[..n];
      var k := m.keys[n - 1];
      assert init[..n - 1] == es[..n - 1];
      assert init[n - 1] == (k, m.values[k]);
      assert FromEntries(init) == Put(FromEntries(es[..n - 1]), k, m.values[k]);
      EntriesPrefix(m, n - 1);
      PrefixStep(m, n);
    }
  }

  /** Restoring a snapshot gives back the same map, order included. */
  lemma SnapshotRoundTrip(m: RatingMap)
    requires WellFormedMap(m)
    ensures FromEntries(Entries(m)) == m
  {
    EntriesPrefix(m, |m.keys|);
    assert Entries(m)[..|m.keys|] == Entries(m);
    assert m.keys[..|m.keys|] == m.keys;
    assert PrefixMap(m, |m.keys|).values == m.values;
  }

  /** The argument of `new User(d)` and the result of `toJSON()`; `ratings` is `None` when it is not an object. */
  datatype UserData = UserData(id: string, name: string, avatar: string, ratings: Option<seq<(string, int)>>)

  /** The abstract value of a `User` object. */
  datatype Profile = Profile(id: string, name: string, avatar: string, ratings: RatingMap)

  ghost predicate ProfileValid(p: Profile)
  {
    p.id != "" && p.name != "" && p.avatar != "" && WellFormedMap(p.ratings)
  }

  const DefaultName := "Movie Fan"
  const DefaultAvatar := "https://via.placeholder.com/32?text=U"

  /** `new User(d)`; `token` stands for the clock reading in a generated id. */
  function NewProfile(d: UserData, token: string): (p: Profile)
    ensures ProfileValid(p) && p.ratings == EmptyRatings
    ensures d.id != "" ==> p.id == d.id
    ensures d.name != "" ==> p.name == d.name
    ensures d.avatar != "" ==> p.avatar == d.avatar
    ensures d.id == "" ==> p.id == "user_" + token
    ensures d.name == "" ==> p.name == DefaultName
    ensures d.avatar == "" ==> p.avatar == DefaultAvatar
  {
    Profile(Or(d.id, "user_" + token), Or(d.name, DefaultName), Or(d.avatar, DefaultAvatar), EmptyRatings)
  }

  /** `rateMovie(movieId, rating)`. */
  function Rate(p: Profile, movieId: string, rating: real): (q: Profile)
    requires ProfileValid(p)
    ensures ProfileValid(q)
  {
    p.(ratings := Put(p.ratings, movieId, ClampRating(rating)))
  }

  /** `loadRatings(obj)`: an object replaces the whole map, anything else is ignored. */
  function WithLoadedRatings(p: Profile, obj: Option<seq<(string, int)>>): (q: Profile)
    requires ProfileValid(p)
    ensures ProfileValid(q)
  {
    if obj.Some? then p.(ratings := FromEntries(obj.value)) else p
  }

  /** `toJSON()`: the profile fields and the ratings snapshot. */
  function ProfileJson(p: Profile): UserData
    requires ProfileValid(p)
  {
    UserData(p.id, p.name, p.avatar, Some(Entries(p.ratings)))
  }

  /**
   * After `rateMovie(id, r)` the rating of `id` is `r` rounded and clamped to 1..5;
   * every other id keeps its rating; `id` is listed once, and nothing else is added.
   */
  lemma RateSpec(p: Profile, movieId: string, rating: real)
    requires ProfileValid(p)
    ensures var q := Rate(p, movieId, rating);
      && Lookup(q.ratings, movieId) == Some(ClampRating(rating))
      && 1 <= q.ratings.values[movieId] <= 5
      && (forall other :: other != movieId ==> Lookup(q.ratings, other) == Lookup(p.ratings, other))
      && (forall k :: k in q.ratings.keys <==> k in p.ratings.keys || k == movieId)
      && Distinct(q.ratings.keys)
      && q.id == p.id && q.name == p.name && q.avatar == p.avatar
  {
    PutSpec(p.ratings, movieId, ClampRating(rating));
  }

  /** `loadRatings(getRatingsSnapshot())` leaves the map exactly as it was. */
  lemma ReloadSnapshot(p: Profile)
    requires ProfileValid(p)
    ensures WithLoadedRatings(p, Some(Entries(p.ratings))) == p
  {
    SnapshotRoundTrip(p.ratings);
  }

  /** A user serialised by `toJSON` and rebuilt with `new User(d)` then `loadRatings(d.ratings)` is the same user. */
  lemma ProfileRoundTrip(p: Profile, token: string)
    requires ProfileValid(p)
    ensures var d := ProfileJson(p); WithLoadedRatings(NewProfile(d, token), d.ratings) == p
  {
    SnapshotRoundTrip(p.ratings);
  }

  class User {
    var id: string
    var name: string
    var avatar: string
    var ratings: RatingMap

    function Value(): Profile
      reads this
    {
      Profile(id, name, avatar, ratings)
    }

    ghost predicate Valid()
      reads this
    {
      ProfileValid(Value())
    }

    constructor (d: UserData, token: string)
      ensures Valid() && Value() == NewProfile(d, token)
    {
      id := Or(d.id, "user_" + token);
      name := Or(d.name, DefaultName);
      avatar := Or(d.avatar, DefaultAvatar);
      ratings := EmptyRatings;
    }

    method RateMovie(movieId: string, rating: real)
      requires Valid()
      modifies this
      ensures Valid() && Value() == Rate(old(Value()), movieId, rating)
    {
      var valid := ClampRating(rating);
      ratings := Put(ratings, movieId, valid);
    }

    /** `getRating(movieId)`: the stored rating, or `null` for an id never rated. */
    function GetRating(movieId: string): (r: Option<int>)
      reads this
      ensures r.Some? <==> movieId in ratings.values
      ensures r.Some? ==> r.value == ratings.values[movieId]
    {
      Lookup(ratings, movieId)
    }

    /** `getRatedMovies()`: every rated id once, in the order first rated. */
    function GetRatedMovies(): (ids: seq<string>)
      reads this
      requires Valid()
      ensures Distinct(ids)
      ensures forall k :: k in ids <==> k in ratings.values
    {
      ratings.keys
    }

    /** `getRatingsSnapshot()`: one pair per rated id, holding its rating. */
    function GetRatingsSnapshot(): (es: seq<(string, int)>)
      reads this
      requires Valid()
      ensures |es| == |ratings.keys|
      ensures forall i :: 0 <= i < |es| ==> es[i].0 == ratings.keys[i] && Lookup(ratings, es[i].0) == Some(es[i].1)
    {
      Entries(ratings)
    }

    method LoadRatings(obj: Option<seq<(string, int)>>)
      requires Valid()
      modifies this
      ensures Valid() && Value() == WithLoadedRatings(old(Value()), obj)
    {
      if obj.Some? {
        ratings := FromEntries(obj.value);
      }
    }

    /** `toJSON()`. */
    function ToJson(): (d: UserData)
      reads this
      requires Valid()
      ensures d.id == id && d.name == name && d.avatar == avatar
      ensures d.ratings == Some(GetRatingsSnapshot())
    {
      ProfileJson(Value())
    }
  }
}
