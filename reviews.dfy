/** A user's review of a movie, holding one private star rating. */
module Reviews {
  import opened Wrappers
  import opened Strings
  import opened Ratings

  /** What `Number(value)` gives: not a number, an infinity, or a finite value. */
  datatype Num = NaN | PosInf | NegInf | Finite(value: real)

  /**
   * `Math.max(1, Math.min(5, Math.round(num)))` for a number: `Infinity` rounds
   * to itself and is clamped to 5, `-Infinity` to 1.
   */
  function ClampNum(v: Num): (r: int)
    requires !v.NaN?
    ensures 1 <= r <= 5
    ensures v.PosInf? ==> r == 5
    ensures v.NegInf? ==> r == 1
    ensures v.Finite? ==> r == ClampRating(v.value)
  {
    match v
    case PosInf => 5
    case NegInf => 1
    case Finite(x) => ClampRating(x)
  }

  /** The constructor argument; `rating` is `None` when it is `undefined`. */
  datatype ReviewData = ReviewData(movieId: string, userId: string, text: string, rating: Option<Num>, timestamp: string)

  /** The result of `toJSON()`. */
  datatype ReviewJson = ReviewJson(movieId: string, userId: string, text: string, rating: int, timestamp: string)

  /** The rating after `setRating(v)` on a review rated `current`. */
  function SetRatingOf(current: int, v: Num): (r: int)
    ensures v.NaN? ==> r == current
    ensures !v.NaN? ==> 1 <= r <= 5
    ensures v.PosInf? ==> r == 5
    ensures v.NegInf? ==> r == 1
    ensures v.Finite? ==> r == ClampRating(v.value)
  {
    if v.NaN? then current else ClampNum(v)
  }

  /** `'★'.repeat(rating) + '☆'.repeat(5 - rating)`. */
  function StarString(rating: nat): (r: string)
    requires rating <= 5
    ensures |r| == 5
    ensures forall i :: 0 <= i < 5 ==> r[i] == if i < rating then '\U{2605}' else '\U{2606}'
  {
    Repeat('\U{2605}', rating) + Repeat('\U{2606}', 5 - rating)
  }

  /** The stars determine the rating back: it is the number of filled stars. */
  lemma StarStringInjective(a: nat, b: nat)
    requires a <= 5 && b <= 5 && StarString(a) == StarString(b)
    ensures a == b
  {
    var i := if a < b then a else b;
    if i < 5 {
      assert StarString(a)[i] == StarString(b)[i];
    }
  }

  class Review {
    var movieId: string
    var userId: string
    var text: string
    var timestamp: string
    var rating: int

    /** The rating is 0 until set, and 1..5 once set. */
    ghost predicate Valid()
      reads this
    {
      0 <= rating <= 5
    }

    /** `new Review(d)`; `now` stands for `new Date().toISOString()`. */
    constructor (d: ReviewData, now: string)
      ensures Valid()
      ensures movieId == d.movieId && userId == d.userId && text == d.text
      ensures timestamp == Or(d.timestamp, now)
      ensures rating == if d.rating.Some? then SetRatingOf(0, d.rating.value) else 0
    {
      movieId := d.movieId;
      userId := d.userId;
      text := d.text;
      timestamp := Or(d.timestamp, now);
      rating := 0;
      if d.rating.Some? {
        var num := d.rating.value;
        if !num.NaN? {
          rating := ClampNum(num);
        }
      }
    }

    /** `setRating(v)`: a number is rounded and clamped to 1..5, `NaN` is ignored. */
    method SetRating(v: Num)
      requires Valid()
      modifies this`rating
      ensures Valid() && rating == SetRatingOf(old(rating), v)
    {
      if !v.NaN? {
        rating := ClampNum(v);
      }
    }

    function GetRating(): (r: int)
      reads this
      requires Valid()
      ensures 0 <= r <= 5 && r == rating
    {
      rating
    }

    /** The star string of `getDisplayHTML()`. */
    function Stars(): (s: string)
      reads this
      requires Valid()
      ensures |s| == 5
      ensures forall i :: 0 <= i < 5 ==> (s[i] == '\U{2605}' <==> i < rating)
    {
      StarString(rating)
    }

    /** The text of `getDisplayHTML()`: longer than 100 characters is cut to 100 and `...`. */
    function ShortText(): (t: string)
      reads this
      ensures |text| <= 100 ==> t == text
      ensures |text| > 100 ==> t == text[..100] + "..."
    {
      Truncate(text, 100)
    }

    function ToJson(): (j: ReviewJson)
      reads this
      requires Valid()
      ensures j.rating == GetRating()
      ensures j.movieId == movieId && j.userId == userId && j.text == text && j.timestamp == timestamp
    {
      ReviewJson(movieId, userId, text, rating, timestamp)
    }
  }
}
