/** The star-rating arithmetic shared by `User.rateMovie` and `Review.setRating`. */
module Ratings {

  /** `Math.round(x)`: the nearest integer, halves rounded up. */
  function Round(x: real): (n: int)
    ensures x - 0.5 < n as real <= x + 0.5
  {
    (x + 0.5).Floor
  }

  /** `Math.max(1, Math.min(5, Math.round(x)))`. */
  function ClampRating(x: real): (r: int)
    ensures 1 <= r <= 5
    ensures 1 <= Round(x) <= 5 ==> r == Round(x)
    ensures Round(x) < 1 ==> r == 1
    ensures Round(x) > 5 ==> r == 5
  {
    var n := Round(x);
    if n < 1 then 1 else if n > 5 then 5 else n
  }

  /** A whole star count from 1 to 5 is stored as given; `rate("tt1", 7)` stores 5. */
  lemma ClampWholeStars(n: int)
    ensures 1 <= n <= 5 ==> ClampRating(n as real) == n
    ensures n > 5 ==> ClampRating(n as real) == 5
    ensures n < 1 ==> ClampRating(n as real) == 1
  {
    assert Round(n as real) == n;
  }
}
