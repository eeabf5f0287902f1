/**
 * The star widget's logic: which of the five stars are drawn filled, which
 * one is drawn partly filled and how far, and when a click reports a rating.
 */
module StarRating {
  import opened Wrappers

  /** Star `star` is drawn fully filled. */
  predicate Filled(star: int, rating: real) {
    star as real <= rating
  }

  /** Star `star` is drawn partly filled: the rating lies strictly inside its unit. */
  predicate PartiallyFilled(star: int, rating: real) {
    star as real > rating && (star - 1) as real < rating
  }

  /** The right-hand inset, in percent, of the clip over the partly filled star. */
  function ClipInset(star: int, rating: real): (r: real)
    requires PartiallyFilled(star, rating)
    ensures 0.0 < r < 100.0
  {
    100.0 - (rating - (star - 1) as real) * 100.0
  }

  /** The rating a click reports to the change handler, if it reports one at all. */
  function HandleStarClick(star: int, readonly: bool, hasHandler: bool): (r: Option<int>)
    ensures r.Some? <==> !readonly && hasHandler
    ensures r.Some? ==> r.value == star
  {
    if !readonly && hasHandler then Some(star) else None
  }

  /** The number of filled stars among stars 1..n. */
  function FilledCount(rating: real, n: nat): nat {
    if n == 0 then 0 else FilledCount(rating, n - 1) + (if Filled(n, rating) then 1 else 0)
  }

  /** A star is filled exactly when its number is at most the rating's floor. */
  lemma FilledBelowFloor(star: int, rating: real)
    ensures Filled(star, rating) <==> star <= rating.Floor
  {
  }

  /** No star is both filled and partly filled. */
  lemma FilledExcludesPartial(star: int, rating: real)
    ensures !(Filled(star, rating) && PartiallyFilled(star, rating))
  {
  }

  /** The partly filled star is the one just above the floor of a fractional rating. */
  lemma PartialIsAboveFloor(star: int, rating: real)
    ensures PartiallyFilled(star, rating) <==> star == rating.Floor + 1 && rating != rating.Floor as real
  {
  }

  /** At most one star is partly filled. */
  lemma AtMostOnePartial(j: int, k: int, rating: real)
    requires PartiallyFilled(j, rating) && PartiallyFilled(k, rating)
    ensures j == k
  {
    PartialIsAboveFloor(j, rating);
    PartialIsAboveFloor(k, rating);
  }

  /** Among stars 1..n, as many are filled as the rating's floor allows. */
  lemma {:induction false} FilledCountIsFloor(rating: real, n: nat)
    requires rating >= 0.0
    ensures FilledCount(rating, n) == if rating.Floor < n then rating.Floor else n
  {
    if n > 0 {
      FilledCountIsFloor(rating, n - 1);
      FilledBelowFloor(n, rating);
    }
  }

  /** For a rating from 0 to 5, the five stars show its floor filled. */
  lemma FiveStarsShowFloor(rating: real)
    requires 0.0 <= rating <= 5.0
    ensures FilledCount(rating, 5) == rating.Floor
  {
    FilledCountIsFloor(rating, 5);
  }
}
