/**
 * A user's review summary: the one-to-five star histogram, the number of
 * reviews and their mean rating, rebuilt from a list of reviews.
 */
module ReviewSummaries {
  import opened Models
  import Seqs

  /** The number of reviews with exactly `k` stars. */
  function CountRating(reviews: seq<Review>, k: int): nat {
    Seqs.Count(reviews, (r: Review) => r.rating == k)
  }

  /** The sum of all ratings. */
  function SumRatings(reviews: seq<Review>): int {
    if reviews == [] then 0 else SumRatings(reviews[..|reviews| - 1]) + reviews[|reviews| - 1].rating
  }

  /** The mean rating of a non-empty list of reviews. */
  function MeanRating(reviews: seq<Review>): real
    requires |reviews| > 0
  {
    SumRatings(reviews) as real / |reviews| as real
  }

  /** The rating constraint of the reviews table and of the create-review request. */
  predicate RatingsInRange(reviews: seq<Review>) {
    forall i :: 0 <= i < |reviews| ==> 1 <= reviews[i].rating <= 5
  }

  /** The histogram's keys: the five stars, plus any other rating that occurs. */
  function BreakdownKeys(reviews: seq<Review>): set<int> {
    {1, 2, 3, 4, 5} + set r | r in reviews :: r.rating
  }

  /** The histogram: for each key, how many reviews have that rating. */
  function Breakdown(reviews: seq<Review>): map<int, int> {
    map k | k in BreakdownKeys(reviews) :: CountRating(reviews, k)
  }

  /** The histogram with the five stars at zero, before any review is counted. */
  const ZeroBreakdown: map<int, int> := map[1 := 0, 2 := 0, 3 := 0, 4 := 0, 5 := 0]

  /** `m[k]++` on a Go map: an absent key counts as zero. */
  function Bump(m: map<int, int>, k: int): map<int, int> {
    m[k := (if k in m then m[k] else 0) + 1]
  }

  /** The histogram as counted review by review, in list order. */
  function Tally(reviews: seq<Review>): map<int, int> {
    if reviews == [] then ZeroBreakdown
    else Bump(Tally(reviews[..|reviews| - 1]), reviews[|reviews| - 1].rating)
  }

  class ReviewSummary {
    var averageRating: real
    var totalReviews: int
    var ratingBreakdown: map<int, int>

    /** A zero-valued summary, as `&ReviewSummary{}` makes it. */
    constructor()
      ensures averageRating == 0.0 && totalReviews == 0 && ratingBreakdown == map[]
    {
      averageRating := 0.0;
      totalReviews := 0;
      ratingBreakdown := map[];
    }

    /**
     * Rebuilds the histogram from scratch, sets the total, and sets the mean
     * when there is at least one review (an empty list leaves the mean as it was).
     */
    method GetRatingBreakdown(reviews: seq<Review>)
      modifies this
      ensures ratingBreakdown == Breakdown(reviews)
      ensures totalReviews == |reviews|
      ensures averageRating == if |reviews| > 0 then MeanRating(reviews) else old(averageRating)
    {
      ratingBreakdown := map[];
      for i := 1 to 6
        invariant forall k :: k in ratingBreakdown <==> 1 <= k < i
        invariant forall k :: k in ratingBreakdown ==> ratingBreakdown[k] == 0
        invariant averageRating == old(averageRating)
      {
        ratingBreakdown := ratingBreakdown[i := 0];
      }
      assert ratingBreakdown.Keys == ZeroBreakdown.Keys;
      assert reviews[..0] == [];

      var totalRating := 0;
      for j := 0 to |reviews|
        invariant ratingBreakdown == Tally(reviews[..j])
        invariant totalRating == SumRatings(reviews[..j])
        invariant averageRating == old(averageRating)
      {
        var review := reviews[j];
        var current := if review.rating in ratingBreakdown then ratingBreakdown[review.rating] else 0;
        ratingBreakdown := ratingBreakdown[review.rating := current + 1];
        totalRating := totalRating + review.rating;
        assert reviews[..j + 1][..j] == reviews[..j];
      }
      assert reviews[..|reviews|] == reviews;
      TallyIsBreakdown(reviews);

      totalReviews := |reviews|;
      if totalReviews > 0 {
        averageRating := totalRating as real / totalReviews as real;
      }
    }
  }

  /** A rating that is not a key of the histogram occurs in no review. */
  lemma AbsentKeyCountsZero(reviews: seq<Review>, k: int)
    requires k !in BreakdownKeys(reviews)
    ensures CountRating(reviews, k) == 0
  {
    Seqs.CountPositive(reviews, (r: Review) => r.rating == k);
  }

  /** Counting review by review yields the histogram of counts. */
  lemma {:induction false} TallyIsBreakdown(reviews: seq<Review>)
    ensures Tally(reviews) == Breakdown(reviews)
  {
    if reviews == [] {
      EmptyBreakdown();
      assert ZeroBreakdown.Keys == Breakdown([]).Keys;
    } else {
      var init := reviews[..|reviews| - 1];
      var last := reviews[|reviews| - 1];
      TallyIsBreakdown(init);
      assert reviews == init + [last];
      BreakdownSnoc(init, last);
    }
  }

  /** Before any review is counted the histogram holds the five stars at zero. */
  lemma EmptyBreakdown()
    ensures forall k :: k in Breakdown([]) <==> 1 <= k <= 5
    ensures forall k :: k in Breakdown([]) ==> Breakdown([])[k] == 0
  {
    assert BreakdownKeys([]) == {1, 2, 3, 4, 5};
  }

  /** One more review adds its rating to the histogram's keys. */
  lemma BreakdownKeysSnoc(reviews: seq<Review>, x: Review)
    ensures BreakdownKeys(reviews + [x]) == BreakdownKeys(reviews) + {x.rating}
  {
    var s := reviews + [x];
    assert forall r :: r in s <==> r in reviews || r == x;
  }

  /** One more review adds one to the count of its own rating only. */
  lemma CountRatingSnoc(reviews: seq<Review>, x: Review, k: int)
    ensures CountRating(reviews + [x], k) == CountRating(reviews, k) + (if x.rating == k then 1 else 0)
  {
    Seqs.FilterSnoc(reviews, x, (r: Review) => r.rating == k);
  }

  /** One more review adds one to its rating's bar and leaves every other bar alone. */
  lemma BreakdownSnoc(reviews: seq<Review>, x: Review)
    ensures Breakdown(reviews + [x]) == Bump(Breakdown(reviews), x.rating)
  {
    var after := Breakdown(reviews + [x]);
    var bumped := Bump(Breakdown(reviews), x.rating);
    BreakdownKeysSnoc(reviews, x);
    assert after.Keys == bumped.Keys;
    forall k | k in after ensures after[k] == bumped[k] {
      BreakdownSnocAt(reviews, x, k);
    }
  }

  /** The bar of one key after one more review. */
  lemma BreakdownSnocAt(reviews: seq<Review>, x: Review, k: int)
    requires k in BreakdownKeys(reviews) || k == x.rating
    ensures k in Breakdown(reviews + [x])
    ensures Breakdown(reviews + [x])[k] ==
      (if k in BreakdownKeys(reviews) then CountRating(reviews, k) else 0) + (if x.rating == k then 1 else 0)
  {
    BreakdownKeysSnoc(reviews, x);
    CountRatingSnoc(reviews, x, k);
    if k !in BreakdownKeys(reviews) {
      AbsentKeyCountsZero(reviews, k);
    }
  }

  /** Every star from 1 to 5 has a bar, holding the number of reviews with that rating. */
  lemma EveryStarHasItsCount(reviews: seq<Review>, k: int)
    requires 1 <= k <= 5
    ensures k in Breakdown(reviews) && Breakdown(reviews)[k] == CountRating(reviews, k)
    ensures (forall i :: 0 <= i < |reviews| ==> reviews[i].rating != k) ==> Breakdown(reviews)[k] == 0
  {
    if forall i :: 0 <= i < |reviews| ==> reviews[i].rating != k {
      Seqs.CountPositive(reviews, (r: Review) => r.rating == k);
      forall x | x in reviews ensures x.rating != k {
        var i :| 0 <= i < |reviews| && reviews[i] == x;
      }
    }
  }

  /** With every rating in 1..5, the five bars add up to the number of reviews. */
  lemma {:induction false} StarCountsSumToTotal(reviews: seq<Review>)
    requires RatingsInRange(reviews)
    ensures CountRating(reviews, 1) + CountRating(reviews, 2) + CountRating(reviews, 3)
          + CountRating(reviews, 4) + CountRating(reviews, 5) == |reviews|
  {
    if reviews != [] {
      StarCountsSumToTotal(reviews[1..]);
    }
  }

  /** The histogram's five bars add up to the total whenever every rating is in range. */
  lemma BreakdownSumsToTotal(reviews: seq<Review>)
    requires RatingsInRange(reviews)
    ensures Breakdown(reviews)[1] + Breakdown(reviews)[2] + Breakdown(reviews)[3]
          + Breakdown(reviews)[4] + Breakdown(reviews)[5] == |reviews|
  {
    StarCountsSumToTotal(reviews);
  }

  lemma {:induction false} SumRatingsBounds(reviews: seq<Review>)
    requires RatingsInRange(reviews)
    ensures |reviews| <= SumRatings(reviews) <= 5 * |reviews|
  {
    if reviews != [] {
      SumRatingsBounds(reviews[..|reviews| - 1]);
    }
  }

  /** With every rating in 1..5, the mean is in [1, 5]. */
  lemma MeanInStarRange(reviews: seq<Review>)
    requires |reviews| > 0 && RatingsInRange(reviews)
    ensures 1.0 <= MeanRating(reviews) <= 5.0
  {
    SumRatingsBounds(reviews);
    var n := |reviews| as real;
    var sum := SumRatings(reviews) as real;
    QuotientBounds(sum, n, 1.0);
    QuotientBounds(sum, n, 5.0);
  }

  /** Dividing by a positive `n` keeps a sum on the same side of `c * n`. */
  lemma QuotientBounds(sum: real, n: real, c: real)
    requires n > 0.0
    ensures sum >= c * n ==> sum / n >= c
    ensures sum <= c * n ==> sum / n <= c
  {
    var q := sum / n;
    assert q * n == sum;
    assert (q - c) * n == sum - c * n;
    if q < c {
      assert (c - q) * n > 0.0;
    } else if q > c {
      assert (q - c) * n > 0.0;
    }
  }
}
