/**
 * The review repository: creating, saving and deleting reviews, each followed
 * in the same transaction by a recomputation of the reviewee's stored
 * `rating` and `review_count` from that user's public reviews; and the
 * read-only queries over the reviews table.
 *
 * The repository promises that a user's stored rating and count stay equal
 * to the mean and number of their public reviews. `RatingsInSync` states it,
 * and the lemmas at the end of the module prove that every write keeps it.
 */
module ReviewRepository {
  import opened Models
  import opened Wrappers
  import opened Store
  import opened ReviewSummaries
  import Seqs

  /** Why a write was refused: the rating check constraint, the primary key, or a missing row. */
  datatype RepoError = RatingOutOfRange | DuplicateId | ReviewNotFound

  /** `reviewee_id = userId AND is_public = true`. */
  function PublicOf(userId: string): Review -> bool {
    (r: Review) => r.revieweeId == userId && r.isPublic
  }

  /** The public reviews `userId` has received, in table order. */
  function PublicReviewsOf(reviews: seq<Review>, userId: string): seq<Review> {
    Seqs.Filter(reviews, PublicOf(userId))
  }

  /** `AVG(rating)` over the user's public reviews; 0 when there are none. */
  function StoredRating(reviews: seq<Review>, userId: string): real {
    var pub := PublicReviewsOf(reviews, userId);
    if |pub| > 0 then MeanRating(pub) else 0.0
  }

  /** The two columns the recomputation writes, taken from the reviews table. */
  function WithRatingFrom(reviews: seq<Review>, userId: string): User -> User {
    (u: User) => u.(rating := StoredRating(reviews, userId), reviewCount := |PublicReviewsOf(reviews, userId)|)
  }

  /** The users table after `updateUserRating(userId)` has run against `reviews`. */
  function RecomputeRating(users: seq<User>, reviews: seq<Review>, userId: string): seq<User> {
    UpdateWhereId(users, userId, WithRatingFrom(reviews, userId))
  }

  /** A stored user row agrees with its public reviews. */
  predicate InSync(u: User, reviews: seq<Review>) {
    u.rating == StoredRating(reviews, u.id) && u.reviewCount == |PublicReviewsOf(reviews, u.id)|
  }

  /** Every stored user's rating and count agree with their public reviews. */
  predicate RatingsInSync(users: seq<User>, reviews: seq<Review>) {
    forall i :: 0 <= i < |users| ==> InSync(users[i], reviews)
  }

  /** The primary key of the reviews table. */
  predicate UniqueIds(reviews: seq<Review>) {
    forall i, j :: 0 <= i < j < |reviews| ==> reviews[i].id != reviews[j].id
  }

  predicate HasId(reviews: seq<Review>, id: string) {
    exists i :: 0 <= i < |reviews| && reviews[i].id == id
  }

  function IdIsNot(id: string): Review -> bool {
    (r: Review) => r.id != id
  }

  /**
   * `UPDATE reviews SET ... WHERE id = x.id`: every row with that id becomes
   * `x`. This is the definition of the statement; what it preserves is
   * proved in the lemmas below.
   */
  function ReplaceWhereId(reviews: seq<Review>, x: Review): (r: seq<Review>)
    ensures |r| == |reviews|
    ensures forall i :: 0 <= i < |reviews| ==> r[i] == if reviews[i].id == x.id then x else reviews[i]
  {
    seq(|reviews|, i requires 0 <= i < |reviews| => if reviews[i].id == x.id then x else reviews[i])
  }

  /**
   * gorm's `Save`: an update of the row with the review's id, which writes
   * every field as given, or, when there is none, an insert, which applies
   * the column defaults like any other insert.
   */
  function Upsert(reviews: seq<Review>, x: Review): seq<Review> {
    if HasId(reviews, x.id) then ReplaceWhereId(reviews, x) else reviews + [AsInserted(x)]
  }

  /**
   * The row an INSERT stores. `is_public` has the column default true, and
   * the insert leaves a false field out as a zero value, so every created
   * review is stored public; every other field is stored as given.
   */
  function AsInserted(review: Review): (stored: Review)
    ensures stored.isPublic
    ensures stored.(isPublic := review.isPublic) == review
  {
    review.(isPublic := true)
  }

  class ReviewRepo {
    const db: Db

    constructor(db: Db)
      ensures this.db == db
    {
      this.db := db;
    }

    /** The repository's invariants over the tables it shares. */
    predicate Valid()
      reads db
    {
      UniqueIds(db.reviews) && RatingsInRange(db.reviews) && RatingsInSync(db.users, db.reviews)
    }

    /**
     * Writes the mean and number of the user's public reviews into every
     * users row with that id; no other row and no other column changes.
     */
    method UpdateUserRating(userId: string)
      modifies db
      ensures db.users == RecomputeRating(old(db.users), db.reviews, userId)
      ensures db.reviews == old(db.reviews) && db.skills == old(db.skills)
    {
      var pub := PublicReviewsOf(db.reviews, userId);
      var count := |pub|;
      var avg := if count > 0 then MeanRating(pub) else 0.0;
      db.users := UpdateWhereId(db.users, userId, (u: User) => u.(rating := avg, reviewCount := count));
    }

    /**
     * Inserts the review, as the row `AsInserted` describes, and recomputes
     * its reviewee. The check constraint
     * refuses a rating outside 1..5 and the primary key refuses a taken id;
     * either failure rolls back and leaves both tables as they were.
     */
    method CreateReview(review: Review) returns (r: Result<(), RepoError>)
      modifies db
      ensures !(1 <= review.rating <= 5) ==> r == Err(RatingOutOfRange)
      ensures 1 <= review.rating <= 5 && HasId(old(db.reviews), review.id) ==> r == Err(DuplicateId)
      ensures r.Ok? <==> 1 <= review.rating <= 5 && !HasId(old(db.reviews), review.id)
      ensures r.Err? ==> db.reviews == old(db.reviews) && db.users == old(db.users)
      ensures r.Ok? ==> db.reviews == old(db.reviews) + [AsInserted(review)]
      ensures r.Ok? ==> db.users == RecomputeRating(old(db.users), db.reviews, review.revieweeId)
      ensures db.skills == old(db.skills)
      ensures old(Valid()) ==> Valid()
    {
      if !(1 <= review.rating <= 5) {
        return Err(RatingOutOfRange);
      }
      if HasId(db.reviews, review.id) {
        return Err(DuplicateId);
      }
      ghost var before := db.users;
      db.reviews := db.reviews + [AsInserted(review)];
      UpdateUserRating(review.revieweeId);
      CreateKeepsInvariants(before, old(db.reviews), AsInserted(review));
      r := Ok(());
    }

    /**
     * Saves the review (replacing the row with its id, or inserting it) and
     * recomputes the rating of the review's current reviewee. Only that
     * reviewee is recomputed, so the invariant is kept when the save does not
     * move an existing review to another reviewee.
     */
    method UpdateReview(review: Review) returns (r: Result<(), RepoError>)
      modifies db
      ensures r.Ok? <==> 1 <= review.rating <= 5
      ensures r.Err? ==> r.error == RatingOutOfRange && db.reviews == old(db.reviews) && db.users == old(db.users)
      ensures r.Ok? ==> db.reviews == Upsert(old(db.reviews), review)
      ensures r.Ok? ==> db.users == RecomputeRating(old(db.users), db.reviews, review.revieweeId)
      ensures db.skills == old(db.skills)
      ensures old(Valid()) && old(KeepsReviewee(db.reviews, review)) ==> Valid()
    {
      if !(1 <= review.rating <= 5) {
        return Err(RatingOutOfRange);
      }
      ghost var before := db.users;
      db.reviews := Upsert(db.reviews, review);
      UpdateUserRating(review.revieweeId);
      UpdateKeepsInvariants(before, old(db.reviews), review);
      r := Ok(());
    }

    /**
     * Looks the review up by id, deletes it and recomputes its reviewee. An
     * unknown id fails with nothing changed.
     */
    method DeleteReview(id: string) returns (r: Result<(), RepoError>)
      modifies db
      ensures r.Ok? <==> HasId(old(db.reviews), id)
      ensures r.Err? ==> r.error == ReviewNotFound && db.reviews == old(db.reviews) && db.users == old(db.users)
      ensures r.Ok? ==> db.reviews == Seqs.Filter(old(db.reviews), IdIsNot(id))
      ensures r.Ok? ==>
        var found := Seqs.FindFirst(old(db.reviews), (x: Review) => x.id == id).value;
        db.users == RecomputeRating(old(db.users), db.reviews, found.revieweeId)
      ensures db.skills == old(db.skills)
      ensures old(Valid()) ==> Valid()
    {
      var i := Seqs.FirstIndex(db.reviews, (x: Review) => x.id == id);
      if i == |db.reviews| {
        return Err(ReviewNotFound);
      }
      var found := db.reviews[i];
      ghost var before := db.users;
      db.reviews := Seqs.Filter(db.reviews, IdIsNot(id));
      UpdateUserRating(found.revieweeId);
      if old(Valid()) {
        DeleteKeepsInvariants(before, old(db.reviews), i);
      }
      r := Ok(());
    }

    /**
     * The reviews `userId` received (only the public ones when `isPublic`),
     * newest first.
     */
    method GetReviewsByUser(userId: string, isPublic: bool) returns (result: seq<Review>)
      ensures multiset(result) == multiset(Seqs.Filter(db.reviews, (x: Review) => x.revieweeId == userId && (isPublic ==> x.isPublic)))
      ensures forall x :: x in result ==> x in db.reviews && x.revieweeId == userId && (isPublic ==> x.isPublic)
      ensures Seqs.SortedDesc(result, (x: Review) => x.createdAt)
    {
      var matching := Seqs.Filter(db.reviews, (x: Review) => x.revieweeId == userId && (isPublic ==> x.isPublic));
      result := Seqs.SortDesc(matching, (x: Review) => x.createdAt);
      Seqs.SortDescCorrect(matching, (x: Review) => x.createdAt);
      forall x | x in result ensures x in matching {
        assert x in multiset(matching);
      }
    }

    /** A fresh summary of exactly the public reviews the user has received. */
    method GetReviewSummary(userId: string) returns (summary: ReviewSummary)
      ensures fresh(summary)
      ensures summary.ratingBreakdown == Breakdown(PublicReviewsOf(db.reviews, userId))
      ensures summary.totalReviews == |PublicReviewsOf(db.reviews, userId)|
      ensures summary.averageRating == StoredRating(db.reviews, userId)
    {
      var reviews := PublicReviewsOf(db.reviews, userId);
      summary := new ReviewSummary();
      summary.GetRatingBreakdown(reviews);
    }

    /** Whether the reviewer has already reviewed the booking. */
    method HasUserReviewedBooking(reviewerId: string, bookingId: string) returns (b: bool)
      ensures b <==> exists x :: x in db.reviews && x.reviewerId == reviewerId && x.bookingId == bookingId
    {
      var count := Seqs.Count(db.reviews, (x: Review) => x.reviewerId == reviewerId && x.bookingId == bookingId);
      Seqs.CountPositive(db.reviews, (x: Review) => x.reviewerId == reviewerId && x.bookingId == bookingId);
      b := count > 0;
    }
  }

  /** Every stored row with the review's id already belongs to the review's reviewee. */
  predicate KeepsReviewee(reviews: seq<Review>, x: Review) {
    forall i :: 0 <= i < |reviews| && reviews[i].id == x.id ==> reviews[i].revieweeId == x.revieweeId
  }

  /** After the recomputation the reviewee's rows agree with the reviews table. */
  lemma RecomputeSyncsReviewee(users: seq<User>, reviews: seq<Review>, userId: string)
    ensures forall i :: 0 <= i < |users| && users[i].id == userId ==> InSync(RecomputeRating(users, reviews, userId)[i], reviews)
    ensures forall i :: 0 <= i < |users| && users[i].id != userId ==> RecomputeRating(users, reviews, userId)[i] == users[i]
  {
  }

  /**
   * Recomputing one user after a change to the reviews table that did not
   * touch anyone else's public reviews restores the invariant.
   */
  lemma RecomputeRestoresSync(users: seq<User>, reviews: seq<Review>, reviews': seq<Review>, userId: string)
    requires RatingsInSync(users, reviews)
    requires forall v :: v != userId ==> PublicReviewsOf(reviews', v) == PublicReviewsOf(reviews, v)
    ensures RatingsInSync(RecomputeRating(users, reviews', userId), reviews')
  {
    var users' := RecomputeRating(users, reviews', userId);
    forall i | 0 <= i < |users'| ensures InSync(users'[i], reviews') {
      if users[i].id != userId {
        assert InSync(users[i], reviews);
        assert PublicReviewsOf(reviews', users[i].id) == PublicReviewsOf(reviews, users[i].id);
      }
    }
  }

  /** Inserting a review changes only its reviewee's public reviews. */
  lemma InsertTouchesOnlyReviewee(reviews: seq<Review>, x: Review, v: string)
    requires v != x.revieweeId
    ensures PublicReviewsOf(reviews + [x], v) == PublicReviewsOf(reviews, v)
  {
    Seqs.FilterSnoc(reviews, x, PublicOf(v));
  }

  /** Saving a review that keeps its reviewee changes only that reviewee's public reviews. */
  lemma UpsertTouchesOnlyReviewee(reviews: seq<Review>, x: Review, v: string)
    requires KeepsReviewee(reviews, x)
    requires v != x.revieweeId
    ensures PublicReviewsOf(Upsert(reviews, x), v) == PublicReviewsOf(reviews, v)
  {
    if HasId(reviews, x.id) {
      var r := ReplaceWhereId(reviews, x);
      forall i | 0 <= i < |reviews| && reviews[i] != r[i]
        ensures !PublicOf(v)(reviews[i]) && !PublicOf(v)(r[i])
      {
      }
      Seqs.FilterUnchangedByRewrite(reviews, r, PublicOf(v));
    } else {
      InsertTouchesOnlyReviewee(reviews, AsInserted(x), v);
    }
  }

  /**
   * Saving a review whose id has no row inserts it, and the column default
   * makes it one more public review of its reviewee, whatever its
   * `isPublic` field said.
   */
  lemma SaveOfNewIdIsPublic(reviews: seq<Review>, x: Review)
    requires !HasId(reviews, x.id)
    ensures PublicReviewsOf(Upsert(reviews, x), x.revieweeId) == PublicReviewsOf(reviews, x.revieweeId) + [AsInserted(x)]
  {
    Seqs.FilterSnoc(reviews, AsInserted(x), PublicOf(x.revieweeId));
  }

  /** Deleting the rows with an id changes only the public reviews of those rows' reviewee. */
  lemma DeleteTouchesOnlyReviewee(reviews: seq<Review>, id: string, v: string)
    requires forall i :: 0 <= i < |reviews| && reviews[i].id == id ==> reviews[i].revieweeId != v
    ensures PublicReviewsOf(Seqs.Filter(reviews, IdIsNot(id)), v) == PublicReviewsOf(reviews, v)
  {
    Seqs.FilterRedundant(reviews, IdIsNot(id), PublicOf(v));
  }

  /** A filtered table keeps unique ids and in-range ratings. */
  lemma FilterKeepsKeysAndRange(reviews: seq<Review>, p: Review -> bool)
    requires UniqueIds(reviews) && RatingsInRange(reviews)
    ensures UniqueIds(Seqs.Filter(reviews, p)) && RatingsInRange(Seqs.Filter(reviews, p))
  {
    var f := Seqs.Filter(reviews, p);
    forall i | 0 <= i < |f| ensures 1 <= f[i].rating <= 5 {
      assert f[i] in reviews;
    }
    FilterUniqueIds(reviews, p);
  }

  lemma {:induction false} FilterUniqueIds(reviews: seq<Review>, p: Review -> bool)
    requires UniqueIds(reviews)
    ensures UniqueIds(Seqs.Filter(reviews, p))
  {
    if reviews != [] {
      var rest := reviews[1..];
      FilterUniqueIds(rest, p);
      if p(reviews[0]) {
        var kept := Seqs.Filter(rest, p);
        forall k | 0 <= k < |kept| ensures kept[k].id != reviews[0].id {
          assert kept[k] in rest;
          var m :| 0 <= m < |rest| && rest[m] == kept[k];
          assert reviews[m + 1] == kept[k];
        }
        UniqueIdsCons(reviews[0], kept);
      }
    }
  }

  /** A row whose id no later row has keeps the ids of a unique tail unique. */
  lemma UniqueIdsCons(head: Review, tail: seq<Review>)
    requires UniqueIds(tail)
    requires forall k :: 0 <= k < |tail| ==> tail[k].id != head.id
    ensures UniqueIds([head] + tail)
  {
    var r := [head] + tail;
    forall i, j | 0 <= i < j < |r| ensures r[i].id != r[j].id {
      assert r[j] == tail[j - 1];
      if i > 0 {
        assert r[i] == tail[i - 1];
      }
    }
  }

  /** A successful create keeps every invariant of the tables. */
  lemma CreateKeepsInvariants(users: seq<User>, reviews: seq<Review>, x: Review)
    requires 1 <= x.rating <= 5 && !HasId(reviews, x.id)
    ensures UniqueIds(reviews) && RatingsInRange(reviews) && RatingsInSync(users, reviews) ==>
      var reviews' := reviews + [x];
      UniqueIds(reviews') && RatingsInRange(reviews') && RatingsInSync(RecomputeRating(users, reviews', x.revieweeId), reviews')
  {
    if UniqueIds(reviews) && RatingsInRange(reviews) && RatingsInSync(users, reviews) {
      var reviews' := reviews + [x];
      forall v | v != x.revieweeId ensures PublicReviewsOf(reviews', v) == PublicReviewsOf(reviews, v) {
        InsertTouchesOnlyReviewee(reviews, x, v);
      }
      RecomputeRestoresSync(users, reviews, reviews', x.revieweeId);
    }
  }

  /** A successful save that keeps the review's reviewee keeps every invariant of the tables. */
  lemma UpdateKeepsInvariants(users: seq<User>, reviews: seq<Review>, x: Review)
    requires 1 <= x.rating <= 5
    ensures UniqueIds(reviews) && RatingsInRange(reviews) && RatingsInSync(users, reviews) && KeepsReviewee(reviews, x) ==>
      var reviews' := Upsert(reviews, x);
      UniqueIds(reviews') && RatingsInRange(reviews') && RatingsInSync(RecomputeRating(users, reviews', x.revieweeId), reviews')
  {
    if UniqueIds(reviews) && RatingsInRange(reviews) && RatingsInSync(users, reviews) && KeepsReviewee(reviews, x) {
      var reviews' := Upsert(reviews, x);
      forall v | v != x.revieweeId ensures PublicReviewsOf(reviews', v) == PublicReviewsOf(reviews, v) {
        UpsertTouchesOnlyReviewee(reviews, x, v);
      }
      RecomputeRestoresSync(users, reviews, reviews', x.revieweeId);
    }
  }

  /** A successful delete of the row at index `k`'s id keeps every invariant of the tables. */
  lemma DeleteKeepsInvariants(users: seq<User>, reviews: seq<Review>, k: int)
    requires 0 <= k < |reviews|
    requires UniqueIds(reviews) && RatingsInRange(reviews) && RatingsInSync(users, reviews)
    ensures var reviews' := Seqs.Filter(reviews, IdIsNot(reviews[k].id));
      UniqueIds(reviews') && RatingsInRange(reviews') && RatingsInSync(RecomputeRating(users, reviews', reviews[k].revieweeId), reviews')
  {
    var id := reviews[k].id;
    var reviews' := Seqs.Filter(reviews, IdIsNot(id));
    FilterKeepsKeysAndRange(reviews, IdIsNot(id));
    forall v | v != reviews[k].revieweeId ensures PublicReviewsOf(reviews', v) == PublicReviewsOf(reviews, v) {
      DeleteTouchesOnlyReviewee(reviews, id, v);
    }
    RecomputeRestoresSync(users, reviews, reviews', reviews[k].revieweeId);
  }

  /**
   * While the tables are in sync, every stored count is what the review
   * summary reports as its total, and every stored rating is 0 for a user
   * with no public review and in 1..5 otherwise.
   */
  lemma StoredRowMatchesSummary(users: seq<User>, reviews: seq<Review>, i: int)
    requires RatingsInSync(users, reviews) && RatingsInRange(reviews)
    requires 0 <= i < |users|
    ensures users[i].reviewCount == |PublicReviewsOf(reviews, users[i].id)|
    ensures users[i].reviewCount == 0 ==> users[i].rating == 0.0
    ensures users[i].reviewCount > 0 ==> 1.0 <= users[i].rating <= 5.0
  {
    var pub := PublicReviewsOf(reviews, users[i].id);
    assert InSync(users[i], reviews);
    if |pub| > 0 {
      forall j | 0 <= j < |pub| ensures 1 <= pub[j].rating <= 5 {
        assert pub[j] in reviews;
      }
      MeanInStarRange(pub);
    }
  }

  /**
   * Saving a review under a different reviewee recomputes only the new one:
   * the old reviewee keeps a count and rating for a review they no longer have.
   */
  lemma MovedReviewLeavesOldRevieweeStale()
    ensures var before := Review("r", "x", "a", "b1", 5, "", true, 0);
      var moved := before.(revieweeId := "b");
      var users := [User("a", "", "", "", "", "", "", "", 0, Novice, 5.0, 1), User("b", "", "", "", "", "", "", "", 0, Novice, 0.0, 0)];
      RatingsInSync(users, [before]) && !KeepsReviewee([before], moved) &&
      !RatingsInSync(RecomputeRating(users, Upsert([before], moved), "b"), Upsert([before], moved))
  {
    var before := Review("r", "x", "a", "b1", 5, "", true, 0);
    var moved := before.(revieweeId := "b");
    var userA := User("a", "", "", "", "", "", "", "", 0, Novice, 5.0, 1);
    var users := [userA, User("b", "", "", "", "", "", "", "", 0, Novice, 0.0, 0)];
    assert [before][1..] == [];
    assert PublicReviewsOf([before], "a") == [before];
    assert PublicReviewsOf([before], "b") == [];
    assert SumRatings([before]) == 5 by {
      assert [before][..0] == [];
    }
    assert InSync(users[0], [before]);
    assert InSync(users[1], [before]);
    assert HasId([before], moved.id);
    var after := Upsert([before], moved);
    assert after == [moved];
    assert [moved][1..] == [];
    assert PublicReviewsOf(after, "a") == [];
    assert RecomputeRating(users, after, "b")[0] == userA;
    assert !InSync(userA, after);
  }
}
