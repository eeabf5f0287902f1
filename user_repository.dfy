/**
 * The user repository: the selective profile update, the points update with
 * its rank recomputation, the profile query with its filtered relations, and
 * the ranked and ordered user queries.
 */
module UserRepository {
  import opened Models
  import opened Wrappers
  import opened Store
  import ReviewRepository
  import Seqs

  /** The request field that feeds a column. */
  function RequestField(req: UpdateUserRequest, c: ProfileColumn): string {
    match c
    case UsernameColumn => req.username
    case FullNameColumn => req.fullName
    case LocationColumn => req.location
    case BioColumn => req.bio
    case AvatarColumn => req.avatar
  }

  /** A user with the relations the profile page shows. */
  datatype Profile = Profile(user: User, skills: seq<Skill>, reviewsReceived: seq<Review>)

  /** Why a write was refused. */
  datatype UserError = UserNotFound

  /** The stored user after `points += pointsToAdd` and the rank recomputation `rankOf`. */
  function AddPoints(u: User, pointsToAdd: int, rankOf: User -> UserRank): (r: User)
    ensures r.points == u.points + pointsToAdd
    ensures r.rank == rankOf(u.(points := u.points + pointsToAdd))
    ensures r == u.(points := r.points, rank := r.rank)
  {
    var bumped := u.(points := u.points + pointsToAdd);
    bumped.(rank := rankOf(bumped))
  }

  /**
   * The update set of a request: a column is written exactly when its
   * request field is non-empty, and then with that field's value.
   */
  method BuildUpdateSet(req: UpdateUserRequest) returns (updates: map<ProfileColumn, string>)
    ensures forall c :: c in updates <==> RequestField(req, c) != ""
    ensures forall c :: c in updates ==> updates[c] == RequestField(req, c)
  {
    updates := map[];
    if req.username != "" {
      updates := updates[UsernameColumn := req.username];
    }
    if req.fullName != "" {
      updates := updates[FullNameColumn := req.fullName];
    }
    if req.location != "" {
      updates := updates[LocationColumn := req.location];
    }
    if req.bio != "" {
      updates := updates[BioColumn := req.bio];
    }
    if req.avatar != "" {
      updates := updates[AvatarColumn := req.avatar];
    }
  }

  class UserRepo {
    const db: Db

    constructor(db: Db)
      ensures this.db == db
    {
      this.db := db;
    }

    /**
     * Writes the request's non-empty fields into every row with the id. No
     * other row changes, and no column outside the five profile columns.
     */
    method UpdateUser(userId: string, req: UpdateUserRequest)
      modifies db
      ensures |db.users| == |old(db.users)|
      ensures forall i :: 0 <= i < |db.users| && old(db.users)[i].id != userId ==> db.users[i] == old(db.users)[i]
      ensures forall i, c :: 0 <= i < |db.users| && old(db.users)[i].id == userId ==>
        GetColumn(db.users[i], c) == if RequestField(req, c) != "" then RequestField(req, c) else GetColumn(old(db.users)[i], c)
      ensures forall i :: 0 <= i < |db.users| ==> SameAccount(db.users[i], old(db.users)[i])
      ensures db.reviews == old(db.reviews) && db.skills == old(db.skills)
    {
      var updates := BuildUpdateSet(req);
      db.users := UpdateWhereId(db.users, userId, (u: User) => ApplyColumns(u, updates));
    }

    /**
     * Loads the first row with the id, adds the points, recomputes the rank
     * and saves the row back. An unknown id fails before anything is saved.
     */
    method UpdateUserPoints(userId: string, pointsToAdd: int, rankOf: User -> UserRank) returns (r: Result<(), UserError>)
      modifies db
      ensures r.Ok? <==> exists i :: 0 <= i < |old(db.users)| && old(db.users)[i].id == userId
      ensures r.Err? ==> db.users == old(db.users)
      ensures r.Ok? ==>
        var found := Seqs.FindFirst(old(db.users), (u: User) => u.id == userId).value;
        db.users == UpdateWhereId(old(db.users), userId, (_: User) => AddPoints(found, pointsToAdd, rankOf))
      ensures db.reviews == old(db.reviews) && db.skills == old(db.skills)
    {
      var found := Seqs.FindFirst(db.users, (u: User) => u.id == userId);
      if found.None? {
        return Err(UserNotFound);
      }
      var user := AddPoints(found.value, pointsToAdd, rankOf);
      db.users := UpdateWhereId(db.users, userId, (_: User) => user);
      r := Ok(());
    }

    /** The user with only their active skills and only the public reviews they received. */
    method GetUserProfile(userId: string) returns (r: Option<Profile>)
      ensures r.None? <==> forall i :: 0 <= i < |db.users| ==> db.users[i].id != userId
      ensures r.Some? ==> r.value.user in db.users && r.value.user.id == userId
      ensures r.Some? ==> forall s :: s in r.value.skills <==> s in db.skills && s.userId == userId && s.isActive
      ensures r.Some? ==> forall x :: x in r.value.reviewsReceived <==> x in db.reviews && x.revieweeId == userId && x.isPublic
      ensures r.Some? ==> Seqs.IsSubsequence(r.value.skills, db.skills) && Seqs.IsSubsequence(r.value.reviewsReceived, db.reviews)
    {
      var found := Seqs.FindFirst(db.users, (u: User) => u.id == userId);
      if found.None? {
        return None;
      }
      var skills := Seqs.Filter(db.skills, (s: Skill) => s.userId == userId && s.isActive);
      var reviews := ReviewRepository.PublicReviewsOf(db.reviews, userId);
      Seqs.FilterIsSubsequence(db.skills, (s: Skill) => s.userId == userId && s.isActive);
      Seqs.FilterIsSubsequence(db.reviews, ReviewRepository.PublicOf(userId));
      r := Some(Profile(found.value, skills, reviews));
    }

    /** At most `limit` users with the given rank, in table order; a negative limit means all. */
    method GetUsersByRank(rank: UserRank, limit: int) returns (result: seq<User>)
      ensures forall u :: u in result ==> u in db.users && u.rank == rank
      ensures limit >= 0 ==> |result| <= limit
      ensures |result| == if 0 <= limit < Seqs.Count(db.users, (u: User) => u.rank == rank) then limit
                          else Seqs.Count(db.users, (u: User) => u.rank == rank)
      ensures result <= Seqs.Filter(db.users, (u: User) => u.rank == rank)
      ensures limit < 0 || Seqs.Count(db.users, (u: User) => u.rank == rank) <= limit ==>
        forall u :: u in db.users && u.rank == rank ==> u in result
    {
      var matching := Seqs.Filter(db.users, (u: User) => u.rank == rank);
      result := Seqs.Take(matching, limit);
      forall u | u in result ensures u in matching {
        var k :| 0 <= k < |result| && result[k] == u;
        assert matching[k] == u;
      }
    }

    /**
     * The `limit` users with the most points, most points first; a negative
     * limit means all users. No user left out has more points than one returned.
     */
    method GetTopUsers(limit: int) returns (result: seq<User>)
      ensures limit >= 0 ==> |result| == if limit < |db.users| then limit else |db.users|
      ensures limit < 0 ==> |result| == |db.users|
      ensures multiset(result) <= multiset(db.users)
      ensures Seqs.SortedDesc(result, (u: User) => u.points)
      ensures forall u, j :: u in multiset(db.users) - multiset(result) && 0 <= j < |result| ==> u.points <= result[j].points
    {
      var sorted := Seqs.SortDesc(db.users, (u: User) => u.points);
      Seqs.SortDescCorrect(db.users, (u: User) => u.points);
      result := Seqs.Take(sorted, limit);
      TopPrefix(sorted, |result|);
    }

    /** The first row with the auth0 id, if any. */
    method GetUserByAuth0ID(auth0Id: string) returns (r: Option<User>)
      ensures r.None? <==> forall i :: 0 <= i < |db.users| ==> db.users[i].auth0Id != auth0Id
      ensures r.Some? ==>
        exists i :: 0 <= i < |db.users| && db.users[i] == r.value && r.value.auth0Id == auth0Id &&
          forall j :: 0 <= j < i ==> db.users[j].auth0Id != auth0Id
    {
      r := Seqs.FindFirst(db.users, (u: User) => u.auth0Id == auth0Id);
    }

    /** The first row with the email, if any. */
    method GetUserByEmail(email: string) returns (r: Option<User>)
      ensures r.None? <==> forall i :: 0 <= i < |db.users| ==> db.users[i].email != email
      ensures r.Some? ==>
        exists i :: 0 <= i < |db.users| && db.users[i] == r.value && r.value.email == email &&
          forall j :: 0 <= j < i ==> db.users[j].email != email
    {
      r := Seqs.FindFirst(db.users, (u: User) => u.email == email);
    }
  }

  /** Two rows that agree on every field a profile update may not touch. */
  predicate SameAccount(a: User, b: User) {
    a.id == b.id && a.auth0Id == b.auth0Id && a.email == b.email && a.points == b.points
    && a.rank == b.rank && a.rating == b.rating && a.reviewCount == b.reviewCount
  }

  /**
   * In a list sorted by descending points, whatever a prefix leaves out has
   * no more points than anything the prefix keeps.
   */
  lemma TopPrefix(sorted: seq<User>, k: int)
    requires 0 <= k <= |sorted|
    requires Seqs.SortedDesc(sorted, (u: User) => u.points)
    ensures multiset(sorted[..k]) <= multiset(sorted)
    ensures forall u, j :: u in multiset(sorted) - multiset(sorted[..k]) && 0 <= j < k ==> u.points <= sorted[j].points
  {
    assert sorted == sorted[..k] + sorted[k..];
    assert multiset(sorted) == multiset(sorted[..k]) + multiset(sorted[k..]);
    forall u, j | u in multiset(sorted) - multiset(sorted[..k]) && 0 <= j < k
      ensures u.points <= sorted[j].points
    {
      assert u in sorted[k..];
      var m :| k <= m < |sorted| && sorted[m] == u;
    }
  }

  /** Saving the same request twice leaves the row as saving it once. */
  lemma ApplyColumnsIdempotent(u: User, updates: map<ProfileColumn, string>)
    ensures ApplyColumns(ApplyColumns(u, updates), updates) == ApplyColumns(u, updates)
  {
    var once := ApplyColumns(u, updates);
    var twice := ApplyColumns(once, updates);
    assert GetColumn(twice, UsernameColumn) == GetColumn(once, UsernameColumn);
    assert GetColumn(twice, FullNameColumn) == GetColumn(once, FullNameColumn);
    assert GetColumn(twice, LocationColumn) == GetColumn(once, LocationColumn);
    assert GetColumn(twice, BioColumn) == GetColumn(once, BioColumn);
    assert GetColumn(twice, AvatarColumn) == GetColumn(once, AvatarColumn);
  }
}
