/**
 * The database the repositories and services share, as three in-memory
 * tables whose rows are kept in storage order, and the row-level meaning of
 * `UPDATE ... WHERE id = ?`.
 */
module Store {
  import opened Models
  import Seqs

  class Db {
    var users: seq<User>
    var reviews: seq<Review>
    var skills: seq<Skill>

    constructor(users: seq<User>, reviews: seq<Review>, skills: seq<Skill>)
      ensures this.users == users && this.reviews == reviews && this.skills == skills
    {
      this.users := users;
      this.reviews := reviews;
      this.skills := skills;
    }
  }

  /** The number of rows an update `WHERE id = userId` matches. */
  function RowsWithId(users: seq<User>, userId: string): nat {
    Seqs.Count(users, (u: User) => u.id == userId)
  }

  /**
   * `UPDATE users ... WHERE id = userId`: every row with id `userId`
   * rewritten by `f`, every other row kept as it is. This is the definition
   * of the statement that the repositories' updates are stated in terms of.
   */
  function UpdateWhereId(users: seq<User>, userId: string, f: User -> User): (r: seq<User>)
    ensures |r| == |users|
    ensures forall i :: 0 <= i < |users| ==> r[i] == if users[i].id == userId then f(users[i]) else users[i]
  {
    seq(|users|, i requires 0 <= i < |users| => if users[i].id == userId then f(users[i]) else users[i])
  }

  /** No update matches a row when no row has the id. */
  lemma NoRowNoChange(users: seq<User>, userId: string, f: User -> User)
    requires RowsWithId(users, userId) == 0
    ensures UpdateWhereId(users, userId, f) == users
  {
    Seqs.CountPositive(users, (u: User) => u.id == userId);
    forall i | 0 <= i < |users| ensures users[i].id != userId {
      assert users[i] in users;
    }
  }
}
