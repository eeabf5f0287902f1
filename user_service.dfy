/**
 * The user service: get-or-create from the identity provider's claims, the
 * username generator that probes `base`, `base1`, ..., `base999` against the
 * users table, and the profile update that reports a missing user.
 */
module UserService {
  import opened Models
  import opened Wrappers
  import opened Store
  import opened Text
  import Seqs

  /** Why a service call failed. */
  datatype ServiceError = CreateFailed | UserNotFound

  /** The text before the first '@' of an email (all of it when there is none). */
  function LocalPart(email: string): string {
    BeforeFirst(email, '@')
  }

  /**
   * The username stem: the email's local part, lower-cased, with every '.',
   * '+' and '-' removed and every other character kept.
   */
  function UsernameBase(email: string): (r: string)
    ensures '.' !in r && '+' !in r && '-' !in r
    ensures forall c :: c in r ==> !IsUpperAscii(c) && c in ToLower(LocalPart(email))
    ensures forall c :: c in ToLower(LocalPart(email)) && c != '.' && c != '+' && c != '-' ==> c in r
  {
    RemoveAll(RemoveAll(RemoveAll(ToLower(LocalPart(email)), '.'), '+'), '-')
  }

  /** A character the username stem keeps. */
  predicate IsStemChar(c: char) {
    c != '.' && c != '+' && c != '-'
  }

  /**
   * The stem is exactly the lower-cased local part with its '.', '+' and
   * '-' deleted: the other characters keep their order and multiplicity.
   */
  lemma BaseIsFilter(email: string)
    ensures UsernameBase(email) == Seqs.Filter(ToLower(LocalPart(email)), IsStemChar)
  {
    var lower := ToLower(LocalPart(email));
    var noDot := RemoveAll(lower, '.');
    RemoveAllIsFilter(lower, '.');
    RemoveAllIsFilter(noDot, '+');
    RemoveAllIsFilter(RemoveAll(noDot, '+'), '-');
    var noDotPlus := (c: char) => c != '.' && c != '+';
    Seqs.FilterTwice(lower, IsNotChar('.'), IsNotChar('+'), noDotPlus);
    Seqs.FilterTwice(lower, noDotPlus, IsNotChar('-'), IsStemChar);
  }

  /** Some stored user already has the username. */
  predicate Taken(users: seq<User>, name: string) {
    exists i :: 0 <= i < |users| && users[i].username == name
  }

  /** The `k`-th name tried: the base itself, then the base followed by `k` in decimal. */
  function Candidate(base: string, k: nat): (r: string)
    ensures base <= r
    ensures k == 0 <==> r == base
  {
    if k == 0 then base else base + NatToString(k)
  }

  /** The number of candidates the generator probes before giving up. */
  const MaxCandidates: nat := 1000

  /** The name used when all candidates are taken; it is not probed. */
  function Fallback(base: string, random: int): string {
    base + "_" + IntToString(random)
  }

  /**
   * The index of the first free candidate from `k` on, or `MaxCandidates`
   * when every one of them is taken.
   */
  function FirstFree(users: seq<User>, base: string, k: nat): (r: nat)
    requires k <= MaxCandidates
    ensures k <= r <= MaxCandidates
    ensures r < MaxCandidates ==> !Taken(users, Candidate(base, r))
    ensures forall j :: k <= j < r ==> Taken(users, Candidate(base, j))
    decreases MaxCandidates - k
  {
    if k == MaxCandidates then MaxCandidates
    else if !Taken(users, Candidate(base, k)) then k
    else FirstFree(users, base, k + 1)
  }

  /** The username the generator settles on. */
  function ChosenUsername(users: seq<User>, base: string, random: int): (r: string)
    ensures (exists k :: 0 <= k < MaxCandidates && r == Candidate(base, k) && !Taken(users, r) &&
              forall j :: 0 <= j < k ==> Taken(users, Candidate(base, j)))
         || (r == Fallback(base, random) && forall j :: 0 <= j < MaxCandidates ==> Taken(users, Candidate(base, j)))
  {
    var k := FirstFree(users, base, 0);
    if k < MaxCandidates then Candidate(base, k) else Fallback(base, random)
  }

  /** `FirstFree` is pinned down by its three properties. */
  lemma {:induction false} FirstFreeIs(users: seq<User>, base: string, k: nat, r: nat)
    requires k <= r <= MaxCandidates
    requires r < MaxCandidates ==> !Taken(users, Candidate(base, r))
    requires forall j :: k <= j < r ==> Taken(users, Candidate(base, j))
    ensures FirstFree(users, base, k) == r
    decreases r - k
  {
    if k < r {
      FirstFreeIs(users, base, k + 1, r);
    }
  }

  /** The full name of a new account: the claimed name, else the email's local part. */
  function NewFullName(name: string, email: string): (r: string)
    ensures name != "" ==> r == name
    ensures name == "" ==> r <= email && '@' !in r
    ensures name == "" && email != "" ==> (|r| == |email| || email[|r|] == '@')
  {
    if name == "" && email != "" then LocalPart(email) else name
  }

  /** The row `GetOrCreateUser` inserts: no email, no points, rank novice, no rating. */
  function NewUser(id: string, auth0Id: string, username: string, fullName: string): (u: User)
    ensures u.id == id && u.auth0Id == auth0Id && u.username == username && u.fullName == fullName
    ensures u.email == "" && u.points == 0 && u.rank == Novice && u.rating == 0.0 && u.reviewCount == 0
  {
    User(id, auth0Id, username, "", fullName, "", "", "", 0, Novice, 0.0, 0)
  }

  predicate HasAuth0Id(users: seq<User>, auth0Id: string) {
    exists i :: 0 <= i < |users| && users[i].auth0Id == auth0Id
  }

  /** Some row already has the primary key `id`. */
  predicate HasUserId(users: seq<User>, id: string) {
    exists i :: 0 <= i < |users| && users[i].id == id
  }

  class Service {
    const db: Db

    constructor(db: Db)
      ensures this.db == db
    {
      this.db := db;
    }

    /**
     * Probes `base`, `base1`, ..., `base999` in turn and keeps the first that
     * no user has; when all are taken, `base_<random>` without a probe.
     * `checks` counts the probes.
     */
    method GenerateUsername(email: string, random: int) returns (username: string, ghost checks: nat)
      ensures username == ChosenUsername(db.users, UsernameBase(email), random)
      ensures checks == if FirstFree(db.users, UsernameBase(email), 0) < MaxCandidates
                        then FirstFree(db.users, UsernameBase(email), 0) + 1 else MaxCandidates
      ensures checks <= MaxCandidates
    {
      var base := UsernameBase(email);
      username := base;
      var counter := 1;
      checks := 0;
      while true
        invariant 1 <= counter <= MaxCandidates
        invariant username == Candidate(base, counter - 1)
        invariant checks == counter - 1
        invariant forall j :: 0 <= j < counter - 1 ==> Taken(db.users, Candidate(base, j))
        decreases MaxCandidates - counter
      {
        checks := checks + 1;
        if !Taken(db.users, username) {
          FirstFreeIs(db.users, base, 0, counter - 1);
          break;
        }
        username := base + NatToString(counter);
        counter := counter + 1;
        if counter > MaxCandidates {
          FirstFreeIs(db.users, base, 0, MaxCandidates);
          username := Fallback(base, random);
          break;
        }
      }
    }

    /**
     * Returns the first user with the auth0 id and changes nothing; with no
     * such user, inserts a fresh one under the store-generated `newId`.
     */
    method GetOrCreateUser(auth0Id: string, email: string, name: string, newId: string, random: int)
      returns (r: Result<User, ServiceError>)
      modifies db
      ensures HasAuth0Id(old(db.users), auth0Id) ==>
        r == Ok(Seqs.FindFirst(old(db.users), (u: User) => u.auth0Id == auth0Id).value) && db.users == old(db.users)
      ensures !HasAuth0Id(old(db.users), auth0Id) && r.Ok? ==>
        r.value == NewUser(newId, auth0Id, ChosenUsername(old(db.users), UsernameBase(email), random), NewFullName(name, email))
        && db.users == old(db.users) + [r.value]
      ensures r.Err? <==> !HasAuth0Id(old(db.users), auth0Id) && HasUserId(old(db.users), newId)
      ensures r.Err? ==> db.users == old(db.users)
      ensures db.reviews == old(db.reviews) && db.skills == old(db.skills)
    {
      var existing := Seqs.FindFirst(db.users, (u: User) => u.auth0Id == auth0Id);
      if existing.Some? {
        return Ok(existing.value);
      }
      var username, _ := GenerateUsername(email, random);
      var fullName := name;
      if fullName == "" && email != "" {
        fullName := LocalPart(email);
      }
      var user := NewUser(newId, auth0Id, username, fullName);
      if HasUserId(db.users, newId) {
        return Err(CreateFailed);
      }
      db.users := db.users + [user];
      r := Ok(user);
    }

    /**
     * Two sign-ins with the same auth0 id add at most one user, and once the
     * first has succeeded the second returns the same user.
     */
    method GetOrCreateUserTwice(auth0Id: string, email: string, name: string, newId1: string, newId2: string, random: int)
      returns (r1: Result<User, ServiceError>, r2: Result<User, ServiceError>)
      modifies db
      ensures |db.users| <= |old(db.users)| + 1
      ensures r1.Ok? ==> r2 == r1
    {
      r1 := GetOrCreateUser(auth0Id, email, name, newId1, random);
      ghost var middle := db.users;
      if r1.Ok? && !HasAuth0Id(old(db.users), auth0Id) {
        Seqs.FindFirstAfterMisses(old(db.users), r1.value, (u: User) => u.auth0Id == auth0Id);
        assert middle[|middle| - 1].auth0Id == auth0Id;
      }
      r2 := GetOrCreateUser(auth0Id, email, name, newId2, random);
    }

    /**
     * Writes the columns into every row with the id and reports a missing
     * user when no row matched.
     */
    method UpdateUserProfile(userId: string, updates: map<ProfileColumn, string>) returns (r: Result<(), ServiceError>)
      modifies db
      ensures r.Err? <==> RowsWithId(old(db.users), userId) == 0
      ensures r.Err? ==> r.error == UserNotFound && db.users == old(db.users)
      ensures db.users == UpdateWhereId(old(db.users), userId, (u: User) => ApplyColumns(u, updates))
      ensures db.reviews == old(db.reviews) && db.skills == old(db.skills)
    {
      var rowsAffected := RowsWithId(db.users, userId);
      db.users := UpdateWhereId(db.users, userId, (u: User) => ApplyColumns(u, updates));
      if rowsAffected == 0 {
        NoRowNoChange(old(db.users), userId, (u: User) => ApplyColumns(u, updates));
        return Err(UserNotFound);
      }
      r := Ok(());
    }
  }
}
