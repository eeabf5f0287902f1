/**
 * The user handlers of the mock API: the fixed user list, lookup by id, and
 * the skills of one user taken from the shared mock catalogue.
 */
module UserHandlers {
  import opened Models
  import opened Wrappers
  import SkillHandlers
  import Seqs

  /** A user as the mock API lists them. */
  datatype BasicUser = BasicUser(id: string, username: string, email: string, fullName: string, location: string, rating: real)

  const MockUsers: seq<BasicUser> := [
    BasicUser("user1", "guitarmaster", "john@example.com", "John Smith", "San Francisco, CA", 4.8),
    BasicUser("user2", "webdev_pro", "sarah@example.com", "Sarah Johnson", "San Francisco, CA", 4.9),
    BasicUser("user3", "photoartist", "mike@example.com", "Mike Davis", "San Francisco, CA", 4.7)
  ]

  /** No two mock users share an id. */
  predicate DistinctIds(users: seq<BasicUser>) {
    forall i, j :: 0 <= i < j < |users| ==> users[i].id != users[j].id
  }

  lemma MockUserIdsDistinct()
    ensures DistinctIds(MockUsers)
  {
    assert MockUsers[0].id == "user1" && MockUsers[1].id == "user2" && MockUsers[2].id == "user3";
    assert "user1"[4] == '1' && "user2"[4] == '2' && "user3"[4] == '3';
  }

  /** The whole mock user list. */
  method GetUsers() returns (users: seq<BasicUser>)
    ensures users == MockUsers
  {
    users := MockUsers;
  }

  /** The first mock user with the id, which is then the only one; or not-found. */
  method GetUserByID(userId: string) returns (r: Option<BasicUser>)
    ensures r.None? <==> forall i :: 0 <= i < |MockUsers| ==> MockUsers[i].id != userId
    ensures r.Some? ==> r.value in MockUsers && r.value.id == userId
    ensures r.Some? ==> forall i :: 0 <= i < |MockUsers| && MockUsers[i].id == userId ==> MockUsers[i] == r.value
  {
    MockUserIdsDistinct();
    for i := 0 to |MockUsers|
      invariant forall j :: 0 <= j < i ==> MockUsers[j].id != userId
    {
      if MockUsers[i].id == userId {
        return Some(MockUsers[i]);
      }
    }
    r := None;
  }

  /** The catalogue skills the user offers, in catalogue order. */
  method GetUserSkills(userId: string) returns (userSkills: seq<Skill>)
    ensures userSkills == Seqs.Filter(SkillHandlers.MockSkills, (s: Skill) => s.userId == userId)
    ensures forall s :: s in userSkills <==> s in SkillHandlers.MockSkills && s.userId == userId
    ensures |userSkills| <= |SkillHandlers.MockSkills|
    ensures (forall i :: 0 <= i < |SkillHandlers.MockSkills| ==> SkillHandlers.MockSkills[i].userId != userId) ==> userSkills == []
  {
    var catalogue := SkillHandlers.MockSkills;
    userSkills := [];
    for i := 0 to |catalogue|
      invariant userSkills == Seqs.Filter(catalogue[..i], (s: Skill) => s.userId == userId)
    {
      var skill := catalogue[i];
      Seqs.FilterSnoc(catalogue[..i], skill, (s: Skill) => s.userId == userId);
      assert catalogue[..i + 1] == catalogue[..i] + [skill];
      if skill.userId == userId {
        userSkills := userSkills + [skill];
      }
    }
    assert catalogue[..|catalogue|] == catalogue;
    if userSkills != [] {
      assert userSkills[0] in userSkills;
    }
  }
}
