/**
 * The skill catalogue handlers: lookup by id and search by category,
 * location and free text over the fixed mock catalogue, with the
 * hand-written substring test they use.
 */
module SkillHandlers {
  import opened Models
  import opened Wrappers
  import Seqs

  /** The catalogue the handlers serve. */
  const MockSkills: seq<Skill> := [
    Skill("1", "Guitar Lessons for Beginners",
          "Learn to play guitar from basics to intermediate level. Perfect for complete beginners!",
          "Music", "user1", 50.0, 60, "San Francisco, CA", true),
    Skill("2", "Web Development Fundamentals",
          "Learn HTML, CSS, and JavaScript basics. Build your first website!",
          "Technology", "user2", 75.0, 90, "San Francisco, CA", true),
    Skill("3", "Photography Basics",
          "Master the fundamentals of photography. Learn composition, lighting, and camera settings.",
          "Arts", "user3", 60.0, 120, "San Francisco, CA", true)
  ]

  /** `sub` appears at offset `i` of `str`. */
  predicate OccursAt(str: string, sub: string, i: int) {
    0 <= i <= |str| - |sub| && str[i..i + |sub|] == sub
  }

  /** `sub` appears contiguously somewhere in `str` (the empty string appears everywhere). */
  ghost predicate Occurs(str: string, sub: string) {
    exists i :: OccursAt(str, sub, i)
  }

  /** Tries every offset from 0 to `|str| - |sub|` in order and stops at the first hit. */
  method FindInString(str: string, sub: string) returns (found: bool)
    ensures found <==> Occurs(str, sub)
  {
    var i := 0;
    while i <= |str| - |sub|
      invariant 0 <= i
      invariant |sub| <= |str| ==> i <= |str| - |sub| + 1
      invariant forall j :: 0 <= j < i ==> !OccursAt(str, sub, j)
      decreases |str| - |sub| + 1 - i
    {
      if str[i..i + |sub|] == sub {
        assert OccursAt(str, sub, i);
        return true;
      }
      i := i + 1;
    }
    found := false;
  }

  /**
   * The substring test: false when `sub` is longer than `str`; true when they
   * are equal; otherwise, for a non-empty `sub`, a prefix or suffix match or
   * an occurrence found by the scan.
   */
  method Contains(str: string, sub: string) returns (r: bool)
    ensures sub != "" ==> (r <==> Occurs(str, sub))
    ensures sub == "" ==> (r <==> str == "")
    ensures |sub| > |str| ==> !r
  {
    if |str| < |sub| {
      return false;
    }
    if str == sub {
      assert OccursAt(str, sub, 0);
      return true;
    }
    if |sub| == 0 {
      return false;
    }
    if str[..|sub|] == sub {
      assert OccursAt(str, sub, 0);
      return true;
    }
    if str[|str| - |sub|..] == sub {
      assert OccursAt(str, sub, |str| - |sub|);
      return true;
    }
    r := FindInString(str, sub);
  }

  /** A skill passes every non-empty filter of a search. */
  ghost predicate Matches(category: string, location: string, query: string, s: Skill) {
    (category == "" || s.category == category)
    && (location == "" || s.location == location)
    && (query == "" || Occurs(s.title, query) || Occurs(s.description, query))
  }

  ghost function MatchesFilter(category: string, location: string, query: string): Skill -> bool {
    (s: Skill) => Matches(category, location, query, s)
  }

  /** The first catalogue skill with the id, or not-found. */
  method GetSkillByID(skillId: string) returns (r: Option<Skill>)
    ensures r.None? <==> forall i :: 0 <= i < |MockSkills| ==> MockSkills[i].id != skillId
    ensures r.Some? ==>
      exists i :: 0 <= i < |MockSkills| && MockSkills[i] == r.value && r.value.id == skillId &&
        forall j :: 0 <= j < i ==> MockSkills[j].id != skillId
  {
    for i := 0 to |MockSkills|
      invariant forall j :: 0 <= j < i ==> MockSkills[j].id != skillId
    {
      if MockSkills[i].id == skillId {
        return Some(MockSkills[i]);
      }
    }
    r := None;
  }

  /** The catalogue skills passing every non-empty filter, in catalogue order. */
  method SearchSkills(category: string, location: string, query: string) returns (filtered: seq<Skill>)
    ensures filtered == Seqs.Filter(MockSkills, MatchesFilter(category, location, query))
    ensures forall s :: s in filtered <==> s in MockSkills && Matches(category, location, query, s)
    ensures Seqs.IsSubsequence(filtered, MockSkills)
  {
    var catalogue := MockSkills;
    filtered := [];
    for i := 0 to |catalogue|
      invariant filtered == Seqs.Filter(catalogue[..i], MatchesFilter(category, location, query))
    {
      var skill := catalogue[i];
      var matched := true;
      if category != "" && skill.category != category {
        matched := false;
      }
      if location != "" && skill.location != location {
        matched := false;
      }
      if query != "" {
        var inTitle := Contains(skill.title, query);
        var inDescription := Contains(skill.description, query);
        if !inTitle && !inDescription {
          matched := false;
        }
      }
      Seqs.FilterSnoc(catalogue[..i], skill, MatchesFilter(category, location, query));
      assert catalogue[..i + 1] == catalogue[..i] + [skill];
      if matched {
        filtered := filtered + [skill];
      }
    }
    assert catalogue[..|catalogue|] == catalogue;
    Seqs.FilterIsSubsequence(catalogue, MatchesFilter(category, location, query));
  }

  /** With every filter empty, a search returns the whole catalogue. */
  lemma EmptySearchIsCatalogue(catalogue: seq<Skill>)
    ensures Seqs.Filter(catalogue, MatchesFilter("", "", "")) == catalogue
  {
    Seqs.FilterAll(catalogue, MatchesFilter("", "", ""));
  }

  /** Adding a filter never lets more skills through. */
  lemma NarrowerSearch(catalogue: seq<Skill>, category: string, location: string, query: string)
    ensures Seqs.IsSubsequence(Seqs.Filter(catalogue, MatchesFilter(category, location, query)),
                               Seqs.Filter(catalogue, MatchesFilter("", location, query)))
  {
    Seqs.FilterRedundant(catalogue, MatchesFilter("", location, query), MatchesFilter(category, location, query));
    Seqs.FilterIsSubsequence(Seqs.Filter(catalogue, MatchesFilter("", location, query)), MatchesFilter(category, location, query));
  }
}
