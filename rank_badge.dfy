/**
 * The rank badge's logic: colour, icon and next threshold looked up by the
 * lower-cased rank name with a novice-like default, and the progress bar
 * toward the next threshold.
 */
module RankBadge {
  import opened Wrappers
  import opened Text

  /** The rank names the lookups know, once lower-cased. */
  predicate KnownRank(name: string) {
    name == "novice" || name == "beginner" || name == "intermediate" || name == "advanced"
    || name == "expert" || name == "master"
  }

  function RankColor(rank: string): string {
    match ToLower(rank)
    case "novice" => "bg-gray-100 text-gray-800 border-gray-300"
    case "beginner" => "bg-green-100 text-green-800 border-green-300"
    case "intermediate" => "bg-blue-100 text-blue-800 border-blue-300"
    case "advanced" => "bg-purple-100 text-purple-800 border-purple-300"
    case "expert" => "bg-orange-100 text-orange-800 border-orange-300"
    case "master" => "bg-yellow-100 text-yellow-800 border-yellow-300"
    case _ => "bg-gray-100 text-gray-800 border-gray-300"
  }

  function RankIcon(rank: string): string {
    match ToLower(rank)
    case "novice" => "\U{1F331}"
    case "beginner" => "\U{1F33F}"
    case "intermediate" => "\U{1F333}"
    case "advanced" => "\U{1F3C6}"
    case "expert" => "\U{1F451}"
    case "master" => "\U{2728}"
    case _ => "\U{1F331}"
  }

  /** The points at which the next rank starts; none for the top rank. */
  function NextRankThreshold(rank: string): (r: Option<int>)
    ensures r.Some? ==> r.value >= 100
    ensures r.None? <==> ToLower(rank) == "master"
  {
    match ToLower(rank)
    case "novice" => Some(100)
    case "beginner" => Some(500)
    case "intermediate" => Some(2000)
    case "advanced" => Some(5000)
    case "expert" => Some(10000)
    case "master" => None
    case _ => Some(100)
  }

  /** The bar's fill in percent: `points / threshold * 100` capped at 100, or full at the top rank. */
  function Progress(rank: string, points: real): (r: real)
    ensures r <= 100.0
    ensures points >= 0.0 ==> 0.0 <= r
    ensures NextRankThreshold(rank).None? ==> r == 100.0
  {
    match NextRankThreshold(rank)
    case None => 100.0
    case Some(t) =>
      var p := points / t as real * 100.0;
      if p < 100.0 then p else 100.0
  }

  /** The "points to next rank" figure of the progress block. */
  function PointsRemaining(rank: string, points: real): real
    requires NextRankThreshold(rank).Some?
  {
    NextRankThreshold(rank).value as real - points
  }

  /** The bar is short of full exactly when points remain to the next rank. */
  lemma RemainingMeansBarNotFull(rank: string, points: real)
    requires NextRankThreshold(rank).Some?
    ensures PointsRemaining(rank, points) > 0.0 <==> Progress(rank, points) < 100.0
  {
    var t := NextRankThreshold(rank).value as real;
    if points < t {
      assert points / t < 1.0 by {
        assert points / t * t == points;
      }
    } else {
      assert points / t >= 1.0 by {
        assert points / t * t == points;
      }
    }
  }

  /** Lower-casing a name that is already lower-case leaves it unchanged. */
  lemma LowerCaseFixed(s: string)
    requires forall i :: 0 <= i < |s| ==> !IsUpperAscii(s[i])
    ensures ToLower(s) == s
  {
  }

  /** The lookups ignore letter case. */
  lemma LookupsIgnoreCase(rank: string)
    ensures NextRankThreshold(rank) == NextRankThreshold(ToLower(rank))
    ensures RankColor(rank) == RankColor(ToLower(rank))
    ensures RankIcon(rank) == RankIcon(ToLower(rank))
  {
    ToLowerIdempotent(rank);
  }

  /** The threshold of each rank, strictly increasing from novice to expert; none for master. */
  lemma ThresholdValues()
    ensures NextRankThreshold("novice") == Some(100)
    ensures NextRankThreshold("beginner") == Some(500)
    ensures NextRankThreshold("intermediate") == Some(2000)
    ensures NextRankThreshold("advanced") == Some(5000)
    ensures NextRankThreshold("expert") == Some(10000)
    ensures NextRankThreshold("master") == None
    ensures NextRankThreshold("novice").value < NextRankThreshold("beginner").value
            < NextRankThreshold("intermediate").value < NextRankThreshold("advanced").value
            < NextRankThreshold("expert").value
  {
    LowerCaseFixed("novice");
    LowerCaseFixed("beginner");
    LowerCaseFixed("intermediate");
    LowerCaseFixed("advanced");
    LowerCaseFixed("expert");
    LowerCaseFixed("master");
  }

  /** A rank name none of the lookups knows is drawn and measured as a novice. */
  lemma UnknownRankIsNovice(rank: string)
    requires !KnownRank(ToLower(rank))
    ensures RankColor(rank) == RankColor("novice")
    ensures RankIcon(rank) == RankIcon("novice")
    ensures NextRankThreshold(rank) == NextRankThreshold("novice")
  {
    LowerCaseFixed("novice");
  }
}
