/** The founder card's display arithmetic: the colour band of the potential
    score, the first three tags with a `+N` badge for the rest, and the
    diversity badge block shown only when there is something to show. */
module FounderCard {
  import opened Wrappers

  datatype Band = Green | Yellow | Gray

  /** `getScoreColor`: 85 and above is green, 70 up to 85 yellow, the rest
      gray. */
  function ScoreBand(score: real): (b: Band)
    ensures b == Green <==> score >= 85.0
    ensures b == Yellow <==> 70.0 <= score < 85.0
    ensures b == Gray <==> score < 70.0
  {
    if score >= 85.0 then Green
    else if score >= 70.0 then Yellow
    else Gray
  }

  /** The CSS classes each band renders with. */
  function BandClasses(b: Band): (r: string)
    ensures b == Green <==> r == "text-green-600 bg-green-50"
    ensures b == Yellow <==> r == "text-yellow-600 bg-yellow-50"
    ensures b == Gray <==> r == "text-gray-600 bg-gray-50"
  {
    match b
    case Green => "text-green-600 bg-green-50"
    case Yellow => "text-yellow-600 bg-yellow-50"
    case Gray => "text-gray-600 bg-gray-50"
  }

  /** `getScoreColor`: the classes of the score's band. */
  function ScoreColor(score: real): (r: string)
    ensures r == "text-green-600 bg-green-50" <==> score >= 85.0
    ensures r == "text-yellow-600 bg-yellow-50" <==> 70.0 <= score < 85.0
    ensures r == "text-gray-600 bg-gray-50" <==> score < 70.0
  {
    BandClasses(ScoreBand(score))
  }

  /** Bands from lowest to highest. */
  function Rank(b: Band): nat {
    match b
    case Gray => 0
    case Yellow => 1
    case Green => 2
  }

  /** A higher score never lands in a lower band. */
  lemma BandMonotone(a: real, b: real)
    requires a <= b
    ensures Rank(ScoreBand(a)) <= Rank(ScoreBand(b))
  {
  }

  const ShownTagLimit := 3

  /** `tags.slice(0, 3)`: the first three tags, or all when fewer. */
  function VisibleTags<T>(tags: seq<T>): (r: seq<T>)
    ensures |r| == if |tags| < ShownTagLimit then |tags| else ShownTagLimit
    ensures r == tags[..|r|]
  {
    if |tags| <= ShownTagLimit then tags else tags[..ShownTagLimit]
  }

  /** The `+N` badge: shown exactly when there are more than three tags,
      carrying the number of tags left out of the list. */
  function OverflowBadge<T>(tags: seq<T>): (r: Option<nat>)
    ensures r.Some? <==> |tags| > ShownTagLimit
    ensures r.Some? ==> r.value > 0 && r.value == |tags| - ShownTagLimit
  {
    if |tags| > ShownTagLimit then Some(|tags| - ShownTagLimit) else None
  }

  /** The shown tags and the badge's count together account for every tag. */
  lemma TagsAccountedFor<T>(tags: seq<T>)
    ensures |VisibleTags(tags)| + OverflowBadge(tags).GetOr(0) == |tags|
  {
  }

  /** The diversity badges, or no block at all when there are none. */
  function DiversityBadges(metrics: seq<string>): (r: Option<seq<string>>)
    ensures r.Some? <==> |metrics| > 0
    ensures r.Some? ==> r.value == metrics
  {
    if |metrics| > 0 then Some(metrics) else None
  }
}
