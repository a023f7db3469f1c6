/** The threshold policy that turns a score into a confidence category. */
module Categorization {
  import opened Wrappers
  import opened AuthorityNames

  datatype Category = Strong | Moderate | Weak | Bad

  /**
   * One threshold table, read as the chain of inclusive Ruby ranges
   * `strong..100.0`, `moderate..strong`, `weak..moderate`, first match wins.
   * A missing score matches no range.
   */
  function Tier(score: Option<real>, strong: real, moderate: real, weak: real): Category
  {
    match score
    case None => Bad
    case Some(s) =>
      if strong <= s <= 100.0 then Strong
      else if moderate <= s <= strong then Moderate
      else if weak <= s <= moderate then Weak
      else Bad
  }

  /**
   * The category of a score for a name type. Branch order makes every tier
   * half-open; the top tier stops at 100.0; a type the matcher does not
   * know has no category.
   */
  function Categorize(score: Option<real>, t: NameType): (c: Option<Category>)
    ensures c.None? <==> t.Other?
    ensures t.Personal? || t.Family? ==>
      && (c == Some(Strong) <==> score.Some? && 0.9 <= score.value <= 100.0)
      && (c == Some(Moderate) <==> score.Some? && 0.8 <= score.value < 0.9)
      && (c == Some(Weak) <==> score.Some? && 0.7 <= score.value < 0.8)
      && (c == Some(Bad) <==> score.None? || score.value < 0.7 || 100.0 < score.value)
    ensures t.Corporate? || t.Meeting? ==>
      && (c == Some(Strong) <==> score.Some? && 0.75 <= score.value <= 100.0)
      && (c == Some(Moderate) <==> score.Some? && 0.60 <= score.value < 0.75)
      && (c == Some(Weak) <==> score.Some? && 0.55 <= score.value < 0.60)
      && (c == Some(Bad) <==> score.None? || score.value < 0.55 || 100.0 < score.value)
  {
    match t
    case Personal | Family => Some(Tier(score, 0.9, 0.8, 0.7))
    case Corporate | Meeting => Some(Tier(score, 0.75, 0.60, 0.55))
    case Other(_) => None
  }
}
