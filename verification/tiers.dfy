/** The tiered comment `showSuccessModal` shows under the score. */
module Tiers {

  datatype Tier = Excellent | Good | Fair | NeedsImprovement

  /** Higher is better. */
  function Level(t: Tier): nat {
    match t
    case NeedsImprovement => 0
    case Fair => 1
    case Good => 2
    case Excellent => 3
  }

  function TierOf(score: int): (t: Tier)
    ensures t == Excellent <==> 85 <= score
    ensures t == Good <==> 70 <= score < 85
    ensures t == Fair <==> 55 <= score < 70
    ensures t == NeedsImprovement <==> score < 55
  {
    if score >= 85 then Excellent
    else if score >= 70 then Good
    else if score >= 55 then Fair
    else NeedsImprovement
  }

  /** The comment shown under the score for each tier. */
  function Comment(t: Tier): string {
    match t
    case Excellent => "🎉 Xuất sắc! Bạn có khả năng cao được nhận học bổng."
    case Good => "👍 Tốt! Hồ sơ của bạn đạt yêu cầu xét học bổng."
    case Fair => "📝 Khá! Bạn có cơ hội được xét học bổng."
    case NeedsImprovement => "💪 Hồ sơ cần cải thiện để tăng cơ hội nhận học bổng."
  }

  /** A higher score never earns a lower tier. */
  lemma TierMonotone(lo: int, hi: int)
    requires lo <= hi
    ensures Level(TierOf(lo)) <= Level(TierOf(hi))
  {
  }

  /** Each tier has its own comment, so the comment tells the tier. */
  lemma CommentsDistinct(t: Tier, u: Tier)
    requires t != u
    ensures Comment(t) != Comment(u)
  {
  }
}
