/** What `handleSubmit` feeds the scorer once every field is valid: the
    parsed numbers, the rank, the situation list and the collected lists;
    and the tier the score earns. */
module Submission {
  import opened Options
  import opened Text
  import Scoring
  import Tiers
  import Collect
  import Gallery

  /** The score's inputs as `calculateScore` reads them from the record. */
  function AnswersOf(gpa: Option<real>, rank: string, income: Option<int>,
                     situations: seq<string>, lists: Collect.Lists): Scoring.Answers
  {
    Scoring.Answers(gpa, rank, income, |situations|, |lists.achievements|, |lists.evidences|)
  }

  function ScoreOf(gpa: Option<real>, rank: string, income: Option<int>, situations: seq<string>,
                   achievementInputs: seq<string>, evidenceInputs: seq<string>,
                   images: seq<Gallery.Image>): int
  {
    Scoring.Score(AnswersOf(gpa, rank, income, situations,
                            Collect.CollectLists(achievementInputs, evidenceInputs, images)))
  }

  /** A blank achievement box the user added but left empty changes nothing. */
  lemma BlankAchievementScoresNothing(gpa: Option<real>, rank: string, income: Option<int>,
                                      situations: seq<string>, before: seq<string>, blank: string,
                                      after: seq<string>, evidenceInputs: seq<string>,
                                      images: seq<Gallery.Image>)
    requires AllWhitespace(blank)
    ensures ScoreOf(gpa, rank, income, situations, before + [blank] + after, evidenceInputs, images)
            == ScoreOf(gpa, rank, income, situations, before + after, evidenceInputs, images)
  {
    Collect.BlankInputsIgnored(before, blank, after);
  }

  /** The worked example scores 78, which is the "good" tier. */
  lemma WorkedExampleTier()
    ensures var s := Scoring.Score(Scoring.Answers(Some(3.6), "excellent", Some(2500000), 2, 3, 2));
            s == 78 && Tiers.TierOf(s) == Tiers.Good
  {
    Scoring.WorkedExample();
  }
}
