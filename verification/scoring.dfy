/** `calculateScore`: a sum of six components, rounded once at the end with
    `Math.round`.  Three of them (situations, achievements, evidences) are
    capped with `Math.min`; rank and income are fixed lookups; the GPA part is
    not capped, so the score stays within 100 only for a GPA in [0, 4], the
    range `validateField` enforces.  The arithmetic is exact (real numbers),
    not IEEE-754 doubles. */
module Scoring {
  import opened Options

  /** The answers the score reads.  `gpa` is `parseFloat(gpa)` and `income`
      is `parseInt(income)`, each `None` when the parse gives NaN; the counts
      are the lengths of the situation, achievement and evidence lists. */
  datatype Answers = Answers(
    gpa: Option<real>,
    rank: string,
    income: Option<int>,
    situations: nat,
    achievements: nat,
    evidences: nat)

  /** `Math.round`: the nearest integer, halves rounded up. */
  function Round(x: real): (n: int)
    ensures x - 0.5 < n as real <= x + 0.5
  {
    (x + 0.5).Floor
  }

  /** `(gpa / 4.0) * 40`: ten points per grade point. */
  function GpaPoints(gpa: real): (p: real)
    ensures p == 10.0 * gpa
    ensures 0.0 <= gpa <= 4.0 ==> 0.0 <= p <= 40.0
  {
    (gpa / 4.0) * 40.0
  }

  /** `rankScores[rank] || 0` over the four ranks of the form. */
  function RankPoints(rank: string): (p: nat)
    ensures p <= 10
    ensures p != 0 <==> rank in {"excellent", "good", "fair", "average"}
  {
    match rank
    case "excellent" => 10
    case "good" => 7
    case "fair" => 5
    case "average" => 3
    case _ => 0
  }

  /** Monthly family income brackets. */
  function IncomePoints(income: int): (p: nat)
    ensures p in {15, 10, 5, 2}
  {
    if income < 3000000 then 15
    else if income < 5000000 then 10
    else if income < 8000000 then 5
    else 2
  }

  /** `Math.min(count * weight, cap)` */
  function Capped(count: nat, weight: nat, cap: nat): (p: nat)
    ensures p <= cap && p <= count * weight
    ensures p == cap || p == count * weight
  {
    if count * weight < cap then count * weight else cap
  }

  /** The sum before rounding; missing numbers count as 0. */
  function RawScore(a: Answers): real {
    GpaPoints(a.gpa.Or(0.0))
    + RankPoints(a.rank) as real
    + IncomePoints(a.income.Or(0)) as real
    + Capped(a.situations, 2, 10) as real
    + Capped(a.achievements, 3, 15) as real
    + Capped(a.evidences, 2, 10) as real
  }

  /** Every component but the GPA is already a whole number. */
  function WholePoints(a: Answers): (p: nat)
    ensures 2 <= p <= 60
  {
    RankPoints(a.rank) + IncomePoints(a.income.Or(0))
    + Capped(a.situations, 2, 10) + Capped(a.achievements, 3, 15) + Capped(a.evidences, 2, 10)
  }

  /** With a GPA in [0, 4] (or none at all) the score lies in [2, 100]: the
      income bracket always gives at least 2 points. */
  function Score(a: Answers): (s: int)
    ensures 0.0 <= a.gpa.Or(0.0) <= 4.0 ==> 2 <= s <= 100
  {
    Round(RawScore(a))
  }

  /** Adding a whole number commutes with rounding. */
  lemma RoundShift(x: real, n: int)
    ensures Round(x + n as real) == Round(x) + n
  {
    var r := Round(x);
    assert x + n as real - 0.5 < (r + n) as real <= x + n as real + 0.5;
  }

  lemma RoundMonotone(x: real, y: real)
    requires x <= y
    ensures Round(x) <= Round(y)
  {
  }

  /** Rounding happens once, at the end, yet only the GPA part can be
      fractional, so the score is the rounded GPA part (`round(gpa * 10)`)
      plus the whole-number components. */
  lemma ScoreRoundsOnlyGpa(a: Answers)
    ensures Score(a) == Round(10.0 * a.gpa.Or(0.0)) + WholePoints(a)
  {
    RoundShift(10.0 * a.gpa.Or(0.0), WholePoints(a));
  }

  /** A better GPA never lowers the score. */
  lemma ScoreMonotoneInGpa(a: Answers, lo: real, hi: real)
    requires lo <= hi
    ensures Score(a.(gpa := Some(lo))) <= Score(a.(gpa := Some(hi)))
  {
    RoundMonotone(RawScore(a.(gpa := Some(lo))), RawScore(a.(gpa := Some(hi))));
  }

  /** Income points never go up as income goes up. */
  lemma IncomePointsAntitone(lo: int, hi: int)
    requires lo <= hi
    ensures IncomePoints(hi) <= IncomePoints(lo)
  {
  }

  /** A higher income never raises the score. */
  lemma ScoreAntitoneInIncome(a: Answers, lo: int, hi: int)
    requires lo <= hi
    ensures Score(a.(income := Some(hi))) <= Score(a.(income := Some(lo)))
  {
    IncomePointsAntitone(lo, hi);
    RoundMonotone(RawScore(a.(income := Some(hi))), RawScore(a.(income := Some(lo))));
  }

  /** The ranks in the order the form lists them earn strictly decreasing
      points, and anything else earns none. */
  lemma RankPointsOrdered(other: string)
    requires other !in {"excellent", "good", "fair", "average"}
    ensures RankPoints("excellent") > RankPoints("good") > RankPoints("fair")
            > RankPoints("average") > RankPoints(other) == 0
  {
  }

  /** A missing or unreadable GPA or income scores as 0, not as a cap. */
  lemma MissingNumbersCountAsZero(a: Answers)
    ensures Score(a.(gpa := None)) == Score(a.(gpa := Some(0.0)))
    ensures Score(a.(income := None)) == Score(a.(income := Some(0)))
  {
  }

  /** gpa 3.6, excellent rank, income 2,500,000, two situations, three
      achievements and two evidence links: 36 + 10 + 15 + 4 + 9 + 4 = 78. */
  lemma WorkedExample()
    ensures Score(Answers(Some(3.6), "excellent", Some(2500000), 2, 3, 2)) == 78
  {
    var a := Answers(Some(3.6), "excellent", Some(2500000), 2, 3, 2);
    assert RawScore(a) == 78.0;
  }

  /** The GPA part has no cap: a GPA of 5, which `validateField` would have
      rejected, takes the score past 100. */
  lemma GpaIsUncapped()
    ensures Score(Answers(Some(5.0), "excellent", Some(0), 5, 5, 5)) == 110
  {
    var a := Answers(Some(5.0), "excellent", Some(0), 5, 5, 5);
    assert RawScore(a) == 110.0;
  }
}
