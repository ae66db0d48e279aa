/** src/components/StrategySimulator.tsx: how many questions to attempt for a risk
    profile, and the score to expect at a given accuracy under +1.5 / -0.5 marking. */
module Strategy {

  datatype RiskProfile = Conservative | Balanced | Aggressive

  datatype StrategyResult = StrategyResult(recommendedAttempts: int, expectedScore: real, stopThreshold: int)

  function Attempts(p: RiskProfile): int {
    match p
    case Conservative => 45
    case Balanced => 55
    case Aggressive => 65
  }

  function StopThreshold(p: RiskProfile): int {
    match p
    case Conservative => 50
    case Balanced => 60
    case Aggressive => 65
  }

  /** The stop threshold is never below the recommended attempts, which never exceed 65,
      and a riskier profile attempts more. */
  lemma ProfileConstants(p: RiskProfile)
    ensures StopThreshold(p) >= Attempts(p) && 45 <= Attempts(p) <= 65
    ensures Attempts(Conservative) < Attempts(Balanced) < Attempts(Aggressive)
  {
  }

  /** `Math.floor(recommendedAttempts * (accuracy / 100))`, the slider giving whole
      percentages. */
  function ExpectedCorrect(attempts: int, accuracy: int): int {
    (attempts * accuracy) / 100
  }

  function ExpectedWrong(attempts: int, accuracy: int): int {
    attempts - ExpectedCorrect(attempts, accuracy)
  }

  /** `expectedCorrect * 1.5 - expectedWrong * 0.5`. */
  function ExpectedScore(attempts: int, accuracy: int): real {
    (ExpectedCorrect(attempts, accuracy) as real) * 1.5 - (ExpectedWrong(attempts, accuracy) as real) * 0.5
  }

  /** `calculateStrategy`. */
  function CalculateStrategy(p: RiskProfile, accuracy: int): (r: StrategyResult)
    ensures r.recommendedAttempts == Attempts(p) && r.stopThreshold == StopThreshold(p)
    ensures r.expectedScore == 2.0 * (ExpectedCorrect(Attempts(p), accuracy) as real) - (Attempts(p) as real) / 2.0
  {
    StrategyResult(Attempts(p), ExpectedScore(Attempts(p), accuracy), StopThreshold(p))
  }

  /** For an accuracy between 0 and 100 the expected answers split the attempts into
      right and wrong, the right ones being the attempts times the accuracy rounded down. */
  lemma AnswersSplit(attempts: nat, accuracy: int)
    requires 0 <= accuracy <= 100
    ensures 0 <= ExpectedCorrect(attempts, accuracy) <= attempts
    ensures ExpectedWrong(attempts, accuracy) >= 0
    ensures ExpectedCorrect(attempts, accuracy) + ExpectedWrong(attempts, accuracy) == attempts
    ensures 100 * ExpectedCorrect(attempts, accuracy) <= attempts * accuracy < 100 * (ExpectedCorrect(attempts, accuracy) + 1)
  {
    assert attempts * accuracy <= attempts * 100;
  }

  /** The score equals twice the right answers minus half the attempts. */
  lemma ScoreIsTwiceCorrectMinusHalf(attempts: int, accuracy: int)
    ensures ExpectedScore(attempts, accuracy) == 2.0 * (ExpectedCorrect(attempts, accuracy) as real) - (attempts as real) / 2.0
  {
  }

  /** For a fixed number of attempts, a higher accuracy never lowers the expected score. */
  lemma ScoreMonotone(attempts: nat, a: int, b: int)
    requires a <= b
    ensures ExpectedScore(attempts, a) <= ExpectedScore(attempts, b)
  {
    assert attempts * a <= attempts * b;
    DivMonotone(attempts * a, attempts * b);
  }

  lemma DivMonotone(x: int, y: int)
    requires x <= y
    ensures x / 100 <= y / 100
  {
  }

  /** At a valid accuracy the score lies between losing half a mark on every attempt
      and gaining one and a half on every attempt. */
  lemma ScoreBounds(p: RiskProfile, accuracy: int)
    requires 0 <= accuracy <= 100
    ensures -(Attempts(p) as real) / 2.0 <= CalculateStrategy(p, accuracy).expectedScore <= 1.5 * (Attempts(p) as real)
  {
    AnswersSplit(Attempts(p), accuracy);
  }
}
