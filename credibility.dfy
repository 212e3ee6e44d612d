/** The credibility score a new report receives: a base score by severity plus
    a random jitter, capped at 100. `Math.random()` becomes the parameter `u`
    (or directly the jitter `j` it yields), so the score is a function. */
module Credibility {
  import opened Js

  /** The base score: `severe` 85, `high` 75, `moderate` 60, and 45 for
      `low` and for every other value, `undefined` included. */
  function BaseScore(severity: Value): (base: int)
    ensures base in {45, 60, 75, 85}
    ensures base == 45 <==> severity !in {Str("severe"), Str("high"), Str("moderate")}
  {
    if severity == Str("severe") then 85
    else if severity == Str("high") then 75
    else if severity == Str("moderate") then 60
    else 45
  }

  /** `Math.floor(Math.random() * 15)` for a draw `u` of `Math.random()`. */
  function Jitter(u: real): (j: int)
    requires 0.0 <= u < 1.0
    ensures 0 <= j <= 14
  {
    (u * 15.0).Floor
  }

  /** `Math.min` on two integers. */
  function Min(a: int, b: int): (m: int)
    ensures m <= a && m <= b
    ensures m == a || m == b
  {
    if a <= b then a else b
  }

  /** `calculateCredibility(severity)` whose random draw produced jitter `j`. */
  function CalculateCredibility(severity: Value, j: int): (score: int)
    requires 0 <= j <= 14
    ensures BaseScore(severity) <= score <= BaseScore(severity) + 14
    ensures 45 <= score <= 99
  {
    Min(100, BaseScore(severity) + j)
  }

  /** The order of the severity enumeration: low < moderate < high < severe. */
  function SeverityRank(severity: string): nat {
    if severity == "severe" then 3
    else if severity == "high" then 2
    else if severity == "moderate" then 1
    else 0
  }

  /** The cap at 100 never takes effect: the score is exactly base plus jitter. */
  lemma CapNeverApplies(severity: Value, j: int)
    requires 0 <= j <= 14
    ensures CalculateCredibility(severity, j) == BaseScore(severity) + j
    ensures CalculateCredibility(severity, j) < 100
  {
  }

  /** Every jitter in range gives a score inside the base's band of 15. */
  lemma ScoreBand(severity: Value, j: int)
    requires 0 <= j <= 14
    ensures severity == Str("severe") ==> 85 <= CalculateCredibility(severity, j) <= 99
    ensures severity == Str("high") ==> 75 <= CalculateCredibility(severity, j) <= 89
    ensures severity == Str("moderate") ==> 60 <= CalculateCredibility(severity, j) <= 74
    ensures severity == Str("low") ==> 45 <= CalculateCredibility(severity, j) <= 59
  {
  }

  /** For the same jitter, a strictly higher severity scores strictly higher. */
  lemma MonotoneInSeverity(a: string, b: string, j: int)
    requires 0 <= j <= 14
    requires SeverityRank(a) < SeverityRank(b)
    ensures CalculateCredibility(Str(a), j) < CalculateCredibility(Str(b), j)
  {
  }

  /** Across different jitters the order is not kept: the `high` and `severe`
      bands overlap, so a `high` report can outscore a `severe` one. */
  lemma HighMayOutscoreSevere()
    ensures CalculateCredibility(Str("high"), 14) > CalculateCredibility(Str("severe"), 0)
  {
  }

  /** An unknown severity, or none at all, scores exactly like `low`. */
  lemma UnknownScoresAsLow(severity: Value, j: int)
    requires 0 <= j <= 14
    requires severity !in {Str("severe"), Str("high"), Str("moderate")}
    ensures CalculateCredibility(severity, j) == CalculateCredibility(Str("low"), j)
  {
  }

  /** Every score in a severity's band is reached by some draw of `Math.random()`. */
  lemma EveryScoreReachable(severity: Value, score: int)
    requires BaseScore(severity) <= score <= BaseScore(severity) + 14
    ensures var u := (score - BaseScore(severity)) as real / 15.0;
            0.0 <= u < 1.0 && CalculateCredibility(severity, Jitter(u)) == score
  {
    var j := score - BaseScore(severity);
    var u := j as real / 15.0;
    assert u * 15.0 == j as real;
  }
}
