/**
 * The back end's policy layer: context-dependent weights for success and
 * yards, hard exclusion rules (a score of minus infinity), a risk class per
 * candidate, and the recommendation that scores every candidate, orders them
 * by descending score and takes the best one and up to three alternatives.
 * Scores are exact reals; minus infinity is the `Excluded` case.
 */
module PolicyLayer {
  import opened Wrappers

  datatype GameSituation = GameSituation(
    down: int,
    distance: real,
    yardline100: real,
    quarter: int,
    timeRemainingSeconds: int,
    scoreDifference: int)

  /** A candidate play as the dictionary the scorer reads; `None` is a missing key. */
  datatype Candidate = Candidate(
    playType: Option<string>,
    runLocation: Option<string>,
    runGap: Option<string>,
    runPlayer: Option<string>,
    passLocation: Option<string>,
    passDepthBucket: Option<string>,
    shotgun: Option<string>,
    successProb: Option<real>,
    expectedYards: Option<real>)

  // ---------------------------------------------------------------------------
  // Probabilities given either as fractions or as percentages

  /** A value above 1 is read as a percentage. */
  function NormalizeProbability(value: real): (r: real)
    ensures value > 1.0 ==> r * 100.0 == value
    ensures value <= 1.0 ==> r == value
    ensures value <= 100.0 ==> r <= 1.0
    ensures 0.0 <= value ==> 0.0 <= r
  {
    if value > 1.0 then value / 100.0 else value
  }

  /** Normalizing twice changes nothing exactly for inputs of at most 100. */
  lemma NormalizeIdempotentIff(value: real)
    ensures NormalizeProbability(NormalizeProbability(value)) == NormalizeProbability(value) <==> value <= 100.0
  {
    if value > 100.0 {
      var once := NormalizeProbability(value);
      assert once > 1.0;
      assert NormalizeProbability(once) * 100.0 == once;
    }
  }

  // ---------------------------------------------------------------------------
  // Context weights

  datatype Weights = Weights(success: real, yards: real)

  predicate RedZone(s: GameSituation) {
    s.yardline100 <= 20.0
  }

  /** Ahead late in the fourth quarter (the last 8 minutes) or in overtime. */
  predicate LeadingLate(s: GameSituation) {
    ((s.quarter == 4 && s.timeRemainingSeconds <= 480) || s.quarter == 5) && s.scoreDifference > 0
  }

  /** Behind late in the fourth quarter (the last 10 minutes) or in overtime. */
  predicate TrailingLate(s: GameSituation) {
    ((s.quarter == 4 && s.timeRemainingSeconds <= 600) || s.quarter == 5) && s.scoreDifference < 0
  }

  /** The deficit that drives the trailing adjustment, capped at 17 points. */
  function Deficit(s: GameSituation): (d: real)
    ensures 0.0 <= d <= 17.0
  {
    var behind := if s.scoreDifference < 0 then -s.scoreDifference else s.scoreDifference;
    if 17 <= behind then 17.0 else behind as real
  }

  /** The weight moved from success to yards when trailing late: 0.05 up to 0.20. */
  function TrailingBump(s: GameSituation): (b: real)
    ensures 0.05 <= b <= 0.20
  {
    0.05 + 0.15 * (Deficit(s) / 17.0)
  }

  /** The success weight before any context rule: 0.95 on third and fourth down, else 0.80. */
  function BaseSuccessWeight(s: GameSituation): real {
    if s.down >= 3 then 0.95 else 0.80
  }

  /**
   * The net weight the context rules move from yards to success: the red
   * zone and a late lead each move 0.05 towards success, a late deficit moves
   * the trailing bump towards yards.
   */
  function TransferToSuccess(s: GameSituation): real {
    (if RedZone(s) then 0.05 else 0.0)
    + (if LeadingLate(s) then 0.05 else 0.0)
    - (if TrailingLate(s) then TrailingBump(s) else 0.0)
  }

  /**
   * The weights in closed form: the base split shifted by the transfer, each
   * raw weight floored (success at 0.05, yards at 0.02), then both divided by
   * their total. Success always keeps at least three fifths of the weight.
   */
  function WeightsFor(s: GameSituation): (w: Weights)
    ensures 0.0 < w.success && 0.0 < w.yards
    ensures w.success + w.yards == 1.0
    ensures w.success >= 0.6 && w.yards <= 0.4
  {
    var rawSuccess := BaseSuccessWeight(s) + TransferToSuccess(s);
    var rawYards := (1.0 - BaseSuccessWeight(s)) - TransferToSuccess(s);
    var sw := if rawSuccess < 0.05 then 0.05 else rawSuccess;
    var yw := if rawYards < 0.02 then 0.02 else rawYards;
    SumsToOne(sw, yw);
    SuccessShare(sw, yw);
    Weights(sw / (sw + yw), yw / (sw + yw))
  }

  /** Two positive reals divided by their total sum to 1. */
  lemma SumsToOne(a: real, b: real)
    requires 0.0 < a && 0.0 < b
    ensures a / (a + b) + b / (a + b) == 1.0
    ensures 0.0 < a / (a + b) && 0.0 < b / (a + b)
  {
    assert a / (a + b) + b / (a + b) == (a + b) / (a + b);
  }

  /** Either the floors left the split summing to 1, or yards was floored under a large success weight. */
  lemma SuccessShare(sw: real, yw: real)
    requires 0.6 <= sw && 0.02 <= yw
    requires sw + yw == 1.0 || (sw >= 0.95 && yw == 0.02)
    ensures sw / (sw + yw) >= 0.6 && yw / (sw + yw) <= 0.4
  {
    SumsToOne(sw, yw);
    if sw + yw != 1.0 {
      ShareAtLeast(sw, sw + yw, 0.6);
    }
  }

  lemma ShareAtLeast(a: real, total: real, bound: real)
    requires 0.0 < total && a >= bound * total
    ensures a / total >= bound
  {
    var q := a / total;
    assert q * total == a;
    assert (q - bound) * total >= 0.0;
  }

  /**
   * _context_weights, step by step: choose the base split, apply the red-zone,
   * leading-late and trailing-late adjustments in turn, floor both weights and
   * normalize. Proved equal to the closed form.
   */
  method ContextWeights(s: GameSituation) returns (w: Weights)
    ensures w == WeightsFor(s)
  {
    var successW, yardsW := 0.80, 0.20;

    if s.down >= 3 {
      successW, yardsW := 0.95, 0.05;
    }

    if s.yardline100 <= 20.0 {
      successW := successW + 0.05;
      yardsW := yardsW - 0.05;
    }

    if ((s.quarter == 4 && s.timeRemainingSeconds <= 480) || s.quarter == 5) && s.scoreDifference > 0 {
      successW := successW + 0.05;
      yardsW := yardsW - 0.05;
    }

    if ((s.quarter == 4 && s.timeRemainingSeconds <= 600) || s.quarter == 5) && s.scoreDifference < 0 {
      var behind := if s.scoreDifference < 0 then -s.scoreDifference else s.scoreDifference;
      var deficit := if 17 <= behind then 17.0 else behind as real;
      var bump := 0.05 + 0.15 * (deficit / 17.0);
      yardsW := yardsW + bump;
      successW := successW - bump;
    }

    assert successW == BaseSuccessWeight(s) + TransferToSuccess(s);
    assert yardsW == (1.0 - BaseSuccessWeight(s)) - TransferToSuccess(s);

    successW := if successW < 0.05 then 0.05 else successW;
    yardsW := if yardsW < 0.02 then 0.02 else yardsW;
    var total := successW + yardsW;

    w := Weights(successW / total, yardsW / total);
  }

  /** With no context rule firing, the split is the plain 0.80 / 0.20. */
  lemma NeutralWeights(s: GameSituation)
    requires s.down < 3 && !RedZone(s) && !LeadingLate(s) && !TrailingLate(s)
    ensures WeightsFor(s) == Weights(0.8, 0.2)
  {
  }

  /** The trailing adjustment stops growing at a 17-point deficit. */
  lemma DeficitCappedAtSeventeen(s: GameSituation)
    requires s.scoreDifference <= -17
    ensures WeightsFor(s) == WeightsFor(s.(scoreDifference := -17))
  {
  }

  /** When trailing late, neither raw weight hits its floor, so the raw split is the result. */
  lemma TrailingLateUnfloored(s: GameSituation)
    requires TrailingLate(s)
    ensures WeightsFor(s).yards == (1.0 - BaseSuccessWeight(s)) - TransferToSuccess(s)
  {
    var rawSuccess := BaseSuccessWeight(s) + TransferToSuccess(s);
    var rawYards := (1.0 - BaseSuccessWeight(s)) - TransferToSuccess(s);
    assert !LeadingLate(s);
    assert rawSuccess >= 0.6 && rawYards >= 0.02;
    assert rawSuccess + rawYards == 1.0;
  }

  /** Late and behind, a larger deficit never lowers the weight given to yards. */
  lemma LargerDeficitMoreYardsWeight(s: GameSituation, t: GameSituation)
    requires TrailingLate(s)
    requires t == s.(scoreDifference := t.scoreDifference)
    requires t.scoreDifference <= s.scoreDifference
    ensures WeightsFor(s).yards <= WeightsFor(t).yards
  {
    assert TrailingLate(t);
    TrailingLateUnfloored(s);
    TrailingLateUnfloored(t);
    assert Deficit(s) <= Deficit(t);
    assert TrailingBump(s) <= TrailingBump(t);
  }

  /** Late and ahead, the weight given to yards is strictly lower than in the same situation tied. */
  lemma LeadingLateLessYardsWeight(s: GameSituation)
    requires LeadingLate(s)
    ensures WeightsFor(s).yards < WeightsFor(s.(scoreDifference := 0)).yards
  {
    var t := s.(scoreDifference := 0);
    assert !LeadingLate(t) && !TrailingLate(t) && !TrailingLate(s);
    assert TransferToSuccess(s) == TransferToSuccess(t) + 0.05;
    var rawYardsS := (1.0 - BaseSuccessWeight(s)) - TransferToSuccess(s);
    var rawYardsT := (1.0 - BaseSuccessWeight(t)) - TransferToSuccess(t);
    var rawSuccessS := BaseSuccessWeight(s) + TransferToSuccess(s);
    var rawSuccessT := BaseSuccessWeight(t) + TransferToSuccess(t);
    assert rawSuccessS == rawSuccessT + 0.05 && rawSuccessT >= 0.8;
    if rawYardsT < 0.02 {
      // both floored at 0.02; the larger success weight shrinks the share of yards
      assert WeightsFor(s).yards == 0.02 / (rawSuccessS + 0.02);
      assert WeightsFor(t).yards == 0.02 / (rawSuccessT + 0.02);
      SmallerShareOfLargerTotal(0.02, rawSuccessT + 0.02, rawSuccessS + 0.02);
    } else if rawYardsS < 0.02 {
      assert WeightsFor(s).yards == 0.02 / (rawSuccessS + 0.02);
      assert WeightsFor(t).yards == rawYardsT;
      assert rawYardsT >= 0.02;
      SmallerShareOfLargerTotal(0.02, 1.0, rawSuccessS + 0.02);
    } else {
      assert WeightsFor(s).yards == rawYardsS;
      assert WeightsFor(t).yards == rawYardsT;
    }
  }

  lemma SmallerShareOfLargerTotal(a: real, smaller: real, larger: real)
    requires 0.0 < a && 0.0 < smaller < larger
    ensures a / larger < a / smaller
  {
  }

  // ---------------------------------------------------------------------------
  // Risk

  datatype RiskLevel = Low | Medium | High

  function LowerChar(c: char): char {
    if 'A' <= c <= 'Z' then (c as int + 32) as char else c
  }

  /** ASCII lower-casing, character by character. */
  function Lower(s: string): (r: string)
    ensures |r| == |s|
    // no upper-case letter is left
    ensures forall i :: 0 <= i < |r| ==> !('A' <= r[i] <= 'Z')
    // every character that is not an upper-case letter is kept
    ensures forall i :: 0 <= i < |s| && !('A' <= s[i] <= 'Z') ==> r[i] == s[i]
    // an upper-case letter becomes the letter 32 code points above it
    ensures forall i :: 0 <= i < |s| && 'A' <= s[i] <= 'Z' ==> r[i] as int == s[i] as int + 32
  {
    seq(|s|, i requires 0 <= i < |s| => LowerChar(s[i]))
  }

  lemma LowerIdempotent(s: string)
    ensures Lower(Lower(s)) == Lower(s)
  {
  }

  /**
   * _estimate_risk_level: a deep pass is high risk, a run low, everything
   * else medium; type and depth are compared after lower-casing, and a
   * missing key reads as the empty string.
   */
  function EstimateRiskLevel(c: Candidate): (r: RiskLevel)
    ensures r == High <==> Lower(c.playType.GetOr("")) == "pass" && Lower(c.passDepthBucket.GetOr("")) == "deep"
    ensures r == Low <==> Lower(c.playType.GetOr("")) == "run"
    ensures c.playType.None? ==> r == Medium
  {
    var playType := Lower(c.playType.GetOr(""));
    var depth := Lower(c.passDepthBucket.GetOr(""));
    if playType == "pass" && depth == "deep" then High
    else if playType == "run" then Low
    else Medium
  }

  /** The risk class does not depend on the letter case of the type or the depth. */
  lemma RiskIgnoresCase(c: Candidate)
    ensures EstimateRiskLevel(c) ==
            EstimateRiskLevel(c.(playType := Some(Lower(c.playType.GetOr(""))),
                                 passDepthBucket := Some(Lower(c.passDepthBucket.GetOr("")))))
  {
    LowerIdempotent(c.playType.GetOr(""));
    LowerIdempotent(c.passDepthBucket.GetOr(""));
  }

  /** "PASS" with depth "Deep" is high risk, as is "pass" with "deep"; "Run" is low. */
  lemma RiskExamples()
    ensures EstimateRiskLevel(Candidate(Some("PASS"), None, None, None, None, Some("Deep"), None, None, None)) == High
    ensures EstimateRiskLevel(Candidate(Some("Run"), None, None, None, None, None, None, None, None)) == Low
    ensures EstimateRiskLevel(Candidate(None, None, None, None, None, Some("deep"), None, None, None)) == Medium
  {
    assert Lower("PASS") == "pass";
    assert Lower("Deep") == "deep";
    assert Lower("Run") == "run";
    assert Lower("") == "";
  }

  function RiskRank(level: RiskLevel): nat {
    match level
    case Low => 0
    case Medium => 1
    case High => 2
  }

  /** _risk_penalty: a non-negative penalty that grows strictly with the risk class. */
  function RiskPenalty(level: RiskLevel): (p: real)
    ensures 0.0 <= p <= 0.15
    ensures p == 0.0 <==> level == Low
  {
    match level
    case High => 0.15
    case Medium => 0.05
    case Low => 0.0
  }

  lemma RiskPenaltyMonotone(a: RiskLevel, b: RiskLevel)
    requires RiskRank(a) < RiskRank(b)
    ensures RiskPenalty(a) < RiskPenalty(b)
  {
  }

  // ---------------------------------------------------------------------------
  // Scores

  /** A score, or minus infinity for a candidate the hard rules exclude. */
  datatype Score = Excluded | Value(v: real)

  /** The order of scores, with `Excluded` below every value. */
  predicate ScoreLe(a: Score, b: Score) {
    a.Excluded? || (b.Value? && a.v <= b.v)
  }

  predicate ScoreLt(a: Score, b: Score) {
    !ScoreLe(b, a)
  }

  /** Inside the five with at most five to go. */
  predicate GoalLine(s: GameSituation) {
    s.yardline100 <= 5.0 && s.distance <= 5.0
  }

  /** Behind with at most two minutes left in the half or in overtime. */
  predicate TwoMinuteDrill(s: GameSituation) {
    (s.quarter == 2 || s.quarter == 4 || s.quarter == 5) && s.timeRemainingSeconds <= 120 && s.scoreDifference < 0
  }

  /** No medium or deep pass at the goal line (type compared exactly, depth lower-cased). */
  predicate GoalLinePassBan(s: GameSituation, c: Candidate) {
    GoalLine(s) && c.playType == Some("pass")
    && (Lower(c.passDepthBucket.GetOr("")) == "medium" || Lower(c.passDepthBucket.GetOr("")) == "deep")
  }

  /** Two or more scores down late: no run unless the distance is at most 2. */
  predicate DrillRunBan(s: GameSituation, c: Candidate) {
    TwoMinuteDrill(s) && s.scoreDifference <= -9 && c.playType == Some("run") && s.distance > 2.0
  }

  /** Needing a chunk fast: no short pass (type and depth compared exactly). */
  predicate DrillShortPassBan(s: GameSituation, c: Candidate) {
    TwoMinuteDrill(s) && s.timeRemainingSeconds <= 90 && s.distance >= 10.0
    && c.playType == Some("pass") && c.passDepthBucket == Some("short")
  }

  /**
   * score_candidate: minus infinity when a hard rule excludes the candidate,
   * otherwise the weighted sum of the normalized success probability and a
   * tenth of the expected yards. The risk penalty is not subtracted.
   */
  function ScoreCandidate(s: GameSituation, c: Candidate): (r: Score)
    ensures r == Excluded <==> GoalLinePassBan(s, c) || DrillRunBan(s, c) || DrillShortPassBan(s, c)
  {
    if GoalLine(s) && c.playType == Some("pass")
       && Lower(c.passDepthBucket.GetOr("")) in {"medium", "deep"} then
      Excluded
    else if TwoMinuteDrill(s) && s.scoreDifference <= -9 && c.playType == Some("run") && s.distance > 2.0 then
      Excluded
    else if TwoMinuteDrill(s) && s.timeRemainingSeconds <= 90 && s.distance >= 10.0
            && c.playType == Some("pass") && c.passDepthBucket == Some("short") then
      Excluded
    else
      var w := WeightsFor(s);
      var successProb := NormalizeProbability(c.successProb.GetOr(0.0));
      var expectedYards := c.expectedYards.GetOr(0.0);
      Value(WeightedSum(w, successProb, expectedYards / 10.0))
  }

  /** The weighted sum of the success probability and the scaled yards. */
  function WeightedSum(w: Weights, success: real, yards: real): real {
    w.success * success + w.yards * yards
  }

  /**
   * With a success probability in [0, 100] (fraction or percentage) and
   * expected yards in [0, 10], a candidate that is not excluded scores in [0, 1].
   */
  lemma ScoreInUnitInterval(s: GameSituation, c: Candidate)
    requires 0.0 <= c.successProb.GetOr(0.0) <= 100.0
    requires 0.0 <= c.expectedYards.GetOr(0.0) <= 10.0
    requires ScoreCandidate(s, c).Value?
    ensures 0.0 <= ScoreCandidate(s, c).v <= 1.0
  {
    var x := NormalizeProbability(c.successProb.GetOr(0.0));
    var y := c.expectedYards.GetOr(0.0) / 10.0;
    assert ScoreCandidate(s, c).v == WeightedSum(WeightsFor(s), x, y);
    WeightedInUnitInterval(WeightsFor(s), x, y);
  }

  lemma WeightedInUnitInterval(w: Weights, x: real, y: real)
    requires 0.0 < w.success && 0.0 < w.yards && w.success + w.yards == 1.0
    requires 0.0 <= x <= 1.0 && 0.0 <= y <= 1.0
    ensures 0.0 <= WeightedSum(w, x, y) <= 1.0
  {
    ConvexCombination(w.success, w.yards, x, y);
  }

  lemma ConvexCombination(a: real, b: real, x: real, y: real)
    requires 0.0 <= a && 0.0 <= b && a + b == 1.0
    requires 0.0 <= x <= 1.0 && 0.0 <= y <= 1.0
    ensures 0.0 <= a * x + b * y <= 1.0
  {
    MulNonneg(a, x);
    MulNonneg(b, y);
    MulNonneg(a, 1.0 - x);
    MulNonneg(b, 1.0 - y);
    assert a * (1.0 - x) == a - a * x;
    assert b * (1.0 - y) == b - b * y;
  }

  lemma MulNonneg(a: real, c: real)
    requires 0.0 <= a && 0.0 <= c
    ensures 0.0 <= a * c
  {
  }

  /** A run can be excluded only in the two-minute drill, two scores down, with more than 2 to go. */
  lemma RunExcludedOnlyInDrill(s: GameSituation, c: Candidate)
    requires c.playType == Some("run")
    requires ScoreCandidate(s, c) == Excluded
    ensures TwoMinuteDrill(s) && s.scoreDifference <= -9 && s.distance > 2.0
  {
  }

  /** Away from the goal line and outside the two-minute drill nothing is excluded. */
  lemma NothingExcludedInOpenPlay(s: GameSituation, c: Candidate)
    requires !GoalLine(s) && !TwoMinuteDrill(s)
    ensures ScoreCandidate(s, c).Value?
  {
  }

  /**
   * The score ignores the risk class: two candidates that are not excluded and
   * have the same success probability and expected yards score the same,
   * whatever their type and depth.
   */
  lemma ScoreIgnoresRisk(s: GameSituation, c: Candidate, d: Candidate)
    requires ScoreCandidate(s, c).Value? && ScoreCandidate(s, d).Value?
    requires c.successProb == d.successProb && c.expectedYards == d.expectedYards
    ensures ScoreCandidate(s, c) == ScoreCandidate(s, d)
  {
  }

  /**
   * The exclusion tests compare the type exactly: a deep "Pass" at the goal
   * line is scored, though the risk classifier calls it high risk.
   */
  lemma GoalLineBanIsCaseSensitive(s: GameSituation)
    requires GoalLine(s) && !TwoMinuteDrill(s)
    ensures var c := Candidate(Some("Pass"), None, None, None, None, Some("deep"), None, Some(0.5), Some(20.0));
            ScoreCandidate(s, c).Value? && EstimateRiskLevel(c) == High
    ensures var c := Candidate(Some("pass"), None, None, None, None, Some("deep"), None, Some(0.5), Some(20.0));
            ScoreCandidate(s, c) == Excluded
  {
    assert Lower("Pass") == "pass";
    assert Lower("deep") == "deep";
  }

  // ---------------------------------------------------------------------------
  // Ordering candidates by descending score

  /** A candidate copied with its score attached. */
  datatype Scored = Scored(candidate: Candidate, score: Score)

  /** Every candidate, in input order, paired with its score. */
  function ScoreAll(s: GameSituation, candidates: seq<Candidate>): (r: seq<Scored>)
    ensures |r| == |candidates|
    ensures forall i :: 0 <= i < |r| ==> r[i].candidate == candidates[i]
    // an entry is minus infinity exactly when a hard rule bans its candidate
    ensures forall i :: 0 <= i < |r| ==>
              (r[i].score == Excluded <==>
                 GoalLinePassBan(s, candidates[i]) || DrillRunBan(s, candidates[i]) || DrillShortPassBan(s, candidates[i]))
  {
    seq(|candidates|, i requires 0 <= i < |candidates| => Scored(candidates[i], ScoreCandidate(s, candidates[i])))
  }

  /** Insert `x` after every entry with a strictly higher score. */
  function InsertByScore(x: Scored, ys: seq<Scored>): (r: seq<Scored>)
    ensures multiset(r) == multiset(ys) + multiset{x}
    ensures |r| == |ys| + 1
  {
    if ys == [] || ScoreLe(ys[0].score, x.score) then [x] + ys
    else
      assert ys == [ys[0]] + ys[1..];
      [ys[0]] + InsertByScore(x, ys[1..])
  }

  /**
   * Python's `list.sort(key=score, reverse=True)`: a stable sort by
   * descending score (entries with equal scores keep their input order).
   */
  function SortByScoreDesc(xs: seq<Scored>): (r: seq<Scored>)
    ensures multiset(r) == multiset(xs)
    ensures |r| == |xs|
  {
    if xs == [] then []
    else
      assert xs == [xs[0]] + xs[1..];
      InsertByScore(xs[0], SortByScoreDesc(xs[1..]))
  }

  ghost predicate SortedDesc(xs: seq<Scored>) {
    forall i, j :: 0 <= i < j < |xs| ==> ScoreLe(xs[j].score, xs[i].score)
  }

  lemma {:induction false} InsertSorted(x: Scored, ys: seq<Scored>)
    requires SortedDesc(ys)
    ensures SortedDesc(InsertByScore(x, ys))
  {
    if ys == [] || ScoreLe(ys[0].score, x.score) {
    } else {
      InsertSorted(x, ys[1..]);
      var r := InsertByScore(x, ys);
      var tail := InsertByScore(x, ys[1..]);
      assert r == [ys[0]] + tail;
      assert multiset(tail) == multiset(ys[1..]) + multiset{x};
      forall k | 0 <= k < |tail|
        ensures ScoreLe(tail[k].score, ys[0].score)
      {
        assert tail[k] in multiset(tail);
        if tail[k] == x {
        } else {
          assert tail[k] in multiset(ys[1..]);
          var m :| 0 <= m < |ys[1..]| && ys[1..][m] == tail[k];
          assert ys[1 + m] == tail[k];
        }
      }
    }
  }

  /** The sort's output is in descending score order. */
  lemma {:induction false} SortSorted(xs: seq<Scored>)
    ensures SortedDesc(SortByScoreDesc(xs))
  {
    if xs != [] {
      SortSorted(xs[1..]);
      InsertSorted(xs[0], SortByScoreDesc(xs[1..]));
    }
  }

  /** The entries whose score is `v`, in order. */
  function WithScore(xs: seq<Scored>, v: Score): (r: seq<Scored>)
    ensures |r| <= |xs|
  {
    if xs == [] then []
    else (if xs[0].score == v then [xs[0]] else []) + WithScore(xs[1..], v)
  }

  lemma {:induction false} InsertStable(x: Scored, ys: seq<Scored>, v: Score)
    ensures WithScore(InsertByScore(x, ys), v) == (if x.score == v then [x] else []) + WithScore(ys, v)
  {
    if ys == [] || ScoreLe(ys[0].score, x.score) {
      assert InsertByScore(x, ys) == [x] + ys;
      assert ([x] + ys)[1..] == ys;
    } else {
      InsertStable(x, ys[1..], v);
      var r := InsertByScore(x, ys);
      assert r == [ys[0]] + InsertByScore(x, ys[1..]);
      assert r[1..] == InsertByScore(x, ys[1..]);
      // ys[0] scores strictly above x, so it cannot share x's score
      assert x.score == v ==> ys[0].score != v;
    }
  }

  /**
   * Stability: for every score value, the entries with that score appear in
   * the output in the same order as in the input.
   */
  lemma {:induction false} SortStable(xs: seq<Scored>, v: Score)
    ensures WithScore(SortByScoreDesc(xs), v) == WithScore(xs, v)
  {
    if xs != [] {
      SortStable(xs[1..], v);
      InsertStable(xs[0], SortByScoreDesc(xs[1..]), v);
    }
  }

  /** `i` is the earliest entry whose score no entry exceeds. */
  ghost predicate IsFirstBest(xs: seq<Scored>, i: int) {
    && 0 <= i < |xs|
    && (forall j :: 0 <= j < |xs| ==> ScoreLe(xs[j].score, xs[i].score))
    && (forall j :: 0 <= j < i ==> ScoreLt(xs[j].score, xs[i].score))
  }

  lemma SortHeadStep(xs: seq<Scored>)
    requires |xs| >= 2
    ensures var rest := SortByScoreDesc(xs[1..]);
            SortByScoreDesc(xs)[0] == if ScoreLe(rest[0].score, xs[0].score) then xs[0] else rest[0]
  {
  }

  /** The earliest best of `xs` from the earliest best of its tail. */
  lemma FirstBestCons(xs: seq<Scored>, k: int)
    requires |xs| >= 2 && IsFirstBest(xs[1..], k)
    ensures ScoreLe(xs[k + 1].score, xs[0].score) ==> IsFirstBest(xs, 0)
    ensures !ScoreLe(xs[k + 1].score, xs[0].score) ==> IsFirstBest(xs, k + 1)
  {
    forall j | 0 < j < |xs|
      ensures xs[j] == xs[1..][j - 1]
    {
    }
  }

  /** The head of the sorted list is the earliest entry of highest score. */
  lemma {:induction false} SortHeadIsFirstBest(xs: seq<Scored>) returns (i: int)
    requires xs != []
    ensures IsFirstBest(xs, i)
    ensures SortByScoreDesc(xs)[0] == xs[i]
  {
    if |xs| == 1 {
      i := 0;
    } else {
      var k := SortHeadIsFirstBest(xs[1..]);
      SortHeadStep(xs);
      FirstBestCons(xs, k);
      i := if ScoreLe(xs[k + 1].score, xs[0].score) then 0 else k + 1;
    }
  }

  // ---------------------------------------------------------------------------
  // The recommendation

  datatype Recommendation = Recommendation(
    recommendedPlay: Option<Scored>,
    reasoning: seq<string>,
    successProbability: real,    // percent
    expectedYards: real,
    riskLevel: RiskLevel,
    alternativePlays: seq<Scored>)

  const NoCandidatesReason := "No candidates available for this situation."
  const ConversionReason := "Third or fourth down - prioritize conversion."
  const RedZoneReason := "Red zone - prioritize efficiency over raw yards."
  const LeadingLateReason := "Leading late - reduce risk and keep the clock running."
  const TrailingReason := "Trailing - lean toward higher upside plays."

  /** The four rule strings in the order they are reported. */
  const RuleReasons: seq<string> := [ConversionReason, RedZoneReason, LeadingLateReason, TrailingReason]

  /** The position of a rule string in the reporting order (4 for any other string). */
  function ReasonRank(reason: string): nat {
    if reason == ConversionReason then 0
    else if reason == RedZoneReason then 1
    else if reason == LeadingLateReason then 2
    else if reason == TrailingReason then 3
    else 4
  }

  /** Whether the rule behind a reason string applies to the situation. */
  predicate RuleApplies(s: GameSituation, reason: string) {
    if reason == ConversionReason then s.down >= 3
    else if reason == RedZoneReason then s.yardline100 <= 20.0
    else if reason == LeadingLateReason then s.quarter == 4 && s.timeRemainingSeconds <= 480 && s.scoreDifference > 0
    else if reason == TrailingReason then s.quarter >= 3 && s.scoreDifference < -7
    else false
  }

  /** The reasons of `rules` whose rules apply, in the order of `rules`. */
  function ApplicableReasons(s: GameSituation, rules: seq<string>): (r: seq<string>)
    ensures |r| <= |rules|
  {
    if rules == [] then []
    else (if RuleApplies(s, rules[0]) then [rules[0]] else []) + ApplicableReasons(s, rules[1..])
  }

  lemma {:induction false} ApplicableReasonsMembers(s: GameSituation, rules: seq<string>, reason: string)
    ensures reason in ApplicableReasons(s, rules) <==> reason in rules && RuleApplies(s, reason)
  {
    if rules != [] {
      ApplicableReasonsMembers(s, rules[1..], reason);
      assert rules == [rules[0]] + rules[1..];
    }
  }

  ghost predicate RankAscending(reasons: seq<string>) {
    forall k, m :: 0 <= k < m < |reasons| ==> ReasonRank(reasons[k]) < ReasonRank(reasons[m])
  }

  lemma {:induction false} ApplicableReasonsKeepOrder(s: GameSituation, rules: seq<string>)
    requires RankAscending(rules)
    ensures RankAscending(ApplicableReasons(s, rules))
  {
    if rules != [] {
      ApplicableReasonsKeepOrder(s, rules[1..]);
      var tail := ApplicableReasons(s, rules[1..]);
      forall m | 0 <= m < |tail|
        ensures ReasonRank(rules[0]) < ReasonRank(tail[m])
      {
        ApplicableReasonsMembers(s, rules[1..], tail[m]);
        var n :| 0 <= n < |rules[1..]| && rules[1..][n] == tail[m];
        assert rules[1 + n] == tail[m];
      }
    }
  }

  /** The filter over the four rule strings, one rule at a time. */
  lemma ApplicableRuleReasons(s: GameSituation)
    ensures ApplicableReasons(s, RuleReasons) ==
              (if s.down >= 3 then [ConversionReason] else [])
              + (if s.yardline100 <= 20.0 then [RedZoneReason] else [])
              + (if s.quarter == 4 && s.timeRemainingSeconds <= 480 && s.scoreDifference > 0 then [LeadingLateReason] else [])
              + (if s.quarter >= 3 && s.scoreDifference < -7 then [TrailingReason] else [])
  {
    var last := [TrailingReason];
    assert last[1..] == [];
    assert ApplicableReasons(s, last) == if RuleApplies(s, TrailingReason) then last else [];
    var two := [LeadingLateReason, TrailingReason];
    assert two[1..] == last;
    assert ApplicableReasons(s, two) == (if RuleApplies(s, LeadingLateReason) then [LeadingLateReason] else []) + ApplicableReasons(s, last);
    var three := [RedZoneReason, LeadingLateReason, TrailingReason];
    assert three[1..] == two;
    assert ApplicableReasons(s, three) == (if RuleApplies(s, RedZoneReason) then [RedZoneReason] else []) + ApplicableReasons(s, two);
    assert RuleReasons[1..] == three;
  }

  /**
   * The explanation of a recommendation holds at most the four rule strings,
   * each exactly when its rule applies, in the fixed reporting order.
   */
  lemma ReasoningFollowsRules(s: GameSituation)
    ensures var r := ApplicableReasons(s, RuleReasons);
            && |r| <= 4
            && (forall k :: 0 <= k < |r| ==> r[k] in RuleReasons)
            && RankAscending(r)
            && (ConversionReason in r <==> s.down >= 3)
            && (RedZoneReason in r <==> s.yardline100 <= 20.0)
            && (LeadingLateReason in r <==> s.quarter == 4 && s.timeRemainingSeconds <= 480 && s.scoreDifference > 0)
            && (TrailingReason in r <==> s.quarter >= 3 && s.scoreDifference < -7)
  {
    var r := ApplicableReasons(s, RuleReasons);
    forall k | 0 <= k < |r|
      ensures r[k] in RuleReasons
    {
      ApplicableReasonsMembers(s, RuleReasons, r[k]);
    }
    ApplicableReasonsKeepOrder(s, RuleReasons);
    ApplicableReasonsMembers(s, RuleReasons, ConversionReason);
    ApplicableReasonsMembers(s, RuleReasons, RedZoneReason);
    ApplicableReasonsMembers(s, RuleReasons, LeadingLateReason);
    ApplicableReasonsMembers(s, RuleReasons, TrailingReason);
  }

  /** The explanation, one rule at a time, each appending its string when it applies. */
  method BuildReasoning(s: GameSituation) returns (reasoning: seq<string>)
    ensures reasoning == ApplicableReasons(s, RuleReasons)
  {
    reasoning := [];
    if s.down >= 3 {
      reasoning := reasoning + [ConversionReason];
    }
    if s.yardline100 <= 20.0 {
      reasoning := reasoning + [RedZoneReason];
    }
    if s.quarter == 4 && s.timeRemainingSeconds <= 480 && s.scoreDifference > 0 {
      reasoning := reasoning + [LeadingLateReason];
    }
    if s.quarter >= 3 && s.scoreDifference < -7 {
      reasoning := reasoning + [TrailingReason];
    }

    ApplicableRuleReasons(s);
  }

  lemma ScoreAllStep(s: GameSituation, candidates: seq<Candidate>, i: int)
    requires 0 <= i < |candidates|
    ensures ScoreAll(s, candidates[..i + 1])
         == ScoreAll(s, candidates[..i]) + [Scored(candidates[i], ScoreCandidate(s, candidates[i]))]
  {
  }

  /** In a descending list, the entries after the head score no higher than it. */
  lemma AlternativesNoBetter(sorted: seq<Scored>)
    requires sorted != [] && SortedDesc(sorted)
    ensures var alternatives := sorted[1..if |sorted| < 4 then |sorted| else 4];
            forall k :: 0 <= k < |alternatives| ==> ScoreLe(alternatives[k].score, sorted[0].score)
  {
    var alternatives := sorted[1..if |sorted| < 4 then |sorted| else 4];
    forall k | 0 <= k < |alternatives|
      ensures ScoreLe(alternatives[k].score, sorted[0].score)
    {
      assert alternatives[k] == sorted[k + 1];
    }
  }

  /**
   * recommend_best_play: score every candidate into a fresh list, sort it by
   * descending score (stable), recommend its head and offer the next up to
   * three as alternatives, and explain the choice with the rules that apply.
   */
  method RecommendBestPlay(s: GameSituation, candidates: seq<Candidate>) returns (rec: Recommendation)
    // no candidates: nothing recommended and a single explanation
    ensures candidates == [] ==>
              rec == Recommendation(None, [NoCandidatesReason], 0.0, 0.0, Medium, [])
    // otherwise a play is always recommended, even when every candidate is excluded
    ensures candidates != [] ==> rec.recommendedPlay.Some?
    ensures candidates != [] ==>
              var scored := ScoreAll(s, candidates);
              var best := rec.recommendedPlay.value;
              && (exists i :: IsFirstBest(scored, i) && best == scored[i])
              && rec.alternativePlays == SortByScoreDesc(scored)[1..if |candidates| < 4 then |candidates| else 4]
              && |rec.alternativePlays| == (if |candidates| - 1 < 3 then |candidates| - 1 else 3)
              && (forall k :: 0 <= k < |rec.alternativePlays| ==> ScoreLe(rec.alternativePlays[k].score, best.score))
              && rec.riskLevel == EstimateRiskLevel(best.candidate)
              && rec.successProbability == NormalizeProbability(best.candidate.successProb.GetOr(0.0)) * 100.0
              && rec.expectedYards == best.candidate.expectedYards.GetOr(0.0)
    // the explanation: the rule strings whose rules apply, in the fixed order
    ensures candidates != [] ==> rec.reasoning == ApplicableReasons(s, RuleReasons)
  {
    if candidates == [] {
      return Recommendation(None, [NoCandidatesReason], 0.0, 0.0, Medium, []);
    }

    var scored: seq<Scored> := [];
    for i := 0 to |candidates|
      invariant scored == ScoreAll(s, candidates[..i])
    {
      var score := ScoreCandidate(s, candidates[i]);
      ScoreAllStep(s, candidates, i);
      scored := scored + [Scored(candidates[i], score)];
    }
    assert candidates[..|candidates|] == candidates;

    var sorted := SortByScoreDesc(scored);
    SortSorted(scored);
    var first := SortHeadIsFirstBest(scored);
    var best := sorted[0];
    var alternatives := sorted[1..if |sorted| < 4 then |sorted| else 4];
    AlternativesNoBetter(sorted);

    var reasoning := BuildReasoning(s);

    var riskLevel := EstimateRiskLevel(best.candidate);
    var successProb := NormalizeProbability(best.candidate.successProb.GetOr(0.0));

    rec := Recommendation(
      Some(best),
      reasoning,
      successProb * 100.0,
      best.candidate.expectedYards.GetOr(0.0),
      riskLevel,
      alternatives);
  }
}
