/**
 * The front end's local play predictor and opponent lookup: a fixed catalog
 * of eight plays, a table of three opponent profiles, the down/distance
 * prediction with its score and clock overrides, and the profile lookup that
 * merges a table entry over a default profile.
 */
module MockDataService {
  import opened Wrappers

  datatype PlayType = Run | Pass | PlayAction | Screen | Trick

  datatype Play = Play(
    id: string,
    playType: PlayType,
    formation: string,
    description: string,
    successRate: int,      // percent
    yardsPerPlay: real,
    usageCount: nat)

  /** The front end's game situation; only down, distance, quarter and score drive the prediction. */
  datatype GameSituation = GameSituation(
    down: int,
    distance: int,
    yardage: int,
    fieldPosition: int,
    quarter: int,
    timeRemaining: string,
    scoreDifference: int,
    opponent: string)

  datatype PlayPrediction = PlayPrediction(predictedPlay: Play, confidence: int, factors: seq<string>)

  datatype Coverage = Man | Zone | Mixed

  datatype DefensiveTendencies = DefensiveTendencies(
    runDefense: int,
    passDefense: int,
    blitzFrequency: int,
    coverageType: Coverage)

  datatype OpponentBreakdown = OpponentBreakdown(
    opponent: string,
    defensiveTendencies: DefensiveTendencies,
    weaknesses: seq<string>,
    strengths: seq<string>,
    recentFormation: string)

  /** A profile in which any field may be absent (a partial record); `None` is an absent key. */
  datatype PartialBreakdown = PartialBreakdown(
    opponent: Option<string>,
    defensiveTendencies: Option<DefensiveTendencies>,
    weaknesses: Option<seq<string>>,
    strengths: Option<seq<string>>,
    recentFormation: Option<string>)

  // ---------------------------------------------------------------------------
  // The play catalog

  const MockPlays: seq<Play> := [
    Play("1", Run, "I-Formation", "Power Run - Right Guard", 68, 4.2, 45),
    Play("2", Run, "Shotgun", "Zone Read Option", 72, 5.1, 38),
    Play("3", Pass, "Shotgun 3WR", "Quick Slant - Slot Receiver", 75, 6.8, 52),
    Play("4", Pass, "Shotgun 4WR", "Deep Post - Outside Receiver", 58, 12.3, 28),
    Play("5", PlayAction, "I-Formation", "Play Action Bootleg - Tight End", 65, 8.5, 22),
    Play("6", Screen, "Shotgun 3WR", "Screen Pass - Running Back", 70, 5.5, 35),
    Play("7", Run, "Pistol", "Inside Zone Run", 66, 4.0, 42),
    Play("8", Pass, "Shotgun 2TE", "Seam Route - Tight End", 62, 9.2, 18)
  ]

  /** The three catalog entries the predictor can choose. */
  const PowerRun: Play := MockPlays[0]
  const QuickSlant: Play := MockPlays[2]
  const DeepPost: Play := MockPlays[3]

  // ---------------------------------------------------------------------------
  // Prediction factors

  const FirstDownFactor := "First down - balanced approach"
  const ShortYardageFactor := "Short yardage situation"
  const LongYardageFactor := "Long yardage - need big play"
  const MediumDistanceFactor := "Medium distance - high percentage play"
  const ThirdDownShortFactor := "Short yardage conversion attempt"
  const ThirdDownFactor := "Third down - need conversion"
  const FourthDownFactor := "Fourth down - critical play"
  const TrailingFactor := "Trailing - more aggressive playcalling"
  const LeadingFactor := "Leading in 4th quarter - conservative approach"

  /** The reasons the down/distance table can give, one per branch. */
  const DownDistanceFactors: set<string> := {
    FirstDownFactor, ShortYardageFactor, LongYardageFactor, MediumDistanceFactor,
    ThirdDownShortFactor, ThirdDownFactor, FourthDownFactor
  }

  /** Trailing by more than a touchdown. */
  predicate TrailingBig(s: GameSituation) {
    s.scoreDifference < -7
  }

  /** Ahead in the fourth quarter. */
  predicate LeadingInFourth(s: GameSituation) {
    s.quarter == 4 && s.scoreDifference > 0
  }

  /**
   * The largest distance at which the down/distance table calls the run:
   * below 8 yards on first down, 3 yards on second and third, and 2 yards on
   * every other down value (the table's fallback branch).
   */
  function ShortYardageLimit(down: int): int {
    if down == 1 then 7 else if down == 2 || down == 3 then 3 else 2
  }

  datatype Call = Call(play: Play, factor: string)

  /**
   * The down/distance decision table, before any score or clock override.
   * It runs exactly within the down's short-yardage limit, calls the deep
   * post only on second and long, and otherwise calls the quick slant.
   */
  function DownDistanceCall(down: int, distance: int): (call: Call)
    ensures call.play == PowerRun || call.play == QuickSlant || call.play == DeepPost
    ensures call.play.playType == Run <==> distance <= ShortYardageLimit(down)
    ensures call.play == DeepPost <==> down == 2 && distance >= 8
    ensures call.factor in DownDistanceFactors
  {
    if down == 1 then
      Call(if distance >= 8 then QuickSlant else PowerRun, FirstDownFactor)
    else if down == 2 then
      if distance <= 3 then Call(PowerRun, ShortYardageFactor)
      else if distance >= 8 then Call(DeepPost, LongYardageFactor)
      else Call(QuickSlant, MediumDistanceFactor)
    else if down == 3 then
      if distance <= 3 then Call(PowerRun, ThirdDownShortFactor)
      else Call(QuickSlant, ThirdDownFactor)
    else
      Call(if distance <= 2 then PowerRun else QuickSlant, FourthDownFactor)
  }

  /**
   * On every down, a longer distance never yields a play with fewer yards
   * per play: the table only grows more aggressive as the distance grows.
   */
  lemma DownDistanceCallMonotone(down: int, shorter: int, longer: int)
    requires shorter <= longer
    ensures DownDistanceCall(down, shorter).play.yardsPerPlay <= DownDistanceCall(down, longer).play.yardsPerPlay
  {
    var a, b := DownDistanceCall(down, shorter), DownDistanceCall(down, longer);
    if a.play == DeepPost {
      assert b.play == DeepPost;
    } else if a.play == QuickSlant {
      assert b.play.playType != Run;
    }
  }

  /**
   * predictPlay: pick a play from the down/distance table, then let a big
   * deficit force the deep post on early downs and a fourth-quarter lead
   * force the power run, collecting the reason of every rule that fired.
   * `draw` is the integer drawn from [0, 20) for the confidence.
   */
  method PredictPlay(situation: GameSituation, draw: int) returns (prediction: PlayPrediction)
    requires 0 <= draw < 20
    ensures prediction.confidence == 75 + draw
    ensures 75 <= prediction.confidence < 95
    // which play: the fourth-quarter lead wins over everything, then the deficit rule on downs 1-2
    ensures LeadingInFourth(situation) ==> prediction.predictedPlay == PowerRun
    ensures !LeadingInFourth(situation) && TrailingBig(situation) && situation.down <= 2 ==>
              prediction.predictedPlay == DeepPost
    ensures !LeadingInFourth(situation) && !(TrailingBig(situation) && situation.down <= 2) ==>
              prediction.predictedPlay == DownDistanceCall(situation.down, situation.distance).play
    // the reasons: exactly one down/distance reason first, then at most one override reason
    ensures 1 <= |prediction.factors| <= 2
    ensures prediction.factors[0] == DownDistanceCall(situation.down, situation.distance).factor
    ensures TrailingFactor in prediction.factors <==> TrailingBig(situation)
    ensures LeadingFactor in prediction.factors <==> LeadingInFourth(situation)
    ensures |prediction.factors| == 2 <==> TrailingBig(situation) || LeadingInFourth(situation)
  {
    var predictedPlay: Play;
    var factors: seq<string> := [];

    if situation.down == 1 {
      predictedPlay := if situation.distance >= 8 then MockPlays[2] else MockPlays[0];
      factors := factors + [FirstDownFactor];
    } else if situation.down == 2 {
      if situation.distance <= 3 {
        predictedPlay := MockPlays[0];
        factors := factors + [ShortYardageFactor];
      } else if situation.distance >= 8 {
        predictedPlay := MockPlays[3];
        factors := factors + [LongYardageFactor];
      } else {
        predictedPlay := MockPlays[2];
        factors := factors + [MediumDistanceFactor];
      }
    } else if situation.down == 3 {
      if situation.distance <= 3 {
        predictedPlay := MockPlays[0];
        factors := factors + [ThirdDownShortFactor];
      } else {
        predictedPlay := MockPlays[2];
        factors := factors + [ThirdDownFactor];
      }
    } else {
      predictedPlay := if situation.distance <= 2 then MockPlays[0] else MockPlays[2];
      factors := factors + [FourthDownFactor];
    }

    if situation.scoreDifference < -7 {
      factors := factors + [TrailingFactor];
      if situation.down <= 2 {
        predictedPlay := MockPlays[3];
      }
    }

    if situation.quarter == 4 && situation.scoreDifference > 0 {
      factors := factors + [LeadingFactor];
      predictedPlay := MockPlays[0];
    }

    prediction := PlayPrediction(predictedPlay, 75 + draw, factors);
  }

  // ---------------------------------------------------------------------------
  // Opponent profiles

  const DefaultTendencies := DefensiveTendencies(65, 70, 30, Mixed)
  const DefaultWeaknesses := ["Standard defensive weaknesses"]
  const DefaultStrengths := ["Standard defensive strengths"]
  const DefaultFormation := "4-3 Base Defense"

  const NoOverrides := PartialBreakdown(None, None, None, None, None)

  const MockOpponentData: map<string, PartialBreakdown> := map[
    "Packers" := PartialBreakdown(
      None,
      Some(DefensiveTendencies(65, 72, 35, Zone)),
      Some(["Vulnerable to screen passes", "Weak against outside runs", "Struggles with play-action"]),
      Some(["Strong pass rush", "Good coverage in middle field", "Effective against deep passes"]),
      Some("4-3 Base Defense")),
    "Vikings" := PartialBreakdown(
      None,
      Some(DefensiveTendencies(78, 68, 42, Man)),
      Some(["Susceptible to quick passes", "Weak in red zone", "Struggles with misdirection"]),
      Some(["Excellent run defense", "Strong defensive line", "Good at stopping short yardage"]),
      Some("4-3 Over Defense")),
    "Lions" := PartialBreakdown(
      None,
      Some(DefensiveTendencies(58, 75, 28, Zone)),
      Some(["Poor run defense", "Weak against power runs", "Struggles with tight end routes"]),
      Some(["Strong secondary", "Good at preventing big plays", "Effective pass rush"]),
      Some("Nickel Defense"))
  ]

  /** Object spread `{...base, ...patch}`: every field the patch has replaces the base's. */
  function Spread(base: OpponentBreakdown, patch: PartialBreakdown): (r: OpponentBreakdown)
    ensures patch == NoOverrides ==> r == base
  {
    OpponentBreakdown(
      patch.opponent.GetOr(base.opponent),
      patch.defensiveTendencies.GetOr(base.defensiveTendencies),
      patch.weaknesses.GetOr(base.weaknesses),
      patch.strengths.GetOr(base.strengths),
      patch.recentFormation.GetOr(base.recentFormation))
  }

  /**
   * getOpponentBreakdown: the default profile, overridden by the table's
   * entry when the name is an exact (case-sensitive) key of the table.
   */
  function GetOpponentBreakdown(opponent: string): (r: OpponentBreakdown)
    ensures r.opponent == opponent
    ensures opponent !in MockOpponentData ==>
              && r.defensiveTendencies == DefensiveTendencies(65, 70, 30, Mixed)
              && r.weaknesses == ["Standard defensive weaknesses"]
              && r.strengths == ["Standard defensive strengths"]
              && r.recentFormation == "4-3 Base Defense"
    ensures opponent in MockOpponentData ==>
              && Some(r.defensiveTendencies) == MockOpponentData[opponent].defensiveTendencies
              && Some(r.weaknesses) == MockOpponentData[opponent].weaknesses
              && Some(r.strengths) == MockOpponentData[opponent].strengths
              && Some(r.recentFormation) == MockOpponentData[opponent].recentFormation
  {
    var defaultData := OpponentBreakdown(opponent, DefaultTendencies, DefaultWeaknesses, DefaultStrengths, DefaultFormation);
    Spread(defaultData, if opponent in MockOpponentData then MockOpponentData[opponent] else NoOverrides)
  }

  /** Every ratings field of every profile lies in [0, 100]. */
  lemma BreakdownRatingsInRange(opponent: string)
    ensures var t := GetOpponentBreakdown(opponent).defensiveTendencies;
            0 <= t.runDefense <= 100 && 0 <= t.passDefense <= 100 && 0 <= t.blitzFrequency <= 100
  {
    if opponent in MockOpponentData {
      assert opponent == "Packers" || opponent == "Vikings" || opponent == "Lions";
    }
  }

  /** The lookup is case-sensitive: a lower-case team name gets the default profile. */
  lemma LookupIsCaseSensitive()
    ensures GetOpponentBreakdown("packers").defensiveTendencies == DefaultTendencies
    ensures GetOpponentBreakdown("Packers").defensiveTendencies == DefensiveTendencies(65, 72, 35, Zone)
  {
    assert "packers" !in MockOpponentData;
  }
}
