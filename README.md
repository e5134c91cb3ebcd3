# Play-calling core: predictor, policy layer and candidate generation

This project models the decision logic of a football play-calling assistant.
Three parts are modelled:

- **The front end's mock predictor** (`MockDataService`, `mock_data_service.dfy`).
  - `PredictPlay` picks one of three catalog plays from the down and the distance.
  - It overrides that pick when the offence trails by more than a touchdown on an early down, or leads in the fourth quarter.
  - It reports the reasons as a list of factor strings.
  - Its confidence is 75 plus a random draw below 20.
  - `GetOpponentBreakdown` lays an opponent's partial profile over a default profile, the way an object spread does.
- **The back end's policy layer** (`PolicyLayer`, `policy_layer.dfy`).
  - It normalises probabilities that arrive as percentages.
  - It weighs success probability against expected yards, depending on the context: third and fourth down, the red zone, and leading or trailing late.
  - It classifies a candidate's risk and scores each candidate.
  - Three hard rules exclude a candidate with a score of minus infinity: no medium or deep pass at the goal line, no run with more than 2 yards to go when two scores down in the two-minute drill, and no short pass in that drill with at most 90 seconds left and 10 or more yards to go.
  - It sorts the candidates by descending score with a stable sort, recommends the head of the sorted list, offers up to the next three as alternatives, and explains the choice with the context rules that apply.
- **The back end's feature and candidate preparation** (`RecommendationService`, `recommendation_service.dfy`).
  - It parses the "MM:SS" clock the way Python's `str.split` and `int` do, for ASCII text; `int` skips only space and '\t'..'\r', not the separators '\x1c'..'\x1f' that `str.isspace` counts (CPython's 4300-digit limit on `int` is not modelled).
  - It derives the game and half clocks and fills defaults for missing keys.
  - It enumerates the 54 candidate plays: 36 runs, then 18 passes.

`Wrappers` (`wrappers.dfy`) holds an `Option` type. A Python dictionary key that may be missing, or a TypeScript partial record's field, is an `Option` field. `GetOr` plays the part of `dict.get(key, default)`.

How the source's constructs are modelled:

- Minus infinity is the `Excluded` case of `PolicyLayer.Score`. It orders below every value.
- Python's `list.sort(key=…, reverse=True)` is specified by a stable insertion sort, `SortByScoreDesc`. Its output is proved sorted, a permutation of its input, and stable: the entries of any one score keep their input order.
- Code that works by updating local variables step by step is a method, proved equal to a specification function:
  - the scoring loop of `recommend_best_play`, a `for` loop proved against `ScoreAll`;
  - the runs (four nested loops) and then the passes (three nested loops) of `_generate_candidates`, proved against `CandidateAt`;
  - the sequence of `if` statements that adjust the weights in `_context_weights`, proved against `WeightsFor`;
  - the conditional appends to the reasoning list, proved against `ApplicableReasons`;
  - the `if` chain and factor pushes of `predictPlay`, proved against `DownDistanceCall`.

The source applies "late" differently in different rules, and the model keeps each rule's own test:

- The weights' leading rule fires in the fourth quarter with at most 480 seconds left, or in overtime (quarter 5).
- The reasoning's leading rule fires in the fourth quarter only.
- The weights' trailing rule needs quarter 4 with at most 600 seconds left, or overtime.
- The reasoning's trailing rule fires from the third quarter on, when behind by more than 7.

## Model

| member | source | states |
|---|---|---|
| MockDataService.DownDistanceCall | frontend/my-vite-app/src/services/mockDataService.ts:131-158 | the down/distance table picks Power Run, Quick Slant or Deep Post; it is a run exactly when the distance is at most 7/3/3/2 on downs 1/2/3/4; it is Deep Post exactly on 2nd and 8 or longer; its factor is one of the seven branch strings |
| MockDataService.DownDistanceCallMonotone | frontend/my-vite-app/src/services/mockDataService.ts:131-158 | on the same down, a longer distance never yields a play with fewer yards per play |
| MockDataService.PredictPlay | frontend/my-vite-app/src/services/mockDataService.ts:121-180 | confidence is 75 plus the draw, so it lies in [75, 95); leading in the 4th quarter always gives Power Run; otherwise trailing by more than 7 on 1st or 2nd down gives Deep Post; otherwise the down/distance table's play; factors hold the table's factor first, the trailing and leading factors each exactly when their condition holds, and one or two entries |
| MockDataService.Spread | frontend/my-vite-app/src/services/mockDataService.ts:196-199 | an empty patch leaves the base profile unchanged |
| MockDataService.GetOpponentBreakdown | frontend/my-vite-app/src/services/mockDataService.ts:182-199 | the opponent's name is kept; an unknown opponent gets every default field (65/70/30 mixed, the standard lists, 4-3 Base Defense); a known opponent gets each field of its table entry |
| MockDataService.BreakdownRatingsInRange | frontend/my-vite-app/src/services/mockDataService.ts:85-119 | for every opponent, known or not, the run defense, pass defense and blitz frequency all lie in [0, 100] |
| MockDataService.LookupIsCaseSensitive | frontend/my-vite-app/src/services/mockDataService.ts:196-199 | "packers" gets the default tendencies while "Packers" gets its table entry |
| PolicyLayer.NormalizeProbability | backend/app/services/policy_layer.py:15-18 | a value above 1 is divided by 100, any other is returned as is; values up to 100 come out at most 1 and non-negative values stay non-negative |
| PolicyLayer.NormalizeIdempotentIff | backend/app/services/policy_layer.py:15-18 | normalising twice equals normalising once exactly when the value is at most 100 |
| PolicyLayer.Deficit | backend/app/services/policy_layer.py:41 | the deficit used for trailing lies in [0, 17] |
| PolicyLayer.TrailingBump | backend/app/services/policy_layer.py:42 | the weight moved to yards when trailing late lies in [0.05, 0.20] |
| PolicyLayer.WeightsFor | backend/app/services/policy_layer.py:21-51 | both weights are positive and sum to 1, the success weight is at least 0.6 and the yards weight at most 0.4 |
| PolicyLayer.ContextWeights | backend/app/services/policy_layer.py:21-51 | the step-by-step adjustments (base, 3rd/4th down, red zone, leading late, trailing late, floors 0.05 and 0.02, normalisation) give exactly `WeightsFor` |
| PolicyLayer.NeutralWeights | backend/app/services/policy_layer.py:23-51 | with no context rule firing the split is 0.80 / 0.20 |
| PolicyLayer.DeficitCappedAtSeventeen | backend/app/services/policy_layer.py:40-44 | any deficit of 17 or more weighs exactly like a deficit of 17 |
| PolicyLayer.TrailingLateUnfloored | backend/app/services/policy_layer.py:39-51 | trailing late, neither floor applies and the yards weight is the raw one |
| PolicyLayer.LargerDeficitMoreYardsWeight | backend/app/services/policy_layer.py:39-51 | trailing late, a larger deficit never lowers the yards weight |
| PolicyLayer.LeadingLateLessYardsWeight | backend/app/services/policy_layer.py:34-51 | leading late, the yards weight is strictly lower than in the same situation tied |
| PolicyLayer.Lower | backend/app/services/policy_layer.py:56-57 | lower-casing keeps the length, leaves no upper-case letter, keeps every other character and moves each upper-case letter to its lower-case form (32 code points up) |
| PolicyLayer.LowerIdempotent | backend/app/services/policy_layer.py:56-57 | lower-casing twice is lower-casing once |
| PolicyLayer.EstimateRiskLevel | backend/app/services/policy_layer.py:55-63 | High exactly for a type "pass" with depth "deep", Low exactly for a type "run", both compared after lower-casing; a candidate without a type is Medium |
| PolicyLayer.RiskIgnoresCase | backend/app/services/policy_layer.py:55-63 | the risk class is unchanged when the type and depth are replaced by their lower-cased forms (a missing key counting as the empty string) |
| PolicyLayer.RiskExamples | backend/app/services/policy_layer.py:55-63 | "PASS"/"Deep" is High, "Run" is Low, a missing type is Medium |
| PolicyLayer.RiskPenalty | backend/app/services/policy_layer.py:66-71 | the penalty lies in [0, 0.15] and is 0 exactly for low risk |
| PolicyLayer.RiskPenaltyMonotone | backend/app/services/policy_layer.py:66-71 | a higher risk class has a strictly higher penalty |
| PolicyLayer.ScoreCandidate | backend/app/services/policy_layer.py:74-106 | a candidate is scored minus infinity exactly when the goal-line pass ban, the two-scores-down run ban or the short-pass ban applies |
| PolicyLayer.ScoreInUnitInterval | backend/app/services/policy_layer.py:97-106 | with a probability in [0, 100] and expected yards in [0, 10] (a missing key reading as 0), a finite score lies in [0, 1] |
| PolicyLayer.RunExcludedOnlyInDrill | backend/app/services/policy_layer.py:84-88 | an excluded run implies the two-minute drill, a deficit of at least 9 and more than 2 yards to go |
| PolicyLayer.NothingExcludedInOpenPlay | backend/app/services/policy_layer.py:74-94 | away from the goal line and outside the two-minute drill every score is finite |
| PolicyLayer.ScoreIgnoresRisk | backend/app/services/policy_layer.py:101-106 | two finite-scored candidates with the same probability and yards score the same, whatever their risk |
| PolicyLayer.GoalLineBanIsCaseSensitive | backend/app/services/policy_layer.py:76-80 | at the goal line a deep "pass" is excluded but a deep "Pass" is not, since the type is compared without lower-casing |
| PolicyLayer.ScoreAll | backend/app/services/policy_layer.py:120-124 | one entry per candidate, in input order, keeping the candidate; an entry is minus infinity exactly when one of the three hard rules bans its candidate |
| PolicyLayer.InsertByScore | backend/app/services/policy_layer.py:126 | inserting adds exactly the one entry (multiset) |
| PolicyLayer.SortByScoreDesc | backend/app/services/policy_layer.py:126 | the sort is a permutation of its input (multiset) |
| PolicyLayer.InsertSorted | backend/app/services/policy_layer.py:126 | inserting into a descending list keeps it descending |
| PolicyLayer.SortSorted | backend/app/services/policy_layer.py:126 | the sort's output is in descending score order |
| PolicyLayer.InsertStable | backend/app/services/policy_layer.py:126 | inserting places the new entry before the entries of its own score |
| PolicyLayer.SortStable | backend/app/services/policy_layer.py:126 | for every score, the entries with that score keep their input order |
| PolicyLayer.SortHeadIsFirstBest | backend/app/services/policy_layer.py:126-127 | the head of the sorted list is the earliest input entry of highest score |
| PolicyLayer.ApplicableReasonsMembers | backend/app/services/policy_layer.py:130-138 | a reason is reported exactly when it is one of the rules and its rule applies |
| PolicyLayer.ApplicableReasonsKeepOrder | backend/app/services/policy_layer.py:130-138 | the reported reasons keep the rules' order |
| PolicyLayer.ApplicableRuleReasons | backend/app/services/policy_layer.py:130-138 | the reasoning is the four conditional appends, in order |
| PolicyLayer.ReasoningFollowsRules | backend/app/services/policy_layer.py:130-138 | at most four reasons, each a rule string, in rule order, and each present exactly when its condition holds (3rd/4th down; yard line at most 20; Q4, at most 480 s, ahead; Q3 or later, behind by more than 7) |
| PolicyLayer.BuildReasoning | backend/app/services/policy_layer.py:130-138 | the appends produce exactly the reasons whose rules apply |
| PolicyLayer.RecommendBestPlay | backend/app/services/policy_layer.py:109-150 | no candidates: nothing recommended, the single explanation, 0, 0, medium, no alternatives; otherwise the recommendation is the earliest highest-scored candidate (even when all are excluded), the alternatives are the next up to three of the sorted list and score no higher, and risk, percent probability, yards and reasoning are those of the best candidate and the situation |
| RecommendationService.Split | backend/app/services/recommendation_service.py:19 | splitting gives at least one part and no part contains the separator |
| RecommendationService.SplitCount | backend/app/services/recommendation_service.py:19 | there is one part more than there are separators |
| RecommendationService.JoinSplit | backend/app/services/recommendation_service.py:19 | joining the parts with the separator gives back the text |
| RecommendationService.SplitNoSeparator | backend/app/services/recommendation_service.py:19 | a text without the separator is its own single part |
| RecommendationService.SplitTwo | backend/app/services/recommendation_service.py:19 | two separator-free pieces joined by the separator split back into those two pieces |
| RecommendationService.RemoveUnderscores | backend/app/services/recommendation_service.py:20 | no underscore is left, and a string without underscores is unchanged |
| RecommendationService.RemoveUnderscoresAppend | backend/app/services/recommendation_service.py:20 | dropping underscores distributes over concatenation, so the other characters are kept in order |
| RecommendationService.GroupsDropToDigits | backend/app/services/recommendation_service.py:20 | digits and underscores with the underscores dropped are all digits |
| RecommendationService.PyInt | backend/app/services/recommendation_service.py:20 | text that is empty or only whitespace (space and '\t'..'\r', the whitespace `int()` skips) is not an integer; a non-empty digit string reads as its decimal value |
| RecommendationService.PyIntGroupedDigits | backend/app/services/recommendation_service.py:20 | two digit groups joined by one underscore read as the digits without it ("1_000" is 1000) |
| RecommendationService.PyIntNonNegative | backend/app/services/recommendation_service.py:20 | text without a minus sign never reads as a negative integer |
| RecommendationService.ParseTimeRemaining | backend/app/services/recommendation_service.py:17-22 | any number of colons other than one reads as 0 |
| RecommendationService.ClockNonNegative | backend/app/services/recommendation_service.py:17-22 | a clock without a minus sign never reads negative |
| RecommendationService.SplitFromText | backend/app/services/recommendation_service.py:19 | every piece of a split is made of characters of the text |
| RecommendationService.ParseDigitClock | backend/app/services/recommendation_service.py:17-22 | digit strings around one colon read as minutes × 60 + seconds |
| RecommendationService.ParseFormattedClock | backend/app/services/recommendation_service.py:17-22 | round trip: formatting m and s in decimal around a colon reads back as m × 60 + s (for parts within CPython's digit limit, see below) |
| RecommendationService.ParseRejectsNonInteger | backend/app/services/recommendation_service.py:17-22 | when either side of the one colon is not an integer the clock reads as 0 |
| RecommendationService.SeparatorNotSkipped | backend/app/services/recommendation_service.py:20 | a separator character '\x1c'..'\x1f' before a digit string makes `int()` fail: it is not whitespace to `int()` |
| RecommendationService.SeparatorBeforeMinutes | backend/app/services/recommendation_service.py:17-22 | a separator character before the minutes makes the clock read as 0, through the caught ValueError |
| RecommendationService.TwoDigitClock | backend/app/services/recommendation_service.py:17-22 | any four-digit "MM:SS" reads as its two-digit minutes × 60 plus its two-digit seconds |
| RecommendationService.ParseLeadingZeros | backend/app/services/recommendation_service.py:17-22 | "08:09" reads as 489 |
| RecommendationService.ParseSecondsNotRangeChecked | backend/app/services/recommendation_service.py:17-22 | "01:75" reads as 135: the seconds are not range-checked |
| RecommendationService.ParseRejectsTwoColons | backend/app/services/recommendation_service.py:17-22 | "1:2:3" reads as 0 |
| RecommendationService.DefaultClockIsZero | backend/app/services/recommendation_service.py:32 | the default clock "0:00" reads as 0 |
| RecommendationService.BaseFeatures | backend/app/services/recommendation_service.py:31-46 | the half clock adds 900 s in odd quarters; the game clock is the quarter clock in Q4 and adds 2700 s / 900 s when the quarter is missing; a missing clock reads 0; the copied fields are the situation's, timeouts default to 3, no-huddle is 0 and the team type is "home" |
| RecommendationService.GameClockPerQuarter | backend/app/services/recommendation_service.py:38 | each earlier quarter adds 900 s to the game clock |
| RecommendationService.GameClockIsHalfClockPlusSecondHalf | backend/app/services/recommendation_service.py:38-39 | in quarters 1–4 the game clock is the half clock plus 1800 s in the first half and plus nothing in the second |
| RecommendationService.CandidateAt | backend/app/services/recommendation_service.py:49-92 | the first 36 candidates are runs with the pass fields "unknown"/"not_pass", the last 18 are passes with the run fields "unknown"/"unknown"/"not_run", all over the same base |
| RecommendationService.RunAt | backend/app/services/recommendation_service.py:59-74 | every formation/location/gap/player run sits at index 18f + 6l + 2g + p |
| RecommendationService.PassAt | backend/app/services/recommendation_service.py:76-90 | every formation/location/depth pass sits at index 36 + 9f + 3l + d |
| RecommendationService.GenerateCandidates | backend/app/services/recommendation_service.py:49-92 | the nested loops produce exactly the 54 candidates of the enumeration, in order |
| RecommendationService.ChoiceListsHaveNoDuplicates | backend/app/services/recommendation_service.py:52-57 | each choice list is free of duplicates |
| RecommendationService.CandidateKeysDistinct | backend/app/services/recommendation_service.py:49-92 | no two generated candidates agree on all their play fields |

## Left out

- PredictPlay: `Math.random()` is not modelled. The draw `Math.floor(Math.random() * 20)` is a parameter in [0, 20).
- PredictPlay: the string form of `scoreDifference` is not modelled; the score difference is an integer. The source converts a string with `parseInt(…, 10) || 0`.
- The commented-out `getBestPlayRecommendation` and the rest of the front end are not part of this model: the UI components, the API client and the type declarations.
- PolicyLayer.RecommendBestPlay: `successProbability` is the normalised probability times 100, without Python's rounding to one decimal place.
- Numbers are exact reals and unbounded integers. IEEE floating-point rounding is not modelled, for example in the red zone the source's 0.8 + 0.05 comes out as 0.8500000000000001 where the model has 0.85.
- PyInt: CPython (3.11 and later) refuses to convert a decimal string of more than 4300 digits and raises ValueError, which `_parse_time_remaining` turns into 0; the model reads such a part as its value.
- ParseFormattedClock: the round trip holds in the source only while both numbers have at most 4300 digits, because of the limit above; the model states it for all naturals.
- Lower-casing and Python's `int()` are modelled for ASCII only. Unicode case mapping, non-ASCII digits and non-ASCII whitespace are not modelled.
- A candidate field that is present but holds a non-string value, such as `None` turned into "None" by `str`, is not modelled. Fields are either strings or missing.
- The score difference in the policy layer is an integer, and `float(success_prob)` on a non-number is not modelled.
- `recommend_play` and `_load_models` are not part of this model. They call trained models loaded with joblib and pandas; this is foreign code, files and I/O.
- The HTTP routes, the training and feature-building scripts and the health check are not part of this model.
- `_risk_penalty` is modelled and its bounds are proved. The score does not subtract it, because that line is commented out in the source. `ScoreIgnoresRisk` states this.
- PolicyLayer.SortByScoreDesc: this specifies Python's sort (Timsort) by its result, a stable descending order. The merge steps of Timsort are not modelled.
