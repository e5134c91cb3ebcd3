/**
 * The back end's feature and candidate builders: the "MM:SS" clock parser,
 * the base feature record derived from the request, and the enumeration of
 * the 54 candidate plays the models score.
 */
module RecommendationService {
  import opened Wrappers

  // ---------------------------------------------------------------------------
  // Splitting on a separator (Python's `str.split(sep)`)

  /** The pieces of `s` between occurrences of `sep`; an empty string gives one empty piece. */
  function Split(s: string, sep: char): (parts: seq<string>)
    ensures |parts| >= 1
    ensures forall k :: 0 <= k < |parts| ==> sep !in parts[k]
  {
    if s == [] then [[]]
    else
      var rest := Split(s[1..], sep);
      if s[0] == sep then [[]] + rest else [[s[0]] + rest[0]] + rest[1..]
  }

  function Count(s: string, c: char): nat {
    if s == [] then 0 else (if s[0] == c then 1 else 0) + Count(s[1..], c)
  }

  /** The pieces joined back with `sep` between them. */
  function Join(parts: seq<string>, sep: char): string
    requires |parts| >= 1
  {
    if |parts| == 1 then parts[0] else parts[0] + [sep] + Join(parts[1..], sep)
  }

  /** One more piece than there are separators. */
  lemma {:induction false} SplitCount(s: string, sep: char)
    ensures |Split(s, sep)| == Count(s, sep) + 1
  {
    if s != [] {
      SplitCount(s[1..], sep);
    }
  }

  /** Joining the pieces gives back the string. */
  lemma {:induction false} JoinSplit(s: string, sep: char)
    ensures Join(Split(s, sep), sep) == s
  {
    if s != [] {
      JoinSplit(s[1..], sep);
      var rest := Split(s[1..], sep);
      if s[0] == sep {
        assert ([[]] + rest)[1..] == rest;
        assert s == [sep] + s[1..];
      } else {
        var parts := [[s[0]] + rest[0]] + rest[1..];
        if |rest| == 1 {
          assert s == [s[0]] + rest[0];
        } else {
          assert parts[1..] == rest[1..];
          assert Join(rest, sep) == rest[0] + [sep] + Join(rest[1..], sep);
          assert s == [s[0]] + s[1..];
        }
      }
    }
  }

  lemma {:induction false} SplitNoSeparator(s: string, sep: char)
    requires sep !in s
    ensures Split(s, sep) == [s]
  {
    if s != [] {
      SplitNoSeparator(s[1..], sep);
      assert s == [s[0]] + s[1..];
    }
  }

  /** Two pieces free of the separator split back into themselves. */
  lemma {:induction false} SplitTwo(a: string, b: string, sep: char)
    requires sep !in a && sep !in b
    ensures Split(a + [sep] + b, sep) == [a, b]
  {
    var s := a + [sep] + b;
    if a == [] {
      assert s[1..] == b;
      SplitNoSeparator(b, sep);
    } else {
      assert s[1..] == a[1..] + [sep] + b;
      SplitTwo(a[1..], b, sep);
      assert [a[0]] + a[1..] == a;
    }
  }

  // ---------------------------------------------------------------------------
  // Python's int() on a decimal string

  predicate IsDigit(c: char) {
    '0' as int <= c as int <= '9' as int
  }

  predicate AllDigits(s: string) {
    forall i :: 0 <= i < |s| ==> IsDigit(s[i])
  }

  /** The value of a string of decimal digits, most significant first. */
  function DigitsValue(s: string): nat
    requires AllDigits(s)
  {
    if s == [] then 0 else DigitsValue(s[..|s| - 1]) * 10 + (s[|s| - 1] as int - '0' as int)
  }

  /**
   * The ASCII whitespace `int()` skips around its digits. Unlike `str.isspace`,
   * `int()` does not skip the separators '\x1c'..'\x1f'.
   */
  predicate IsSpace(c: char) {
    c == ' ' || '\t' <= c <= '\r'
  }

  function TrimStart(s: string): string {
    if s != [] && IsSpace(s[0]) then TrimStart(s[1..]) else s
  }

  function TrimEnd(s: string): string {
    if s != [] && IsSpace(s[|s| - 1]) then TrimEnd(s[..|s| - 1]) else s
  }

  function Strip(s: string): string {
    TrimEnd(TrimStart(s))
  }

  /** Decimal digits, with single underscores allowed between two digits. */
  predicate IsDigitGroups(s: string) {
    && s != []
    && (forall i :: 0 <= i < |s| ==> IsDigit(s[i]) || s[i] == '_')
    && (forall i :: 0 <= i < |s| && s[i] == '_' ==> 0 < i < |s| - 1 && IsDigit(s[i - 1]) && IsDigit(s[i + 1]))
  }

  /** The string with every underscore dropped and the other characters kept in order. */
  function RemoveUnderscores(s: string): (r: string)
    ensures '_' !in r
    ensures '_' !in s ==> r == s
  {
    if s == [] then []
    else (if s[0] == '_' then [] else [s[0]]) + RemoveUnderscores(s[1..])
  }

  /** Digit groups with their underscores dropped are plain digits. */
  lemma {:induction false} GroupsDropToDigits(s: string)
    requires forall i :: 0 <= i < |s| ==> IsDigit(s[i]) || s[i] == '_'
    ensures AllDigits(RemoveUnderscores(s))
  {
    if s != [] {
      assert forall i :: 0 <= i < |s[1..]| ==> s[1..][i] == s[i + 1];
      GroupsDropToDigits(s[1..]);
    }
  }

  /**
   * `int(text)`: optional surrounding whitespace, an optional sign, then
   * digit groups; anything else fails (Python raises ValueError).
   */
  function PyInt(text: string): (r: Option<int>)
    // nothing but whitespace is not a number
    ensures Strip(text) == [] ==> r.None?
    // a plain digit string reads as its decimal value
    ensures text != [] && AllDigits(text) ==> r == Some(DigitsValue(text))
  {
    PlainDigits(text);
    var t := Strip(text);
    if t != [] && (t[0] == '+' || t[0] == '-') then
      if IsDigitGroups(t[1..]) then
        GroupsDropToDigits(t[1..]);
        var n: int := DigitsValue(RemoveUnderscores(t[1..]));
        Some(if t[0] == '-' then -n else n)
      else None
    else if IsDigitGroups(t) then
      GroupsDropToDigits(t);
      Some(DigitsValue(RemoveUnderscores(t)))
    else None
  }

  lemma {:induction false} TrimStartFromText(s: string, c: char)
    requires c in TrimStart(s)
    ensures c in s
  {
    if s != [] && IsSpace(s[0]) {
      TrimStartFromText(s[1..], c);
    }
  }

  lemma {:induction false} TrimEndFromText(s: string, c: char)
    requires c in TrimEnd(s)
    ensures c in s
  {
    if s != [] && IsSpace(s[|s| - 1]) {
      TrimEndFromText(s[..|s| - 1], c);
    }
  }

  /** Without a minus sign anywhere in the text, `int()` never reads a negative number. */
  lemma PyIntNonNegative(text: string)
    requires '-' !in text
    ensures PyInt(text).Some? ==> PyInt(text).value >= 0
  {
    var t := Strip(text);
    if t != [] && t[0] == '-' {
      TrimEndFromText(TrimStart(text), '-');
      TrimStartFromText(text, '-');
    }
  }

  /** A digit string holds no character that is not a digit. */
  lemma DigitsLack(s: string, c: char)
    requires AllDigits(s) && !IsDigit(c)
    ensures c !in s
  {
    forall i | 0 <= i < |s|
      ensures s[i] != c
    {
      assert IsDigit(s[i]);
    }
  }

  /** A digit string is its own stripped, underscore-free form. */
  lemma PlainDigits(s: string)
    ensures AllDigits(s) ==> Strip(s) == s && RemoveUnderscores(s) == s
  {
    if AllDigits(s) && s != [] {
      assert !IsSpace(s[0]) && !IsSpace(s[|s| - 1]);
      assert TrimStart(s) == s;
      assert TrimEnd(s) == s;
      DigitsLack(s, '_');
    }
  }

  /** Dropping underscores distributes over concatenation. */
  lemma {:induction false} RemoveUnderscoresAppend(a: string, b: string)
    ensures RemoveUnderscores(a + b) == RemoveUnderscores(a) + RemoveUnderscores(b)
  {
    if a != [] {
      var ab := a + b;
      assert ab[0] == a[0] && ab[1..] == a[1..] + b;
      var head := if a[0] == '_' then [] else [a[0]];
      RemoveUnderscoresUnfold(ab);
      RemoveUnderscoresUnfold(a);
      RemoveUnderscoresAppend(a[1..], b);
      var rt, rb := RemoveUnderscores(a[1..]), RemoveUnderscores(b);
      assert head + (rt + rb) == (head + rt) + rb;
    } else {
      assert a + b == b;
    }
  }

  lemma RemoveUnderscoresUnfold(s: string)
    requires s != []
    ensures RemoveUnderscores(s) == (if s[0] == '_' then [] else [s[0]]) + RemoveUnderscores(s[1..])
  {
  }

  /** An underscore between two digit groups is ignored: "1_000" reads as 1000. */
  lemma PyIntGroupedDigits(a: string, b: string)
    requires a != [] && AllDigits(a) && b != [] && AllDigits(b)
    ensures PyInt(a + "_" + b) == Some(DigitsValue(a + b))
  {
    var s := a + "_" + b;
    GroupedIsStripped(a, b);
    GroupedIsDigitGroups(a, b);
    GroupedDropsUnderscore(a, b);
    DigitsAppend(a, b);
    assert s[0] == a[0] && IsDigit(a[0]);
  }

  lemma GroupedIsStripped(a: string, b: string)
    requires a != [] && AllDigits(a) && b != [] && AllDigits(b)
    ensures Strip(a + "_" + b) == a + "_" + b
  {
    var s := a + "_" + b;
    assert s[0] == a[0] && s[|s| - 1] == b[|b| - 1];
    assert IsDigit(s[0]) && IsDigit(s[|s| - 1]);
    assert TrimStart(s) == s;
    assert TrimEnd(s) == s;
  }

  lemma GroupedIsDigitGroups(a: string, b: string)
    requires a != [] && AllDigits(a) && b != [] && AllDigits(b)
    ensures IsDigitGroups(a + "_" + b)
  {
    var s := a + "_" + b;
    forall i | 0 <= i < |s|
      ensures IsDigit(s[i]) || s[i] == '_'
      ensures s[i] == '_' ==> i == |a|
    {
      if i < |a| {
        assert s[i] == a[i];
      } else if i > |a| {
        assert s[i] == b[i - |a| - 1];
      }
    }
    assert s[|a| - 1] == a[|a| - 1] && s[|a| + 1] == b[0];
  }

  lemma GroupedDropsUnderscore(a: string, b: string)
    requires AllDigits(a) && AllDigits(b)
    ensures RemoveUnderscores(a + "_" + b) == a + b
  {
    var u := ['_'] + b;
    UnderscoreJoin(a, b);
    DigitsLack(a, '_');
    DigitsLack(b, '_');
    UnderscoreThen(b);
    RemoveUnderscoresAppend(a, u);
  }

  lemma UnderscoreJoin(a: string, b: string)
    ensures a + "_" + b == a + (['_'] + b)
  {
  }

  lemma UnderscoreThen(b: string)
    requires '_' !in b
    ensures RemoveUnderscores(['_'] + b) == b
  {
    var u := ['_'] + b;
    assert u[0] == '_' && u[1..] == b;
  }

  lemma DigitsAppend(a: string, b: string)
    requires AllDigits(a) && AllDigits(b)
    ensures AllDigits(a + b)
  {
    forall i | 0 <= i < |a + b|
      ensures IsDigit((a + b)[i])
    {
      if i >= |a| {
        assert (a + b)[i] == b[i - |a|];
      } else {
        assert (a + b)[i] == a[i];
      }
    }
  }

  // ---------------------------------------------------------------------------
  // The clock

  /**
   * _parse_time_remaining: "MM:SS" to seconds. Anything that does not split
   * into exactly two parts at ':' or whose parts are not integers gives 0;
   * the seconds are not range-checked.
   */
  function ParseTimeRemaining(text: string): (t: int)
    // without exactly one colon the clock reads as 0
    ensures Count(text, ':') != 1 ==> t == 0
  {
    SplitCount(text, ':');
    var parts := Split(text, ':');
    if |parts| != 2 then 0
    else
      match (PyInt(parts[0]), PyInt(parts[1]))
      case (Some(minutes), Some(seconds)) => minutes * 60 + seconds
      case _ => 0
  }

  /** Digit strings around one colon parse to minutes times 60 plus seconds. */
  lemma ParseDigitClock(minutes: string, seconds: string)
    requires minutes != [] && AllDigits(minutes)
    requires seconds != [] && AllDigits(seconds)
    ensures ParseTimeRemaining(minutes + ":" + seconds) == DigitsValue(minutes) * 60 + DigitsValue(seconds)
  {
    DigitsLack(minutes, ':');
    DigitsLack(seconds, ':');
    assert minutes + ":" + seconds == minutes + [':'] + seconds;
    SplitTwo(minutes, seconds, ':');
  }

  function DigitChar(d: nat): char
    requires d < 10
  {
    ('0' as int + d) as char
  }

  /** The decimal rendering of a natural number, without leading zeros. */
  function NatToDecimal(n: nat): (s: string)
    ensures s != [] && AllDigits(s)
    ensures DigitsValue(s) == n
  {
    if n < 10 then [DigitChar(n)]
    else
      var s := NatToDecimal(n / 10) + [DigitChar(n % 10)];
      assert s[..|s| - 1] == NatToDecimal(n / 10);
      s
  }

  /** Round trip: formatting minutes and seconds as "M:S" and parsing gives m·60 + s. */
  lemma ParseFormattedClock(minutes: nat, seconds: nat)
    ensures ParseTimeRemaining(NatToDecimal(minutes) + ":" + NatToDecimal(seconds)) == minutes * 60 + seconds
  {
    ParseDigitClock(NatToDecimal(minutes), NatToDecimal(seconds));
  }

  /** Every piece of a split is made of characters of the text. */
  lemma {:induction false} SplitFromText(s: string, sep: char, k: int, c: char)
    requires 0 <= k < |Split(s, sep)| && c in Split(s, sep)[k]
    ensures c in s
  {
    if s != [] {
      var rest := Split(s[1..], sep);
      if s[0] == sep {
        if k > 0 {
          SplitFromText(s[1..], sep, k - 1, c);
        }
      } else if k == 0 {
        if c != s[0] {
          SplitFromText(s[1..], sep, 0, c);
        }
      } else {
        SplitFromText(s[1..], sep, k, c);
      }
    }
  }

  /** Without a minus sign anywhere in the text, the clock never reads negative. */
  lemma ClockNonNegative(text: string)
    requires '-' !in text
    ensures ParseTimeRemaining(text) >= 0
  {
    var parts := Split(text, ':');
    if |parts| == 2 {
      if '-' in parts[0] {
        SplitFromText(text, ':', 0, '-');
      }
      if '-' in parts[1] {
        SplitFromText(text, ':', 1, '-');
      }
      PyIntNonNegative(parts[0]);
      PyIntNonNegative(parts[1]);
    }
  }

  /** The default clock "0:00" reads as 0 seconds. */
  lemma DefaultClockIsZero()
    ensures ParseTimeRemaining("0:00") == 0
  {
    assert "0:00" == "0" + ":" + "00";
    ParseDigitClock("0", "00");
  }

  /** Leading zeros are accepted. */
  lemma ParseLeadingZeros()
    ensures ParseTimeRemaining("08:09") == 489
  {
    TwoDigitClock('0', '8', '0', '9');
    assert "08:09" == ['0', '8'] + ":" + ['0', '9'];
  }

  /** The seconds are not range-checked. */
  lemma ParseSecondsNotRangeChecked()
    ensures ParseTimeRemaining("01:75") == 135
  {
    TwoDigitClock('0', '1', '7', '5');
    assert "01:75" == ['0', '1'] + ":" + ['7', '5'];
  }

  function DigitOf(c: char): int {
    c as int - '0' as int
  }

  /** A "MM:SS" clock of four digits. */
  lemma TwoDigitClock(m1: char, m0: char, s1: char, s0: char)
    requires IsDigit(m1) && IsDigit(m0) && IsDigit(s1) && IsDigit(s0)
    ensures ParseTimeRemaining([m1, m0] + ":" + [s1, s0])
         == (DigitOf(m1) * 10 + DigitOf(m0)) * 60 + DigitOf(s1) * 10 + DigitOf(s0)
  {
    ParseDigitClock([m1, m0], [s1, s0]);
    TwoDigitsValue(m1, m0);
    TwoDigitsValue(s1, s0);
  }

  lemma TwoDigitsValue(d1: char, d0: char)
    requires IsDigit(d1) && IsDigit(d0)
    ensures DigitsValue([d1, d0]) == DigitOf(d1) * 10 + DigitOf(d0)
  {
    var s := [d1, d0];
    assert AllDigits(s) && AllDigits([d1]);
    assert s[..1] == [d1] && s[1] == d0;
    assert [d1][..0] == [];
    assert DigitsValue([d1]) == DigitOf(d1);
  }

  /** Two colons make three parts, so the clock reads as 0. */
  lemma ParseRejectsTwoColons()
    ensures ParseTimeRemaining("1:2:3") == 0
  {
    assert Count("1:2:3", ':') == 2;
  }

  /** A part that is not an integer makes the whole clock read as 0. */
  lemma ParseRejectsNonInteger(minutes: string, seconds: string)
    requires ':' !in minutes && ':' !in seconds
    requires PyInt(minutes).None? || PyInt(seconds).None?
    ensures ParseTimeRemaining(minutes + ":" + seconds) == 0
  {
    assert minutes + ":" + seconds == minutes + [':'] + seconds;
    SplitTwo(minutes, seconds, ':');
  }

  /**
   * A file, group, record or unit separator ('\x1c'..'\x1f') before digits is
   * not whitespace to `int()`, which raises ValueError.
   */
  lemma SeparatorNotSkipped(c: char, digits: string)
    requires '\U{1C}' <= c <= '\U{1F}'
    requires digits != [] && AllDigits(digits)
    ensures PyInt([c] + digits).None?
  {
    var t := [c] + digits;
    assert TrimStart(t) == t;
    assert TrimEnd(t) == t by {
      assert t[|t| - 1] == digits[|digits| - 1];
    }
    assert !IsDigitGroups(t) by {
      assert t[0] == c;
    }
  }

  /** So a separator before the minutes makes the clock read as 0. */
  lemma SeparatorBeforeMinutes(c: char, minutes: string, seconds: string)
    requires '\U{1C}' <= c <= '\U{1F}'
    requires minutes != [] && AllDigits(minutes)
    requires ':' !in seconds
    ensures ParseTimeRemaining([c] + minutes + [':'] + seconds) == 0
  {
    var t := [c] + minutes;
    SeparatorNotSkipped(c, minutes);
    DigitsLack(minutes, ':');
    assert ':' !in t;
    ParseRejectsNonInteger(t, seconds);
    assert t + ":" + seconds == [c] + minutes + [':'] + seconds;
  }

  // ---------------------------------------------------------------------------
  // Base features

  /** The request as a dictionary; `None` is a missing key. */
  datatype Situation = Situation(
    down: Option<int>,
    distance: Option<int>,
    fieldPosition: Option<int>,
    quarter: Option<int>,
    timeRemaining: Option<string>,
    scoreDifference: Option<int>,
    opponent: Option<string>,
    posteamTimeoutsRemaining: Option<int>,
    defteamTimeoutsRemaining: Option<int>)

  datatype Features = Features(
    down: Option<int>,
    ydstogo: Option<int>,
    yardline100: Option<int>,
    gameSecondsRemaining: int,
    halfSecondsRemaining: int,
    scoreDifferential: Option<int>,
    posteamTimeoutsRemaining: int,
    defteamTimeoutsRemaining: int,
    noHuddle: int,
    defteam: Option<string>,
    posteamType: string)

  /** The seconds left in the current quarter, "0:00" when the clock is missing. */
  function ClockSeconds(situation: Situation): int {
    ParseTimeRemaining(situation.timeRemaining.GetOr("0:00"))
  }

  /**
   * _base_features: copy the situation's fields under the model's names,
   * derive the game and half clocks from the quarter clock (quarter 1 when
   * missing), and fill the fixed fields.
   */
  function BaseFeatures(situation: Situation): (f: Features)
    // every odd quarter (1, 3 and overtime 5) has a further 900 seconds left in its half
    ensures var t, q := ClockSeconds(situation), situation.quarter.GetOr(1);
            f.halfSecondsRemaining == t + (if q % 2 == 1 then 900 else 0)
    ensures situation.quarter.GetOr(1) == 4 ==> f.gameSecondsRemaining == ClockSeconds(situation)
    ensures situation.quarter.None? ==>
              f.gameSecondsRemaining == ClockSeconds(situation) + 2700 &&
              f.halfSecondsRemaining == ClockSeconds(situation) + 900
    ensures situation.timeRemaining.None? ==> ClockSeconds(situation) == 0
    // fields copied as they are, with their defaults
    ensures f.down == situation.down && f.ydstogo == situation.distance
    ensures f.yardline100 == situation.fieldPosition && f.scoreDifferential == situation.scoreDifference
    ensures f.defteam == situation.opponent
    ensures f.posteamTimeoutsRemaining == situation.posteamTimeoutsRemaining.GetOr(3)
    ensures f.defteamTimeoutsRemaining == situation.defteamTimeoutsRemaining.GetOr(3)
    ensures f.noHuddle == 0 && f.posteamType == "home"
  {
    DefaultClockIsZero();
    HalfOffset(situation.quarter.GetOr(1));
    var timeRemainingSeconds := ClockSeconds(situation);
    var quarter := situation.quarter.GetOr(1);
    Features(
      situation.down,
      situation.distance,
      situation.fieldPosition,
      timeRemainingSeconds + (4 - quarter) * 900,
      timeRemainingSeconds + (2 - ((quarter - 1) % 2 + 1)) * 900,
      situation.scoreDifference,
      situation.posteamTimeoutsRemaining.GetOr(3),
      situation.defteamTimeoutsRemaining.GetOr(3),
      0,
      situation.opponent,
      "home")
  }

  lemma HalfOffset(q: int)
    ensures (2 - ((q - 1) % 2 + 1)) * 900 == (if q % 2 == 1 then 900 else 0)
  {
    if q % 2 == 1 {
      assert (q - 1) % 2 == 0;
    } else {
      assert (q - 1) % 2 == 1;
    }
  }

  /** Each earlier quarter adds a full 900 seconds to the game clock. */
  lemma GameClockPerQuarter(situation: Situation, q: int)
    requires situation.quarter == Some(q)
    ensures BaseFeatures(situation).gameSecondsRemaining ==
            BaseFeatures(situation.(quarter := Some(q + 1))).gameSecondsRemaining + 900
  {
  }

  /**
   * In regulation the game clock is the half clock plus, in the first half,
   * the 1800 seconds of the second half.
   */
  lemma GameClockIsHalfClockPlusSecondHalf(situation: Situation)
    requires 1 <= situation.quarter.GetOr(1) <= 4
    ensures BaseFeatures(situation).gameSecondsRemaining ==
            BaseFeatures(situation).halfSecondsRemaining + (if situation.quarter.GetOr(1) <= 2 then 1800 else 0)
  {
  }

  // ---------------------------------------------------------------------------
  // Candidate plays

  /** A candidate: the base features plus the play's own fields. */
  datatype PlayCandidate = PlayCandidate(
    base: Features,
    playType: string,
    runLocation: string,
    runGap: string,
    runPlayer: string,
    passLocation: string,
    passDepthBucket: string,
    shotgun: string)

  const RunLocations: seq<string> := ["left", "middle", "right"]
  const RunGaps: seq<string> := ["guard", "tackle", "end"]
  const RunPlayers: seq<string> := ["D.Swift", "K.Monangai"]
  const PassLocations: seq<string> := ["left", "middle", "right"]
  const PassDepths: seq<string> := ["short", "medium", "deep"]
  const Formations: seq<string> := ["shotgun", "under_center"]

  function RunCandidate(base: Features, formation: string, location: string, gap: string, player: string): PlayCandidate {
    PlayCandidate(base, "run", location, gap, player, "unknown", "not_pass", formation)
  }

  function PassCandidate(base: Features, formation: string, location: string, depth: string): PlayCandidate {
    PlayCandidate(base, "pass", "unknown", "unknown", "not_run", location, depth, formation)
  }

  const CandidateCount := 54

  /**
   * The k-th candidate of the enumeration: the 36 runs (formation, then
   * location, then gap, then player), then the 18 passes (formation, then
   * location, then depth).
   */
  function CandidateAt(base: Features, k: int): (c: PlayCandidate)
    requires 0 <= k < CandidateCount
    ensures c.base == base
    ensures k < 36 ==> c.playType == "run" && c.passLocation == "unknown" && c.passDepthBucket == "not_pass"
    ensures 36 <= k ==> c.playType == "pass" && c.runLocation == "unknown" && c.runGap == "unknown" && c.runPlayer == "not_run"
  {
    if k < 36 then
      var formation, r := k / 18, k % 18;
      var location, r' := r / 6, r % 6;
      var gap, player := r' / 2, r' % 2;
      RunCandidate(base, Formations[formation], RunLocations[location], RunGaps[gap], RunPlayers[player])
    else
      var j := k - 36;
      var formation, r := j / 9, j % 9;
      var location, depth := r / 3, r % 3;
      PassCandidate(base, Formations[formation], PassLocations[location], PassDepths[depth])
  }

  /** Every run combination sits at its place in the enumeration. */
  lemma RunAt(base: Features, f: int, l: int, g: int, p: int)
    requires 0 <= f < 2 && 0 <= l < 3 && 0 <= g < 3 && 0 <= p < 2
    ensures CandidateAt(base, 18 * f + 6 * l + 2 * g + p) ==
            RunCandidate(base, Formations[f], RunLocations[l], RunGaps[g], RunPlayers[p])
  {
    var k := 18 * f + 6 * l + 2 * g + p;
    assert k / 18 == f && k % 18 == 6 * l + 2 * g + p;
    assert (6 * l + 2 * g + p) / 6 == l && (6 * l + 2 * g + p) % 6 == 2 * g + p;
    assert (2 * g + p) / 2 == g && (2 * g + p) % 2 == p;
  }

  /** Every pass combination sits at its place in the enumeration. */
  lemma PassAt(base: Features, f: int, l: int, d: int)
    requires 0 <= f < 2 && 0 <= l < 3 && 0 <= d < 3
    ensures CandidateAt(base, 36 + 9 * f + 3 * l + d) ==
            PassCandidate(base, Formations[f], PassLocations[l], PassDepths[d])
  {
    var j := 9 * f + 3 * l + d;
    assert j / 9 == f && j % 9 == 3 * l + d;
    assert (3 * l + d) / 3 == l && (3 * l + d) % 3 == d;
  }

  /** The whole enumeration, as a sequence. */
  ghost function Enumeration(base: Features): seq<PlayCandidate> {
    seq(CandidateCount, k requires 0 <= k < CandidateCount => CandidateAt(base, k))
  }

  /** `cs` holds the first |cs| candidates of the enumeration, in order. */
  ghost predicate Enumerated(base: Features, cs: seq<PlayCandidate>) {
    |cs| <= CandidateCount && cs == Enumeration(base)[..|cs|]
  }

  /** A prefix of `e` extended by the next element of `e` is the next prefix. */
  lemma PrefixAppend<T>(e: seq<T>, cs: seq<T>)
    requires |cs| < |e| && cs == e[..|cs|]
    ensures cs + [e[|cs|]] == e[..|cs| + 1]
  {
    assert e[..|cs| + 1] == e[..|cs|] + [e[|cs|]];
  }

  lemma AppendRun(base: Features, cs: seq<PlayCandidate>, f: int, l: int, g: int, p: int)
    requires 0 <= f < 2 && 0 <= l < 3 && 0 <= g < 3 && 0 <= p < 2
    requires Enumerated(base, cs) && |cs| == 18 * f + 6 * l + 2 * g + p
    ensures Enumerated(base, cs + [RunCandidate(base, Formations[f], RunLocations[l], RunGaps[g], RunPlayers[p])])
  {
    RunAt(base, f, l, g, p);
    PrefixAppend(Enumeration(base), cs);
  }

  lemma AppendPass(base: Features, cs: seq<PlayCandidate>, f: int, l: int, d: int)
    requires 0 <= f < 2 && 0 <= l < 3 && 0 <= d < 3
    requires Enumerated(base, cs) && |cs| == 36 + 9 * f + 3 * l + d
    ensures Enumerated(base, cs + [PassCandidate(base, Formations[f], PassLocations[l], PassDepths[d])])
  {
    PassAt(base, f, l, d);
    PrefixAppend(Enumeration(base), cs);
  }

  /**
   * _generate_candidates: nested loops over formation, location, gap and
   * player append the runs, then nested loops over formation, location and
   * depth append the passes.
   */
  method GenerateCandidates(base: Features) returns (candidates: seq<PlayCandidate>)
    ensures |candidates| == CandidateCount
    ensures forall k :: 0 <= k < |candidates| ==> candidates[k] == CandidateAt(base, k)
  {
    candidates := [];

    for f := 0 to |Formations|
      invariant |candidates| == 18 * f
      invariant Enumerated(base, candidates)
    {
      for l := 0 to |RunLocations|
        invariant |candidates| == 18 * f + 6 * l
        invariant Enumerated(base, candidates)
      {
        for g := 0 to |RunGaps|
          invariant |candidates| == 18 * f + 6 * l + 2 * g
          invariant Enumerated(base, candidates)
        {
          for p := 0 to |RunPlayers|
            invariant |candidates| == 18 * f + 6 * l + 2 * g + p
            invariant Enumerated(base, candidates)
          {
            AppendRun(base, candidates, f, l, g, p);
            candidates := candidates + [RunCandidate(base, Formations[f], RunLocations[l], RunGaps[g], RunPlayers[p])];
          }
        }
      }
    }

    for f := 0 to |Formations|
      invariant |candidates| == 36 + 9 * f
      invariant Enumerated(base, candidates)
    {
      for l := 0 to |PassLocations|
        invariant |candidates| == 36 + 9 * f + 3 * l
        invariant Enumerated(base, candidates)
      {
        for d := 0 to |PassDepths|
          invariant |candidates| == 36 + 9 * f + 3 * l + d
          invariant Enumerated(base, candidates)
        {
          AppendPass(base, candidates, f, l, d);
          candidates := candidates + [PassCandidate(base, Formations[f], PassLocations[l], PassDepths[d])];
        }
      }
    }
  }

  /** The fields that tell two candidates apart. */
  function Key(c: PlayCandidate): (string, string, string, string, string, string, string) {
    (c.playType, c.runLocation, c.runGap, c.runPlayer, c.passLocation, c.passDepthBucket, c.shotgun)
  }

  predicate NoDuplicates(xs: seq<string>) {
    forall i, j :: 0 <= i < j < |xs| ==> xs[i] != xs[j]
  }

  lemma ChoiceListsHaveNoDuplicates()
    ensures NoDuplicates(Formations) && NoDuplicates(RunLocations) && NoDuplicates(RunGaps)
    ensures NoDuplicates(RunPlayers) && NoDuplicates(PassLocations) && NoDuplicates(PassDepths)
  {
  }

  lemma SameChoiceSameIndex(xs: seq<string>, a: int, b: int)
    requires NoDuplicates(xs)
    requires 0 <= a < |xs| && 0 <= b < |xs| && xs[a] == xs[b]
    ensures a == b
  {
  }

  /** No two candidates of the enumeration share type, locations, gap, player, depth and formation. */
  lemma CandidateKeysDistinct(base: Features, i: int, j: int)
    requires 0 <= i < CandidateCount && 0 <= j < CandidateCount
    requires Key(CandidateAt(base, i)) == Key(CandidateAt(base, j))
    ensures i == j
  {
    ChoiceListsHaveNoDuplicates();
    var ci, cj := CandidateAt(base, i), CandidateAt(base, j);
    if i < 36 && j < 36 {
      SameChoiceSameIndex(Formations, i / 18, j / 18);
      SameChoiceSameIndex(RunLocations, i % 18 / 6, j % 18 / 6);
      SameChoiceSameIndex(RunGaps, i % 18 % 6 / 2, j % 18 % 6 / 2);
      SameChoiceSameIndex(RunPlayers, i % 18 % 6 % 2, j % 18 % 6 % 2);
    } else if 36 <= i && 36 <= j {
      SameChoiceSameIndex(Formations, (i - 36) / 9, (j - 36) / 9);
      SameChoiceSameIndex(PassLocations, (i - 36) % 9 / 3, (j - 36) % 9 / 3);
      SameChoiceSameIndex(PassDepths, (i - 36) % 9 % 3, (j - 36) % 9 % 3);
    }
  }
}
