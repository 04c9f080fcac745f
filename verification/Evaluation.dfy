/**
 * How a leg of a bet comes out of a final score: by its market, its selection code and, for goals over or
 * under, its line.
 */
module Evaluation {
  import opened Decimal
  import opened Wrappers

  datatype Outcome = WON | LOST | VOID

  datatype FinalScore = FinalScore(home: int, away: int)

  /** What is stored with a leg: the line is a text of one decimal, or null. */
  datatype LegTerms = LegTerms(market: string, selection: string, line: Option<string>)

  /** An unknown market or selection is void and not recognised. */
  datatype LegEvaluation = LegEvaluation(outcome: Outcome, recognised: bool)

  datatype Fault = InvalidScore | BadLine

  const CORRECT_SCORE_MAX_GOALS := 3

  const UNRECOGNISED := LegEvaluation(VOID, false)

  function Decided(won: bool): LegEvaluation {
    LegEvaluation(if won then WON else LOST, true)
  }

  function EvaluateMatchResult(code: string, s: FinalScore): LegEvaluation {
    match code
    case "HOME" => Decided(s.home > s.away)
    case "DRAW" => Decided(s.home == s.away)
    case "AWAY" => Decided(s.home < s.away)
    case _ => UNRECOGNISED
  }

  function EvaluateDoubleChance(code: string, s: FinalScore): LegEvaluation {
    match code
    case "HOME_DRAW" => Decided(s.home >= s.away)
    case "HOME_AWAY" => Decided(s.home != s.away)
    case "DRAW_AWAY" => Decided(s.home <= s.away)
    case _ => UNRECOGNISED
  }

  /** One to three digits, a point and one more. */
  function LineTenths(line: string): Option<nat> {
    var n := |line|;
    if 3 <= n <= 5 && line[n - 2] == '.' && IsDigit(line[n - 1]) && AllDigits(line[..n - 2])
    then Some(Read(line[..n - 2]) * 10 + DigitValue(line[n - 1]))
    else None
  }

  /** The one or two digits of `word`, the digits and `_5`. */
  function WholeGoals(code: string, word: string): Option<nat> {
    if !(word <= code) then None else
    var rest := code[|word|..];
    var n := |rest|;
    if 3 <= n <= 4 && rest[n - 2] == '_' && rest[n - 1] == '5' && AllDigits(rest[..n - 2])
    then Some(Read(rest[..n - 2]))
    else None
  }

  /** A line that can be read and disagrees with the code leaves the leg void; one that cannot is a fault. */
  function EvaluateOverUnder(code: string, line: Option<string>, s: FinalScore): Result<LegEvaluation, Fault> {
    var over, under := WholeGoals(code, "OVER_"), WholeGoals(code, "UNDER_");
    if over.None? && under.None? then Ok(UNRECOGNISED) else
    var whole := if over.Some? then over.value else under.value;
    if line.Some? && LineTenths(line.value).None? then Err(BadLine)
    else if line.Some? && LineTenths(line.value).value != whole * 10 + 5 then Ok(UNRECOGNISED)
    else
      var above := s.home + s.away > whole;
      Ok(Decided(if over.Some? then above else !above))
  }

  function EvaluateBothTeamsToScore(code: string, s: FinalScore): LegEvaluation {
    var both := s.home > 0 && s.away > 0;
    match code
    case "YES" => Decided(both)
    case "NO" => Decided(!both)
    case _ => UNRECOGNISED
  }

  function EvaluateGoalSpread(code: string, s: FinalScore): LegEvaluation {
    var covers := s.home - s.away >= 2;
    match code
    case "HOME_MINUS_1_5" => Decided(covers)
    case "AWAY_PLUS_1_5" => Decided(!covers)
    case _ => UNRECOGNISED
  }

  /** `CS_` and a digit for each side, of at most three goals. */
  function EvaluateCorrectScore(code: string, s: FinalScore): LegEvaluation {
    if code == "CS_OTHER" then Decided(s.home > CORRECT_SCORE_MAX_GOALS || s.away > CORRECT_SCORE_MAX_GOALS)
    else if |code| == 6 && code[..3] == "CS_" && IsDigit(code[3]) && code[4] == '_' && IsDigit(code[5]) then
      var home, away := DigitValue(code[3]), DigitValue(code[5]);
      if home > CORRECT_SCORE_MAX_GOALS || away > CORRECT_SCORE_MAX_GOALS then UNRECOGNISED
      else Decided(s.home == home && s.away == away)
    else UNRECOGNISED
  }

  function EvaluateLeg(t: LegTerms, s: FinalScore): Result<LegEvaluation, Fault> {
    if s.home < 0 || s.away < 0 then Err(InvalidScore)
    else
      match t.market
      case "MATCH_RESULT" => Ok(EvaluateMatchResult(t.selection, s))
      case "DOUBLE_CHANCE" => Ok(EvaluateDoubleChance(t.selection, s))
      case "OVER_UNDER" => EvaluateOverUnder(t.selection, t.line, s)
      case "BOTH_TEAMS_TO_SCORE" => Ok(EvaluateBothTeamsToScore(t.selection, s))
      case "GOAL_SPREAD" => Ok(EvaluateGoalSpread(t.selection, s))
      case "CORRECT_SCORE" => Ok(EvaluateCorrectScore(t.selection, s))
      case _ => Ok(UNRECOGNISED)
  }

  predicate Wins(t: LegTerms, s: FinalScore) {
    EvaluateLeg(t, s) == Ok(LegEvaluation(WON, true))
  }

  predicate Loses(t: LegTerms, s: FinalScore) {
    EvaluateLeg(t, s) == Ok(LegEvaluation(LOST, true))
  }

  predicate Valid(s: FinalScore) { s.home >= 0 && s.away >= 0 }

  // ---- The selections of a market ----

  function Plain(market: string, selection: string): LegTerms { LegTerms(market, selection, None) }

  /** Void is exactly what is not recognised. */
  lemma VoidIsUnrecognised(t: LegTerms, s: FinalScore)
    requires EvaluateLeg(t, s).Ok?
    ensures EvaluateLeg(t, s).value.outcome == VOID <==> !EvaluateLeg(t, s).value.recognised
  {
  }

  /** One of the selections wins and all the others lose. */
  ghost predicate OneWins(market: string, selections: set<string>, s: FinalScore) {
    exists w :: w in selections && Wins(Plain(market, w), s)
                && forall c | c in selections && c != w :: Loses(Plain(market, c), s)
  }

  lemma Winner(market: string, selections: set<string>, s: FinalScore, w: string)
    requires w in selections && Wins(Plain(market, w), s)
    requires forall c | c in selections && c != w :: Loses(Plain(market, c), s)
    ensures OneWins(market, selections, s)
  {
  }

  /** Whatever the score, one selection of a two-way or three-way market wins. */
  lemma OneResultWins(s: FinalScore)
    requires Valid(s)
    ensures OneWins("MATCH_RESULT", {"HOME", "DRAW", "AWAY"}, s)
    ensures OneWins("BOTH_TEAMS_TO_SCORE", {"YES", "NO"}, s)
    ensures OneWins("GOAL_SPREAD", {"HOME_MINUS_1_5", "AWAY_PLUS_1_5"}, s)
  {
    Winner("MATCH_RESULT", {"HOME", "DRAW", "AWAY"}, s,
           if s.home > s.away then "HOME" else if s.home == s.away then "DRAW" else "AWAY");
    Winner("BOTH_TEAMS_TO_SCORE", {"YES", "NO"}, s, if s.home > 0 && s.away > 0 then "YES" else "NO");
    Winner("GOAL_SPREAD", {"HOME_MINUS_1_5", "AWAY_PLUS_1_5"}, s,
           if s.home - s.away >= 2 then "HOME_MINUS_1_5" else "AWAY_PLUS_1_5");
  }

  /** A double chance wins exactly if one of its two results does, and the spread is a goal and a half. */
  lemma SelectionsMean(s: FinalScore)
    requires Valid(s)
    ensures Wins(Plain("DOUBLE_CHANCE", "HOME_DRAW"), s)
            <==> Wins(Plain("MATCH_RESULT", "HOME"), s) || Wins(Plain("MATCH_RESULT", "DRAW"), s)
    ensures Wins(Plain("DOUBLE_CHANCE", "HOME_AWAY"), s)
            <==> Wins(Plain("MATCH_RESULT", "HOME"), s) || Wins(Plain("MATCH_RESULT", "AWAY"), s)
    ensures Wins(Plain("DOUBLE_CHANCE", "DRAW_AWAY"), s)
            <==> Wins(Plain("MATCH_RESULT", "DRAW"), s) || Wins(Plain("MATCH_RESULT", "AWAY"), s)
    ensures Wins(Plain("GOAL_SPREAD", "HOME_MINUS_1_5"), s) <==> 2 * s.home - 3 > 2 * s.away
    ensures Wins(Plain("GOAL_SPREAD", "AWAY_PLUS_1_5"), s) <==> 2 * s.away + 3 > 2 * s.home
  {
  }

  // ---- Correct scores ----

  function ScoreCode(home: nat, away: nat): string
    requires home < 10 && away < 10
  {
    "CS_" + [DigitChar(home), '_', DigitChar(away)]
  }

  const OTHER := "CS_OTHER"

  ghost function ScoreCodes(): set<string> {
    (set home: nat, away: nat | home <= CORRECT_SCORE_MAX_GOALS && away <= CORRECT_SCORE_MAX_GOALS ::
       ScoreCode(home, away)) + {OTHER}
  }

  lemma ScoreCodeMeans(home: nat, away: nat, s: FinalScore)
    requires home <= CORRECT_SCORE_MAX_GOALS && away <= CORRECT_SCORE_MAX_GOALS
    ensures EvaluateCorrectScore(ScoreCode(home, away), s) == Decided(s.home == home && s.away == away)
  {
    var code := ScoreCode(home, away);
    assert |code| == 6 && |OTHER| == 8;
    assert code[..3] == "CS_" && code[3] == DigitChar(home) && code[4] == '_' && code[5] == DigitChar(away);
  }

  /** Whatever the score, exactly one of the seventeen correct scores wins. */
  lemma OneCorrectScoreWins(s: FinalScore)
    requires Valid(s)
    ensures OneWins("CORRECT_SCORE", ScoreCodes(), s)
  {
    var listed := s.home <= CORRECT_SCORE_MAX_GOALS && s.away <= CORRECT_SCORE_MAX_GOALS;
    var w := if listed then ScoreCode(s.home, s.away) else OTHER;
    if listed {
      ScoreCodeMeans(s.home, s.away, s);
    }
    forall c | c in ScoreCodes() && c != w
      ensures Loses(Plain("CORRECT_SCORE", c), s)
    {
      if c != OTHER {
        var home: nat, away: nat :| home <= CORRECT_SCORE_MAX_GOALS && away <= CORRECT_SCORE_MAX_GOALS
                                    && c == ScoreCode(home, away);
        ScoreCodeMeans(home, away, s);
      }
    }
    Winner("CORRECT_SCORE", ScoreCodes(), s, w);
  }

  // ---- Over and under ----

  function TotalCode(over: bool, whole: nat): string {
    (if over then "OVER_" else "UNDER_") + (Print(whole) + "_5")
  }

  /** A line in tenths, as it is stored. */
  function FormatTenths(tenths: nat): string {
    Print(tenths / 10) + "." + Print(tenths % 10)
  }

  /** A stored line is read back exactly if it is below a thousand. */
  lemma TenthsReadBack(tenths: nat)
    ensures LineTenths(FormatTenths(tenths)) == if tenths < 10_000 then Some(tenths) else None
  {
    var whole, line := Print(tenths / 10), FormatTenths(tenths);
    assert Pow10(3) == 1000;
    PrintLength(tenths / 10, 3);
    ReadPrint(tenths / 10);
    assert line[..|line| - 2] == whole;
    assert line[|line| - 2] == '.' && line[|line| - 1] == DigitChar(tenths % 10);
  }

  lemma WholeGoalsRead(over: bool, whole: nat)
    ensures WholeGoals(TotalCode(over, whole), if over then "OVER_" else "UNDER_")
            == if whole < 100 then Some(whole) else None
    ensures WholeGoals(TotalCode(over, whole), if over then "UNDER_" else "OVER_") == None
  {
    var word, digits, code := if over then "OVER_" else "UNDER_", Print(whole), TotalCode(over, whole);
    var rest := code[|word|..];
    assert Pow10(2) == 100;
    PrintLength(whole, 2);
    ReadPrint(whole);
    assert word <= code && rest == digits + "_5";
    assert rest[..|rest| - 2] == digits && rest[|rest| - 2] == '_' && rest[|rest| - 1] == '5';
    assert code[0] == if over then 'O' else 'U';
  }

  lemma OverUnderMarket(t: LegTerms, s: FinalScore)
    requires Valid(s) && t.market == "OVER_UNDER"
    ensures EvaluateLeg(t, s) == EvaluateOverUnder(t.selection, t.line, s)
  {
  }

  lemma TotalsDecide(over: bool, whole: nat, code: string, line: Option<string>, s: FinalScore)
    requires WholeGoals(code, "OVER_") == if over && whole < 100 then Some(whole) else None
    requires WholeGoals(code, "UNDER_") == if over || whole >= 100 then None else Some(whole)
    ensures EvaluateOverUnder(code, line, s)
            == if whole >= 100 then Ok(UNRECOGNISED)
               else if line.Some? && LineTenths(line.value).None? then Err(BadLine)
               else Ok(if line.Some? && LineTenths(line.value).value != 10 * whole + 5 then UNRECOGNISED
                       else Decided(over <==> 10 * (s.home + s.away) > 10 * whole + 5))
  {
  }

  /**
   * Over wins exactly if the goals exceed the line, and under otherwise, whether the line is stored or not; with
   * another line the leg is void, as it is for a code of three digits, and a line of four cannot be read.
   */
  lemma TotalsMean(over: bool, whole: nat, line: Option<nat>, s: FinalScore)
    requires Valid(s)
    ensures var stored := if line.Some? then Some(FormatTenths(line.value)) else None;
            EvaluateLeg(LegTerms("OVER_UNDER", TotalCode(over, whole), stored), s)
            == if whole >= 100 then Ok(UNRECOGNISED)
               else if line.Some? && line.value >= 10_000 then Err(BadLine)
               else Ok(if line.Some? && line.value != 10 * whole + 5 then UNRECOGNISED
                       else Decided(over <==> 10 * (s.home + s.away) > 10 * whole + 5))
  {
    var stored := if line.Some? then Some(FormatTenths(line.value)) else None;
    var code := TotalCode(over, whole);
    WholeGoalsRead(over, whole);
    if line.Some? {
      TenthsReadBack(line.value);
    }
    TotalsDecide(over, whole, code, stored, s);
    OverUnderMarket(LegTerms("OVER_UNDER", code, stored), s);
  }
}
