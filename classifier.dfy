/**
 * Match outcome classification and the score lines of finished and live
 * matches (index.js, the bodies of the finished and live `forEach` loops).
 */
module Classifier {
  import opened Wrappers
  import opened Text
  import opened Domain

  const Green: string := "\U{1F7E2}"
  const White: string := "\U{26AA}\U{FE0F}"
  const Red: string := "\U{1F534}"

  /** What the loops derive from one match before rendering it. */
  datatype Outcome = Outcome(
    winnerName: string,
    isDraw: bool,
    trackedTeamWon: bool,
    showExtraTime: bool,
    showPenalties: bool)

  /** JavaScript truthiness of a nullable goal count. */
  predicate Truthy(g: Option<int>) {
    g.Some? && g.value != 0
  }

  /** `home || away` on one phase's counts, read as a boolean. */
  predicate AnyTruthy(p: GoalPair) {
    Truthy(p.home) || Truthy(p.away)
  }

  function WinnerName(m: Match): string {
    match m.score.winner
    case HomeTeam => m.homeName
    case AwayTeam => m.awayName
    case _ => "Draw"
  }

  /** The tracked team won by the tag: it is the side the tag names. */
  predicate WonByTag(m: Match, trackedName: string) {
    || (m.score.winner == HomeTeam && m.homeName == trackedName)
    || (m.score.winner == AwayTeam && m.awayName == trackedName)
  }

  function Classify(m: Match, trackedName: string): (o: Outcome)
    ensures o.winnerName == m.homeName || o.winnerName == m.awayName || o.winnerName == "Draw"
    ensures o.isDraw ==> o.winnerName == "Draw"
    ensures o.trackedTeamWon <==> o.winnerName == trackedName
  {
    var name := WinnerName(m);
    Outcome(
      name,
      m.score.winner == Draw,
      name == trackedName,
      AnyTruthy(m.score.extraTime),
      AnyTruthy(m.score.penalties))
  }

  /**
   * Winning is decided by comparing names: the tracked team wins exactly when
   * the tag names its side, or when it is called "Draw" and no side won.
   */
  lemma TrackedTeamWonIff(m: Match, trackedName: string)
    ensures Classify(m, trackedName).trackedTeamWon
      <==> WonByTag(m, trackedName)
           || (trackedName == "Draw" && (m.score.winner == Draw || m.score.winner == Undetermined))
  {
  }

  /** With a DRAW tag the tracked team "wins" only if its name is literally "Draw". */
  lemma DrawIsNoWinUnlessNamedDraw(m: Match, trackedName: string)
    requires m.score.winner == Draw
    ensures Classify(m, trackedName).trackedTeamWon <==> trackedName == "Draw"
  {
  }

  /** A suffix is shown iff some count of that phase is present and non-zero. */
  lemma ShowFlagsIff(m: Match, trackedName: string)
    ensures Classify(m, trackedName).showExtraTime
      <==> exists v :: v != 0 && (m.score.extraTime.home == Some(v) || m.score.extraTime.away == Some(v))
    ensures Classify(m, trackedName).showPenalties
      <==> exists v :: v != 0 && (m.score.penalties.home == Some(v) || m.score.penalties.away == Some(v))
  {
    var et, pen := m.score.extraTime, m.score.penalties;
    if Truthy(et.home) { assert et.home == Some(et.home.value); }
    else if Truthy(et.away) { assert et.away == Some(et.away.value); }
    if Truthy(pen.home) { assert pen.home == Some(pen.home.value); }
    else if Truthy(pen.away) { assert pen.away == Some(pen.away.value); }
  }

  /** Extra-time and penalty counts never change who is named the winner. */
  lemma FlagsDoNotAffectWinner(m: Match, et: GoalPair, pen: GoalPair, trackedName: string)
    ensures var m' := m.(score := m.score.(extraTime := et, penalties := pen));
      && Classify(m', trackedName).winnerName == Classify(m, trackedName).winnerName
      && Classify(m', trackedName).isDraw == Classify(m, trackedName).isDraw
      && Classify(m', trackedName).trackedTeamWon == Classify(m, trackedName).trackedTeamWon
  {
  }

  /** `${count}` in a template literal: the number, or "null" when absent. */
  function ShowGoals(g: Option<int>): (s: string)
    ensures g.None? ==> s == "null"
    ensures g.Some? ==> IsIntText(s) && ParseInt(s) == g.value
  {
    match g
    case None => "null"
    case Some(v) => IntToStringRoundTrip(v); IntToString(v)
  }

  function ScoreText(p: GoalPair): string {
    ShowGoals(p.home) + " - " + ShowGoals(p.away)
  }

  function Emoji(o: Outcome): string {
    if o.trackedTeamWon then Green else if o.isDraw then White else Red
  }

  /** An extra-time or penalty group, present only when its flag is set. */
  function Suffix(show: bool, opening: string, p: GoalPair): string {
    if show then opening + ScoreText(p) + ")" else ""
  }

  /** `!isDraw ? winningTeamName : 'Draw'` */
  function Label(o: Outcome): string {
    if !o.isDraw then o.winnerName else "Draw"
  }

  /** Text of the second node of a finished match. */
  function FinishedLine(m: Match, trackedName: string): string {
    var o := Classify(m, trackedName);
    Emoji(o) + " " + ScoreText(m.score.fullTime)
    + Suffix(o.showExtraTime, " (ET: ", m.score.extraTime)
    + Suffix(o.showPenalties, " (Pen: ", m.score.penalties)
    + " " + Label(o)
  }

  /** The trailing label of a finished line is always the winner name. */
  lemma FinishedLineEndsWithWinner(m: Match, trackedName: string)
    ensures var line, name := FinishedLine(m, trackedName), Classify(m, trackedName).winnerName;
      |line| > |name| && line[|line| - |name| - 1..] == " " + name
  {
  }

  /** The first character of a finished line tells which of the three outcomes it shows. */
  lemma FinishedLineEmoji(m: Match, trackedName: string)
    ensures var line, o := FinishedLine(m, trackedName), Classify(m, trackedName);
      && |line| > 0
      && (line[0] == '\U{1F7E2}' <==> o.trackedTeamWon)
      && (line[0] == '\U{26AA}' <==> !o.trackedTeamWon && m.score.winner == Draw)
      && (line[0] == '\U{1F534}' <==> !o.trackedTeamWon && m.score.winner != Draw)
  {
  }

  /** An undecided match the tracked team is not named after shows red with the label "Draw". */
  lemma UndeterminedShowsRedDraw(m: Match, trackedName: string)
    requires m.score.winner == Undetermined && trackedName != "Draw"
    ensures var line := FinishedLine(m, trackedName);
      line[..|Red|] == Red && |line| >= 5 && line[|line| - 5..] == " Draw"
  {
  }

  /** Fulham 0 - 2 Chelsea, won by the away side, followed by Chelsea. */
  lemma FinishedLineExample()
    ensures FinishedLine(
      Match("Fulham", "Chelsea", "2021-05-01T19:15:00Z",
        Score(AwayTeam, GoalPair(Some(0), Some(2)), GoalPair(None, None), GoalPair(None, None))),
      "Chelsea") == "\U{1F7E2} 0 - 2 Chelsea"
  {
    assert IntToString(0) == "0" && IntToString(2) == "2";
  }

  /**
   * Text of the second node of a live match: the suffixes follow with no
   * space. The loop also compares the winner with the tracked team, but the
   * result is never shown.
   */
  function LiveLine(m: Match, trackedName: string): string {
    var o := Classify(m, trackedName);
    "(" + ScoreText(m.score.fullTime) + ")"
    + Suffix(o.showExtraTime, "(ET: ", m.score.extraTime)
    + Suffix(o.showPenalties, "(Pen: ", m.score.penalties)
  }

  lemma LiveLineIgnoresTrackedTeam(m: Match, a: string, b: string)
    ensures LiveLine(m, a) == LiveLine(m, b)
  {
  }

  /** Every '(' of `s` opens it or directly follows a ')'. */
  predicate GluedParens(s: string) {
    && (|s| > 0 ==> s[0] == '(')
    && forall i :: 0 < i < |s| && s[i] == '(' ==> s[i - 1] == ')'
  }

  lemma ScoreTextHasNoParens(p: GoalPair)
    ensures '(' !in ScoreText(p) && ')' !in ScoreText(p)
  {
    var h, a := ShowGoals(p.home), ShowGoals(p.away);
    assert forall k :: 0 <= k < |h| ==> IsDigit(h[k]) || h[k] == '-' || h[k] in "nul";
    assert forall k :: 0 <= k < |a| ==> IsDigit(a[k]) || a[k] == '-' || a[k] in "nul";
    assert ScoreText(p) == h + " - " + a;
  }

  /** `tag + body + ")"` with a parenthesis-free body is one glued group. */
  lemma GroupIsGlued(tag: string, body: string)
    requires |tag| > 0 && tag[0] == '(' && forall k :: 0 < k < |tag| ==> tag[k] != '('
    requires '(' !in body
    ensures GluedParens(tag + body + ")")
  {
    var s := tag + body + ")";
    forall i | 0 < i < |s|
      ensures s[i] != '('
    {
      if i < |tag| {
        assert s[i] == tag[i];
      } else if i < |tag| + |body| {
        assert s[i] == body[i - |tag|];
      }
    }
  }

  lemma GluedConcat(a: string, b: string)
    requires GluedParens(a) && GluedParens(b)
    requires |a| > 0 && a[|a| - 1] == ')'
    ensures GluedParens(a + b)
  {
    var s := a + b;
    forall i | 0 < i < |s| && s[i] == '('
      ensures s[i - 1] == ')'
    {
      if i > |a| {
        assert s[i] == b[i - |a|] && s[i - 1] == b[i - 1 - |a|];
      }
    }
  }

  /** Nothing separates the live score from its extra-time and penalty groups. */
  lemma {:induction false} LiveLineGroupsAreGlued(m: Match, trackedName: string)
    ensures GluedParens(LiveLine(m, trackedName))
  {
    var o := Classify(m, trackedName);
    ScoreTextHasNoParens(m.score.fullTime);
    ScoreTextHasNoParens(m.score.extraTime);
    ScoreTextHasNoParens(m.score.penalties);
    var full := "(" + ScoreText(m.score.fullTime) + ")";
    var et := Suffix(o.showExtraTime, "(ET: ", m.score.extraTime);
    var pen := Suffix(o.showPenalties, "(Pen: ", m.score.penalties);
    GroupIsGlued("(", ScoreText(m.score.fullTime));
    GroupIsGlued("(ET: ", ScoreText(m.score.extraTime));
    GroupIsGlued("(Pen: ", ScoreText(m.score.penalties));
    assert GluedParens(et) && GluedParens(pen);
    GluedConcat(full, et);
    assert (full + et)[|full + et| - 1] == ')';
    GluedConcat(full + et, pen);
    assert LiveLine(m, trackedName) == full + et + pen;
  }
}
