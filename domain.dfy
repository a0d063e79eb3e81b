/**
 * The records the menu is built from (team, standings, matches as the
 * football-data service returns them, already parsed) and the menu tree
 * handed to the status-bar host.
 */
module Domain {
  import opened Wrappers

  /**
   * The `score.winner` tag. Any value other than the three the code tests
   * for (including a null winner while a match is undecided) is `Undetermined`.
   */
  datatype Winner = HomeTeam | AwayTeam | Draw | Undetermined

  /** Goal counts of one phase; the service sends null for a phase not played. */
  datatype GoalPair = GoalPair(home: Option<int>, away: Option<int>)

  datatype Score = Score(winner: Winner, fullTime: GoalPair, extraTime: GoalPair, penalties: GoalPair)

  /** `utcDate` is the ISO-8601 kickoff time, only ever passed to the date formatter. */
  datatype Match = Match(homeName: string, awayName: string, utcDate: string, score: Score)

  datatype Team = Team(name: string, website: string)

  datatype TableRow = TableRow(position: int, teamId: int, teamName: string, points: int)

  datatype Standing = Standing(stage: string, group: string, table: seq<TableRow>)

  /** One competition's standings response: its name and its standing groups. */
  datatype CompetitionStandings = CompetitionStandings(name: string, standings: seq<Standing>)

  /**
   * A menu entry. `bold` stands for the bold font, `dropdown == false` for an
   * entry shown in the status bar itself rather than in the dropdown.
   */
  datatype MenuNode =
    | Item(text: string, size: Option<int>, href: Option<string>, bold: bool, dropdown: bool, submenu: seq<MenuNode>)
    | Separator

  /** A dropdown entry with only a text and an optional size. */
  function Line(text: string, size: Option<int>): MenuNode {
    Item(text, size, None, false, true, [])
  }

  /** Size used for the section titles. */
  const TitleSize: int := 22

  predicate IsTitle(n: MenuNode) {
    n.Item? && n.size == Some(TitleSize)
  }

  predicate NoTitleNodes(nodes: seq<MenuNode>) {
    forall i :: 0 <= i < |nodes| ==> !IsTitle(nodes[i])
  }
}
