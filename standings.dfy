/**
 * The standings section: one node per active competition, one child per
 * standing group, one row per table entry (index.js, the competitions loop).
 */
module Standings {
  import opened Wrappers
  import opened Text
  import opened Domain

  const TableHeader: string := "Pos. Team - Points"

  /** A group-stage group is labelled by its group, any other stage by the stage. */
  function GroupLabel(s: Standing): string {
    if s.stage == "GROUP_STAGE" then s.group else s.stage
  }

  function RowText(r: TableRow): string {
    IntToString(r.position) + ". " + r.teamName + " - " + IntToString(r.points)
  }

  /** A table row, in bold when it is the tracked team's. */
  function RowNode(r: TableRow, trackedId: int): MenuNode {
    Item(RowText(r), None, None, r.teamId == trackedId, true, [])
  }

  function GroupNode(s: Standing, trackedId: int): MenuNode {
    Item(GroupLabel(s), Some(14), None, false, true,
      [Line(TableHeader, None), Separator]
      + seq(|s.table|, k requires 0 <= k < |s.table| => RowNode(s.table[k], trackedId)))
  }

  function CompetitionNode(c: CompetitionStandings, trackedId: int): MenuNode {
    Item(c.name, Some(14), Some(SearchLink(c.name)), false, true,
      seq(|c.standings|, g requires 0 <= g < |c.standings| => GroupNode(c.standings[g], trackedId)))
  }

  /** A group's submenu: header, separator, then one row per entry in table order. */
  lemma GroupSubmenu(s: Standing, trackedId: int)
    ensures var sub := GroupNode(s, trackedId).submenu;
      && |sub| == |s.table| + 2
      && sub[0] == Line(TableHeader, None) && sub[1] == Separator
      && forall k :: 0 <= k < |s.table| ==>
           && sub[k + 2].Item?
           && sub[k + 2].text == RowText(s.table[k])
           && (sub[k + 2].bold <==> s.table[k].teamId == trackedId)
  {
  }

  /** The row text starts with the rank, then ". ", and ends with " - " and the points. */
  lemma RowTextReadsBack(r: TableRow)
    ensures var t, p := RowText(r), IntToString(r.position);
      && |t| > |p| + 1 && t[..|p|] == p && t[|p|..|p| + 2] == ". "
      && IsIntText(p) && ParseInt(p) == r.position
  {
    IntToStringRoundTrip(r.position);
  }

  predicate UniqueTeamIds(table: seq<TableRow>) {
    forall i, j :: 0 <= i < j < |table| ==> table[i].teamId != table[j].teamId
  }

  /**
   * In a table whose team ids are unique, at most one row is bold, and one is
   * exactly when the tracked team is in the table.
   */
  lemma AtMostOneBoldRow(s: Standing, trackedId: int)
    requires UniqueTeamIds(s.table)
    ensures var sub := GroupNode(s, trackedId).submenu;
      && (forall i, j :: 2 <= i < |sub| && 2 <= j < |sub| && sub[i].bold && sub[j].bold ==> i == j)
      && ((exists i :: 2 <= i < |sub| && sub[i].Item? && sub[i].bold)
          <==> (exists k :: 0 <= k < |s.table| && s.table[k].teamId == trackedId))
  {
    var sub := GroupNode(s, trackedId).submenu;
    assert forall i :: 2 <= i < |sub| ==> sub[i] == RowNode(s.table[i - 2], trackedId);
    forall i, j | 2 <= i < |sub| && 2 <= j < |sub| && sub[i].bold && sub[j].bold
      ensures i == j
    {
    }
    if k :| 0 <= k < |s.table| && s.table[k].teamId == trackedId {
      assert sub[k + 2].Item? && sub[k + 2].bold;
    }
  }

  /** A competition node has one child per standing group, in order, labelled by the group or stage. */
  lemma CompetitionChildren(c: CompetitionStandings, trackedId: int)
    ensures var node := CompetitionNode(c, trackedId);
      && |node.submenu| == |c.standings|
      && node.href == Some(SearchLink(c.name))
      && forall g :: 0 <= g < |c.standings| ==>
           && node.submenu[g].Item?
           && node.submenu[g].text == GroupLabel(c.standings[g])
           && |node.submenu[g].submenu| == |c.standings[g].table| + 2
  {
  }

  /** The standings render list: one competition node per response, in order. */
  method RenderStandings(competitions: seq<CompetitionStandings>, trackedId: int)
    returns (render: seq<MenuNode>)
    ensures |render| == |competitions|
    ensures forall i :: 0 <= i < |competitions| ==> render[i] == CompetitionNode(competitions[i], trackedId)
    ensures NoTitleNodes(render)
  {
    render := [];
    var i := 0;
    while i < |competitions|
      invariant 0 <= i <= |competitions|
      invariant |render| == i
      invariant forall k :: 0 <= k < i ==> render[k] == CompetitionNode(competitions[k], trackedId)
      invariant NoTitleNodes(render)
    {
      render := render + [CompetitionNode(competitions[i], trackedId)];
      i := i + 1;
    }
  }
}
