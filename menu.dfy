/**
 * Section assembly and the final menu handed to the status-bar host
 * (index.js, the four section ternaries and the `bitbar` call).
 */
module MenuTree {
  import opened Wrappers
  import opened Domain
  import opened Standings
  import opened Matches
  import opened Classifier

  /** The logo shown in the status bar itself. */
  const Logo: MenuNode := Item("\U{26BD}\U{FE0E}", None, None, false, false, [])

  function TeamHeader(team: Team): MenuNode {
    Item(team.name, Some(30), Some(team.website), false, true, [])
  }

  /** A render list becomes a section only when it is non-empty. */
  function Section(title: string, items: seq<MenuNode>): seq<MenuNode> {
    if |items| > 0 then [Separator, Line(title, Some(TitleSize))] + items else []
  }

  function Menu(team: Team, standings: seq<MenuNode>, finished: seq<MenuNode>,
                scheduled: seq<MenuNode>, live: seq<MenuNode>): seq<MenuNode>
  {
    Head(team)
    + Section("Standings", standings)
    + Section("Completed Matches", finished)
    + Section("Upcoming Matches", scheduled)
    + Section("Live Matches", live)
  }

  /** The section titles of a node list, in order. */
  function Titles(nodes: seq<MenuNode>): seq<string> {
    if nodes == [] then []
    else (if IsTitle(nodes[0]) then [nodes[0].text] else []) + Titles(nodes[1..])
  }

  lemma {:induction false} TitlesConcat(a: seq<MenuNode>, b: seq<MenuNode>)
    ensures Titles(a + b) == Titles(a) + Titles(b)
    decreases |a|
  {
    if a == [] {
      assert a + b == b;
    } else {
      assert (a + b)[0] == a[0] && (a + b)[1..] == a[1..] + b;
      TitlesConcat(a[1..], b);
    }
  }

  lemma {:induction false} NoTitlesHaveNoTitles(a: seq<MenuNode>)
    requires NoTitleNodes(a)
    ensures Titles(a) == []
    decreases |a|
  {
    if a != [] {
      NoTitlesHaveNoTitles(a[1..]);
    }
  }

  function TitleIf(title: string, present: bool): seq<string> {
    if present then [title] else []
  }

  function SectionLength(items: nat): nat {
    if items > 0 then items + 2 else 0
  }

  /** A section contributes its title exactly when it has items, and its length is items + 2. */
  lemma SectionShape(title: string, items: seq<MenuNode>)
    requires NoTitleNodes(items)
    ensures Titles(Section(title, items)) == TitleIf(title, |items| > 0)
    ensures |Section(title, items)| == SectionLength(|items|)
  {
    NoTitlesHaveNoTitles(items);
    if |items| > 0 {
      TitlesConcat([Separator, Line(title, Some(TitleSize))], items);
      assert Titles([Separator, Line(title, Some(TitleSize))]) == [title] by {
        assert [Separator, Line(title, Some(TitleSize))][1..] == [Line(title, Some(TitleSize))];
      }
    }
  }

  /** The header part every menu starts with. */
  function Head(team: Team): seq<MenuNode> {
    [Logo, Separator, TeamHeader(team)]
  }

  lemma HeadHasNoTitles(team: Team)
    ensures Titles(Head(team)) == []
  {
    var head := Head(team);
    assert Titles(head[2..]) == [] by {
      assert head[2..][1..] == [];
    }
    assert head[1..][1..] == head[2..];
  }

  /**
   * The menu opens with logo, separator and team header; the sections follow
   * in the fixed order Standings, Completed, Upcoming, Live, each present only
   * when its render list is non-empty.
   */
  lemma MenuLayout(team: Team, standings: seq<MenuNode>, finished: seq<MenuNode>,
                   scheduled: seq<MenuNode>, live: seq<MenuNode>)
    requires NoTitleNodes(standings) && NoTitleNodes(finished)
    requires NoTitleNodes(scheduled) && NoTitleNodes(live)
    ensures var menu := Menu(team, standings, finished, scheduled, live);
      && |menu| == 3 + SectionLength(|standings|) + SectionLength(|finished|)
                     + SectionLength(|scheduled|) + SectionLength(|live|)
      && menu[..3] == Head(team)
      && Titles(menu) == TitleIf("Standings", |standings| > 0)
                        + TitleIf("Completed Matches", |finished| > 0)
                        + TitleIf("Upcoming Matches", |scheduled| > 0)
                        + TitleIf("Live Matches", |live| > 0)
  {
    var head := Head(team);
    var s1 := Section("Standings", standings);
    var s2 := Section("Completed Matches", finished);
    var s3 := Section("Upcoming Matches", scheduled);
    var s4 := Section("Live Matches", live);
    var menu := Menu(team, standings, finished, scheduled, live);
    assert menu == head + s1 + s2 + s3 + s4;
    SectionShape("Standings", standings);
    SectionShape("Completed Matches", finished);
    SectionShape("Upcoming Matches", scheduled);
    SectionShape("Live Matches", live);
    HeadHasNoTitles(team);
    TitlesConcat(head, s1);
    TitlesConcat(head + s1, s2);
    TitlesConcat(head + s1 + s2, s3);
    TitlesConcat(head + s1 + s2 + s3, s4);
    assert menu[..3] == head;
  }

  /** When every render list is empty, only the header part remains. */
  lemma EmptySectionsLeaveHeaderOnly(team: Team)
    ensures Menu(team, [], [], [], []) == Head(team)
  {
  }

  /** Where a section placed between `before` and `after` puts its separator, title and items. */
  lemma SectionInside(before: seq<MenuNode>, title: string, items: seq<MenuNode>, after: seq<MenuNode>)
    requires |items| > 0
    ensures var menu, o := before + Section(title, items) + after, |before|;
      && |menu| == |before| + |items| + 2 + |after|
      && menu[o] == Separator && menu[o + 1] == Line(title, Some(TitleSize))
      && forall i :: 0 <= i < |items| ==> menu[o + 2 + i] == items[i]
  {
    var menu := before + Section(title, items) + after;
    assert menu == before + [Separator, Line(title, Some(TitleSize))] + items + after;
  }

  /**
   * Each non-empty section sits after the header and the sections before it:
   * a separator, its title, then its render list unchanged and in order.
   */
  lemma StandingsSectionAt(team: Team, standings: seq<MenuNode>, finished: seq<MenuNode>,
                           scheduled: seq<MenuNode>, live: seq<MenuNode>)
    requires |standings| > 0
    ensures var menu := Menu(team, standings, finished, scheduled, live);
      var o := 3;
      && |menu| >= o + 2 + |standings|
      && menu[o] == Separator
      && menu[o + 1] == Line("Standings", Some(TitleSize))
      && forall i :: 0 <= i < |standings| ==> menu[o + 2 + i] == standings[i]
  {
    var before := Head(team);
    var after := Section("Completed Matches", finished)
                + Section("Upcoming Matches", scheduled)
                + Section("Live Matches", live);
    assert |before| == 3;
    assert Menu(team, standings, finished, scheduled, live)
      == before + Section("Standings", standings) + after;
    SectionInside(before, "Standings", standings, after);
  }

  lemma CompletedSectionAt(team: Team, standings: seq<MenuNode>, finished: seq<MenuNode>,
                           scheduled: seq<MenuNode>, live: seq<MenuNode>)
    requires |finished| > 0
    ensures var menu := Menu(team, standings, finished, scheduled, live);
      var o := 3 + SectionLength(|standings|);
      && |menu| >= o + 2 + |finished|
      && menu[o] == Separator
      && menu[o + 1] == Line("Completed Matches", Some(TitleSize))
      && forall i :: 0 <= i < |finished| ==> menu[o + 2 + i] == finished[i]
  {
    var before := Head(team)
                 + Section("Standings", standings);
    var after := Section("Upcoming Matches", scheduled)
                + Section("Live Matches", live);
    assert |before| == 3 + SectionLength(|standings|);
    assert Menu(team, standings, finished, scheduled, live)
      == before + Section("Completed Matches", finished) + after;
    SectionInside(before, "Completed Matches", finished, after);
  }

  lemma UpcomingSectionAt(team: Team, standings: seq<MenuNode>, finished: seq<MenuNode>,
                          scheduled: seq<MenuNode>, live: seq<MenuNode>)
    requires |scheduled| > 0
    ensures var menu := Menu(team, standings, finished, scheduled, live);
      var o := 3 + SectionLength(|standings|) + SectionLength(|finished|);
      && |menu| >= o + 2 + |scheduled|
      && menu[o] == Separator
      && menu[o + 1] == Line("Upcoming Matches", Some(TitleSize))
      && forall i :: 0 <= i < |scheduled| ==> menu[o + 2 + i] == scheduled[i]
  {
    var before := Head(team)
                 + Section("Standings", standings)
                 + Section("Completed Matches", finished);
    var after := Section("Live Matches", live);
    assert |before| == 3 + SectionLength(|standings|) + SectionLength(|finished|);
    assert Menu(team, standings, finished, scheduled, live)
      == before + Section("Upcoming Matches", scheduled) + after;
    SectionInside(before, "Upcoming Matches", scheduled, after);
  }

  lemma LiveSectionAt(team: Team, standings: seq<MenuNode>, finished: seq<MenuNode>,
                      scheduled: seq<MenuNode>, live: seq<MenuNode>)
    requires |live| > 0
    ensures var menu := Menu(team, standings, finished, scheduled, live);
      var o := 3 + SectionLength(|standings|) + SectionLength(|finished|) + SectionLength(|scheduled|);
      && |menu| >= o + 2 + |live|
      && menu[o] == Separator
      && menu[o + 1] == Line("Live Matches", Some(TitleSize))
      && forall i :: 0 <= i < |live| ==> menu[o + 2 + i] == live[i]
  {
    var before := Head(team)
                 + Section("Standings", standings)
                 + Section("Completed Matches", finished)
                 + Section("Upcoming Matches", scheduled);
    var after := [];
    assert |before| == 3 + SectionLength(|standings|) + SectionLength(|finished|) + SectionLength(|scheduled|);
    assert Menu(team, standings, finished, scheduled, live)
      == before + Section("Live Matches", live) + after;
    SectionInside(before, "Live Matches", live, after);
  }

  /**
   * The whole presentation pipeline: render the four lists from the parsed
   * responses, then assemble the menu from them. The render lists are
   * returned beside the menu so that the contract can say what each holds.
   */
  method BuildMenu(team: Team, trackedId: int, competitions: seq<CompetitionStandings>,
                   finished: Option<seq<Match>>, scheduled: Option<seq<Match>>,
                   live: Option<seq<Match>>, finishedCount: int,
                   formatKickoff: string -> string)
    returns (menu: seq<MenuNode>, standingsRender: seq<MenuNode>, finishedRender: seq<MenuNode>,
             scheduledRender: seq<MenuNode>, liveRender: seq<MenuNode>)
    ensures menu == Menu(team, standingsRender, finishedRender, scheduledRender, liveRender)
    ensures |standingsRender| == |competitions|
    ensures forall i :: 0 <= i < |competitions| ==> standingsRender[i] == CompetitionNode(competitions[i], trackedId)
    ensures var kept := LastN(MatchesOf(finished), finishedCount);
      && |finishedRender| == 2 * |kept|
      && forall k :: 0 <= k < |kept| ==>
           && finishedRender[2 * k] == LinkedHeader(kept[k])
           && finishedRender[2 * k + 1] == Line(FinishedLine(kept[k], team.name), Some(14))
    ensures var ms := MatchesOf(scheduled);
      && |scheduledRender| == 2 * |ms|
      && forall k :: 0 <= k < |ms| ==>
           && scheduledRender[2 * k] == LinkedHeader(ms[k])
           && scheduledRender[2 * k + 1] == Line(formatKickoff(ms[k].utcDate), Some(14))
    ensures var ms := MatchesOf(live);
      && |liveRender| == 2 * |ms|
      && forall k :: 0 <= k < |ms| ==>
           && liveRender[2 * k] == LiveHeader(ms[k])
           && liveRender[2 * k + 1] == Line(LiveLine(ms[k], team.name), Some(13))
    ensures var kept := LastN(MatchesOf(finished), finishedCount);
      && |menu| == 3 + SectionLength(|competitions|) + SectionLength(2 * |kept|)
                     + SectionLength(2 * |MatchesOf(scheduled)|) + SectionLength(2 * |MatchesOf(live)|)
      && menu[..3] == Head(team)
      && Titles(menu) == TitleIf("Standings", |competitions| > 0)
                        + TitleIf("Completed Matches", |kept| > 0)
                        + TitleIf("Upcoming Matches", |MatchesOf(scheduled)| > 0)
                        + TitleIf("Live Matches", |MatchesOf(live)| > 0)
  {
    standingsRender := RenderStandings(competitions, trackedId);
    finishedRender := RenderFinished(finished, team.name, finishedCount);
    scheduledRender := RenderScheduled(scheduled, formatKickoff);
    liveRender := RenderLive(live, team.name);
    MenuLayout(team, standingsRender, finishedRender, scheduledRender, liveRender);
    menu := Menu(team, standingsRender, finishedRender, scheduledRender, liveRender);
  }
}
