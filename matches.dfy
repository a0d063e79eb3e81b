/**
 * The three match sections of the menu: each `forEach` loop of index.js that
 * appends two nodes per match to its render list.
 */
module Matches {
  import opened Wrappers
  import opened Text
  import opened Domain
  import opened Classifier

  /** A response without a `matches` field renders like an empty list. */
  function MatchesOf(response: Option<seq<Match>>): seq<Match> {
    if response.Some? then response.value else []
  }

  /** The finished matches the last-N filter keeps: the final `n` in list order. */
  function LastN(ms: seq<Match>, n: int): (kept: seq<Match>)
    ensures |kept| == if n <= 0 then 0 else if n >= |ms| then |ms| else n
    ensures kept == ms[|ms| - |kept|..]
  {
    if n <= 0 then [] else if n >= |ms| then ms else ms[|ms| - n..]
  }

  /** The loop's test `idx >= length - n` keeps exactly the matches of `LastN`, at their place. */
  lemma LastNKeepsIndex(ms: seq<Match>, n: int, idx: int)
    requires 0 <= idx < |ms|
    ensures var kept := LastN(ms, n);
      && (idx >= |ms| - n <==> idx >= |ms| - |kept|)
      && (idx >= |ms| - n ==> kept[idx - (|ms| - |kept|)] == ms[idx])
  {
  }

  function MatchTitle(m: Match): string {
    m.homeName + " vs. " + m.awayName
  }

  /** The link as the code builds it, one name at a time. */
  function MatchLink(m: Match): string {
    SearchPrefix + SpacesToPlus(m.homeName) + "+vs.+" + SpacesToPlus(m.awayName)
  }

  /** The match link is a search for the header's own text. */
  lemma MatchLinkSearchesTitle(m: Match)
    ensures MatchLink(m) == SearchLink(MatchTitle(m))
  {
    ReplaceCharConcat(m.homeName, " vs. ", ' ', '+');
    ReplaceCharConcat(m.homeName + " vs. ", m.awayName, ' ', '+');
    assert ReplaceChar(" vs. ", ' ', '+') == "+vs.+";
  }

  /** First node of a finished or scheduled match. */
  function LinkedHeader(m: Match): MenuNode {
    Item(MatchTitle(m), Some(14), Some(MatchLink(m)), false, true, [])
  }

  /** Two nodes per match, in list order: the shape of every match render list. */
  ghost function Pairs(ms: seq<Match>, first: Match -> MenuNode, second: Match -> MenuNode): seq<MenuNode>
  {
    if ms == [] then []
    else Pairs(ms[..|ms| - 1], first, second) + [first(ms[|ms| - 1]), second(ms[|ms| - 1])]
  }

  lemma {:induction false} PairsAt(ms: seq<Match>, first: Match -> MenuNode, second: Match -> MenuNode, k: int)
    requires 0 <= k < |ms|
    ensures |Pairs(ms, first, second)| == 2 * |ms|
    ensures Pairs(ms, first, second)[2 * k] == first(ms[k])
    ensures Pairs(ms, first, second)[2 * k + 1] == second(ms[k])
    decreases |ms|
  {
    var init := ms[..|ms| - 1];
    if k < |init| {
      PairsAt(init, first, second, k);
    } else if init != [] {
      PairsAt(init, first, second, 0);
    }
  }

  lemma {:induction false} PairsLength(ms: seq<Match>, first: Match -> MenuNode, second: Match -> MenuNode)
    ensures |Pairs(ms, first, second)| == 2 * |ms|
    decreases |ms|
  {
    if ms != [] {
      PairsLength(ms[..|ms| - 1], first, second);
    }
  }

  lemma {:induction false} PairsHaveNoTitles(ms: seq<Match>, first: Match -> MenuNode, second: Match -> MenuNode)
    requires forall m :: !IsTitle(first(m)) && !IsTitle(second(m))
    ensures NoTitleNodes(Pairs(ms, first, second))
    decreases |ms|
  {
    if ms != [] {
      PairsHaveNoTitles(ms[..|ms| - 1], first, second);
    }
  }

  lemma PairsExtend(ms: seq<Match>, i: int, first: Match -> MenuNode, second: Match -> MenuNode)
    requires 0 <= i < |ms|
    ensures Pairs(ms[..i + 1], first, second) == Pairs(ms[..i], first, second) + [first(ms[i]), second(ms[i])]
  {
    assert ms[..i + 1][..i] == ms[..i];
  }

  /** The finished-matches render list: two nodes for each of the last `n` matches. */
  method RenderFinished(response: Option<seq<Match>>, trackedName: string, n: int)
    returns (render: seq<MenuNode>)
    ensures var kept := LastN(MatchesOf(response), n);
      && |render| == 2 * |kept|
      && forall k :: 0 <= k < |kept| ==>
           && render[2 * k] == LinkedHeader(kept[k])
           && render[2 * k + 1] == Line(FinishedLine(kept[k], trackedName), Some(14))
    ensures NoTitleNodes(render)
  {
    ghost var score := (m: Match) => Line(FinishedLine(m, trackedName), Some(14));
    ghost var kept := LastN(MatchesOf(response), n);
    render := [];
    ghost var count := 0;
    if response.Some? {
      var ms := response.value;
      ghost var start := |ms| - |kept|;
      var idx := 0;
      while idx < |ms|
        invariant 0 <= idx <= |ms|
        invariant count == if idx <= start then 0 else idx - start
        invariant render == Pairs(kept[..count], LinkedHeader, score)
      {
        if idx >= |ms| - n {
          LastNKeepsIndex(ms, n, idx);
          PairsExtend(kept, count, LinkedHeader, score);
          render := render + [LinkedHeader(ms[idx]), Line(FinishedLine(ms[idx], trackedName), Some(14))];
          count := count + 1;
        }
        idx := idx + 1;
      }
    }
    assert kept[..count] == kept;
    assert render == Pairs(kept, LinkedHeader, score);
    PairsLength(kept, LinkedHeader, score);
    PairsHaveNoTitles(kept, LinkedHeader, score);
    forall k | 0 <= k < |kept|
      ensures render[2 * k] == LinkedHeader(kept[k])
      ensures render[2 * k + 1] == Line(FinishedLine(kept[k], trackedName), Some(14))
    {
      PairsAt(kept, LinkedHeader, score, k);
    }
  }

  /**
   * The scheduled-matches render list: the header, then the kickoff time as
   * `formatKickoff` renders the match's UTC date.
   */
  method RenderScheduled(response: Option<seq<Match>>, formatKickoff: string -> string)
    returns (render: seq<MenuNode>)
    ensures var ms := MatchesOf(response);
      && |render| == 2 * |ms|
      && forall k :: 0 <= k < |ms| ==>
           && render[2 * k] == LinkedHeader(ms[k])
           && render[2 * k + 1] == Line(formatKickoff(ms[k].utcDate), Some(14))
    ensures NoTitleNodes(render)
  {
    ghost var kickoff := (m: Match) => Line(formatKickoff(m.utcDate), Some(14));
    ghost var ms := MatchesOf(response);
    render := [];
    if response.Some? {
      var i := 0;
      while i < |response.value|
        invariant 0 <= i <= |ms|
        invariant render == Pairs(ms[..i], LinkedHeader, kickoff)
      {
        var m := response.value[i];
        PairsExtend(ms, i, LinkedHeader, kickoff);
        render := render + [LinkedHeader(m), Line(formatKickoff(m.utcDate), Some(14))];
        i := i + 1;
      }
      assert ms[..i] == ms;
    }
    assert render == Pairs(ms, LinkedHeader, kickoff);
    PairsLength(ms, LinkedHeader, kickoff);
    forall m: Match
      ensures !IsTitle(LinkedHeader(m)) && !IsTitle(kickoff(m))
    {
      assert kickoff(m) == Line(formatKickoff(m.utcDate), Some(14));
    }
    PairsHaveNoTitles(ms, LinkedHeader, kickoff);
    forall k | 0 <= k < |ms|
      ensures render[2 * k] == LinkedHeader(ms[k])
      ensures render[2 * k + 1] == Line(formatKickoff(ms[k].utcDate), Some(14))
    {
      PairsAt(ms, LinkedHeader, kickoff, k);
    }
  }

  /** First node of a live match: the header without a link. */
  function LiveHeader(m: Match): MenuNode {
    Line(MatchTitle(m), Some(14))
  }

  /** The live-matches render list: an unlinked header of size 14, then the score of size 13. */
  method RenderLive(response: Option<seq<Match>>, trackedName: string)
    returns (render: seq<MenuNode>)
    ensures var ms := MatchesOf(response);
      && |render| == 2 * |ms|
      && forall k :: 0 <= k < |ms| ==>
           && render[2 * k] == LiveHeader(ms[k])
           && render[2 * k + 1] == Line(LiveLine(ms[k], trackedName), Some(13))
    ensures NoTitleNodes(render)
  {
    ghost var score := (m: Match) => Line(LiveLine(m, trackedName), Some(13));
    ghost var ms := MatchesOf(response);
    render := [];
    if response.Some? {
      var i := 0;
      while i < |response.value|
        invariant 0 <= i <= |ms|
        invariant render == Pairs(ms[..i], LiveHeader, score)
      {
        var m := response.value[i];
        PairsExtend(ms, i, LiveHeader, score);
        render := render + [LiveHeader(m), Line(LiveLine(m, trackedName), Some(13))];
        i := i + 1;
      }
      assert ms[..i] == ms;
    }
    assert render == Pairs(ms, LiveHeader, score);
    PairsLength(ms, LiveHeader, score);
    PairsHaveNoTitles(ms, LiveHeader, score);
    forall k | 0 <= k < |ms|
      ensures render[2 * k] == LiveHeader(ms[k])
      ensures render[2 * k + 1] == Line(LiveLine(ms[k], trackedName), Some(13))
    {
      PairsAt(ms, LiveHeader, score, k);
    }
  }
}
