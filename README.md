# Team soccer matches menu — a Dafny model

The program is a status-bar plugin that reports on one tracked football team.
It fetches the team, the standings of the team's active competitions, and its
finished, scheduled and live matches from the football-data service. It then
turns those payloads into one menu tree for the `bitbar` host. This project
models that presentation pipeline in `index.js`: how a match outcome is
classified, how score lines and search links are formatted, the last-N filter
on finished matches, the standings subtree, and how the sections are assembled
in their fixed order. The service responses arrive as already-parsed values.

Modules (one file each):

- `Wrappers` (`wrappers.dfy`): `Option`, the model of a JavaScript `null`.
- `Text` (`text.dfy`): decimal rendering of integers with its parser, and the
  `split(' ').join('+')` idiom, modelled literally and proved equal to a
  character replacement.
- `Domain` (`domain.dfy`): matches, scores, standings, the team and `MenuNode`.
- `Classifier` (`classifier.dfy`): winner name, "tracked team won", the
  extra-time/penalty flags, and the finished and live score lines.
- `Matches` (`matches.dfy`): the last-N filter and the three match loops, as
  methods with `while` loops. They are proved against the recursive `Pairs`
  specification: two nodes per match, in order.
- `Standings` (`standings.dfy`): the competitions loop and the nested
  group/row submenus.
- `MenuTree` (`menu.dfy`): sections, the final menu and `BuildMenu`, which
  runs the whole pipeline.

Notes on the code's behaviour:

- The extra-time and penalty groups read `h - a`, with spaces (index.js:90-92,
  154-156). In the finished line each group is preceded by a space
  (index.js:90, 92). In the live line the groups follow the parenthesised
  score with no space at all (index.js:152-164).
- "The tracked team won" compares display names (index.js:82, 146). With a
  `DRAW` tag, or with no decided winner, it is true exactly when the tracked
  team's name is `"Draw"` (`DrawIsNoWinUnlessNamedDraw`).
- The trailing label `!isDraw ? winningTeamName : 'Draw'` (index.js:101)
  always equals the winner name. The `isDraw` test there changes nothing
  (`FinishedLineEndsWithWinner`).
- Search links replace every single space with `+` (index.js:36, 98, 123), so
  two adjacent spaces give `++`.
- A match request whose response parses as JSON but has no `matches` field
  (an error body, say) leaves that section out of the menu (index.js:71, 116,
  137). This is the model's `None` response. The script throws instead when
  the team or a standings response lacks its fields (index.js:27, 35), when a
  request is rejected, or when a body is not JSON (index.js:24, 29, 69, 114,
  135). Those paths are not modelled.
- The winner's name is also compared with the tracked team for a live match
  (index.js:146). That result is never shown (`LiveLineIgnoresTrackedTeam`).

## Model

| member | source | states |
|---|---|---|
| `Text.IntToString` | index.js:88 | the text of an integer is non-empty, starts with `-` exactly for a negative number, and holds only digits and `-`; `IntToStringRoundTrip` reads it back |
| `Text.NatToStringRoundTrip` | index.js:46-52 | the decimal text of a non-negative number reads back as that number |
| `Text.IntToStringRoundTrip` | index.js:88 | the text a template literal gives an integer is well-formed and reads back as that integer |
| `Text.IntToStringInjective` | index.js:88 | distinct numbers never render to the same text |
| `Text.Split` | index.js:36 | `split(' ')` yields at least one piece and no piece contains the separator |
| `Text.JoinSplitIsReplace` | index.js:36 | joining the pieces of a split with a glue character equals replacing each separator by the glue, all else unchanged |
| `Text.SpacesToPlus` | index.js:36 | a name's query term equals the name with each space replaced by `+`; same length, no space left |
| `Text.PlusToSpacesRoundTrip` | index.js:98 | a name without `+` is recovered from its query term by turning `+` back into spaces |
| `Text.SearchLink` | index.js:36 | a search link is the search prefix followed by the query with spaces replaced by `+` |
| `Classifier.WinnerName` | index.js:76-81 | the home name for `HOME_TEAM`, the away name for `AWAY_TEAM`, `"Draw"` for any other tag; its properties are stated by `Classify` and `TrackedTeamWonIff` |
| `Classifier.Classify` | index.js:75-86 | the winner name is the home name, the away name or `"Draw"`; it is `"Draw"` on a draw tag; the tracked team won iff the winner name equals its name |
| `Classifier.TrackedTeamWonIff` | index.js:76-82 | the tracked team won iff the tag names its side, or it is called `"Draw"` and neither side won |
| `Classifier.DrawIsNoWinUnlessNamedDraw` | index.js:75-82 | with a DRAW tag the tracked team won iff its name is `"Draw"` |
| `Classifier.ShowFlagsIff` | index.js:84-86 | the extra-time (penalty) suffix is shown iff some count of that phase is present and non-zero |
| `Classifier.FlagsDoNotAffectWinner` | index.js:75-86 | changing extra-time and penalty counts changes neither the winner name, the draw flag nor "tracked team won" |
| `Classifier.ShowGoals` | index.js:88-92 | an absent count renders as `null`, a present one as text that reads back as the count |
| `Classifier.FinishedLine` | index.js:88-101 | emoji, space, full-time score, the ET and Pen groups when their flags hold, space, label; its properties are stated by the `FinishedLine…` lemmas below |
| `Classifier.FinishedLineEndsWithWinner` | index.js:101 | a finished line always ends with a space and the winner name |
| `Classifier.FinishedLineEmoji` | index.js:101 | its first character is green iff the tracked team won, white iff it did not and the tag is DRAW, red otherwise |
| `Classifier.UndeterminedShowsRedDraw` | index.js:75-101 | an undecided match shows red with the label `Draw`, unless the tracked team is called `"Draw"` |
| `Classifier.FinishedLineExample` | index.js:88-101 | Fulham 0 - 2 Chelsea, won away, tracked Chelsea gives `🟢 0 - 2 Chelsea` |
| `Classifier.LiveLine` | index.js:152-164 | the parenthesised score, then the ET and Pen groups when their flags hold; its properties are stated by `LiveLineIgnoresTrackedTeam` and `LiveLineGroupsAreGlued` |
| `Classifier.LiveLineIgnoresTrackedTeam` | index.js:140-146 | the live line does not depend on the tracked team |
| `Classifier.ScoreTextHasNoParens` | index.js:152-156 | a rendered score contains no parenthesis |
| `Classifier.LiveLineGroupsAreGlued` | index.js:152-164 | the live line starts with `(` and every `(` in it directly follows a `)`: no space before the ET and Pen groups |
| `Matches.LastN` | index.js:72-73 | the kept matches are the final `min(n, length)` ones (none when `n <= 0`), in list order |
| `Matches.LastNKeepsIndex` | index.js:72-73 | the loop test `idx >= length - n` holds exactly for the indices `LastN` keeps, and the kept match at that place is `matches[idx]` |
| `Matches.MatchTitle` | index.js:96 | the header text `home vs. away` |
| `Matches.MatchLink` | index.js:98 | the search prefix, the home query term, `+vs.+`, the away query term; `MatchLinkSearchesTitle` relates it to `MatchTitle` |
| `Matches.LinkedHeader` | index.js:120-124 | the header node of a finished or scheduled match: its title, size 14, the match link |
| `Matches.LiveHeader` | index.js:159-162 | the header node of a live match: its title, size 14, no link |
| `Matches.MatchLinkSearchesTitle` | index.js:96-98 | the link built name by name equals a search for the header text `home vs. away` |
| `Matches.PairsAt` | index.js:93-104 | a two-nodes-per-match list has length `2 * matches`, with match k's nodes at `2k` and `2k+1` |
| `Matches.RenderFinished` | index.js:70-107 | the finished list holds, for each of the last n matches in order, the linked header then the finished score line (size 14); it is empty when `matches` is absent |
| `Matches.RenderScheduled` | index.js:115-131 | the scheduled list holds, per match in order, the linked header then the formatted kickoff (size 14) |
| `Matches.RenderLive` | index.js:136-169 | the live list holds, per match in order, the unlinked header (size 14) then the live score line (size 13) |
| `Standings.GroupLabel` | index.js:39 | the group for a `GROUP_STAGE` standing, the stage otherwise |
| `Standings.RowText` | index.js:46-52 | `rank. team - points`; `RowTextReadsBack` states that the rank reads back |
| `Standings.RowNode` | index.js:45-54 | the row text, bold iff the row's team id is the tracked id |
| `Standings.GroupNode` | index.js:38-56 | the group label with size 14 and the row submenu; `GroupSubmenu` and `AtMostOneBoldRow` state its contents |
| `Standings.CompetitionNode` | index.js:34-58 | the competition name with size 14, its search link and one group per standing; `CompetitionChildren` states its contents |
| `Standings.GroupSubmenu` | index.js:38-56 | a group's submenu is the `Pos. Team - Points` header, a separator, then one row per table entry in table order, bold iff the entry's team id is the tracked id |
| `Standings.RowTextReadsBack` | index.js:46-52 | a row text starts with the rank, which reads back, followed by `. ` |
| `Standings.AtMostOneBoldRow` | index.js:53 | with unique team ids at most one row is bold, and one is iff the tracked team is in the table |
| `Standings.CompetitionChildren` | index.js:34-58 | a competition node has one child per standing group in order, labelled by group or stage, with a search link for the competition name |
| `Standings.RenderStandings` | index.js:30-60 | the standings list has one competition node per response, in order |
| `MenuTree.Section` | index.js:172-191 | nothing for an empty list, otherwise a separator, the title with size 22, then the list; `SectionShape` and the `…SectionAt` lemmas state it |
| `MenuTree.Head` | index.js:195-204 | the logo (not in the dropdown), a separator, the team header |
| `MenuTree.TeamHeader` | index.js:200-204 | the team name with size 30, linking to the team website |
| `MenuTree.Menu` | index.js:194-209 | the header, then the standings, completed, upcoming and live sections in that order; `MenuLayout` and the `…SectionAt` lemmas state it |
| `MenuTree.SectionShape` | index.js:172-191 | a section is empty for an empty list, otherwise it is `items + 2` long and carries its title once |
| `MenuTree.MenuLayout` | index.js:194-209 | the menu is the logo, a separator and the team header, then the sections; its titles are Standings, Completed, Upcoming, Live in that order, each iff its list is non-empty; its length is 3 plus the section lengths |
| `MenuTree.StandingsSectionAt` | index.js:172-176 | a non-empty standings list sits right after the header: separator, `Standings` title, then every competition node in order |
| `MenuTree.CompletedSectionAt` | index.js:177-181 | a non-empty finished list follows the header and the standings section: separator, `Completed Matches` title, then every node in order |
| `MenuTree.UpcomingSectionAt` | index.js:182-186 | a non-empty scheduled list follows the sections before it: separator, `Upcoming Matches` title, then every node in order |
| `MenuTree.LiveSectionAt` | index.js:187-191 | a non-empty live list comes last: separator, `Live Matches` title, then every node in order |
| `MenuTree.EmptySectionsLeaveHeaderOnly` | index.js:172-209 | with every list empty, the menu is the logo, a separator and the team header only |
| `MenuTree.BuildMenu` | index.js:30-209 | the menu is the menu assembled from the four render lists, and each list holds exactly what its loop renders: one competition node per response, the two nodes of each kept finished match, of each scheduled match and of each live match, in order; the header comes first and the section titles appear in fixed order exactly for the non-empty inputs |

## Left out

- HTTP requests, the `X-Auth-Token` header, JSON parsing, `async`/`await` and `Promise.all` (index.js:12-29, 65-69, 110-114, 134-135). These are I/O and concurrency. The model takes the parsed responses as inputs. An absent `matches` field is `None`.
- Kickoff date formatting with `date-fns` (index.js:126). It depends on locale and time zone. It is the parameter `formatKickoff`, applied to the match's UTC date.
- The `bitbar` call and the internals of `bitbar.separator` (index.js:194-209). The separator is the constructor `Separator`.
- `USER_OPTIONS` and its `||` defaults (index.js:5-10). The tracked id, the tracked name (the fetched team's name) and the number of finished matches are parameters. A `TEAM_ID` of another JavaScript type than the row ids, which would make `===` always false, is not modelled.
- Font names: `bold` stands for the `Helvetica-Bold` font. The emoji are fixed string constants.
- `Text.IntToString`: does not model JavaScript's exponent notation for numbers of 1e21 and above, nor non-integer numbers. Goal counts, ranks and points are integers.
- A missing `group` on a group-stage standing (JavaScript would show `null`): `Standing.group` is always a string.
- Winner tags other than `HOME_TEAM`, `AWAY_TEAM` and `DRAW`, including `null`, are the single value `Undetermined`. The code treats them all alike.
- Payloads missing required fields (no `score`, no `competition`), on which the code would throw, are not modelled. The records always carry every field.
- `Standings.AtMostOneBoldRow`: relies on unique team ids in a table. The code does not check this; the service is expected to guarantee it.
