# VibeScout core, modelled in Dafny

VibeScout is a scouting system for FRC robotics competitions: a Django
backend with management commands and a React Native frontend. This project
models the deterministic core of six of its files. Each operation is proved
against a specification function, and the properties those files rely on are proved.

- **Match-video clip planner** (`download_match_videos.py`, module
  `MatchVideos`).
  - The command keeps the matches with a recorded start time, in start-time
    order, and anchors the day boundaries at the earliest of them.
  - Each match goes to day 1, 2 or 3 on half-open thresholds.
  - A day with no stream link or an unset offset (0) is skipped.
  - The rest get the window `start - offset - buffer` to `+ 150 + 2 * buffer`.
    A negative start is clamped to 0, and the end is left where it was.
  - Windows are formatted as `HH:MM:SS`.
  - Downloads are an input function. A failed download is reported and the
    loop goes on.
- **The older clip script** (`DownloadVideoMatches.py`, modules `ClipScript`
  and `Base64Url`).
  - The Basic-auth token is the URL-safe Base64 of section 5 of RFC 4648,
    modelled with an independent decoder.
  - It parses the `MM:SS.fff` start time.
  - It maps the results API's times onto the stream, with the script's index
    quirk: clip n is cut from `Matches[n + 1]`.
- **The competition generator** (`generate_competition.py`, modules
  `Standings`, `QualSchedule`, `Alliances` and `Playoffs`).
  - The qualification loop is a class whose state is the match counts, the
    TeamInfo counters and the saved matches. It picks the six teams with the
    fewest matches, seats them, totals the fuel and tallies W/L/T and ranking
    points.
  - It has a statistics pass with the climb-point table.
  - Alliance selection takes ranks n, 25 - n and 8 + n.
  - The fixed double-elimination bracket is played out. A tie goes to red,
    and there is a reset final when the lower finalist wins.
  - Random draws (shuffles, fuel, climbs) are inputs.
- **The Blue Alliance import** (`import_tba_events.py`, module `TbaImport`).
  - It parses team keys and derives match rows: scores, fuel, and the
    slot-1-only fan-out.
  - It upserts rows keyed on (competition, match number).
  - It accumulates the event's team set and creates TeamInfo rows.
  - Each event is imported in a transaction that rolls back on an exception.
  - The database is a value of type `Store`, and the API replies are inputs.
- **Competition codes** (`frontend/utils/competitionCode.ts`, module
  `CompetitionCode`): `parseCompetitionCode` and `extractYear`, with their
  regular expressions written out.
- **Connection quality** (`frontend/components/ConnectionStatus.tsx`, module
  `ConnectionQuality`): the `getConnectionQuality` decision chain.

Shared modules:

- `Wrappers` holds `Option` and `Result`.
- `Decimal` holds Python's `str` of integers, `format(n, '02d')` and
  reading digit strings back.

Two behaviours of the code differ from what its own warning text ("Skipping
match ... - incomplete teams", import_tba_events.py:91-93) suggests. Both are
modelled as written:

- `import_match` returns `None` for a match with fewer than three keys on a
  side. `import_event` then passes that `None` to `set.update`, which raises
  a `TypeError`. So one incomplete match makes the whole event roll back and
  be reported as failed. It is not skipped silently.
- `team_key.replace('frc', '')` is a single pass, so `"ffrcrc"` becomes
  `"frc"`, which `int` rejects. It does not remove every "frc" substring.

One behaviour of `download_match_videos.py` is also modelled as written. With
`--match-number`, only the matches with that number are selected, and the
earliest of them anchors the day boundaries (download_match_videos.py:70-86).
So a match played on day 2 or day 3 that is selected alone gets day 1's
stream link and offset. `MatchVideos.AnchorOnDayOne` proves that the earliest
selected match is always on day 1.

## Model

| member | source | states |
|---|---|---|
| Decimal.NatToString | vibescout_backend/backend/management/commands/import_tba_events.py:178 | `str(n)`: at least one digit, only digits, no leading zero, one digit exactly below 10 |
| Decimal.ValueOfNatToString | vibescout_backend/backend/management/commands/import_tba_events.py:174-178 | reading back the digits `str(n)` wrote gives n |
| Decimal.NatToStringInjective | vibescout_backend/backend/management/commands/import_tba_events.py:174-178 | different numbers never get the same text |
| Decimal.Pad2 | vibescout_backend/backend/management/commands/download_match_videos.py:196 | `{:02d}`: at least two characters, exactly two below 100, digits denoting n for n >= 0, a leading '-' for negative n |
| Decimal.Pad2Digits | vibescout_backend/backend/management/commands/download_match_videos.py:196 | below 100, `{:02d}` is the tens digit followed by the units digit |
| Decimal.ValueOfLeadingZero | vibescout_backend/backend/management/commands/download_match_videos.py:196 | zero padding does not change the value read back |
| Decimal.DigitChar | vibescout_backend/backend/management/commands/download_match_videos.py:196 | every digit value gets a digit character |
| Decimal.DigitValue | vibescout_backend/backend/management/commands/import_tba_events.py:174 | a digit character's value is below 10 and is written back as that character |
| Decimal.ValueOfTwoDigits | vibescout_backend/DownloadVideoMatches.py:71 | a two-digit field is tens times 10 plus units |
| MatchVideos.DayOf | vibescout_backend/backend/management/commands/download_match_videos.py:104-115 | every match falls on day 1, 2 or 3 |
| MatchVideos.DayThresholds | vibescout_backend/backend/management/commands/download_match_videos.py:84-86 | day 1 iff start < first + 12 h; day 2 iff first + 12 h <= start < first + 36 h; day 3 iff start >= first + 36 h |
| MatchVideos.DayMonotone | vibescout_backend/backend/management/commands/download_match_videos.py:104-115 | a later match never falls on an earlier day |
| MatchVideos.PlanClip | vibescout_backend/backend/management/commands/download_match_videos.py:102-141 | the day is the threshold day; skipped iff that day's stream link is empty or its offset is 0, with the reason saying which; otherwise the window uses that day's link and starts at >= 0 |
| MatchVideos.WindowFromStreamTime | vibescout_backend/backend/management/commands/download_match_videos.py:134-141 | start = max(0, match start - offset - buffer); end = unclamped start + 150 + 2 * buffer; unclamped, end - start = 150 + 2 * buffer |
| MatchVideos.OffsetRoundTrip | vibescout_backend/backend/management/commands/download_match_videos.py:132-134 | with no buffer and no clamping, the stream start plus the offset is the match's Unix start |
| MatchVideos.InvertedWindow | vibescout_backend/backend/management/commands/download_match_videos.py:137-141 | the end falls before the start exactly when the padded match lies wholly before the stream began; then the start is 0 and the end negative |
| MatchVideos.FormatTimestamp | vibescout_backend/backend/management/commands/download_match_videos.py:191-196 | at least 8 characters with ':' at the two field separators; a negative count starts with '-' |
| MatchVideos.FormatTimestampRoundTrip | vibescout_backend/backend/management/commands/download_match_videos.py:191-196 | for s >= 0 the text reads back (hours unwrapped, minutes and seconds below 60) as exactly s |
| MatchVideos.FormatTimestampExamples | vibescout_backend/backend/management/commands/download_match_videos.py:191-196 | 3725 gives "01:02:05", 0 gives "00:00:00", 90000 gives "25:00:00" |
| MatchVideos.TimestampDigits | vibescout_backend/backend/management/commands/download_match_videos.py:191-196 | a count of h hours (below 100), m minutes and s seconds (both below 60) shows as the two digits of h, ":", the two digits of m, ":", the two digits of s |
| MatchVideos.WindowExample | vibescout_backend/backend/management/commands/download_match_videos.py:134-145 | offset 2000, buffer 30, start 2200 gives the window 00:02:50 to 00:06:20 on day 1 |
| MatchVideos.DownloadMatchVideo | vibescout_backend/backend/management/commands/download_match_videos.py:98-189 | a skip reports the reason and fetches nothing; otherwise it fetches exactly the planned window of that day's link to `match_<type>_<number>_day<day>.mp4` and reports success or failure, never raising |
| MatchVideos.DownloadAll | vibescout_backend/backend/management/commands/download_match_videos.py:87-96 | the loop over the selected matches: one report per match, in the same order, each the report of the per-match step for that match |
| MatchVideos.Selected | vibescout_backend/backend/management/commands/download_match_videos.py:65-71 | exactly the matches of this competition with start time > 0 (and the requested number, if any) |
| MatchVideos.InsertSorted | vibescout_backend/backend/management/commands/download_match_videos.py:73 | inserting into a start-ordered list keeps it ordered and adds exactly that match |
| MatchVideos.SortByStartCorrect | vibescout_backend/backend/management/commands/download_match_videos.py:73 | `order_by('start_match_time')` is ascending and a permutation of its input |
| MatchVideos.Handle | vibescout_backend/backend/management/commands/download_match_videos.py:39-96 | not found iff no competition; no stream links iff all three are empty; no matches iff none qualify; otherwise one report per selected match, in start order, each the per-match step's report with days anchored at the first match |
| MatchVideos.ProcessedOrder | vibescout_backend/backend/management/commands/download_match_videos.py:65-84 | the matches walked are exactly the wanted ones, ascending, each with start > 0, and the anchor starts no later than any |
| MatchVideos.AnchorOnDayOne | vibescout_backend/backend/management/commands/download_match_videos.py:83-105 | the earliest match is always on day 1 |
| Base64Url.ValueOfChar | vibescout_backend/DownloadVideoMatches.py:21 | each alphabet character decodes to its 6-bit value |
| Base64Url.EncodeLength | vibescout_backend/DownloadVideoMatches.py:21 | the output is 4 * ceil(n / 3) characters long |
| Base64Url.EncodeAlphabet | vibescout_backend/DownloadVideoMatches.py:21 | only URL-safe alphabet characters, plus at most two trailing '=' |
| Base64Url.DecodeEncodeBlock | vibescout_backend/DownloadVideoMatches.py:21 | a full three-byte group decodes back to its bytes |
| Base64Url.DecodeEncodeOne | vibescout_backend/DownloadVideoMatches.py:21 | a single byte, encoded as two characters and "==", decodes back to that byte |
| Base64Url.DecodeEncodeTwo | vibescout_backend/DownloadVideoMatches.py:21 | two bytes, encoded as three characters and "=", decode back to those bytes |
| Base64Url.DecodeEncode | vibescout_backend/DownloadVideoMatches.py:21 | decoding the encoding gives the bytes back |
| Base64Url.EncodeInjective | vibescout_backend/DownloadVideoMatches.py:21 | different byte strings never share a token |
| ClipScript.AsciiBytes | vibescout_backend/DownloadVideoMatches.py:21 | `.encode("ascii")` succeeds iff every character is below 128, and then gives their code points |
| ClipScript.ParseTokenIsBase64 | vibescout_backend/DownloadVideoMatches.py:20-21 | a token exists iff user and key are given and ASCII; it is 4 * ceil((\|user\| + 1 + \|key\|) / 3) long and decodes back to "user:key" |
| ClipScript.ChooseToken | vibescout_backend/DownloadVideoMatches.py:65-69 | a non-empty `--Token` is used as is; otherwise the token is built from user and key |
| ClipScript.FirstIndex | vibescout_backend/DownloadVideoMatches.py:71 | the first position of the separator, or the length when it is absent |
| ClipScript.ParseMinutes | vibescout_backend/DownloadVideoMatches.py:71 | `%M` accepts minutes below 60 only |
| ClipScript.ParseSeconds | vibescout_backend/DownloadVideoMatches.py:71 | `%S` accepts at most 61 |
| ClipScript.ParseStartTime | vibescout_backend/DownloadVideoMatches.py:71-72 | a parsed start time is below an hour |
| ClipScript.ParseStartTimeRoundTrip | vibescout_backend/DownloadVideoMatches.py:71-72 | "MM:SS.f" with 1-6 fraction digits reads as minutes * 60 + seconds, whatever the fraction |
| ClipScript.ParseStartTimeRejects | vibescout_backend/DownloadVideoMatches.py:71 | second 60 and minute 75 are refused |
| ClipScript.ClipShift | vibescout_backend/DownloadVideoMatches.py:82-94 | each clip is its match shifted by start time - reference, so it lasts post-result - actual start, independent of both |
| ClipScript.AnchorAtStartTime | vibescout_backend/DownloadVideoMatches.py:75-83 | the first clip starts exactly at the given stream time and ends after the first match's duration |
| ClipScript.ClipOrder | vibescout_backend/DownloadVideoMatches.py:88-95 | a later match start gives a later clip start |
| ClipScript.SecondMatchNeverClipped | vibescout_backend/DownloadVideoMatches.py:86-87 | no clip comes from `Matches[1]`, and distinct clips come from distinct entries |
| ClipScript.ClipNamesDistinct | vibescout_backend/DownloadVideoMatches.py:80-92 | "Match_1", "Match1", "Match2", ... are pairwise distinct |
| ClipScript.RunScript | vibescout_backend/DownloadVideoMatches.py:64-95 | nothing runs iff URL, start time or folder is empty; a token or start-time failure stops before any clip; otherwise the clips fetched are exactly the first clips in order, finishing iff every source index is in range |
| ClipScript.FinishedNeedsEnoughResults | vibescout_backend/DownloadVideoMatches.py:87 | all clips can be cut only if the results list holds `Matches + 1` entries (for Matches >= 2) |
| Standings.Fill | vibescout_backend/backend/management/commands/generate_competition.py:140-162 | slot i holds the i-th team with the i-th draw |
| Standings.AllianceFuelOfThree | vibescout_backend/backend/management/commands/generate_competition.py:166-172 | an alliance total is the sum of its three robots' fuel scored |
| Standings.CreditAll | vibescout_backend/backend/management/commands/generate_competition.py:183-212 | crediting a list of teams keeps the number of TeamInfo rows |
| Standings.CreditAllAt | vibescout_backend/backend/management/commands/generate_competition.py:183-212 | each listed team (once) gets the result once, every other row is unchanged |
| Standings.Tally | vibescout_backend/backend/management/commands/generate_competition.py:180-213 | the tally keeps the number of TeamInfo rows |
| Standings.TallyAt | vibescout_backend/backend/management/commands/generate_competition.py:180-213 | with six distinct teams: blue gets win/loss/tie by strict comparison of totals, red the opposite, everyone else nothing |
| Standings.TotalsUpdate | vibescout_backend/backend/management/commands/generate_competition.py:185-212 | replacing one row changes each column total by that row's difference |
| Standings.CreditAllTotals | vibescout_backend/backend/management/commands/generate_competition.py:183-212 | crediting k teams adds k results and k times the result's points to the column totals |
| Standings.TallyTotals | vibescout_backend/backend/management/commands/generate_competition.py:180-213 | every match adds six results and exactly 6 ranking points, and as many wins as losses |
| Standings.CreditAllConsistent | vibescout_backend/backend/management/commands/generate_competition.py:181-212 | ranking points stay 2 * wins + ties |
| Standings.TallyConsistent | vibescout_backend/backend/management/commands/generate_competition.py:180-213 | the tally keeps ranking points = 2 * wins + ties |
| Standings.ClimbPointsOrdered | vibescout_backend/backend/management/commands/generate_competition.py:241-258 | None < L1 < L2 < L3 (0, 3, 6, 10); only the three levels score; at most 10 |
| Standings.TotalsBounds | vibescout_backend/backend/management/commands/generate_competition.py:229-259 | at most 10 climb points per match played, and no more matches than there are |
| Standings.TeamTotals | vibescout_backend/backend/management/commands/generate_competition.py:229-259 | the statistics loop computes the fuel, auto fuel, climb-point and match totals that `TotalsOver` defines |
| QualSchedule.Insert | vibescout_backend/backend/management/commands/generate_competition.py:110 | inserting a position grows the order by one |
| QualSchedule.SortTeams | vibescout_backend/backend/management/commands/generate_competition.py:110 | the sort of k positions has k entries |
| QualSchedule.InsertSorted | vibescout_backend/backend/management/commands/generate_competition.py:110 | insertion keeps the (count, position) order and adds exactly that position |
| QualSchedule.SortTeamsCorrect | vibescout_backend/backend/management/commands/generate_competition.py:110 | the stable sort by match count holds every team once, in (count, position) order |
| QualSchedule.Fewest | vibescout_backend/backend/management/commands/generate_competition.py:110-111 | six distinct team positions in range |
| QualSchedule.FewestAreFewest | vibescout_backend/backend/management/commands/generate_competition.py:110-111 | no team left out has played fewer matches than any team picked |
| QualSchedule.Bump | vibescout_backend/backend/management/commands/generate_competition.py:151-164 | bumping keeps one count per team |
| QualSchedule.BumpAt | vibescout_backend/backend/management/commands/generate_competition.py:151-164 | each listed team's count rises by one, the others stay, and the total grows by the list length |
| QualSchedule.BumpFewestBalanced | vibescout_backend/backend/management/commands/generate_competition.py:106-164 | giving the six fewest one more match keeps max - min <= 1 |
| QualSchedule.FairShare | vibescout_backend/backend/management/commands/generate_competition.py:102-164 | after the schedule, every team has played matches_per_team or one fewer |
| QualSchedule.Lineup | vibescout_backend/backend/management/commands/generate_competition.py:111-115 | the shuffled six are distinct and in range; blue is the first three, red the last three |
| QualSchedule.LineupIsFewest | vibescout_backend/backend/management/commands/generate_competition.py:110-115 | the shuffle keeps exactly the six picked teams |
| QualSchedule.PlayKeepsValid | vibescout_backend/backend/management/commands/generate_competition.py:108-213 | one match keeps the counts balanced and summing to 6 per match, the tally consistent, and the matches numbered and well formed |
| QualSchedule.NextMatchWellFormed | vibescout_backend/backend/management/commands/generate_competition.py:126-172 | the new match seats six distinct teams, three a side, is numbered next, and its totals are its robots' fuel |
| QualSchedule.PlayBumpsFewest | vibescout_backend/backend/management/commands/generate_competition.py:106-164 | each of the six picked teams gets exactly one more match and nobody else any |
| QualSchedule.BumpTwice | vibescout_backend/backend/management/commands/generate_competition.py:140-164 | bumping blue then red is bumping the whole lineup |
| QualSchedule.ZeroTotals | vibescout_backend/backend/management/commands/generate_competition.py:76-106 | the zeroed counts and TeamInfo rows start balanced with zero totals |
| QualSchedule.QualGenerator.constructor | vibescout_backend/backend/management/commands/generate_competition.py:76-106 | every count and W/L/T/RP counter is zero, with no matches |
| QualSchedule.QualGenerator.CreditTeams | vibescout_backend/backend/management/commands/generate_competition.py:183-212 | the rows become those of crediting each listed team in order; counts and matches unchanged |
| QualSchedule.QualGenerator.SeatAlliance | vibescout_backend/backend/management/commands/generate_competition.py:140-164 | returns the filled robot slots, and each seated team's count rises by one |
| QualSchedule.QualGenerator.PlayMatch | vibescout_backend/backend/management/commands/generate_competition.py:108-213 | appends the next match of the lineup, bumps its six teams and tallies it, keeping the generator's invariant |
| QualSchedule.GenerateQualifications | vibescout_backend/backend/management/commands/generate_competition.py:101-213 | plays `(teams * per_team) // 6` matches; crashes iff a match is due with fewer than six teams, leaving the fresh tables; with at least six, the counts, records and saved matches are exactly the schedule of that many draws, and every team ends at per_team or one fewer |
| QualSchedule.Step | vibescout_backend/backend/management/commands/generate_competition.py:108-213 | one iteration saves the next match of the draw after the earlier ones and bumps and tallies its six teams, leaving the table sizes |
| QualSchedule.Schedule | vibescout_backend/backend/management/commands/generate_competition.py:101-213 | k iterations from fresh tables leave n counts, n records and k saved matches |
| QualSchedule.ScheduleValid | vibescout_backend/backend/management/commands/generate_competition.py:101-213 | every schedule keeps the generator's invariant |
| QualSchedule.SchedulePrefix | vibescout_backend/backend/management/commands/generate_competition.py:108-213 | saved matches are never rewritten: a longer schedule starts with the matches of a shorter one |
| QualSchedule.ScheduleKeepsMatches | vibescout_backend/backend/management/commands/generate_competition.py:108-213 | match j of a schedule is the match drawn at step j + 1 on the tables after j matches |
| QualSchedule.ScheduleFair | vibescout_backend/backend/management/commands/generate_competition.py:101-164 | after `(n * per_team) // 6` steps every team has played per_team or one fewer |
| Alliances.Top24 | vibescout_backend/backend/management/commands/generate_competition.py:281 | the first min(24, n) ranked teams |
| Alliances.PickIndicesPartition | vibescout_backend/backend/management/commands/generate_competition.py:284-287 | the 24 pick indices of alliances 1-8 are in 0..23, pairwise distinct, and cover every index |
| Alliances.FormAlliances | vibescout_backend/backend/management/commands/generate_competition.py:283-299 | the loop yields `AllianceList` of the top 24 |
| Alliances.AllianceList | vibescout_backend/backend/management/commands/generate_competition.py:283-299 | at most one alliance per number |
| Alliances.AllianceListShape | vibescout_backend/backend/management/commands/generate_competition.py:289-299 | each listed alliance has all three ranks present and is built from them; numbers strictly increase; all k formed iff each is formable |
| Alliances.AllianceCount | vibescout_backend/backend/management/commands/generate_competition.py:281-299 | eight alliances iff at least 24 ranked teams; none with 16 or fewer |
| Alliances.FullField | vibescout_backend/backend/management/commands/generate_competition.py:284-299 | with >= 24 ranked teams, alliance k + 1 is ranks k + 1, 24 - k and 9 + k |
| Alliances.NoTeamPickedTwice | vibescout_backend/backend/management/commands/generate_competition.py:284-299 | with a duplicate-free ranking, no team is in two alliance slots |
| Alliances.CaptainRanksAhead | vibescout_backend/backend/management/commands/generate_competition.py:269-299 | on a (-RP, -win) ranking, each captain ranks ahead of its third pick and the third pick ahead of the second |
| Alliances.FormedAllianceOrder | vibescout_backend/backend/management/commands/generate_competition.py:284-299 | for a formed alliance n on a (-RP, -win) ranking, the captain (rank n) ranks ahead of the third pick (rank 8 + n), which ranks ahead of the second pick (rank 25 - n) |
| Playoffs.WinnerAndLoser | vibescout_backend/backend/management/commands/generate_competition.py:362-368 | winner and loser are the two alliances; blue wins iff it has strictly more fuel (a tie goes to red) |
| Playoffs.DrawFuelIsAllianceFuel | vibescout_backend/backend/management/commands/generate_competition.py:349-353 | the alliance total is its three robots' fuel scored |
| Playoffs.Row | vibescout_backend/backend/management/commands/generate_competition.py:312-360 | the saved totals are the sums of the seated robots' fuel |
| Playoffs.CreatePlayoffMatch | vibescout_backend/backend/management/commands/generate_competition.py:312-370 | saves the row of the two alliances and returns its winner and loser |
| Playoffs.SavePlayoffMatch | vibescout_backend/backend/management/commands/generate_competition.py:312-370 | one call as the bracket makes it: the rows grow by exactly one row between the given blue and red alliances, saved under the next (type, set, match) key with the next draws, and the winner and loser returned are that row's |
| Playoffs.RowsFromAt | vibescout_backend/backend/management/commands/generate_competition.py:372-467 | every saved row is the row of its alliances, its key and its draws |
| Playoffs.PlayoffKeysDistinct | vibescout_backend/backend/management/commands/generate_competition.py:379-465 | the fourteen (type, set, match) keys are pairwise different |
| Playoffs.KeysDistinct | vibescout_backend/backend/management/commands/generate_competition.py:379-465 | no two saved playoff matches share a key |
| Playoffs.Saved | vibescout_backend/backend/management/commands/generate_competition.py:312-360 | appending keeps every row tied to its key and draws |
| Playoffs.PlayQuarterfinals | vibescout_backend/backend/management/commands/generate_competition.py:375-400 | plays 1 v 8, 4 v 5, 2 v 7, 3 v 6; winners to the upper list, losers to the lower bracket |
| Playoffs.PlayUpperSemifinals | vibescout_backend/backend/management/commands/generate_competition.py:402-416 | pairs quarterfinal winners 1 v 2 and 3 v 4; losers join the lower bracket |
| Playoffs.PlayLowerRoundOne | vibescout_backend/backend/management/commands/generate_competition.py:418-430 | quarterfinal losers play first v second and third v fourth |
| Playoffs.PlayLowerRoundTwo | vibescout_backend/backend/management/commands/generate_competition.py:432-444 | each round-1 winner plays an upper semifinal loser |
| Playoffs.PlayFinals | vibescout_backend/backend/management/commands/generate_competition.py:446-465 | lower final, upper final, grand final with the upper finalist blue, and a reset iff the lower finalist wins |
| Playoffs.RunBracket | vibescout_backend/backend/management/commands/generate_competition.py:372-467 | fewer than eight alliances fail at the first quarterfinal; otherwise the saved matches are the bracket's 13 or 14 rows |
| Playoffs.LowerBracketLosersLostTwice | vibescout_backend/backend/management/commands/generate_competition.py:418-450 | every alliance knocked out in the lower bracket had already lost in the upper bracket |
| Playoffs.LowerEntrants | vibescout_backend/backend/management/commands/generate_competition.py:397-444 | both alliances of every lower-bracket match lost in the upper bracket |
| Playoffs.QuarterfinalsSplit | vibescout_backend/backend/management/commands/generate_competition.py:375-416 | no quarterfinal loser is a quarterfinal winner, and the two upper semifinals share no alliance |
| Playoffs.UpperFinalLoserLosesOnce | vibescout_backend/backend/management/commands/generate_competition.py:452-465 | the upper final's loser loses no other match |
| Playoffs.ChampionComesFromGrandFinal | vibescout_backend/backend/management/commands/generate_competition.py:457-465 | with no reset the champion is the upper finalist; with a reset it is the winner of the second grand final |
| TbaImport.RemoveFrc | vibescout_backend/backend/management/commands/import_tba_events.py:174 | deleting never lengthens the key |
| TbaImport.ReadDigitsMeaning | vibescout_backend/backend/management/commands/import_tba_events.py:174 | the digit reader accepts exactly digit strings and reads their value |
| TbaImport.ParseIntMeaning | vibescout_backend/backend/management/commands/import_tba_events.py:174 | `int` accepts an optional sign and at least one digit, and nothing else |
| TbaImport.ParseIntToString | vibescout_backend/backend/management/commands/import_tba_events.py:174 | `int(str(i)) == i` for every integer |
| TbaImport.RemoveFrcWithoutF | vibescout_backend/backend/management/commands/import_tba_events.py:174 | text without an 'f' passes unchanged |
| TbaImport.TeamKeyRoundTrip | vibescout_backend/backend/management/commands/import_tba_events.py:174 | "frc" + `str(n)` parses back to n |
| TbaImport.SinglePass | vibescout_backend/backend/management/commands/import_tba_events.py:174 | "ffrcrc" becomes "frc", which does not parse |
| TbaImport.GetOrCreateTeam | vibescout_backend/backend/management/commands/import_tba_events.py:173-179 | succeeds iff the key parses to a team number, else raises ValueError; on success it returns that number and the team table with n found or created |
| TbaImport.KeyNumbers | vibescout_backend/backend/management/commands/import_tba_events.py:98-99 | one number per key |
| TbaImport.KeyNumbersMeaning | vibescout_backend/backend/management/commands/import_tba_events.py:98-99 | the list parses iff each key is a team number, and slot k holds key k's number |
| TbaImport.GetOrCreateTeams | vibescout_backend/backend/management/commands/import_tba_events.py:98-99 | a list of keys raises at its first bad key; otherwise the teams are the keys' numbers in order and all exist |
| TbaImport.WithTeamsMeaning | vibescout_backend/backend/management/commands/import_tba_events.py:173-179 | existing teams keep their names, every number gets a row, new ones are "Team n" |
| TbaImport.RowOf | vibescout_backend/backend/management/commands/import_tba_events.py:101-166 | scores (null or missing as 0) give total and calculated points; fuel is auto plus teleop cells; slot 1 carries the alliance value, slots 2 and 3 are 0, so slot sums equal the alliance values |
| TbaImport.RowOfReadsScores | vibescout_backend/backend/management/commands/import_tba_events.py:101-131 | the row depends only on the scores and the breakdown |
| TbaImport.RowOfExample | vibescout_backend/backend/management/commands/import_tba_events.py:108-131 | a counter missing from the breakdown reads as 0: blue with only bottom auto 4 and inner teleop 2 gets fuel 6 in slot 1, an empty red side 0 |
| TbaImport.TeamsOf | vibescout_backend/backend/management/commands/import_tba_events.py:98-99 | six teams |
| TbaImport.TeamsOfMeaning | vibescout_backend/backend/management/commands/import_tba_events.py:98-99 | slot by slot, the first three blue keys' numbers then the first three red keys' |
| TbaImport.TeamsInOrder | vibescout_backend/backend/management/commands/import_tba_events.py:98-99 | blue then red teams found one key at a time: raises iff a key fails, otherwise exactly those six teams |
| TbaImport.ImportMatch | vibescout_backend/backend/management/commands/import_tba_events.py:90-171 | fewer than 3 keys on a side: nothing written, returns None; a bad key or null breakdown raises; otherwise the row under (competition, match number) is replaced, other rows kept, and the six teams returned |
| TbaImport.ImportMatchIdempotent | vibescout_backend/backend/management/commands/import_tba_events.py:133-166 | importing the same match again changes nothing |
| TbaImport.LastImportWins | vibescout_backend/backend/management/commands/import_tba_events.py:133-135 | two matches with one number overwrite each other; the second wins |
| TbaImport.ExtraKeysIgnored | vibescout_backend/backend/management/commands/import_tba_events.py:98-99 | replies that differ only in keys past the third import alike |
| TbaImport.WithInfosMeaning | vibescout_backend/backend/management/commands/import_tba_events.py:181-194 | existing TeamInfo rows are kept; every team gets one (zeroed if new); nothing else is added |
| TbaImport.WithInfosIdempotent | vibescout_backend/backend/management/commands/import_tba_events.py:181-194 | creating the rows twice is creating them once |
| TbaImport.CreateTeamInfos | vibescout_backend/backend/management/commands/import_tba_events.py:181-194 | the loop leaves the table `WithInfos` defines |
| TbaImport.WithCompetition | vibescout_backend/backend/management/commands/import_tba_events.py:61-65 | the competition exists afterwards; an existing one keeps its name; nothing else changes |
| TbaImport.TeamSet | vibescout_backend/backend/management/commands/import_tba_events.py:74-75 | a team is in the set iff it is in the list |
| TbaImport.ErrorPersists | vibescout_backend/backend/management/commands/import_tba_events.py:56-80 | after the loop raises, later matches are not looked at |
| TbaImport.ImportEvent | vibescout_backend/backend/management/commands/import_tba_events.py:56-80 | the loop commits the store `EventImport` defines or raises its error |
| TbaImport.IncompleteMatchFails | vibescout_backend/backend/management/commands/import_tba_events.py:74-94 | one incomplete match makes the event raise |
| TbaImport.ImportMatchRows | vibescout_backend/backend/management/commands/import_tba_events.py:133-166 | one import touches only the row under its own key |
| TbaImport.MatchesImported | vibescout_backend/backend/management/commands/import_tba_events.py:70-75 | when the loop completes, every match was complete and has a row under its number |
| TbaImport.OtherRowsKept | vibescout_backend/backend/management/commands/import_tba_events.py:70-75 | other competitions' rows, the competitions and the TeamInfo rows are untouched |
| TbaImport.TeamsCollected | vibescout_backend/backend/management/commands/import_tba_events.py:72-75 | every team of every imported match is in the collected set |
| TbaImport.EventKeepsInfos | vibescout_backend/backend/management/commands/import_tba_events.py:56-80 | a committed event has its competition and keeps existing TeamInfo rows |
| TbaImport.EventTeamInfos | vibescout_backend/backend/management/commands/import_tba_events.py:56-80 | a committed event gives every team that played in it a TeamInfo row |
| TbaImport.SeenFromMatches | vibescout_backend/backend/management/commands/import_tba_events.py:72-75 | the collected set holds only teams of the imported matches |
| TbaImport.EventNewInfos | vibescout_backend/backend/management/commands/import_tba_events.py:56-80 | a committed event adds TeamInfo rows only for its own competition and only for teams that played in it |
| TbaImport.RunEvents | vibescout_backend/backend/management/commands/import_tba_events.py:44-54 | one report per event key, in order, each naming its key |
| TbaImport.RunEventsReports | vibescout_backend/backend/management/commands/import_tba_events.py:44-54 | report k is success iff event k commits; a failed event leaves the store as the earlier events left it, and the next key is still processed |
| TbaImport.Handle | vibescout_backend/backend/management/commands/import_tba_events.py:27-54 | without an API key only that is reported; otherwise the event loop's store and reports |
| CompetitionCode.Upper | frontend/utils/competitionCode.ts:11-13 | upper-casing keeps the length |
| CompetitionCode.UpperAppend | frontend/utils/competitionCode.ts:11-13 | upper-casing distributes over concatenation |
| CompetitionCode.UpperKeepsDigits | frontend/utils/competitionCode.ts:11-13 | upper-casing leaves digits alone |
| CompetitionCode.ParseCompetitionCode | frontend/utils/competitionCode.ts:6-14 | null or empty gives "N/A"; a year prefix with more after it gives the upper-cased rest; otherwise the upper-cased code |
| CompetitionCode.ExtractYear | frontend/utils/competitionCode.ts:21-24 | a year iff the first four characters are digits, and then it is those four |
| CompetitionCode.DocumentedExample | frontend/utils/competitionCode.ts:2-20 | "2020casj" gives "CASJ" and "2020" |
| CompetitionCode.NoYearExamples | frontend/utils/competitionCode.ts:9-13 | "2020" gives "2020"; "casj" gives "CASJ" and no year |
| CompetitionCode.YearThenCode | frontend/utils/competitionCode.ts:9-23 | year followed by the parsed code is the whole code, upper-cased |
| CompetitionCode.NonEmptyStaysNonEmpty | frontend/utils/competitionCode.ts:7-13 | a non-empty code never shows as empty |
| CompetitionCode.FourDigitYear | frontend/utils/competitionCode.ts:22 | a year from 1000 to 9999 is written with four digits |
| CompetitionCode.CodeRoundTrip | frontend/utils/competitionCode.ts:6-24 | a year and an event code written together read back as that year and the upper-cased event code |
| ConnectionQuality.GetConnectionQuality | frontend/components/ConnectionStatus.tsx:54-77 | Offline iff offline or disconnected; Checking iff otherwise checking or no ping; Good/Weak/Bad/Poor iff connected with ping in [0,300), [300,750), [750,1500), [1500,inf); success iff Good, warning iff Weak, error iff Offline, Bad or Poor |
| ConnectionQuality.SlowerIsNoBetter | frontend/components/ConnectionStatus.tsx:67-76 | a longer ping never gives a better label |
| ConnectionQuality.OfflineTakesPrecedence | frontend/components/ConnectionStatus.tsx:59-65 | offline or disconnected gives Offline whatever the ping or checking state |

## Left out

- yt-dlp downloads, their option dictionaries and the temporary-directory choice are foreign-library I/O. A download is an input function returning success or failure. The `ydl_opts` dictionary that `DownloadVideoMatches.py` builds only on non-Linux systems is part of that I/O and is not modelled.
- `GetMatches` (the HTTPS call to the FRC API) and the tbapy calls are network access. Their replies are inputs, and ISO-8601 timestamps are whole seconds.
- The `print` of the start time, all stdout and style output, output-directory creation, and loading of the `.env` file are I/O.
- In `generate_competition.py`: teams, the float power formula `100 - i^1.5 / sqrt(n)` with its clamp, and the prescout defaults of TeamInfo. All of these are random or float. Fuel, climbs and shuffles arrive as draws. Power only feeds those draws and the alliance's float `power` field, which `Alliances.Alliance` leaves out.
- Standings.TeamTotals: the float averages and the random accuracy stored after the totals are left out. The model stops at the integer totals they are divided from.
- Ranking points are integers. The source adds the floats 0.0, 1.0 and 2.0, which are exact for these values.
- The database's order among TeamInfo rows equal in both ranking points and wins is unspecified. The ranking is therefore an input that `Alliances.Ranked` constrains.
- Python `int()` also accepts surrounding whitespace, underscores between digits and non-ASCII digits. TbaImport's parser accepts ASCII text only, an optional sign and digits.
- A JSON null inside `team_keys`, or non-integer values inside `score_breakdown`, are not modelled. The keys are strings and the counters are integers.
- The `Match` table has no unique constraint on (competition, match number), and the generator saves several rows with match number 1 in one competition. With such rows, `update_or_create` raises `MultipleObjectsReturned`, and the event rolls back and is reported as failed. `TbaImport.Store` keys matches by (competition, match number), so it assumes at most one row per key and does not model that error.
- Match columns that `import_match` does not write are not part of `TbaImport.MatchRow`. When `update_or_create` creates a row they take their defaults; when it updates an existing row they keep that row's current values. The model does not capture either.
- ClipScript.ParseMinutes and ClipScript.ParseSeconds accept ASCII digits only. The `\d` of `strptime`'s pattern also matches other Unicode decimal digits, which the model rejects.
- MatchVideos.SortByStart fixes a stable order among matches with equal start times. `order_by('start_match_time')` leaves that order to the database.
- `toUpperCase` on non-ASCII letters (for example 'ß' becomes "SS", which changes the length) is not modelled. Only 'a' to 'z' are upper-cased.
- ConnectionQuality: a NaN ping is not modelled, since pings are reals. The icons are not modelled either; labels are a datatype, with `LabelText` giving their text.
- The ping-display timer and its state in `ConnectionStatus.tsx` are UI. The copies of the competition-code parsing in the settings and onboarding screens are not part of this model.
- DownloadVideoMatches.py reads `Matches[0]` out of bounds when the results list is empty. That is modelled as a crash of `RunScript`, as is any later out-of-range index.
- The generator's Django ORM persistence is modelled as the fields of `QualSchedule.QualGenerator` and sequences of saved rows, not as tables.
