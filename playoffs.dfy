/**
 * The double-elimination playoff of the competition generator: four upper
 * quarterfinals (1 v 8, 4 v 5, 2 v 7, 3 v 6), two upper semifinals, two
 * rounds of the lower bracket, the lower final, the upper final and the grand
 * final, with a second grand final when the lower-bracket finalist wins the
 * first. A match goes to blue only when blue scores strictly more fuel.
 *
 * The robots' random draws are inputs, indexed by the order in which the
 * matches are created (0 for the first quarterfinal, up to 13 for the
 * bracket reset).
 */
module Playoffs {
  import opened Wrappers
  import opened Standings
  import opened Alliances

  datatype MatchType = Quarterfinal | Semifinal | Final

  /** A saved playoff match row, with the two alliances that played it. */
  datatype PlayoffMatch = PlayoffMatch(
    matchType: MatchType, setNumber: nat, matchNumber: nat,
    blueAlliance: Alliance, redAlliance: Alliance,
    blue: seq<Robot>, red: seq<Robot>, totalBlueFuels: int, totalRedFuels: int)

  /** The robot draws of one playoff match, three per alliance. */
  datatype PlayoffDraw = PlayoffDraw(blue: seq<RobotDraw>, red: seq<RobotDraw>)

  predicate ValidPlayoffDraw(d: PlayoffDraw) {
    |d.blue| == 3 && |d.red| == 3 && (forall k :: 0 <= k < 3 ==> ValidRobotDraw(d.blue[k]) && ValidRobotDraw(d.red[k]))
  }

  /** The alliance that takes the match: blue on strictly more fuel, red otherwise (a tie goes to red). */
  function Winner(m: PlayoffMatch): Alliance {
    if m.totalBlueFuels > m.totalRedFuels then m.blueAlliance else m.redAlliance
  }

  function Loser(m: PlayoffMatch): Alliance {
    if m.totalBlueFuels > m.totalRedFuels then m.redAlliance else m.blueAlliance
  }

  /** The winner and the loser are the two alliances that played, one each. */
  lemma WinnerAndLoser(m: PlayoffMatch)
    ensures {Winner(m), Loser(m)} == {m.blueAlliance, m.redAlliance}
    ensures Winner(m) == m.blueAlliance <==> (m.totalBlueFuels > m.totalRedFuels || m.blueAlliance == m.redAlliance)
  {
  }

  /** The fuel scored by three drawn robots. */
  function DrawFuel(ds: seq<RobotDraw>): int
    requires |ds| == 3
  {
    ds[0].fuelScored + ds[1].fuelScored + ds[2].fuelScored
  }

  /** An alliance total is the sum of its robots' `fuel_scored`. */
  lemma DrawFuelIsAllianceFuel(teams: seq<nat>, ds: seq<RobotDraw>)
    requires |teams| == 3 && |ds| == 3
    ensures AllianceFuel(Fill(teams, ds)) == DrawFuel(ds)
  {
    AllianceFuelOfThree(Fill(teams, ds));
  }

  /** The row saved for one playoff match. */
  function Row(blue: Alliance, red: Alliance, t: MatchType, setNum: nat, matchNum: nat, d: PlayoffDraw): (m: PlayoffMatch)
    requires ValidPlayoffDraw(d)
    ensures m.totalBlueFuels == AllianceFuel(m.blue) && m.totalRedFuels == AllianceFuel(m.red)
  {
    DrawFuelIsAllianceFuel(Teams(blue), d.blue);
    DrawFuelIsAllianceFuel(Teams(red), d.red);
    PlayoffMatch(t, setNum, matchNum, blue, red, Fill(Teams(blue), d.blue), Fill(Teams(red), d.red), DrawFuel(d.blue), DrawFuel(d.red))
  }

  /**
   * `create_playoff_match`: seat the two alliances' robots, save the row and
   * name the winner and the loser.
   */
  method CreatePlayoffMatch(blue: Alliance, red: Alliance, t: MatchType, setNum: nat, matchNum: nat, d: PlayoffDraw)
    returns (m: PlayoffMatch, winner: Alliance, loser: Alliance)
    requires ValidPlayoffDraw(d)
    ensures m == Row(blue, red, t, setNum, matchNum, d)
    ensures winner == Winner(m) && loser == Loser(m)
    ensures m.totalBlueFuels > m.totalRedFuels ==> winner == blue && loser == red
    ensures m.totalBlueFuels <= m.totalRedFuels ==> winner == red && loser == blue
  {
    var b := Fill(Teams(blue), d.blue);
    var r := Fill(Teams(red), d.red);
    DrawFuelIsAllianceFuel(Teams(blue), d.blue);
    DrawFuelIsAllianceFuel(Teams(red), d.red);
    m := PlayoffMatch(t, setNum, matchNum, blue, red, b, r, AllianceFuel(b), AllianceFuel(r));
    if m.totalBlueFuels > m.totalRedFuels {
      winner, loser := blue, red;
    } else {
      winner, loser := red, blue;
    }
  }

  predicate Pair(m: PlayoffMatch, blue: Alliance, red: Alliance) {
    m.blueAlliance == blue && m.redAlliance == red
  }

  /**
   * Who plays whom, in creation order: quarterfinals 1 v 8, 4 v 5, 2 v 7,
   * 3 v 6; upper semifinals between quarterfinal winners; lower round 1
   * between quarterfinal losers; lower round 2 between those winners and the
   * semifinal losers; the lower final; the upper final; the grand final of
   * upper finalist (blue) against lower finalist (red); and a second grand
   * final between the same two exactly when the lower finalist wins the first.
   */
  predicate IsBracket(al: seq<Alliance>, ms: seq<PlayoffMatch>) {
    && |al| >= 8 && (|ms| == 13 || |ms| == 14)
    && Pair(ms[0], al[0], al[7]) && Pair(ms[1], al[3], al[4])
    && Pair(ms[2], al[1], al[6]) && Pair(ms[3], al[2], al[5])
    && Pair(ms[4], Winner(ms[0]), Winner(ms[1])) && Pair(ms[5], Winner(ms[2]), Winner(ms[3]))
    && Pair(ms[6], Loser(ms[0]), Loser(ms[1])) && Pair(ms[7], Loser(ms[2]), Loser(ms[3]))
    && Pair(ms[8], Winner(ms[6]), Loser(ms[4])) && Pair(ms[9], Winner(ms[7]), Loser(ms[5]))
    && Pair(ms[10], Winner(ms[8]), Winner(ms[9]))
    && Pair(ms[11], Winner(ms[4]), Winner(ms[5]))
    && Pair(ms[12], Winner(ms[11]), Winner(ms[10]))
    && (|ms| == 14 <==> Winner(ms[12]) == Winner(ms[10]))
    && (|ms| == 14 ==> Pair(ms[13], Winner(ms[11]), Winner(ms[10])))
  }

  /** The (type, set, match) key each match is saved under, in creation order. */
  const PlayoffKeys: seq<(MatchType, nat, nat)> := [
    (Quarterfinal, 1, 1), (Quarterfinal, 1, 2), (Quarterfinal, 1, 3), (Quarterfinal, 1, 4),
    (Semifinal, 1, 5), (Semifinal, 1, 6),
    (Quarterfinal, 2, 1), (Quarterfinal, 2, 2),
    (Semifinal, 2, 3), (Semifinal, 2, 4),
    (Semifinal, 3, 1),
    (Final, 1, 7),
    (Final, 4, 1), (Final, 4, 2)]

  /** Row k is the row of its two alliances under the k-th key and the k-th draws. */
  predicate RowAt(m: PlayoffMatch, k: nat, draw: nat -> PlayoffDraw)
    requires k < 14 && forall k: nat :: ValidPlayoffDraw(draw(k))
  {
    m == Row(m.blueAlliance, m.redAlliance, PlayoffKeys[k].0, PlayoffKeys[k].1, PlayoffKeys[k].2, draw(k))
  }

  /** Every saved row is the row of its two alliances, its key and its draws. */
  predicate RowsFrom(ms: seq<PlayoffMatch>, draw: nat -> PlayoffDraw)
    requires forall k: nat :: ValidPlayoffDraw(draw(k))
    decreases |ms|
  {
    |ms| <= 14 && (ms == [] || (RowsFrom(ms[..|ms| - 1], draw) && RowAt(ms[|ms| - 1], |ms| - 1, draw)))
  }

  lemma {:induction false} RowsFromAt(ms: seq<PlayoffMatch>, draw: nat -> PlayoffDraw, k: nat)
    requires forall k: nat :: ValidPlayoffDraw(draw(k))
    requires RowsFrom(ms, draw) && k < |ms|
    ensures RowAt(ms[k], k, draw)
    decreases |ms|
  {
    if k < |ms| - 1 {
      var prefix := ms[..|ms| - 1];
      assert RowsFrom(prefix, draw) && prefix[k] == ms[k];
      RowsFromAt(prefix, draw, k);
    }
  }

  function Key(m: PlayoffMatch): (MatchType, nat, nat) {
    (m.matchType, m.setNumber, m.matchNumber)
  }

  /** The fourteen keys are pairwise different. */
  lemma PlayoffKeysDistinct()
    ensures forall i, j :: 0 <= i < j < |PlayoffKeys| ==> PlayoffKeys[i] != PlayoffKeys[j]
  {
    forall i | 0 <= i < |PlayoffKeys| ensures forall j :: i < j < |PlayoffKeys| ==> PlayoffKeys[i] != PlayoffKeys[j] {
      KeyDiffersFromLater(i);
    }
  }

  lemma KeyDiffersFromLater(i: nat)
    requires i < |PlayoffKeys|
    ensures forall j :: i < j < |PlayoffKeys| ==> PlayoffKeys[i] != PlayoffKeys[j]
  {
  }

  /** No two playoff matches share a (type, set, match) key. */
  lemma KeysDistinct(ms: seq<PlayoffMatch>, draw: nat -> PlayoffDraw)
    requires forall k: nat :: ValidPlayoffDraw(draw(k))
    requires RowsFrom(ms, draw)
    ensures forall i, j :: 0 <= i < j < |ms| ==> Key(ms[i]) != Key(ms[j])
  {
    PlayoffKeysDistinct();
    forall i, j | 0 <= i < j < |ms| ensures Key(ms[i]) != Key(ms[j]) {
      RowsFromAt(ms, draw, i);
      RowsFromAt(ms, draw, j);
      assert Key(ms[i]) == PlayoffKeys[i] && Key(ms[j]) == PlayoffKeys[j];
    }
  }

  /** Appends a saved row, keeping every row tied to its key and draws. */
  function Saved(ms: seq<PlayoffMatch>, m: PlayoffMatch, draw: nat -> PlayoffDraw): (r: seq<PlayoffMatch>)
    requires forall k: nat :: ValidPlayoffDraw(draw(k))
    requires RowsFrom(ms, draw) && |ms| < 14
    requires RowAt(m, |ms|, draw)
    ensures r == ms + [m] && RowsFrom(r, draw)
  {
    assert (ms + [m])[..|ms|] == ms;
    ms + [m]
  }

  /**
   * `create_playoff_match` as the bracket calls it: the row is saved under
   * the next key, between the two given alliances, and the winner and the
   * loser are handed back.
   */
  method SavePlayoffMatch(played: seq<PlayoffMatch>, blue: Alliance, red: Alliance, t: MatchType, setNum: nat, matchNum: nat,
                          draw: nat -> PlayoffDraw)
    returns (next: seq<PlayoffMatch>, winner: Alliance, loser: Alliance)
    requires forall k: nat :: ValidPlayoffDraw(draw(k))
    requires RowsFrom(played, draw) && |played| < 14 && PlayoffKeys[|played|] == (t, setNum, matchNum)
    ensures |next| == |played| + 1 && next == played + [next[|played|]] && RowsFrom(next, draw)
    ensures Pair(next[|played|], blue, red)
    ensures winner == Winner(next[|played|]) && loser == Loser(next[|played|])
  {
    var m;
    m, winner, loser := CreatePlayoffMatch(blue, red, t, setNum, matchNum, draw(|played|));
    next := Saved(played, m, draw);
  }

  // The stages of the bracket, one predicate per round, over the rows saved so far.

  predicate QuarterfinalsPlayed(al: seq<Alliance>, ms: seq<PlayoffMatch>) {
    |al| >= 8 && |ms| >= 4 &&
    Pair(ms[0], al[0], al[7]) && Pair(ms[1], al[3], al[4]) && Pair(ms[2], al[1], al[6]) && Pair(ms[3], al[2], al[5])
  }

  predicate SemifinalsPlayed(ms: seq<PlayoffMatch>) {
    |ms| >= 6 && Pair(ms[4], Winner(ms[0]), Winner(ms[1])) && Pair(ms[5], Winner(ms[2]), Winner(ms[3]))
  }

  predicate LowerRoundOnePlayed(ms: seq<PlayoffMatch>) {
    |ms| >= 8 && Pair(ms[6], Loser(ms[0]), Loser(ms[1])) && Pair(ms[7], Loser(ms[2]), Loser(ms[3]))
  }

  predicate LowerRoundTwoPlayed(ms: seq<PlayoffMatch>) {
    |ms| >= 10 && Pair(ms[8], Winner(ms[6]), Loser(ms[4])) && Pair(ms[9], Winner(ms[7]), Loser(ms[5]))
  }

  predicate FinalsPlayed(ms: seq<PlayoffMatch>) {
    |ms| >= 13 && Pair(ms[10], Winner(ms[8]), Winner(ms[9])) && Pair(ms[11], Winner(ms[4]), Winner(ms[5]))
    && Pair(ms[12], Winner(ms[11]), Winner(ms[10]))
  }

  datatype Playoff = Playoff(matches: seq<PlayoffMatch>, champion: Alliance)

  datatype PlayoffError = IndexError

  /** The four upper quarterfinals; each winner goes to the upper list, each loser to the lower bracket. */
  method PlayQuarterfinals(alliances: seq<Alliance>, draw: nat -> PlayoffDraw)
    returns (played: seq<PlayoffMatch>, upperQfWinners: seq<Alliance>, lowerBracket: seq<Alliance>)
    requires forall k: nat :: ValidPlayoffDraw(draw(k))
    requires |alliances| >= 8
    ensures |played| == 4 && RowsFrom(played, draw) && QuarterfinalsPlayed(alliances, played)
    ensures upperQfWinners == [Winner(played[0]), Winner(played[1]), Winner(played[2]), Winner(played[3])]
    ensures lowerBracket == [Loser(played[0]), Loser(played[1]), Loser(played[2]), Loser(played[3])]
  {
    played, upperQfWinners, lowerBracket := [], [], [];
    var winner, loser;
    played, winner, loser := SavePlayoffMatch(played, alliances[0], alliances[7], Quarterfinal, 1, 1, draw);
    upperQfWinners, lowerBracket := upperQfWinners + [winner], lowerBracket + [loser];
    played, winner, loser := SavePlayoffMatch(played, alliances[3], alliances[4], Quarterfinal, 1, 2, draw);
    upperQfWinners, lowerBracket := upperQfWinners + [winner], lowerBracket + [loser];
    played, winner, loser := SavePlayoffMatch(played, alliances[1], alliances[6], Quarterfinal, 1, 3, draw);
    upperQfWinners, lowerBracket := upperQfWinners + [winner], lowerBracket + [loser];
    played, winner, loser := SavePlayoffMatch(played, alliances[2], alliances[5], Quarterfinal, 1, 4, draw);
    upperQfWinners, lowerBracket := upperQfWinners + [winner], lowerBracket + [loser];
  }

  /** The two upper semifinals between quarterfinal winners; their losers join the lower bracket. */
  method PlayUpperSemifinals(alliances: seq<Alliance>, before: seq<PlayoffMatch>, upperQfWinners: seq<Alliance>,
                             lowerBefore: seq<Alliance>, draw: nat -> PlayoffDraw)
    returns (played: seq<PlayoffMatch>, upperSfWinners: seq<Alliance>, lowerBracket: seq<Alliance>)
    requires forall k: nat :: ValidPlayoffDraw(draw(k))
    requires |before| == 4 && RowsFrom(before, draw) && QuarterfinalsPlayed(alliances, before)
    requires upperQfWinners == [Winner(before[0]), Winner(before[1]), Winner(before[2]), Winner(before[3])]
    ensures |played| == 6 && played[..4] == before && RowsFrom(played, draw)
    ensures QuarterfinalsPlayed(alliances, played) && SemifinalsPlayed(played)
    ensures upperSfWinners == [Winner(played[4]), Winner(played[5])]
    ensures lowerBracket == lowerBefore + [Loser(played[4]), Loser(played[5])]
  {
    played, upperSfWinners, lowerBracket := before, [], lowerBefore;
    var winner, loser;
    played, winner, loser := SavePlayoffMatch(played, upperQfWinners[0], upperQfWinners[1], Semifinal, 1, 5, draw);
    upperSfWinners, lowerBracket := upperSfWinners + [winner], lowerBracket + [loser];
    played, winner, loser := SavePlayoffMatch(played, upperQfWinners[2], upperQfWinners[3], Semifinal, 1, 6, draw);
    upperSfWinners, lowerBracket := upperSfWinners + [winner], lowerBracket + [loser];
  }

  /** Lower round 1: the quarterfinal losers, first against second and third against fourth. */
  method PlayLowerRoundOne(alliances: seq<Alliance>, before: seq<PlayoffMatch>, lowerBracket: seq<Alliance>, draw: nat -> PlayoffDraw)
    returns (played: seq<PlayoffMatch>, lowerR1Winners: seq<Alliance>)
    requires forall k: nat :: ValidPlayoffDraw(draw(k))
    requires |before| == 6 && RowsFrom(before, draw)
    requires QuarterfinalsPlayed(alliances, before) && SemifinalsPlayed(before)
    requires |lowerBracket| >= 4 && lowerBracket[..4] == [Loser(before[0]), Loser(before[1]), Loser(before[2]), Loser(before[3])]
    ensures |played| == 8 && played[..6] == before && RowsFrom(played, draw)
    ensures QuarterfinalsPlayed(alliances, played) && SemifinalsPlayed(played) && LowerRoundOnePlayed(played)
    ensures lowerR1Winners == [Winner(played[6]), Winner(played[7])]
  {
    played, lowerR1Winners := before, [];
    var winner, loser;
    played, winner, loser := SavePlayoffMatch(played, lowerBracket[0], lowerBracket[1], Quarterfinal, 2, 1, draw);
    lowerR1Winners := lowerR1Winners + [winner];
    played, winner, loser := SavePlayoffMatch(played, lowerBracket[2], lowerBracket[3], Quarterfinal, 2, 2, draw);
    lowerR1Winners := lowerR1Winners + [winner];
    assert played[..6] == before;
  }

  /** Lower round 2: each round-1 winner against an upper semifinal loser. */
  method PlayLowerRoundTwo(alliances: seq<Alliance>, before: seq<PlayoffMatch>, lowerBracket: seq<Alliance>,
                           lowerR1Winners: seq<Alliance>, draw: nat -> PlayoffDraw)
    returns (played: seq<PlayoffMatch>, lowerR2Winners: seq<Alliance>)
    requires forall k: nat :: ValidPlayoffDraw(draw(k))
    requires |before| == 8 && RowsFrom(before, draw)
    requires QuarterfinalsPlayed(alliances, before) && SemifinalsPlayed(before) && LowerRoundOnePlayed(before)
    requires |lowerBracket| == 6 && lowerBracket[4..] == [Loser(before[4]), Loser(before[5])]
    requires lowerR1Winners == [Winner(before[6]), Winner(before[7])]
    ensures |played| == 10 && played[..8] == before && RowsFrom(played, draw)
    ensures QuarterfinalsPlayed(alliances, played) && SemifinalsPlayed(played)
    ensures LowerRoundOnePlayed(played) && LowerRoundTwoPlayed(played)
    ensures lowerR2Winners == [Winner(played[8]), Winner(played[9])]
  {
    played, lowerR2Winners := before, [];
    var winner, loser;
    played, winner, loser := SavePlayoffMatch(played, lowerR1Winners[0], lowerBracket[4], Semifinal, 2, 3, draw);
    lowerR2Winners := lowerR2Winners + [winner];
    played, winner, loser := SavePlayoffMatch(played, lowerR1Winners[1], lowerBracket[5], Semifinal, 2, 4, draw);
    lowerR2Winners := lowerR2Winners + [winner];
    assert played[..8] == before;
  }

  /** The lower final, the upper final, the grand final and, when the lower finalist takes it, the reset. */
  method PlayFinals(alliances: seq<Alliance>, before: seq<PlayoffMatch>, upperSfWinners: seq<Alliance>,
                    lowerR2Winners: seq<Alliance>, draw: nat -> PlayoffDraw)
    returns (played: seq<PlayoffMatch>, champion: Alliance)
    requires forall k: nat :: ValidPlayoffDraw(draw(k))
    requires |before| == 10 && RowsFrom(before, draw)
    requires QuarterfinalsPlayed(alliances, before) && SemifinalsPlayed(before)
    requires LowerRoundOnePlayed(before) && LowerRoundTwoPlayed(before)
    requires upperSfWinners == [Winner(before[4]), Winner(before[5])]
    requires lowerR2Winners == [Winner(before[8]), Winner(before[9])]
    ensures IsBracket(alliances, played) && RowsFrom(played, draw)
    ensures champion == Winner(played[|played| - 1])
  {
    played := before;
    var loser, lowerFinalist, upperFinalist;
    played, lowerFinalist, loser := SavePlayoffMatch(played, lowerR2Winners[0], lowerR2Winners[1], Semifinal, 3, 1, draw);
    played, upperFinalist, loser := SavePlayoffMatch(played, upperSfWinners[0], upperSfWinners[1], Final, 1, 7, draw);
    played, champion, loser := SavePlayoffMatch(played, upperFinalist, lowerFinalist, Final, 4, 1, draw);
    assert played[..10] == before;
    if champion == lowerFinalist {
      var first := played;
      played, champion, loser := SavePlayoffMatch(played, upperFinalist, lowerFinalist, Final, 4, 2, draw);
      assert played[..13] == first;
    }
  }

  /**
   * The bracket as the command plays it, keeping the lists of quarterfinal
   * winners, lower-bracket entrants and round winners. With fewer than eight
   * alliances the first quarterfinal's `alliances[7]` fails.
   */
  method RunBracket(alliances: seq<Alliance>, draw: nat -> PlayoffDraw) returns (r: Result<Playoff, PlayoffError>)
    requires forall k: nat :: ValidPlayoffDraw(draw(k))
    ensures r.Err? <==> |alliances| < 8
    ensures r.Ok? ==> IsBracket(alliances, r.value.matches) && RowsFrom(r.value.matches, draw)
    ensures r.Ok? ==> r.value.champion == Winner(r.value.matches[|r.value.matches| - 1])
  {
    if |alliances| < 8 {
      return Err(IndexError);
    }
    var played, upperQfWinners, lowerBracket := PlayQuarterfinals(alliances, draw);
    var upperSfWinners;
    played, upperSfWinners, lowerBracket := PlayUpperSemifinals(alliances, played, upperQfWinners, lowerBracket, draw);
    var lowerR1Winners, lowerR2Winners;
    played, lowerR1Winners := PlayLowerRoundOne(alliances, played, lowerBracket, draw);
    played, lowerR2Winners := PlayLowerRoundTwo(alliances, played, lowerBracket, lowerR1Winners, draw);
    var champion;
    played, champion := PlayFinals(alliances, played, upperSfWinners, lowerR2Winners, draw);
    return Ok(Playoff(played, champion));
  }

  /** The eight alliances are pairwise different. */
  predicate DistinctAlliances(al: seq<Alliance>) {
    |al| >= 8 && forall i, j :: 0 <= i < j < 8 ==> al[i] != al[j]
  }

  /**
   * Every alliance knocked out in the lower bracket (lower rounds 1 and 2 and
   * the lower final) had already lost a match in the upper bracket.
   */
  lemma LowerBracketLosersLostTwice(al: seq<Alliance>, ms: seq<PlayoffMatch>)
    requires IsBracket(al, ms)
    ensures forall k :: 6 <= k <= 10 ==> Loser(ms[k]) in UpperLosers(ms)
  {
    LowerEntrants(al, ms);
  }

  /** The alliances that lost a quarterfinal or an upper semifinal. */
  function UpperLosers(ms: seq<PlayoffMatch>): set<Alliance>
    requires |ms| >= 6
  {
    {Loser(ms[0]), Loser(ms[1]), Loser(ms[2]), Loser(ms[3]), Loser(ms[4]), Loser(ms[5])}
  }

  /** Both alliances of every lower-bracket match lost in the upper bracket. */
  lemma LowerEntrants(al: seq<Alliance>, ms: seq<PlayoffMatch>)
    requires IsBracket(al, ms)
    ensures forall k :: 6 <= k <= 10 ==> Winner(ms[k]) in UpperLosers(ms) && Loser(ms[k]) in UpperLosers(ms)
  {
    var lower := UpperLosers(ms);
    forall k | 6 <= k <= 10 ensures ms[k].blueAlliance in lower && ms[k].redAlliance in lower {
    }
  }

  /** No quarterfinal loser is a quarterfinal winner, and the two upper semifinals share no alliance. */
  lemma QuarterfinalsSplit(al: seq<Alliance>, ms: seq<PlayoffMatch>)
    requires DistinctAlliances(al) && IsBracket(al, ms)
    ensures forall i, j :: 0 <= i < 4 && 0 <= j < 4 ==> Loser(ms[i]) != Winner(ms[j])
    ensures ms[4].blueAlliance != ms[5].blueAlliance && ms[4].blueAlliance != ms[5].redAlliance
    ensures ms[4].redAlliance != ms[5].blueAlliance && ms[4].redAlliance != ms[5].redAlliance
  {
  }

  /**
   * The alliance that loses the upper final loses no other match: it leaves
   * the bracket after a single loss, unlike every lower-bracket elimination.
   */
  lemma UpperFinalLoserLosesOnce(al: seq<Alliance>, ms: seq<PlayoffMatch>)
    requires DistinctAlliances(al) && IsBracket(al, ms)
    ensures forall k :: 0 <= k < |ms| && k != 11 ==> Loser(ms[k]) != Loser(ms[11])
  {
    var u := Loser(ms[11]);
    QuarterfinalsSplit(al, ms);
    LowerEntrants(al, ms);
    assert u in {Winner(ms[4]), Winner(ms[5])};
    assert u !in UpperLosers(ms);
    forall k | 0 <= k < |ms| && k != 11 ensures Loser(ms[k]) != u {
      if k < 6 {
        assert Loser(ms[k]) in UpperLosers(ms);
      } else if k > 11 {
        assert Loser(ms[k]) in {Winner(ms[11]), Winner(ms[10])};
      }
    }
  }

  /** With no reset the champion is the upper finalist; with a reset it is whoever takes the second grand final. */
  lemma ChampionComesFromGrandFinal(al: seq<Alliance>, ms: seq<PlayoffMatch>)
    requires IsBracket(al, ms)
    ensures var champion := Winner(ms[|ms| - 1]);
            && (|ms| == 13 ==> champion == Winner(ms[11]))
            && (champion == Winner(ms[11]) || champion == Winner(ms[10]))
  {
  }
}
