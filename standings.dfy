/**
 * The bookkeeping of the competition generator: qualification match rows,
 * the win/loss/tie and ranking-point tally kept in each team's TeamInfo row,
 * the climb-point table and the per-team totals over played matches.
 *
 * Teams are named by their position in the generated team list (team number
 * 1000 + position). Ranking points are whole numbers (the source stores
 * 0.0, 1.0 and 2.0 increments in a float, which are exact).
 */
module Standings {
  import opened Wrappers

  /** One robot's slot in a match row: `<alliance>_<i>_auto_fuel`, `_teleop_fuel`, `_fuel_scored`, `_climb`. */
  datatype Robot = Robot(team: nat, autoFuel: int, teleopFuel: int, fuelScored: int, climb: string)

  /** A generated qualification match row; every generated match is saved as played. */
  datatype QualMatch = QualMatch(matchNumber: nat, blue: seq<Robot>, red: seq<Robot>, totalBlueFuels: int, totalRedFuels: int)

  /**
   * The random draws for one robot slot: auto and teleop fuel are truncated
   * non-negative products, fuel scored a truncated fraction (at most 0.98) of
   * their sum, the climb one of the four levels.
   */
  datatype RobotDraw = RobotDraw(autoFuel: nat, teleopFuel: nat, fuelScored: nat, climb: string)

  predicate ValidRobotDraw(d: RobotDraw) {
    d.fuelScored <= d.autoFuel + d.teleopFuel && d.climb in ["None", "L1", "L2", "L3"]
  }

  /** The robot rows of one alliance: slot i gets the i-th team and the i-th draw. */
  function Fill(teams: seq<nat>, draws: seq<RobotDraw>): (r: seq<Robot>)
    requires |teams| == |draws|
    ensures |r| == |teams|
    ensures forall k :: 0 <= k < |r| ==>
              r[k] == Robot(teams[k], draws[k].autoFuel, draws[k].teleopFuel, draws[k].fuelScored, draws[k].climb)
  {
    seq(|teams|, k requires 0 <= k < |teams| =>
      Robot(teams[k], draws[k].autoFuel, draws[k].teleopFuel, draws[k].fuelScored, draws[k].climb))
  }

  /** The counters of a TeamInfo row. */
  datatype TeamRecord = TeamRecord(win: int, lose: int, tie: int, rankingPoints: int)

  const NewRecord: TeamRecord := TeamRecord(0, 0, 0, 0)

  /** The sum of the alliance's robots' `fuel_scored`. */
  function AllianceFuel(robots: seq<Robot>): int
    decreases |robots|
  {
    if robots == [] then 0 else robots[0].fuelScored + AllianceFuel(robots[1..])
  }

  lemma AllianceFuelOfThree(robots: seq<Robot>)
    requires |robots| == 3
    ensures AllianceFuel(robots) == robots[0].fuelScored + robots[1].fuelScored + robots[2].fuelScored
  {
    var r1 := robots[1..];
    var r2 := r1[1..];
    assert r2[1..] == [];
    assert AllianceFuel(r2) == r2[0].fuelScored;
    assert AllianceFuel(r1) == r1[0].fuelScored + AllianceFuel(r2);
  }

  datatype MatchResult = Win | Loss | Tie

  /** What one match result adds to a team's counters: a win 2 RP, a tie 1 RP, a loss none. */
  function Credit(r: TeamRecord, o: MatchResult): TeamRecord {
    match o
    case Win => r.(win := r.win + 1, rankingPoints := r.rankingPoints + 2)
    case Loss => r.(lose := r.lose + 1)
    case Tie => r.(tie := r.tie + 1, rankingPoints := r.rankingPoints + 1)
  }

  predicate InRange(teams: seq<nat>, n: nat) {
    forall k :: 0 <= k < |teams| ==> teams[k] < n
  }

  predicate Distinct(teams: seq<nat>) {
    forall a, b :: 0 <= a < b < |teams| ==> teams[a] != teams[b]
  }

  /** `for team in teams: team_info.<result> += 1; team_info.ranking_points += rp`, in list order. */
  function CreditAll(rs: seq<TeamRecord>, teams: seq<nat>, o: MatchResult): (r: seq<TeamRecord>)
    requires InRange(teams, |rs|)
    ensures |r| == |rs|
    decreases |teams|
  {
    if teams == [] then rs
    else
      var before := CreditAll(rs, teams[..|teams| - 1], o);
      var t := teams[|teams| - 1];
      before[t := Credit(before[t], o)]
  }

  lemma DistinctPrefix(teams: seq<nat>)
    requires Distinct(teams) && teams != []
    ensures Distinct(teams[..|teams| - 1]) && teams[|teams| - 1] !in teams[..|teams| - 1]
  {
  }

  /** Each listed team (listed once) gets the result once; every other team is unchanged. */
  lemma {:induction false} CreditAllAt(rs: seq<TeamRecord>, teams: seq<nat>, o: MatchResult, x: nat)
    requires InRange(teams, |rs|) && Distinct(teams) && x < |rs|
    ensures CreditAll(rs, teams, o)[x] == if x in teams then Credit(rs[x], o) else rs[x]
    decreases |teams|
  {
    if teams != [] {
      var init := teams[..|teams| - 1];
      DistinctPrefix(teams);
      CreditAllAt(rs, init, o, x);
      assert x in teams <==> x == teams[|teams| - 1] || x in init;
    }
  }

  /** The result each alliance gets: the higher fuel total wins, equal totals tie. */
  function BlueResult(blueScore: int, redScore: int): MatchResult {
    if blueScore > redScore then Win else if redScore > blueScore then Loss else Tie
  }

  function Opposite(o: MatchResult): MatchResult {
    match o
    case Win => Loss
    case Loss => Win
    case Tie => Tie
  }

  /** The tally after one qualification match, in the order the source updates the rows. */
  function Tally(rs: seq<TeamRecord>, blue: seq<nat>, red: seq<nat>, blueScore: int, redScore: int): (r: seq<TeamRecord>)
    requires InRange(blue, |rs|) && InRange(red, |rs|)
    ensures |r| == |rs|
  {
    if blueScore > redScore then CreditAll(CreditAll(rs, blue, Win), red, Loss)
    else if redScore > blueScore then CreditAll(CreditAll(rs, blue, Loss), red, Win)
    else CreditAll(rs, blue + red, Tie)
  }

  /** With the six teams distinct, each blue team gets the blue result, each red team the opposite, the rest nothing. */
  lemma TallyAt(rs: seq<TeamRecord>, blue: seq<nat>, red: seq<nat>, blueScore: int, redScore: int, x: nat)
    requires InRange(blue, |rs|) && InRange(red, |rs|) && Distinct(blue + red) && x < |rs|
    ensures Tally(rs, blue, red, blueScore, redScore)[x] ==
              if x in blue then Credit(rs[x], BlueResult(blueScore, redScore))
              else if x in red then Credit(rs[x], Opposite(BlueResult(blueScore, redScore)))
              else rs[x]
  {
    var all := blue + red;
    assert Distinct(blue) by {
      forall a, b | 0 <= a < b < |blue| ensures blue[a] != blue[b] {
        assert blue[a] == all[a] && blue[b] == all[b];
      }
    }
    assert Distinct(red) by {
      forall a, b | 0 <= a < b < |red| ensures red[a] != red[b] {
        assert red[a] == all[|blue| + a] && red[b] == all[|blue| + b];
      }
    }
    assert x in blue ==> x !in red by {
      forall a, b | 0 <= a < |blue| && 0 <= b < |red| ensures blue[a] != red[b] {
        assert blue[a] == all[a] && red[b] == all[|blue| + b];
      }
    }
    assert InRange(all, |rs|);
    assert x in all <==> x in blue || x in red;
    if blueScore > redScore {
      CreditAllAt(rs, blue, Win, x);
      CreditAllAt(CreditAll(rs, blue, Win), red, Loss, x);
    } else if redScore > blueScore {
      CreditAllAt(rs, blue, Loss, x);
      CreditAllAt(CreditAll(rs, blue, Loss), red, Win, x);
    } else {
      CreditAllAt(rs, all, Tie, x);
    }
  }

  function Wins(rs: seq<TeamRecord>): int decreases |rs| { if rs == [] then 0 else Wins(rs[1..]) + rs[0].win }
  function Losses(rs: seq<TeamRecord>): int decreases |rs| { if rs == [] then 0 else Losses(rs[1..]) + rs[0].lose }
  function Ties(rs: seq<TeamRecord>): int decreases |rs| { if rs == [] then 0 else Ties(rs[1..]) + rs[0].tie }
  function Points(rs: seq<TeamRecord>): int decreases |rs| { if rs == [] then 0 else Points(rs[1..]) + rs[0].rankingPoints }

  /** Replacing one row changes each column total by that row's difference. */
  lemma {:induction false} TotalsUpdate(rs: seq<TeamRecord>, i: nat, v: TeamRecord)
    requires i < |rs|
    ensures Wins(rs[i := v]) == Wins(rs) - rs[i].win + v.win
    ensures Losses(rs[i := v]) == Losses(rs) - rs[i].lose + v.lose
    ensures Ties(rs[i := v]) == Ties(rs) - rs[i].tie + v.tie
    ensures Points(rs[i := v]) == Points(rs) - rs[i].rankingPoints + v.rankingPoints
    decreases |rs|
  {
    if i > 0 {
      TotalsUpdate(rs[1..], i - 1, v);
      assert rs[i := v][1..] == rs[1..][i - 1 := v];
    } else {
      assert rs[i := v][1..] == rs[1..];
    }
  }

  function WinsOf(o: MatchResult): int { if o == Win then 1 else 0 }
  function LossesOf(o: MatchResult): int { if o == Loss then 1 else 0 }
  function TiesOf(o: MatchResult): int { if o == Tie then 1 else 0 }
  function PointsOf(o: MatchResult): int { if o == Win then 2 else if o == Tie then 1 else 0 }

  /** Crediting k teams (repeats included) adds k times the result to each column. */
  lemma {:induction false} CreditAllTotals(rs: seq<TeamRecord>, teams: seq<nat>, o: MatchResult)
    requires InRange(teams, |rs|)
    ensures var r := CreditAll(rs, teams, o);
            && Wins(r) == Wins(rs) + |teams| * WinsOf(o)
            && Losses(r) == Losses(rs) + |teams| * LossesOf(o)
            && Ties(r) == Ties(rs) + |teams| * TiesOf(o)
            && Points(r) == Points(rs) + |teams| * PointsOf(o)
    decreases |teams|
  {
    if teams != [] {
      var init := teams[..|teams| - 1];
      var t := teams[|teams| - 1];
      CreditAllTotals(rs, init, o);
      var before := CreditAll(rs, init, o);
      TotalsUpdate(before, t, Credit(before[t], o));
    }
  }

  /**
   * Every qualification match hands out exactly 6 ranking points and six
   * results, and adds as many wins as losses.
   */
  lemma TallyTotals(rs: seq<TeamRecord>, blue: seq<nat>, red: seq<nat>, blueScore: int, redScore: int)
    requires InRange(blue, |rs|) && InRange(red, |rs|) && |blue| == 3 && |red| == 3
    ensures var r := Tally(rs, blue, red, blueScore, redScore);
            && Points(r) == Points(rs) + 6
            && Wins(r) - Losses(r) == Wins(rs) - Losses(rs)
            && Wins(r) + Losses(r) + Ties(r) == Wins(rs) + Losses(rs) + Ties(rs) + 6
  {
    if blueScore > redScore {
      CreditAllTotals(rs, blue, Win);
      CreditAllTotals(CreditAll(rs, blue, Win), red, Loss);
    } else if redScore > blueScore {
      CreditAllTotals(rs, blue, Loss);
      CreditAllTotals(CreditAll(rs, blue, Loss), red, Win);
    } else {
      assert InRange(blue + red, |rs|);
      CreditAllTotals(rs, blue + red, Tie);
    }
  }

  /** Ranking points are always two per win plus one per tie. */
  predicate PointsConsistent(rs: seq<TeamRecord>) {
    forall i :: 0 <= i < |rs| ==> rs[i].rankingPoints == 2 * rs[i].win + rs[i].tie
  }

  lemma {:induction false} CreditAllConsistent(rs: seq<TeamRecord>, teams: seq<nat>, o: MatchResult)
    requires InRange(teams, |rs|) && PointsConsistent(rs)
    ensures PointsConsistent(CreditAll(rs, teams, o))
    decreases |teams|
  {
    if teams != [] {
      CreditAllConsistent(rs, teams[..|teams| - 1], o);
    }
  }

  lemma TallyConsistent(rs: seq<TeamRecord>, blue: seq<nat>, red: seq<nat>, blueScore: int, redScore: int)
    requires InRange(blue, |rs|) && InRange(red, |rs|) && PointsConsistent(rs)
    ensures PointsConsistent(Tally(rs, blue, red, blueScore, redScore))
  {
    if blueScore > redScore {
      CreditAllConsistent(rs, blue, Win);
      CreditAllConsistent(CreditAll(rs, blue, Win), red, Loss);
    } else if redScore > blueScore {
      CreditAllConsistent(rs, blue, Loss);
      CreditAllConsistent(CreditAll(rs, blue, Loss), red, Win);
    } else {
      assert InRange(blue + red, |rs|);
      CreditAllConsistent(rs, blue + red, Tie);
    }
  }

  /** The climb table of the statistics pass: L1 3 points, L2 6, L3 10, anything else 0. */
  function ClimbPoints(climb: string): nat {
    if climb == "L1" then 3 else if climb == "L2" then 6 else if climb == "L3" then 10 else 0
  }

  /** A higher level is worth more, and only the three levels score. */
  lemma ClimbPointsOrdered(climb: string)
    ensures ClimbPoints("None") < ClimbPoints("L1") < ClimbPoints("L2") < ClimbPoints("L3")
    ensures ClimbPoints(climb) > 0 <==> climb == "L1" || climb == "L2" || climb == "L3"
    ensures ClimbPoints(climb) <= 10
  {
  }

  /**
   * The slot a team fills in a match, searched as the statistics pass does:
   * blue 1, red 1, blue 2, red 2, blue 3, red 3, first hit wins.
   */
  function SlotFrom(m: QualMatch, team: nat, i: nat): Option<Robot>
    decreases 3 - i
  {
    if i >= 3 then None
    else if i < |m.blue| && m.blue[i].team == team then Some(m.blue[i])
    else if i < |m.red| && m.red[i].team == team then Some(m.red[i])
    else SlotFrom(m, team, i + 1)
  }

  function SlotOf(m: QualMatch, team: nat): Option<Robot> {
    SlotFrom(m, team, 0)
  }

  /** The four running totals of the statistics pass for one team. */
  datatype Totals = Totals(fuel: int, autoFuel: int, climbPoints: int, matchCount: nat)

  /** The totals over a list of matches, one match at a time. */
  function TotalsOver(ms: seq<QualMatch>, team: nat): Totals
    decreases |ms|
  {
    if ms == [] then Totals(0, 0, 0, 0)
    else
      var t := TotalsOver(ms[..|ms| - 1], team);
      match SlotOf(ms[|ms| - 1], team)
      case None => t
      case Some(r) => Totals(t.fuel + r.fuelScored, t.autoFuel + r.autoFuel, t.climbPoints + ClimbPoints(r.climb), t.matchCount + 1)
  }

  /** At most 10 climb points per match played, and no more matches than there are. */
  lemma {:induction false} TotalsBounds(ms: seq<QualMatch>, team: nat)
    ensures 0 <= TotalsOver(ms, team).climbPoints <= 10 * TotalsOver(ms, team).matchCount
    ensures TotalsOver(ms, team).matchCount <= |ms|
    decreases |ms|
  {
    if ms != [] {
      TotalsBounds(ms[..|ms| - 1], team);
    }
  }

  /**
   * The statistics pass for one team: over the played matches it appears in,
   * add up fuel scored, auto fuel and climb points and count the matches.
   * (The averages it then stores are float divisions.)
   */
  method TeamTotals(ms: seq<QualMatch>, team: nat) returns (t: Totals)
    ensures t == TotalsOver(ms, team)
  {
    var totalFuel, totalAutoFuel, totalClimbPoints, matchCount := 0, 0, 0, 0;
    var i := 0;
    while i < |ms|
      invariant 0 <= i <= |ms|
      invariant Totals(totalFuel, totalAutoFuel, totalClimbPoints, matchCount) == TotalsOver(ms[..i], team)
    {
      assert ms[..i + 1][..i] == ms[..i];
      var slot := SlotOf(ms[i], team);
      if slot.Some? {
        var r := slot.value;
        totalFuel := totalFuel + r.fuelScored;
        totalAutoFuel := totalAutoFuel + r.autoFuel;
        totalClimbPoints := totalClimbPoints + ClimbPoints(r.climb);
        matchCount := matchCount + 1;
      }
      i := i + 1;
    }
    assert ms[..i] == ms;
    t := Totals(totalFuel, totalAutoFuel, totalClimbPoints, matchCount);
  }
}
