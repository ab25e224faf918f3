/**
 * The qualification schedule of the competition generator. Each match takes
 * the six teams that have played the fewest matches so far (ties broken by
 * position in the team list, because the sort is stable), shuffles them into
 * a blue and a red alliance, draws the robots' numbers, bumps the six teams'
 * match counts and tallies the result into their TeamInfo rows.
 *
 * The random draws (the shuffle order and each robot's fuel and climb) are
 * inputs; a team is its position in the team list.
 */
module QualSchedule {
  import opened Standings

  /** `(num_teams * matches_per_team) // 6`; Python's floor division is Dafny's for a positive divisor. */
  function QualMatchCount(numTeams: int, perTeam: int): int {
    (numTeams * perTeam) / 6
  }

  // ---------------------------------------------------------------------
  // Picking the six teams with the fewest matches

  /** Team i sorts before team j: fewer matches, or as many and earlier in the list. */
  predicate Before(counts: seq<int>, i: nat, j: nat) {
    i < |counts| && j < |counts| && (counts[i] < counts[j] || (counts[i] == counts[j] && i < j))
  }

  predicate SortedBy(counts: seq<int>, order: seq<nat>) {
    forall a, b :: 0 <= a < b < |order| ==> Before(counts, order[a], order[b])
  }

  function Insert(counts: seq<int>, order: seq<nat>, i: nat): (r: seq<nat>)
    ensures |r| == |order| + 1
    decreases |order|
  {
    if order == [] then [i]
    else if Before(counts, i, order[0]) then [i] + order
    else [order[0]] + Insert(counts, order[1..], i)
  }

  /** The stable sort by match count of the first k team positions. */
  function SortTeams(counts: seq<int>, k: nat): (r: seq<nat>)
    requires k <= |counts|
    ensures |r| == k
  {
    if k == 0 then [] else Insert(counts, SortTeams(counts, k - 1), k - 1)
  }

  lemma {:induction false} InsertSorted(counts: seq<int>, order: seq<nat>, i: nat)
    requires SortedBy(counts, order) && i < |counts| && i !in order
    requires forall x :: x in order ==> x < |counts|
    ensures SortedBy(counts, Insert(counts, order, i))
    ensures |Insert(counts, order, i)| == |order| + 1
    ensures forall x :: x in Insert(counts, order, i) <==> x in order || x == i
    decreases |order|
  {
    if order != [] && !Before(counts, i, order[0]) {
      var rest := order[1..];
      assert SortedBy(counts, rest);
      InsertSorted(counts, rest, i);
      var r := Insert(counts, order, i);
      assert r == [order[0]] + Insert(counts, rest, i);
      assert order[0] in order && i != order[0];
      assert Before(counts, order[0], i);
      forall x | x in rest ensures Before(counts, order[0], x) {
        var b :| 0 <= b < |rest| && rest[b] == x;
        assert order[b + 1] == x;
      }
      forall x ensures x in order <==> x == order[0] || x in rest {
        assert order == [order[0]] + rest;
      }
    }
  }

  /** The sort yields every position below k exactly once, in (count, position) order. */
  lemma {:induction false} SortTeamsCorrect(counts: seq<int>, k: nat)
    requires k <= |counts|
    ensures SortedBy(counts, SortTeams(counts, k))
    ensures |SortTeams(counts, k)| == k
    ensures forall x: nat :: x in SortTeams(counts, k) <==> x < k
  {
    if k > 0 {
      var prev := SortTeams(counts, k - 1);
      SortTeamsCorrect(counts, k - 1);
      assert k - 1 !in prev;
      InsertSorted(counts, prev, k - 1);
      assert SortTeams(counts, k) == Insert(counts, prev, k - 1);
    }
  }

  /** The six teams a match draws: the first six of the stable sort by match count. */
  function Fewest(counts: seq<int>): (r: seq<nat>)
    requires |counts| >= 6
    ensures |r| == 6 && Distinct(r) && InRange(r, |counts|)
  {
    var order := SortTeams(counts, |counts|);
    SortTeamsCorrect(counts, |counts|);
    assert forall k :: 0 <= k < 6 ==> order[k] in order;
    order[..6]
  }

  /**
   * The six picked teams are distinct team positions, and no team left out
   * has played fewer matches than any team picked.
   */
  lemma FewestAreFewest(counts: seq<int>)
    requires |counts| >= 6
    ensures forall i: nat, j: nat :: i in Fewest(counts) && j !in Fewest(counts) && i < |counts| && j < |counts| ==> counts[i] <= counts[j]
  {
    var order := SortTeams(counts, |counts|);
    SortTeamsCorrect(counts, |counts|);
    var sel := Fewest(counts);
    forall i: nat, j: nat | i in sel && j !in sel && i < |counts| && j < |counts| ensures counts[i] <= counts[j] {
      var a :| 0 <= a < 6 && sel[a] == i;
      assert j in order;
      var b :| 0 <= b < |order| && order[b] == j;
      assert Before(counts, order[a], order[b]);
    }
  }

  // ---------------------------------------------------------------------
  // Match counts

  function Sum(c: seq<int>): int
    decreases |c|
  {
    if c == [] then 0 else c[0] + Sum(c[1..])
  }

  lemma {:induction false} SumUpdate(c: seq<int>, i: nat, v: int)
    requires i < |c|
    ensures Sum(c[i := v]) == Sum(c) - c[i] + v
    decreases |c|
  {
    if i > 0 {
      SumUpdate(c[1..], i - 1, v);
      assert c[i := v][1..] == c[1..][i - 1 := v];
    } else {
      assert c[i := v][1..] == c[1..];
    }
  }

  /** `team_match_counts[team.id] += 1` for each listed team, in order. */
  function Bump(c: seq<int>, teams: seq<nat>): (r: seq<int>)
    requires InRange(teams, |c|)
    ensures |r| == |c|
    decreases |teams|
  {
    if teams == [] then c
    else
      var before := Bump(c, teams[..|teams| - 1]);
      var t := teams[|teams| - 1];
      before[t := before[t] + 1]
  }

  /** Each listed team's count goes up by one, the others stay, and the total grows by the list length. */
  lemma {:induction false} BumpAt(c: seq<int>, teams: seq<nat>)
    requires InRange(teams, |c|) && Distinct(teams)
    ensures forall x :: 0 <= x < |c| ==> Bump(c, teams)[x] == c[x] + (if x in teams then 1 else 0)
    ensures Sum(Bump(c, teams)) == Sum(c) + |teams|
    decreases |teams|
  {
    if teams != [] {
      var init := teams[..|teams| - 1];
      var t := teams[|teams| - 1];
      DistinctPrefix(teams);
      BumpAt(c, init);
      var before := Bump(c, init);
      SumUpdate(before, t, before[t] + 1);
      forall x | 0 <= x < |c| ensures x in teams <==> x == t || x in init {
        assert teams == init + [t];
      }
    }
  }

  /** No two teams' match counts differ by more than one. */
  predicate Balanced(c: seq<int>) {
    forall i, j :: 0 <= i < |c| && 0 <= j < |c| ==> c[i] <= c[j] + 1
  }

  /** Giving one more match to the six teams with the fewest keeps the counts balanced. */
  lemma BumpFewestBalanced(c: seq<int>, teams: seq<nat>)
    requires |c| >= 6 && Balanced(c) && InRange(teams, |c|) && Distinct(teams)
    requires forall x :: x in teams <==> x in Fewest(c)
    ensures Balanced(Bump(c, teams))
  {
    FewestAreFewest(c);
    BumpAt(c, teams);
  }

  lemma {:induction false} SumAtLeast(c: seq<int>, lo: int, k: nat, extra: int)
    requires forall i :: 0 <= i < |c| ==> lo <= c[i]
    requires k < |c| && lo + extra <= c[k]
    ensures |c| * lo + extra <= Sum(c)
    decreases |c|
  {
    if k > 0 {
      SumAtLeast(c[1..], lo, k - 1, extra);
    } else if |c| > 1 {
      SumAtLeast(c[1..], lo, 0, 0);
    }
    assert |c| * lo == lo + (|c| - 1) * lo;
  }

  lemma {:induction false} SumAtMost(c: seq<int>, hi: int, k: nat, less: int)
    requires forall i :: 0 <= i < |c| ==> c[i] <= hi
    requires k < |c| && c[k] <= hi - less
    ensures Sum(c) <= |c| * hi - less
    decreases |c|
  {
    if k > 0 {
      SumAtMost(c[1..], hi, k - 1, less);
    } else if |c| > 1 {
      SumAtMost(c[1..], hi, 0, 0);
    }
    assert |c| * hi == hi + (|c| - 1) * hi;
  }

  /**
   * After the full schedule every team has played either the requested number
   * of matches per team or one fewer.
   */
  lemma FairShare(counts: seq<int>, perTeam: int)
    requires |counts| >= 6 && perTeam >= 0 && Balanced(counts)
    requires Sum(counts) == 6 * QualMatchCount(|counts|, perTeam)
    ensures forall i :: 0 <= i < |counts| ==> perTeam - 1 <= counts[i] <= perTeam
  {
    var n := |counts|;
    var r := QualMatchCount(n, perTeam);
    var np := n * perTeam;
    assert 6 * r <= np < 6 * r + 6;
    forall i | 0 <= i < n ensures perTeam - 1 <= counts[i] <= perTeam {
      var c := counts[i];
      if c > perTeam {
        // every count is at least c - 1 >= perTeam and one is more, so the sum exceeds n * perTeam
        MulMonotone(n, perTeam, c - 1);
        SumAtLeast(counts, c - 1, i, 1);
      }
      if c < perTeam - 1 {
        // every count is at most c + 1 <= perTeam - 1 and one is less, so the sum falls n + 1 short
        MulMonotone(n, c + 1, perTeam - 1);
        MulPred(n, perTeam);
        SumAtMost(counts, c + 1, i, 1);
      }
    }
  }

  lemma MulPred(n: nat, p: int)
    ensures n * (p - 1) == n * p - n
  {
  }

  lemma MulMonotone(n: nat, a: int, b: int)
    requires a <= b
    ensures n * a <= n * b
  {
  }

  // ---------------------------------------------------------------------
  // One qualification match

  /** `random.shuffle` of six teams, as the permutation it applied. */
  predicate ValidShuffle(p: seq<nat>) {
    |p| == 6 && Distinct(p) && (forall k :: 0 <= k < 6 ==> p[k] < 6) && (forall j :: 0 <= j < 6 ==> j in p)
  }

  /** The draws of one qualification match. */
  datatype Draw = Draw(shuffle: seq<nat>, blue: seq<RobotDraw>, red: seq<RobotDraw>)

  predicate ValidDraw(d: Draw) {
    && ValidShuffle(d.shuffle) && |d.blue| == 3 && |d.red| == 3
    && (forall k :: 0 <= k < 3 ==> ValidRobotDraw(d.blue[k]) && ValidRobotDraw(d.red[k]))
  }

  /** The six picked teams in shuffled order: the first three play blue, the last three red. */
  function Lineup(counts: seq<int>, p: seq<nat>): (s: seq<nat>)
    requires |counts| >= 6 && ValidShuffle(p)
    ensures |s| == 6 && Distinct(s) && InRange(s, |counts|)
    ensures InRange(s[..3], |counts|) && InRange(s[3..], |counts|) && s == s[..3] + s[3..]
  {
    var sel := Fewest(counts);
    seq(6, k requires 0 <= k < 6 => sel[p[k]])
  }

  /** The lineup holds the six picked teams, each once. */
  lemma LineupIsFewest(counts: seq<int>, p: seq<nat>)
    requires |counts| >= 6 && ValidShuffle(p)
    ensures forall x :: x in Lineup(counts, p) <==> x in Fewest(counts)
  {
    FewestAreFewest(counts);
    var sel := Fewest(counts);
    var s := Lineup(counts, p);
    forall x | x in sel ensures x in s {
      var j :| 0 <= j < 6 && sel[j] == x;
      assert j in p;
      var k :| 0 <= k < 6 && p[k] == j;
      assert s[k] == x;
    }
  }

  /** A saved match row: three distinct-team robots per alliance and totals that add up. */
  predicate WellFormed(m: QualMatch, numTeams: nat) {
    && |m.blue| == 3 && |m.red| == 3
    && m.totalBlueFuels == AllianceFuel(m.blue)
    && m.totalRedFuels == AllianceFuel(m.red)
    && (forall k :: 0 <= k < 3 ==> m.blue[k].team < numTeams && m.red[k].team < numTeams)
    && (forall a, b :: 0 <= a < 3 && 0 <= b < 3 ==> m.blue[a].team != m.red[b].team)
    && (forall a, b :: 0 <= a < b < 3 ==> m.blue[a].team != m.blue[b].team && m.red[a].team != m.red[b].team)
  }

  /**
   * What holds between matches: counts are balanced and sum to six per match,
   * each match handed out six results and six ranking points, wins equal
   * losses, and every saved match is numbered in order and well formed.
   */
  predicate ValidState(counts: seq<int>, records: seq<TeamRecord>, matches: seq<QualMatch>) {
    && |records| == |counts|
    && Balanced(counts)
    && Sum(counts) == 6 * |matches|
    && PointsConsistent(records)
    && Points(records) == 6 * |matches|
    && Wins(records) == Losses(records)
    && Wins(records) + Losses(records) + Ties(records) == 6 * |matches|
    && (forall k :: 0 <= k < |matches| ==> matches[k].matchNumber == k + 1 && WellFormed(matches[k], |counts|))
  }

  /** The match row saved as match `|matches| + 1` for the given draws. */
  function NextMatch(counts: seq<int>, matches: seq<QualMatch>, d: Draw): QualMatch
    requires |counts| >= 6 && ValidDraw(d)
  {
    var s := Lineup(counts, d.shuffle);
    var blue, red := Fill(s[..3], d.blue), Fill(s[3..], d.red);
    QualMatch(|matches| + 1, blue, red, AllianceFuel(blue), AllianceFuel(red))
  }

  /** Playing a match keeps the state valid. */
  lemma PlayKeepsValid(counts: seq<int>, records: seq<TeamRecord>, matches: seq<QualMatch>, d: Draw)
    requires ValidState(counts, records, matches) && |counts| >= 6 && ValidDraw(d)
    ensures var s := Lineup(counts, d.shuffle);
            var m := NextMatch(counts, matches, d);
            ValidState(Bump(counts, s), Tally(records, s[..3], s[3..], m.totalBlueFuels, m.totalRedFuels), matches + [m])
  {
    var s := Lineup(counts, d.shuffle);
    var m := NextMatch(counts, matches, d);
    var c' := Bump(counts, s);
    LineupIsFewest(counts, d.shuffle);
    BumpAt(counts, s);
    BumpFewestBalanced(counts, s);
    assert Balanced(c') && Sum(c') == 6 * |matches + [m]|;
    var r' := Tally(records, s[..3], s[3..], m.totalBlueFuels, m.totalRedFuels);
    TallyTotals(records, s[..3], s[3..], m.totalBlueFuels, m.totalRedFuels);
    TallyConsistent(records, s[..3], s[3..], m.totalBlueFuels, m.totalRedFuels);
    assert PointsConsistent(r') && Points(r') == 6 * |matches + [m]|;
    NextMatchWellFormed(counts, matches, d);
    AppendWellFormed(matches, m, |counts|);
  }

  lemma AppendWellFormed(matches: seq<QualMatch>, m: QualMatch, n: nat)
    requires forall k :: 0 <= k < |matches| ==> matches[k].matchNumber == k + 1 && WellFormed(matches[k], n)
    requires m.matchNumber == |matches| + 1 && WellFormed(m, n)
    ensures forall k :: 0 <= k < |matches + [m]| ==> (matches + [m])[k].matchNumber == k + 1 && WellFormed((matches + [m])[k], n)
  {
    var ms' := matches + [m];
    forall k | 0 <= k < |ms'| ensures ms'[k].matchNumber == k + 1 && WellFormed(ms'[k], n) {
      if k < |matches| {
        assert ms'[k] == matches[k];
      }
    }
  }

  /** The new match seats six distinct teams, three a side, and its totals are its robots' fuel. */
  lemma NextMatchWellFormed(counts: seq<int>, matches: seq<QualMatch>, d: Draw)
    requires |counts| >= 6 && ValidDraw(d)
    ensures WellFormed(NextMatch(counts, matches, d), |counts|)
    ensures NextMatch(counts, matches, d).matchNumber == |matches| + 1
  {
    var s := Lineup(counts, d.shuffle);
    var m := NextMatch(counts, matches, d);
    forall k | 0 <= k < 3 ensures m.blue[k].team == s[k] && m.red[k].team == s[3 + k] {
    }
    forall a, b | 0 <= a < 3 && 0 <= b < 3 ensures m.blue[a].team != m.red[b].team {
      assert m.blue[a].team == s[a] && m.red[b].team == s[3 + b];
    }
  }

  /** A match gives each of the six picked teams exactly one more match and nobody else any. */
  lemma PlayBumpsFewest(counts: seq<int>, p: seq<nat>)
    requires |counts| >= 6 && ValidShuffle(p)
    ensures forall x :: 0 <= x < |counts| ==> Bump(counts, Lineup(counts, p))[x] == counts[x] + (if x in Fewest(counts) then 1 else 0)
  {
    LineupIsFewest(counts, p);
    BumpAt(counts, Lineup(counts, p));
  }

  /** The generator's three tables as values: match counts, TeamInfo counters and saved matches. */
  datatype QualState = QualState(counts: seq<int>, records: seq<TeamRecord>, matches: seq<QualMatch>)

  /** One qualification match on the tables: pick and seat the lineup, save the match, bump and tally. */
  function Step(st: QualState, d: Draw): (r: QualState)
    requires |st.counts| >= 6 && |st.records| == |st.counts| && ValidDraw(d)
    ensures |r.counts| == |st.counts| && |r.records| == |st.records| && |r.matches| == |st.matches| + 1
    ensures r.matches[..|st.matches|] == st.matches && r.matches[|st.matches|] == NextMatch(st.counts, st.matches, d)
  {
    var s := Lineup(st.counts, d.shuffle);
    var m := NextMatch(st.counts, st.matches, d);
    assert (st.matches + [m])[..|st.matches|] == st.matches;
    QualState(Bump(st.counts, s), Tally(st.records, s[..3], s[3..], m.totalBlueFuels, m.totalRedFuels), st.matches + [m])
  }

  /** The tables of `n` teams after the first `k` matches, match j played with draw j. */
  function Schedule(n: nat, draw: nat -> Draw, k: nat): (r: QualState)
    requires n >= 6 && forall j: nat :: ValidDraw(draw(j))
    ensures |r.counts| == n && |r.records| == n && |r.matches| == k
  {
    if k == 0 then QualState(seq(n, _ => 0), seq(n, _ => NewRecord), [])
    else Step(Schedule(n, draw, k - 1), draw(k))
  }

  /** The zeroed tables of `n` teams satisfy the generator's invariant. */
  lemma StartValid(n: nat)
    ensures ValidState(seq(n, _ => 0), seq(n, _ => NewRecord), [])
  {
    ZeroTotals(n);
  }

  /** One step keeps the generator's invariant. */
  lemma StepValid(st: QualState, d: Draw)
    requires |st.counts| >= 6 && ValidState(st.counts, st.records, st.matches) && ValidDraw(d)
    ensures var r := Step(st, d);
            ValidState(r.counts, r.records, r.matches)
  {
    PlayKeepsValid(st.counts, st.records, st.matches, d);
  }

  /** Every prefix of the schedule keeps the generator's invariant. */
  lemma {:induction false} ScheduleValid(n: nat, draw: nat -> Draw, k: nat)
    requires n >= 6 && forall j: nat :: ValidDraw(draw(j))
    ensures var st := Schedule(n, draw, k);
            ValidState(st.counts, st.records, st.matches)
  {
    if k == 0 {
      StartValid(n);
    } else {
      ScheduleValid(n, draw, k - 1);
      StepValid(Schedule(n, draw, k - 1), draw(k));
    }
  }

  /** Step k keeps the first k - 1 matches and saves the next match of draw k. */
  lemma ScheduleStep(n: nat, draw: nat -> Draw, k: nat)
    requires n >= 6 && forall i: nat :: ValidDraw(draw(i))
    requires k > 0
    ensures var prev := Schedule(n, draw, k - 1);
            && Schedule(n, draw, k).matches[..k - 1] == prev.matches
            && Schedule(n, draw, k).matches[k - 1] == NextMatch(prev.counts, prev.matches, draw(k))
  {
  }

  /** In a chain of sequences where each one extends the one before by one element, a later one starts with an earlier one. */
  lemma {:induction false} ChainPrefix(f: nat -> seq<QualMatch>, m: nat, k: nat)
    requires forall i: nat :: |f(i)| == i
    requires forall i: nat :: 0 < i ==> f(i)[..i - 1] == f(i - 1)
    requires m <= k
    ensures f(k)[..m] == f(m)
    decreases k
  {
    if k > m {
      ChainPrefix(f, m, k - 1);
      assert f(k)[..m] == f(k)[..k - 1][..m];
    } else {
      assert f(k)[..m] == f(k);
    }
  }

  /** One more match appends one step to the schedule. */
  lemma ScheduleUnfold(n: nat, draw: nat -> Draw, prev: nat, k: nat)
    requires n >= 6 && forall i: nat :: ValidDraw(draw(i))
    requires k == prev + 1
    ensures Schedule(n, draw, k) == Step(Schedule(n, draw, prev), draw(k))
  {
  }

  /** The state `PlayMatch` leaves is the step of the schedule from the state before it. */
  lemma PlayIsStep(st: QualState, d: Draw, counts: seq<int>, records: seq<TeamRecord>, matches: seq<QualMatch>)
    requires |st.counts| >= 6 && |st.records| == |st.counts| && ValidDraw(d)
    requires var s := Lineup(st.counts, d.shuffle);
             var m := NextMatch(st.counts, st.matches, d);
             && matches == st.matches + [m]
             && counts == Bump(st.counts, s)
             && records == Tally(st.records, s[..3], s[3..], m.totalBlueFuels, m.totalRedFuels)
    ensures QualState(counts, records, matches) == Step(st, d)
  {
  }

  /** A longer schedule starts with the matches of a shorter one. */
  lemma SchedulePrefix(n: nat, draw: nat -> Draw, m: nat, k: nat)
    requires n >= 6 && forall i: nat :: ValidDraw(draw(i))
    requires m <= k
    ensures Schedule(n, draw, k).matches[..m] == Schedule(n, draw, m).matches
  {
    var played: nat -> seq<QualMatch> := (i: nat) => Schedule(n, draw, i).matches;
    forall i: nat | 0 < i
      ensures played(i)[..i - 1] == played(i - 1)
    {
      ScheduleStep(n, draw, i);
    }
    ChainPrefix(played, m, k);
  }

  /**
   * Match j of any schedule of more than j matches is the match the (j + 1)-th
   * step saved: the next match of draw j + 1 on the tables after j matches.
   */
  lemma ScheduleKeepsMatches(n: nat, draw: nat -> Draw, j: nat, k: nat)
    requires n >= 6 && forall i: nat :: ValidDraw(draw(i))
    requires j < k
    ensures var before := Schedule(n, draw, j);
            Schedule(n, draw, k).matches[j] == NextMatch(before.counts, before.matches, draw(j + 1))
  {
    SchedulePrefix(n, draw, j + 1, k);
    ScheduleStep(n, draw, j + 1);
    var longer := Schedule(n, draw, k).matches;
    assert longer[j] == longer[..j + 1][j];
  }

  /** After all `(n * per_team) // 6` matches every team has played per_team matches or one fewer. */
  lemma ScheduleFair(n: nat, perTeam: nat, draw: nat -> Draw)
    requires n >= 6 && forall j: nat :: ValidDraw(draw(j))
    ensures var st := Schedule(n, draw, QualMatchCount(n, perTeam));
            forall i :: 0 <= i < n ==> perTeam - 1 <= st.counts[i] <= perTeam
  {
    var st := Schedule(n, draw, QualMatchCount(n, perTeam));
    ScheduleValid(n, draw, QualMatchCount(n, perTeam));
    FairShare(st.counts, perTeam);
  }

  /** The generator's state: each team's match count, its TeamInfo counters, and the saved matches. */
  class QualGenerator {
    var counts: seq<int>
    var records: seq<TeamRecord>
    var matches: seq<QualMatch>

    ghost predicate Valid()
      reads this
    {
      ValidState(counts, records, matches)
    }

    /** `num_teams` teams, every count and TeamInfo counter zero, no matches. */
    constructor (numTeams: nat)
      ensures Valid()
      ensures counts == seq(numTeams, _ => 0) && records == seq(numTeams, _ => NewRecord) && matches == []
    {
      counts := seq(numTeams, _ => 0);
      records := seq(numTeams, _ => NewRecord);
      matches := [];
      new;
      ZeroTotals(numTeams);
    }

    /** Credits every listed team's TeamInfo row with the result, one row after the other. */
    method CreditTeams(teams: seq<nat>, o: MatchResult)
      requires InRange(teams, |records|)
      modifies this
      ensures records == CreditAll(old(records), teams, o)
      ensures counts == old(counts) && matches == old(matches)
    {
      var i := 0;
      while i < |teams|
        invariant 0 <= i <= |teams|
        invariant |records| == |old(records)|
        invariant records == CreditAll(old(records), teams[..i], o)
        invariant counts == old(counts) && matches == old(matches)
      {
        assert teams[..i + 1][..i] == teams[..i];
        records := records[teams[i] := Credit(records[teams[i]], o)];
        i := i + 1;
      }
      assert teams[..i] == teams;
    }

    /**
     * The per-slot loop of one alliance: each robot row gets its team and
     * draws, and each team's match count goes up by one.
     */
    method SeatAlliance(teams: seq<nat>, draws: seq<RobotDraw>) returns (robots: seq<Robot>)
      requires |teams| == |draws| && InRange(teams, |counts|)
      modifies this
      ensures robots == Fill(teams, draws)
      ensures counts == Bump(old(counts), teams)
      ensures records == old(records) && matches == old(matches)
    {
      robots := [];
      var i := 0;
      while i < |teams|
        invariant 0 <= i <= |teams| && |counts| == |old(counts)|
        invariant robots == Fill(teams[..i], draws[..i])
        invariant counts == Bump(old(counts), teams[..i])
        invariant records == old(records) && matches == old(matches)
      {
        assert teams[..i + 1][..i] == teams[..i];
        var rd := draws[i];
        robots := robots + [Robot(teams[i], rd.autoFuel, rd.teleopFuel, rd.fuelScored, rd.climb)];
        counts := counts[teams[i] := counts[teams[i]] + 1];
        i := i + 1;
      }
      assert teams[..i] == teams && draws[..i] == draws;
    }

    /** Generates, saves and tallies qualification match `|matches| + 1`. */
    method PlayMatch(d: Draw)
      requires Valid() && |counts| >= 6 && ValidDraw(d)
      modifies this
      ensures Valid()
      ensures var s := Lineup(old(counts), d.shuffle);
              var m := NextMatch(old(counts), old(matches), d);
              && matches == old(matches) + [m]
              && counts == Bump(old(counts), s)
              && records == Tally(old(records), s[..3], s[3..], m.totalBlueFuels, m.totalRedFuels)
    {
      var c0, r0, m0 := counts, records, matches;
      var shuffled := Lineup(counts, d.shuffle);
      var blueTeams, redTeams := shuffled[..3], shuffled[3..];

      var blue := SeatAlliance(blueTeams, d.blue);
      var red := SeatAlliance(redTeams, d.red);
      BumpTwice(c0, blueTeams, redTeams);
      assert counts == Bump(c0, shuffled);

      var totalBlue, totalRed := AllianceFuel(blue), AllianceFuel(red);
      var m := QualMatch(|matches| + 1, blue, red, totalBlue, totalRed);
      assert m == NextMatch(c0, m0, d);
      matches := matches + [m];

      if totalBlue > totalRed {
        CreditTeams(blueTeams, Win);
        CreditTeams(redTeams, Loss);
      } else if totalRed > totalBlue {
        CreditTeams(blueTeams, Loss);
        CreditTeams(redTeams, Win);
      } else {
        CreditTeams(blueTeams + redTeams, Tie);
      }
      assert records == Tally(r0, blueTeams, redTeams, totalBlue, totalRed);
      PlayKeepsValid(c0, r0, m0, d);
    }
  }

  lemma {:induction false} ZeroTotals(n: nat)
    ensures Sum(seq(n, _ => 0)) == 0 && Balanced(seq(n, _ => 0))
    ensures var rs := seq(n, _ => NewRecord);
            Wins(rs) == 0 && Losses(rs) == 0 && Ties(rs) == 0 && Points(rs) == 0 && PointsConsistent(rs)
  {
    if n > 0 {
      ZeroTotals(n - 1);
      assert seq(n, _ => 0)[1..] == seq(n - 1, _ => 0);
      assert seq(n, _ => NewRecord)[1..] == seq(n - 1, _ => NewRecord);
    }
  }

  /** Bumping the blue three and then the red three is bumping the whole lineup. */
  lemma {:induction false} BumpTwice(c: seq<int>, blue: seq<nat>, red: seq<nat>)
    requires InRange(blue + red, |c|)
    ensures InRange(blue, |c|) && InRange(red, |Bump(c, blue)|)
    ensures Bump(Bump(c, blue), red) == Bump(c, blue + red)
    decreases |red|
  {
    var all := blue + red;
    assert InRange(blue, |c|) by {
      forall k | 0 <= k < |blue| ensures blue[k] < |c| { assert blue[k] == all[k]; }
    }
    assert InRange(red, |c|) by {
      forall k | 0 <= k < |red| ensures red[k] < |c| { assert red[k] == all[|blue| + k]; }
    }
    if red != [] {
      var init := red[..|red| - 1];
      assert all[..|all| - 1] == blue + init;
      assert InRange(blue + init, |c|) by {
        forall k | 0 <= k < |blue + init| ensures (blue + init)[k] < |c| { assert (blue + init)[k] == all[k]; }
      }
      BumpTwice(c, blue, init);
    } else {
      assert all == blue;
    }
  }

  /**
   * `handle`'s qualification phase: create the TeamInfo rows, then play
   * `(num_teams * matches_per_team) // 6` matches. With fewer than six teams
   * the first match cannot fill both alliances and the command stops with an
   * IndexError before saving it.
   */
  method GenerateQualifications(numTeams: int, perTeam: int, draw: nat -> Draw) returns (g: QualGenerator, crashed: bool)
    requires forall k: nat :: ValidDraw(draw(k))
    ensures fresh(g) && g.Valid()
    ensures |g.counts| == (if numTeams < 0 then 0 else numTeams)
    ensures crashed <==> QualMatchCount(numTeams, perTeam) >= 1 && numTeams < 6
    ensures crashed ==> g.matches == []
    ensures !crashed ==> |g.matches| == (if QualMatchCount(numTeams, perTeam) < 0 then 0 else QualMatchCount(numTeams, perTeam))
    ensures !crashed && perTeam >= 0 && numTeams >= 6 ==> forall i :: 0 <= i < |g.counts| ==> perTeam - 1 <= g.counts[i] <= perTeam
    ensures numTeams < 6 ==> g.counts == seq(|g.counts|, _ => 0) && g.records == seq(|g.counts|, _ => NewRecord) && g.matches == []
    ensures numTeams >= 6 ==>
              QualState(g.counts, g.records, g.matches)
                == Schedule(numTeams, draw, if QualMatchCount(numTeams, perTeam) < 0 then 0 else QualMatchCount(numTeams, perTeam))
  {
    var n: nat := if numTeams < 0 then 0 else numTeams;
    g := new QualGenerator(n);
    var total := QualMatchCount(numTeams, perTeam);
    crashed := false;
    var matchNum := 1;
    ghost var played: nat := 0;
    ghost var counts0, records0 := g.counts, g.records;
    while matchNum <= total
      invariant 1 <= matchNum <= (if total < 1 then 1 else total + 1)
      invariant n < 6 ==> matchNum == 1
      invariant g.Valid() && |g.counts| == n && |g.matches| == matchNum - 1
      invariant n < 6 ==> g.counts == counts0 && g.records == records0 && g.matches == []
      invariant played == matchNum - 1
      invariant n >= 6 ==> QualState(g.counts, g.records, g.matches) == Schedule(n, draw, played)
      modifies g
    {
      if n < 6 {
        crashed := true;
        return;
      }
      ghost var before := QualState(g.counts, g.records, g.matches);
      g.PlayMatch(draw(matchNum));
      PlayIsStep(before, draw(matchNum), g.counts, g.records, g.matches);
      ScheduleUnfold(n, draw, played, matchNum);
      played := matchNum;
      matchNum := matchNum + 1;
    }
    assert |g.matches| == (if total < 0 then 0 else total);
    if numTeams >= 6 {
      assert n == numTeams && played == (if total < 0 then 0 else total);
    }
    if perTeam >= 0 && numTeams >= 6 {
      assert played == total;
      ScheduleFair(n, perTeam, draw);
    }
  }
}
