/**
 * The import of events from The Blue Alliance: every match of an event is
 * upserted under (competition code, match number), its six teams are created
 * when missing, and each team seen gets a zeroed TeamInfo row when it has
 * none. An event is imported atomically: when anything raises, the store is
 * left as it was and the next event is processed.
 *
 * The database is a `Store` value; the API's replies are inputs. A JSON key
 * that is missing reads as its default: a missing `alliances`, `blue`, `red`
 * or `team_keys` as no team keys, a missing `score_breakdown` side as an empty
 * breakdown, a missing score as `None`.
 */
module TbaImport {
  import opened Wrappers
  import opened Decimal
  import opened Standings

  /** The exceptions an import can raise, by Python class. */
  datatype ImportError = ValueError | AttributeError | TypeError

  // ---------------------------------------------------------------- team keys

  /** `s.replace('frc', '')`: one left-to-right pass deleting non-overlapping occurrences. */
  function RemoveFrc(s: string): (r: string)
    ensures |r| <= |s|
    decreases |s|
  {
    if |s| >= 3 && s[..3] == "frc" then RemoveFrc(s[3..])
    else if s == [] then []
    else [s[0]] + RemoveFrc(s[1..])
  }

  /** The value of a run of decimal digits (0 for none), or `None` at the first other character. */
  function ReadDigits(s: string): (r: Option<nat>)
    decreases |s|
  {
    if s == [] then Some(0)
    else if !IsDigit(s[|s| - 1]) then None
    else match ReadDigits(s[..|s| - 1])
      case None => None
      case Some(v) => Some(v * 10 + DigitValue(s[|s| - 1]))
  }

  /** The digit reader accepts exactly the digit strings and reads their value. */
  lemma {:induction false} ReadDigitsMeaning(s: string)
    ensures ReadDigits(s).Some? <==> AllDigits(s)
    ensures ReadDigits(s).Some? ==> ReadDigits(s).value == ValueOf(s)
    decreases |s|
  {
    if s != [] {
      var prefix := s[..|s| - 1];
      ReadDigitsMeaning(prefix);
      assert forall k :: 0 <= k < |prefix| ==> prefix[k] == s[k];
      if !AllDigits(prefix) {
        var k :| 0 <= k < |prefix| && !IsDigit(prefix[k]);
        assert !IsDigit(s[k]);
      }
    }
  }

  /** `int(s)` on ASCII text: an optional sign, then at least one decimal digit. */
  function ParseInt(s: string): (r: Option<int>)
  {
    if |s| > 0 && (s[0] == '-' || s[0] == '+') then
      if |s| == 1 then None
      else match ReadDigits(s[1..])
        case None => None
        case Some(v) => Some(if s[0] == '-' then -(v as int) else v)
    else if s == [] then None
    else match ReadDigits(s)
      case None => None
      case Some(v) => Some(v)
  }

  /** A text opening with a sign parses iff digits follow it. */
  lemma SignedParse(s: string)
    requires |s| > 0 && (s[0] == '-' || s[0] == '+')
    ensures !AllDigits(s)
    ensures ParseInt(s).Some? <==> |s| > 1 && AllDigits(s[1..])
    ensures |s| > 1 && s[0] == '-' && AllDigits(s[1..]) ==> ParseInt(s) == Some(-(ValueOf(s[1..]) as int))
  {
    assert !IsDigit(s[0]);
    if |s| > 1 {
      ReadDigitsMeaning(s[1..]);
    }
  }

  /** A non-empty text without a sign parses iff it is all digits. */
  lemma UnsignedParse(s: string)
    requires |s| > 0 && !(s[0] == '-' || s[0] == '+')
    ensures ParseInt(s).Some? <==> AllDigits(s)
    ensures AllDigits(s) ==> ParseInt(s) == Some(ValueOf(s))
  {
    ReadDigitsMeaning(s);
  }

  /** `int` accepts an optional sign before one or more digits, and nothing else. */
  lemma ParseIntMeaning(s: string)
    ensures ParseInt(s).Some? <==>
              (|s| > 0 && AllDigits(s)) || (|s| > 1 && (s[0] == '-' || s[0] == '+') && AllDigits(s[1..]))
    ensures |s| > 0 && AllDigits(s) ==> ParseInt(s) == Some(ValueOf(s))
    ensures |s| > 1 && s[0] == '-' && AllDigits(s[1..]) ==> ParseInt(s) == Some(-(ValueOf(s[1..]) as int))
  {
    if s == [] {
      assert ParseInt(s).None?;
    } else if s[0] == '-' || s[0] == '+' {
      SignedParse(s);
    } else {
      UnsignedParse(s);
    }
  }

  /** The team number of a key such as "frc254". */
  function TeamNumber(key: string): Option<int> {
    ParseInt(RemoveFrc(key))
  }

  /** `str(n)` read back by `int` gives `n`, for every integer. */
  lemma ParseIntToString(i: int)
    ensures ParseInt(IntToString(i)) == Some(i)
  {
    ParseIntMeaning(IntToString(i));
    if i < 0 {
      ValueOfNatToString(-i);
      assert IntToString(i)[1..] == NatToString(-i);
    } else {
      ValueOfNatToString(i);
    }
  }

  /** Text without an 'f' holds no "frc" and passes unchanged. */
  lemma {:induction false} RemoveFrcWithoutF(s: string)
    requires forall k :: 0 <= k < |s| ==> s[k] != 'f'
    ensures RemoveFrc(s) == s
    decreases |s|
  {
    if s != [] {
      assert |s| >= 3 ==> s[..3][0] == s[0];
      RemoveFrcWithoutF(s[1..]);
    }
  }

  /** The key of team n is "frc" followed by `str(n)`, and it parses back to n. */
  lemma TeamKeyRoundTrip(n: int)
    ensures TeamNumber("frc" + IntToString(n)) == Some(n)
  {
    var key := "frc" + IntToString(n);
    assert key[..3] == "frc" && key[3..] == IntToString(n);
    var digits := if n < 0 then NatToString(-n) else NatToString(n);
    assert forall k :: 0 <= k < |IntToString(n)| ==> IntToString(n)[k] != 'f' by {
      assert forall k :: 0 <= k < |digits| ==> IsDigit(digits[k]);
    }
    RemoveFrcWithoutF(IntToString(n));
    ParseIntToString(n);
  }

  /** The deletion is a single pass: removing "frc" from "ffrcrc" leaves "frc", which `int` rejects. */
  lemma SinglePass()
    ensures RemoveFrc("ffrcrc") == "frc"
    ensures TeamNumber("ffrcrc") == None
  {
    assert "ffrcrc"[..3][1] == 'f' && "frc"[1] == 'r';
    assert "ffrcrc"[1..] == "frcrc" && "frcrc"[..3] == "frc" && "frcrc"[3..] == "rc";
    assert "rc"[..1] == "r" && "rc"[1..] == "c" && "c"[1..] == [];
    assert RemoveFrc("rc") == "rc";
  }

  // --------------------------------------------------------------- the store

  /** A row of the `Match` table, as far as the import writes it; per-robot fields are slots 1 to 3. */
  datatype MatchRow = MatchRow(
    blueTeams: seq<int>, redTeams: seq<int>,
    totalPoints: int, totalBlueFuels: int, totalRedFuels: int,
    blueAutoFuel: seq<int>, redAutoFuel: seq<int>,
    blueTeleopFuel: seq<int>, redTeleopFuel: seq<int>,
    blueFuelScored: seq<int>, redFuelScored: seq<int>,
    calculatedPoints: int)

  /**
   * The tables the import touches: team names by number, competition names by
   * code, matches by (competition code, match number) and TeamInfo rows by
   * (team number, competition code).
   */
  datatype Store = Store(
    teams: map<int, string>,
    competitions: map<string, string>,
    matches: map<(string, int), MatchRow>,
    infos: map<(int, string), TeamRecord>)

  function TeamName(n: int): string {
    "Team " + IntToString(n)
  }

  /** The team table once every number of `ns` has a row: existing rows keep their names, new ones are "Team n". */
  function WithTeams(teams: map<int, string>, ns: seq<int>): map<int, string> {
    map n | n in teams.Keys + (set k | k in ns) :: if n in teams then teams[n] else TeamName(n)
  }

  /** `get_or_create_team`: parse the key, then find team n or create it named "Team n". */
  function GetOrCreateTeam(teams: map<int, string>, key: string): (r: Result<(map<int, string>, int), ImportError>)
    ensures r.Ok? <==> TeamNumber(key).Some?
    ensures r.Err? ==> r.error == ValueError
    ensures r.Ok? ==> r.value.1 == TeamNumber(key).value && r.value.0 == WithTeams(teams, [r.value.1])
  {
    match TeamNumber(key)
    case None => Err(ValueError)
    case Some(n) =>
      assert (set k | k in [n]) == {n};
      Ok((if n in teams then teams else teams[n := TeamName(n)], n))
  }

  lemma WithTeamsNone(teams: map<int, string>)
    ensures WithTeams(teams, []) == teams
  {
    assert (set k: int | k in []) == {};
  }

  /** Getting or creating n, then the rest, is getting or creating them all. */
  lemma WithTeamsStep(teams: map<int, string>, n: int, ns: seq<int>)
    ensures WithTeams(WithTeams(teams, [n]), ns) == WithTeams(teams, [n] + ns)
  {
    assert (set k | k in [n] + ns) == (set k | k in [n]) + (set k | k in ns);
  }

  /** Every key of the list is a team number. */
  predicate AllParse(keys: seq<string>)
    decreases |keys|
  {
    keys == [] || (TeamNumber(keys[0]).Some? && AllParse(keys[1..]))
  }

  /** The numbers of a list of keys that all parse, in order. */
  function KeyNumbers(keys: seq<string>): (ns: seq<int>)
    requires AllParse(keys)
    ensures |ns| == |keys|
    decreases |keys|
  {
    if keys == [] then [] else [TeamNumber(keys[0]).value] + KeyNumbers(keys[1..])
  }

  /** The list parses exactly when each key is a team number, and then slot k holds key k's number. */
  lemma {:induction false} KeyNumbersMeaning(keys: seq<string>)
    ensures AllParse(keys) <==> forall k :: 0 <= k < |keys| ==> TeamNumber(keys[k]).Some?
    ensures AllParse(keys) ==> forall k :: 0 <= k < |keys| ==> TeamNumber(keys[k]) == Some(KeyNumbers(keys)[k])
    decreases |keys|
  {
    if keys != [] {
      KeyNumbersMeaning(keys[1..]);
      assert forall k :: 1 <= k < |keys| ==> keys[k] == keys[1..][k - 1];
    }
  }

  /** The teams of a list of keys, found or created in order; a key that does not parse raises. */
  function GetOrCreateTeams(teams: map<int, string>, keys: seq<string>): (r: Result<(map<int, string>, seq<int>), ImportError>)
    ensures r.Ok? <==> AllParse(keys)
    ensures r.Err? ==> r.error == ValueError
    ensures r.Ok? ==> r.value.1 == KeyNumbers(keys) && r.value.0 == WithTeams(teams, KeyNumbers(keys))
    decreases |keys|
  {
    if keys == [] then
      WithTeamsNone(teams);
      Ok((teams, []))
    else
      var first := GetOrCreateTeam(teams, keys[0]);
      if first.Err? then Err(first.error)
      else
        var rest := GetOrCreateTeams(first.value.0, keys[1..]);
        if rest.Err? then Err(rest.error)
        else
          WithTeamsStep(teams, first.value.1, rest.value.1);
          Ok((rest.value.0, [first.value.1] + rest.value.1))
  }

  // ------------------------------------------------------------- match data

  /** One alliance of a match reply: its team keys and its score (`None` for null or missing). */
  datatype AllianceData = AllianceData(teamKeys: seq<string>, score: Option<int>)

  /** `score_breakdown`: JSON null, or the two sides' counters (a missing counter reads as 0). */
  datatype Breakdown = NullBreakdown | Breakdown(blue: map<string, int>, red: map<string, int>)

  /** One match reply; `matchNumber` is `None` when the key is missing. */
  datatype MatchData = MatchData(key: string, blue: AllianceData, red: AllianceData, matchNumber: Option<int>, scoreBreakdown: Breakdown)

  /** `d.get(k, 0)`. */
  function Counter(side: map<string, int>, k: string): int {
    if k in side then side[k] else 0
  }

  function AutoCells(side: map<string, int>): int {
    Counter(side, "autoCellsBottom") + Counter(side, "autoCellsOuter") + Counter(side, "autoCellsInner")
  }

  function TeleopCells(side: map<string, int>): int {
    Counter(side, "teleopCellsBottom") + Counter(side, "teleopCellsOuter") + Counter(side, "teleopCellsInner")
  }

  /** `alliance.get('score', 0) or 0`. */
  function Score(a: AllianceData): int {
    if a.score.Some? then a.score.value else 0
  }

  function MatchNumber(m: MatchData): int {
    if m.matchNumber.Some? then m.matchNumber.value else 0
  }

  predicate Complete(m: MatchData) {
    |m.blue.teamKeys| >= 3 && |m.red.teamKeys| >= 3
  }

  function Slots(x: int): seq<int> {
    [x, 0, 0]
  }

  function SlotSum(s: seq<int>): int
    requires |s| == 3
  {
    s[0] + s[1] + s[2]
  }

  /**
   * The fields written for a match: the whole alliance's auto, teleop and
   * total fuel go to robot slot 1 and slots 2 and 3 get 0, so the slots of
   * each field add up to the alliance value; the points are the two scores.
   */
  function RowOf(m: MatchData, blueTeams: seq<int>, redTeams: seq<int>): (row: MatchRow)
    requires m.scoreBreakdown.Breakdown?
    ensures |row.blueFuelScored| == 3 && SlotSum(row.blueFuelScored) == row.totalBlueFuels
    ensures |row.redFuelScored| == 3 && SlotSum(row.redFuelScored) == row.totalRedFuels
    ensures |row.blueAutoFuel| == 3 && |row.blueTeleopFuel| == 3
    ensures SlotSum(row.blueAutoFuel) + SlotSum(row.blueTeleopFuel) == row.totalBlueFuels
    ensures |row.redAutoFuel| == 3 && |row.redTeleopFuel| == 3
    ensures SlotSum(row.redAutoFuel) + SlotSum(row.redTeleopFuel) == row.totalRedFuels
    ensures row.totalPoints == row.calculatedPoints == Score(m.blue) + Score(m.red)
    ensures row.blueTeams == blueTeams && row.redTeams == redTeams
    ensures var b := m.scoreBreakdown.blue;
            && row.totalBlueFuels == AutoCells(b) + TeleopCells(b)
            && row.blueAutoFuel == [AutoCells(b), 0, 0] && row.blueTeleopFuel == [TeleopCells(b), 0, 0]
            && row.blueFuelScored == [row.totalBlueFuels, 0, 0]
    ensures var r := m.scoreBreakdown.red;
            && row.totalRedFuels == AutoCells(r) + TeleopCells(r)
            && row.redAutoFuel == [AutoCells(r), 0, 0] && row.redTeleopFuel == [TeleopCells(r), 0, 0]
            && row.redFuelScored == [row.totalRedFuels, 0, 0]
  {
    var b, r := m.scoreBreakdown.blue, m.scoreBreakdown.red;
    var blueFuels := AutoCells(b) + TeleopCells(b);
    var redFuels := AutoCells(r) + TeleopCells(r);
    MatchRow(blueTeams, redTeams, Score(m.blue) + Score(m.red), blueFuels, redFuels,
             Slots(AutoCells(b)), Slots(AutoCells(r)), Slots(TeleopCells(b)), Slots(TeleopCells(r)),
             Slots(blueFuels), Slots(redFuels), Score(m.blue) + Score(m.red))
  }

  /** The row depends on the reply only through its scores and its breakdown. */
  lemma RowOfReadsScores(m: MatchData, n: MatchData, blueTeams: seq<int>, redTeams: seq<int>)
    requires m.scoreBreakdown.Breakdown? && m.scoreBreakdown == n.scoreBreakdown
    requires m.blue.score == n.blue.score && m.red.score == n.red.score
    ensures RowOf(m, blueTeams, redTeams) == RowOf(n, blueTeams, redTeams)
  {
  }

  /**
   * Counters missing from the breakdown read as 0: blue with only
   * `autoCellsBottom: 4` and `teleopCellsInner: 2` scores 6 fuel in slot 1, 4
   * of them in auto, and an empty red side scores none.
   */
  lemma RowOfExample(blueTeams: seq<int>, redTeams: seq<int>)
    ensures var m := MatchData("2020casj_qm1", AllianceData([], Some(30)), AllianceData([], None), Some(1),
                               Breakdown(map["autoCellsBottom" := 4, "teleopCellsInner" := 2], map[]));
            var row := RowOf(m, blueTeams, redTeams);
            && row.totalBlueFuels == 6 && row.blueAutoFuel == [4, 0, 0] && row.blueTeleopFuel == [2, 0, 0]
            && row.totalRedFuels == 0 && row.redFuelScored == [0, 0, 0]
            && row.totalPoints == 30
  {
    var b: map<string, int> := map["autoCellsBottom" := 4, "teleopCellsInner" := 2];
    assert "autoCellsOuter" !in b && "autoCellsInner" !in b;
    assert "teleopCellsBottom" !in b && "teleopCellsOuter" !in b;
  }

  /** What `import_match` returns: `None` for a skipped match, else the six teams. */
  datatype MatchOutcome = Skipped | Teams(teams: seq<int>)

  /** The first three keys of both alliances are team numbers. */
  predicate KeysParse(m: MatchData)
    requires Complete(m)
  {
    AllParse(m.blue.teamKeys[..3]) && AllParse(m.red.teamKeys[..3])
  }

  /** The numbers of the first three blue keys, then of the first three red keys. */
  function TeamsOf(m: MatchData): (ts: seq<int>)
    requires Complete(m) && KeysParse(m)
    ensures |ts| == 6
  {
    KeyNumbers(m.blue.teamKeys[..3]) + KeyNumbers(m.red.teamKeys[..3])
  }

  /** A match's teams are, slot by slot, the numbers of its first three blue and first three red keys. */
  lemma TeamsOfMeaning(m: MatchData)
    requires Complete(m)
    ensures KeysParse(m) <==> forall k :: 0 <= k < 3 ==> TeamNumber(m.blue.teamKeys[k]).Some? && TeamNumber(m.red.teamKeys[k]).Some?
    ensures KeysParse(m) ==> forall k :: 0 <= k < 3 ==>
              TeamNumber(m.blue.teamKeys[k]) == Some(TeamsOf(m)[k]) && TeamNumber(m.red.teamKeys[k]) == Some(TeamsOf(m)[3 + k])
  {
    var bk, rk := m.blue.teamKeys[..3], m.red.teamKeys[..3];
    KeyNumbersMeaning(bk);
    KeyNumbersMeaning(rk);
    assert forall k :: 0 <= k < 3 ==> bk[k] == m.blue.teamKeys[k] && rk[k] == m.red.teamKeys[k];
  }

  /**
   * `blue_teams` then `red_teams`, found or created one key at a time, end
   * as `KeysParse` and `TeamsOf` say: a key that is not a team number
   * raises, and otherwise the six teams are the keys' numbers, in order.
   */
  lemma TeamsInOrder(teams: map<int, string>, m: MatchData)
    requires Complete(m)
    ensures var blue := GetOrCreateTeams(teams, m.blue.teamKeys[..3]);
            && (blue.Ok? && GetOrCreateTeams(blue.value.0, m.red.teamKeys[..3]).Ok? <==> KeysParse(m))
            && (KeysParse(m) ==>
                  var red := GetOrCreateTeams(blue.value.0, m.red.teamKeys[..3]);
                  blue.value.1 + red.value.1 == TeamsOf(m) && red.value.0 == WithTeams(teams, TeamsOf(m)))
  {
    var blue := GetOrCreateTeams(teams, m.blue.teamKeys[..3]);
    if blue.Ok? {
      var red := GetOrCreateTeams(blue.value.0, m.red.teamKeys[..3]);
      if red.Ok? {
        WithTeamsAppend(teams, blue.value.1, red.value.1);
      }
    }
  }

  /**
   * `import_match`: skip a match with fewer than three keys on either side;
   * otherwise find or create the first three teams of each alliance (a key
   * that is not a team number raises), read `score_breakdown` (a null one
   * raises), and update or create the row keyed on (competition, match number).
   */
  function ImportMatch(db: Store, competition: string, m: MatchData): (r: Result<(Store, MatchOutcome), ImportError>)
    ensures !Complete(m) ==> r == Ok((db, Skipped))
    ensures Complete(m) ==> (r.Ok? <==> KeysParse(m) && m.scoreBreakdown.Breakdown?)
    ensures Complete(m) ==> (r == Err(ValueError) <==> !KeysParse(m))
    ensures Complete(m) ==> (r == Err(AttributeError) <==> KeysParse(m) && m.scoreBreakdown.NullBreakdown?)
    ensures r.Ok? && Complete(m) ==>
      && r.value.1 == Teams(TeamsOf(m))
      && r.value.0.teams == WithTeams(db.teams, TeamsOf(m))
      && r.value.0.matches == db.matches[(competition, MatchNumber(m)) := RowOf(m, TeamsOf(m)[..3], TeamsOf(m)[3..])]
    ensures r.Ok? ==> r.value.0.competitions == db.competitions && r.value.0.infos == db.infos
  {
    if !Complete(m) then Ok((db, Skipped))
    else if !KeysParse(m) then Err(ValueError)
    else if m.scoreBreakdown.NullBreakdown? then Err(AttributeError)
    else
      var ts := TeamsOf(m);
      Ok((db.(teams := WithTeams(db.teams, ts), matches := db.matches[(competition, MatchNumber(m)) := RowOf(m, ts[..3], ts[3..])]), Teams(ts)))
  }

  lemma WithTeamsAppend(teams: map<int, string>, xs: seq<int>, ys: seq<int>)
    ensures WithTeams(WithTeams(teams, xs), ys) == WithTeams(teams, xs + ys)
  {
    assert (set k | k in xs + ys) == (set k | k in xs) + (set k | k in ys);
  }

  /** Existing teams keep their names, every listed number has a row, and new rows are named "Team n". */
  lemma WithTeamsMeaning(teams: map<int, string>, ns: seq<int>)
    ensures var r := WithTeams(teams, ns);
            && (forall n :: n in teams ==> n in r && r[n] == teams[n])
            && (forall k :: 0 <= k < |ns| ==> ns[k] in r)
            && (forall n :: n in r && n !in teams ==> r[n] == TeamName(n))
            && (forall n :: n in r ==> n in teams || n in ns)
  {
    var r := WithTeams(teams, ns);
    forall k | 0 <= k < |ns| ensures ns[k] in r {
      assert ns[k] in (set j | j in ns);
    }
  }

  /** Importing the same match again changes nothing and gives the same teams. */
  lemma ImportMatchIdempotent(db: Store, competition: string, m: MatchData)
    requires ImportMatch(db, competition, m).Ok?
    ensures var (once, outcome) := ImportMatch(db, competition, m).value;
            ImportMatch(once, competition, m) == Ok((once, outcome))
  {
    var (once, outcome) := ImportMatch(db, competition, m).value;
    if Complete(m) {
      var ts := TeamsOf(m);
      WithTeamsAbsorbs(db.teams, ts, ts);
      var key, row := (competition, MatchNumber(m)), RowOf(m, ts[..3], ts[3..]);
      UpdateWithSame(once.matches, key, row);
    }
  }

  lemma UpdateWithSame(rows: map<(string, int), MatchRow>, key: (string, int), row: MatchRow)
    requires key in rows && rows[key] == row
    ensures rows[key := row] == rows
  {
  }

  /** Getting or creating numbers that already have rows changes nothing. */
  lemma WithTeamsAbsorbs(teams: map<int, string>, ns: seq<int>, again: seq<int>)
    requires forall k :: 0 <= k < |again| ==> again[k] in ns
    ensures WithTeams(WithTeams(teams, ns), again) == WithTeams(teams, ns)
  {
  }

  /**
   * Two matches that share a match number overwrite each other: after both
   * are imported the row is the second one's, whatever the first wrote.
   */
  lemma LastImportWins(db: Store, competition: string, first: MatchData, second: MatchData)
    requires Complete(first) && Complete(second) && MatchNumber(first) == MatchNumber(second)
    requires ImportMatch(db, competition, first).Ok?
    requires ImportMatch(ImportMatch(db, competition, first).value.0, competition, second).Ok?
    ensures var afterFirst := ImportMatch(db, competition, first).value.0;
            var afterBoth := ImportMatch(afterFirst, competition, second).value.0;
            afterBoth.matches == db.matches[(competition, MatchNumber(second)) := RowOf(second, TeamsOf(second)[..3], TeamsOf(second)[3..])]
  {
  }

  /**
   * Only the first three keys of each alliance are read: two complete replies
   * that differ only in later keys (and the match key) import alike.
   */
  lemma ExtraKeysIgnored(db: Store, competition: string, m: MatchData, n: MatchData)
    requires Complete(m) && Complete(n)
    requires m.blue.teamKeys[..3] == n.blue.teamKeys[..3] && m.red.teamKeys[..3] == n.red.teamKeys[..3]
    requires m.blue.score == n.blue.score && m.red.score == n.red.score
    requires m.matchNumber == n.matchNumber && m.scoreBreakdown == n.scoreBreakdown
    ensures ImportMatch(db, competition, m) == ImportMatch(db, competition, n)
  {
    if KeysParse(m) {
      assert TeamsOf(m) == TeamsOf(n);
      if m.scoreBreakdown.Breakdown? {
        RowOfReadsScores(m, n, TeamsOf(m)[..3], TeamsOf(m)[3..]);
      }
    }
  }

  // -------------------------------------------------------------- TeamInfo rows

  function InfoKeys(teams: set<int>, competition: string): set<(int, string)> {
    set t | t in teams :: (t, competition)
  }

  /** The TeamInfo table after `create_team_infos`: a zeroed row for each team that has none here. */
  function WithInfos(infos: map<(int, string), TeamRecord>, teams: set<int>, competition: string): map<(int, string), TeamRecord> {
    map k | k in infos.Keys + InfoKeys(teams, competition) :: if k in infos then infos[k] else NewRecord
  }

  /** Existing rows are kept as they are, every team gets one, and nothing else is added. */
  lemma WithInfosMeaning(infos: map<(int, string), TeamRecord>, teams: set<int>, competition: string)
    ensures var r := WithInfos(infos, teams, competition);
            && (forall k :: k in infos ==> k in r && r[k] == infos[k])
            && (forall t :: t in teams ==> (t, competition) in r)
            && (forall t :: t in teams && (t, competition) !in infos ==> r[(t, competition)] == NewRecord)
            && (forall k :: k in r ==> k in infos || (k.1 == competition && k.0 in teams))
  {
    var r := WithInfos(infos, teams, competition);
    forall t | t in teams ensures (t, competition) in r {
      assert (t, competition) in InfoKeys(teams, competition);
    }
  }

  /** Creating the rows a second time changes nothing. */
  lemma WithInfosIdempotent(infos: map<(int, string), TeamRecord>, teams: set<int>, competition: string)
    ensures WithInfos(WithInfos(infos, teams, competition), teams, competition) == WithInfos(infos, teams, competition)
  {
  }

  /** `create_team_infos`: for each team of the set, get or create its row with zero wins, losses, ties and points. */
  method CreateTeamInfos(infos: map<(int, string), TeamRecord>, teams: set<int>, competition: string)
    returns (r: map<(int, string), TeamRecord>)
    ensures r == WithInfos(infos, teams, competition)
  {
    r := infos;
    var rest := teams;
    while rest != {}
      invariant rest <= teams
      invariant r == WithInfos(infos, teams - rest, competition)
      decreases |rest|
    {
      HasMember(rest);
      var t :| t in rest;
      WithInfosAdd(infos, teams - rest, t, competition);
      if (t, competition) !in r {
        r := r[(t, competition) := NewRecord];
      }
      assert teams - (rest - {t}) == (teams - rest) + {t};
      rest := rest - {t};
    }
  }

  lemma HasMember(s: set<int>)
    requires s != {}
    ensures exists t :: t in s
  {
    if forall t :: t !in s {
      assert false;
    }
  }

  /** Visiting one more team adds its zeroed row when it has none. */
  lemma WithInfosAdd(infos: map<(int, string), TeamRecord>, done: set<int>, t: int, competition: string)
    ensures var before := WithInfos(infos, done, competition);
            WithInfos(infos, done + {t}, competition)
              == if (t, competition) in before then before else before[(t, competition) := NewRecord]
  {
    assert InfoKeys(done + {t}, competition) == InfoKeys(done, competition) + {(t, competition)};
  }

  // -------------------------------------------------------------------- events

  /** The API's replies for one event key: the event's name and its matches. */
  datatype EventData = EventData(key: string, name: string, matches: seq<MatchData>)

  /** `Competition.objects.get_or_create(code=key, defaults={'name': name})`. */
  function WithCompetition(db: Store, ev: EventData): (r: Store)
    ensures ev.key in r.competitions && r.competitions.Keys == db.competitions.Keys + {ev.key}
    ensures ev.key in db.competitions ==> r == db
    ensures ev.key !in db.competitions ==> r.competitions[ev.key] == ev.name
    ensures r.teams == db.teams && r.matches == db.matches && r.infos == db.infos
  {
    if ev.key in db.competitions then db else db.(competitions := db.competitions[ev.key := ev.name])
  }

  /**
   * The match loop of `import_event` on a prefix of the replies: the store and
   * the set of teams seen. A skipped match makes `set.update(None)` raise.
   */
  function ImportMatches(db: Store, competition: string, ms: seq<MatchData>): (r: Result<(Store, set<int>), ImportError>)
    decreases |ms|
  {
    if ms == [] then Ok((db, {}))
    else
      match ImportMatches(db, competition, ms[..|ms| - 1])
      case Err(e) => Err(e)
      case Ok((s, seen)) =>
        match ImportMatch(s, competition, ms[|ms| - 1])
        case Err(e) => Err(e)
        case Ok((s', Skipped)) => Err(TypeError)
        case Ok((s', Teams(ts))) => Ok((s', seen + TeamSet(ts)))
  }

  /** The teams of a match as the set `teams_in_event.update` adds. */
  function TeamSet(ts: seq<int>): (r: set<int>)
    ensures forall j :: 0 <= j < |ts| ==> ts[j] in r
    ensures forall t :: t in r ==> exists j :: 0 <= j < |ts| && ts[j] == t
  {
    set t | t in ts
  }

  /** `import_event` as one transaction: the store it commits, or the error that rolls it back. */
  function EventImport(db: Store, ev: EventData): Result<Store, ImportError> {
    match ImportMatches(WithCompetition(db, ev), ev.key, ev.matches)
    case Err(e) => Err(e)
    case Ok((s, seen)) => Ok(s.(infos := WithInfos(s.infos, seen, ev.key)))
  }

  /** Once the loop has raised, the longer prefixes raise the same error. */
  lemma {:induction false} ErrorPersists(db: Store, competition: string, ms: seq<MatchData>, i: nat)
    requires i <= |ms| && ImportMatches(db, competition, ms[..i]).Err?
    ensures ImportMatches(db, competition, ms) == ImportMatches(db, competition, ms[..i])
    decreases |ms| - i
  {
    if i < |ms| {
      assert ms[..i + 1][..i] == ms[..i];
      ErrorPersists(db, competition, ms, i + 1);
    } else {
      assert ms[..i] == ms;
    }
  }

  /** The loop over one more match: it raises or goes on from the state the shorter prefix left. */
  lemma ImportMatchesNext(db: Store, competition: string, ms: seq<MatchData>, i: nat)
    requires i < |ms|
    ensures ImportMatches(db, competition, ms[..i + 1]) ==
              match ImportMatches(db, competition, ms[..i])
              case Err(e) => Err(e)
              case Ok((s, seen)) =>
                match ImportMatch(s, competition, ms[i])
                case Err(e) => Err(e)
                case Ok((s', Skipped)) => Err(TypeError)
                case Ok((s', Teams(ts))) => Ok((s', seen + TeamSet(ts)))
  {
    assert ms[..i + 1][..i] == ms[..i] && ms[..i + 1][i] == ms[i];
  }

  /**
   * `import_event`: get or create the competition, import every match while
   * collecting the teams, then create their TeamInfo rows.
   */
  method ImportEvent(db: Store, ev: EventData) returns (r: Result<Store, ImportError>)
    ensures r == EventImport(db, ev)
  {
    var start := WithCompetition(db, ev);
    var current := start;
    var teamsInEvent: set<int> := {};
    var i := 0;
    while i < |ev.matches|
      invariant 0 <= i <= |ev.matches|
      invariant ImportMatches(start, ev.key, ev.matches[..i]) == Ok((current, teamsInEvent))
    {
      var prefix := ev.matches[..i + 1];
      ImportMatchesNext(start, ev.key, ev.matches, i);
      var step := ImportMatch(current, ev.key, ev.matches[i]);
      if step.Err? {
        assert ImportMatches(start, ev.key, prefix) == Err(step.error);
        ErrorPersists(start, ev.key, ev.matches, i + 1);
        return Err(step.error);
      }
      var (next, outcome) := step.value;
      if outcome.Skipped? {
        assert ImportMatches(start, ev.key, prefix) == Err(TypeError);
        ErrorPersists(start, ev.key, ev.matches, i + 1);
        return Err(TypeError);
      }
      assert ImportMatches(start, ev.key, prefix) == Ok((next, teamsInEvent + TeamSet(outcome.teams)));
      current, teamsInEvent := next, teamsInEvent + TeamSet(outcome.teams);
      i := i + 1;
    }
    assert ev.matches[..i] == ev.matches;
    var infos := CreateTeamInfos(current.infos, teamsInEvent, ev.key);
    return Ok(current.(infos := infos));
  }

  /** One match with fewer than three keys on a side makes the whole event fail. */
  lemma {:induction false} IncompleteMatchFails(db: Store, competition: string, ms: seq<MatchData>, k: nat)
    requires k < |ms| && !Complete(ms[k])
    ensures ImportMatches(db, competition, ms).Err?
    decreases |ms|
  {
    if k < |ms| - 1 {
      IncompleteMatchFails(db, competition, ms[..|ms| - 1], k);
    }
  }

  /** One imported match adds or replaces the row under its own key and touches no other row. */
  lemma ImportMatchRows(s: Store, competition: string, m: MatchData)
    requires ImportMatch(s, competition, m).Ok? && Complete(m)
    ensures var s' := ImportMatch(s, competition, m).value.0;
            && s'.matches.Keys == s.matches.Keys + {(competition, MatchNumber(m))}
            && (forall key :: key in s.matches && key != (competition, MatchNumber(m)) ==> s'.matches[key] == s.matches[key])
  {
  }

  /** One step of the match loop that went through: the loop before it went through, and the last match was imported. */
  lemma ImportMatchesStep(db: Store, competition: string, ms: seq<MatchData>)
    requires ms != [] && ImportMatches(db, competition, ms).Ok?
    ensures ImportMatches(db, competition, ms[..|ms| - 1]).Ok?
    ensures Complete(ms[|ms| - 1]) && KeysParse(ms[|ms| - 1])
    ensures var s := ImportMatches(db, competition, ms[..|ms| - 1]).value.0;
            && ImportMatch(s, competition, ms[|ms| - 1]).Ok?
            && ImportMatches(db, competition, ms).value.0 == ImportMatch(s, competition, ms[|ms| - 1]).value.0
    ensures ImportMatches(db, competition, ms).value.1
              == ImportMatches(db, competition, ms[..|ms| - 1]).value.1 + TeamSet(TeamsOf(ms[|ms| - 1]))
  {
  }

  /** The match was complete and has a row under its number in this competition. */
  predicate HasRow(m: MatchData, competition: string, rows: map<(string, int), MatchRow>) {
    Complete(m) && (competition, MatchNumber(m)) in rows
  }

  /** When the match loop completes, every match was complete and has a row under its number in this competition. */
  lemma {:induction false} MatchesImported(db: Store, competition: string, ms: seq<MatchData>)
    requires ImportMatches(db, competition, ms).Ok?
    ensures forall k :: 0 <= k < |ms| ==> HasRow(ms[k], competition, ImportMatches(db, competition, ms).value.0.matches)
    decreases |ms|
  {
    if ms != [] {
      var prefix := ms[..|ms| - 1];
      ImportMatchesStep(db, competition, ms);
      MatchesImported(db, competition, prefix);
      var s := ImportMatches(db, competition, prefix).value.0;
      var last := ms[|ms| - 1];
      ImportMatchRows(s, competition, last);
      var rows := ImportMatches(db, competition, ms).value.0.matches;
      assert s.matches.Keys <= rows.Keys;
      assert HasRow(last, competition, rows);
      forall k | 0 <= k < |ms| ensures HasRow(ms[k], competition, rows) {
        if k != |ms| - 1 {
          assert ms[k] == prefix[k] && HasRow(prefix[k], competition, s.matches);
        }
      }
    }
  }

  /** The match loop leaves the rows of other competitions, the competitions and the TeamInfo rows untouched. */
  lemma {:induction false} OtherRowsKept(db: Store, competition: string, ms: seq<MatchData>)
    requires ImportMatches(db, competition, ms).Ok?
    ensures var s := ImportMatches(db, competition, ms).value.0;
            && (forall key :: key in db.matches && key.0 != competition ==> key in s.matches && s.matches[key] == db.matches[key])
            && s.infos == db.infos && s.competitions == db.competitions
    decreases |ms|
  {
    if ms != [] {
      var prefix := ms[..|ms| - 1];
      ImportMatchesStep(db, competition, ms);
      OtherRowsKept(db, competition, prefix);
      var s := ImportMatches(db, competition, prefix).value.0;
      var last := ms[|ms| - 1];
      ImportMatchRows(s, competition, last);
    }
  }

  /** The match was complete, its keys parse, and its six teams are in `seen`. */
  predicate Collected(m: MatchData, seen: set<int>) {
    Complete(m) && KeysParse(m) && forall j :: 0 <= j < 6 ==> TeamsOf(m)[j] in seen
  }

  /** The loop over a non-empty prefix went through the shorter one and added the last match's six teams. */
  lemma CollectedOwn(m: MatchData)
    requires Complete(m) && KeysParse(m)
    ensures Collected(m, TeamSet(TeamsOf(m)))
  {
  }

  /** Every team of every imported match is in the set handed to `create_team_infos`. */
  lemma {:induction false} TeamsCollected(db: Store, competition: string, ms: seq<MatchData>)
    requires ImportMatches(db, competition, ms).Ok?
    ensures forall k :: 0 <= k < |ms| ==> Collected(ms[k], ImportMatches(db, competition, ms).value.1)
    decreases |ms|
  {
    if ms != [] {
      var prefix := ms[..|ms| - 1];
      ImportMatchesStep(db, competition, ms);
      TeamsCollected(db, competition, prefix);
      var seen := ImportMatches(db, competition, prefix).value.1;
      var last := ms[|ms| - 1];
      var own := TeamSet(TeamsOf(last));
      var seen' := ImportMatches(db, competition, ms).value.1;
      CollectedOwn(last);
      CollectedGrows(last, own, seen');
      forall k | 0 <= k < |ms| ensures Collected(ms[k], seen') {
        if k != |ms| - 1 {
          assert ms[k] == prefix[k];
          CollectedGrows(prefix[k], seen, seen');
        }
      }
    }
  }

  lemma CollectedGrows(m: MatchData, seen: set<int>, more: set<int>)
    requires Collected(m, seen) && seen <= more
    ensures Collected(m, more)
  {
  }

  /** Every match is complete, its keys parse, and each of its six teams has a TeamInfo row for the competition. */
  predicate PlayersHaveRows(ms: seq<MatchData>, competition: string, infos: map<(int, string), TeamRecord>) {
    forall k :: 0 <= k < |ms| ==>
      Complete(ms[k]) && KeysParse(ms[k]) && forall j :: 0 <= j < 6 ==> (TeamsOf(ms[k])[j], competition) in infos
  }

  /** A committed event has its competition row and keeps every TeamInfo row already there. */
  lemma EventKeepsInfos(db: Store, ev: EventData)
    requires EventImport(db, ev).Ok?
    ensures ev.key in EventImport(db, ev).value.competitions
    ensures forall k :: k in db.infos ==> k in EventImport(db, ev).value.infos && EventImport(db, ev).value.infos[k] == db.infos[k]
  {
    var start := WithCompetition(db, ev);
    OtherRowsKept(start, ev.key, ev.matches);
    var (s, seen) := ImportMatches(start, ev.key, ev.matches).value;
    assert EventImport(db, ev).value == s.(infos := WithInfos(s.infos, seen, ev.key));
    WithInfosMeaning(s.infos, seen, ev.key);
  }

  /** A committed event gives every team that played in it a TeamInfo row for this competition. */
  lemma EventTeamInfos(db: Store, ev: EventData)
    requires EventImport(db, ev).Ok?
    ensures PlayersHaveRows(ev.matches, ev.key, EventImport(db, ev).value.infos)
  {
    var start := WithCompetition(db, ev);
    TeamsCollected(start, ev.key, ev.matches);
    var (s, seen) := ImportMatches(start, ev.key, ev.matches).value;
    var infos := WithInfos(s.infos, seen, ev.key);
    assert EventImport(db, ev).value.infos == infos;
    WithInfosMeaning(s.infos, seen, ev.key);
    RowsForCollected(ev.matches, seen, ev.key, infos);
  }

  lemma RowsForCollected(ms: seq<MatchData>, seen: set<int>, competition: string, infos: map<(int, string), TeamRecord>)
    requires forall k :: 0 <= k < |ms| ==> Collected(ms[k], seen)
    requires forall t :: t in seen ==> (t, competition) in infos
    ensures PlayersHaveRows(ms, competition, infos)
  {
    forall k, j | 0 <= k < |ms| && 0 <= j < 6
      ensures Complete(ms[k]) && KeysParse(ms[k]) && (TeamsOf(ms[k])[j], competition) in infos
    {
      assert Collected(ms[k], seen);
      var t := TeamsOf(ms[k])[j];
      assert t in seen;
      assert (t, competition) in infos;
    }
  }

  /** Team t holds one of the six slots of some complete match of `ms` whose keys parse. */
  predicate PlaysIn(ms: seq<MatchData>, t: int) {
    exists k, j :: 0 <= k < |ms| && 0 <= j < 6 && Complete(ms[k]) && KeysParse(ms[k]) && TeamsOf(ms[k])[j] == t
  }

  /** The set handed to `create_team_infos` holds only teams of the imported matches. */
  lemma {:induction false} SeenFromMatches(db: Store, competition: string, ms: seq<MatchData>)
    requires ImportMatches(db, competition, ms).Ok?
    ensures forall t :: t in ImportMatches(db, competition, ms).value.1 ==> PlaysIn(ms, t)
    decreases |ms|
  {
    if ms != [] {
      var prefix := ms[..|ms| - 1];
      ImportMatchesStep(db, competition, ms);
      SeenFromMatches(db, competition, prefix);
      var seen := ImportMatches(db, competition, prefix).value.1;
      var last := ms[|ms| - 1];
      forall t | t in ImportMatches(db, competition, ms).value.1 ensures PlaysIn(ms, t) {
        if t in seen {
          var k, j :| 0 <= k < |prefix| && 0 <= j < 6 && Complete(prefix[k]) && KeysParse(prefix[k]) && TeamsOf(prefix[k])[j] == t;
          assert ms[k] == prefix[k];
        } else {
          var j :| 0 <= j < 6 && TeamsOf(last)[j] == t;
          assert TeamsOf(ms[|ms| - 1])[j] == t;
        }
      }
    }
  }

  /** A committed event adds TeamInfo rows only for this competition and only for teams that played in it. */
  lemma EventNewInfos(db: Store, ev: EventData)
    requires EventImport(db, ev).Ok?
    ensures forall key :: key in EventImport(db, ev).value.infos && key !in db.infos ==>
              key.1 == ev.key && PlaysIn(ev.matches, key.0)
  {
    var start := WithCompetition(db, ev);
    OtherRowsKept(start, ev.key, ev.matches);
    SeenFromMatches(start, ev.key, ev.matches);
    var (s, seen) := ImportMatches(start, ev.key, ev.matches).value;
    assert EventImport(db, ev).value.infos == WithInfos(s.infos, seen, ev.key);
    WithInfosMeaning(s.infos, seen, ev.key);
  }

  // ------------------------------------------------------------------ handle

  /** What the command reports: a missing API key, or per event key a success or the error. */
  datatype Report = ApiKeyRequired | Succeeded(key: string) | Failed(key: string, error: ImportError)

  /** The event loop from the first event on: each event commits or leaves the store as it was. */
  function RunEvents(db: Store, events: seq<EventData>): (r: (Store, seq<Report>))
    ensures |r.1| == |events|
    ensures forall k :: 0 <= k < |events| ==> !r.1[k].ApiKeyRequired? && r.1[k].key == events[k].key
    decreases |events|
  {
    if events == [] then (db, [])
    else
      var (before, reports) := RunEvents(db, events[..|events| - 1]);
      var ev := events[|events| - 1];
      match EventImport(before, ev)
      case Ok(after) => (after, reports + [Succeeded(ev.key)])
      case Err(e) => (before, reports + [Failed(ev.key, e)])
  }

  /**
   * Every event key gets its own report, in order, and a failed event leaves
   * the store exactly as the events before it left it.
   */
  lemma {:induction false} RunEventsReports(db: Store, events: seq<EventData>, i: nat)
    requires i < |events|
    ensures var before := RunEvents(db, events[..i]).0;
            var after := RunEvents(db, events[..i + 1]).0;
            && (RunEvents(db, events).1[i].Failed? <==> EventImport(before, events[i]).Err?)
            && (RunEvents(db, events).1[i].Failed? ==> after == before)
            && (RunEvents(db, events).1[i].Succeeded? ==> after == EventImport(before, events[i]).value)
    decreases |events|
  {
    var prefix := events[..|events| - 1];
    if i < |events| - 1 {
      assert prefix[..i] == events[..i] && prefix[..i + 1] == events[..i + 1];
    } else {
      assert events[..i] == prefix && events[..i + 1] == events;
    }
    var shorter := RunEvents(db, prefix);
    var last := EventImport(shorter.0, events[|events| - 1]);
    assert RunEvents(db, events).1 == shorter.1 + [if last.Ok? then Succeeded(events[|events| - 1].key) else Failed(events[|events| - 1].key, last.error)];
    if i < |events| - 1 {
      RunEventsReports(db, prefix, i);
      assert RunEvents(db, events).1[i] == shorter.1[i];
    } else {
      assert RunEvents(db, events).0 == if last.Ok? then last.value else shorter.0;
    }
  }

  /**
   * `handle`: without an API key (from the option or the environment) report
   * it and stop; otherwise import each event in its own transaction,
   * reporting success or the error and going on with the next key.
   */
  method Handle(db: Store, events: seq<EventData>, apiKeyOption: string, environmentKey: string)
    returns (final: Store, reports: seq<Report>)
    ensures apiKeyOption == "" && environmentKey == "" ==> final == db && reports == [ApiKeyRequired]
    ensures apiKeyOption != "" || environmentKey != "" ==> (final, reports) == RunEvents(db, events)
  {
    var apiKey := apiKeyOption;
    if apiKey == "" {
      apiKey := environmentKey;
    }
    if apiKey == "" {
      return db, [ApiKeyRequired];
    }
    final, reports := db, [];
    var i := 0;
    while i < |events|
      invariant 0 <= i <= |events|
      invariant (final, reports) == RunEvents(db, events[..i])
    {
      assert events[..i + 1][..i] == events[..i];
      var r := ImportEvent(final, events[i]);
      if r.Ok? {
        final, reports := r.value, reports + [Succeeded(events[i].key)];
      } else {
        reports := reports + [Failed(events[i].key, r.error)];
      }
      i := i + 1;
    }
    assert events[..i] == events;
  }
}
