/**
 * The match-video download command: it anchors three competition days at
 * the earliest played match, picks each match's day stream and offset, maps
 * the match's Unix start time onto that stream's elapsed time and renders the
 * clip window as HH:MM:SS for the video downloader.
 *
 * The downloader itself (yt-dlp) is a parameter: `download(link, start, end)`
 * says whether fetching that range succeeded.
 */
module MatchVideos {
  import opened Wrappers
  import Decimal

  /** Day 1 ends 12 hours after the first played match starts. */
  const DayOneLength: int := 12 * 3600
  /** Day 2 ends 24 hours after day 1 ends. */
  const DayTwoLength: int := 24 * 3600
  /** Every clip covers a fixed 2:30 match plus the buffer on both sides. */
  const MatchLength: int := 150

  /** The competition row: one stream link and one stream-to-Unix offset per day (0 = unset). */
  datatype Competition = Competition(
    code: string,
    streamLinkDay1: string, streamLinkDay2: string, streamLinkDay3: string,
    offsetDay1: int, offsetDay2: int, offsetDay3: int)

  /** The match row fields the command reads; `startMatchTime` is Unix seconds, 0 when not played. */
  datatype Match = Match(competition: string, matchNumber: int, matchType: string, startMatchTime: int)

  /** The exclusive ends of day 1 and day 2. */
  datatype DayBounds = DayBounds(day1End: int, day2End: int)

  function BoundsFrom(firstMatchTime: int): DayBounds {
    var day1End := firstMatchTime + DayOneLength;
    DayBounds(day1End, day1End + DayTwoLength)
  }

  function DayOf(t: int, b: DayBounds): (day: int)
    ensures 1 <= day <= 3
  {
    if t < b.day1End then 1 else if t < b.day2End then 2 else 3
  }

  function StreamLink(c: Competition, day: int): string
    requires 1 <= day <= 3
  {
    if day == 1 then c.streamLinkDay1 else if day == 2 then c.streamLinkDay2 else c.streamLinkDay3
  }

  function Offset(c: Competition, day: int): int
    requires 1 <= day <= 3
  {
    if day == 1 then c.offsetDay1 else if day == 2 then c.offsetDay2 else c.offsetDay3
  }

  /** The day is half-open on both thresholds, counted from the first played match. */
  lemma DayThresholds(first: int, t: int)
    ensures DayOf(t, BoundsFrom(first)) == 1 <==> t < first + 12 * 3600
    ensures DayOf(t, BoundsFrom(first)) == 2 <==> first + 12 * 3600 <= t < first + 36 * 3600
    ensures DayOf(t, BoundsFrom(first)) == 3 <==> first + 36 * 3600 <= t
  {
  }

  /** A later match never falls on an earlier day. */
  lemma DayMonotone(first: int, t1: int, t2: int)
    requires t1 <= t2
    ensures DayOf(t1, BoundsFrom(first)) <= DayOf(t2, BoundsFrom(first))
  {
  }

  datatype SkipReason = NoStreamLink | OffsetNotSet

  /** What the per-match step decides: skip, or fetch [start, end] of the day's stream. */
  datatype Plan =
    | Skip(day: int, reason: SkipReason)
    | Window(day: int, streamLink: string, start: int, end: int)

  /** The per-match decision and window arithmetic of the download step. */
  function PlanClip(m: Match, c: Competition, buffer: int, b: DayBounds): (p: Plan)
    ensures p.day == DayOf(m.startMatchTime, b)
    ensures p.Skip? <==> StreamLink(c, p.day) == [] || Offset(c, p.day) == 0
    ensures p.Skip? ==> (p.reason == NoStreamLink <==> StreamLink(c, p.day) == [])
    ensures p.Window? ==> p.streamLink == StreamLink(c, p.day) && p.start >= 0
  {
    var day := DayOf(m.startMatchTime, b);
    var link := StreamLink(c, day);
    var offset := Offset(c, day);
    if link == [] then Skip(day, NoStreamLink)
    else if offset == 0 then Skip(day, OffsetNotSet)
    else
      var start := m.startMatchTime - offset - buffer;
      Window(day, link, if start < 0 then 0 else start, start + MatchLength + 2 * buffer)
  }

  /**
   * The window is the match start moved onto stream time and widened by the
   * buffer; the end is computed from the unclamped start, so clamping a
   * negative start to 0 leaves the end where it was.
   */
  lemma WindowFromStreamTime(m: Match, c: Competition, buffer: int, b: DayBounds)
    requires PlanClip(m, c, buffer, b).Window?
    ensures var p := PlanClip(m, c, buffer, b);
            var raw := m.startMatchTime - Offset(c, p.day) - buffer;
            && p.end == raw + MatchLength + 2 * buffer
            && (raw >= 0 ==> p.start == raw && p.end - p.start == MatchLength + 2 * buffer)
            && (raw < 0 ==> p.start == 0)
  {
  }

  /** With no buffer, adding the offset back to an unclamped stream start recovers the match's Unix start. */
  lemma OffsetRoundTrip(m: Match, c: Competition, b: DayBounds)
    requires PlanClip(m, c, 0, b).Window?
    requires m.startMatchTime - Offset(c, PlanClip(m, c, 0, b).day) >= 0
    ensures PlanClip(m, c, 0, b).start + Offset(c, PlanClip(m, c, 0, b).day) == m.startMatchTime
  {
  }

  /**
   * The window ends before it starts exactly when the whole padded match lies
   * before the stream began: then the start is clamped to 0 and the end stays negative.
   */
  lemma InvertedWindow(m: Match, c: Competition, buffer: int, b: DayBounds)
    requires buffer >= 0
    requires PlanClip(m, c, buffer, b).Window?
    ensures var p := PlanClip(m, c, buffer, b);
            p.end < p.start <==> m.startMatchTime - Offset(c, p.day) - buffer + MatchLength + 2 * buffer < 0
  {
  }

  /**
   * `format_timestamp`: hours, minutes and seconds by floor division (Dafny's
   * division agrees with Python's `//` and `%` for a positive divisor).
   */
  function FormatTimestamp(seconds: int): (s: string)
    ensures 8 <= |s| && s[|s| - 3] == ':' && s[|s| - 6] == ':'
    ensures seconds < 0 ==> s[0] == '-'
  {
    var hours := seconds / 3600;
    var minutes := (seconds % 3600) / 60;
    var secs := seconds % 60;
    Decimal.Pad2(hours) + ":" + Decimal.Pad2(minutes) + ":" + Decimal.Pad2(secs)
  }

  /** Reads "H…H:MM:SS" (any number of hour digits, minutes and seconds below 60) back into seconds. */
  function ParseTimestamp(s: string): Option<int> {
    if |s| < 8 || s[|s| - 3] != ':' || s[|s| - 6] != ':' then None
    else
      var h, m, sec := s[..|s| - 6], s[|s| - 5..|s| - 3], s[|s| - 2..];
      if !Decimal.AllDigits(h) || !Decimal.AllDigits(m) || !Decimal.AllDigits(sec) then None
      else if Decimal.ValueOf(m) >= 60 || Decimal.ValueOf(sec) >= 60 then None
      else Some(Decimal.ValueOf(h) * 3600 + Decimal.ValueOf(m) * 60 + Decimal.ValueOf(sec))
  }

  /**
   * For a non-negative count of seconds, the text splits back into
   * h = s div 3600, m = (s mod 3600) div 60 and sec = s mod 60, with m and sec
   * below 60 and h not wrapped at 24: reading it back gives the count.
   */
  lemma FormatTimestampRoundTrip(seconds: int)
    requires seconds >= 0
    ensures ParseTimestamp(FormatTimestamp(seconds)) == Some(seconds)
  {
    var hours, minutes, secs := seconds / 3600, (seconds % 3600) / 60, seconds % 60;
    var h, m, sc := Decimal.Pad2(hours), Decimal.Pad2(minutes), Decimal.Pad2(secs);
    SplitFields(h, m, sc);
    SplitSeconds(seconds);
  }

  /** The three fields of "h:mm:ss" sit at fixed distances from its end. */
  lemma SplitFields(h: string, m: string, sc: string)
    requires |m| == 2 && |sc| == 2
    ensures var s := h + ":" + m + ":" + sc;
            && |s| == |h| + 6 && s[|s| - 3] == ':' && s[|s| - 6] == ':'
            && s[..|s| - 6] == h && s[|s| - 5..|s| - 3] == m && s[|s| - 2..] == sc
  {
  }

  lemma SplitSeconds(seconds: int)
    requires seconds >= 0
    ensures (seconds % 3600) / 60 < 60 && seconds % 60 < 60
    ensures (seconds / 3600) * 3600 + ((seconds % 3600) / 60) * 60 + seconds % 60 == seconds
  {
    assert (seconds % 3600) % 60 == seconds % 60;
  }

  /**
   * A count written as h hours, m minutes and s seconds (h below 100, m and s
   * below 60) shows as the two digits of each field.
   */
  lemma TimestampDigits(seconds: int, h: nat, m: nat, s: nat)
    requires h < 100 && m < 60 && s < 60 && seconds == h * 3600 + m * 60 + s
    ensures FormatTimestamp(seconds) == [Decimal.DigitChar(h / 10), Decimal.DigitChar(h % 10), ':',
                                         Decimal.DigitChar(m / 10), Decimal.DigitChar(m % 10), ':',
                                         Decimal.DigitChar(s / 10), Decimal.DigitChar(s % 10)]
  {
    assert seconds / 3600 == h && seconds % 3600 == m * 60 + s;
    assert (m * 60 + s) / 60 == m && seconds % 60 == s;
    Decimal.Pad2Digits(h);
    Decimal.Pad2Digits(m);
    Decimal.Pad2Digits(s);
  }

  lemma FormatTimestampExamples()
    ensures FormatTimestamp(3725) == "01:02:05"
    ensures FormatTimestamp(0) == "00:00:00"
    ensures FormatTimestamp(90000) == "25:00:00"
  {
    TimestampDigits(3725, 1, 2, 5);
    TimestampDigits(0, 0, 0, 0);
    TimestampDigits(90000, 25, 0, 0);
  }

  /** A worked window: offset 2000, buffer 30, match at 2200 gives 00:02:50 to 00:06:20. */
  lemma WindowExample()
    ensures var c := Competition("x", "link", "", "", 2000, 0, 0);
            var p := PlanClip(Match("x", 1, "qualification", 2200), c, 30, BoundsFrom(2200));
            && p == Window(1, "link", 170, 380)
            && FormatTimestamp(170) == "00:02:50" && FormatTimestamp(380) == "00:06:20"
  {
    TimestampDigits(170, 0, 2, 50);
    TimestampDigits(380, 0, 6, 20);
  }

  /** The clip's file name, `match_<type>_<number>_day<day>.mp4`. */
  function OutputFile(m: Match, day: int): string {
    "match_" + m.matchType + "_" + Decimal.IntToString(m.matchNumber) + "_day" + Decimal.IntToString(day) + ".mp4"
  }

  /** What the command reports for one match. */
  datatype Report =
    | Skipped(matchNumber: int, day: int, reason: SkipReason)
    | Attempted(matchNumber: int, day: int, startText: string, endText: string, outputFile: string, downloaded: bool)

  /**
   * `download_match_video`: choose the day, skip without a stream link or
   * offset, compute and clamp the window, then fetch it; a failed fetch is
   * reported in the result and raises nothing.
   */
  method DownloadMatchVideo(m: Match, c: Competition, buffer: int, b: DayBounds, download: (string, int, int) -> bool)
    returns (r: Report)
    ensures match PlanClip(m, c, buffer, b)
            case Skip(day, reason) => r == Skipped(m.matchNumber, day, reason)
            case Window(day, link, start, end) =>
              r == Attempted(m.matchNumber, day, FormatTimestamp(start), FormatTimestamp(end),
                             OutputFile(m, day), download(link, start, end))
  {
    var matchTime := m.startMatchTime;
    var day, streamLink, offset;
    if matchTime < b.day1End {
      day, streamLink, offset := 1, c.streamLinkDay1, c.offsetDay1;
    } else if matchTime < b.day2End {
      day, streamLink, offset := 2, c.streamLinkDay2, c.offsetDay2;
    } else {
      day, streamLink, offset := 3, c.streamLinkDay3, c.offsetDay3;
    }
    ghost var p := PlanClip(m, c, buffer, b);
    assert day == p.day && streamLink == StreamLink(c, day) && offset == Offset(c, day);
    if streamLink == [] {
      return Skipped(m.matchNumber, day, NoStreamLink);
    }
    if offset == 0 {
      return Skipped(m.matchNumber, day, OffsetNotSet);
    }
    var videoStartTime := m.startMatchTime - offset - buffer;
    var videoEndTime := videoStartTime + MatchLength + 2 * buffer;
    if videoStartTime < 0 {
      videoStartTime := 0;
    }
    assert p == Window(day, streamLink, videoStartTime, videoEndTime);
    var ok := download(streamLink, videoStartTime, videoEndTime);
    r := Attempted(m.matchNumber, day, FormatTimestamp(videoStartTime), FormatTimestamp(videoEndTime),
                   OutputFile(m, day), ok);
  }

  /** The report the download step gives for one match. */
  function ReportFor(m: Match, c: Competition, buffer: int, b: DayBounds, download: (string, int, int) -> bool): Report {
    match PlanClip(m, c, buffer, b)
    case Skip(day, reason) => Skipped(m.matchNumber, day, reason)
    case Window(day, link, start, end) =>
      Attempted(m.matchNumber, day, FormatTimestamp(start), FormatTimestamp(end), OutputFile(m, day), download(link, start, end))
  }

  /** The query filter: this competition, a recorded start time, and the requested match number if any. */
  predicate Wanted(m: Match, code: string, matchNumber: Option<int>) {
    m.competition == code && m.startMatchTime > 0 && (matchNumber.Some? ==> m.matchNumber == matchNumber.value)
  }

  function Selected(ms: seq<Match>, code: string, matchNumber: Option<int>): (r: seq<Match>)
    ensures forall x :: x in r <==> x in ms && Wanted(x, code, matchNumber)
  {
    if ms == [] then []
    else if Wanted(ms[0], code, matchNumber) then [ms[0]] + Selected(ms[1..], code, matchNumber)
    else
      assert ms == [ms[0]] + ms[1..];
      Selected(ms[1..], code, matchNumber)
  }

  predicate SortedByStart(ms: seq<Match>) {
    forall i, j :: 0 <= i < j < |ms| ==> ms[i].startMatchTime <= ms[j].startMatchTime
  }

  function Insert(m: Match, ms: seq<Match>): seq<Match> {
    if ms == [] || m.startMatchTime <= ms[0].startMatchTime then [m] + ms
    else [ms[0]] + Insert(m, ms[1..])
  }

  /** `order_by('start_match_time')`. */
  function SortByStart(ms: seq<Match>): seq<Match> {
    if ms == [] then [] else Insert(ms[0], SortByStart(ms[1..]))
  }

  /** Insertion adds exactly the one match. */
  lemma {:induction false} InsertPermutes(m: Match, ms: seq<Match>)
    ensures multiset(Insert(m, ms)) == multiset(ms) + multiset{m}
    decreases |ms|
  {
    if ms != [] && m.startMatchTime > ms[0].startMatchTime {
      InsertPermutes(m, ms[1..]);
      assert ms == [ms[0]] + ms[1..];
    }
  }

  lemma {:induction false} InsertSorted(m: Match, ms: seq<Match>)
    requires SortedByStart(ms)
    ensures SortedByStart(Insert(m, ms))
    ensures multiset(Insert(m, ms)) == multiset(ms) + multiset{m}
    decreases |ms|
  {
    InsertPermutes(m, ms);
    if ms != [] && m.startMatchTime > ms[0].startMatchTime {
      InsertSorted(m, ms[1..]);
      var r := Insert(m, ms[1..]);
      forall x | x in r ensures ms[0].startMatchTime <= x.startMatchTime {
        assert x in multiset(r);
        assert x == m || x in ms[1..];
      }
    }
  }

  /** The ordering yields the same matches, in ascending start time. */
  lemma {:induction false} SortByStartCorrect(ms: seq<Match>)
    ensures SortedByStart(SortByStart(ms))
    ensures multiset(SortByStart(ms)) == multiset(ms)
    decreases |ms|
  {
    if ms != [] {
      SortByStartCorrect(ms[1..]);
      InsertSorted(ms[0], SortByStart(ms[1..]));
      assert ms == [ms[0]] + ms[1..];
    }
  }

  /** The outcome of the whole command. */
  datatype Outcome = CompetitionNotFound | NoStreamLinks | NoMatches | Processed(reports: seq<Report>)

  /**
   * `handle`: look up the competition, give up without any stream link or
   * without qualifying matches, anchor the days at the earliest match, and
   * run the download step on every match in start-time order.
   */
  method Handle(code: string, found: Option<Competition>, matches: seq<Match>, matchNumber: Option<int>,
                buffer: int, download: (string, int, int) -> bool)
    returns (o: Outcome)
    requires found.Some? ==> found.value.code == code
    ensures found.None? <==> o == CompetitionNotFound
    ensures found.Some? ==>
              (o == NoStreamLinks <==>
                 found.value.streamLinkDay1 == [] && found.value.streamLinkDay2 == [] && found.value.streamLinkDay3 == [])
    ensures o == NoMatches <==> o != CompetitionNotFound && o != NoStreamLinks && Selected(matches, code, matchNumber) == []
    ensures o.Processed? ==>
              var ms := SortByStart(Selected(matches, code, matchNumber));
              && found.Some? && ms != []
              && |o.reports| == |ms|
              && forall i :: 0 <= i < |ms| ==>
                   o.reports[i] == ReportFor(ms[i], found.value, buffer, BoundsFrom(ms[0].startMatchTime), download)
  {
    if found.None? {
      return CompetitionNotFound;
    }
    var c := found.value;
    if c.streamLinkDay1 == [] && c.streamLinkDay2 == [] && c.streamLinkDay3 == [] {
      return NoStreamLinks;
    }
    var ms := SortByStart(Selected(matches, code, matchNumber));
    if ms == [] {
      SortByStartCorrect(Selected(matches, code, matchNumber));
      assert |multiset(Selected(matches, code, matchNumber))| == 0;
      return NoMatches;
    }
    var firstMatchTime := ms[0].startMatchTime;
    var bounds := BoundsFrom(firstMatchTime);
    var reports := DownloadAll(ms, c, buffer, bounds, download);
    o := Processed(reports);
  }

  /** The loop of `handle`: the download step on each match in turn, whatever the earlier ones reported. */
  method DownloadAll(ms: seq<Match>, c: Competition, buffer: int, b: DayBounds, download: (string, int, int) -> bool)
    returns (reports: seq<Report>)
    ensures |reports| == |ms|
    ensures forall k :: 0 <= k < |ms| ==> reports[k] == ReportFor(ms[k], c, buffer, b, download)
  {
    reports := [];
    var i := 0;
    while i < |ms|
      invariant 0 <= i <= |ms|
      invariant |reports| == i
      invariant forall k :: 0 <= k < i ==> reports[k] == ReportFor(ms[k], c, buffer, b, download)
    {
      var r := DownloadMatchVideo(ms[i], c, buffer, b, download);
      reports := reports + [r];
      i := i + 1;
    }
  }

  /**
   * The matches a processed run walks through are exactly the wanted ones,
   * in ascending start time, each with a recorded start, and the first of
   * them (the day anchor) starts no later than any other.
   */
  lemma ProcessedOrder(matches: seq<Match>, code: string, matchNumber: Option<int>)
    ensures var ms := SortByStart(Selected(matches, code, matchNumber));
            && SortedByStart(ms)
            && multiset(ms) == multiset(Selected(matches, code, matchNumber))
            && (forall x :: x in ms <==> x in matches && Wanted(x, code, matchNumber))
            && (forall i :: 0 <= i < |ms| ==> ms[i].startMatchTime > 0 && ms[0].startMatchTime <= ms[i].startMatchTime)
  {
    var sel := Selected(matches, code, matchNumber);
    SortByStartCorrect(sel);
    var ms := SortByStart(sel);
    forall x ensures x in ms <==> x in sel {
      assert x in ms <==> x in multiset(ms);
      assert x in sel <==> x in multiset(sel);
    }
    forall i | 0 <= i < |ms| ensures ms[i].startMatchTime > 0 && ms[0].startMatchTime <= ms[i].startMatchTime {
      assert ms[i] in sel;
      assert Wanted(ms[i], code, matchNumber);
    }
  }

  /** The earliest match is always on day 1. */
  lemma AnchorOnDayOne(ms: seq<Match>)
    requires ms != []
    ensures DayOf(ms[0].startMatchTime, BoundsFrom(ms[0].startMatchTime)) == 1
  {
  }
}
