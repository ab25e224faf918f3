/**
 * The stand-alone clip script: it builds a Basic-auth token, fetches the
 * event's played qualification matches, reads the stream time of the first
 * match ("MM:SS.fff"), and cuts one clip per match by shifting each match's
 * results-API times so that the first match starts at that stream time.
 *
 * The results API and the video downloader are parameters: `getMatches(token)`
 * is the list the API returns, `download(clip)` whether fetching it succeeded
 * (the script has no `try`, so a failed fetch ends the run).
 */
module ClipScript {
  import opened Wrappers
  import Decimal
  import Base64Url

  /** `s.encode("ascii")`: the code points of an all-ASCII string, None when any character is not ASCII. */
  function AsciiBytes(s: string): (r: Option<seq<Base64Url.byte>>)
    ensures r.Some? <==> forall i :: 0 <= i < |s| ==> s[i] as int < 128
    ensures r.Some? ==> |r.value| == |s| && forall i :: 0 <= i < |s| ==> r.value[i] == s[i] as int
    decreases |s|
  {
    if s == [] then Some([])
    else if s[0] as int >= 128 then None
    else match AsciiBytes(s[1..])
      case None => None
      case Some(tail) => Some([s[0] as int] + tail)
  }

  datatype TokenError =
    | MissingCredential   // User or AuthorizationKey not given: `None + ":"` raises
    | NonAsciiCredential  // the ASCII encoding raises

  /** `ParseToken`: URL-safe Base64 of "user:key". */
  function ParseToken(user: Option<string>, key: Option<string>): Result<string, TokenError> {
    if user.None? || key.None? then Err(MissingCredential)
    else match AsciiBytes(user.value + ":" + key.value)
      case None => Err(NonAsciiCredential)
      case Some(bytes) => Ok(Base64Url.Encode(bytes))
  }

  /**
   * The token is the padded URL-safe Base64 of "user:key", 4·ceil(n/3)
   * characters long for n = |user| + 1 + |key|, and it decodes back to those
   * bytes; it exists exactly when both are given and all ASCII.
   */
  lemma ParseTokenIsBase64(user: Option<string>, key: Option<string>)
    ensures ParseToken(user, key).Ok? <==>
              user.Some? && key.Some? &&
              forall i :: 0 <= i < |user.value + ":" + key.value| ==> (user.value + ":" + key.value)[i] as int < 128
    ensures ParseToken(user, key).Ok? ==>
              var t := ParseToken(user, key).value;
              && |t| == 4 * ((|user.value| + |key.value| + 3) / 3)
              && Base64Url.Decode(t) == AsciiBytes(user.value + ":" + key.value)
  {
    if user.Some? && key.Some? {
      var bytes := AsciiBytes(user.value + ":" + key.value);
      if bytes.Some? {
        Base64Url.EncodeLength(bytes.value);
        Base64Url.DecodeEncode(bytes.value);
      }
    }
  }

  /** `args.Token or ParseToken(args.User, args.AuthorizationKey)`. */
  function ChooseToken(token: Option<string>, user: Option<string>, key: Option<string>): (r: Result<string, TokenError>)
    ensures token.Some? && token.value != [] ==> r == Ok(token.value)
    ensures token.None? || token.value == [] ==> r == ParseToken(user, key)
  {
    if token.Some? && token.value != [] then Ok(token.value) else ParseToken(user, key)
  }

  /** The first position of `c` in `s`, or |s| when it does not occur. */
  function FirstIndex(s: string, c: char): (i: nat)
    ensures i <= |s| && (i < |s| ==> s[i] == c)
    ensures forall j :: 0 <= j < i ==> s[j] != c
    decreases |s|
  {
    if s == [] then 0 else if s[0] == c then 0 else 1 + FirstIndex(s[1..], c)
  }

  /** The `%M` field of `strptime`: pattern `[0-5]\d|\d`. */
  function ParseMinutes(f: string): (r: Option<nat>)
    ensures r.Some? ==> r.value < 60
  {
    if |f| == 1 && Decimal.IsDigit(f[0]) then Some(Decimal.DigitValue(f[0]))
    else if |f| == 2 && '0' <= f[0] <= '5' && Decimal.IsDigit(f[1])
    then Some(Decimal.DigitValue(f[0]) * 10 + Decimal.DigitValue(f[1]))
    else None
  }

  /** The `%S` field of `strptime`: pattern `6[0-1]|[0-5]\d|\d`. */
  function ParseSeconds(f: string): (r: Option<nat>)
    ensures r.Some? ==> r.value <= 61
  {
    if |f| == 1 && Decimal.IsDigit(f[0]) then Some(Decimal.DigitValue(f[0]))
    else if |f| == 2 && ((f[0] == '6' && '0' <= f[1] <= '1') || ('0' <= f[0] <= '5' && Decimal.IsDigit(f[1])))
    then Some(Decimal.DigitValue(f[0]) * 10 + Decimal.DigitValue(f[1]))
    else None
  }

  /**
   * `strptime(arg, "%M:%S.%f")` turned into whole seconds: minutes·60 +
   * seconds; the 1–6 digit fraction must be present but is dropped. Seconds
   * 60 and 61 pass the pattern and are then refused by `datetime`.
   */
  function ParseStartTime(s: string): (r: Option<nat>)
    ensures r.Some? ==> r.value < 3600
  {
    var i := FirstIndex(s, ':');
    if i == |s| then None
    else
      var rest := s[i + 1..];
      var j := FirstIndex(rest, '.');
      if j == |rest| then None
      else
        var minutes, seconds, fraction := ParseMinutes(s[..i]), ParseSeconds(rest[..j]), rest[j + 1..];
        if minutes.None? || seconds.None? || !(1 <= |fraction| <= 6 && Decimal.AllDigits(fraction)) then None
        else if seconds.value > 59 then None
        else Some(minutes.value * 60 + seconds.value)
  }

  /** Any "MM:SS.fff" written with two-digit fields reads back as minutes·60 + seconds, whatever the fraction. */
  lemma ParseStartTimeRoundTrip(minutes: nat, seconds: nat, fraction: string)
    requires minutes < 60 && seconds < 60
    requires 1 <= |fraction| <= 6 && Decimal.AllDigits(fraction)
    ensures ParseStartTime(Decimal.Pad2(minutes) + ":" + Decimal.Pad2(seconds) + "." + fraction) == Some(minutes * 60 + seconds)
  {
    var mm, ss := Decimal.Pad2(minutes), Decimal.Pad2(seconds);
    var s := mm + ":" + ss + "." + fraction;
    assert FirstIndex(s, ':') == 2 by {
      assert s[0] == mm[0] && s[1] == mm[1] && s[2] == ':';
    }
    var rest := s[3..];
    assert rest == ss + "." + fraction;
    assert FirstIndex(rest, '.') == 2 by {
      assert rest[0] == ss[0] && rest[1] == ss[1] && rest[2] == '.';
    }
    assert s[..2] == mm && rest[..2] == ss && rest[3..] == fraction;
    Decimal.ValueOfTwoDigits(mm);
    Decimal.ValueOfTwoDigits(ss);
  }

  /** A leap second passes the pattern but not `datetime`; a minute above 59 does not match. */
  lemma ParseStartTimeRejects()
    ensures ParseStartTime("05:60.0") == None
    ensures ParseStartTime("75:00.0") == None
  {
    assert FirstIndex("05:60.0", ':') == 2 && "05:60.0"[3..] == "60.0";
    assert FirstIndex("60.0", '.') == 2 && "60.0"[..2] == "60";
    assert ParseSeconds("60") == Some(60);
    assert FirstIndex("75:00.0", ':') == 2 && "75:00.0"[..2] == "75";
    assert ParseMinutes("75") == None;
  }

  /** The fields of one entry of the results API, as seconds. */
  datatype ApiMatch = ApiMatch(actualStartTime: int, postResultTime: int)

  /** One clip: output name and stream range in seconds. */
  datatype Clip = Clip(name: string, start: int, end: int)

  /** The results entry that clip n is cut from: clip 0 from `Matches[0]`, clip n ≥ 1 from `Matches[n + 1]`. */
  function SourceIndex(n: nat): nat {
    if n == 0 then 0 else n + 1
  }

  function ClipName(n: nat): string {
    if n == 0 then "Match_1" else "Match" + Decimal.NatToString(n)
  }

  /** Clip n: the source match's times shifted so that `Matches[0]` starts at the given stream time. */
  function ClipAt(ms: seq<ApiMatch>, startTime: int, n: nat): Clip
    requires SourceIndex(n) < |ms|
  {
    var reference := ms[0].actualStartTime;
    var m := ms[SourceIndex(n)];
    Clip(ClipName(n),
         if n == 0 then startTime else m.actualStartTime - reference + startTime,
         m.postResultTime - reference + startTime)
  }

  /** Every clip is its match shifted by one constant: it lasts from start to post-result, whatever the stream time. */
  lemma ClipShift(ms: seq<ApiMatch>, startTime: int, n: nat)
    requires SourceIndex(n) < |ms|
    ensures var c := ClipAt(ms, startTime, n);
            var m := ms[SourceIndex(n)];
            && c.start == m.actualStartTime - ms[0].actualStartTime + startTime
            && c.end - c.start == m.postResultTime - m.actualStartTime
  {
  }

  /** The first match maps exactly onto the given stream time. */
  lemma AnchorAtStartTime(ms: seq<ApiMatch>, startTime: int)
    requires ms != []
    ensures ClipAt(ms, startTime, 0).start == startTime
    ensures ClipAt(ms, startTime, 0).end == startTime + ms[0].postResultTime - ms[0].actualStartTime
  {
  }

  /** The mapping keeps order: a later start gives a later clip start. */
  lemma ClipOrder(ms: seq<ApiMatch>, startTime: int, n: nat, k: nat)
    requires SourceIndex(n) < |ms| && SourceIndex(k) < |ms|
    requires ms[SourceIndex(n)].actualStartTime <= ms[SourceIndex(k)].actualStartTime
    ensures ClipAt(ms, startTime, n).start <= ClipAt(ms, startTime, k).start
  {
  }

  /** No clip is ever cut from `Matches[1]`, and distinct clips come from distinct entries. */
  lemma SecondMatchNeverClipped(n: nat, k: nat)
    ensures SourceIndex(n) != 1
    ensures n != k ==> SourceIndex(n) != SourceIndex(k)
  {
  }

  /** The output names "Match_1", "Match1", "Match2", … are pairwise distinct. */
  lemma ClipNamesDistinct(n: nat, k: nat)
    requires n != k
    ensures ClipName(n) != ClipName(k)
  {
    if n != 0 && k != 0 {
      var a, b := Decimal.NatToString(n), Decimal.NatToString(k);
      Decimal.NatToStringInjective(n, k);
      assert ClipName(n)[5..] == a && ClipName(k)[5..] == b;
    } else if n != 0 {
      assert ClipName(n)[5] != '_';
    } else {
      assert ClipName(k)[5] != '_';
    }
  }

  /** How many clips the script cuts: the first, then one per n in range(1, Matches). */
  function ClipCount(matchCount: int): nat {
    if matchCount < 1 then 1 else matchCount
  }

  datatype Failure =
    | TokenFailed(tokenError: TokenError)
    | BadStartTime
    | IndexOutOfRange(index: nat)
    | DownloadFailed(name: string)

  datatype Run =
    | NotRun
    | Crashed(failure: Failure, clips: seq<Clip>)
    | Finished(clips: seq<Clip>)

  /**
   * The top level of the script. `clips` lists the clips fetched, in order,
   * before the run ended.
   */
  method RunScript(folder: string, url: string, startTimeArg: string, matchCount: int,
                   token: Option<string>, user: Option<string>, key: Option<string>,
                   getMatches: string -> seq<ApiMatch>, download: Clip -> bool)
    returns (run: Run)
    ensures run == NotRun <==> url == [] || startTimeArg == [] || folder == []
    ensures run != NotRun && ChooseToken(token, user, key).Err? ==>
              run == Crashed(TokenFailed(ChooseToken(token, user, key).error), [])
    ensures run != NotRun && ChooseToken(token, user, key).Ok? && ParseStartTime(startTimeArg).None? ==>
              run == Crashed(BadStartTime, [])
    ensures run.Crashed? && run.failure.TokenFailed? ==> ChooseToken(token, user, key).Err?
    ensures run.Crashed? && run.failure.BadStartTime? ==>
              ChooseToken(token, user, key).Ok? && ParseStartTime(startTimeArg).None?
    ensures run.Finished? || (run.Crashed? && !run.failure.TokenFailed? && !run.failure.BadStartTime?) ==>
              var ms := getMatches(ChooseToken(token, user, key).value);
              var st := ParseStartTime(startTimeArg).value;
              && ChooseToken(token, user, key).Ok? && ParseStartTime(startTimeArg).Some?
              && |run.clips| <= ClipCount(matchCount)
              && (forall n :: 0 <= n < |run.clips| ==>
                    SourceIndex(n) < |ms| && run.clips[n] == ClipAt(ms, st, n) && download(run.clips[n]))
              && (run.Finished? <==> |run.clips| == ClipCount(matchCount))
              && (run.Crashed? && run.failure.IndexOutOfRange? ==>
                    run.failure.index == SourceIndex(|run.clips|) && run.failure.index >= |ms|)
              && (run.Crashed? && run.failure.DownloadFailed? ==>
                    SourceIndex(|run.clips|) < |ms| && !download(ClipAt(ms, st, |run.clips|)))
  {
    if url == [] || startTimeArg == [] || folder == [] {
      return NotRun;
    }
    var tok := ChooseToken(token, user, key);
    if tok.Err? {
      return Crashed(TokenFailed(tok.error), []);
    }
    var ms := getMatches(tok.value);
    var parsed := ParseStartTime(startTimeArg);
    if parsed.None? {
      return Crashed(BadStartTime, []);
    }
    var startTime := parsed.value;
    if |ms| == 0 {
      return Crashed(IndexOutOfRange(0), []);
    }
    var referenceTime := ms[0].actualStartTime;
    var first := Clip("Match_1", startTime, ms[0].postResultTime - referenceTime + startTime);
    assert first == ClipAt(ms, startTime, 0);
    if !download(first) {
      return Crashed(DownloadFailed(first.name), []);
    }
    var clips := [first];
    var matchNumber := 1;
    while matchNumber < matchCount
      invariant 1 <= matchNumber && matchNumber <= ClipCount(matchCount)
      invariant |clips| == matchNumber
      invariant forall n :: 0 <= n < |clips| ==>
                  SourceIndex(n) < |ms| && clips[n] == ClipAt(ms, startTime, n) && download(clips[n])
    {
      if matchNumber + 1 >= |ms| {
        return Crashed(IndexOutOfRange(matchNumber + 1), clips);
      }
      var m := ms[matchNumber + 1];
      var clip := Clip("Match" + Decimal.NatToString(matchNumber),
                       m.actualStartTime - referenceTime + startTime,
                       m.postResultTime - referenceTime + startTime);
      assert clip == ClipAt(ms, startTime, matchNumber);
      if !download(clip) {
        return Crashed(DownloadFailed(clip.name), clips);
      }
      clips := clips + [clip];
      matchNumber := matchNumber + 1;
    }
    run := Finished(clips);
  }

  /** The run fetches every clip only when the results list holds `Matches + 1` entries (for Matches ≥ 2). */
  lemma FinishedNeedsEnoughResults(ms: seq<ApiMatch>, matchCount: int)
    requires forall n :: 0 <= n < ClipCount(matchCount) ==> SourceIndex(n) < |ms|
    ensures |ms| >= 1
    ensures matchCount >= 2 ==> |ms| >= matchCount + 1
  {
    assert SourceIndex(0) < |ms|;
    if matchCount >= 2 {
      assert SourceIndex(matchCount - 1) < |ms|;
    }
  }
}
