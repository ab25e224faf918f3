/**
 * Competition codes of the frontend: a code such as "2020casj" is a
 * four-digit year followed by the event's own code. `parseCompetitionCode`
 * shows the event part upper-cased and `extractYear` reads the year.
 *
 * The two regular expressions are written out: `\d` is an ASCII digit, `.`
 * is any character but a line terminator, and `$` (without the multiline
 * flag) is the end of the string. A character here is a Unicode scalar
 * value, so one outside the Basic Multilingual Plane counts as one character
 * where JavaScript sees two code units; no result depends on it, since only
 * the first four characters are tested and `.+` asks for at least one more.
 * Upper-casing is the ASCII part of `toUpperCase`.
 */
module CompetitionCode {
  import opened Wrappers
  import opened Decimal

  /** The characters `.` does not match: line feed, carriage return, line and paragraph separators. */
  predicate IsLineTerminator(c: char) {
    c == '\n' || c == '\r' || c == '\U{2028}' || c == '\U{2029}'
  }

  predicate NoLineTerminator(s: string) {
    forall i :: 0 <= i < |s| ==> !IsLineTerminator(s[i])
  }

  function UpperChar(c: char): char {
    if 'a' <= c <= 'z' then (c as int - 'a' as int + 'A' as int) as char else c
  }

  /** `toUpperCase` on ASCII letters; every other character is kept. */
  function Upper(s: string): (r: string)
    ensures |r| == |s|
    decreases |s|
  {
    if s == [] then [] else [UpperChar(s[0])] + Upper(s[1..])
  }

  /** Upper-casing works character by character, so it distributes over concatenation and keeps digits. */
  lemma {:induction false} UpperAppend(a: string, b: string)
    ensures Upper(a + b) == Upper(a) + Upper(b)
    decreases |a|
  {
    if a != [] {
      UpperAppend(a[1..], b);
      assert (a + b)[0] == a[0] && (a + b)[1..] == a[1..] + b;
      assert Upper(a + b) == [UpperChar(a[0])] + (Upper(a[1..]) + Upper(b));
    } else {
      assert a + b == b;
    }
  }

  lemma {:induction false} UpperKeepsDigits(s: string)
    requires AllDigits(s)
    ensures Upper(s) == s
    decreases |s|
  {
    if s != [] {
      UpperKeepsDigits(s[1..]);
    }
  }

  /** `/^\d{4}(.+)$/` matches: four digits, then at least one more character, and no line terminator after them. */
  predicate HasYearPrefix(code: string) {
    |code| > 4 && AllDigits(code[..4]) && NoLineTerminator(code[4..])
  }

  /**
   * `parseCompetitionCode`: "N/A" for a null or empty code; the upper-cased
   * remainder after a year prefix; otherwise the whole code upper-cased.
   */
  function ParseCompetitionCode(code: Option<string>): (r: string)
    ensures code == None || code == Some("") ==> r == "N/A"
    ensures code.Some? && HasYearPrefix(code.value) ==> r == Upper(code.value[4..])
    ensures code.Some? && code.value != "" && !HasYearPrefix(code.value) ==> r == Upper(code.value)
  {
    match code
    case None => "N/A"
    case Some(c) =>
      if c == "" then "N/A"
      else if HasYearPrefix(c) then Upper(c[4..])
      else Upper(c)
  }

  /** `extractYear`: the first four characters when they are digits (`/^(\d{4})/`), otherwise null. */
  function ExtractYear(code: string): (r: Option<string>)
    ensures r.Some? <==> |code| >= 4 && AllDigits(code[..4])
    ensures r.Some? ==> |r.value| == 4 && r.value == code[..4]
  {
    if |code| >= 4 && AllDigits(code[..4]) then Some(code[..4]) else None
  }

  /** The documented example: "2020casj" is event "CASJ" of year "2020". */
  lemma DocumentedExample()
    ensures ParseCompetitionCode(Some("2020casj")) == "CASJ"
    ensures ExtractYear("2020casj") == Some("2020")
  {
    assert "2020casj"[..4] == "2020" && "2020casj"[4..] == "casj";
    assert HasYearPrefix("2020casj");
    assert Upper("casj") == "CASJ" by {
      assert "casj"[1..] == "asj" && "asj"[1..] == "sj" && "sj"[1..] == "j" && "j"[1..] == "";
    }
  }

  /** A bare year has nothing after it to match `(.+)`, and a code without a year is only upper-cased. */
  lemma NoYearExamples()
    ensures ParseCompetitionCode(Some("2020")) == "2020"
    ensures ParseCompetitionCode(Some("casj")) == "CASJ"
    ensures ExtractYear("casj") == None
  {
    assert !HasYearPrefix("2020");
    UpperKeepsDigits("2020");
    assert !IsDigit("casj"[0]);
    assert Upper("casj") == "CASJ" by {
      assert "casj"[1..] == "asj" && "asj"[1..] == "sj" && "sj"[1..] == "j" && "j"[1..] == "";
    }
  }

  /**
   * The year and the event code put back together give the whole code,
   * upper-cased, when a year prefix is followed by an event code.
   */
  lemma YearThenCode(code: string)
    requires ExtractYear(code).Some? && |code| > 4 && NoLineTerminator(code[4..])
    ensures ExtractYear(code).value + ParseCompetitionCode(Some(code)) == Upper(code)
  {
    UpperKeepsDigits(code[..4]);
    UpperAppend(code[..4], code[4..]);
    assert code[..4] + code[4..] == code;
  }

  /** A non-empty code never shows as an empty string. */
  lemma NonEmptyStaysNonEmpty(code: string)
    requires code != ""
    ensures ParseCompetitionCode(Some(code)) != ""
  {
  }

  /** `str(n)` of a year from 1000 to 9999 has four digits. */
  lemma FourDigitYear(n: nat)
    requires 1000 <= n < 10000
    ensures |NatToString(n)| == 4
  {
    assert |NatToString(n / 1000)| == 1;
    assert |NatToString(n / 100)| == 2;
    assert |NatToString(n / 10)| == 3;
  }

  /**
   * A code written as a four-digit year followed by an event code reads back
   * as that year and that event code, upper-cased.
   */
  lemma CodeRoundTrip(year: nat, event: string)
    requires 1000 <= year < 10000 && event != "" && NoLineTerminator(event)
    ensures var code := NatToString(year) + event;
            && ExtractYear(code) == Some(NatToString(year))
            && ValueOf(ExtractYear(code).value) == year
            && ParseCompetitionCode(Some(code)) == Upper(event)
  {
    var y := NatToString(year);
    FourDigitYear(year);
    var code := y + event;
    assert code[..4] == y && code[4..] == event;
    ValueOfNatToString(year);
  }
}
