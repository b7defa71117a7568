/** The serverless variant in netlify/functions/app.py: its `/stats` handler
    (grand total and minutes per day of the user's sessions of the past week)
    and the text `record_work` posts for a recorded session. */
module Netlify {
  import opened Wrappers
  import opened Extractor
  import opened Weekly

  /** The JSON object the handler returns. */
  datatype StatsReport = StatsReport(totalTime: int, dailyTimes: map<int, int>)

  /** `get_stats`. `now` stands for `datetime.utcnow()`. */
  method GetStats(store: seq<WorkSession>, user: string, now: int) returns (r: StatsReport)
    ensures var es := SessionEntries(Query(store, user, WeekAgo(now)));
      r == StatsReport(Total(es), DailyTimes(es))
  {
    var weekAgo := now - WeekMicros;
    var workSessions := Query(store, user, weekAgo);
    var entries := SessionEntries(workSessions);
    var totalTime := Total(entries);
    var dailyTimes: map<int, int> := map[];
    var i := 0;
    while i < |workSessions|
      invariant 0 <= i <= |workSessions|
      invariant dailyTimes == DailyTimes(entries[..i])
    {
      var work := workSessions[i];
      var day := DayKey(work.timestamp);
      dailyTimes := dailyTimes[day := Get(dailyTimes, day) + work.duration];
      assert entries[..i + 1] == entries[..i] + [entries[i]];
      ReportAppend(entries[..i], entries[i]);
      i := i + 1;
    }
    assert entries[..i] == entries;
    return StatsReport(totalTime, dailyTimes);
  }

  /** The ASCII digit of a value below 10. */
  function DigitChar(v: nat): (c: char)
    requires v < 10
    ensures '0' <= c <= '9' && IsDigit(c) && DigitValue(c) == v
  {
    ('0' as int + v) as char
  }

  /** `str(n)` for a non-negative n: ASCII digits without leading zeros,
      which read back as n. */
  function NatToDecimal(n: nat): (s: string)
    ensures s != [] && AllDigits(s)
    ensures forall k :: 0 <= k < |s| ==> '0' <= s[k] <= '9'
    ensures s[0] == '0' ==> s == "0"
    ensures DecimalValue(s) == n
  {
    if n < 10 then [DigitChar(n)]
    else
      var init := NatToDecimal(n / 10);
      var s := init + [DigitChar(n % 10)];
      assert s[..|s| - 1] == init;
      s
  }

  function Abs(n: int): nat {
    if n < 0 then -n else n
  }

  /** `str(n)` for any integer: a minus sign exactly for negative values,
      then the digits of the absolute value, which read back as it. */
  function IntToDecimal(n: int): (s: string)
    ensures s != [] && (s[0] == '-' <==> n < 0)
    ensures var digits := if n < 0 then s[1..] else s;
      && digits != [] && AllDigits(digits) && DecimalValue(digits) == Abs(n)
      && (forall k :: 0 <= k < |digits| ==> '0' <= digits[k] <= '9')
      && (digits[0] == '0' ==> digits == "0")
  {
    if n < 0 then "-" + NatToDecimal(-n) else NatToDecimal(n)
  }

  /** How `{description}` renders the form field: `None` when it is absent. */
  function Rendered(description: Option<string>): string {
    match description
    case None => "None"
    case Some(d) => d
  }

  /** The text before the minutes of a tweet. */
  const TweetLead: string := "作業時間: "

  /** The tweet `record_work` posts for a session of the given minutes. */
  function TweetText(duration: int, description: Option<string>): string {
    TweetLead + IntToDecimal(duration) + "分\n" + Rendered(description)
  }

  /** The text in front of the digits of the minutes: the lead and, for a
      negative duration, the minus sign. Neither holds a digit. */
  function Front(duration: int): (f: string)
    ensures DigitFree(f)
  {
    if duration < 0 then TweetLead + "-" else TweetLead
  }

  lemma Regroup(f: string, ds: string, x: string, w: string, nl: string, r: string)
    requires x == w + nl
    ensures f + ds + x + r == f + (ds + "" + x + r)
    ensures ds + "" + x + r == ds + "" + w + (nl + r)
  {
  }

  /** The tweet cut where the extractor needs it: the front, the digits of
      the minutes, the unit and line break, then the description. */
  lemma TweetParts(duration: int, description: Option<string>)
    ensures var f, ds, r := Front(duration), NatToDecimal(Abs(duration)), Rendered(description);
      && TweetText(duration, description) == f + ds + "分\n" + r
      && TweetText(duration, description) == f + (ds + "" + "分\n" + r)
      && TweetText(duration, description) == f + (ds + "" + Word(Minute) + ("\n" + r))
  {
    var f, ds, r := Front(duration), NatToDecimal(Abs(duration)), Rendered(description);
    if duration < 0 {
      assert IntToDecimal(duration) == "-" + ds;
      assert TweetLead + ("-" + ds) == (TweetLead + "-") + ds;
    } else {
      assert IntToDecimal(duration) == ds;
    }
    Regroup(f, ds, "分\n", Word(Minute), "\n", r);
  }

  /** The extractor reads the tweet's minutes back, without their sign. */
  lemma TweetMinutes(duration: int, description: Option<string>)
    ensures FirstNumber(TweetText(duration, description), Minute) == Abs(duration)
  {
    var ds, rest := NatToDecimal(Abs(duration)), "\n" + Rendered(description);
    var tail := ds + "" + Word(Minute) + rest;
    var m := Match(0, |ds|, |ds|);
    TweetParts(duration, description);
    MatchAtStart(ds, "", rest, Minute);
    SkipDigitFree(Front(duration), tail, Minute, Some(m));
    NumberShifted(Front(duration), tail, m);
    SearchReports(TweetText(duration, description), Minute, Some(Shifted(m, |Front(duration)|)));
  }

  /** Digit-free text, digits, the minutes unit and a line break in front of
      d hide no hours: the search for hours finds what it finds in d. */
  lemma HoursAfterMinutes(f: string, ds: string, d: string, r: Option<Match>)
    requires DigitFree(f) && AllDigits(ds) && Reports(d, Hour, r)
    ensures Reports(f + (ds + "" + "分\n" + d), Hour, ShiftedOption(r, |f| + |ds| + 2))
  {
    SkipDigitsThenOther(ds, "", "分\n", d, Hour, r);
    SkipDigitFree(f, ds + "" + "分\n" + d, Hour, ShiftedOption(r, |ds| + 2));
    assert ShiftedOption(ShiftedOption(r, |ds| + 2), |f|) == ShiftedOption(r, |f| + |ds| + 2);
  }

  /** The extractor finds in the tweet the hours the description mentions
      first, if any: neither the lead nor the minutes mention hours. */
  lemma TweetHours(duration: int, description: Option<string>)
    ensures FirstNumber(TweetText(duration, description), Hour) == FirstNumber(Rendered(description), Hour)
  {
    var f, ds, d := Front(duration), NatToDecimal(Abs(duration)), Rendered(description);
    var t := TweetText(duration, description);
    var r := Search(d, Hour);
    SearchLeftmost(d, Hour);
    TweetParts(duration, description);
    HoursAfterMinutes(f, ds, d, r);
    SearchReports(t, Hour, ShiftedOption(r, |f| + |ds| + 2));
    if r.Some? {
      NumberShifted(f + ds + "分\n", d, r.value);
    }
  }

  /** Posting a session and extracting the minutes from the tweet gives the
      session's minutes (without a sign), plus 60 times the hours the
      description mentions first. */
  lemma TweetRoundTrip(duration: int, description: Option<string>)
    ensures ExtractTimeFromText(TweetText(duration, description))
         == Abs(duration) + 60 * FirstNumber(Rendered(description), Hour)
  {
    TweetMinutes(duration, description);
    TweetHours(duration, description);
  }

  /** For a non-negative duration and a description that mentions no hours,
      the extractor recovers exactly the recorded minutes. */
  lemma TweetRecoversDuration(duration: int, description: Option<string>)
    requires duration >= 0 && NoMatch(Rendered(description), Hour)
    ensures ExtractTimeFromText(TweetText(duration, description)) == duration
  {
    TweetRoundTrip(duration, description);
    SearchReports(Rendered(description), Hour, None);
  }
}
