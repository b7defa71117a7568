/** The duration extractor of app.py (`extract_time_from_text`): the minutes
    in a free-text post are the number of the first `(\d+)\s*分` match plus
    60 times the number of the first `(\d+)\s*時間` match, each 0 when the
    pattern does not occur. `re.search` is modelled as a search for the
    leftmost match of the pattern, and `int()` as the decimal value of the
    matched digits. */
module Extractor {
  import opened Wrappers

  /** `\d`: ASCII and fullwidth decimal digits. */
  predicate IsDigit(c: char) {
    '0' <= c <= '9' || '０' <= c <= '９'
  }

  function DigitValue(c: char): (v: nat)
    requires IsDigit(c)
    ensures v < 10
  {
    if c <= '9' then c as int - '0' as int else c as int - '０' as int
  }

  /** `\s`: the characters Python's `str.isspace` accepts. */
  predicate IsSpace(c: char) {
    || '\t' <= c <= '\r'
    || '\U{1C}' <= c <= ' '
    || c == '\U{85}' || c == '\U{A0}' || c == '\U{1680}'
    || '\U{2000}' <= c <= '\U{200A}'
    || c == '\U{2028}' || c == '\U{2029}' || c == '\U{202F}' || c == '\U{205F}'
    || c == '\U{3000}'
  }

  predicate AllDigits(s: string) {
    forall k :: 0 <= k < |s| ==> IsDigit(s[k])
  }

  predicate AllSpaces(s: string) {
    forall k :: 0 <= k < |s| ==> IsSpace(s[k])
  }

  predicate DigitFree(s: string) {
    forall k :: 0 <= k < |s| ==> !IsDigit(s[k])
  }

  /** s[i..j] is made of digits. */
  predicate DigitsIn(s: string, i: nat, j: nat)
    requires i <= j <= |s|
  {
    forall k :: i <= k < j ==> IsDigit(s[k])
  }

  /** s[i..j] is made of whitespace. */
  predicate SpacesIn(s: string, i: nat, j: nat)
    requires i <= j <= |s|
  {
    forall k :: i <= k < j ==> IsSpace(s[k])
  }

  /** `int()` of a run of digits, read most significant digit first. */
  function DecimalValue(ds: string): nat
    requires AllDigits(ds)
  {
    if ds == [] then 0 else 10 * DecimalValue(ds[..|ds| - 1]) + DigitValue(ds[|ds| - 1])
  }

  /** The two unit words the extractor looks for. */
  datatype Unit = Minute | Hour

  function Word(u: Unit): string {
    match u
    case Minute => "分"
    case Hour => "時間"
  }

  /** The unit word for u stands in s at position k. */
  predicate WordAt(s: string, k: nat, u: Unit) {
    match u
    case Minute => k < |s| && s[k] == '分'
    case Hour => k + 1 < |s| && s[k] == '時' && s[k + 1] == '間'
  }

  /** The positions of one match of `(\d+)\s*<word>`: digits in
      [start, digitsEnd), whitespace in [digitsEnd, unitStart), and the unit
      word from unitStart on. */
  datatype Match = Match(start: nat, digitsEnd: nat, unitStart: nat)

  /** m is a match of the pattern for u in s (not necessarily the first). */
  ghost predicate IsMatch(s: string, u: Unit, m: Match) {
    && m.start < m.digitsEnd <= m.unitStart
    && WordAt(s, m.unitStart, u)
    && DigitsIn(s, m.start, m.digitsEnd)
    && SpacesIn(s, m.digitsEnd, m.unitStart)
  }

  /** m is the match `re.search` reports: no match of u starts before it. */
  ghost predicate IsLeftmost(s: string, u: Unit, m: Match) {
    IsMatch(s, u, m) && forall m' :: IsMatch(s, u, m') ==> m.start <= m'.start
  }

  ghost predicate NoMatch(s: string, u: Unit) {
    forall m :: !IsMatch(s, u, m)
  }

  /** r is what a leftmost search for u in s reports. */
  ghost predicate Reports(s: string, u: Unit, r: Option<Match>) {
    match r
    case Some(m) => IsLeftmost(s, u, m)
    case None => NoMatch(s, u)
  }

  /** `int(match.group(1))`: the value of the digits of a match. */
  function Number(s: string, m: Match): nat
    requires m.start <= m.digitsEnd <= |s| && DigitsIn(s, m.start, m.digitsEnd)
  {
    assert AllDigits(s[m.start..m.digitsEnd]);
    DecimalValue(s[m.start..m.digitsEnd])
  }

  function Shifted(m: Match, n: nat): Match {
    Match(m.start + n, m.digitsEnd + n, m.unitStart + n)
  }

  function ShiftedOption(r: Option<Match>, n: nat): Option<Match> {
    match r
    case None => None
    case Some(m) => Some(Shifted(m, n))
  }

  function Unshifted(m: Match, n: nat): Match
    requires n <= m.start <= m.digitsEnd <= m.unitStart
  {
    Match(m.start - n, m.digitsEnd - n, m.unitStart - n)
  }

  /** Length of the longest prefix of s made of digits (the greedy `\d+`). */
  function DigitRun(s: string): (n: nat)
    ensures n <= |s| && DigitsIn(s, 0, n) && (n == |s| || !IsDigit(s[n]))
  {
    if s != [] && IsDigit(s[0]) then 1 + DigitRun(s[1..]) else 0
  }

  /** Length of the longest prefix of s made of whitespace (the greedy `\s*`). */
  function SpaceRun(s: string): (n: nat)
    ensures n <= |s| && SpacesIn(s, 0, n) && (n == |s| || !IsSpace(s[n]))
  {
    if s != [] && IsSpace(s[0]) then 1 + SpaceRun(s[1..]) else 0
  }

  /** In a match, the character right after the digits and the one right after
      the whitespace are not digits, and the latter is not whitespace either:
      the unit words start with neither. */
  lemma MatchBoundaries(s: string, u: Unit, m: Match)
    requires IsMatch(s, u, m)
    ensures m.unitStart < |s|
    ensures !IsDigit(s[m.digitsEnd]) && !IsDigit(s[m.unitStart]) && !IsSpace(s[m.unitStart])
  {
  }

  /** Two matches that start at the same position are the same match. */
  lemma MatchUnique(s: string, u: Unit, m1: Match, m2: Match)
    requires IsMatch(s, u, m1) && IsMatch(s, u, m2) && m1.start == m2.start
    ensures m1 == m2
  {
    MatchBoundaries(s, u, m1);
    MatchBoundaries(s, u, m2);
  }

  /** Matches are local: a match of s[n..] is a match of s moved n positions
      to the right, and back. */
  lemma SuffixMatch(s: string, u: Unit, n: nat, m: Match)
    requires n <= |s|
    ensures IsMatch(s[n..], u, m) <==> IsMatch(s, u, Shifted(m, n))
  {
  }

  /** `re.match` of the pattern at the start of s: greedy digits, greedy
      whitespace, then the unit word. */
  function MatchHere(s: string, u: Unit): (r: Option<Match>)
    ensures r.Some? ==> r.value.start == 0 && IsMatch(s, u, r.value)
    ensures r.None? ==> forall m :: IsMatch(s, u, m) ==> m.start != 0
  {
    var j := DigitRun(s);
    var k := j + SpaceRun(s[j..]);
    if 0 < j && WordAt(s, k, u) then
      Some(Match(0, j, k))
    else
      MatchHereComplete(s, u, j, k);
      None
  }

  /** The greedy runs of MatchHere find every match that starts at 0. */
  lemma MatchHereComplete(s: string, u: Unit, j: nat, k: nat)
    requires j == DigitRun(s) && k == j + SpaceRun(s[j..])
    requires !(0 < j && WordAt(s, k, u))
    ensures forall m :: IsMatch(s, u, m) ==> m.start != 0
  {
    assert s[0..] == s;
    forall m | IsMatch(s, u, m) && m.start == 0
      ensures false
    {
      GreedyRuns(s, u, m);
    }
  }

  /** The greedy runs from the start of a match end exactly where its digits
      and its whitespace end. */
  lemma GreedyRuns(s: string, u: Unit, m: Match)
    requires IsMatch(s, u, m)
    ensures m.digitsEnd == m.start + DigitRun(s[m.start..])
    ensures m.unitStart == m.digitsEnd + SpaceRun(s[m.digitsEnd..])
  {
    MatchBoundaries(s, u, m);
    var r := DigitRun(s[m.start..]);
    var q := SpaceRun(s[m.digitsEnd..]);
  }

  /** `re.search`: the leftmost match of the pattern for u in s, if any
      (SearchLeftmost proves it leftmost). The contract only keeps what
      Number needs: the digits of the match lie in s. */
  function Search(s: string, u: Unit): (r: Option<Match>)
    ensures r.Some? ==> r.value.start <= r.value.digitsEnd <= |s| && DigitsIn(s, r.value.start, r.value.digitsEnd)
    decreases |s|
  {
    if s == [] then None
    else
      match MatchHere(s, u)
      case Some(m) => Some(m)
      case None =>
        var rest := Search(s[1..], u);
        if rest.Some? then Some(Shifted(rest.value, 1)) else None
  }

  /** Search reports the leftmost match, and None only when there is no
      match at all. */
  lemma {:induction false} SearchLeftmost(s: string, u: Unit)
    ensures Reports(s, u, Search(s, u))
    decreases |s|
  {
    if s != [] && MatchHere(s, u).None? {
      SearchLeftmost(s[1..], u);
      NoMatchBefore(s, u);
      ReportsFrom(s, u, 1, Search(s[1..], u));
    }
  }

  lemma NoMatchBefore(s: string, u: Unit)
    requires s != []
    requires forall m :: IsMatch(s, u, m) ==> m.start != 0
    ensures forall m :: IsMatch(s, u, m) ==> 1 <= m.start
  {
  }

  /** When no match starts before n, the leftmost match of s is the leftmost
      match of s[n..] moved n positions to the right. */
  lemma ReportsFrom(s: string, u: Unit, n: nat, r: Option<Match>)
    requires n <= |s|
    requires forall m :: IsMatch(s, u, m) ==> n <= m.start
    requires Reports(s[n..], u, r)
    ensures Reports(s, u, ShiftedOption(r, n))
  {
    if r.None? {
      NoMatchShifted(s, u, n);
    } else {
      LeftmostShifted(s, u, n, r.value);
    }
  }

  lemma NoMatchShifted(s: string, u: Unit, n: nat)
    requires n <= |s| && NoMatch(s[n..], u)
    requires forall m :: IsMatch(s, u, m) ==> n <= m.start
    ensures NoMatch(s, u)
  {
    forall m | IsMatch(s, u, m)
      ensures false
    {
      SuffixMatch(s, u, n, Unshifted(m, n));
    }
  }

  lemma LeftmostShifted(s: string, u: Unit, n: nat, m: Match)
    requires n <= |s| && IsLeftmost(s[n..], u, m)
    requires forall m' :: IsMatch(s, u, m') ==> n <= m'.start
    ensures IsLeftmost(s, u, Shifted(m, n))
  {
    SuffixMatch(s, u, n, m);
    forall m' | IsMatch(s, u, m')
      ensures m.start + n <= m'.start
    {
      SuffixMatch(s, u, n, Unshifted(m', n));
    }
  }

  /** The number `re.search(...).group(1)` yields, or 0 when there is no match. */
  function FirstNumber(s: string, u: Unit): nat {
    match Search(s, u)
    case Some(m) => Number(s, m)
    case None => 0
  }

  /** `extract_time_from_text`. */
  function ExtractTimeFromText(text: string): nat {
    FirstNumber(text, Minute) + 60 * FirstNumber(text, Hour)
  }

  /** v is what the first search for u yields: the number of the leftmost
      match, or 0 when the pattern does not occur at all. */
  ghost predicate FirstValueIs(s: string, u: Unit, v: nat) {
    || (NoMatch(s, u) && v == 0)
    || (exists m :: IsLeftmost(s, u, m) && Number(s, m) == v)
  }

  /** Search reports exactly what a leftmost search reports. */
  lemma SearchReports(s: string, u: Unit, r: Option<Match>)
    requires Reports(s, u, r)
    ensures Search(s, u) == r
  {
    var found := Search(s, u);
    SearchLeftmost(s, u);
    if r.Some? {
      MatchUnique(s, u, found.value, r.value);
    }
  }

  /** FirstNumber yields the number of the leftmost match, or 0 without one. */
  lemma FirstNumberIs(s: string, u: Unit, v: nat)
    requires FirstValueIs(s, u, v)
    ensures FirstNumber(s, u) == v
  {
    if NoMatch(s, u) {
      SearchReports(s, u, None);
    } else {
      var m :| IsLeftmost(s, u, m) && Number(s, m) == v;
      SearchReports(s, u, Some(m));
    }
  }

  /** The extractor adds the number of the leftmost minutes match and 60 times
      the number of the leftmost hours match, each counting 0 when absent. */
  lemma ExtractTimeFromTextSpec(text: string, minutesPart: nat, hoursPart: nat)
    requires FirstValueIs(text, Minute, minutesPart) && FirstValueIs(text, Hour, hoursPart)
    ensures ExtractTimeFromText(text) == minutesPart + 60 * hoursPart
  {
    FirstNumberIs(text, Minute, minutesPart);
    FirstNumberIs(text, Hour, hoursPart);
  }

  /** A text in which neither pattern occurs is worth 0 minutes. */
  lemma ExtractZeroWithoutMention(text: string)
    requires NoMatch(text, Minute) && NoMatch(text, Hour)
    ensures ExtractTimeFromText(text) == 0
  {
    SearchReports(text, Minute, None);
    SearchReports(text, Hour, None);
  }

  /** The reported number is the whole digit run in front of the unit: the
      leftmost match never starts in the middle of a run of digits. */
  lemma LeftmostTakesWholeDigitRun(s: string, u: Unit, m: Match)
    requires IsLeftmost(s, u, m)
    ensures m.start == 0 || !IsDigit(s[m.start - 1])
  {
    if m.start > 0 && IsDigit(s[m.start - 1]) {
      var earlier := Match(m.start - 1, m.digitsEnd, m.unitStart);
      assert IsMatch(s, u, earlier);
    }
  }

  /** A match that ends inside s is a match of s + t, and back. */
  lemma PrefixMatch(s: string, t: string, u: Unit, m: Match)
    requires m.unitStart + |Word(u)| <= |s|
    ensures IsMatch(s, u, m) <==> IsMatch(s + t, u, m)
  {
    assert forall k :: 0 <= k < |s| ==> (s + t)[k] == s[k];
  }

  /** A match that starts before another one also ends no later than it. */
  lemma EndsBefore(s: string, u: Unit, m1: Match, m2: Match)
    requires IsMatch(s, u, m1) && IsMatch(s, u, m2) && m1.start < m2.start
    ensures m1.unitStart <= m2.unitStart
  {
    MatchBoundaries(s, u, m1);
    MatchBoundaries(s, u, m2);
  }

  /** The leftmost match of s stays the leftmost match, with the same
      number, whatever is appended after s. */
  lemma LeftmostExtends(s: string, t: string, u: Unit, m: Match)
    requires IsLeftmost(s, u, m)
    ensures IsLeftmost(s + t, u, m)
    ensures Number(s + t, m) == Number(s, m)
  {
    MatchBoundaries(s, u, m);
    PrefixMatch(s, t, u, m);
    forall m' | IsMatch(s + t, u, m')
      ensures m.start <= m'.start
    {
      if m'.start < m.start {
        EndsBefore(s + t, u, m', m);
        PrefixMatch(s, t, u, m');
      }
    }
    assert (s + t)[m.start..m.digitsEnd] == s[m.start..m.digitsEnd];
  }

  /** Only the first mention of a unit counts: once s mentions u, nothing
      appended after s changes what the search for u finds. */
  lemma LaterMentionsIgnored(s: string, t: string, u: Unit)
    requires Search(s, u).Some?
    ensures Search(s + t, u) == Search(s, u)
    ensures FirstNumber(s + t, u) == FirstNumber(s, u)
  {
    var m := Search(s, u).value;
    SearchLeftmost(s, u);
    LeftmostExtends(s, t, u, m);
    SearchReports(s + t, u, Some(m));
  }

  lemma EmptyReportsNone(u: Unit)
    ensures Reports("", u, None)
  {
  }

  /** Text without digits cannot start a match, so the search skips it. */
  lemma SkipDigitFree(a: string, b: string, u: Unit, r: Option<Match>)
    requires DigitFree(a) && Reports(b, u, r)
    ensures Reports(a + b, u, ShiftedOption(r, |a|))
  {
    assert (a + b)[|a|..] == b;
    forall m | IsMatch(a + b, u, m)
      ensures |a| <= m.start
    {
      assert IsDigit((a + b)[m.start]);
    }
    ReportsFrom(a + b, u, |a|, r);
  }

  /** Digits, optional whitespace and the unit word at the very start of the
      text are the match the search reports. */
  lemma MatchAtStart(ds: string, sp: string, rest: string, u: Unit)
    requires ds != [] && AllDigits(ds) && AllSpaces(sp)
    ensures Reports(ds + sp + Word(u) + rest, u, Some(Match(0, |ds|, |ds| + |sp|)))
    ensures Number(ds + sp + Word(u) + rest, Match(0, |ds|, |ds| + |sp|)) == DecimalValue(ds)
  {
    var s := ds + sp + Word(u) + rest;
    MatchAtStartIsMatch(ds, sp, rest, u);
    assert s[0..|ds|] == ds;
  }

  lemma MatchAtStartIsMatch(ds: string, sp: string, rest: string, u: Unit)
    requires ds != [] && AllDigits(ds) && AllSpaces(sp)
    ensures IsMatch(ds + sp + Word(u) + rest, u, Match(0, |ds|, |ds| + |sp|))
  {
    var s := ds + sp + Word(u) + rest;
    assert forall k :: 0 <= k < |ds| ==> s[k] == ds[k];
    assert forall k :: |ds| <= k < |ds| + |sp| ==> s[k] == sp[k - |ds|];
    assert forall k :: 0 <= k < |Word(u)| ==> s[|ds| + |sp| + k] == Word(u)[k];
  }

  /** In s, digits up to d, whitespace up to d + w and then a character that
      does not start the unit word: no match starts at or before d + w. */
  lemma NoMatchUpTo(s: string, u: Unit, d: nat, w: nat, m: Match)
    requires d + w < |s| && DigitsIn(s, 0, d) && SpacesIn(s, d, d + w)
    requires !IsDigit(s[d + w]) && !IsSpace(s[d + w]) && !WordAt(s, d + w, u)
    requires IsMatch(s, u, m)
    ensures d + w < m.start
  {
    MatchBoundaries(s, u, m);
  }

  /** Digits and optional whitespace, followed by a digit-free text that starts
      neither with whitespace nor with the unit word, do not start a match:
      the search skips all of it. */
  lemma SkipDigitsThenOther(ds: string, sp: string, other: string, rest: string, u: Unit, r: Option<Match>)
    requires AllDigits(ds) && AllSpaces(sp)
    requires other != [] && DigitFree(other) && !IsSpace(other[0]) && other[0] != Word(u)[0]
    requires Reports(rest, u, r)
    ensures Reports(ds + sp + other + rest, u, ShiftedOption(r, |ds| + |sp| + |other|))
  {
    var pre := ds + sp + other;
    NoMatchInDigitsThenOther(ds, sp, other, rest, u);
    assert (pre + rest)[|pre|..] == rest;
    ReportsFrom(pre + rest, u, |pre|, r);
  }

  lemma NoMatchInDigitsThenOther(ds: string, sp: string, other: string, rest: string, u: Unit)
    requires AllDigits(ds) && AllSpaces(sp)
    requires other != [] && DigitFree(other) && !IsSpace(other[0]) && other[0] != Word(u)[0]
    ensures forall m :: IsMatch(ds + sp + other + rest, u, m) ==> |ds| + |sp| + |other| <= m.start
  {
    var s := ds + sp + other + rest;
    var d, w := |ds|, |sp|;
    assert forall k :: 0 <= k < d ==> s[k] == ds[k];
    assert forall k :: d <= k < d + w ==> s[k] == sp[k - d];
    assert forall k :: d + w <= k < d + w + |other| ==> s[k] == other[k - d - w];
    forall m | IsMatch(s, u, m)
      ensures d + w + |other| <= m.start
    {
      NoMatchUpTo(s, u, d, w, m);
      assert IsDigit(s[m.start]);
    }
  }

  lemma ExampleMinutes()
    ensures ExtractTimeFromText("30分") == 30
  {
    assert DecimalValue("30") == 30;
    assert "30分" == "30" + "" + Word(Minute) + "";
    MatchAtStart("30", "", "", Minute);
    SearchReports("30分", Minute, Some(Match(0, 2, 2)));
    assert "30分" == "30" + "" + "分" + "";
    SkipDigitsThenOther("30", "", "分", "", Hour, None);
    SearchReports("30分", Hour, None);
  }

  lemma ExampleHours()
    ensures ExtractTimeFromText("2時間") == 120
  {
    assert DecimalValue("2") == 2;
    assert "2時間" == "2" + "" + "時間" + "";
    SkipDigitsThenOther("2", "", "時間", "", Minute, None);
    SearchReports("2時間", Minute, None);
    assert "2時間" == "2" + "" + Word(Hour) + "";
    MatchAtStart("2", "", "", Hour);
    SearchReports("2時間", Hour, Some(Match(0, 1, 1)));
  }

  /** Hours and minutes mentioned together add up: "<h>時間<m>分" is worth
      60 * h + m minutes. */
  lemma HoursThenMinutes(h: string, m: string)
    requires h != [] && AllDigits(h) && m != [] && AllDigits(m)
    ensures ExtractTimeFromText(h + Word(Hour) + m + Word(Minute))
         == 60 * DecimalValue(h) + DecimalValue(m)
  {
    var rest := m + Word(Minute);
    var s := h + Word(Hour) + rest;
    assert h + Word(Hour) + m + Word(Minute) == s;
    HoursPart(h, rest);
    MinutesPart(h, m);
  }

  lemma HoursPart(h: string, rest: string)
    requires h != [] && AllDigits(h)
    ensures FirstNumber(h + Word(Hour) + rest, Hour) == DecimalValue(h)
  {
    assert h + Word(Hour) + rest == h + "" + Word(Hour) + rest;
    MatchAtStart(h, "", rest, Hour);
    SearchReports(h + Word(Hour) + rest, Hour, Some(Match(0, |h|, |h|)));
  }

  lemma MinutesPart(h: string, m: string)
    requires AllDigits(h) && m != [] && AllDigits(m)
    ensures FirstNumber(h + Word(Hour) + (m + Word(Minute)), Minute) == DecimalValue(m)
  {
    var rest := m + Word(Minute);
    var found := Match(0, |m|, |m|);
    assert rest == m + "" + Word(Minute) + "";
    MatchAtStart(m, "", "", Minute);
    MinutesAfterHours(h, rest, Some(found));
    NumberShifted(h + Word(Hour), rest, found);
    SearchReports(h + Word(Hour) + rest, Minute, Some(Shifted(found, |h| + 2)));
  }

  /** Digits and the hours word in front of a text hide no minutes. */
  lemma MinutesAfterHours(h: string, rest: string, r: Option<Match>)
    requires AllDigits(h) && Reports(rest, Minute, r)
    ensures Reports(h + Word(Hour) + rest, Minute, ShiftedOption(r, |h| + 2))
  {
    assert h + Word(Hour) + rest == h + "" + Word(Hour) + rest;
    SkipDigitsThenOther(h, "", Word(Hour), rest, Minute, r);
  }

  /** The number of a match does not depend on the text in front of it. */
  lemma NumberShifted(pre: string, rest: string, m: Match)
    requires m.start <= m.digitsEnd <= |rest| && DigitsIn(rest, m.start, m.digitsEnd)
    ensures DigitsIn(pre + rest, m.start + |pre|, m.digitsEnd + |pre|)
    ensures Number(pre + rest, Shifted(m, |pre|)) == Number(rest, m)
  {
    assert (pre + rest)[m.start + |pre|..m.digitsEnd + |pre|] == rest[m.start..m.digitsEnd];
  }

  lemma ExampleHoursAndMinutes()
    ensures ExtractTimeFromText("1時間30分") == 90
  {
    assert DecimalValue("1") == 1;
    assert DecimalValue("30") == 30;
    assert "1時間30分" == "1" + Word(Hour) + "30" + Word(Minute);
    HoursThenMinutes("1", "30");
  }

  lemma ExampleNoDuration()
    ensures ExtractTimeFromText("作業しました") == 0
  {
    assert "作業しました" == "作業しました" + "";
    EmptyReportsNone(Minute);
    EmptyReportsNone(Hour);
    SkipDigitFree("作業しました", "", Minute, None);
    SkipDigitFree("作業しました", "", Hour, None);
    ExtractZeroWithoutMention("作業しました");
  }

  lemma ExampleFirstMentionOnly()
    ensures ExtractTimeFromText("30分...60分") == 30
  {
    FirstMentionMinutes();
    FirstMentionHours();
  }

  lemma FirstMentionMinutes()
    ensures FirstNumber("30分...60分", Minute) == 30
  {
    assert DecimalValue("30") == 30;
    assert "30分...60分" == "30" + "" + Word(Minute) + "...60分";
    MatchAtStart("30", "", "...60分", Minute);
    SearchReports("30分...60分", Minute, Some(Match(0, 2, 2)));
  }

  lemma FirstMentionHours()
    ensures FirstNumber("30分...60分", Hour) == 0
  {
    assert "60分" == "60" + "" + "分" + "";
    SkipDigitsThenOther("60", "", "分", "", Hour, None);
    assert "30分...60分" == "30" + "" + "分..." + "60分";
    SkipDigitsThenOther("30", "", "分...", "60分", Hour, None);
    SearchReports("30分...60分", Hour, None);
  }

  lemma ExampleSpaceBeforeUnit()
    ensures ExtractTimeFromText("30 分") == 30
  {
    assert DecimalValue("30") == 30;
    assert "30 分" == "30" + " " + Word(Minute) + "";
    MatchAtStart("30", " ", "", Minute);
    SearchReports("30 分", Minute, Some(Match(0, 2, 3)));
    assert "30 分" == "30" + " " + "分" + "";
    SkipDigitsThenOther("30", " ", "分", "", Hour, None);
    SearchReports("30 分", Hour, None);
  }
}
