/** What the `/stats` handlers compute from the records of the past week: a
    grand total of minutes, the minutes per calendar day and, in app.py, the
    texts per calendar day. Timestamps are microseconds since the epoch (UTC);
    a calendar day is a day number. */
module Weekly {
  import opened Wrappers

  const MicrosPerDay: nat := 86_400_000_000

  /** `timedelta(days=7)`. */
  const WeekMicros: nat := 7 * MicrosPerDay

  /** `strftime('%Y-%m-%d')`: the calendar day a timestamp falls on. */
  function DayKey(t: int): int {
    t / MicrosPerDay
  }

  /** `now - timedelta(days=7)`. */
  function WeekAgo(now: int): int {
    now - WeekMicros
  }

  /** Two timestamps share a day key exactly when they fall between the same
      two midnights. */
  lemma DayKeyIsDay(t: int, d: int)
    ensures DayKey(t) == d <==> d * MicrosPerDay <= t < d * MicrosPerDay + MicrosPerDay
  {
    var q, r := t / MicrosPerDay, t % MicrosPerDay;
    assert t == q * MicrosPerDay + r && 0 <= r < MicrosPerDay;
    if d < q {
      assert d * MicrosPerDay + MicrosPerDay <= q * MicrosPerDay;
    } else if d > q {
      assert q * MicrosPerDay + MicrosPerDay <= d * MicrosPerDay;
    }
  }

  /** The `WorkSession` table row. The description column is nullable. */
  datatype WorkSession = WorkSession(userId: string, duration: int, description: Option<string>, timestamp: int)

  /** `WorkSession.query.filter(user_id == user, timestamp >= weekAgo).all()`,
      in the order the sessions are stored. */
  function Query(store: seq<WorkSession>, user: string, weekAgo: int): (sessions: seq<WorkSession>)
    ensures |sessions| <= |store|
  {
    if store == [] then []
    else
      var init := Query(store[..|store| - 1], user, weekAgo);
      var last := store[|store| - 1];
      if last.userId == user && last.timestamp >= weekAgo then init + [last] else init
  }

  /** The query selects exactly the user's sessions from weekAgo on. */
  lemma {:induction false} QueryMembers(store: seq<WorkSession>, user: string, weekAgo: int, s: WorkSession)
    ensures s in Query(store, user, weekAgo) <==> s in store && s.userId == user && s.timestamp >= weekAgo
  {
    if store != [] {
      var init := store[..|store| - 1];
      QueryMembers(init, user, weekAgo, s);
      assert store == init + [store[|store| - 1]];
    }
  }

  /** One record counted in the statistics: its day, its minutes and the text
      listed for it (a description, or a post text). */
  datatype Entry<L> = Entry(day: int, duration: int, text: L)

  /** The entry a session contributes: its day, its minutes and its
      description. */
  function SessionEntry(s: WorkSession): Entry<Option<string>> {
    Entry(DayKey(s.timestamp), s.duration, s.description)
  }

  function SessionEntries(sessions: seq<WorkSession>): (es: seq<Entry<Option<string>>>)
    ensures |es| == |sessions|
    ensures forall i :: 0 <= i < |sessions| ==> es[i] == SessionEntry(sessions[i])
  {
    if sessions == [] then []
    else SessionEntries(sessions[..|sessions| - 1]) + [SessionEntry(sessions[|sessions| - 1])]
  }

  /** The sum of the minutes of the entries. */
  function Total<L>(es: seq<Entry<L>>): int {
    if es == [] then 0 else Total(es[..|es| - 1]) + es[|es| - 1].duration
  }

  /** The entries of day d, in their original order. */
  function OnDay<L>(es: seq<Entry<L>>, d: int): (r: seq<Entry<L>>)
    ensures forall i :: 0 <= i < |r| ==> r[i] in es && r[i].day == d
    ensures forall i :: 0 <= i < |es| && es[i].day == d ==> es[i] in r
  {
    if es == [] then []
    else
      var init := OnDay(es[..|es| - 1], d);
      var last := es[|es| - 1];
      assert es == es[..|es| - 1] + [last];
      if last.day == d then init + [last] else init
  }

  /** The texts of the entries, in order. */
  function Labels<L>(es: seq<Entry<L>>): (r: seq<L>)
    ensures |r| == |es| && forall i :: 0 <= i < |es| ==> r[i] == es[i].text
  {
    if es == [] then [] else Labels(es[..|es| - 1]) + [es[|es| - 1].text]
  }

  /** The days that have at least one entry. */
  function Days<L>(es: seq<Entry<L>>): set<int> {
    set i | 0 <= i < |es| :: es[i].day
  }

  /** `dict.get(day, 0)`. */
  function Get(m: map<int, int>, k: int): int {
    if k in m then m[k] else 0
  }

  /** `daily_times` as the loop builds it: each entry adds its minutes to the
      value of its day. */
  function DailyTimes<L>(es: seq<Entry<L>>): map<int, int> {
    if es == [] then map[]
    else
      var m := DailyTimes(es[..|es| - 1]);
      var e := es[|es| - 1];
      m[e.day := Get(m, e.day) + e.duration]
  }

  /** `daily_texts` as the loop builds it: each entry appends its text to the
      list of its day, creating the list when the day is new. */
  function DailyTexts<L>(es: seq<Entry<L>>): map<int, seq<L>> {
    if es == [] then map[]
    else
      var m := DailyTexts(es[..|es| - 1]);
      var e := es[|es| - 1];
      m[e.day := (if e.day in m then m[e.day] else []) + [e.text]]
  }

  /** The JSON object the app.py handler returns. */
  datatype Report<L> = Report(totalTime: int, dailyTimes: map<int, int>, dailyTexts: map<int, seq<L>>)

  function ReportOf<L>(es: seq<Entry<L>>): Report<L> {
    Report(Total(es), DailyTimes(es), DailyTexts(es))
  }

  /** How one more entry changes the three statistics, as one loop
      iteration does. */
  lemma ReportAppend<L>(es: seq<Entry<L>>, e: Entry<L>)
    ensures var r := ReportOf(es);
      ReportOf(es + [e]) == Report(r.totalTime + e.duration,
        r.dailyTimes[e.day := Get(r.dailyTimes, e.day) + e.duration],
        r.dailyTexts[e.day := (if e.day in r.dailyTexts then r.dailyTexts[e.day] else []) + [e.text]])
  {
    assert (es + [e])[..|es|] == es;
  }

  lemma TotalAppend<L>(es: seq<Entry<L>>, e: Entry<L>)
    ensures Total(es + [e]) == Total(es) + e.duration
  {
    assert (es + [e])[..|es|] == es;
  }

  lemma OnDayAppend<L>(es: seq<Entry<L>>, e: Entry<L>, d: int)
    ensures OnDay(es + [e], d) == OnDay(es, d) + (if e.day == d then [e] else [])
  {
    assert (es + [e])[..|es|] == es;
  }

  lemma DaysAppend<L>(es: seq<Entry<L>>, e: Entry<L>)
    ensures Days(es + [e]) == Days(es) + {e.day}
  {
    var es' := es + [e];
    assert forall i :: 0 <= i < |es| ==> es'[i] == es[i];
    assert es'[|es|] == e;
  }

  /** A day without entries has an empty list of entries. */
  lemma OnDayEmpty<L>(es: seq<Entry<L>>, d: int)
    requires d !in Days(es)
    ensures OnDay(es, d) == []
  {
  }

  /** A day is a key of `daily_times` exactly when some entry falls on it. */
  lemma {:induction false} DailyTimesKeys<L>(es: seq<Entry<L>>)
    ensures DailyTimes(es).Keys == Days(es)
  {
    if es != [] {
      var init, e := es[..|es| - 1], es[|es| - 1];
      assert es == init + [e];
      DailyTimesKeys(init);
      DaysAppend(init, e);
    }
  }

  /** The value of a day in `daily_times` (0 for a day that is not a key) is
      the total of that day's entries. */
  lemma {:induction false} DailyTimesOnDay<L>(es: seq<Entry<L>>, d: int)
    ensures Get(DailyTimes(es), d) == Total(OnDay(es, d))
  {
    if es != [] {
      var init, e := es[..|es| - 1], es[|es| - 1];
      assert es == init + [e];
      DailyTimesOnDay(init, d);
      OnDayAppend(init, e, d);
      if d == e.day {
        TotalAppend(OnDay(init, d), e);
      } else {
        assert OnDay(init, d) + [] == OnDay(init, d);
      }
    }
  }

  /** A day is a key of `daily_texts` exactly when some entry falls on it. */
  lemma {:induction false} DailyTextsKeys<L>(es: seq<Entry<L>>)
    ensures DailyTexts(es).Keys == Days(es)
  {
    if es != [] {
      var init, e := es[..|es| - 1], es[|es| - 1];
      assert es == init + [e];
      DailyTextsKeys(init);
      DaysAppend(init, e);
    }
  }

  /** The list of a day in `daily_texts` holds the texts of that day's
      entries in their original order. */
  lemma {:induction false} DailyTextsOnDay<L>(es: seq<Entry<L>>, d: int)
    requires d in DailyTexts(es)
    ensures DailyTexts(es)[d] == Labels(OnDay(es, d))
  {
    var init, e := es[..|es| - 1], es[|es| - 1];
    assert es == init + [e];
    OnDayAppend(init, e, d);
    if d != e.day {
      DailyTextsOnDay(init, d);
      assert OnDay(init, d) + [] == OnDay(init, d);
    } else if d in DailyTexts(init) {
      DailyTextsOnDay(init, d);
      assert Labels(OnDay(init, d) + [e]) == Labels(OnDay(init, d)) + [e.text];
    } else {
      DailyTextsKeys(init);
      OnDayEmpty(init, d);
      assert Labels([e]) == [e.text];
    }
  }

  /** `daily_times` and `daily_texts` have the same days as keys: the days
      on which some entry falls. */
  lemma SameDays<L>(es: seq<Entry<L>>)
    ensures DailyTimes(es).Keys == DailyTexts(es).Keys == Days(es)
  {
    DailyTimesKeys(es);
    DailyTextsKeys(es);
  }

  /** The list of a day holds one text per entry of that day: never empty. */
  lemma DailyTextsNonEmpty<L>(es: seq<Entry<L>>, d: int)
    requires d in DailyTexts(es)
    ensures |DailyTexts(es)[d]| >= 1
  {
    DailyTextsKeys(es);
    DailyTextsOnDay(es, d);
    var i :| 0 <= i < |es| && es[i].day == d;
    assert es[i] in OnDay(es, d);
  }

  /** No day is listed twice. */
  predicate Distinct(days: seq<int>) {
    forall i, j :: 0 <= i < j < |days| ==> days[i] != days[j]
  }

  /** The values of m at the listed days added up, a missing day counting 0. */
  function SumAt(m: map<int, int>, days: seq<int>): int {
    if days == [] then 0 else SumAt(m, days[..|days| - 1]) + Get(m, days[|days| - 1])
  }

  /** The totals of the listed days added up. */
  function SumOnDays<L>(es: seq<Entry<L>>, days: seq<int>): int {
    if days == [] then 0 else SumOnDays(es, days[..|days| - 1]) + Total(OnDay(es, days[|days| - 1]))
  }

  lemma {:induction false} SumOnDaysEmpty<L>(es: seq<Entry<L>>, days: seq<int>)
    requires es == []
    ensures SumOnDays(es, days) == 0
  {
    if days != [] {
      SumOnDaysEmpty(es, days[..|days| - 1]);
    }
  }

  /** One more entry adds its minutes to the sum once, when its day is
      listed. */
  lemma {:induction false} SumOnDaysAppend<L>(es: seq<Entry<L>>, e: Entry<L>, days: seq<int>)
    requires Distinct(days)
    ensures SumOnDays(es + [e], days) == SumOnDays(es, days) + (if e.day in days then e.duration else 0)
  {
    if days != [] {
      var init, d := days[..|days| - 1], days[|days| - 1];
      assert days == init + [d];
      SumOnDaysAppend(es, e, init);
      OnDayAppend(es, e, d);
      if d == e.day {
        TotalAppend(OnDay(es, d), e);
      } else {
        assert OnDay(es, d) + [] == OnDay(es, d);
      }
    }
  }

  /** Summing the totals of days that list every day with entries once
      gives the grand total. */
  lemma {:induction false} TotalIsSumOnDays<L>(es: seq<Entry<L>>, days: seq<int>)
    requires Distinct(days) && forall d :: d in Days(es) ==> d in days
    ensures Total(es) == SumOnDays(es, days)
  {
    if es == [] {
      SumOnDaysEmpty(es, days);
    } else {
      var init, e := es[..|es| - 1], es[|es| - 1];
      assert es == init + [e];
      DaysAppend(init, e);
      TotalIsSumOnDays(init, days);
      SumOnDaysAppend(init, e, days);
    }
  }

  lemma {:induction false} SumAtDailyTimes<L>(es: seq<Entry<L>>, days: seq<int>)
    ensures SumAt(DailyTimes(es), days) == SumOnDays(es, days)
  {
    if days != [] {
      SumAtDailyTimes(es, days[..|days| - 1]);
      DailyTimesOnDay(es, days[|days| - 1]);
    }
  }

  /** `total_time` is the sum of the `daily_times` values: adding up the
      values at the keys, each taken once in any order, gives the total. */
  lemma TotalIsSumOfDays<L>(es: seq<Entry<L>>, days: seq<int>)
    requires Distinct(days) && forall d :: d in DailyTimes(es) ==> d in days
    ensures Total(es) == SumAt(DailyTimes(es), days)
  {
    DailyTimesKeys(es);
    TotalIsSumOnDays(es, days);
    SumAtDailyTimes(es, days);
  }
}
