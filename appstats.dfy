/** The two branches of the `/stats` handler of app.py: statistics of the
    current user's recorded sessions of the past week (`source=local`), or of
    the posts listed in the spreadsheet whose date lies in the past week (the
    default). Both return the grand total, the minutes per day and the texts
    per day. */
module AppStats {
  import opened Wrappers
  import opened Weekly
  import opened Sheets

  /** The `source=local` branch. `now` stands for `datetime.utcnow()`. */
  method LocalStats(store: seq<WorkSession>, user: string, now: int) returns (r: Report<Option<string>>)
    ensures r == ReportOf(SessionEntries(Query(store, user, WeekAgo(now))))
  {
    var weekAgo := now - WeekMicros;
    var workSessions := Query(store, user, weekAgo);
    var entries := SessionEntries(workSessions);
    var totalTime := Total(entries);
    var dailyTimes: map<int, int> := map[];
    var dailyTexts: map<int, seq<Option<string>>> := map[];
    var i := 0;
    while i < |workSessions|
      invariant 0 <= i <= |workSessions|
      invariant dailyTimes == DailyTimes(entries[..i])
      invariant dailyTexts == DailyTexts(entries[..i])
    {
      var work := workSessions[i];
      var day := DayKey(work.timestamp);
      dailyTimes := dailyTimes[day := Get(dailyTimes, day) + work.duration];
      if day !in dailyTexts {
        dailyTexts := dailyTexts[day := []];
      }
      dailyTexts := dailyTexts[day := dailyTexts[day] + [work.description]];
      assert entries[..i + 1] == entries[..i] + [entries[i]];
      ReportAppend(entries[..i], entries[i]);
      i := i + 1;
    }
    assert entries[..i] == entries;
    return Report(totalTime, dailyTimes, dailyTexts);
  }

  /** The entries the spreadsheet items contribute: those whose date parses
      (`strptime` not raising `ValueError`) to a time from weekAgo on, with
      the day of that time, the item's minutes and its text. */
  function SheetEntries(items: seq<SheetItem>, weekAgo: int, parse: string -> Option<int>): seq<Entry<string>> {
    if items == [] then []
    else
      var init := SheetEntries(items[..|items| - 1], weekAgo, parse);
      var item := items[|items| - 1];
      match parse(item.date)
      case Some(t) => if t >= weekAgo then init + [Entry(DayKey(t), item.duration, item.text)] else init
      case None => init
  }

  /** The default branch: the spreadsheet's error when it has no row,
      otherwise the statistics of its items. `parse` stands for
      `datetime.strptime(date, '%Y/%m/%d %H:%M:%S')`, None where it raises. */
  method SheetsStats(values: seq<Row>, now: int, parse: string -> Option<int>)
    returns (r: Result<Report<string>, string>)
    ensures values == [] ==> r == Failure(NoData)
    ensures values != [] ==> r == Success(ReportOf(SheetEntries(Normalised(values[1..]), WeekAgo(now), parse)))
  {
    var sheetsData := GetSheetsData(values);
    if sheetsData.Failure? {
      return Failure(sheetsData.error);
    }
    var report := AggregateItems(sheetsData.value, now - WeekMicros, parse);
    return Success(report);
  }

  /** The loop of the default branch over the spreadsheet's items. */
  method AggregateItems(items: seq<SheetItem>, weekAgo: int, parse: string -> Option<int>)
    returns (r: Report<string>)
    ensures r == ReportOf(SheetEntries(items, weekAgo, parse))
  {
    var dailyTimes: map<int, int> := map[];
    var dailyTexts: map<int, seq<string>> := map[];
    var totalTime := 0;
    ghost var counted: seq<Entry<string>> := [];
    var i := 0;
    while i < |items|
      invariant 0 <= i <= |items|
      invariant counted == SheetEntries(items[..i], weekAgo, parse)
      invariant Report(totalTime, dailyTimes, dailyTexts) == ReportOf(counted)
    {
      var item := items[i];
      var parsed := parse(item.date);
      if parsed.Some? && parsed.value >= weekAgo {
        var dateObj := parsed.value;
        var day := DayKey(dateObj);
        dailyTimes := dailyTimes[day := Get(dailyTimes, day) + item.duration];
        totalTime := totalTime + item.duration;
        if day !in dailyTexts {
          dailyTexts := dailyTexts[day := []];
        }
        dailyTexts := dailyTexts[day := dailyTexts[day] + [item.text]];
        var entry := Entry(day, item.duration, item.text);
        ReportAppend(counted, entry);
        SheetEntriesTake(items, i, weekAgo, parse, dateObj);
        counted := counted + [entry];
      } else {
        SheetEntriesSkip(items, i, weekAgo, parse);
      }
      i := i + 1;
    }
    assert items[..i] == items;
    return Report(totalTime, dailyTimes, dailyTexts);
  }

  lemma {:induction false} SheetEntriesAppend(a: seq<SheetItem>, b: seq<SheetItem>, weekAgo: int, parse: string -> Option<int>)
    ensures SheetEntries(a + b, weekAgo, parse) == SheetEntries(a, weekAgo, parse) + SheetEntries(b, weekAgo, parse)
    decreases |b|
  {
    if b == [] {
      assert a + b == a;
    } else {
      var b' := b[..|b| - 1];
      assert (a + b)[..|a + b| - 1] == a + b';
      SheetEntriesAppend(a, b', weekAgo, parse);
    }
  }

  /** An item that is not counted leaves the entries as they were. */
  lemma SheetEntriesSkip(items: seq<SheetItem>, i: nat, weekAgo: int, parse: string -> Option<int>)
    requires i < |items|
    requires parse(items[i].date).None? || parse(items[i].date).value < weekAgo
    ensures SheetEntries(items[..i + 1], weekAgo, parse) == SheetEntries(items[..i], weekAgo, parse)
  {
    assert items[..i + 1][..i] == items[..i];
  }

  /** An item that is counted adds its entry at the end. */
  lemma SheetEntriesTake(items: seq<SheetItem>, i: nat, weekAgo: int, parse: string -> Option<int>, t: int)
    requires i < |items|
    requires parse(items[i].date) == Some(t) && t >= weekAgo
    ensures SheetEntries(items[..i + 1], weekAgo, parse)
         == SheetEntries(items[..i], weekAgo, parse) + [Entry(DayKey(t), items[i].duration, items[i].text)]
  {
    assert items[..i + 1][..i] == items[..i];
  }

  /** How a counted item changes the three statistics. */
  lemma ReportTake(items: seq<SheetItem>, i: nat, weekAgo: int, parse: string -> Option<int>, t: int)
    requires i < |items|
    requires parse(items[i].date) == Some(t) && t >= weekAgo
    ensures var r := ReportOf(SheetEntries(items[..i], weekAgo, parse));
      var day, item := DayKey(t), items[i];
      ReportOf(SheetEntries(items[..i + 1], weekAgo, parse)) == Report(r.totalTime + item.duration,
        r.dailyTimes[day := Get(r.dailyTimes, day) + item.duration],
        r.dailyTexts[day := (if day in r.dailyTexts then r.dailyTexts[day] else []) + [item.text]])
  {
    SheetEntriesTake(items, i, weekAgo, parse, t);
    ReportAppend(SheetEntries(items[..i], weekAgo, parse), Entry(DayKey(t), items[i].duration, items[i].text));
  }

  /** An item counts exactly when its date parses to a time no earlier than
      weekAgo; nothing bounds it from above. It then contributes its minutes
      and its text to the day of that time. */
  lemma SheetItemCounted(item: SheetItem, weekAgo: int, parse: string -> Option<int>)
    ensures SheetEntries([item], weekAgo, parse) != [] <==>
      parse(item.date).Some? && parse(item.date).value >= weekAgo
    ensures SheetEntries([item], weekAgo, parse) != [] ==>
      SheetEntries([item], weekAgo, parse) == [Entry(DayKey(parse(item.date).value), item.duration, item.text)]
  {
    assert [item][..0] == [];
  }

  /** An item whose date does not parse is skipped, and every other item
      counts as if it were absent. */
  lemma UnparsedItemSkipped(a: seq<SheetItem>, item: SheetItem, b: seq<SheetItem>, weekAgo: int, parse: string -> Option<int>)
    requires parse(item.date).None?
    ensures SheetEntries(a + [item] + b, weekAgo, parse) == SheetEntries(a + b, weekAgo, parse)
    ensures ReportOf(SheetEntries(a + [item] + b, weekAgo, parse)) == ReportOf(SheetEntries(a + b, weekAgo, parse))
  {
    SheetEntriesAppend(a + [item], b, weekAgo, parse);
    SheetEntriesAppend(a, [item], weekAgo, parse);
    SheetEntriesAppend(a, b, weekAgo, parse);
    SheetItemCounted(item, weekAgo, parse);
  }
}
