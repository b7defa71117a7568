# Time-tracker core in Dafny

This project models the logic core of a small Flask time-tracker. Work is
recorded as posts such as "30分 作業" or "1時間30分" in a Google
spreadsheet, or as sessions with a number of minutes in the app's own
`WorkSession` table. The app turns each spreadsheet post into minutes, and
reports weekly statistics of either source. The core modelled here
has four parts, each proved against a specification:

- **Duration extractor** (`extract_time_from_text`, module `Extractor`).
  - The extractor takes the first `<digits><whitespace>分` and the first
    `<digits><whitespace>時間` in a text and returns minutes + 60 × hours.
    An absent unit counts 0.
  - `Search` models `re.search` as a scan from the left, with greedy digit
    and whitespace runs.
  - Its meaning is the declarative predicate `Reports`: the leftmost match
    of the pattern, or no match anywhere.
- **Sheet-row normaliser** (the row loop of `get_sheets_data`, module
  `Sheets`).
  - The loop skips the header row and rows with fewer than two cells.
  - It keeps the rows whose text is worth a positive number of minutes and
    copies their date and text.
  - An empty sheet gives the error "データが見つかりません".
- **Weekly statistics**.
  - The `/stats` handler of app.py has two branches, in module `AppStats`:
    - `source=local` works on the user's recorded sessions;
    - the default works on the spreadsheet's posts, skipping posts whose
      date does not parse.
  - The `/stats` handler of the serverless variant is in module `Netlify`.
  - Each loop is proved equal to specification functions on the counted
    entries, in module `Weekly`:
    - `Total`;
    - `DailyTimes`, the minutes per day;
    - `DailyTexts`, the texts per day.
  - Those functions are then characterised: `daily_times[d]` is the total of
    day d, both maps have exactly the days with entries as keys, the texts of
    a day keep input order, and `total_time` is the sum of the `daily_times`
    values.
- **Tweet text** (`record_work` in the serverless variant, module `Netlify`).
  - The text is `作業時間: <duration>分\n<description>`.
  - `TweetRoundTrip`: the extractor reads back the absolute value of the
    duration, plus 60 times the first hours the description mentions.
  - `TweetRecoversDuration`: for a non-negative duration and a description
    without an hours mention, this is exactly the duration. A negative
    duration comes back without its sign.

Further notes on the model:

- `Wrappers` holds `Option` and `Result`.
- `HandlerScope` models Python's local-name rule for the two `/stats`
  handlers (see Findings).
- Timestamps are integers in microseconds since the epoch, in UTC.
  - A calendar day is `DayKey(t) = t / 86_400_000_000`.
  - `week_ago` is `now - 7 days`.
  - `datetime.utcnow()` is the parameter `now`.
- `datetime.strptime(date, '%Y/%m/%d %H:%M:%S')` is the parameter
  `parse: string -> Option<int>`, where `None` stands for `ValueError`.
- The `WorkSession` table is a sequence of records. The query is a filter
  over it.

## Model

| member | source | states |
|---|---|---|
| Extractor.MatchHere | app.py:44-45 | a pattern match anchored at the start: greedy digits, greedy whitespace, then the unit word; None exactly when no match starts at position 0 |
| Extractor.GreedyRuns | app.py:44-45 | every match ends its digits where the digit run from its start ends, and its whitespace where the whitespace run ends (the `\d+` and `\s*` are greedy) |
| Extractor.MatchUnique | app.py:44-45 | two matches that start at the same position are the same match |
| Extractor.Search | app.py:50 | `re.search`: a reported match has its digits inside the text |
| Extractor.SearchLeftmost | app.py:50 | the search reports the leftmost match of the pattern, and None only when the pattern occurs nowhere |
| Extractor.SearchReports | app.py:50-57 | whatever the leftmost-match specification reports is what the search returns (the specification determines the search) |
| Extractor.FirstNumberIs | app.py:50-57 | the number a unit contributes is the number of its leftmost match, or 0 without a match |
| Extractor.ExtractTimeFromTextSpec | app.py:41-59 | the result is the first minutes number plus 60 times the first hours number, each 0 when absent |
| Extractor.ExtractZeroWithoutMention | app.py:47-59 | a text mentioning neither unit is worth 0 minutes |
| Extractor.LeftmostTakesWholeDigitRun | app.py:44-45 | the leftmost match starts at the beginning of its digit run: the number read is the whole run in front of the unit |
| Extractor.LaterMentionsIgnored | app.py:50-57 | once a text mentions a unit, anything appended after it changes neither the match nor the number found for that unit |
| Extractor.SkipDigitFree | app.py:44-45 | a digit-free prefix holds no match: the search moves past it unchanged |
| Extractor.MatchAtStart | app.py:44-45 | digits, optional whitespace and the unit word at the start of a text are the match reported, and its number is the digits' value |
| Extractor.SkipDigitsThenOther | app.py:44-45 | digits followed by something that is neither whitespace nor the unit word start no match |
| Extractor.ExampleMinutes | app.py:41-59 | "30分" is worth 30 minutes |
| Extractor.ExampleHours | app.py:41-59 | "2時間" is worth 120 minutes |
| Extractor.HoursThenMinutes | app.py:41-59 | "<h>時間<m>分" is worth 60·h + m minutes, for any digit strings h and m |
| Extractor.ExampleHoursAndMinutes | app.py:41-59 | "1時間30分" is worth 90 minutes |
| Extractor.ExampleNoDuration | app.py:41-59 | a text without a duration is worth 0 minutes |
| Extractor.ExampleFirstMentionOnly | app.py:50-57 | "30分...60分" is worth 30 minutes: only the first mention counts |
| Extractor.ExampleSpaceBeforeUnit | app.py:44 | whitespace between the number and the unit is allowed: "30 分" is worth 30 |
| Sheets.GetSheetsData | app.py:78-100 | an error exactly for a sheet without rows; otherwise the items of the rows after the header, as `Normalised` defines them |
| Sheets.Normalised | app.py:84-98 | the row filter and map: never more items than rows |
| Sheets.NormalisedSound | app.py:85-98 | every emitted item is the item of some row with at least two cells whose text is worth positive minutes |
| Sheets.NormalisedComplete | app.py:85-98 | every row with at least two cells and a positive duration emits its item |
| Sheets.NormalisedMembers | app.py:85-98 | an item is emitted exactly when it is the item of such a row |
| Sheets.NormalisedDurations | app.py:91-96 | every item's duration is the minutes extracted from its own text, and is positive |
| Sheets.NormalisedAppend | app.py:85-98 | the output keeps the order of the input rows (normalising a concatenation is the concatenation of the results) |
| Sheets.DroppedRow | app.py:86-93 | a short row or a row worth 0 minutes is as good as absent |
| Weekly.DayKeyIsDay | app.py:153 | two timestamps share a day key exactly when they lie between the same midnights |
| Weekly.QueryMembers | app.py:143-146 | the query selects exactly the user's sessions with timestamp at or after `week_ago` |
| Weekly.SessionEntries | app.py:152-158 | one entry per session, in order, with the session's day, minutes and description |
| Weekly.ReportAppend | app.py:152-158 | one more entry adds its minutes to the total and to its day, and appends its text to its day's list, creating the list for a new day |
| Weekly.DailyTimesKeys | app.py:152-154 | the keys of `daily_times` are exactly the days on which some entry falls |
| Weekly.DailyTimesOnDay | app.py:152-154 | `daily_times` at a day (0 for a missing day) is the total of that day's entries |
| Weekly.DailyTextsKeys | app.py:155-158 | the keys of `daily_texts` are exactly the days on which some entry falls |
| Weekly.DailyTextsOnDay | app.py:155-158 | the list of a day holds the texts of that day's entries in input order |
| Weekly.SameDays | app.py:148-158 | `daily_times` and `daily_texts` have the same key set |
| Weekly.DailyTextsNonEmpty | app.py:155-158 | no day's list is empty |
| Weekly.TotalIsSumOfDays | app.py:148-154 | `total_time` equals the sum of the `daily_times` values, each key taken once in any order |
| AppStats.LocalStats | app.py:139-164 | the local branch returns the total, minutes per day and descriptions per day of the user's sessions of the past week |
| AppStats.SheetsStats | app.py:166-202 | the default branch passes on the empty-sheet error; otherwise it returns the statistics of the items counted by `SheetEntries` |
| AppStats.AggregateItems | app.py:174-196 | the loop over the items computes exactly the statistics of the counted entries |
| AppStats.SheetEntriesAppend | app.py:181-196 | items are counted one by one, independently and in order |
| AppStats.SheetItemCounted | app.py:184-193 | an item counts exactly when its date parses to a time no earlier than `week_ago` (no upper bound); it then contributes its minutes and text to the day of that time |
| AppStats.UnparsedItemSkipped | app.py:181-196 | an item whose date does not parse is skipped, and the statistics equal those of the items without it |
| AppStats.ReportTake | app.py:186-193 | a counted item updates the three statistics as one loop iteration does |
| Netlify.GetStats | netlify/functions/app.py:109-126 | the handler returns the total of the selected sessions and their minutes per day |
| Netlify.NatToDecimal | netlify/functions/app.py:99 | `str(n)` for n ≥ 0: non-empty ASCII digits, no leading zero, reading back as n |
| Netlify.IntToDecimal | netlify/functions/app.py:99 | `str(n)`: starts with a minus sign exactly when n is negative; the rest is non-empty ASCII digits without a leading zero (except "0" itself) reading back as the absolute value of n |
| Netlify.TweetParts | netlify/functions/app.py:99 | the tweet is `作業時間: `, the sign, the digits of the duration, `分`, a line break and the description |
| Netlify.TweetMinutes | netlify/functions/app.py:99 | the extractor's minutes of a tweet are the absolute value of the posted duration |
| Netlify.TweetHours | netlify/functions/app.py:99 | the extractor's hours of a tweet are the first hours the description mentions |
| Netlify.TweetRoundTrip | netlify/functions/app.py:99 | extracting a tweet gives the absolute duration plus 60 times the first hours in the description |
| Netlify.TweetRecoversDuration | netlify/functions/app.py:99 | for a non-negative duration and a description without an hours mention, the extractor recovers the duration exactly |
| HandlerScope.LocalsAppend | app.py:131-202 | where a bind sits in the body does not matter: the locals of a body are the union of the locals of its parts, and a read makes no name local |
| HandlerScope.RunSpec | app.py:131-202 | a run raises `UnboundLocalError` exactly when it reads a local name before binding it |
| HandlerScope.ReadFirstFails | app.py:133 | a body that binds a name anywhere and starts by reading it fails on that read |
| HandlerScope.NonLocalNeverUnbound | app.py:133 | a name the body never binds never raises `UnboundLocalError` |
| HandlerScope.AppStatsAsWrittenFails | app.py:133-152 | as written, every run of the app.py handler raises `UnboundLocalError` for `session` on its first line |
| HandlerScope.NetlifyStatsAsWrittenFails | netlify/functions/app.py:106-119 | as written, every run of the serverless handler raises `UnboundLocalError` for `session` on its first line |
| HandlerScope.AppStatsCorrectedRuns | app.py:133-152 | with the loop variable renamed, `session` is not local and no run raises for it |
| HandlerScope.NetlifyStatsCorrectedRuns | netlify/functions/app.py:106-119 | with the loop variable renamed, no run of the serverless handler raises for `session` |

## Left out

- Flask routing, request arguments and the Flask `session` are left out. The
  statistics take the user and the branch as inputs. The `default_user`
  fallback (app.py:133-134) and the redirect of a visitor without a user
  (netlify/functions/app.py:106-107) are not modelled.
- The SQLAlchemy model, `create_all`, and inserting a session in
  `record_work` are left out. The query is a filter over a sequence of
  records. Its result is taken in store order, because SQL gives no order
  without `ORDER BY`.
- Google Sheets credentials, the API call and `except Exception` are left
  out. So are the missing-credentials error and other errors of
  `get_sheets_data` (app.py:63-76, app.py:102-103). The model starts from
  the fetched `values`, and only the empty-sheet error reaches
  `SheetsStats`.
- The tweepy client and `create_tweet`, `serverless_wsgi`, and NLTK
  initialisation are left out, as I/O and foreign calls. Only the tweet text
  is modelled.
- `datetime.utcnow()`, `strptime` and `strftime` are left out.
  - The clock is the parameter `now`.
  - Parsing is the parameter `parse`, so its leniency is not modelled.
  - A day is the integer `DayKey` rather than a `'%Y-%m-%d'` string. This
    is a one-to-one renaming of days.
- Extractor.IsDigit: Python's `\d` matches every Unicode decimal digit. The
  model accepts ASCII and fullwidth digits only. Whitespace is the exact
  `str.isspace` set.
- `int(request.form.get('duration'))` raising on a non-numeric form value
  (app.py:118, netlify/functions/app.py:79) is left out. The tweet takes an
  integer duration.
- Extractor.ExtractTimeFromText: since Python 3.11, `int()` of a run of
  more than 4300 digits raises `ValueError`. `get_sheets_data` then returns
  an error through `except Exception`. The model returns the number, since
  integers are unbounded here.
- Extractor.Search: its own contract keeps only that the reported digits lie
  in the text. `SearchLeftmost` states that the match is leftmost, as a
  separate lemma.
- JSON rendering is left out. `jsonify` of the dictionaries is the `Report`
  and `StatsReport` values. An absent description in `daily_texts` is
  `None`, where the JSON has `null`.

## Findings

| source | as written | input that shows it | evidently intended | confidence | as-written member | corrected member |
|---|---|---|---|---|---|---|
| app.py:133, app.py:152 | `for session in work_sessions:` binds `session` inside `get_stats`, which makes `session` a local name of the whole function; line 133 reads it before any bind, so every request to `/stats` raises `UnboundLocalError`, in both branches | any request to `/stats` | the loop reads the Flask session; the loop variable needs another name | not executed | HandlerScope.AppStatsAsWrittenFails | HandlerScope.AppStatsCorrectedRuns |
| netlify/functions/app.py:106, netlify/functions/app.py:119 | the same loop variable `session` makes the read at line 106 fail with `UnboundLocalError` on every request | any request to `/stats` | as above | not executed | HandlerScope.NetlifyStatsAsWrittenFails | HandlerScope.NetlifyStatsCorrectedRuns |

The statistics methods model the corrected handlers, whose loop variable is
the session record:
- `AppStats.LocalStats`;
- `AppStats.SheetsStats`, because app.py:133 raises before either branch
  runs;
- `Netlify.GetStats`.
