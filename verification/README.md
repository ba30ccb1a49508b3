# Bikeshare statistics pipeline, modelled in Dafny

This project models the data pipeline of a command-line bikeshare explorer
(`bikeshare.py`). The tool asks for a city, a month and a weekday, loads
that city's trips, and filters them by month and day. It then reports:

- the most common month, weekday and start hour;
- the most common start station, end station and (start, end) trip;
- the total travel time;
- the count of each user type.

After the reports it pages through the raw rows, five at a time.

A trip is a `Trip` record whose calendar fields (month, lower-case weekday
name, hour) are already derived from the start time. Tables are `seq<Trip>`.
Every step is a pure function or a small method over those sequences.

Modules (one file each):

- `Sequences` (`sequences.dfy`): counting (`Count`), the order-preserving filter `Keep`, subsequences, strict total orders, and the mode with its smallest-value tie-break.
- `Text` (`text.dfy`): ASCII lower-casing, decimal and two-digit rendering, and Python's string order.
- `Trips` (`trips.dfy`): the `Trip` record, the `CITY_DATA`, `months` and `days` tables, the selection, `months.index` and `months[m]`.
- `Filters` (`filters.dfy`): `get_filters`, the re-prompting input collector, run over a finite script of answers.
- `Loader` (`loader.dfy`): `load_data`, which looks up the city and applies the month and day filters.
- `Stats` (`stats.dfy`): `time_stats` and `station_stats`.
- `UserStats` (`user_stats.dfy`): `value_counts` on the user-type column.
- `Durations` (`durations.dfy`): the total duration and its `str(datetime.timedelta(seconds=n))` rendering. A reader `ParseDuration`, which is not part of the program, accepts exactly the texts that rendering produces; it is used to state that the rendering loses nothing and is unique.
- `Viewer` (`viewer.dfy`): the five-row pager.

Behaviour worth knowing:

- **Mode tie-break.** The code reports `mode()[0]`, and pandas returns the modes sorted. So among equally common values the smallest wins.
- **Duration rendering.** `str(timedelta)` does not pad the hours, and it writes minutes and seconds on two digits. Six minutes prints as `0:06:00` (`Durations.SixMinuteTotal`).
- **Day validation.** The first answer to the day question is compared exactly as typed. Only re-prompt answers are lower-cased. The model keeps this asymmetry (`Filters.DayFirstAnswerIsCaseSensitive`).
- **Day filter.** The day filter is applied when `day.lower() != "all"`. It keeps rows whose weekday equals `day` exactly as given.
- **Month label.** The time report prints `months[common_month]`, and `months` has only seven entries ("all" and January to June). A most common month of 7 or later raises `IndexError`; the model's time report then carries no month name.
- **Empty table.** `mode()[0]` raises on an empty table, so the mode-based reports require a non-empty table.

## Model

| member | source | states |
|---|---|---|
| Text.Lower | bikeshare.py:25-39 | `.lower()` keeps the length and folds each character on its own (ASCII upper-case letters to lower case, every other character unchanged); the same fold is used at lines 71 and 212 |
| Filters.Ask | bikeshare.py:25-39 | a question's result is the first answer that is in the valid table after normalisation (the first answer lower-cased only when asked for, every re-prompt answer lower-cased); all earlier answers were refused; there is no result exactly when every answer is refused |
| Filters.GetFilters | bikeshare.py:13-41 | the three questions read the answers in turn, each starting where the previous one stopped; a selection comes back exactly when all three are answered, and then its city is the accepted city answer, `months[month]` is the accepted month name, its day is the accepted day answer, and the answers read are the three questions' answers added up; a completed selection is always valid (a `CITY_DATA` key, a month number in 0..6, one of the eight day names) |
| Filters.DayFirstAnswerIsCaseSensitive | bikeshare.py:37-39 | a first day answer valid only after lower-casing ("Monday") is refused, and the same text at the re-prompt is accepted as its lower-case form |
| Filters.CityAndMonthFirstAnswerLowered | bikeshare.py:25-32 | the city and month questions accept a mixed-case first answer at once, as its lower-case form |
| Filters.MonthAnswerNumber | bikeshare.py:31-34 | the accepted month answer becomes a number in 0..6 whose table entry is that answer lower-cased |
| Trips.MonthIndex | bikeshare.py:34 | `months.index(name)` is the first position holding the name |
| Trips.MonthLabel | bikeshare.py:91 | `months[m]` exists exactly for -7 <= m < 7 (Python counts negative indices from the end), is always one of the seven table entries, and for 0 <= m < 7 is the m-th entry |
| Trips.MonthLabelOfIndex | bikeshare.py:91 | looking a month number up in `months` gives back the name it was made from, and number 0 is exactly "all" |
| Sequences.Keep | bikeshare.py:68 | a boolean-mask selection keeps an order-preserving subsequence whose elements all satisfy the mask, and keeps every satisfying occurrence (equal counts) while dropping all others |
| Loader.FilterTrips | bikeshare.py:66-73 | the filtered table is a subsequence of the input in which every row matches the month (when not 0) and the day (when not "all"), and every matching row is kept as often as it occurs |
| Loader.NoFilterKeepsEverything | bikeshare.py:66-73 | month 0 with day "all" returns the table unchanged |
| Loader.FilterOfMatchingTable | bikeshare.py:66-73 | a filter that every row already satisfies returns the table unchanged |
| Loader.LoadData | bikeshare.py:56-73 | an unknown city is a lookup error, a city whose file is absent is a file error, a known city whose file is present always loads, and the loaded rows are the city file's rows filtered as above |
| Loader.ValidSelectionLoads | bikeshare.py:56 | a selection produced by the input collector never hits the lookup error when every city file exists |
| Sequences.Mode | bikeshare.py:90 | the computed value occurs in the column, no value occurs more often, and it is the smallest of the values sharing the top count |
| Sequences.ModeIsUnique | bikeshare.py:90 | under a strict total order at most one value satisfies the mode definition, so the tie-break determines the report |
| Text.StrLessIsStrictTotalOrder | bikeshare.py:116 | Python's code-point lexicographic string order, used to sort string modes, is irreflexive, transitive and total |
| Text.StrLessTransitive | bikeshare.py:116 | string order is transitive, so sorting the string modes is well defined |
| Text.StrLessTotal | bikeshare.py:116 | any two different strings are ordered one way or the other, so exactly one mode comes first |
| Stats.RouteLessIsStrictTotalOrder | bikeshare.py:124 | the order of (start, end) group keys is a strict total order |
| Stats.TimeStats | bikeshare.py:89-99 | the reported month, weekday and hour are each the mode of their column with the smallest-value tie-break; the month's printed name is `months[month]`, which exists (and is a real month name) when every trip falls in January to June, and is missing (`IndexError`) when every trip is in July or later |
| Stats.StationStats | bikeshare.py:115-125 | the start and end stations are the modes of their columns; the popular trip is a route present in the data with the highest count, the smallest such route in key order, and its reported count is its number of occurrences, at least every other route's |
| Stats.RouteCountIsTripCount | bikeshare.py:125 | a route's count in the route column equals the number of trips that start and end at those stations |
| UserStats.ValueCounts | bikeshare.py:167 | each distinct value appears exactly once with its number of occurrences, every value of the column appears, counts are in non-increasing order, and the counts add up to the number of rows |
| UserStats.UserTypeCounts | bikeshare.py:166-170 | the user-type counts list each type once, in non-increasing count order, cover every trip's type with its count, and add up to the number of trips |
| UserStats.SortByCount | bikeshare.py:167 | sorting by count yields a permutation of the entries in non-increasing count order with the same total |
| UserStats.TalliesSumToLength | bikeshare.py:167 | the counts of the distinct values of a column sum to the column's length |
| Durations.TotalDurationAppend | bikeshare.py:144 | the total duration of two tables put together is the sum of their totals |
| Durations.TotalDuration | bikeshare.py:144 | the total is at least every single trip's duration, and is 0 exactly when every trip lasted 0 seconds |
| Durations.Decompose | bikeshare.py:145 | the days, hours (< 24), minutes (< 60) and seconds (< 60) recombine to the total |
| Durations.FormatDuration | bikeshare.py:145 | the rendering carries a "days" prefix (the only place a comma appears) exactly when the total is at least 86400 seconds |
| Durations.FormatParseRoundTrip | bikeshare.py:145 | reading the rendered "[D day(s), ]H:MM:SS" string back gives the total, so days·86400 + h·3600 + m·60 + s equals it |
| Durations.ParseFormatRoundTrip | bikeshare.py:145 | every text the strict reader accepts (minutes and seconds two digits below 60, hours below 24 unpadded, day count without leading zero, "day" only for one) is exactly the rendering of the total it reads |
| Durations.RenderingIsTheOnlyReading | bikeshare.py:145 | a text reads back as `n` if and only if it is the rendering of `n`, so the rendering is pinned down character for character |
| Durations.DecomposeUnique | bikeshare.py:145 | hours below 24, minutes and seconds below 60 are the only way to write a sub-day total, so the rendered fields are unique |
| Durations.ParseClockCanonical | bikeshare.py:145 | an accepted "H:MM:SS" text denotes less than a day and is the rendering of what it denotes |
| Durations.SixtyMinutesRejected | bikeshare.py:145 | "0:60:00" is not a rendering (3600 seconds print as "1:00:00") |
| Durations.PaddedHourRejected | bikeshare.py:145 | "00:06:00" is not a rendering: hours are never padded |
| Durations.OneDaysRejected | bikeshare.py:145 | "1 days, 0:00:00" is not a rendering: one day takes the singular |
| Durations.TotalTravelTime | bikeshare.py:144-146 | the printed total travel time reads back as the sum of the trip durations, and it is the only text that does |
| Durations.SixMinuteTotal | bikeshare.py:145 | durations 60, 120 and 180 render as "0:06:00" |
| Durations.OneDayTotal | bikeshare.py:145 | 90061 seconds render as "1 day, 1:01:01" |
| Text.Decimal | bikeshare.py:145 | a number's decimal rendering is a non-empty digit string without a leading zero that reads back as the number |
| Text.Pad2 | bikeshare.py:145 | a two-digit zero-padded field reads back as the number |
| Text.DecimalOfDigits | bikeshare.py:145 | every digit string without a leading zero is the decimal rendering of the number it denotes, so `Decimal` and reading digits are inverse |
| Text.Pad2OfDigits | bikeshare.py:145 | every two-digit string is the padded rendering of the number it denotes |
| Viewer.Page | bikeshare.py:213 | a page has at most five rows, is full while five rows remain, and is empty (not an error) from the end of the table on |
| Viewer.Step | bikeshare.py:211-216 | one answer: "yes" to a running viewer adds exactly one page and moves the cursor on by five rows; any other answer ends the viewer; an ended viewer stays ended; pages already shown are never changed |
| Viewer.StepKeepsConsistent | bikeshare.py:212-214 | each answer keeps the cursor at five times the pages shown, and the pages shown equal the table's prefix up to the cursor |
| Viewer.RunShowsPrefix | bikeshare.py:209-216 | after the answers the cursor is 5k for k leading "yes" answers; the viewer has ended exactly when another answer came; page i is rows [5i, min(5i+5, n)); and the pages together are the first min(5k, n) rows |
| Viewer.AnswersAfterNoIgnored | bikeshare.py:211-216 | once a non-"yes" answer ends the viewer, later answers change nothing |
| Viewer.SevenRowTable | bikeshare.py:209-216 | three "yes" answers on a 7-row table show rows 0..5, rows 5..7 and then an empty page |

## Left out

- Reading the CSV files and parsing the start times (`pd.read_csv`, `pd.to_datetime`, lines 56-63) are library I/O. The loader takes a map from file name to already-parsed trips, and a trip's month, weekday and hour are given fields.
- Console prompts and printing (`input`, `print`, the `'{:30}'` column padding, `.title()` on labels) are not modelled. Typed answers are a finite script. A script that runs out before a valid answer gives `None`, where the program would keep waiting.
- The `time.time()` timing lines are clock I/O.
- The mean trip duration (line 149) uses a floating-point mean and `round`.
- The birth-year minimum, maximum and mode (lines 185-191) work on float columns that may hold NaN.
- Gender counts (line 175) are the same `value_counts` as the user-type counts (`UserStats.ValueCounts` is generic). The model's `Trip` record has no gender field.
- The restart loop of `main` (lines 200-220) only sequences the modelled stages.
- The reports on an empty table are not modelled: `mode()[0]` raises there, so `Stats.TimeStats` and `Stats.StationStats` require a non-empty table.
- Text.Lower: folds only ASCII letters, while Python's `str.lower` also folds other Unicode letters.
- UserStats.ValueCounts: does not state the order among values with equal counts. pandas does not document it; the model keeps first-appearance order.
- Missing (NaN) user types, which `dropna=False` counts, are not represented, because `userType` is a plain string.
- Durations.TotalDuration: durations are whole non-negative seconds. The `int(...)` truncation of a fractional sum is not modelled, and neither is the 64-bit wrap-around of the pandas sum, which real trip tables never get near.
- Durations.FormatDuration: renders every total, while `datetime.timedelta` raises `OverflowError` once the total reaches 10^9 days (86400·10^9 seconds). Real trip tables never get near that limit.
- Trips.MonthLabel: an out-of-range month, which raises `IndexError` in the source, becomes `None`, and `Stats.TimeStats` reports that `None` as the month name instead of stopping. Negative indices count from the end as in Python.
