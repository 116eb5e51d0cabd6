# ActivityWatch json-tools, modelled in Dafny

ActivityWatch records what a user does as a stream of events. Each event is a
JSON object:

- `timestamp`: ISO-8601 text.
- `duration`: seconds, counted as 0 when missing.
- `data`: a string map holding `app`, `title`, `url`, `hostname`, ...
- `device` and `bucket`: optional tags saying where the event came from.

The json-tools scripts clean, analyse and select such events. This project
models the event pipeline at their core and proves what each stage promises:

- **Cleaning** (`aw_clean.py`; the stateful `ActivityWatchCleaner` of
  `aw_deduper.py`). Three screening passes drop events that are not
  positive, that are too short, or that come from excluded apps. Then
  events sharing a timestamp are deduplicated, keeping the first of the
  longest. Then consecutive events of the same app are merged when the gap
  between them lies in `[0, max_gap]`. The cleaner also keeps a step log,
  flattens bucket exports, derives device names and summarises the result.
- **Analysis** (`aw_analyze.py`). Events are tallied by app, device, day,
  hour and URL. The report holds the lexical date range, the top apps and
  URLs with their percentages, and the daily and hourly breakdowns. Events
  are extracted from the four document shapes.
- **Date selection** (`aw_filter.py`, `aw_date_extractor.py`, and the
  seven-day window of `aw_extractor.py`).
  - Dates are parsed by an ordered search over four `strptime` formats,
    modelled down to the regular expressions `strptime` matches.
  - A timestamp is matched against an inclusive date range.
  - An order-preserving filter drops events without a timestamp.
  - Documents are rewritten with their shape preserved.
  - The date extractor derives an output filename and builds its output
    document.
  - The last-seven-days extractor builds a URL summary and a report of top
    sites and recent activity.

Some calls go outside the model. Each becomes a parameter:

| parameter | stands for |
|---|---|
| `Lenient` | dateutil's lenient parse, from text to a date |
| `Merge.Clock` | `datetime.fromisoformat` after `Z` is replaced by `+00:00`, giving an instant in microseconds |
| `Extractor.Render` | `strftime` of a parsed timestamp |
| `extractedAt` | `datetime.now().isoformat()` |

File I/O drops out in the same way: a loaded document comes in as a value,
and what would be written comes out as a value.

Modules:

| module | covers |
|---|---|
| `Events` | the event and document data model, and list helpers (filtering, slicing, string order) |
| `Sorting` | a stable insertion sort standing for Python's `sorted` |
| `Tallies` | insertion-ordered `defaultdict` tallies |
| `Durations` | the two `format_duration` functions |
| `Dates` | the date model and `parse_date` |
| `DateFilter` | aw_filter.py |
| `DateExtractor` | aw_date_extractor.py |
| `Dedup`, `Merge`, `Clean` | aw_clean.py |
| `Deduper` | aw_deduper.py |
| `Analyze` | aw_analyze.py |
| `Extractor` | aw_extractor.py |

Where the code loops, the model has a method with a loop. Each such method's
`ensures` ties its result to a specification function, and lemmas prove the
source's promises about that function.

## Model

| member | source | states |
|---|---|---|
| Events.Filter | json_tools/aw_clean.py:116-126 | A list comprehension's result is never longer than its input |
| Events.FilterFacts | json_tools/aw_clean.py:116-126 | A filter keeps exactly the elements that pass the test, each as often as it occurs in the input, in their input order |
| Events.FilterWeaker | json_tools/aw_filter.py:49-52 | Filtering with a weaker test keeps, in order, everything a stronger test keeps |
| Events.FilterTwice | json_tools/aw_clean.py:114-126 | Two filters in a row are one filter by the conjunction of their tests |
| Events.SumDurationsAppend | json_tools/aw_analyze.py:46 | The summed durations of a concatenation are the sum of the two parts' sums |
| Events.Slice | json_tools/aw_analyze.py:71-78 | Python's `s[i:j]` for non-negative bounds: the slice when it is in range, the empty text past the end, and it never fails |
| Events.LexLeTotal | json_tools/aw_analyze.py:100-101 | Python's string `<=` relates any two strings |
| Events.LexLeTransitive | json_tools/aw_analyze.py:100-101 | String `<=` is transitive |
| Events.LexLeAntisymmetric | json_tools/aw_analyze.py:100-101 | String `<=` both ways means the strings are equal |
| Events.Names | json_tools/aw_clean.py:157-163 | The names of a `buckets` object, one per bucket, in document order |
| Events.Tagged | json_tools/aw_analyze.py:205-210 | One bucket's events, each copied and tagged with the bucket's name; none when the bucket has no `events` |
| Events.FlattenMembers | json_tools/aw_analyze.py:204-210 | The flattened events are exactly the buckets' events, each tagged with its bucket's name |
| Events.FlattenSource | json_tools/aw_analyze.py:204-210 | Every flattened event is some bucket's event, tagged with that bucket's name |
| Events.FlattenHas | json_tools/aw_analyze.py:204-210 | Every bucket's event, tagged with that bucket's name, is among the flattened events |
| Events.FlattenLength | json_tools/aw_analyze.py:204-210 | Flattening neither drops nor adds events |
| Sorting.Insert | json_tools/aw_analyze.py:122-126 | Inserting adds exactly one element |
| Sorting.Sort | json_tools/aw_analyze.py:122-126 | The sort has as many elements as its input |
| Sorting.InsertPermutes | json_tools/aw_analyze.py:122-126 | Inserting adds `x` and loses nothing (as multisets) |
| Sorting.SortPermutes | json_tools/aw_analyze.py:122-126 | The sorted list is a permutation of the input |
| Sorting.InsertSorted | json_tools/aw_analyze.py:122-126 | Inserting into an ordered list under a total preorder keeps it ordered |
| Sorting.SortSorted | json_tools/aw_analyze.py:122-126 | The sorted list is ordered by the key relation |
| Sorting.SortOfChained | json_tools/aw_clean.py:49-52 | Sorting an already ordered list changes nothing; ties keep their input order |
| Sorting.TakeSorted | json_tools/aw_extractor.py:131-135 | `sorted(s)[:n]` is ordered, is drawn from the input, and no element left out goes before one kept |
| Sorting.PrefixOfSorted | json_tools/aw_extractor.py:135 | A prefix of an ordered list is ordered, is drawn from the list, and goes before every element after it |
| Sorting.Take | json_tools/aw_analyze.py:126 | Python's `s[:n]`: the first `min(n, len(s))` elements for `n >= 0`; a negative `n` drops `-n` elements from the end |
| Tallies.TallyWellFormed | json_tools/aw_analyze.py:49-53 | A tally lists each key once, and its key order lists exactly the dictionary's keys |
| Tallies.BumpWellFormed | json_tools/aw_analyze.py:52-53 | One `+=` step keeps the tally well formed |
| Tallies.TallyKeys | json_tools/aw_analyze.py:49-53 | The tally's keys are exactly the keys of the events |
| Tallies.TallyLookup | json_tools/aw_analyze.py:49-53 | Each key's entry holds the summed duration and the number of the events filed under it |
| Tallies.MatchingNone | json_tools/aw_analyze.py:49-53 | No event has key `k`, so no event is filed under `k` |
| Tallies.BumpTotals | json_tools/aw_analyze.py:52-53 | One `+=` step adds the event's duration and one event to the tally's totals |
| Tallies.TallyTotals | json_tools/aw_analyze.py:45-80 | The entries' durations add up to the total duration, and their counts add up to the number of events |
| Tallies.TallyOrderExtends | json_tools/aw_analyze.py:49-53 | A new key goes after every key seen before it: keys are in order of first appearance |
| Tallies.Entries | json_tools/aw_analyze.py:108-111 | `dict(t).items()` in insertion order, each key with its usage |
| Tallies.Accumulate | json_tools/aw_analyze.py:49-53 | The tally loop computes the tally of its events |
| Tallies.AccumulateStamped | json_tools/aw_analyze.py:69-80 | A tally loop keyed on `event['timestamp']` computes the tally when every event has a timestamp, and raises KeyError otherwise |
| Durations.FormatDuration | json_tools/aw_analyze.py:17-26 | Seconds exactly below 60, hours exactly from 3600, minutes in between; value times unit is the duration; 1 decimal, 2 for hours |
| Durations.Digits | json_tools/aw_analyze.py:20-26 | The printed digits are the scaled value, rounded to the nearest integer |
| Durations.UnitMonotone | json_tools/aw_analyze.py:19-26 | Units never go down as durations grow |
| Durations.ShortSuffixOf | json_tools/aw_analyze.py:17-26 | The analyzer's suffix is `s` exactly below 60 s, `m` from 60 s to below 3600 s, `h` from 3600 s |
| Durations.FormatDurationExamples | json_tools/aw_analyze.py:17-26 | 3599 s prints as 60.0m, 3600 s as 1.00h, 59.9 s as 59.9s and 0 s as 0.0s |
| Dates.DaysInMonth | json_tools/aw_filter.py:24 | A month has 28 to 31 days |
| Dates.DateLeTotalOrder | json_tools/aw_filter.py:40 | Chronological order on dates is total, antisymmetric and transitive |
| Dates.PrevDay | json_tools/aw_extractor.py:36 | The day before a valid date is a valid, strictly earlier date |
| Dates.PrevDayAdjacent | json_tools/aw_extractor.py:36 | No valid date lies strictly between a date and the day before it |
| Dates.DaysBefore | json_tools/aw_extractor.py:36 | `d - timedelta(days=n)` for `n <= 7` is a valid date no later than `d` |
| Dates.DaysBeforeWindow | json_tools/aw_extractor.py:36-39 | The dates from `n` days before `d` up to `d` are exactly the `n + 1` dates reached by stepping back one day at a time |
| Dates.DaysBeforeMonotone | json_tools/aw_extractor.py:36 | Stepping back further gives an earlier date |
| Dates.MatchFrom | json_tools/aw_filter.py:24 | `re.match` of the format's pattern never ends before its start or past the end of the text |
| Dates.TryAlternatives | json_tools/aw_filter.py:24 | Each directive tries its regular-expression alternatives in order, within the text's bounds |
| Dates.Strptime | json_tools/aw_filter.py:24 | `strptime(s, fmt).date()` gives only valid dates, and None where it raises ValueError |
| Dates.FirstFormat | json_tools/aw_filter.py:22-26 | The first of the formats that parses `s`: a date exactly when some format parses, and then that of the first such format |
| Dates.ParseDate | json_tools/aw_filter.py:18-31 | None for None; the date of the first fitting format, in list order, when one fits (a valid date); the lenient parse when none fits |
| Dates.FirstFitting | json_tools/aw_filter.py:24 | Once earlier alternatives of a directive fail to fit, the first fitting alternative decides the match |
| Dates.DigitChar | json_tools/aw_date_extractor.py:209-210 | The decimal digit for `n < 10` reads back as `n` |
| Dates.Digits2 | json_tools/aw_date_extractor.py:209-210 | `%02d`: two digits that read back as `n` |
| Dates.Digits4 | json_tools/aw_date_extractor.py:209-210 | `%04d`: four digits that read back as `n` |
| Dates.IsoDate | json_tools/aw_date_extractor.py:209-210 | `date.isoformat()` is ten characters long |
| Dates.MonthField | json_tools/aw_filter.py:24 | An ISO month field is read by the alternative `1[0-2]` or `0[1-9]` |
| Dates.DayField | json_tools/aw_filter.py:24 | An ISO day field is read by `3[01]`, `[12]\d` or `0[1-9]` |
| Dates.YearField | json_tools/aw_filter.py:24 | A four-digit year field is read as written |
| Dates.ParseIsoDate | json_tools/aw_date_extractor.py:59-72 | `parse_date` reads back every date `isoformat` writes |
| Dates.UsDate | json_tools/aw_filter.py:22 | The `%m/%d/%Y` rendering of a date is ten characters long |
| Dates.EuDate | json_tools/aw_filter.py:22 | The `%d/%m/%Y` rendering is ten characters long |
| Dates.CompactDate | json_tools/aw_filter.py:22 | The `%Y%m%d` rendering is eight characters long |
| Dates.LiteralMissing | json_tools/aw_filter.py:24 | However a directive is read, a missing literal after it makes the match fail |
| Dates.IsoRejects | json_tools/aw_filter.py:22-26 | `%Y-%m-%d` fails without a dash after four characters |
| Dates.UsRejects | json_tools/aw_filter.py:22-26 | `%m/%d/%Y` fails without a slash after one or two month characters |
| Dates.EuRejects | json_tools/aw_filter.py:22-26 | `%d/%m/%Y` fails without a slash after one or two day characters |
| Dates.ParseUsDate | json_tools/aw_filter.py:22-26 | US-style dates are read back as written, since the ISO format fails on them |
| Dates.EuDateNotUs | json_tools/aw_filter.py:22-26 | A day above 12 cannot be read as a month, so `%m/%d/%Y` fails on a `%d/%m/%Y` date |
| Dates.EuDateRead | json_tools/aw_filter.py:22-26 | `%d/%m/%Y` reads its own rendering back |
| Dates.ParseEuDate | json_tools/aw_filter.py:22-26 | A day-first date is read month first whenever its day could be a month, and as written otherwise |
| Dates.ParseCompactDate | json_tools/aw_filter.py:22-26 | `%Y%m%d` dates are read back, the three formats with separators failing on them |
| Dates.ParseIsoExample | json_tools/aw_filter.py:22-26 | "2025-06-01" is 1 June 2025 |
| Dates.ParseUsExample | json_tools/aw_filter.py:22-26 | "01/06/2025" is 6 January 2025 |
| Dates.ParseEuExample | json_tools/aw_filter.py:22-26 | "13/06/2025" is 13 June 2025 |
| Dates.ParseCompactExample | json_tools/aw_filter.py:22-26 | "20250601" is 1 June 2025 |
| Dates.ParseDateEmpty | json_tools/aw_filter.py:18-31 | No format reads the empty text, which is left to the lenient parse |
| Dates.WidenRange | json_tools/aw_filter.py:34-42 | Widening the range keeps every timestamp the narrower range accepted |
| Dates.IntersectRanges | json_tools/aw_filter.py:34-42 | Being in two ranges is being in their intersection |
| Dates.IsWithinLast7Days | json_tools/aw_extractor.py:26-43 | The seven-day test is the inclusive range test from `today - 7 days` to `today`, false where the parse fails |
| Dates.Last7DaysWindow | json_tools/aw_extractor.py:26-39 | The window holds exactly the eight dates from `today - 7 days` to `today` |
| Dates.SevenDaysBeforeExample | json_tools/aw_extractor.py:59-60 | Seven days before 7 June 2025 is 31 May 2025 |
| DateFilter.EventsInRange | json_tools/aw_filter.py:45-53 | The kept events are a subsequence of the input, with their multiplicities. An event is kept exactly when it has a timestamp in range |
| DateFilter.WidenedRangeKeeps | json_tools/aw_filter.py:40 | Widening the range never drops a kept event, and keeps their order |
| DateFilter.FilterTwiceIntersects | json_tools/aw_filter.py:45-53 | Filtering by one range and then another is filtering by their intersection |
| DateFilter.EventsInRangeIdempotent | json_tools/aw_filter.py:45-53 | Filtering again by the same range changes nothing |
| DateFilter.FilterEventsByDate | json_tools/aw_filter.py:45-53 | The loop computes the in-range events |
| DateFilter.FilterBucket | json_tools/aw_filter.py:74-79 | A bucket keeps its name and other fields; its events, when present, are filtered in order |
| DateFilter.FilterBuckets | json_tools/aw_filter.py:72-81 | Every bucket is filtered, one for one, in order |
| DateFilter.FilterDocShapes | json_tools/aw_filter.py:56-81 | A list becomes the filtered list. A bucket object becomes a `buckets`-only object with the same names and fields. An `events` object keeps its other keys. Anything else comes back unchanged |
| DateFilter.FilterDocIdempotent | json_tools/aw_filter.py:56-81 | Filtering a filtered document again changes nothing |
| DateFilter.FilterActivityWatchData | json_tools/aw_filter.py:56-81 | The bucket loop computes the filtered document |
| DateExtractor.RFind | json_tools/aw_date_extractor.py:176-178 | The last position of a character, or -1 when it does not occur |
| DateExtractor.BaseName | json_tools/aw_date_extractor.py:176-178 | `Path(p).name` is a slash-free suffix of the path |
| DateExtractor.StemOfName | json_tools/aw_date_extractor.py:176-178 | The stem is the name, or the part of the name before its last dot, which leaves a non-empty suffix |
| DateExtractor.StemExample | json_tools/aw_date_extractor.py:176-178 | `data/aw-watcher-web.json` has stem `aw-watcher-web` |
| DateExtractor.StemOfPath | json_tools/aw_date_extractor.py:176-178 | `dir/base.ext` has stem `base` |
| DateExtractor.RFindLast | json_tools/aw_date_extractor.py:176-178 | In `a + c + b`, where `b` holds no `c`, the last `c` is the one after `a` |
| DateExtractor.StemLastSuffixExample | json_tools/aw_date_extractor.py:176-178 | `archive.tar.gz` has stem `archive.tar` |
| DateExtractor.StemHiddenExample | json_tools/aw_date_extractor.py:176-178 | `.hidden` is its own stem |
| DateExtractor.OutputFilename | json_tools/aw_date_extractor.py:175-178 | The default name is the prefix, the stem and 27 more characters long |
| DateExtractor.OutputFilenameLayout | json_tools/aw_date_extractor.py:175-178 | The default name is `output/filtered_`, the stem, `_`, the start date, `_`, the end date and `.json`, in that order |
| DateExtractor.OutputFilenameRange | json_tools/aw_date_extractor.py:175-178 | The date range can be parsed back from the default name |
| DateExtractor.OutputDocument | json_tools/aw_date_extractor.py:193-214 | Exactly one bucket, keyed by the bucket id, holding the filtered events. `extraction_info.original_total_events` is the number of events written |
| DateExtractor.ExtractDateRangeData | json_tools/aw_date_extractor.py:90-119 | No events when the file did not load; otherwise the in-range events, in order |
| DateExtractor.ProcessSingleFile | json_tools/aw_date_extractor.py:142-185 | Success exactly when the file loaded and some event is in range. The document is then saved under the given or default name. Otherwise nothing is saved |
| Dedup.FirstIndex | json_tools/aw_clean.py:25-27 | The position of the first event carrying a timestamp |
| Dedup.FirstLongest | json_tools/aw_clean.py:35 | `max(group, key=duration)` is an event of the group |
| Dedup.FirstLongestFacts | json_tools/aw_clean.py:35 | The pick is one of the longest, and every event before it is strictly shorter |
| Dedup.GroupNonEmpty | json_tools/aw_clean.py:25-27 | A group is non-empty exactly when its timestamp occurs |
| Dedup.PickAll | json_tools/aw_clean.py:29-36 | One pick per key |
| Dedup.KeysOrdered | json_tools/aw_clean.py:25-27 | The dictionary keys are distinct, each is a timestamp of the input, and they come in order of first occurrence |
| Dedup.PickAllIndex | json_tools/aw_clean.py:30-36 | Each pick is the first-longest event of its group |
| Dedup.GroupMembers | json_tools/aw_clean.py:25-27 | Every event of a group belongs to the input and carries the group's timestamp |
| Dedup.GroupLongestBound | json_tools/aw_clean.py:33-36 | No input event with the group's timestamp is longer than the group's pick |
| Dedup.GroupLongestFirst | json_tools/aw_clean.py:33-36 | The pick is an input event, and every earlier event with its timestamp is strictly shorter |
| Dedup.DeduplicatedIndex | json_tools/aw_clean.py:22-38 | The i-th kept event is the first-longest event of the i-th distinct timestamp |
| Dedup.KeysLength | json_tools/aw_clean.py:25-27 | There are no more distinct timestamps than events |
| Dedup.DedupSubset | json_tools/aw_clean.py:22-38 | Only input events are kept, never more of them than there are |
| Dedup.DedupDistinct | json_tools/aw_clean.py:22-38 | The output's timestamps are pairwise distinct |
| Dedup.DedupSameTimestamps | json_tools/aw_clean.py:22-38 | A timestamp occurs in the output exactly when it occurs in the input |
| Dedup.DedupFirstOccurrenceOrder | json_tools/aw_clean.py:22-38 | Output events come in the order their timestamps first occur in the input |
| Dedup.DedupKeepsFirstLongest | json_tools/aw_clean.py:33-36 | Each kept event is one of the longest with its timestamp, and every earlier one is strictly shorter |
| Dedup.DedupNoRepeats | json_tools/aw_clean.py:22-38 | Input without a repeated timestamp comes back unchanged |
| Dedup.NewKeyAppended | json_tools/aw_clean.py:25-36 | An event with a new timestamp is appended to the deduplicated list |
| Dedup.DedupIdempotent | json_tools/aw_clean.py:22-38 | Deduplicating twice is deduplicating once |
| Dedup.GroupByTimestamp | json_tools/aw_clean.py:22-27 | The grouping loop succeeds exactly when every event has a timestamp. It then builds the timestamp-to-group dictionary, keys in order of first appearance |
| Dedup.DeduplicateSimultaneousEvents | json_tools/aw_clean.py:18-38 | The deduplicated list when every event has a timestamp, and KeyError otherwise |
| Merge.Walk | json_tools/aw_clean.py:55-94 | The walk emits at least one event and at most one more event than remain |
| Merge.KeyFailure | json_tools/aw_clean.py:49-52 | The sort key raises exactly when some event lacks a parseable timestamp |
| Merge.Merged | json_tools/aw_clean.py:41-95 | A successful merge is empty exactly for empty input, and never longer than the input |
| Merge.AbsorbFacts | json_tools/aw_clean.py:74-88 | Absorbing keeps start, app and tags. The duration grows by the gap and the next duration, so the merged event ends where the next one ends |
| Merge.MergeableByOrigin | json_tools/aw_clean.py:69-72 | The merge condition depends on the next event only through its timestamp and app |
| Merge.WalkHeadOrigin | json_tools/aw_clean.py:55-94 | The first emitted event has the origin of the first accumulator |
| Merge.WalkNoMergeablePair | json_tools/aw_clean.py:69-92 | No two adjacent emitted events satisfy the merge condition |
| Merge.WalkChained | json_tools/aw_clean.py:55-94 | A walk over events in start order emits events in start order |
| Merge.WalkOrigins | json_tools/aw_clean.py:55-94 | Every emitted event has the origin of a walked event and, when durations are non-negative, at least its duration |
| Merge.WalkSucceeds | json_tools/aw_clean.py:85-88 | With every `data` present, no title write raises |
| Merge.WalkOfUnmergeable | json_tools/aw_clean.py:55-94 | A walk over events of which no two adjacent may merge emits them unchanged |
| Merge.WalkHead | json_tools/aw_clean.py:55-94 | The first emitted event is the first accumulator after absorbing a prefix of the rest |
| Merge.AbsorbTitle | json_tools/aw_clean.py:85-88 | A merge replaces the title exactly when the next title is strictly longer |
| Merge.AbsorbAllTitle | json_tools/aw_clean.py:85-88 | After a run of merges the title is the first of the longest titles in the run |
| Merge.AbsorbAllCons | json_tools/aw_clean.py:69-88 | Absorbing a list that starts with an event is absorbing that event first |
| Merge.RunsAfterAbsorb | json_tools/aw_clean.py:69-88 | After a merge step, the walk's runs over the rest are runs over the list before the step, the first one longer by the absorbed event |
| Merge.RunsAfterEmit | json_tools/aw_clean.py:91-92 | After an emit, the emitted event is a run of its own in front of the walk's runs over the rest |
| Merge.WalkRuns | json_tools/aw_clean.py:55-94 | Cut points split the walked list into consecutive runs that cover it in order; emitted event `i` is the first event of run `i` after absorbing the rest of that run |
| Merge.MergedRuns | json_tools/aw_clean.py:41-95 | A successful merge emits one event per consecutive run of the start-sorted input, covering it in order |
| Merge.RunTitle | json_tools/aw_clean.py:85-88 | When a run starts with an event that has data, the emitted title is the first of the longest titles in that run |
| Merge.RunTitles | json_tools/aw_clean.py:55-94 | The title source of every run that starts with an event that has data |
| Merge.MergedTitles | json_tools/aw_clean.py:41-95 | Each event of a successful merge whose run starts with data carries the first of the longest titles of its run in the sorted input |
| Merge.MergeSingle | json_tools/aw_clean.py:41-95 | A single event merges into itself |
| Merge.SortedMembers | json_tools/aw_clean.py:49-52 | Sorting by start keeps exactly the input's events |
| Merge.MergeOrigins | json_tools/aw_clean.py:41-95 | Each merged event has the origin of an input event and, for non-negative durations, at least its duration |
| Merge.MergeSucceeds | json_tools/aw_clean.py:41-95 | With parseable timestamps and `data` everywhere, merging does not raise |
| Merge.MergeOutputShape | json_tools/aw_clean.py:41-95 | The merged list is in start order. Adjacent events have different apps, or a gap below 0 or above `max_gap` |
| Merge.MergeFixedPoint | json_tools/aw_clean.py:41-95 | Re-merging a merged list with the same gap changes nothing |
| Merge.WalkOriginsTimed | json_tools/aw_clean.py:55-94 | Every emitted event has a parseable timestamp when every walked event does |
| Merge.WalkAbsorbs | json_tools/aw_clean.py:69-88 | A merge step absorbs the next event and the walk goes on |
| Merge.WalkAbsorbRaises | json_tools/aw_clean.py:88 | A merge step whose title write raises makes the walk raise |
| Merge.WalkEmits | json_tools/aw_clean.py:89-92 | A non-merging step emits the accumulator and restarts from the next event |
| Merge.EndpointArithmetic | json_tools/aw_clean.py:58-82 | The gap and the merged duration as the loop computes them from ends and starts |
| Merge.AbsorbNext | json_tools/aw_clean.py:74-88 | The merge step raises KeyError exactly when the accumulator has no `data`, and otherwise absorbs the next event |
| Merge.MergeConsecutiveEvents | json_tools/aw_clean.py:41-95 | The loop computes the merge, errors included |
| Merge.ExampleGapAbsorbed | json_tools/aw_clean.py:74-88 | 60 s, a 15 s gap and 45 s merge into 120 s |
| Merge.ExampleHalfSecondGap | json_tools/aw_clean.py:74-82 | 300 s, a 0.5 s gap and 25 s merge into 325.5 s |
| Merge.OverlapNotMerged | json_tools/aw_clean.py:69-72 | Overlapping events of the same app (a negative gap) are not merged |
| Clean.ScreenedMembers | json_tools/aw_clean.py:114-126 | The screened list holds exactly the input events that pass every enabled screen |
| Clean.PreparedMembers | json_tools/aw_clean.py:114-130 | Before merging, the list holds only input events that pass every screen |
| Clean.FilterEventsSurvivors | json_tools/aw_clean.py:98-136 | Survivors descend from screened input events. Without merging they are such input events; with merging they are in start order |
| Clean.FilterEventsScreens | json_tools/aw_clean.py:106-126 | No survivor has a non-positive duration (zero removal on), a duration below the minimum (minimum positive), or an excluded app |
| Clean.FilterEventsSucceeds | json_tools/aw_clean.py:98-136 | With parseable timestamps and `data` everywhere, `filter_events` does not raise |
| Clean.FilterEventsAllOff | json_tools/aw_clean.py:98-136 | With every pass off and an empty exclusion list, the input comes back |
| Clean.CleanBuckets | json_tools/aw_clean.py:157-163 | Every bucket is cleaned in order; the first bucket whose filtering raises decides the error |
| Clean.CleanBucketsSnoc | json_tools/aw_clean.py:157-163 | Cleaning one more bucket after a clean prefix |
| Clean.CleanBucketsFailedPrefix | json_tools/aw_clean.py:157-163 | Once a prefix of the buckets fails, the whole list fails the same way |
| Clean.CleanDocShapes | json_tools/aw_clean.py:139-165 | A list becomes the filtered list. A bucket object becomes a `buckets`-only object with the same names, each bucket's events filtered and other fields kept. An `events` object keeps its other keys. Anything else comes back unchanged |
| Clean.CleanDocFails | json_tools/aw_clean.py:139-165 | Cleaning fails exactly when filtering one of the event lists it touches fails |
| Clean.ApplyFilters | json_tools/aw_clean.py:98-136 | The passes as methods compute `filter_events` |
| Clean.CleanActivityWatchData | json_tools/aw_clean.py:139-165 | The bucket loop computes the cleaned document |
| Deduper.UpdateLaws | json_tools/aw_deduper.py:17-28 | No keys change nothing; two updates are one with the later keys winning; repeating an update changes nothing |
| Deduper.MainConfig | json_tools/aw_deduper.py:253-260 | `main`'s four keys are set, and every other default stays |
| Deduper.Split | json_tools/aw_deduper.py:57 | `split` gives at least one part |
| Deduper.SplitParts | json_tools/aw_deduper.py:57 | No part holds the separator |
| Deduper.SplitJoin | json_tools/aw_deduper.py:57-58 | Joining the parts gives back the string; there is more than one part exactly when the separator occurs |
| Deduper.JoinLast | json_tools/aw_deduper.py:57 | Joining around a last part |
| Deduper.RemoveAll | json_tools/aw_deduper.py:59 | `replace(pat, '')` never lengthens the text |
| Deduper.RemoveAllUntouched | json_tools/aw_deduper.py:59 | Text without the pattern's first character comes back unchanged |
| Deduper.RemoveAllTrailing | json_tools/aw_deduper.py:59 | Pattern-free text followed by the pattern loses only the pattern |
| Deduper.DeviceNameRule | json_tools/aw_deduper.py:55-60 | No underscore gives `unknown`; otherwise the device is the text after the last underscore, with every `.local` removed |
| Deduper.DeviceNameExample | json_tools/aw_deduper.py:55-60 | `aw-watcher-window_MacBook-Pro.local` names `MacBook-Pro` |
| Deduper.DeviceNameUnknownExample | json_tools/aw_deduper.py:55-60 | `aw-watcher-afk` names `unknown` |
| Deduper.RemoveAllRejoinsExample | json_tools/aw_deduper.py:59 | One left-to-right pass: an occurrence the removal joins up survives |
| Deduper.SplitAppend | json_tools/aw_deduper.py:57-59 | Splitting `a + sep + b`, where `b` has no separator, ends with the part `b` |
| Deduper.LoadedEventsFacts | json_tools/aw_deduper.py:37-49 | Loading keeps every bucket event and nothing else, each tagged with its bucket and device; no `buckets` gives no events |
| Deduper.LoadAwFile | json_tools/aw_deduper.py:37-44 | The bucket loop computes the loaded events |
| Deduper.AfterZero | json_tools/aw_deduper.py:68-74 | Pass 1 never lengthens the list |
| Deduper.AfterShort | json_tools/aw_deduper.py:76-83 | Pass 2 never lengthens the list |
| Deduper.AfterExcluded | json_tools/aw_deduper.py:85-93 | Pass 3 never lengthens the list |
| Deduper.AfterDedup | json_tools/aw_deduper.py:95-101 | Pass 4, when it succeeds, never lengthens the list |
| Deduper.PipelineAgrees | json_tools/aw_deduper.py:62-116 | The events the cleaner keeps are those `aw_clean.filter_events` keeps with the same options |
| Deduper.DefaultsAgree | json_tools/aw_deduper.py:17-26 | With its defaults, the cleaner keeps what aw_clean keeps with its own defaults |
| Deduper.SumRemovedAppend | json_tools/aw_deduper.py:66-113 | The removal counts of two logs add up |
| Deduper.ShownFacts | json_tools/aw_deduper.py:72-74 | Appending a pass's line adds exactly what the pass removed |
| Deduper.StepLogFacts | json_tools/aw_deduper.py:66-114 | For counts that never grow: one positive line per reducing pass, in pass order, then the total line; the step counts add up to the total removed |
| Deduper.PipelineSteps | json_tools/aw_deduper.py:62-116 | The step log has 1 to 6 lines, ends with the total line, and its counts add up to the original count less the final one. The percentage is 0 for empty input |
| Deduper.PipelineCounts | json_tools/aw_deduper.py:62-116 | A successful run's log is the step log of the pass counts, which never grow from the input count to the final one |
| Deduper.CleaningSteps | json_tools/aw_deduper.py:62-116 | The facts of the step log read off a cleaning result |
| Deduper.SummarizeFacts | json_tools/aw_deduper.py:181-217 | Empty exactly for no events; fails exactly when an event lacks a timestamp. Otherwise the hours are seconds / 3600 and every tally partitions the events |
| Deduper.SummaryDeviceIgnoresHostname | json_tools/aw_deduper.py:200 | The summary's device is the `device` tag or `Unknown`, whatever `data` holds |
| Deduper.PipelineStages | json_tools/aw_deduper.py:95-116 | `filter_events` stage by stage once deduplication and merging succeeded |
| Deduper.DedupStageAgrees | json_tools/aw_deduper.py:95-101 | The deduplication pass on the screened list is pass 4 |
| Deduper.PipelineDedupFails | json_tools/aw_deduper.py:95-98 | A failing deduplication fails `filter_events` |
| Deduper.PipelineMergeFails | json_tools/aw_deduper.py:103-106 | A failing merge fails `filter_events` |
| Deduper.PrintedLog | json_tools/aw_deduper.py:66-114 | The printed lines of the passes, then the total line, are the log of their counts |
| Deduper.RunPass | json_tools/aw_deduper.py:69-83 | One pass, applied when enabled, with the line it prints |
| Deduper.ScreenEvents | json_tools/aw_deduper.py:64-93 | Passes 1 to 3 with their lines |
| Deduper.DedupStage | json_tools/aw_deduper.py:95-98 | Pass 4 when enabled |
| Deduper.MergeStage | json_tools/aw_deduper.py:103-106 | Pass 5 when enabled |
| Deduper.ReduceEvents | json_tools/aw_deduper.py:95-116 | Passes 4 and 5 and the rest of the log compute `filter_events` |
| Deduper.MergeEvents | json_tools/aw_deduper.py:103-116 | Pass 5 and the rest of the log compute `filter_events` |
| Deduper.ActivityWatchCleaner.constructor | json_tools/aw_deduper.py:15-28 | The configuration is the defaults updated by the caller's keys |
| Deduper.ActivityWatchCleaner.DeviceName | json_tools/aw_deduper.py:55-60 | `_extract_device_name` |
| Deduper.ActivityWatchCleaner.DeduplicateSimultaneousEvents | json_tools/aw_deduper.py:118-136 | The same deduplication as aw_clean |
| Deduper.ActivityWatchCleaner.MergeConsecutiveEvents | json_tools/aw_deduper.py:138-179 | The same merge as aw_clean, with the gap read from the configuration |
| Deduper.ActivityWatchCleaner.FilterEvents | json_tools/aw_deduper.py:62-116 | The configured passes with their step log |
| Deduper.ActivityWatchCleaner.GenerateSummary | json_tools/aw_deduper.py:181-217 | The summary of the events |
| Analyze.FirstLongestStep | json_tools/aw_analyze.py:90-92 | Keeping a title unless the next one is strictly longer keeps the first longest title |
| Analyze.OfUrlSnoc | json_tools/aw_analyze.py:84-86 | The events of one URL, for one more event |
| Analyze.UrlTallyTotals | json_tools/aw_analyze.py:83-92 | Only truthy URLs are tallied; each entry sums the durations and counts the events of its URL |
| Analyze.BumpUrlWellFormed | json_tools/aw_analyze.py:86-92 | One URL step keeps the tally a dictionary: each URL once in the order, the order listing exactly the keys |
| Analyze.UrlTallyWellFormed | json_tools/aw_analyze.py:83-92 | The URL tally lists each URL once, in an order holding exactly its keys, as many as there are |
| Analyze.UrlTallySnocTitle | json_tools/aw_analyze.py:87-92 | The kept title after one more event |
| Analyze.UrlTallyTitle | json_tools/aw_analyze.py:87-92 | Each URL keeps the first of the longest titles among its events |
| Analyze.Stamps | json_tools/aw_analyze.py:95-96 | The timestamps are exactly those of the events that have one |
| Analyze.MinLex | json_tools/aw_analyze.py:100 | `min` is a member that is at most every member |
| Analyze.MaxLex | json_tools/aw_analyze.py:101 | `max` is a member that is at least every member |
| Analyze.EmptyFastPathAgrees | json_tools/aw_analyze.py:31-42 | The early return for no events is what the general computation gives |
| Analyze.TallyPartitions | json_tools/aw_analyze.py:49-80 | A tally's durations sum to the total and its counts to the number of events |
| Analyze.AnalyzeEventsTotals | json_tools/aw_analyze.py:29-114 | Fails exactly on a non-empty list with an event lacking a timestamp. Otherwise the totals are right, apps, devices, days and hours each partition the events, and the URL tally is a well-formed dictionary |
| Analyze.AnalyzeEventsDateRange | json_tools/aw_analyze.py:94-102 | The date range runs from the least to the greatest timestamp text, both attained |
| Analyze.AccumulateUrls | json_tools/aw_analyze.py:83-92 | The URL loop computes the URL tally |
| Analyze.AnalyzeEventsLoops | json_tools/aw_analyze.py:29-114 | The five loops compute `analyze_events`, errors included |
| Analyze.UrlEntries | json_tools/aw_analyze.py:129-133 | One entry per URL in the tally's order |
| Analyze.UrlEntriesListed | json_tools/aw_analyze.py:129-133 | On a well-formed URL tally, entry `i` is URL `i` with its tallied usage, and no URL has two entries |
| Analyze.LongerOrEqualPreorder | json_tools/aw_analyze.py:122-133 | Ordering by duration, longest first, is a total preorder |
| Analyze.KeyLePreorder | json_tools/aw_analyze.py:137-147 | Ordering by key is a total preorder |
| Analyze.TopAppsOrder | json_tools/aw_analyze.py:122-126 | At most `top_n` apps (all when fewer; a negative `top_n` drops that many from the end), drawn from the app tally with no entry more often than there, longest first, each with its share of the total (0 when the total is 0) |
| Analyze.TopAppsListed | json_tools/aw_analyze.py:162-173 | Each top app is an app tally entry, with its duration and count |
| Analyze.TopAppsOmitted | json_tools/aw_analyze.py:122-126 | No app left out is longer than one listed |
| Analyze.TopUrlsFacts | json_tools/aw_analyze.py:129-133 | None without URLs; otherwise at most `top_n` (a negative `top_n` drops that many from the end), drawn from the URL tally with no entry more often than there, longest first, each a tallied URL with its share |
| Analyze.TopUrlsOmitted | json_tools/aw_analyze.py:129-133 | No URL left out of the top list is longer than one listed |
| Analyze.TopUrlsDistinct | json_tools/aw_analyze.py:129-133 | On a well-formed URL tally each listed URL is a tallied key with its duration, count and title, and no URL is listed twice |
| Analyze.BreakdownFacts | json_tools/aw_analyze.py:135-153 | Every day and hour, in ascending key order; an hour is labelled `HH:00` |
| Analyze.ExtractFromBuckets | json_tools/aw_analyze.py:202-210 | Bucket export: exactly the buckets' events, each tagged with its bucket, as many as the buckets hold |
| Analyze.ExtractEventsFromData | json_tools/aw_analyze.py:192-215 | The loops compute the extraction: a list, else `events`, else `buckets`, else the `data` envelope, else nothing |
| Extractor.Last7DaysIsRange | json_tools/aw_extractor.py:76-79 | Keeping the last seven days is the range filter from `today - 7 days` to `today` |
| Extractor.Last7DaysMembers | json_tools/aw_extractor.py:26-43 | An entry is kept exactly when its timestamp parses to a date in the window; a missing or unparseable timestamp drops it |
| Extractor.Last7DaysOrder | json_tools/aw_extractor.py:73-79 | The kept entries keep their order and their multiplicities |
| Extractor.Last7DaysIdempotent | json_tools/aw_extractor.py:76-79 | Extracting again from the extracted entries changes nothing |
| Extractor.ExtractLast7DaysData | json_tools/aw_extractor.py:56-84 | The entries dated 31 May 2025 to 7 June 2025, in input order |
| Extractor.FormatDuration | json_tools/aw_extractor.py:45-54 | ` seconds` exactly below 60, ` minutes` from 60 to below 3600, ` hours` from 3600; value times unit is the duration; 1 decimal, 2 for hours |
| Extractor.FormatDurationExamples | json_tools/aw_extractor.py:45-54 | 45 s prints as 45.0 seconds, 3599 s as 60.0 minutes, 3600 s as 1.00 hours |
| Extractor.AddVisitWellFormed | json_tools/aw_extractor.py:117-125 | One visit keeps the summary well formed |
| Extractor.SummaryWellFormed | json_tools/aw_extractor.py:110-125 | The summary lists each URL once, and its order lists exactly its keys |
| Extractor.SummarySite | json_tools/aw_extractor.py:110-125 | A URL is a key exactly when some entry has it. Its site holds the first entry's title, the summed durations and the number of entries |
| Extractor.SummaryKeys | json_tools/aw_extractor.py:111-113 | The summary's keys are the URLs of the entries |
| Extractor.AddVisitTotals | json_tools/aw_extractor.py:124-125 | One visit adds its duration and one visit to the totals |
| Extractor.SummaryTotals | json_tools/aw_extractor.py:110-125 | The sites' durations add up to those of the entries with a URL, and their visits to their number |
| Extractor.TotalSplits | json_tools/aw_extractor.py:101 | The total splits into the summary's durations and those of the entries without a URL |
| Extractor.SumDurationsPartition | json_tools/aw_extractor.py:101 | The summed durations split into those with and those without a URL |
| Extractor.SummaryFirstSeen | json_tools/aw_extractor.py:117-122 | Keys are in order of first appearance |
| Extractor.SummarizeUrls | json_tools/aw_extractor.py:110-125 | The loop computes the URL summary |
| Extractor.Items | json_tools/aw_extractor.py:131 | One item per URL |
| Extractor.LongerOrEqualPreorder | json_tools/aw_extractor.py:131-133 | Ordering by total duration, longest first, is a total preorder |
| Extractor.NewerOrEqualPreorder | json_tools/aw_extractor.py:94-98 | Ordering by timestamp text, newest first, is a total preorder |
| Extractor.LatestEntriesFacts | json_tools/aw_extractor.py:94-98 | The first 20 of the sorted entries (all when fewer), newest first, drawn from the input; no entry left out is newer than one shown |
| Extractor.ActivityLinesEntries | json_tools/aw_extractor.py:146-165 | Each recent-activity line is that of an entry with `data`, at its rank: the rendered time or raw timestamp, title cut to 60, URL cut to 80, duration |
| Extractor.ActivityLinesAscending | json_tools/aw_extractor.py:146-150 | At most one line per entry, with ranks going up |
| Extractor.ActivityLinesComplete | json_tools/aw_extractor.py:146-150 | Every entry with `data` has its line |
| Extractor.ItemsOfSummary | json_tools/aw_extractor.py:131 | The items are the summary's keys, each with its site |
| Extractor.TopSitesSorted | json_tools/aw_extractor.py:131-135 | The top sites are ordered, drawn from the items, and go before every item left out |
| Extractor.TopSitesRanked | json_tools/aw_extractor.py:131-135 | Ten sites, or all when fewer, each a key with its site, longest first |
| Extractor.TopSitesBeatRest | json_tools/aw_extractor.py:131-135 | No URL left out is longer than one shown |
| Extractor.TopSitesListed | json_tools/aw_extractor.py:131-140 | Ten lines or one per URL, ranked from 1, longest first. Each line has its first entry's title cut to 50, its summed durations and its visit count |
| Extractor.TopSitesOmitted | json_tools/aw_extractor.py:131-140 | No URL left out of the listing has more time than one listed |
| Extractor.ReportShape | json_tools/aw_extractor.py:89-165 | A report for a non-empty list. Its total is the summary's durations plus those of the entries without a URL, and it lists at most twenty recent entries |
| Extractor.AnalyzeData | json_tools/aw_extractor.py:86-165 | `analyze_data`: the summary loop, the sorts and slices, and the two listing loops |
| Extractor.ListSites | json_tools/aw_extractor.py:135-140 | The top-sites loop gives one line per site, ranked from 1 |
| Extractor.ListActivity | json_tools/aw_extractor.py:146-165 | The recent-activity loop computes the activity lines |
| Extractor.Run | json_tools/aw_extractor.py:176-197 | A report and a save to `output/activitywatch_last_7_days.json` exactly when some entry is recent; nothing otherwise |

## Left out

I/O and plumbing:
- Every `main`, `process_directory`, `get_json_files_in_directory`, the argparse handling and the exit codes: command-line plumbing. Only aw_deduper.py's configuration keys and aw_extractor.py's control flow are modelled (`Deduper.MainConfig`, `Extractor.Run`).
- File reading and writing: `load_aw_file`'s `open`/`json.load` (and its catch-all returning `[]`), `save_cleaned_data`, `load_activitywatch_data`, `save_filtered_data` (mkdir, dump, stat, and the swallowed exception), `load_json_data`. A loaded document is a parameter, and a saved one is a result value.
- `load_activitywatch_data`'s metadata: the model takes an `Option<Metadata>` (None for a file that did not load) and the events.
- All printing, verbose messages and warnings. aw_extractor.py's reports are modelled as line values, not text. aw_deduper.py's top-5 and daily printing in `main` is left out.
- `datetime.now()`: `extractedAt` is a parameter.

Foreign calls:
- `dateutil.parser.parse(...).date()` is the uninterpreted parameter `Lenient`. The model therefore does not capture dateutil's behaviour on times, time zones or fuzzy text.
- `datetime.fromisoformat` is the parameter `Merge.Clock`. Time zones and `timedelta` float-to-microsecond rounding are not modelled: the gap is computed over reals from the instants in microseconds.
- `strftime('%Y-%m-%d %H:%M:%S')` is the parameter `Extractor.Render`.
- `strptime` is modelled from its regular expressions for `%Y`, `%m` and `%d` only. Unicode digits other than ASCII ones, which `\d` also matches, are not handled.

Number formatting:
- Durations.FormatDuration: the `.1f`/`.2f` text is modelled as the unit, the scaled value and the decimals. `Durations.Digits` rounds half up; Python rounds the binary double half to even.
- Extractor.FormatDuration: the same abstraction as `Durations.FormatDuration`.
- Durations are `real`, not IEEE doubles. Integer and float durations are not distinguished, and a non-numeric duration is not modelled.

Python objects:
- Merge.MergeConsecutiveEvents: the shallow `copy()` in the merge shares the nested `data` of the input event. The title write therefore also changes the caller's event; the model returns new values and does not capture that aliasing.
- Deduper.LoadAwFile: `load_aw_file` mutates the loaded events in place. The model returns tagged copies, which is what the caller sees, but not the mutation of the loaded document.
- Bucket names: a `buckets` object (the datatype `Events.Named`) is a list of named buckets, and names are not required to be distinct. A JSON object loaded by `json.load` cannot hold a name twice (the last duplicate wins), so documents with repeated bucket names have no counterpart in a document `json.load` returns. No property stated here depends on distinct names.
- JSON values are typed: `data` is a string map, `duration` a number, `timestamp` a string. An event whose `data` is not a dict, or whose timestamp is not a string (a TypeError), is not modelled.

Configuration:
- Deduper.Update: the configuration keys are typed. Unknown keys, and `None` given for `exclude_apps`, are not modelled.
- `exclude_titles` is never read by the code, and `verbose` only controls printing, so neither has an effect in the model.
- The options `min_duration_seconds` and `max_gap_seconds` are integers, as their defaults and the command-line options are. A float value is not modelled.

Dates:
- Dates.DaysBefore: it requires a date of at least 8 January of year 1. Below that, `today - timedelta(days=7)` raises OverflowError, which the code does not catch.
- DateExtractor.Stem: the dot rule of `Path.stem` up to Python 3.13 is modelled. Python 3.14 also treats a trailing dot as starting a suffix.
- Paths are not normalised: a doubled or trailing slash is taken as it is.

Other stages:
- `ActivityWatchCleaner.filter_events`: each pass is a module-level method, taking the configuration as a parameter; the class method calls them.
- Extractor.TopSitesRanked, Extractor.LatestEntriesFacts: these state the order, the membership and that no left-out element beats a kept one. They do not state that ties keep input order, though the sort used is stable (`Sorting.SortOfChained`).
- Analyze.TopAppsOrder, Analyze.TopUrlsFacts: the same tie-order caveat as above.
