# EPG time adjuster — a Dafny model

The repository adjusts the programme times of an XMLTV electronic programme
guide (EPG). Every `<programme>` has `start` and `stop` attributes written
`YYYYMMDDHHMMSS +zone`. `XmlTimeAdjuster` shifts them by a per-channel
number of seconds (30 by default) and writes them back with zone `+0000`. It
counts the programmes and channels it visits. A processor runs the adjuster
for one channel and saves the result. Two tools support the runs:

- the command-line tool (`run.py`) finds a channel by id or name, suggests
  similar channels and counts channels by id prefix;
- the workflow generator (`scripts/generate_workflow.py`) reads the
  channel catalogue from the EPG, computes its statistics and writes the
  dropdown of a CI workflow. A shell step of that workflow reads the chosen
  channel id back out of the selected option.

The model has these modules:

| module | file | models |
|---|---|---|
| `Wrappers` | `wrappers.dfy` | `Option` |
| `Text` | `text.dfy` | `str(n)`, zero padding, `split(sep)[0]`, `in`, `startswith`, `lower`, `strip` and `<` on strings |
| `Selection` | `selection.dfy` | the shape of a loop that appends the image of every list item passing a test |
| `StableSort` | `stable_sort.dfy` | `list.sort` / `sorted` with `key` and `reverse`: a stable sort, proved to sort, to permute and to keep ties in order |
| `Calendar` | `calendar.dfy` | `datetime` arithmetic: proleptic Gregorian dates in years 1..9999 as second counts |
| `Timestamps` | `timestamps.dfy` | `parse_datetime`, `format_datetime`, `_adjust_time` |
| `XmlHandler` | `xml_handler.dfy` | the document (`ElementTree`, a class whose child list is reassigned) and `XmlTimeAdjuster` (a class with the source's fields) |
| `Processor` | `processor.dfy` | `ScheduleProcessor.process_single_channel` |
| `Catalog` | `catalog.dfy` | channels, the id-prefix rule and counting into an insertion-ordered dict |
| `ChannelSearch` | `channel_search.dfy` | `find_channel`, `suggest_channels` and the prefix loop of `show_stats` |
| `Workflow` | `workflow.dfy` | `extract_channels`, `generate_stats`, the option list of `generate_workflow_content` and the `cut` step that reads it |

The methods work step by step, as the source does. For example,
`AdjustTimes` walks the children and rewrites the visited programmes in
place, then updates the two counters. Each method is proved against a
specification function: `AdjustedNodes`, `VisitedCount`, `Tally` or
`Suggestions`. Lemmas then state what those functions promise.

Every file is verified together: `dafny verify *.dfy`, or with fixed
budgets, `dafny verify --resource-limit 2000000 --verification-time-limit 0
--warn-contradictory-assumptions *.dfy`.

## Model

| member | source | states |
|---|---|---|
| Text.BeforeFirst | src/xml_handler.py:32-35 | `split(' ')[0]`: a prefix of the text without the separator, followed by the separator unless it is the whole text |
| Text.BeforeFirstSep | scripts/generate_workflow.py:134 | splitting `a + sep + b` at the first separator gives `a` back when `a` has none |
| Text.PadDigits | src/xml_handler.py:47 | `%02d`/`%04d`: exactly `width` decimal digits |
| Text.PadDigitsValue | src/xml_handler.py:38 | reading a padded number back gives the number when it fits the width |
| Text.DigitsValuePad | src/xml_handler.py:38 | a digit string is the padded rendering of its own value |
| Text.Decimal | src/xml_handler.py:175 | `str(n)`: digits whose value is `n`, with no leading zero |
| Text.Lower | run.py:70 | `lower()`: same length, each character lowered |
| Text.ContainsOccurs | run.py:84 | `t in s` holds exactly when `t` occurs at some index of `s` |
| Text.Strip | scripts/generate_workflow.py:46 | `strip()`: empty exactly when all whitespace, otherwise begins and ends with a non-space |
| Text.StripSlice | scripts/generate_workflow.py:46 | what `strip()` leaves is the slice of its input between a leading and a trailing whitespace run |
| Text.StripExactly | scripts/generate_workflow.py:46 | conversely, any slice between two whitespace runs that is empty or has non-space ends is what `strip()` returns, so `strip()` is fully determined |
| Text.StrLessIrreflexive | scripts/generate_workflow.py:50 | no string sorts before itself |
| Text.StrLessTransitive | scripts/generate_workflow.py:50 | string order is transitive |
| StableSort.SortBy | run.py:124 | `sort(key=…)`: the result is a permutation of the input |
| StableSort.InsertSorted | run.py:124 | inserting into a sorted list keeps it sorted |
| StableSort.SortBySorted | run.py:124 | the result is ordered by the key |
| StableSort.WithKeyAppend | scripts/generate_workflow.py:50 | the elements with one key in a concatenation are those of each part, in order |
| StableSort.InsertWithKey | scripts/generate_workflow.py:50 | an insertion puts the new element after every earlier element with the same key |
| StableSort.SortByStable | scripts/generate_workflow.py:50 | stability: for every key, the elements with that key keep their input order |
| Calendar.DaysInMonth | src/xml_handler.py:38 | month lengths are 28 to 31 days |
| Calendar.DaysBeforeYearStep | src/xml_handler.py:63 | the closed-form day count of the years before `y` grows by the length of year `y` |
| Calendar.DaysBeforeYearMonotone | src/xml_handler.py:63 | later years start later, by at least the year in between |
| Calendar.MonthsFillYear | src/xml_handler.py:63 | the months fill the year exactly |
| Calendar.DayNumber | src/xml_handler.py:63 | every valid date has a day number below the count of days up to 9999-12-31 |
| Calendar.YearFrom | src/xml_handler.py:63 | a day count from the start of a year lands in one year, at a day inside it |
| Calendar.MonthFrom | src/xml_handler.py:63 | a day of a year lands in one month, at a day inside it |
| Calendar.CivilFromDayNumber | src/xml_handler.py:63 | every day number is the day number of a valid date |
| Calendar.DayNumberInjective | src/xml_handler.py:63 | distinct dates have distinct day numbers |
| Calendar.ToSeconds | src/xml_handler.py:63 | a valid date-time is a second count within years 1..9999 |
| Calendar.FromSeconds | src/xml_handler.py:63 | every second count in range is a valid date-time that converts back to it |
| Calendar.SecondsSplit | src/xml_handler.py:63 | a second count splits into whole days and a time of day that add back up to it |
| Calendar.ToSecondsInjective | src/xml_handler.py:63 | distinct date-times are distinct second counts |
| Calendar.FromToSeconds | src/xml_handler.py:63 | converting to seconds and back returns the date-time |
| Timestamps.ParseDateTime | src/xml_handler.py:25-41 | `parse_datetime` succeeds only with a valid date-time (years 1..9999, real month lengths, 24-hour clock) |
| Timestamps.FormatDateTime | src/xml_handler.py:43-47 | `format_datetime` writes 14 digits and then ` +0000` |
| Timestamps.FieldsOfFormat | src/xml_handler.py:43-47 | the 14 formatted digits decode to the date-time's fields |
| Timestamps.FormatOfFields | src/xml_handler.py:25-47 | formatting the date-time parsed from 14 digits gives those digits and ` +0000` |
| Timestamps.ParseFormat | src/xml_handler.py:25-47 | parsing a formatted date-time gives it back |
| Timestamps.ParseDateTimeExactly | src/xml_handler.py:25-41 | parsing yields `dt` exactly when `dt` is valid and renders to the text before the first space; any zone is discarded |
| Timestamps.AdjustTime | src/xml_handler.py:49-68 | `_adjust_time` is `None` for unparseable text. Otherwise it succeeds exactly when the shifted instant stays in years 1..9999. A result parses, names the original instant plus the offset, and carries zone `+0000` |
| Timestamps.CanonicalUnique | src/xml_handler.py:43-47 | two `+0000` timestamps naming the same instant are the same text |
| Timestamps.AdjustTimeCompose | src/xml_handler.py:49-68 | shifting by `a` and then by `b` is shifting once by `a + b` |
| Timestamps.AdjustTimeZero | src/xml_handler.py:49-68 | a zero shift keeps the digits and rewrites the zone as `+0000` |
| Timestamps.AdjustTimeInverse | src/xml_handler.py:49-68 | shifting back by `-offset` returns the original digits |
| Timestamps.ShiftSurvivesText | src/xml_handler.py:61-64 | the shifted date-time survives formatting and parsing |
| XmlHandler.EffectiveOffset | src/xml_handler.py:97-98 | a channel configured with an offset is shifted by that offset; any other channel by the default |
| XmlHandler.AdjustField | src/xml_handler.py:101-112 | one time attribute: the keys stay and other attributes are unchanged. A present, non-empty, adjustable value is replaced by its shift; any change is a successful shift |
| XmlHandler.AdjustNode | src/xml_handler.py:100-112 | a programme with `start` and `stop` rewritten keeps its tag, content, keys and every other attribute. Its new attributes are the `start` rewrite followed by the `stop` rewrite, and a comment is untouched |
| XmlHandler.AdjustAttribute | src/xml_handler.py:101-105 | the get/shift/set block for one attribute has the effect of `AdjustField` |
| XmlHandler.AdjustProgramme | src/xml_handler.py:100-112 | the `start` block then the `stop` block have the effect of `AdjustNode` |
| XmlHandler.AdjustedNodes | src/xml_handler.py:91-112 | the adjusted document has as many children as the original |
| XmlHandler.AdjustedNodesAt | src/xml_handler.py:91-112 | each child of the adjusted document is the adjustment of the child at the same place |
| XmlHandler.VisitedCount | src/xml_handler.py:114 | no more programmes are counted than there are children |
| XmlHandler.VisitedPrefix | src/xml_handler.py:114-115 | one more child visited grows the counter by one and the channel set by its channel, exactly when that child is visited |
| XmlHandler.MatchCount | src/processor.py:13 | `findall` finds no more programmes than there are children |
| XmlHandler.OffsetEntries | src/xml_handler.py:159-163 | the stored configuration has the same channels, each with its given offset |
| XmlHandler.ElementTree.constructor | src/xml_handler.py:168 | a parsed document holds the given children |
| XmlHandler.XmlTimeAdjuster.constructor | src/xml_handler.py:11-23 | the configuration is stored and the counters and errors start empty |
| XmlHandler.XmlTimeAdjuster.AdjustTimes | src/xml_handler.py:70-118 | `adjust_times` leaves the document as `AdjustedNodes`. The counters grow by the visited programmes and their channels and are never reset |
| XmlHandler.XmlTimeAdjuster.AdjustProgramTimes | src/xml_handler.py:120-144 | `adjust_program_times` rewrites that one element, changes no other child and counts one programme |
| XmlHandler.XmlTimeAdjuster.ProcessTree | src/xml_handler.py:146-187 | `process_xml` replaces the channel offsets only when the map is non-empty and always sets the default. It adjusts every programme and puts a comment with the time and the counter first |
| XmlHandler.XmlTimeAdjuster.GetProcessingStats | src/xml_handler.py:206-215 | the stats report the channel count, the programme counter, and the error list with its length |
| XmlHandler.VisitedCountMatches | src/xml_handler.py:84-94 | with a non-empty channel, the programmes counted are exactly those `findall` selects |
| XmlHandler.VisitedChannelsOne | src/xml_handler.py:84-115 | with a non-empty channel, only that channel is recorded, and only if it has programmes |
| XmlHandler.OnlySelectedChange | src/xml_handler.py:84-94 | programmes of other channels, and non-programmes, are left untouched |
| XmlHandler.EmptySelectionIsNoOp | src/xml_handler.py:84-94 | a channel without programmes leaves the document and the counters as they were |
| XmlHandler.MatchCountPositive | src/processor.py:13-15 | a document holding a programme of the channel makes `findall` non-empty |
| XmlHandler.MalformedTimeKept | src/xml_handler.py:101-105 | a malformed `start` (`"notadate"`) is kept byte for byte while its programme is still counted |
| Processor.OutputPath | src/processor.py:35 | the output path is the fixed prefix, the channel id, then the fixed suffix |
| Processor.OutputPathInjective | src/processor.py:35 | distinct channels are saved to distinct files |
| Processor.ChannelOffset | src/processor.py:20-21 | the offset reported for a channel is its configured offset when it has one, the default otherwise |
| Processor.ReportedOffsetApplied | src/processor.py:20-32 | the offset the processor reports is the one the adjuster applies to that channel's programmes |
| Processor.ScheduleProcessor.ProcessSingleChannel | src/processor.py:3-52 | `process_single_channel` has four outcomes. A read failure raises and counts an error. No programmes returns early with the stats unchanged. A write failure raises and counts an error. Otherwise the adjusted document is saved to `OutputPath`, the two counters are overwritten and one record is appended |
| Processor.RecordedCountIsAdjustedCount | src/processor.py:13-40 | for a non-empty id, the recorded count is the number of programmes the adjuster adjusts |
| Processor.EmptyIdAdjustsOtherChannels | src/processor.py:13-32 | the empty id, as written, adjusts every channel's programmes except the empty-channel ones that `findall` counted |
| Catalog.PrefixOf | run.py:146 | a prefix of the id: the part before the first `_`, else at most three characters |
| Catalog.Prefixes | run.py:145-146 | one prefix per channel, in list order |
| Catalog.Bump | run.py:147 | `d[k] = d.get(k, 0) + 1`: `k`'s count grows by one, no other count changes, and the total grows by one. Every key keeps its place, and a new key is added last with count 1 |
| Catalog.BumpShape | run.py:147 | bumping keeps keys unique and counts positive, and adds no entry for another key |
| Catalog.TallyShape | run.py:144-147 | the counted dict has each prefix once, each with a positive count |
| Catalog.TallyLookup | run.py:144-147 | each prefix's count is the number of channels with that prefix |
| Catalog.TallyKeepsOrder | run.py:144-147 | counting more channels never moves a prefix already in the dict, so the dict lists prefixes in the order they were first seen |
| Catalog.TallyTotal | run.py:144-147 | the counts add up to the number of channels |
| Catalog.LookupEntry | scripts/generate_workflow.py:241-242 | an entry of the dict holds what `get` returns for its key |
| ChannelSearch.FirstMatch | run.py:73-75 | one search loop returns the first channel passing its test, or nothing when none does |
| ChannelSearch.Resolve | run.py:72-92 | the earliest tier with a match wins, and the earliest channel within it |
| ChannelSearch.FindChannel | run.py:65-92 | `find_channel` returns nothing for an empty list. Otherwise it returns one of the channels, and nothing exactly when no lowercased id or name contains the term |
| ChannelSearch.ExactIdFirst | run.py:72-85 | example: for `RTP1`, a channel whose id merely contains it comes first in the list, yet the later channel whose id equals it is returned |
| ChannelSearch.Score | run.py:104-118 | an id that starts with the term scores at least 25, any other channel at most 23. The score is positive exactly when the id or name contains the term |
| ChannelSearch.ScoredEntries | run.py:103-121 | every collected pair is an input channel with its positive score |
| ChannelSearch.ScoredComplete | run.py:103-121 | every input channel with a positive score is collected, with that score |
| ChannelSearch.ScoredInOrder | run.py:103-121 | the collected pairs are exactly the positive-scoring channels with their scores, each once, in list order |
| ChannelSearch.Ranked | run.py:123-124 | the sorted pairs are a permutation of the collected ones, by non-increasing score |
| ChannelSearch.RankedStable | run.py:124 | channels with equal scores keep their list order |
| ChannelSearch.RankedEntries | run.py:121-124 | every ranked pair is an input channel with its positive score |
| ChannelSearch.RankedPrefixFirst | run.py:103-124 | an id-prefix match is never ranked after a channel without one |
| ChannelSearch.SliceEnd | run.py:125 | `[:limit]` keeps `limit` items when there are that many; a negative limit drops that many from the end |
| ChannelSearch.Suggestions | run.py:94-125 | `suggest_channels` returns as many channels as `[:limit]` keeps of the collected pairs, each an input channel with a positive score |
| ChannelSearch.SuggestionsPrefix | run.py:123-125 | the suggestions are, in order, the channels of the first ranked pairs, and never more than a non-negative `limit` |
| ChannelSearch.SuggestionsRanked | run.py:94-125 | suggestions come by non-increasing score, id-prefix matches first |
| ChannelSearch.SuggestionsTop | run.py:123-125 | a positive-scoring channel left out of the suggestions scores no higher than any suggestion |
| ChannelSearch.SuggestChannels | run.py:94-125 | the scoring loop, sort and slice return `Suggestions` |
| ChannelSearch.PrefixOutranks | run.py:107-118 | for `sic`, a channel `SIC` scores at least 25 and `RTPSicX` scores between 1 and 23 |
| ChannelSearch.CountPrefixes | run.py:144-147 | the prefix dict of `show_stats` counts each prefix once. It holds the number of channels with that prefix, and its counts add up to the channel total |
| Workflow.NameOf | scripts/generate_workflow.py:46 | the catalogue name is the id when the text is missing or empty. Otherwise it is the text between its leading and trailing whitespace runs: empty exactly when the text is whitespace only, else with non-space ends |
| Workflow.KeptChannelsFilter | scripts/generate_workflow.py:39-47 | the catalogue holds one entry per element with a non-empty id and a `display-name`, in document order, and nothing else |
| Workflow.StrLessStrictOrder | scripts/generate_workflow.py:50 | string `<` is a strict order, so the sort applies |
| Workflow.ExtractChannels | scripts/generate_workflow.py:32-57 | `extract_channels` keeps exactly the elements with an id and a `display-name`. They are sorted by lowercased name, and equal names stay in document order |
| Workflow.TopPrefixes | scripts/generate_workflow.py:241 | at most ten prefixes, and all of them when there are fewer |
| Workflow.TopPrefixesRanked | scripts/generate_workflow.py:241 | the top list is by non-increasing count and holds entries of the dict. No entry left out has a larger count than one kept |
| Workflow.TopPrefixesStable | scripts/generate_workflow.py:241 | among equal counts the top list keeps insertion order, skipping none ahead of a later one |
| Workflow.TopLeftOut | scripts/generate_workflow.py:241 | a leading slice of a list sorted by count outranks what it leaves out |
| Workflow.GenerateStats | scripts/generate_workflow.py:224-244 | `generate_stats` returns the channel total and a prefix dict that counts every channel. Its top ten each carry the dict's count |
| Workflow.ChannelOptions | scripts/generate_workflow.py:59-72 | the all-channels option first, then `<id> - <name>` per channel in catalogue order |
| Workflow.SelectedChannelRoundTrip | scripts/generate_workflow.py:133-135 | for an id without spaces, `cut -f1` gives the id back and `cut -f3-` gives the name |
| Workflow.AllChannelsDistinct | scripts/generate_workflow.py:128-135 | the all-channels option differs from every channel option whose id is another space-free word |

## Left out

- Files, the network and gzip are not modelled. `ET.parse`, `tree.write`, `create_compressed_output` and the EPG download are outside the model. `process_single_channel` takes the parse result as an `Option` and the write's success as a boolean.
- Logging and printing are not modelled, and neither are the command-line menus or the workflow's YAML text apart from the option lines.
- The clock is not modelled: `datetime.now()` in `process_xml` and `generate_stats` becomes a string parameter.
- `ParseDateTime`: it accepts exactly 14 ASCII digits before the first space. `strptime` also accepts shorter fields, such as a one-digit month, and any Unicode decimal digit (its `\d` is not restricted to ASCII, and `int()` reads such digits); those texts are treated as unparseable here.
- `FormatDateTime`: `%Y` is written with four digits. Some C libraries write years below 1000 without zero padding.
- Offsets are whole seconds. Python also accepts a float offset, and a channel entry whose `offset` is explicitly `None`. With `None`, `_adjust_time` fails and the attribute is kept, but here a `None` offset falls back to the default.
- `findall('.//programme')` searches at any depth. The model looks only at the children of the root element, where XMLTV puts the programmes.
- The XPath predicate `[@channel='c']` is modelled as string equality. An id containing `'` makes the path invalid in Python, and that case is not modelled.
- `AdjustProgramTimes`: the element is addressed as a child of a tree by index rather than as a free-standing element. The `except` branch that appends to `errors` cannot be reached, because `_adjust_time` catches its own exceptions; it is not modelled.
- `ProcessTree`: a failure to parse or write the file, which `process_xml` re-raises, is not modelled.
- `ScheduleProcessor` appears in the source only as `process_single_channel`. Its constructor and the `config`/`stats` layout are taken from that method's uses. The `offset` and `force_download` arguments passed by `run.py` are not part of that method's signature and are not modelled. `load_channel_offsets` is not part of this model.
- `Lower`: `lower()` is modelled on ASCII letters only; other Unicode case mappings are not modelled.
- `Score`: its ensures gives bounds (at least 25 for an id-prefix match, at most 23 otherwise, positive iff contained) rather than every exact sum; the weights themselves are the function's body.
- `Suggestions`: its own ensures gives the length and that each suggestion is a positive-scoring input channel. The order and the cut-off are in `SuggestionsPrefix`, `SuggestionsRanked` and `SuggestionsTop`.
- `SelectedChannelRoundTrip`: the round trip is proved on the option value. Its quoting inside the workflow's YAML and the shell's `echo "$SELECTED"` are not modelled, so a name holding `"`, `\` or `$` is not covered.
- `TopPrefixes`: its own ensures gives only the length. The ordering, membership and tie order are in `TopPrefixesRanked` and `TopPrefixesStable`.
- `AdjustedNodes`: its own ensures gives only the length. The element-by-element content is in `AdjustedNodesAt`.
