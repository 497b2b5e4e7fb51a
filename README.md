# engineering-to-tt in Dafny

A verified model of the core of `engineering_to_tt.py`. That program turns
the events of the Engineering department's iCalendar feed into a timetable
document. The document is a list of modules (one per part and paper), each
holding series (one per lecture course), each holding one entry per event.

The model follows a record through the program:

- **Summary pattern** (`Summary`). Each record's SUMMARY is split by the
  pattern `^(\d)([A-Z0-9]+)/(.+)\[(\d+)\]([A-Z+]) (.*)\((.*)\)$`. The model
  applies it as Python's `re.match` does: greedy groups with backtracking,
  `.` never matching a newline, and `$` also matching before one final
  newline.
- **Event construction** (`Events.FromIcalEvent`). The groups become an
  event. A missing SUMMARY, DTSTART, DTEND or UID fails, and so does a
  summary that does not match; these are checked in the code's order.
- **Substitutions** (`Substitution`, `Events.WithSubstitutions`). The part,
  paper and event type are replaced by display names. Each lookup is done
  in the scope of the event's original part, with `"__all__"` as the one
  fallback.
- **Exclusions** (`Exclusion`). A rule drops an event when each of the
  rule's keys names an attribute equal to the rule's value.
- **Sorting** (`Sorting`). The kept events are sorted stably by
  `(part, paper, name, start)`, compared as Python compares tuples of
  strings and times.
- **Grouping and tree building** (`Grouping`, `Timetable`). The sorted
  events are grouped into consecutive runs (`itertools.groupby`) by part,
  then paper, then series name, and the module/series/entry tree is built.
- **The whole run** (`Pipeline.Run`). The generator in `main` and
  `build_timetable_xml`, composed.

Every layer is proved against what the program promises:

- **Summary.** Rendering conforming groups and parsing the text gives the
  groups back (`Summary.RoundTrip`).
- **Sort.** The sort yields a sorted permutation that keeps the input order
  of equal keys.
- **Tree contents.** Reading the tree's entries in document order, each
  with the part, paper and series above it, gives exactly the sorted events.
- **Tree shape.** No two modules share a (part, paper) pair. No two series
  of one module share a name. Every series identifier is the digest of
  `tripos + part + paper + series`.

Some consequences of the code are easy to miss; the model follows the code
in each:

- **Staff name.** The staff group is everything before the last `(`, so
  `"1CW/Example Lecture[3]L Dr Smith (LR1)"` yields the staff name
  `"Dr Smith "`, trailing space included (`Summary.ExampleSummary`). The
  location never holds a `(`, however many the summary has
  (`Summary.StaffEndsAtLastParen`).
- **Event type.** The pattern takes exactly one type character from
  `[A-Z+]`, not one or more.
- **Round-trip condition.** The summary round trip needs the staff name to
  be free of `[` as well as the location to be free of `(`. A staff name
  such as `"[5]L x"` moves the end of the series name, because greedy `(.+)`
  settles on the later bracket (`Summary.StaffBracketMovesNameEnd`). A `[`
  inside the series name itself is harmless.
- **Input order.** Events that tie on the whole sort key
  `(part, paper, name, start)` keep their input order, because the sort is
  stable. So two same-day occurrences that differ only in UID give a
  different document when swapped (`Timetable.TieOrderChangesTimetable`).
  When no two events tie, any reordering of the input gives the same result
  (`Timetable.TimetableIgnoresOrder`). More generally, the result depends
  only on the order within ties (`Timetable.TimetableDeterminedByTies`).
- **Keyless rules.** An exclusion rule that yields no keys when iterated
  excludes every event, because `all` over nothing is true. That holds for
  `{}`, and equally for `[]` and `""` (`Exclusion.EmptyRuleExcludesAll`).
- **Missing UID.** A record without a UID fails with `KeyError` after the
  DTEND check (`NoUid`).
- **Identifier collisions.** The series identifier hashes the four strings
  joined with nothing between them. So a part and paper that split one
  string differently share an identifier
  (`Timetable.ExternalIdBoundaryCollision`).

Inputs from outside the program are values or parameters:

- **Decoded records.** Each decoded calendar record is an `IcalEvent` whose
  four properties are optional.
- **Times.** A time, already converted to Europe/London, is a
  `Timestamp(date, time)` of day number and second of the day.
- **JSON.** A decoded JSON document is a `Json` value.
- **Digest.** The seeded MD5 digest is the parameter
  `digest: string -> string`.

## Model

| member | source | states |
|---|---|---|
| Text.StrLeTotal | engineering_to_tt.py:295-297 | Python's string order on the sort key's strings is total: of any two strings, one is at or below the other |
| Text.StrLeTransitive | engineering_to_tt.py:295-297 | the string order is transitive |
| Text.StrLeAntisymmetric | engineering_to_tt.py:295-297 | two strings each at or below the other are equal |
| Text.StrLtTransitive | engineering_to_tt.py:295-297 | strict string order is transitive |
| Summary.MatchSummary | engineering_to_tt.py:231-232 | a match's groups satisfy their sub-patterns and render back to the summary (less one final newline); the location holds no `(` |
| Summary.FindNameEnd | engineering_to_tt.py:231-232 | the name ends at the largest position holding a `[` after which the rest of the pattern matches; none qualifies when it fails |
| Summary.SplitTail | engineering_to_tt.py:231-232 | a match of `\[(\d+)\]([A-Z+]) (.*)\((.*)\)` gives a non-empty digit week and a single type character that render back to the text |
| Summary.SplitStaffLocation | engineering_to_tt.py:232 | `(.*)\((.*)\)` splits text ending in `)` at its last `(`, so the location holds no `(`; it fails exactly when the text does not end in `)` or has no `(` before it |
| Summary.LastOpenParenAppend | engineering_to_tt.py:232 | text holding no `(` appended after a `(` leaves the last `(` where it was |
| Summary.StaffEndsAtLastParen | engineering_to_tt.py:231-232 | with two `(` in the tail, `"1CW/a[1]L x(y(z)"` gives staff `"x(y"` and location `"z"` |
| Summary.LastOpenParen | engineering_to_tt.py:231-232 | greedy `(.*)\(` stops at the last `(`: the index holds `(` and none follows it; no index exactly when there is no `(` |
| Summary.MatchComplete | engineering_to_tt.py:231-232 | every way of reading a summary as conforming groups is accepted, and the chosen series name is at least as long as any admissible one (greedy) |
| Summary.RoundTrip | engineering_to_tt.py:231-232 | conforming groups with no `[` in the staff name and no `(` in the location parse back from their rendering unchanged |
| Summary.StaffBracketMovesNameEnd | engineering_to_tt.py:231-232 | without that side condition the round trip fails: a staff name `"[5]L x"` is read into the series name |
| Summary.TrailingNewlineIgnored | engineering_to_tt.py:231-232 | one final newline after a summary leaves the match unchanged |
| Summary.ExampleSummary | engineering_to_tt.py:231-232 | `"1CW/Example Lecture[3]L Dr Smith (LR1)"` gives part 1, paper CW, name "Example Lecture", week 3, type L, staff "Dr Smith " and location LR1 |
| Substitution.Entry | engineering_to_tt.py:122-125 | a substitution is found exactly when the section, the value type and the value are all present, and it is the string stored there |
| Substitution.Lookup | engineering_to_tt.py:121-129 | the section's own entry, else the `"__all__"` entry (retried once, and only from another section), else the value unchanged; the null substitutor returns the value |
| Substitution.ScopeTakesPrecedence | engineering_to_tt.py:121-125 | a section's own entry wins over a different `"__all__"` entry |
| Substitution.FromJson | engineering_to_tt.py:117-151 | a non-object document and one without `"substitutions"` are refused; a section that is not an object fails as the constructor's `get` does; otherwise the section becomes the table |
| Substitution.ExampleLookups | engineering_to_tt.py:121-129 | with `{"__all__": {"parts": {"1": "IA"}}}`, part 1 shows as IA and paper CW is unchanged |
| Events.FromIcalEvent | engineering_to_tt.py:264-292 | failures come in order (no SUMMARY, no match, no DTSTART, no DTEND, no UID); a success carries groups 1, 2, 3, 5, 6, 7, both times and the UID verbatim |
| Events.ParseRendered | engineering_to_tt.py:280-292 | a complete record whose summary is rendered from conforming groups, with no `[` in the staff name and no `(` in the location, parses to exactly those fields, less the week |
| Events.WithSubstitutions | engineering_to_tt.py:249-261 | part, paper and event type are looked up in the original part's scope; name, staff, location, times and UID are unchanged |
| Events.NullSubstitutionKeepsEvent | engineering_to_tt.py:196-201 | the null substitutor leaves every event unchanged |
| Events.PaperScopeIsOriginalPart | engineering_to_tt.py:249-255 | when part 1 is shown as IA, its paper is still looked up in part 1's table |
| Exclusion.Attr | engineering_to_tt.py:161-163 | `getattr(event, key, None)`: each of `part`, `paper`, `name`, `event_type`, `staff_name`, `location` and `uid` gives that field's string; the times and methods give a non-JSON object; any other key gives None |
| Exclusion.RuleAddKey | engineering_to_tt.py:160-163 | a rule with one more key matches exactly when the smaller rule matches and the event's attribute equals the new key's value |
| Exclusion.PartRuleMatches | engineering_to_tt.py:160-163 | a rule `{"part": p}` matches exactly the events whose part is `p` |
| Exclusion.IsExcluded | engineering_to_tt.py:158-165 | true exactly when some rule matches the event on every one of its keys |
| Exclusion.FromJson | engineering_to_tt.py:177-185 | a non-object document and one without `"exclusions"` are refused; otherwise the section is kept as it is |
| Exclusion.EmptyRuleExcludesAll | engineering_to_tt.py:158-165 | a rule that yields no keys (`{}`, `[]` or `""`) excludes every event |
| Exclusion.NothingExcludedWithoutRules | engineering_to_tt.py:188-193 | the null excludor, and an empty rule list, exclude nothing |
| Exclusion.AppendRuleMonotone | engineering_to_tt.py:158-165 | adding a rule never readmits an excluded event |
| Exclusion.UnknownKeyMatchesOnlyNull | engineering_to_tt.py:161-163 | a key naming no attribute matches only a JSON null |
| Exclusion.TimeKeysNeverMatch | engineering_to_tt.py:161-163 | a rule on `start` or `end` never matches |
| Exclusion.ExampleExclusion | engineering_to_tt.py:177-185 | `{"exclusions": [{"event_type": "L"}]}` is accepted and drops an event of type L |
| Sorting.KeyLtIrreflexive | engineering_to_tt.py:295-297 | no sort key is below itself |
| Sorting.KeyLtTransitive | engineering_to_tt.py:295-297 | tuple order on `(part, paper, name, start)` is transitive |
| Sorting.KeyTrichotomy | engineering_to_tt.py:295-297 | any two sort keys are ordered one way or the other, or equal |
| Sorting.Insert | engineering_to_tt.py:302 | inserting adds exactly the one event |
| Sorting.SortEvents | engineering_to_tt.py:302 | the sorted events are a permutation of the input |
| Sorting.SortEventsSorted | engineering_to_tt.py:302 | no event precedes one with a smaller key |
| Sorting.SortEventsStable | engineering_to_tt.py:302 | for every key, the events carrying it keep their input order |
| Sorting.SortSortedIsIdentity | engineering_to_tt.py:302 | sorted input comes back unchanged |
| Sorting.SortedUnique | engineering_to_tt.py:302 | two sorted sequences with the same events in the same order within each key are equal |
| Sorting.SortDeterminedByTies | engineering_to_tt.py:302 | inputs whose events are in the same order within each key sort to the same sequence |
| Sorting.PermutationWithKey | engineering_to_tt.py:302 | when no two events share a key, a permutation has the same event under each key |
| Sorting.SortIgnoresOrder | engineering_to_tt.py:302 | when no two events share a key, every permutation of the input sorts to the same sequence |
| Sorting.SortedContiguous | engineering_to_tt.py:302-308 | in sorted order equal parts are contiguous, and within them equal papers, and within those equal names |
| Grouping.GroupBy | engineering_to_tt.py:308 | the runs concatenate to the input, none is empty, each member carries its run's key, and neighbouring runs have different keys |
| Grouping.GroupKeysDistinct | engineering_to_tt.py:308 | when equal keys are contiguous, no key heads two runs |
| Grouping.ContiguousInGroups | engineering_to_tt.py:308 | contiguity of a finer key over the whole carries over to each run |
| Grouping.GroupByUniform | engineering_to_tt.py:335 | elements all sharing one key form a single run |
| Timetable.ExternalIdOfConcatenation | engineering_to_tt.py:375-381 | the identifier depends only on `tripos + part + paper + series` |
| Timetable.ExternalIdBoundaryCollision | engineering_to_tt.py:375-381 | part IA with paper 1P1 and part IA1 with paper P1 share a series identifier |
| Timetable.BuildEvent | engineering_to_tt.py:357-372 | an entry carries the event's UID, name, location, staff name and type, its start day and time, and, for a same-day event, its end |
| Timetable.EntryRecoversEvent | engineering_to_tt.py:357-372 | the entry and the part and paper above it give back the event exactly when it starts and ends on one day |
| Timetable.SeriesListLabels | engineering_to_tt.py:344-354 | each series holds the entries of its run's events, in order, under the run's name |
| Timetable.PaperLabels | engineering_to_tt.py:328-341 | a paper's module holds the entries of its events, in order, each under the module's part and paper and its own name |
| Timetable.PartLabels | engineering_to_tt.py:318-325 | a part's modules hold the entries of its events, in order |
| Timetable.PartsLabels | engineering_to_tt.py:308-314 | the modules of consecutive part runs hold the entries of all their events, in order |
| Timetable.FirstSpanningDays | engineering_to_tt.py:364-365 | the first event, in order, that ends on another day than it starts; none exactly when all start and end on one day |
| Timetable.BuildTimetable | engineering_to_tt.py:300-315 | empty input fails; otherwise it succeeds exactly when every event starts and ends on one day, and a failure names an offending input event |
| Timetable.SpanningEventIsFirst | engineering_to_tt.py:300-315 | a failure names the first event, in sorted order, that ends on another day than it starts |
| Timetable.BuildTimetableOk | engineering_to_tt.py:300-315 | a non-empty same-day input gives the modules built from its sorted order |
| Timetable.BuildModulesLabels | engineering_to_tt.py:308-354 | the tree's entries in document order, with their part, paper and series, are exactly the events given, in order |
| Timetable.EntriesUnderOwnName | engineering_to_tt.py:335-360 | every entry sits under the series named after it |
| Timetable.PaperWellFormed | engineering_to_tt.py:328-354 | a paper's module has at least one series, each non-empty, distinctly named and identified by its path and name |
| Timetable.PartWellFormed | engineering_to_tt.py:318-341 | a part's modules are well formed, carry that part and have distinct papers |
| Timetable.PartsWellFormed | engineering_to_tt.py:308-314 | the modules of distinct part runs are well formed together |
| Timetable.SortedKeysContiguous | engineering_to_tt.py:302-308 | after sorting, part, (part, paper) and (part, paper, name) are each contiguous |
| Timetable.TimetableWellFormed | engineering_to_tt.py:300-354 | a built timetable has modules of the given tripos with distinct (part, paper) pairs, and each module's series are non-empty, distinctly named and identified by `external_id` |
| Timetable.TimetableContents | engineering_to_tt.py:300-354 | a built timetable's entries in document order, with part, paper and series, are the input stably sorted by `(part, paper, name, start)` |
| Timetable.TimetableDeterminedByTies | engineering_to_tt.py:300-315 | inputs whose events are in the same order within each sort key give the same result |
| Timetable.TimetableIgnoresOrder | engineering_to_tt.py:300-315 | when no two events share `(part, paper, name, start)`, every reordering of the input gives the same result |
| Timetable.TieOrderChangesTimetable | engineering_to_tt.py:300-315 | two different same-day events sharing the whole sort key build successfully in both orders, and the two documents differ |
| Timetable.EntriesFromInput | engineering_to_tt.py:300-354 | every entry of a built timetable is the entry of an input event |
| Timetable.SortedSameDay | engineering_to_tt.py:302-304 | sorting keeps the events all starting and ending on one day |
| Timetable.OneSeries | engineering_to_tt.py:308-354 | events sharing part, paper and name make one module with one series holding all of them in order |
| Timetable.SameSeriesInStartOrder | engineering_to_tt.py:300-354 | two events of one series arriving out of order end up in one series, earlier start first |
| Pipeline.ParseEvent | engineering_to_tt.py:217-219 | a record parses exactly when `from_ical_event` succeeds, with its error otherwise; the event has the summary's groups with part, paper and type looked up in the original part's scope, and the record's times and UID |
| Pipeline.Collect | engineering_to_tt.py:209-214 | parsing every record succeeds exactly when each record parses, gives each record's event in order, and otherwise fails with the first failing record's error |
| Pipeline.FailurePersists | engineering_to_tt.py:401-406 | a failure at one record, after good records, is the result for every longer prefix |
| Pipeline.KeptMembers | engineering_to_tt.py:405 | an event is kept exactly when it was parsed and no rule excludes it |
| Pipeline.RunWith | engineering_to_tt.py:401-408 | the loop returns the first parse failure, else the timetable built from the parsed events no rule excludes, in their order |
| Pipeline.Run | engineering_to_tt.py:401-408 | the program's run, with each record parsed and substituted as `parse_engineering_event` does |
| Pipeline.OutcomeOk | engineering_to_tt.py:401-408 | for any record parser, a successful run is the timetable of the kept events of a successful parse |
| Pipeline.KeptEntries | engineering_to_tt.py:405-408 | every entry built from the kept events comes from an event no rule excludes |
| Pipeline.NoExcludedEntry | engineering_to_tt.py:401-408 | for any record parser (the program's is `Parser(sub)`), every entry of a produced timetable comes from a parsed event no rule excludes, under that event's part, paper and name |
| Pipeline.ExclusionSeesDisplayNames | engineering_to_tt.py:217-219 | exclusion rules see substituted names: with part 1 shown as IA, a rule on part IA drops the event and a rule on part 1 keeps it |

## Left out

- Reading files and decoding iCalendar (`from_ical`, `parse_engineering_ical_file`, `from_json_file`) are I/O and library calls. The model takes the decoded records of all files, concatenated in file order, and decoded JSON values.
- `json.load` and its `ValueError`: the model starts from a decoded `Json` value, whose numbers are integers only.
- pytz conversion to Europe/London and the time-zone assertions in the event constructor: times arrive already converted, as a day number and a second of the day.
- Sorting.TimeLt: compares (day, second of day) in local time. Python compares the underlying instants, which differ only for the repeated hour when clocks go back.
- The MD5 digest and its seed are the parameter `digest`. Nothing about the hash itself is proved.
- lxml element construction, serialisation and `strftime`: the tree is a datatype with the same child order, and dates and times stay numbers.
- `main`, docopt option handling and writing to stdout. The tripos name is a parameter; the default "engineering" is applied by `main`.
- Packaging metadata in setup.py.
- Summary.MatchSummary: `\d` is read as ASCII `0-9`. Python's `\d` also accepts other Unicode decimal digits.
- Substitution.Lookup: a table level that is not a JSON object, or an entry that is not a string, is read as no entry. Python would test membership in a list or string, or return the non-string value.
- Exclusion.IsExcluded: an exclusions value that is not a JSON array is read as having no rules. Python iterates a dict's keys or a string's characters as the rules. So an exclusions object with the key `""` excludes every event in Python and none in the model, unless Python first reaches a non-empty key, which raises `TypeError`.
- Exclusion.RuleMatches: a keyless rule (`{}`, `[]`, `""`) matches as in Python. A non-empty array or string rule, a number, a boolean or null raises `TypeError` in Python; the model reads it as not matching and keeps going.
- Exclusion.Attr: dunder attributes such as `__dict__` that `getattr` would find are read as absent.
- Timetable.BuildTimetable: the same-day check of `build_event_xml` aborts the whole document either way, so the model checks it once, over the sorted events, before building.
- The interleaving of parsing, exclusion and sorting in `main`'s lazy generator is not modelled. Exclusion is pure, so the result is the same as parsing every record first; with several failing records, the first in file order decides.
