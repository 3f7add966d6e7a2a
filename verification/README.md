# SLussen record pipeline in Dafny

SLussen is a small Streamlit app. It shows the bus departures from Slussen in
Stockholm and the service disruptions that affect them. This project models
its pure record-processing pipeline in `slussen.py` and proves properties of
that model. The pipeline turns the JSON records of the operator's two APIs
into normalised departures and disruption messages. It merges the results of
the two monitored sites, sorts departures by expected time, orders the bus
lines the sidebar offers, and filters the departure table by the selected
lines.

Modules, one per file:

- `Wrappers`: the `Option` type.
- `Seqs`: the sequence combinators the pipeline is made of, each with its
  specification.
  - `FilterMap` is a filter with a projection. Its index-witness
    characterisation is `IsFilterMapping`, proved in both directions.
  - `FlatMap` is a concatenation of per-item results.
  - `Distinct` keeps the first occurrence of each element.
  - `SortBy` is a stable insertion sort under a total preorder. Sortedness,
    permutation and stability are proved about it.
- `Config`: the constants, i.e. sites, allow-listed lines, the two stop-label
  sets and the priority threshold.
- `ExpectedTime`: `parse_expected_time`.
- `Departures`: `parse_departure_data` and `get_stop_point`.
- `Deviations`: `parse_deviation_data`, `should_include_deviation` and
  `calculate_priority_score`.
- `BusLines`: `get_bus_sort_key`, `get_sorted_bus_lines` and
  `filter_departures_by_selected_lines`.
- `DepartureOrder`: the sort of departures by expected time. It holds both
  the order the comment above the sort intends and the sort as written.
- `Fetch`: the pure part of `fetch_departure_data` and `fetch_deviation_data`.
  That is the per-site results, concatenated in site order, with a failed site
  contributing nothing.

Raw JSON records are datatypes whose keys are `Option` fields. `None` is a
missing key. What a missing key does depends on how the source reads it.
Keys read with `[]` raise KeyError. A departure record missing `line`,
`line.designation`, `destination` or `display` is then skipped. A qualifying
message missing `header` or `details` drops itself and every later variant of
the same deviation. Keys read with `.get` take their default instead, and nothing
is raised. These are `departures`, `expected`, `stop_point` and its
`designation`, `priority` and its three levels, `message_variants` and
`language`.

`datetime.fromisoformat`, together with the step that tags a naive time as
UTC, is the function parameter `fromIso: string -> Option<Instant>`. An
`Instant` is an integer, since only the order of instants matters. The outcome
of each site's HTTP request is a parameter too: `Received(body)` or `Failed`.

## Model

| member | source | states |
|---|---|---|
| Config.SpecialLinesAreMonitoredAndDisjoint | slussen.py:14-53 | Every Glasbruksgatan and Slussbrogatan line is allow-listed, and no line is in both special sets. |
| ExpectedTime.ReplaceZSpec | slussen.py:256 | After the replace no 'Z' is left, each 'Z' adds five characters, and a string without 'Z' is unchanged. |
| ExpectedTime.ReplaceZAppend | slussen.py:256 | The replace works character by character, so it distributes over concatenation. |
| ExpectedTime.ParseExpectedTime | slussen.py:249-262 | An absent or empty expected time gives no time. A non-empty string without 'Z' is handed to the ISO parser unchanged. |
| ExpectedTime.ZuluIsUtc | slussen.py:256-257 | A timestamp ending in "Z" and the same timestamp ending in "+00:00" parse to the same instant, or both fail. |
| Departures.StopPoint | slussen.py:176-185 | Glasbruksgatan lines show exactly "Glasbruksgatan". Slussbrogatan lines show the raw label ("" if absent) plus " (Slussbrogatan)". Any other line shows the raw label unchanged. |
| Departures.NormalizeDeparture | slussen.py:154-167 | A record yields a departure exactly when its line designation is present and allow-listed and it has a destination and a display text. The departure carries those fields, the derived stop point and the parsed time. |
| Departures.ParseDepartures | slussen.py:145-172 | A payload that is not an object, or has no departures array, gives nothing. The output is no longer than the input, and every output line is allow-listed. |
| Departures.ParseDeparturesExact | slussen.py:149-172 | The output is exactly the accepted records, normalised, at increasing input positions, with every accepted record present. Any sequence with that description equals it. |
| Departures.SkippedRecordIsolated | slussen.py:153-171 | A rejected record splits the output into the outputs of the records before and after it: the others are kept, in order. |
| Departures.UnmonitoredLineDropped | slussen.py:155-156 | A record whose line is not allow-listed yields nothing, whatever its other fields are. |
| Deviations.PriorityScore | slussen.py:266-273 | The score is the product of the three levels, or 0 when any level is missing. |
| Deviations.ShouldInclude | slussen.py:238-245 | A message is included exactly when the deviation has a priority object with all three levels present, their product is above 35, and the language is exactly "sv". A missing object or level scores 0, so it always excludes. |
| Deviations.MissingLevelExcludes | slussen.py:244-245 | A deviation that lacks its priority object or any level scores 0 and none of its messages are included. |
| Deviations.IncludedHasFullPriority | slussen.py:244-273 | An included message belongs to a deviation whose priority object and all three levels are present, and whose product is above 35. |
| Deviations.ThresholdExamples | slussen.py:58 | A score of 36 in Swedish is kept. 36 in English, 35 and 24 are dropped. |
| Deviations.VariantMessages | slussen.py:225-231 | Every disruption comes from a qualifying variant with that header and those details, and there are no more disruptions than variants. |
| Deviations.AbortDropsRest | slussen.py:224-231 | A qualifying variant that lacks its header or details drops itself and every later variant of the same deviation, and keeps the earlier ones. |
| Deviations.NoAbortIsFilter | slussen.py:225-229 | Without such a variant, the output is the qualifying variants' header and details, in order. |
| Deviations.DeviationMessages | slussen.py:225 | A deviation without message variants contributes nothing. Every disruption comes from one of its qualifying variants. |
| Deviations.ParseDeviations | slussen.py:215-234 | A payload that is not an array gives nothing. Every disruption comes from one of the deviations. |
| Deviations.DeviationsIndependent | slussen.py:223-233 | Each deviation is handled on its own: the output for two lists is the concatenation of their outputs. |
| BusLines.Digits | slussen.py:316 | The digit characters of a line: all digits, empty exactly when the line has none. |
| BusLines.BusSortKey | slussen.py:312-317 | The key is infinity exactly when the line has no digit. |
| BusLines.NonDigitIgnored | slussen.py:316 | A letter anywhere in the line does not change its key. |
| BusLines.DigitAppended | slussen.py:316-317 | Digits are read left to right as one decimal number. |
| BusLines.SortKeyExamples | slussen.py:312-317 | "409" has key 409, "428X" has 428 and "71T" has 71. |
| BusLines.NoDigitsLast | slussen.py:317 | A line without digits sorts after every line with a digit. |
| BusLines.SortedBusLines | slussen.py:300-308 | Each line that occurs in the departures appears exactly once, no other line appears, and the list is in non-decreasing key order. |
| BusLines.FilterBySelection | slussen.py:321-337 | Every row's line is selected. An empty selection gives no rows, and a selection covering every line keeps every departure. |
| BusLines.FilterBySelectionExact | slussen.py:328-337 | The rows are exactly the projections of the selected departures, in input order, and nothing else meets that description. |
| BusLines.AllLinesShowsAll | slussen.py:379-402 | Selecting every line the sidebar offers shows every departure's row, in order. |
| DepartureOrder.SortDepartures | slussen.py:139-140 | The result is a permutation of the input in non-decreasing time order, with untimed departures after every timed one. |
| DepartureOrder.SortDeparturesStable | slussen.py:140 | Departures due at the same instant, and the untimed ones, keep their input order. |
| DepartureOrder.SortExample | slussen.py:139-140 | Three departures (409 late, 410 early, 420 untimed) come out as 410, 409, 420. |
| DepartureOrder.LessAsWritten | slussen.py:140 | Comparing two keys raises exactly when one time is present and the other is absent. |
| DepartureOrder.InsertAsWritten | slussen.py:140 | One insertion step of the sort as written, asking only `<`. When no comparison raises, the result holds the inserted departure and the others. |
| DepartureOrder.SortAsWritten | slussen.py:140 | The sort as written, with `None` where a comparison raises. When it succeeds, the result is a permutation of the input. MixedRaises and UniformAgrees say exactly when it succeeds and what it returns. |
| DepartureOrder.MixedTimesRaise | slussen.py:140 | As written, sorting a timed and an untimed departure raises in either order, where the intended sort puts the timed one first. |
| DepartureOrder.MixedRaises | slussen.py:140 | As written, any list that mixes timed and untimed departures raises. |
| DepartureOrder.UniformAgrees | slussen.py:140 | When all times are present, or all are absent, the sort as written succeeds and equals the intended sort. |
| Fetch.SiteDepartures | slussen.py:124-131 | fetch_and_parse for departures: a failed site contributes nothing, and every departure a site contributes is on an allow-listed line. |
| Fetch.SiteDeviations | slussen.py:196-203 | fetch_and_parse for deviations: a failed site contributes nothing, and every disruption comes from one of the site's deviations. |
| Fetch.FetchDepartures | slussen.py:118-141 | The result is a permutation of the sites' departures, concatenated, sorted by time. Every line is allow-listed, and all sites failing gives nothing. |
| Fetch.FailedSiteIgnored | slussen.py:124-137 | A failed site changes nothing: the result equals that of the other sites alone. |
| Fetch.OneSiteDown | slussen.py:124-141 | With one site down, in either position, the result is the live site's departures, sorted. |
| Fetch.FetchDeviations | slussen.py:190-211 | Every disruption comes from a site that answered, and all sites failing gives nothing. |
| Fetch.DeviationsInSiteOrder | slussen.py:205-211 | Results are concatenated in site order: two live sites give the output for their deviations in sequence. |

## Left out

- HTTP plumbing (`get_http_session`, `fetch_json`, the retry policy) is not modelled. It is network I/O. Each site's outcome is the parameter `Received(body)` or `Failed`.
- The thread pool and the `st.cache_data` TTL cache are not modelled. The result is the same as running the sites one after another in site order.
- The Streamlit UI (`configure_page`, `display_deviations`, `validate_departure_data`, `main`, toasts and error boxes) is presentation only. A toast is modelled as a silent skip.
- `datetime.fromisoformat` and the naive-to-UTC step are library code. They are the parameter `fromIso`. `datetime.now()` is wall-clock state and is left out.
- JSON values of the wrong type (a `null` where a string, object or array is expected, a string where a number is expected) are not modelled; only missing keys are. Depending on the field, Python passes the `None` through into the output (`destination`, `display`, `header`, `details`), skips the record, drops the rest of the deviation (`priority: null`), or drops the whole site (`departures: null`, which raises outside the per-record `try`).
- Departures.ParseDepartures: its own contract gives bounds and the allow-list only. The full characterisation is Departures.ParseDeparturesExact.
- BusLines.Digits: only the ASCII digits '0' to '9' count as digits. Python's `str.isdigit` also accepts other Unicode digits, on which `int()` may raise.
- BusLines.SortedBusLines: lines with equal keys keep their first-occurrence order. The code leaves that order to Python's set iteration, which is unspecified. The source makes no promise about the order of lines with equal keys, so the contract leaves it open.
- Fetch.FetchDepartures: the order is the intended one (`DepartureOrder.SortDepartures`), not the sort as written, which raises on mixed lists (see Findings).

## Findings

| source | as written | input that shows it | evidently intended | confidence | as-written member | corrected member |
|---|---|---|---|---|---|---|
| slussen.py:140 | The sort key `x["expected"] or datetime.max` compares the naive `datetime.max` with UTC-aware parsed times, which Python refuses with TypeError. | Two departures, one with an expected time and one without: sorting them compares an aware and a naive datetime and raises. | Ascending by expected time with untimed departures last, as the comment on line 139 says. | high, not executed | DepartureOrder.MixedRaises | DepartureOrder.SortDepartures |
