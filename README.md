# ClimaGrid backend core, modelled in Dafny

ClimaGrid's FastAPI backend (`climagrid-backend/main.py`) serves an hourly forecast for one
metric at one location, overlays crowd-sourced observations on it, and stores the observations
users submit. This project models the part of that file that is logic rather than plumbing:

- `Catalog` — the `MetricKey` literal type and `METRIC_CATALOG` (label, upstream field, unit),
  with the temperature unit spelled exactly as the source file spells it (`"Â°C"`).
- `Geocode` — `GeocodeResult` and its `display_name` ("name, admin1, country", skipping empty parts).
- `Observations` — submitted and stored observations, the record `add_observation` builds, the
  metric/age/distance query of `_filter_user_observations` and `list_observations`, and the
  stable sort by timestamp (`sorted(..., key=timestamp)`), modelled as an insertion sort.
- `Store` — the module-level list `USER_OBSERVATIONS` as a class whose `records` field the
  methods `Add` (`add_observation`), `Filter` (`_filter_user_observations`) and `List`
  (`list_observations`) append to or scan with loops.
- `Forecast` — `_fetch_hourly_data`: the forecast-day clamp, the query sent upstream, the scan
  over `zip(timestamps, values)` with its `continue`/`break`, the 502/404 errors and the
  `points[:hours]` truncation. `HourlyOutcome` is the specification the method is proved against.
- `Api` — the `timeseries` handler: the 400 for an unknown metric, then the fetch and the
  optional user-observation overlay.

Conventions. Timestamps are whole seconds on one integer time line, so `timedelta(hours=h)` is
`h * 3600`. Every `datetime.utcnow()` call is a separate integer parameter (`now`, `filterNow`,
`listNow`, `fetchNow`, `submittedAt`). The ISO-8601 parser, including its `"Z"` to `"+00:00"`
rewrite, is a parameter `string -> Option<Stamp>` that yields `None` where `fromisoformat` raises
`ValueError`; a `Stamp` records whether the parsed `datetime` carries a UTC offset. Comparing such
an aware timestamp with the naive `utcnow()` cutoff raises `TypeError`, which the framework answers
with 500; the model makes that an error outcome.
The haversine distance is a parameter `(lat1, lon1, lat2, lon2) -> km`. The upstream weather
provider is a parameter from the query it is sent to its reply. Floats are `real`. Python
truthiness of an optional string (`None` and `""` are false) is `Wrappers.Truthy`.

## Model

| member | source | states |
|---|---|---|
| `Catalog.CatalogKeys` | climagrid-backend/main.py:22-45 | the catalog has an entry for exactly the four `MetricKey` literals |
| `Geocode.DisplayNameParts` | climagrid-backend/main.py:57-64 | joining the pieces with ", " gives the name, then ", admin1" only when admin1 is truthy, then ", country" only when country is truthy, in that order |
| `Geocode.DisplayNameIsNameIff` | climagrid-backend/main.py:57-64 | the display name always starts with the name, and equals the bare name exactly when neither admin1 nor country is truthy |
| `Geocode.DisplayNameLength` | climagrid-backend/main.py:57-64 | each truthy optional part adds its length plus the two-character separator, and nothing else is added |
| `Observations.NewRecord` | climagrid-backend/main.py:303-314 | the stored record carries the given id and submission time, copies every other submitted field, and has a truthy source: the submitted one when truthy, "user" otherwise; it equals the submission exactly when the submitted source was truthy |
| `Observations.SelectMembers` | climagrid-backend/main.py:148-155 | the filtered list holds exactly the input records of the metric (when a truthy metric is given), no earlier than the cutoff and within the radius |
| `Observations.SelectSnoc` | climagrid-backend/main.py:148-155 | one more loop iteration appends the record exactly when it passes the three tests |
| `Observations.SelectTwice` | climagrid-backend/main.py:279-297 | filtering an already filtered list keeps exactly what both queries admit |
| `Observations.LaterCutoffWins` | climagrid-backend/main.py:146 | two queries differing only in their cutoff admit together exactly what the later cutoff admits |
| `Observations.SortedPairwise` | climagrid-backend/main.py:156 | in a sorted list every earlier record is no later than every later one |
| `Observations.SortByTime` | climagrid-backend/main.py:156 | the sort returns a list in non-decreasing timestamp order, of the input's length |
| `Observations.SortByTimePermutes` | climagrid-backend/main.py:156 | the sort is a permutation of its input |
| `Observations.SortByTimeStable` | climagrid-backend/main.py:156 | records with equal timestamps keep their input (insertion) order, as Python's stable `sorted` does |
| `Observations.SortByTimeOfSorted` | climagrid-backend/main.py:298 | sorting a list already in timestamp order leaves it unchanged |
| `Observations.SortedSelectionMembers` | climagrid-backend/main.py:139-156 | the sorted selection holds exactly the records of the input that match the query |
| `Observations.SelectSorted` | climagrid-backend/main.py:287-297 | filtering a sorted list keeps it sorted |
| `Observations.SelectInsert` | climagrid-backend/main.py:287-298 | filtering commutes with inserting one record into a sorted list |
| `Observations.SelectSortByTime` | climagrid-backend/main.py:279-298 | filtering the sorted list equals sorting the filtered list |
| `Observations.InsertAtTime` | climagrid-backend/main.py:156 | inserting a record puts it ahead of the records with the same timestamp and leaves their order alone |
| `Store.ObservationStore.constructor` | climagrid-backend/main.py:109 | the store starts empty and valid |
| `Store.ObservationStore.Add` | climagrid-backend/main.py:301-316 | the store grows by exactly the new record at the end, earlier records unchanged; the returned record is `NewRecord` of the input; validity (all records admissible, sources truthy, ids unique) is preserved |
| `Store.ObservationStore.Filter` | climagrid-backend/main.py:139-156 | the result is the stored records matching metric, cutoff `now - hours` and radius, in stable timestamp order |
| `Store.ObservationStore.List` | climagrid-backend/main.py:268-298 | without both coordinates: the stored records matching metric and cutoff, no distance test; with both: the records matching metric, radius and the later of the two cutoffs; sorted either way |
| `Store.RefilterSorted` | climagrid-backend/main.py:279-298 | re-filtering the sorted output of `_filter_user_observations` by a query that differs only in cutoff, then sorting again, equals one sorted selection with the later cutoff |
| `Forecast.CeilDiv` | climagrid-backend/main.py:163 | the result is the ceiling of the quotient: `b*(r-1) < a <= b*r` |
| `Forecast.ForecastDaysCovers` | climagrid-backend/main.py:163 | the day count lies in 1..7; it is the least count of days covering `hours` when seven days suffice, and 7 otherwise |
| `Forecast.PrefixSlice` | climagrid-backend/main.py:221 | `s[:stop]` is a prefix of `s` of length min(stop, length of s) for a non-negative stop, counting from the end for a negative one |
| `Forecast.StopFrom` | climagrid-backend/main.py:196-202 | the first pair at or after `j` whose parsed timestamp is aware or past the cutoff, or the pair count |
| `Forecast.StopIndex` | climagrid-backend/main.py:196-202 | where the scan ends: no earlier pair's timestamp parses as aware or past the cutoff and, unless the arrays ran out, this pair's does |
| `Forecast.KeptIndices` | climagrid-backend/main.py:196-205 | strictly increasing indices among the first `k` pairs (`zip` length), each usable, and every usable one present |
| `Forecast.KeptStep` | climagrid-backend/main.py:196-205 | one more pair extends the extracted points by its point exactly when its timestamp parses and its value is non-null |
| `Forecast.KeptPointOrigin` | climagrid-backend/main.py:196-205 | every extracted point comes from a pair before the break, carries that pair's parsed (naive) timestamp and value, and is no later than the cutoff |
| `Forecast.KeptComplete` | climagrid-backend/main.py:196-205 | every usable pair before the break yields its point, at the position of its index among the kept indices |
| `Forecast.KeptEmptyIff` | climagrid-backend/main.py:207-211 | no point is extracted exactly when no pair before the break is usable |
| `Forecast.ScanPoints` | climagrid-backend/main.py:192-205 | the loop with its `continue`s and `break` raises (500) exactly when it reaches an aware timestamp before any past-cutoff one, and otherwise returns exactly the usable pairs before the first past-cutoff timestamp, in input order |
| `Forecast.FetchHourly` | climagrid-backend/main.py:159-222 | the fetch asks the provider for the metric's field over `ForecastDays(hours)` days and returns `HourlyOutcome` of the reply |
| `Forecast.FetchedWindow` | climagrid-backend/main.py:192-221 | a successful fetch returns 1..hours points, a prefix of the extracted points, none past `now + hours`, with the catalog's label and unit and no user observations; the scan did not raise |
| `Forecast.NoUsablePointsIs404` | climagrid-backend/main.py:196-211 | with both arrays present and non-empty, the fetch fails with 404 exactly when the scan does not raise and no pair before the break is usable |
| `Forecast.AwareFirstTimestampIs500` | climagrid-backend/main.py:192-201 | a payload whose first timestamp parses with a UTC offset (such as one ending in "Z") fails with 500 whatever the values and the clock |
| `Forecast.FetchErrorStatus` | climagrid-backend/main.py:172-211 | the fetch fails with 502 exactly when the provider call fails or an array is missing or empty, with 500 exactly when the scan reaches an aware timestamp; any other failure is the 404 |
| `Api.Timeseries` | climagrid-backend/main.py:246-265 | an unknown metric yields 400 whatever the provider would reply; otherwise the fetch's error, or its response with the sorted nearby recent observations of that metric attached only when requested and an empty list otherwise |

## Left out

- HTTP and framework plumbing: FastAPI routing, the CORS middleware, `/healthz`, `/`, `/metrics` (which returns the catalog constant) and `/geocode` (a provider call followed by `GeocodeResult(**item)` for each result). The provider is a function parameter instead.
- `_haversine_distance_km`: floating-point trigonometry; distance is a parameter and only the `> radius_km` comparison is modelled.
- Date and time: `datetime.fromisoformat`, `datetime.utcnow()` and `uuid4()` are parameters. Timestamps are whole seconds, so sub-second precision is dropped. Python refuses to compare timezone-aware and naive datetimes. The forecast scan models this (an aware upstream timestamp is a 500); for stored observations it is not modelled: an observation submitted with an explicit UTC offset makes the age comparisons of `_filter_user_observations` and `list_observations` raise, and the observation side keeps a single integer time line.
- `BaseObservation`'s default timestamp (`default_factory=datetime.utcnow`) is applied by pydantic while parsing, not by the handler; the model takes the timestamp as given.
- Pydantic and query validation is stated as preconditions: `Admissible` for the observation fields; the latitude, longitude, hours and radius ranges of `timeseries` and `list_observations`.
- Store.ObservationStore.Add: requires the fresh id to be unused, which models the uniqueness that `uuid4` provides in practice. The source does not check it.
- Api.Timeseries: takes the metric as a raw string so that the 400 branch can be modelled. Over HTTP, the `MetricKey` literal type makes FastAPI refuse other values with 422 before the handler runs.
- Malformed upstream payloads that crash the handler are not modelled. These are a `null` `hourly` object, non-string entries in `time`, and values `float()` rejects. The reply type only admits strings and optional reals.
- Floating point: NaN and infinities in values, distances and radii are not modelled. `ceil(hours / 24)` is modelled on exact integers, so the loss of precision for hours beyond 2^53 is not modelled.
- Python's `sorted` (Timsort) is modelled as a stable insertion sort. Both are stable sorts, so they return the same list.
- Concurrency: handlers run on one event loop, and none awaits while it touches `USER_OBSERVATIONS`, so each store operation is modelled as atomic.
- The browser-side coordination layer is not modelled because it is not part of this file. It covers debounced search, cancellation of superseded requests and the refresh counter.
