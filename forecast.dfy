/** The forecast part of `_fetch_hourly_data`: the forecast-day clamp, the request sent
    upstream, the scan that turns the paired hourly arrays into points, and the errors. */
module Forecast {
  import opened Wrappers
  import opened Catalog
  import opened Observations

  const HoursPerDay: int := 24
  const MaxForecastDays: int := 7

  /** Python's `ceil(a / b)` for a positive divisor (Dafny's `/` floors when `b > 0`). */
  function CeilDiv(a: int, b: int): (r: int)
    requires b > 0
    ensures b * (r - 1) < a <= b * r
  {
    var q := (-a) / b;
    assert -a == b * q + (-a) % b;
    -q
  }

  /** `max(1, min(7, ceil(hours / 24)))`. */
  function ForecastDays(hours: int): int
  {
    var d := CeilDiv(hours, HoursPerDay);
    if d < 1 then 1 else if d > MaxForecastDays then MaxForecastDays else d
  }

  /** The day count lies in 1..7; it is the least day count that covers `hours` when seven days
      suffice, and seven otherwise. */
  lemma ForecastDaysCovers(hours: int)
    ensures 1 <= ForecastDays(hours) <= MaxForecastDays
    ensures hours <= HoursPerDay * MaxForecastDays ==> hours <= HoursPerDay * ForecastDays(hours)
    ensures ForecastDays(hours) > 1 ==> HoursPerDay * (ForecastDays(hours) - 1) < hours
    ensures hours > HoursPerDay * MaxForecastDays ==> ForecastDays(hours) == MaxForecastDays
  {
  }

  /** Python's `s[:stop]`: a negative stop counts from the end. */
  function PrefixSlice<T>(s: seq<T>, stop: int): (r: seq<T>)
    ensures r <= s
    ensures stop >= 0 ==> |r| == if stop < |s| then stop else |s|
    ensures stop < 0 ==> |r| == if |s| + stop > 0 then |s| + stop else 0
  {
    if stop >= |s| then s
    else if stop >= 0 then s[..stop]
    else if |s| + stop > 0 then s[..|s| + stop]
    else []
  }

  // ---------------------------------------------------------------------------------
  // The scan over `zip(timestamps, values)`.

  datatype Point = Point(timestamp: int, value: real)

  /** A parsed `datetime`: seconds on the UTC time line, and whether it carries a UTC offset
      (is timezone-aware). */
  datatype Stamp = Stamp(seconds: int, aware: bool)

  /** The ISO-8601 parser (after "Z" is rewritten as "+00:00", so a trailing "Z" yields an
      aware `datetime`); `None` where it raises `ValueError`. */
  type Parser = string -> Option<Stamp>

  /** The two hourly arrays: raw timestamps and the metric's values (`null` is `None`). */
  datatype Samples = Samples(times: seq<string>, values: seq<Option<real>>)

  /** `zip` stops at the shorter array. */
  function PairCount(s: Samples): nat
  {
    if |s.times| <= |s.values| then |s.times| else |s.values|
  }

  /** Pair `i` carries a timestamp that parses as an aware `datetime`, which Python refuses
      to compare with the naive cutoff (`TypeError`). */
  predicate Aware(s: Samples, parse: Parser, i: nat)
    requires i < PairCount(s)
  {
    parse(s.times[i]).Some? && parse(s.times[i]).value.aware
  }

  /** Pair `i` is where the scan ends early: its timestamp parses and either is aware, so the
      comparison raises, or lies after the cutoff, so the loop breaks. */
  predicate PastCutoff(s: Samples, parse: Parser, cutoff: int, i: nat)
    requires i < PairCount(s)
  {
    parse(s.times[i]).Some? && (parse(s.times[i]).value.aware || parse(s.times[i]).value.seconds > cutoff)
  }

  /** The first pair at or after `j` where the scan ends early, or the pair count. */
  function StopFrom(s: Samples, parse: Parser, cutoff: int, j: nat): (k: nat)
    requires j <= PairCount(s)
    ensures j <= k <= PairCount(s)
    ensures forall i :: j <= i < k ==> !PastCutoff(s, parse, cutoff, i)
    ensures k < PairCount(s) ==> PastCutoff(s, parse, cutoff, k)
    decreases PairCount(s) - j
  {
    if j == PairCount(s) then j
    else if PastCutoff(s, parse, cutoff, j) then j
    else StopFrom(s, parse, cutoff, j + 1)
  }

  /** Where the scan ends: the first pair whose parsed timestamp is aware or past the cutoff. */
  function StopIndex(s: Samples, parse: Parser, cutoff: int): (k: nat)
    ensures k <= PairCount(s)
    ensures forall i :: 0 <= i < k ==> !PastCutoff(s, parse, cutoff, i)
    ensures k < PairCount(s) ==> PastCutoff(s, parse, cutoff, k)
  {
    StopFrom(s, parse, cutoff, 0)
  }

  /** Pair `i` has a parsable timestamp and a non-null value. */
  predicate Usable(s: Samples, parse: Parser, i: nat)
    requires i < PairCount(s)
  {
    parse(s.times[i]).Some? && s.values[i].Some?
  }

  function PointAt(s: Samples, parse: Parser, i: nat): Point
    requires i < PairCount(s) && Usable(s, parse, i)
  {
    Point(parse(s.times[i]).value.seconds, s.values[i].value)
  }

  /** The scan raises: the pair it ends at carries an aware timestamp. */
  predicate Raises(s: Samples, parse: Parser, cutoff: int)
  {
    StopIndex(s, parse, cutoff) < PairCount(s) && Aware(s, parse, StopIndex(s, parse, cutoff))
  }

  /** The usable pairs among the first `k`, in increasing order. */
  function KeptIndices(s: Samples, parse: Parser, k: nat): (idx: seq<nat>)
    requires k <= PairCount(s)
    ensures forall j :: 0 <= j < |idx| ==> idx[j] < k && Usable(s, parse, idx[j])
    ensures forall j1, j2 :: 0 <= j1 < j2 < |idx| ==> idx[j1] < idx[j2]
    ensures forall i :: 0 <= i < k && Usable(s, parse, i) ==> i in idx
  {
    if k == 0 then []
    else KeptIndices(s, parse, k - 1) + (if Usable(s, parse, k - 1) then [k - 1] else [])
  }

  /** The points of the usable pairs among the first `k`, in input order. */
  function Kept(s: Samples, parse: Parser, k: nat): (points: seq<Point>)
    requires k <= PairCount(s)
    ensures |points| == |KeptIndices(s, parse, k)|
  {
    var idx := KeptIndices(s, parse, k);
    seq(|idx|, j requires 0 <= j < |idx| => PointAt(s, parse, idx[j]))
  }

  /** One more pair extends the kept points by its point exactly when it is usable. */
  lemma KeptStep(s: Samples, parse: Parser, k: nat)
    requires k < PairCount(s)
    ensures Kept(s, parse, k + 1)
            == Kept(s, parse, k) + (if Usable(s, parse, k) then [PointAt(s, parse, k)] else [])
  {
  }

  /** Every extracted point comes from a usable pair before the break, carries that pair's
      parsed timestamp and value, and so is no later than the cutoff. */
  lemma KeptPointOrigin(s: Samples, parse: Parser, cutoff: int, j: nat)
    requires j < |Kept(s, parse, StopIndex(s, parse, cutoff))|
    ensures var i := KeptIndices(s, parse, StopIndex(s, parse, cutoff))[j];
            var p := Kept(s, parse, StopIndex(s, parse, cutoff))[j];
            && i < StopIndex(s, parse, cutoff)
            && parse(s.times[i]) == Some(Stamp(p.timestamp, false))
            && s.values[i] == Some(p.value)
            && p.timestamp <= cutoff
  {
    var k := StopIndex(s, parse, cutoff);
    var i := KeptIndices(s, parse, k)[j];
    assert !PastCutoff(s, parse, cutoff, i);
  }

  /** Every usable pair before the break yields a point, and earlier pairs yield earlier points. */
  lemma KeptComplete(s: Samples, parse: Parser, cutoff: int, i: nat)
    requires i < StopIndex(s, parse, cutoff) && Usable(s, parse, i)
    ensures exists j :: 0 <= j < |Kept(s, parse, StopIndex(s, parse, cutoff))|
                        && KeptIndices(s, parse, StopIndex(s, parse, cutoff))[j] == i
                        && Kept(s, parse, StopIndex(s, parse, cutoff))[j] == PointAt(s, parse, i)
  {
    var idx := KeptIndices(s, parse, StopIndex(s, parse, cutoff));
    var j :| 0 <= j < |idx| && idx[j] == i;
  }

  /** No point is extracted exactly when no pair before the break is usable. */
  lemma KeptEmptyIff(s: Samples, parse: Parser, cutoff: int)
    ensures Kept(s, parse, StopIndex(s, parse, cutoff)) == []
            <==> forall i :: 0 <= i < StopIndex(s, parse, cutoff) ==> !Usable(s, parse, i)
  {
    var k := StopIndex(s, parse, cutoff);
    var idx := KeptIndices(s, parse, k);
    if |idx| > 0 {
      assert idx[0] < k && Usable(s, parse, idx[0]);
    }
  }

  // ---------------------------------------------------------------------------------
  // The request, the upstream reply and the outcome.

  /** The parameters sent upstream. */
  datatype ForecastQuery = ForecastQuery(latitude: real, longitude: real, hourly: string,
                                         forecastDays: int, timezone: string)

  /** The `hourly` object of the payload: the `time` array and the metric arrays by field name. */
  datatype HourlyBlock = HourlyBlock(time: Option<seq<string>>, fields: map<string, seq<Option<real>>>)

  /** What the upstream call yields: an `httpx.HTTPError` (transport failure or a non-2xx
      status) or a JSON payload whose `hourly` key may be absent. */
  datatype UpstreamReply = TransportFailure(message: string) | Payload(hourly: Option<HourlyBlock>)

  /** The upstream weather provider, as a function of the query it is sent. */
  type Provider = ForecastQuery -> UpstreamReply

  datatype HttpError = HttpError(status: int, detail: string)

  datatype TimeseriesResponse = TimeseriesResponse(
    metric: string,
    metricLabel: string,
    unit: string,
    latitude: real,
    longitude: real,
    hoursRequested: int,
    source: string,
    points: seq<Point>,
    userObservations: seq<ObservationRecord>)

  const ProviderName: string := "open-meteo"

  function ForecastRequest(config: MetricConfig, latitude: real, longitude: real, hours: int): ForecastQuery
  {
    ForecastQuery(latitude, longitude, config.apiField, ForecastDays(hours), "UTC")
  }

  /** `now + timedelta(hours=hours)` in seconds. */
  function Horizon(now: int, hours: int): int
  {
    now + hours * SecondsPerHour
  }

  /** The arrays the scan runs over, or `None` when either is missing or empty. */
  function SamplesOf(hourly: Option<HourlyBlock>, apiField: string): Option<Samples>
  {
    var times := if hourly.Some? then hourly.value.time else None;
    var values := if hourly.Some? && apiField in hourly.value.fields then Some(hourly.value.fields[apiField]) else None;
    if times.None? || |times.value| == 0 || values.None? || |values.value| == 0 then None
    else Some(Samples(times.value, values.value))
  }

  function TransportError(message: string): HttpError
  {
    HttpError(502, "Upstream weather provider error: " + message)
  }

  function NoDataError(config: MetricConfig): HttpError
  {
    HttpError(502, "No " + config.metricLabel + " data returned for location.")
  }

  const NoPointsError: HttpError := HttpError(404, "No usable datapoints found for the requested window.")

  /** How the framework answers an exception the handler does not catch (here the `TypeError`
      of comparing an aware timestamp with the naive cutoff). */
  const UnhandledError: HttpError := HttpError(500, "Internal Server Error")

  /** What `_fetch_hourly_data` returns or raises for a given upstream reply. */
  function HourlyOutcome(metric: string, latitude: real, longitude: real, hours: int,
                         reply: UpstreamReply, now: int, parse: Parser): Result<TimeseriesResponse, HttpError>
    requires metric in MetricCatalog
  {
    var config := MetricCatalog[metric];
    match reply
    case TransportFailure(message) => Err(TransportError(message))
    case Payload(hourly) =>
      match SamplesOf(hourly, config.apiField)
      case None => Err(NoDataError(config))
      case Some(samples) =>
        var cutoff := Horizon(now, hours);
        var points := Kept(samples, parse, StopIndex(samples, parse, cutoff));
        if Raises(samples, parse, cutoff) then Err(UnhandledError)
        else if |points| == 0 then Err(NoPointsError)
        else Ok(TimeseriesResponse(metric, config.metricLabel, config.unit, latitude, longitude,
                                   hours, ProviderName, PrefixSlice(points, hours), []))
  }

  /** The loop of `_fetch_hourly_data` over `zip(timestamps, values)`: skips a pair whose
      timestamp does not parse, raises at an aware timestamp, stops at the first timestamp
      past the cutoff, skips a null value, and keeps every other pair as a point. */
  method ScanPoints(samples: Samples, parse: Parser, cutoff: int) returns (r: Result<seq<Point>, HttpError>)
    ensures r.Err? <==> Raises(samples, parse, cutoff)
    ensures r.Err? ==> r.error == UnhandledError
    ensures r.Ok? ==> r.value == Kept(samples, parse, StopIndex(samples, parse, cutoff))
  {
    var n := PairCount(samples);
    var points := [];
    var i := 0;
    while i < n
      invariant i <= StopIndex(samples, parse, cutoff)
      invariant points == Kept(samples, parse, i)
    {
      KeptStep(samples, parse, i);
      var ts := parse(samples.times[i]);
      if ts.None? {
        i := i + 1;
        continue;
      }
      if ts.value.aware {
        assert PastCutoff(samples, parse, cutoff, i);
        return Err(UnhandledError);
      }
      if ts.value.seconds > cutoff {
        assert PastCutoff(samples, parse, cutoff, i);
        break;
      }
      var rawValue := samples.values[i];
      if rawValue.None? {
        i := i + 1;
        continue;
      }
      points := points + [Point(ts.value.seconds, rawValue.value)];
      i := i + 1;
    }
    assert i == StopIndex(samples, parse, cutoff);
    return Ok(points);
  }

  /** `_fetch_hourly_data`: asks the provider for `ForecastDays(hours)` days of the metric's
      hourly field, then scans the paired arrays, skipping unparsable timestamps and null
      values, raising at an aware timestamp and stopping at the first timestamp past
      `now + hours`. */
  method FetchHourly(metric: string, latitude: real, longitude: real, hours: int,
                     provider: Provider, now: int, parse: Parser)
    returns (r: Result<TimeseriesResponse, HttpError>)
    requires metric in MetricCatalog
    ensures r == HourlyOutcome(metric, latitude, longitude, hours,
                               provider(ForecastRequest(MetricCatalog[metric], latitude, longitude, hours)), now, parse)
  {
    var config := MetricCatalog[metric];
    var forecastDays := ForecastDays(hours);
    var query := ForecastQuery(latitude, longitude, config.apiField, forecastDays, "UTC");
    var reply := provider(query);
    if reply.TransportFailure? {
      return Err(TransportError(reply.message));
    }
    var hourly := reply.hourly;
    var timestamps := if hourly.Some? then hourly.value.time else None;
    var values := if hourly.Some? && config.apiField in hourly.value.fields then Some(hourly.value.fields[config.apiField]) else None;
    if timestamps.None? || |timestamps.value| == 0 || values.None? || |values.value| == 0 {
      return Err(NoDataError(config));
    }

    var samples := Samples(timestamps.value, values.value);
    var scan := ScanPoints(samples, parse, Horizon(now, hours));
    if scan.Err? {
      return Err(scan.error);
    }
    var points := scan.value;

    if |points| == 0 {
      return Err(NoPointsError);
    }
    return Ok(TimeseriesResponse(metric, config.metricLabel, config.unit, latitude, longitude,
                                 hours, ProviderName, PrefixSlice(points, hours), []));
  }

  /** A successful fetch (for the endpoint's `hours >= 1`) returns between one and `hours`
      points, a prefix of the points extracted in input order, none later than `now + hours`,
      with the catalog's label and unit for the metric and no user observations yet. */
  lemma FetchedWindow(metric: string, latitude: real, longitude: real, hours: int,
                      reply: UpstreamReply, now: int, parse: Parser)
    requires metric in MetricCatalog && hours >= 1
    requires HourlyOutcome(metric, latitude, longitude, hours, reply, now, parse).Ok?
    ensures var resp := HourlyOutcome(metric, latitude, longitude, hours, reply, now, parse).value;
            && reply.Payload?
            && SamplesOf(reply.hourly, MetricCatalog[metric].apiField).Some?
            && var samples := SamplesOf(reply.hourly, MetricCatalog[metric].apiField).value;
            && !Raises(samples, parse, Horizon(now, hours))
            && 1 <= |resp.points| <= hours
            && resp.points <= Kept(samples, parse, StopIndex(samples, parse, Horizon(now, hours)))
            && (forall p :: p in resp.points ==> p.timestamp <= Horizon(now, hours))
            && resp.metric == metric
            && resp.metricLabel == MetricCatalog[metric].metricLabel
            && resp.unit == MetricCatalog[metric].unit
            && resp.hoursRequested == hours
            && resp.source == ProviderName
            && resp.userObservations == []
  {
    var resp := HourlyOutcome(metric, latitude, longitude, hours, reply, now, parse).value;
    var samples := SamplesOf(reply.hourly, MetricCatalog[metric].apiField).value;
    var cutoff := Horizon(now, hours);
    var all := Kept(samples, parse, StopIndex(samples, parse, cutoff));
    forall p | p in resp.points ensures p.timestamp <= cutoff {
      var j :| 0 <= j < |resp.points| && resp.points[j] == p;
      assert resp.points[j] == all[j];
      KeptPointOrigin(samples, parse, cutoff, j);
    }
  }

  /** Once both arrays are present and non-empty, the fetch fails with 404 exactly when the
      scan does not raise and no pair before the break has both a parsable timestamp and a
      non-null value. */
  lemma NoUsablePointsIs404(metric: string, latitude: real, longitude: real, hours: int,
                            reply: UpstreamReply, now: int, parse: Parser)
    requires metric in MetricCatalog && reply.Payload?
    requires SamplesOf(reply.hourly, MetricCatalog[metric].apiField).Some?
    ensures var samples := SamplesOf(reply.hourly, MetricCatalog[metric].apiField).value;
            HourlyOutcome(metric, latitude, longitude, hours, reply, now, parse) == Err(NoPointsError)
            <==> !Raises(samples, parse, Horizon(now, hours))
                 && forall i :: 0 <= i < StopIndex(samples, parse, Horizon(now, hours)) ==> !Usable(samples, parse, i)
  {
    var samples := SamplesOf(reply.hourly, MetricCatalog[metric].apiField).value;
    KeptEmptyIff(samples, parse, Horizon(now, hours));
  }

  /** A payload whose first timestamp parses with a UTC offset (for instance one ending in "Z")
      fails with 500, whatever the values and the clock. */
  lemma AwareFirstTimestampIs500(metric: string, latitude: real, longitude: real, hours: int,
                                 reply: UpstreamReply, now: int, parse: Parser)
    requires metric in MetricCatalog && reply.Payload?
    requires SamplesOf(reply.hourly, MetricCatalog[metric].apiField).Some?
    requires var samples := SamplesOf(reply.hourly, MetricCatalog[metric].apiField).value;
             parse(samples.times[0]).Some? && parse(samples.times[0]).value.aware
    ensures HourlyOutcome(metric, latitude, longitude, hours, reply, now, parse) == Err(UnhandledError)
  {
    var samples := SamplesOf(reply.hourly, MetricCatalog[metric].apiField).value;
    assert PastCutoff(samples, parse, Horizon(now, hours), 0);
  }

  /** The fetch fails with 502 exactly when the provider call fails or either array is
      missing or empty, and with 500 exactly when the arrays are there and the scan reaches an
      aware timestamp before any timestamp past the cutoff; every other failure is the 404. */
  lemma FetchErrorStatus(metric: string, latitude: real, longitude: real, hours: int,
                         reply: UpstreamReply, now: int, parse: Parser)
    requires metric in MetricCatalog
    ensures var r := HourlyOutcome(metric, latitude, longitude, hours, reply, now, parse);
            && (r.Err? && r.error.status == 502
                <==> reply.TransportFailure? || SamplesOf(reply.hourly, MetricCatalog[metric].apiField).None?)
            && (r == Err(UnhandledError)
                <==> reply.Payload? && SamplesOf(reply.hourly, MetricCatalog[metric].apiField).Some?
                     && Raises(SamplesOf(reply.hourly, MetricCatalog[metric].apiField).value, parse, Horizon(now, hours)))
            && (r.Err? ==> r.error.status == 502 || r == Err(UnhandledError) || r == Err(NoPointsError))
  {
  }
}
