/** The `/timeseries` endpoint: metric check, forecast fetch and the user-observation overlay. */
module Api {
  import opened Wrappers
  import opened Catalog
  import opened Observations
  import opened Store
  import opened Forecast

  /** The radius `_filter_user_observations` uses when the endpoint does not pass one. */
  const DefaultRadiusKm: real := 75.0

  function UnsupportedMetric(metric: string): HttpError
  {
    HttpError(400, "Metric '" + metric + "' not supported.")
  }

  /** The query `timeseries` passes to `_filter_user_observations`. */
  function OverlayQuery(metric: string, latitude: real, longitude: real, hours: int, now: int): Query
  {
    Query(Some(metric), Cutoff(now, hours), Some(Area(latitude, longitude, DefaultRadiusKm)))
  }

  /** `timeseries`. An unknown metric is refused with 400 whatever the provider would say;
      otherwise the fetch's outcome is returned, with the stored observations of that metric,
      age and neighbourhood attached only when `includeUserObservations` is set.
      `fetchNow` and `filterNow` are the two clock readings the handler makes. */
  method Timeseries(store: ObservationStore, metric: string, latitude: real, longitude: real,
                    hours: int, includeUserObservations: bool, provider: Provider,
                    fetchNow: int, filterNow: int, parse: Parser, dist: Distance)
    returns (r: Result<TimeseriesResponse, HttpError>)
    requires -90.0 <= latitude <= 90.0 && -180.0 <= longitude <= 180.0
    requires 1 <= hours <= 168
    ensures metric !in MetricCatalog ==> r == Err(UnsupportedMetric(metric))
    ensures metric in MetricCatalog ==>
      var fetched := HourlyOutcome(metric, latitude, longitude, hours,
                                   provider(ForecastRequest(MetricCatalog[metric], latitude, longitude, hours)),
                                   fetchNow, parse);
      && (fetched.Err? ==> r == fetched)
      && (fetched.Ok? ==> r.Ok? && r.value.(userObservations := []) == fetched.value)
      && (r.Ok? && includeUserObservations ==>
            r.value.userObservations == SortByTime(Select(store.records, OverlayQuery(metric, latitude, longitude, hours, filterNow), dist)))
      && (r.Ok? && !includeUserObservations ==> r.value.userObservations == [])
  {
    if metric !in MetricCatalog {
      return Err(UnsupportedMetric(metric));
    }
    var series := FetchHourly(metric, latitude, longitude, hours, provider, fetchNow, parse);
    if series.Err? {
      return series;
    }
    var response := series.value;
    if includeUserObservations {
      var overlay := store.Filter(latitude, longitude, Some(metric), hours, DefaultRadiusKm, filterNow, dist);
      response := response.(userObservations := overlay);
    }
    return Ok(response);
  }
}
