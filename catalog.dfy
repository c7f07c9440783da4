/** The static metric catalog (`METRIC_CATALOG`) and the `MetricKey` literal type. */
module Catalog {
  /** One catalog entry: the label shown to users, the upstream hourly field and the unit. */
  datatype MetricConfig = MetricConfig(metricLabel: string, apiField: string, unit: string)

  /** The values admitted by the `MetricKey` literal type. */
  const MetricKeys: set<string> := {"temperature", "humidity", "precipitation", "windspeed"}

  /** The catalog entries. The temperature unit is the three-character string the source
      file spells out, U+00C2 U+00B0 'C' (a degree sign encoded twice), not U+00B0 'C'. */
  const MetricCatalog: map<string, MetricConfig> := map[
    "temperature" := MetricConfig("Air Temperature", "temperature_2m", "Â°C"),
    "humidity" := MetricConfig("Relative Humidity", "relativehumidity_2m", "%"),
    "precipitation" := MetricConfig("Precipitation", "precipitation", "mm"),
    "windspeed" := MetricConfig("Wind Speed", "windspeed_10m", "km/h")
  ]

  /** The catalog has an entry for exactly the `MetricKey` literals, so the endpoint's
      "not in METRIC_CATALOG" test refuses exactly the other strings. */
  lemma CatalogKeys()
    ensures MetricCatalog.Keys == MetricKeys
  {
  }
}
