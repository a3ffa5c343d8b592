/** The metrics snapshot returned by the backend's `GET /metrics` endpoint,
    as the dashboard sees it after `response.json()`. Every key is optional. */
module Payload {
  import opened Wrappers

  /** One key of the parsed JSON object: missing, present with JSON `null`,
      or present with a value. */
  datatype Field<+T> = Absent | Null | Given(value: T)

  /** Python's `dict.get(key, default)` on one field: the default when the key
      is missing, `None` when it holds JSON `null`, its value otherwise. */
  function Get<T>(f: Field<T>, default: T): (r: Option<T>)
    ensures f.Absent? ==> r == Some(default)
    ensures r.None? <==> f.Null?
    ensures f.Given? ==> r == Some(f.value)
  {
    match f
    case Absent => Some(default)
    case Null => None
    case Given(v) => Some(v)
  }

  /** The fields of the metrics object that the history, the KPI cards and
      the incident log read. Numbers are modelled as reals; the latency is in
      milliseconds. */
  datatype Payload = Payload(
    requestsPerMin: Field<real>,
    errorRate: Field<real>,
    p95Latency: Field<real>,
    estimatedCostUsd: Field<real>,
    anomalies: Field<seq<string>>)

  /** Why fetching or decoding the snapshot raised. All of them are caught by
      the same handler and treated alike. */
  datatype FetchError =
    | ConnectionFailed   // refused connection, DNS failure
    | TimedOut           // no answer within the request timeout
    | MalformedBody      // `response.json()` could not parse the body
    | NotAnObject        // the body parsed to a non-object, so `data.get` raises
}
