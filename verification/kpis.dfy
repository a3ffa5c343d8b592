/** The four KPI cards at the top of the dashboard: throughput, error rate,
    P95 latency and estimated cost. They are drawn after the history has been
    updated, outside the handler that catches fetch errors. */
module Kpis {
  import opened Wrappers
  import opened Payload

  /** The values the four cards display. Throughput is shown as `None RPM`
      when the backend sent `null`. */
  datatype Cards = Cards(throughput: Option<real>, errorPercent: real, p95LatencyMs: real, costUsd: real)

  /** The uncaught error that ends the run while the cards are drawn, in the
      order the cards are drawn: `None * 100` for the error rate, then
      formatting `None` with `:.0f` or `:.4f` for latency and cost. */
  datatype RenderError = NullErrorPercent | NullP95Latency | NullCost

  /** Draws the cards: missing keys read as 0; the first card whose value
      is JSON `null` and cannot be computed or formatted raises. */
  function KpiCards(p: Payload): (r: Result<Cards, RenderError>)
    ensures r.Failure? <==> p.errorRate.Null? || p.p95Latency.Null? || p.estimatedCostUsd.Null?
    ensures p.errorRate.Null? ==> r == Failure(NullErrorPercent)
    ensures !p.errorRate.Null? && p.p95Latency.Null? ==> r == Failure(NullP95Latency)
    ensures !p.errorRate.Null? && !p.p95Latency.Null? && p.estimatedCostUsd.Null? ==> r == Failure(NullCost)
    ensures r.Success? ==> r.value.throughput == Get(p.requestsPerMin, 0.0)
    ensures r.Success? && p.errorRate.Absent? ==> r.value.errorPercent == 0.0
    ensures r.Success? && p.errorRate.Given? ==> r.value.errorPercent == p.errorRate.value * 100.0
    ensures r.Success? && p.p95Latency.Absent? ==> r.value.p95LatencyMs == 0.0
    ensures r.Success? && p.p95Latency.Given? ==> r.value.p95LatencyMs == p.p95Latency.value
    ensures r.Success? && p.estimatedCostUsd.Absent? ==> r.value.costUsd == 0.0
    ensures r.Success? && p.estimatedCostUsd.Given? ==> r.value.costUsd == p.estimatedCostUsd.value
  {
    match (Get(p.errorRate, 0.0), Get(p.p95Latency, 0.0), Get(p.estimatedCostUsd, 0.0))
    case (None, _, _) => Failure(NullErrorPercent)
    case (Some(_), None, _) => Failure(NullP95Latency)
    case (Some(_), Some(_), None) => Failure(NullCost)
    case (Some(rate), Some(p95), Some(cost)) =>
      Success(Cards(Get(p.requestsPerMin, 0.0), rate * 100.0, p95, cost))
  }
}
