# Real-time API monitor dashboard: polling, rolling history and incident log

This project models the logic core of the team-c-monitor Streamlit dashboard
(`team-c-monitor/frontend/app.py`). Each refresh reruns the whole script
against the session state. A rerun does four things:

- it creates the `history` table once, empty, when the session has none;
- it polls `GET /metrics`. On success it builds one history row with
  `Time`, `Throughput = requests_per_min` and `ErrorRate = error_rate * 100`
  (missing keys read as 0), appends the row and keeps the last 20 rows. On any
  exception inside this handler it shows "Backend unreachable" and stops,
  leaving the history untouched;
- it draws the KPI cards (throughput, error rate, P95 latency, estimated
  cost). This happens outside the handler, after the row is appended. The
  P95-latency card (`:.0f`) or the cost card (`:.4f`) raises an uncaught
  error when its value is JSON `null`, and the rest of the page is never
  drawn. A null throughput is shown as `None RPM`. A null error rate never
  gets this far, because it already raised inside the handler;
- it shows the incident log. Each anomaly string is an error line when its
  upper-cased text contains `CRITICAL` and a warning line otherwise. An empty
  or missing list shows the "all systems nominal" notice instead.

Modules:

- `Wrappers` (`wrappers.dfy`): `Option` (Python's `None`) and `Result` (a value or
  the error raised).
- `Payload` (`payload.dfy`): the parsed metrics body as a record of optional
  fields. A key is missing, JSON `null`, or a value. `Get` is `dict.get(key,
  default)`. `FetchError` lists the causes the handler catches.
- `History` (`history.dfy`): the history row, the capacity 20, pandas' `tail`,
  the bounded `Append`, and the FIFO lemmas.
- `Anomalies` (`anomalies.dfy`): ASCII upper-casing, the substring test, the
  severity rule, `Classify` and the `IncidentLog` panel.
- `Kpis` (`kpis.dfy`): the values of the four KPI cards, and which null
  value makes drawing them raise.
- `Cycle` (`cycle.dfy`): building the row (`Derive`), one fetch-and-update
  cycle (`Step`), the session (`Init`, `Rerun`, `Run`), and the lemmas about
  whole sequences of polls.
- `Scenarios` (`scenarios.dfy`): worked examples on concrete snapshots.

Facts about the script that shape the model:

- The script has no single-flight or coalescing logic: every timer tick
  reruns it.
- `data` is local to one run; only `history` persists in the session.
- A present key holding JSON `null` behaves differently from a missing one:
  - `"error_rate": null` makes `None * 100` raise inside the `try`. The run
    then reports the backend unreachable although it answered, and the
    history is unchanged (`Scenarios.NullErrorRateReadsAsUnreachable`).
  - `"p95_latency": null` and `"estimated_cost_usd": null` pass the `try`,
    so the row is appended. Formatting the latency card (`:.0f`) or the cost
    card (`:.4f`) then raises an uncaught `TypeError`. The run ends there, and
    the incident log is not shown (`Scenarios.NullLatencyHidesIncidentLog`,
    `Scenarios.NullCostHidesIncidentLog`).
  - `"requests_per_min": null` is stored as a `None` throughput and shown as
    `None RPM`.
  - `"anomalies": null` is falsy, so it shows the nominal notice.
- `requests.get` does not raise on a 4xx or 5xx status, and `response.json()`
  parses the error body. A JSON-object error body such as `{"detail": "Not
  Found"}` is therefore a successful poll with every key missing. It appends a
  `(time, 0, 0)` row and shows the nominal notice
  (`Scenarios.ErrorBodyReadsAsEmptySnapshot`).
- A failed first run still creates the empty history, because the history is
  initialised before the fetch (`Cycle.FailureIsolation`).

## Model

| member | source | states |
|---|---|---|
| `Payload.Get` | team-c-monitor/frontend/app.py:76-77 | `dict.get` gives the default for a missing key, `None` exactly for JSON null, and the value otherwise |
| `History.Append` | team-c-monitor/frontend/app.py:79-80 | the new history has `min(old length + 1, 20)` rows and the new row is last; the rows before it are the last 19 of the old history; below capacity it is a plain append; at capacity it drops the oldest row |
| `History.Tail` | team-c-monitor/frontend/app.py:80 | `tail(n)` is a suffix of the table of length `min(length, n)` |
| `History.AppendKeepsBound` | team-c-monitor/frontend/app.py:79-80 | an append never takes a bounded history above 20 rows, and grows it by one below capacity |
| `History.FullAppendEvictsOldest` | team-c-monitor/frontend/app.py:80 | appending to a full 20-row history drops exactly the oldest row; the other 19 keep their order, shifted by one, and the new row is last |
| `History.TailOfTail` | team-c-monitor/frontend/app.py:80 | truncating before further appends does not change the last `n` rows |
| `History.AppendAllKeepsLast` | team-c-monitor/frontend/app.py:79-80 | any sequence of appends on a bounded history leaves the last 20 rows of the old history followed by the new rows |
| `History.HistoryOfAppends` | team-c-monitor/frontend/app.py:79-80 | after `n` appends from empty, the history has `min(n, 20)` rows: the last ones appended, in order |
| `Anomalies.Upper` | team-c-monitor/frontend/app.py:145 | upper-casing keeps the length and upper-cases every character in place |
| `Anomalies.Contains` | team-c-monitor/frontend/app.py:145 | Python's `t in s` holds exactly when `t` occurs at some position of `s` |
| `Anomalies.UpperMatchesLetter` | team-c-monitor/frontend/app.py:145 | upper-casing a character gives capital letter `L` exactly when it is `L` in either case |
| `Anomalies.UpperOccursIffTokenAt` | team-c-monitor/frontend/app.py:145 | `CRITICAL` occurs in the upper-cased text at `i` exactly when the text spells it at `i` in any case |
| `Anomalies.UpperContainsIffTokenAt` | team-c-monitor/frontend/app.py:145 | `"CRITICAL" in alert.upper()` holds exactly when the alert spells `CRITICAL` somewhere in any mix of cases |
| `Anomalies.SeverityOf` | team-c-monitor/frontend/app.py:145-148 | an anomaly is Critical exactly when it spells `CRITICAL` somewhere in any mix of cases, and a Warning exactly when it spells it nowhere |
| `Anomalies.Classify` | team-c-monitor/frontend/app.py:144-148 | classification gives exactly one line per anomaly, in input order, with the anomaly's own text and severity |
| `Anomalies.ClassifyConcat` | team-c-monitor/frontend/app.py:144 | classifying a concatenation is the concatenation of the classifications |
| `Anomalies.IncidentLog` | team-c-monitor/frontend/app.py:142-150 | the nominal notice appears exactly when the anomalies key is missing, null or an empty list; otherwise the box lists the classification of the list |
| `Scenarios.CriticalExamples` | team-c-monitor/frontend/app.py:145-146 | "CRITICAL: disk full" and "CRITICAL: error rate 40%" are Critical, and so is "critical error", because the match ignores case |
| `Scenarios.WarningExamples` | team-c-monitor/frontend/app.py:147-148 | "latency spike" and "latency above baseline" are Warnings |
| `Cycle.Derive` | team-c-monitor/frontend/app.py:74-78 | building the row fails exactly when `error_rate` is null; a missing `requests_per_min` gives throughput 0 and null gives `None`; a missing `error_rate` gives 0 and a present one gives `error_rate * 100`; the row carries the cycle's time label |
| `Cycle.Step` | team-c-monitor/frontend/app.py:69-150 | the run reports the backend unreachable exactly when the fetch fails or `error_rate` is null, and then keeps the history unchanged. Otherwise it appends the derived row. Drawing then fails exactly when `p95_latency` or `estimated_cost_usd` is null, with the row already appended and no incident log. In every other case the page shows the KPI cards and the incident log of the snapshot |
| `Kpis.KpiCards` | team-c-monitor/frontend/app.py:92-100 | the cards raise exactly when error rate, P95 latency or cost is null, and report the first such card in drawing order. Otherwise they show the throughput as sent (0 when missing), `error_rate * 100`, the latency and the cost, each 0 when missing |
| `Cycle.CardsAgreeWithRow` | team-c-monitor/frontend/app.py:74-96 | when the cards are drawn, the throughput and error-rate cards show the same values as the row just appended |
| `Cycle.Init` | team-c-monitor/frontend/app.py:38-39 | after initialisation a history exists; it is empty when there was none, and an existing session is left as it was |
| `Cycle.Rerun` | team-c-monitor/frontend/app.py:38-84 | a rerun never resets a stored history. A failure inside the handler keeps it; otherwise the row is appended to it, even when drawing fails afterwards. On a fresh session a failure leaves the history empty and a success leaves one row. The run reports the backend unreachable exactly when the poll contributes no row, and otherwise appends exactly the poll's row |
| `Cycle.StepReportsEntry` | team-c-monitor/frontend/app.py:69-84 | a cycle reports the backend unreachable exactly when the poll yields no row, and otherwise carries exactly the poll's row |
| `Cycle.Run` | team-c-monitor/frontend/app.py:38-80 | after at least one rerun a history exists, and a history within 20 rows stays within 20 rows over any sequence of reruns |
| `Cycle.SuccessesConcat` | team-c-monitor/frontend/app.py:69-84 | the rows that two stretches of polls contribute are the rows of the first stretch followed by those of the second |
| `Cycle.FailureIsolation` | team-c-monitor/frontend/app.py:69-84 | a failed fetch leaves the session exactly as initialisation left it and reports the backend unreachable |
| `Cycle.NextAppendsEntry` | team-c-monitor/frontend/app.py:69-84 | a rerun on a stored history appends the poll's row when it has one and changes nothing otherwise |
| `Cycle.RunKeepsLastSuccesses` | team-c-monitor/frontend/app.py:38-84 | over any sequence of reruns, a bounded history ends as the last 20 rows of the old history followed by the rows of the successful polls, in poll order; failed polls leave no trace |
| `Cycle.RunAppendsSuccesses` | team-c-monitor/frontend/app.py:79-80 | the same history is the successful rows appended one at a time |
| `Cycle.FreshSessionHistory` | team-c-monitor/frontend/app.py:38-84 | from a fresh session, `n` successful polls leave `min(n, 20)` rows, the last ones in poll order, so never more than 20 |
| `Scenarios.SnapshotEntry` | team-c-monitor/frontend/app.py:74-78 | a snapshot with throughput and error rate gives the row `(time, throughput, rate * 100)` |
| `Scenarios.ThreeSuccessfulPolls` | team-c-monitor/frontend/app.py:74-80 | throughputs 10, 20, 15 with error rates 0.01, 0.05, 0.02 give three rows, in order, with error rates 1, 5 and 2 percent |
| `Scenarios.FailureBetweenSuccesses` | team-c-monitor/frontend/app.py:69-84 | a timed-out poll between two successes leaves only the two successful rows |
| `Scenarios.NullErrorRateReadsAsUnreachable` | team-c-monitor/frontend/app.py:77 | a null `error_rate` from a reachable backend is reported as unreachable and leaves the history unchanged |
| `Scenarios.NullLatencyHidesIncidentLog` | team-c-monitor/frontend/app.py:79-100 | a null `p95_latency` with a critical anomaly appends the row, then fails on the latency card, so the critical line is never shown |
| `Scenarios.NullCostHidesIncidentLog` | team-c-monitor/frontend/app.py:79-100 | a null `estimated_cost_usd` appends the row, then fails on the cost card |
| `Scenarios.EmptySnapshotGivesZeros` | team-c-monitor/frontend/app.py:76-77 | a snapshot without `requests_per_min` and `error_rate` gives throughput 0 and error rate 0 |
| `Scenarios.ErrorBodyReadsAsEmptySnapshot` | team-c-monitor/frontend/app.py:70-80 | an HTTP error whose body is a JSON object without the metric keys is a successful poll: it appends a `(time, 0, 0)` row and, when drawn, shows the nominal notice |
| `Scenarios.MixedIncidentLog` | team-c-monitor/frontend/app.py:142-148 | "CRITICAL: error rate 40%" followed by "latency above baseline" gives one error line and then one warning line |
| `Scenarios.ClassifyPair` | team-c-monitor/frontend/app.py:142-148 | two anomalies give two lines, each with its own severity, in the order sent |
| `Scenarios.EmptyIncidentLog` | team-c-monitor/frontend/app.py:142-150 | an empty or missing anomaly list shows the nominal notice |

## Left out

- Page configuration, styling and the closing timestamp caption (app.py:13-34,
  87, 152) are not modelled.
- The trend charts, the latency-percentile bars and the user-distribution
  chart (app.py:104-135) are not modelled. So the model has no
  `p50_latency`, `p99_latency` or `per_user_requests` fields.
- `Cycle.Step`: the model assumes the trend, latency-percentile and
  user-distribution charts (app.py:104-135) draw without raising. Its
  `Updated` status, which carries the incident log, is therefore not
  promised for values that would make those charts fail. Examples are odd
  `p50_latency`, `p99_latency` or `per_user_requests` values, or a `None`
  throughput in the history.
- The KPI cards are modelled only for the values they show and for the null
  values that make them raise (`Kpis.KpiCards`). The number formatting itself
  is not modelled.
- The HTTP calls (`requests.get`, `requests.post`) are network I/O. The fetch
  and `response.json()` appear only as the `Result` given to `Cycle.Step`. The
  3-second request timeout is part of that I/O.
- The burst-log generator (app.py:53-66) sends 30 randomised records with
  fire-and-forget POSTs whose errors are swallowed. It is random and
  I/O-bound, and it does not touch the history.
- The auto-refresh timer (app.py:42) is modelled only as the sequence of
  polls given to `Cycle.Run`. The script has no single-flight logic.
- The `stream_active` toggle and the `k_threshold` slider (app.py:49-50) are
  read but never used.
- Wall-clock time is an opaque label passed into each poll.
- Numbers are reals, not IEEE floats.
- Non-object JSON bodies appear only as the `NotAnObject` fetch error. They
  make `data.get` raise inside the handler.
- JSON values of the wrong type in a present key are not modelled. Examples
  are a string `error_rate`, which Python would repeat 100 times, or a
  non-string anomaly, which would make rendering raise.
- `Anomalies.Upper`: Python's `str.upper()` is Unicode-aware, but the model
  upper-cases ASCII letters only. It does not map, for example, a dotless `ı`
  to `I`, and it never changes the length of the text.
- `Anomalies.SeverityOf`: because of that, the model treats only ASCII
  spellings of `CRITICAL` as critical.
- The incident log shows `Alerts` for a list of strings only. The script
  would also iterate a non-empty string or object given as `anomalies`.
