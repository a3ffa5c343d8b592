/** One run of the dashboard script per refresh: make sure the session has a
    history, fetch the metrics, and either append a row and show the
    dashboard, or report the backend unreachable and stop. */
module Cycle {
  import opened Wrappers
  import opened Payload
  import opened History
  import opened Anomalies
  import opened Kpis

  /** The one way building the history row can raise once the body is an
      object: `None * 100` when the backend sends `"error_rate": null`. */
  datatype DeriveError = NullErrorRate

  /** Builds the history row for a snapshot: throughput is `requests_per_min`
      (0 when missing), the error rate is `error_rate` as a percentage (0 when
      missing). */
  function Derive(p: Payload, time: string): (r: Result<Record, DeriveError>)
    ensures r.Failure? <==> p.errorRate.Null?
    ensures r.Success? ==> r.value.time == time
    ensures r.Success? && p.requestsPerMin.Absent? ==> r.value.throughput == Some(0.0)
    ensures r.Success? && p.requestsPerMin.Null? ==> r.value.throughput == None
    ensures r.Success? && p.requestsPerMin.Given? ==> r.value.throughput == Some(p.requestsPerMin.value)
    ensures p.errorRate.Absent? ==> r.Success? && r.value.errorRate == 0.0
    ensures p.errorRate.Given? ==> r.Success? && r.value.errorRate == p.errorRate.value * 100.0
  {
    match Get(p.errorRate, 0.0)
    case None => Failure(NullErrorRate)
    case Some(rate) => Success(Record(time, Get(p.requestsPerMin, 0.0), rate * 100.0))
  }

  /** What one cycle shows. `Updated`: the row was appended and the whole
      page, KPI cards to incident log, was drawn. `RenderFailed`: the row was
      appended, then drawing a KPI card raised, so the rest of the page,
      the incident log included, is never shown. `Unreachable`: the fetch or
      the row raised inside the handler, which reports the backend
      unreachable and stops the run. */
  datatype Status =
    | Updated(entry: Record, cards: Cards, incidents: Panel)
    | RenderFailed(entry: Record, error: RenderError)
    | Unreachable

  datatype Outcome = Outcome(history: seq<Record>, status: Status)

  /** One fetch-and-update cycle. `fetched` stands for the `GET /metrics`
      call and `response.json()`; `time` for the clock reading. Anything that
      raises inside the handler leaves the history as it was; a card that
      raises afterwards finds the row already appended. */
  function Step(h: seq<Record>, fetched: Result<Payload, FetchError>, time: string): (o: Outcome)
    ensures o.status.Unreachable? <==> fetched.Failure? || fetched.value.errorRate.Null?
    ensures o.status.RenderFailed? <==>
              fetched.Success? && !fetched.value.errorRate.Null?
              && (fetched.value.p95Latency.Null? || fetched.value.estimatedCostUsd.Null?)
    ensures o.status.Unreachable? ==> o.history == h
    ensures !o.status.Unreachable? ==> Derive(fetched.value, time) == Success(o.status.entry)
    ensures !o.status.Unreachable? ==> o.history == Append(h, o.status.entry)
    ensures o.status.RenderFailed? ==> KpiCards(fetched.value) == Failure(o.status.error)
    ensures o.status.Updated? ==> KpiCards(fetched.value) == Success(o.status.cards)
    ensures o.status.Updated? ==> o.status.incidents == IncidentLog(fetched.value.anomalies)
  {
    match fetched
    case Failure(_) => Outcome(h, Unreachable)
    case Success(p) =>
      match Derive(p, time)
      case Failure(_) => Outcome(h, Unreachable)
      case Success(e) =>
        var status :=
          match KpiCards(p)
          case Failure(err) => RenderFailed(e, err)
          case Success(cards) => Updated(e, cards, IncidentLog(p.anomalies));
        Outcome(Append(h, e), status)
  }

  /** When the page is drawn, the throughput and error-rate cards show the
      same values as the row just appended to the history. */
  lemma CardsAgreeWithRow(p: Payload, time: string)
    requires KpiCards(p).Success?
    ensures Derive(p, time).Success?
    ensures KpiCards(p).value.throughput == Derive(p, time).value.throughput
    ensures KpiCards(p).value.errorPercent == Derive(p, time).value.errorRate
  {
  }

  /** The session state the script owns: its `history` key, absent before
      the first run. */
  datatype Session = Session(history: Option<seq<Record>>)

  /** The start of every run: an empty history is created only when the
      session has none, so an existing one is never reset. */
  function Init(s: Session): (s': Session)
    ensures s'.history.Some?
    ensures s.history.None? ==> s'.history == Some([])
    ensures s.history.Some? ==> s' == s
  {
    if s.history.None? then Session(Some([])) else s
  }

  /** One refresh poll: what the fetch produced and the clock label. */
  datatype Poll = Poll(fetched: Result<Payload, FetchError>, time: string)

  /** One full run of the script against the session. A run that fails keeps
      the stored history (or the fresh empty one); a run that succeeds appends
      to the stored history, never to a reset one. */
  function Rerun(s: Session, poll: Poll): (o: Outcome)
    ensures s.history.Some? && o.status.Unreachable? ==> o.history == s.history.value
    ensures s.history.None? && o.status.Unreachable? ==> o.history == []
    ensures s.history.Some? && !o.status.Unreachable? ==> o.history == Append(s.history.value, o.status.entry)
    ensures s.history.None? && !o.status.Unreachable? ==> o.history == [o.status.entry]
    ensures o.status.Unreachable? <==> Entry(poll).None?
    ensures !o.status.Unreachable? ==> Entry(poll) == Some(o.status.entry)
  {
    var h := Init(s).history.value;
    StepReportsEntry(h, poll);
    Step(h, poll.fetched, poll.time)
  }

  /** A cycle is unreachable exactly when the poll contributes no row, and
      otherwise its row is the poll's. */
  lemma StepReportsEntry(h: seq<Record>, poll: Poll)
    ensures Step(h, poll.fetched, poll.time).status.Unreachable? <==> Entry(poll).None?
    ensures !Step(h, poll.fetched, poll.time).status.Unreachable? ==>
              Entry(poll) == Some(Step(h, poll.fetched, poll.time).status.entry)
  {
  }

  /** The session a run leaves behind. */
  function Next(s: Session, poll: Poll): (s': Session)
    ensures s'.history.Some?
  {
    Session(Some(Rerun(s, poll).history))
  }

  /** A sequence of runs, one per refresh. Every run leaves a history, and a
      history within `Capacity` rows stays within it. */
  function Run(s: Session, polls: seq<Poll>): (s': Session)
    ensures |polls| > 0 ==> s'.history.Some?
    ensures s.history.Some? && |s.history.value| <= Capacity ==>
              s'.history.Some? && |s'.history.value| <= Capacity
    decreases |polls|
  {
    if |polls| == 0 then s else Run(Next(s, polls[0]), polls[1..])
  }

  /** The row a poll contributes, if the fetch and the row both succeed. */
  function Entry(poll: Poll): Option<Record>
  {
    match poll.fetched
    case Failure(_) => None
    case Success(p) =>
      match Derive(p, poll.time)
      case Failure(_) => None
      case Success(e) => Some(e)
  }

  /** The rows of the successful polls, in poll order. */
  function Successes(polls: seq<Poll>): (es: seq<Record>)
    decreases |polls|
  {
    if |polls| == 0 then []
    else (match Entry(polls[0]) case None => [] case Some(e) => [e]) + Successes(polls[1..])
  }

  /** The rows of two stretches of polls are the rows of the first followed
      by the rows of the second. */
  lemma {:induction false} SuccessesConcat(a: seq<Poll>, b: seq<Poll>)
    ensures Successes(a + b) == Successes(a) + Successes(b)
    decreases |a|
  {
    if |a| == 0 {
      assert a + b == b;
    } else {
      assert (a + b)[0] == a[0];
      assert (a + b)[1..] == a[1..] + b;
      SuccessesConcat(a[1..], b);
    }
  }

  /** A failed fetch changes nothing except creating the empty history on
      the very first run, and shows "backend unreachable". */
  lemma FailureIsolation(s: Session, poll: Poll)
    requires poll.fetched.Failure?
    ensures Next(s, poll) == Init(s)
    ensures Rerun(s, poll).status == Unreachable
  {
  }

  /** The cycle step adds exactly the row `Entry` reports, or nothing. */
  lemma NextAppendsEntry(h: seq<Record>, poll: Poll)
    ensures Entry(poll).None? ==> Next(Session(Some(h)), poll) == Session(Some(h))
    ensures Entry(poll).Some? ==> Next(Session(Some(h)), poll) == Session(Some(Append(h, Entry(poll).value)))
  {
  }

  /** Over any sequence of runs, a bounded history ends up holding the last
      `Capacity` rows of what it held followed by the rows of the successful
      polls, in poll order. */
  lemma {:induction false} RunKeepsLastSuccesses(h: seq<Record>, polls: seq<Poll>)
    requires |h| <= Capacity
    ensures Run(Session(Some(h)), polls) == Session(Some(Tail(h + Successes(polls), Capacity)))
    decreases |polls|
  {
    if |polls| == 0 {
      assert h + Successes(polls) == h;
    } else {
      var rest := Successes(polls[1..]);
      var s1 := Next(Session(Some(h)), polls[0]);
      assert Run(Session(Some(h)), polls) == Run(s1, polls[1..]);
      NextAppendsEntry(h, polls[0]);
      match Entry(polls[0])
      case None =>
        assert Successes(polls) == rest;
        RunKeepsLastSuccesses(h, polls[1..]);
      case Some(e) =>
        assert Successes(polls) == [e] + rest;
        RunKeepsLastSuccesses(Append(h, e), polls[1..]);
        AppendThenTail(h, e, rest);
    }
  }

  /** Appending one row and then more gives the same last rows as appending
      them all at once. */
  lemma AppendThenTail(h: seq<Record>, e: Record, rest: seq<Record>)
    ensures Tail(Append(h, e) + rest, Capacity) == Tail(h + ([e] + rest), Capacity)
  {
    TailOfTail(h + [e], rest, Capacity);
    assert (h + [e]) + rest == h + ([e] + rest);
  }

  /** The same history, seen as the rows of the successful polls appended
      one by one. */
  lemma RunAppendsSuccesses(h: seq<Record>, polls: seq<Poll>)
    requires |h| <= Capacity
    ensures Run(Session(Some(h)), polls) == Session(Some(AppendAll(h, Successes(polls))))
  {
    RunKeepsLastSuccesses(h, polls);
    AppendAllKeepsLast(h, Successes(polls));
  }

  /** From a fresh session, the history holds the rows of the last
      `min(n, Capacity)` of the `n` successful polls, in poll order, and so
      never more than `Capacity` rows. */
  lemma FreshSessionHistory(polls: seq<Poll>)
    requires |polls| > 0
    ensures Run(Session(None), polls).history.Some?
    ensures Run(Session(None), polls).history.value == Tail(Successes(polls), Capacity)
    ensures |Run(Session(None), polls).history.value| == Min(|Successes(polls)|, Capacity)
  {
    assert Next(Session(None), polls[0]) == Next(Session(Some([])), polls[0]);
    assert Run(Session(None), polls) == Run(Session(Some([])), polls);
    RunKeepsLastSuccesses([], polls);
    assert [] + Successes(polls) == Successes(polls);
  }
}
