/** Worked examples of the dashboard's behaviour on concrete snapshots. */
module Scenarios {
  import opened Wrappers
  import opened Payload
  import opened History
  import opened Anomalies
  import opened Kpis
  import opened Cycle

  /** A snapshot that only carries throughput and error rate. */
  function Snapshot(rpm: real, rate: real): Payload
  {
    Payload(Given(rpm), Given(rate), Absent, Absent, Absent)
  }

  /** A successful poll of such a snapshot contributes one row. */
  lemma SnapshotEntry(rpm: real, rate: real, time: string)
    ensures Entry(Poll(Success(Snapshot(rpm, rate)), time)) == Some(Record(time, Some(rpm), rate * 100.0))
  {
  }

  /** The rows contributed by a sequence of polls, one poll at a time. */
  lemma SuccessesCons(polls: seq<Poll>)
    requires |polls| > 0
    ensures Entry(polls[0]).None? ==> Successes(polls) == Successes(polls[1..])
    ensures Entry(polls[0]).Some? ==> Successes(polls) == [Entry(polls[0]).value] + Successes(polls[1..])
  {
  }

  /** Three successful polls with throughputs 10, 20, 15 and error rates
      0.01, 0.05, 0.02 leave three rows, in poll order, with error rates
      1, 5 and 2 percent. */
  lemma ThreeSuccessfulPolls()
    ensures Run(Session(None), [
              Poll(Success(Snapshot(10.0, 0.01)), "12:00:00"),
              Poll(Success(Snapshot(20.0, 0.05)), "12:00:05"),
              Poll(Success(Snapshot(15.0, 0.02)), "12:00:10")])
            == Session(Some([
              Record("12:00:00", Some(10.0), 1.0),
              Record("12:00:05", Some(20.0), 5.0),
              Record("12:00:10", Some(15.0), 2.0)]))
  {
    var polls := [
      Poll(Success(Snapshot(10.0, 0.01)), "12:00:00"),
      Poll(Success(Snapshot(20.0, 0.05)), "12:00:05"),
      Poll(Success(Snapshot(15.0, 0.02)), "12:00:10")];
    var rows := [
      Record("12:00:00", Some(10.0), 1.0),
      Record("12:00:05", Some(20.0), 5.0),
      Record("12:00:10", Some(15.0), 2.0)];
    SnapshotEntry(10.0, 0.01, "12:00:00");
    SnapshotEntry(20.0, 0.05, "12:00:05");
    SnapshotEntry(15.0, 0.02, "12:00:10");
    SuccessesCons(polls[2..]);
    assert polls[2..][1..] == [];
    SuccessesCons(polls[1..]);
    assert polls[1..][1..] == polls[2..];
    SuccessesCons(polls);
    assert Successes(polls) == rows;
    FreshSessionHistory(polls);
  }

  /** A failed poll between two successful ones leaves no trace. */
  lemma FailureBetweenSuccesses()
    ensures Run(Session(None), [
              Poll(Success(Snapshot(10.0, 0.01)), "12:00:00"),
              Poll(Failure(TimedOut), "12:00:05"),
              Poll(Success(Snapshot(15.0, 0.02)), "12:00:10")])
            == Session(Some([
              Record("12:00:00", Some(10.0), 1.0),
              Record("12:00:10", Some(15.0), 2.0)]))
  {
    var polls := [
      Poll(Success(Snapshot(10.0, 0.01)), "12:00:00"),
      Poll(Failure(TimedOut), "12:00:05"),
      Poll(Success(Snapshot(15.0, 0.02)), "12:00:10")];
    var rows := [
      Record("12:00:00", Some(10.0), 1.0),
      Record("12:00:10", Some(15.0), 2.0)];
    SnapshotEntry(10.0, 0.01, "12:00:00");
    SnapshotEntry(15.0, 0.02, "12:00:10");
    SuccessesCons(polls[2..]);
    assert polls[2..][1..] == [];
    SuccessesCons(polls[1..]);
    assert polls[1..][1..] == polls[2..];
    SuccessesCons(polls);
    assert Successes(polls) == rows;
    FreshSessionHistory(polls);
  }

  /** A reachable backend that sends `"error_rate": null` makes `None * 100`
      raise inside the handler, so the cycle reports the backend unreachable
      and the history stays as it was. */
  lemma NullErrorRateReadsAsUnreachable(h: seq<Record>, time: string)
    ensures Step(h, Success(Payload(Given(10.0), Null, Absent, Absent, Absent)), time)
            == Outcome(h, Unreachable)
  {
  }

  /** A null `p95_latency` lets the row in, then the latency card raises:
      the history grows, but the incident log, critical line included, is
      never shown. */
  lemma NullLatencyHidesIncidentLog(h: seq<Record>, time: string)
    ensures Step(h, Success(Payload(Given(1.0), Given(0.1), Null, Absent, Given(["CRITICAL x"]))), time)
            == Outcome(Append(h, Record(time, Some(1.0), 10.0)), RenderFailed(Record(time, Some(1.0), 10.0), NullP95Latency))
  {
  }

  /** A null `estimated_cost_usd` likewise stops the page after the row is
      appended. */
  lemma NullCostHidesIncidentLog(h: seq<Record>, time: string)
    ensures Step(h, Success(Payload(Given(1.0), Given(0.1), Given(250.0), Null, Absent)), time)
            == Outcome(Append(h, Record(time, Some(1.0), 10.0)), RenderFailed(Record(time, Some(1.0), 10.0), NullCost))
  {
  }

  /** An HTTP error answer whose body is a JSON object without the metric
      keys (such as `{"detail": "Not Found"}`) is not an exception: it reads
      as a snapshot with every key missing, appends a row of zeros and shows
      the nominal notice. */
  lemma ErrorBodyReadsAsEmptySnapshot(h: seq<Record>, time: string)
    ensures Step(h, Success(Payload(Absent, Absent, Absent, Absent, Absent)), time)
            == Outcome(Append(h, Record(time, Some(0.0), 0.0)),
                       Updated(Record(time, Some(0.0), 0.0), Cards(Some(0.0), 0.0, 0.0, 0.0), Nominal))
  {
  }

  /** A missing `requests_per_min` and `error_rate` give a row of zeros. */
  lemma EmptySnapshotGivesZeros(time: string)
    ensures Derive(Payload(Absent, Absent, Absent, Absent, Absent), time)
            == Success(Record(time, Some(0.0), 0.0))
  {
  }

  /** Anomalies that spell the token, in capitals or in lower case, are
      critical. */
  lemma CriticalExamples()
    ensures SeverityOf("CRITICAL: disk full") == Critical
    ensures SeverityOf("CRITICAL: error rate 40%") == Critical
    ensures SeverityOf("critical error") == Critical
  {
    assert TokenAt("CRITICAL: disk full", 0);
    assert TokenAt("CRITICAL: error rate 40%", 0);
    var lower := "critical error";
    forall j | 0 <= j < |Token|
      ensures SameLetterAnyCase(lower[j], Token[j])
    {
      assert lower[j] as int == Token[j] as int + 32;
    }
    assert TokenAt(lower, 0);
  }

  /** Anomalies that never spell the token are only warnings. In both texts
      the only `c` is followed by `y`, so no position can start "CRITICAL". */
  lemma WarningExamples()
    ensures SeverityOf("latency spike") == Warning
    ensures SeverityOf("latency above baseline") == Warning
  {
    var spike := "latency spike";
    forall i | 0 <= i && i + |Token| <= |spike|
      ensures !TokenAt(spike, i)
    {
      if i == 5 {
        assert !SameLetterAnyCase(spike[6], Token[1]);
      } else {
        assert spike[i] in "laten";
        assert !SameLetterAnyCase(spike[i], Token[0]);
      }
    }
    var baseline := "latency above baseline";
    forall i | 0 <= i && i + |Token| <= |baseline|
      ensures !TokenAt(baseline, i)
    {
      if i == 5 {
        assert !SameLetterAnyCase(baseline[6], Token[1]);
      } else {
        assert baseline[i] in "latenyobvsi ";
        assert !SameLetterAnyCase(baseline[i], Token[0]);
      }
    }
  }

  /** A critical anomaly and a plain one give one error line and one warning
      line, in the order the backend sent them. */
  lemma MixedIncidentLog()
    ensures IncidentLog(Given(["CRITICAL: error rate 40%", "latency above baseline"]))
            == Alerts([Alert("CRITICAL: error rate 40%", Critical),
                       Alert("latency above baseline", Warning)])
  {
    ClassifyPair("CRITICAL: error rate 40%", "latency above baseline");
    CriticalExamples();
    WarningExamples();
  }

  /** Two anomalies are classified one by one, in order. */
  lemma ClassifyPair(a: string, b: string)
    ensures IncidentLog(Given([a, b])) == Alerts([Alert(a, SeverityOf(a)), Alert(b, SeverityOf(b))])
  {
  }

  /** An empty anomaly list shows the nominal notice, not an empty list. */
  lemma EmptyIncidentLog()
    ensures IncidentLog(Given([])) == Nominal
    ensures IncidentLog(Absent) == Nominal
  {
  }
}
