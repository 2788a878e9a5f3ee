/**
  Probing health endpoints (watchers/api_watcher.py, lines 29-30, 75-94 and
  127-282): two tables keyed by URL, against the history of probe outcomes.
*/
module ApiWatcher {
  import opened Schema
  import opened Correlation

  /**
    How one probe ends.  Any other exception of the request propagates before it
    touches the tables; building the finding is taken not to raise.
  */
  datatype Outcome =
    | Response(status: int, slow: bool)
    | Timeout
    | TlsError
    | ClientError
    | Cancelled

  datatype EndpointState = Up | Degraded | Down

  datatype ProbeFinding = ProbeFinding(kind: FindingType, severity: Severity, confidence: real, failures: nat)

  predicate IsSuccess(o: Outcome) {
    o.Response? && 200 <= o.status <= 299
  }

  /** A failure that is counted; a TLS error is not. */
  predicate IsCounted(o: Outcome) {
    o.Timeout? || o.ClientError? || (o.Response? && !IsSuccess(o))
  }

  function ClassifyStatus(status: int): FindingType {
    if status == 401 || status == 403 then AuthFailure
    else if status == 429 then RateLimitHit
    else if 500 <= status <= 599 then Http5xx
    else if 400 <= status <= 499 then Http4xx
    else AnomalousResponse
  }

  // ------------------------------------------------ what the history of one URL says

  /** The outcomes after the last success. */
  function Since(os: seq<Outcome>): seq<Outcome> {
    if os == [] || IsSuccess(os[|os| - 1]) then [] else Since(os[..|os| - 1]) + [os[|os| - 1]]
  }

  function Failures(os: seq<Outcome>): nat {
    if os == [] then 0 else Failures(os[..|os| - 1]) + (if IsCounted(os[|os| - 1]) then 1 else 0)
  }

  /** Enough to change the state: a TLS error, or a counted failure at or past the threshold. */
  predicate Decisive(before: seq<Outcome>, o: Outcome, threshold: nat) {
    o.TlsError? || (IsCounted(o) && Failures(before) + 1 >= threshold)
  }

  /** What the last decisive outcome says; up if there was none. */
  function StateAfter(since: seq<Outcome>, threshold: nat): EndpointState {
    if since == [] then Up
    else
      var before, o := since[..|since| - 1], since[|since| - 1];
      if !Decisive(before, o, threshold) then StateAfter(before, threshold)
      else if o.Response? && o.status < 500 then Degraded
      else Down
  }

  // -------------------------------------------------------------- the probe tables

  /** The outcomes of one URL in a trace over all of them. */
  function Of(trace: seq<(string, Outcome)>, url: string): seq<Outcome> {
    if trace == [] then []
    else
      var before := Of(trace[..|trace| - 1], url);
      if trace[|trace| - 1].0 == url then before + [trace[|trace| - 1].1] else before
  }

  /** The finding for the n-th counted failure. */
  function FailureFinding(o: Outcome, n: nat): ProbeFinding {
    if o.Response? then
      ProbeFinding(ClassifyStatus(o.status), if o.status >= 500 then Critical else High, Min(0.7 + n as real * 0.05, 0.99), n)
    else
      ProbeFinding(EndpointDown, Critical, Min(0.8 + n as real * 0.05, 0.99), n)
  }

  /** What one probe reports, n being the counted failures so far, this one included. */
  function Report(o: Outcome, n: nat, threshold: nat): Option<ProbeFinding> {
    if o.Cancelled? then None
    else if o.TlsError? then Some(ProbeFinding(SslError, High, 0.99, 0))
    else if IsSuccess(o) then (if o.slow then Some(ProbeFinding(HighLatency, Medium, 0.9, 0)) else None)
    else if n < threshold then None
    else Some(FailureFinding(o, n))
  }

  /** What every probe of a trace reported, by the history of its own URL. */
  function Reports(trace: seq<(string, Outcome)>, threshold: nat): (r: seq<Option<ProbeFinding>>)
    ensures |r| == |trace|
  {
    if trace == [] then []
    else
      var url, o := trace[|trace| - 1].0, trace[|trace| - 1].1;
      Reports(trace[..|trace| - 1], threshold) + [Report(o, Failures(Since(Of(trace, url))), threshold)]
  }

  /** A missing count is 0 and a missing state is up. */
  function Count(counts: map<string, nat>, url: string): nat {
    if url in counts then counts[url] else 0
  }

  function State(states: map<string, EndpointState>, url: string): EndpointState {
    if url in states then states[url] else Up
  }

  /** The tables say of this URL what its own outcomes since its last success say. */
  predicate AgreeOn(counts: map<string, nat>, states: map<string, EndpointState>, trace: seq<(string, Outcome)>, threshold: nat,
                    url: string)
  {
    && Count(counts, url) == Failures(Since(Of(trace, url)))
    && State(states, url) == StateAfter(Since(Of(trace, url)), threshold)
  }

  ghost predicate Agree(counts: map<string, nat>, states: map<string, EndpointState>, trace: seq<(string, Outcome)>, threshold: nat) {
    forall url :: AgreeOn(counts, states, trace, threshold, url)
  }

  lemma FailureAgreesOn(counts: map<string, nat>, states: map<string, EndpointState>, trace: seq<(string, Outcome)>, threshold: nat,
                        url: string, o: Outcome, u: string)
    requires AgreeOn(counts, states, trace, threshold, u) && IsCounted(o)
    ensures var n := Count(counts, url) + 1;
      AgreeOn(counts[url := n],
              if n < threshold then states else states[url := if o.Response? && o.status < 500 then Degraded else Down],
              trace + [(url, o)], threshold, u)
  {
    HistorySnoc(trace, url, o, u);
    if u == url { FailureSnoc(Since(Of(trace, url)), o, threshold); }
  }

  lemma FailureAgrees(counts: map<string, nat>, states: map<string, EndpointState>, trace: seq<(string, Outcome)>, threshold: nat,
                      url: string, o: Outcome)
    requires Agree(counts, states, trace, threshold) && IsCounted(o)
    ensures var n := Count(counts, url) + 1;
      Agree(counts[url := n],
            if n < threshold then states else states[url := if o.Response? && o.status < 500 then Degraded else Down],
            trace + [(url, o)], threshold)
  {
    var n := Count(counts, url) + 1;
    var counts', after := counts[url := n], trace + [(url, o)];
    var states' := if n < threshold then states else states[url := if o.Response? && o.status < 500 then Degraded else Down];
    forall u ensures AgreeOn(counts', states', after, threshold, u) {
      assert AgreeOn(counts, states, trace, threshold, u);
      FailureAgreesOn(counts, states, trace, threshold, url, o, u);
    }
  }

  lemma SuccessAgrees(counts: map<string, nat>, states: map<string, EndpointState>, trace: seq<(string, Outcome)>, threshold: nat,
                      url: string, o: Outcome)
    requires Agree(counts, states, trace, threshold) && IsSuccess(o)
    ensures Agree(counts[url := 0], states[url := Up], trace + [(url, o)], threshold)
  {
    var counts', states', after := counts[url := 0], states[url := Up], trace + [(url, o)];
    forall u ensures AgreeOn(counts', states', after, threshold, u) {
      assert AgreeOn(counts, states, trace, threshold, u);
      HistorySnoc(trace, url, o, u);
    }
  }

  lemma TlsAgreesOn(counts: map<string, nat>, states: map<string, EndpointState>, trace: seq<(string, Outcome)>, threshold: nat,
                    url: string, u: string)
    requires AgreeOn(counts, states, trace, threshold, u)
    ensures AgreeOn(counts, states[url := Down], trace + [(url, TlsError)], threshold, u)
  {
    HistorySnoc(trace, url, TlsError, u);
  }

  /** A TLS error marks the endpoint down and is not counted. */
  lemma TlsAgrees(counts: map<string, nat>, states: map<string, EndpointState>, trace: seq<(string, Outcome)>, threshold: nat,
                  url: string)
    requires Agree(counts, states, trace, threshold)
    ensures Agree(counts, states[url := Down], trace + [(url, TlsError)], threshold)
  {
    var states', after := states[url := Down], trace + [(url, TlsError)];
    forall u ensures AgreeOn(counts, states', after, threshold, u) {
      assert AgreeOn(counts, states, trace, threshold, u);
      TlsAgreesOn(counts, states, trace, threshold, url, u);
    }
  }

  lemma CancelAgreesOn(counts: map<string, nat>, states: map<string, EndpointState>, trace: seq<(string, Outcome)>, threshold: nat,
                       url: string, u: string)
    requires AgreeOn(counts, states, trace, threshold, u)
    ensures AgreeOn(counts, states, trace + [(url, Cancelled)], threshold, u)
  {
    HistorySnoc(trace, url, Cancelled, u);
  }

  /** A cancelled probe leaves no mark. */
  lemma CancelAgrees(counts: map<string, nat>, states: map<string, EndpointState>, trace: seq<(string, Outcome)>, threshold: nat,
                     url: string)
    requires Agree(counts, states, trace, threshold)
    ensures Agree(counts, states, trace + [(url, Cancelled)], threshold)
  {
    var after := trace + [(url, Cancelled)];
    forall u ensures AgreeOn(counts, states, after, threshold, u) {
      assert AgreeOn(counts, states, trace, threshold, u);
      CancelAgreesOn(counts, states, trace, threshold, url, u);
    }
  }

  lemma ReportsSnoc(trace: seq<(string, Outcome)>, url: string, o: Outcome, threshold: nat)
    ensures var after := trace + [(url, o)];
      Reports(after, threshold) == Reports(trace, threshold) + [Report(o, Failures(Since(Of(after, url))), threshold)]
  {
    assert (trace + [(url, o)])[..|trace|] == trace;
  }

  class Prober {
    const threshold: nat
    var failureCounts: map<string, nat>
    var endpointStates: map<string, EndpointState>
    /** Every probe so far, and what each of them returned. */
    ghost var trace: seq<(string, Outcome)>
    ghost var returned: seq<Option<ProbeFinding>>

    function CountOf(url: string): nat
      reads this
    {
      Count(failureCounts, url)
    }

    ghost predicate TablesAgree()
      reads this
    {
      Agree(failureCounts, endpointStates, trace, threshold)
    }

    ghost predicate Valid()
      reads this
    {
      TablesAgree() && returned == Reports(trace, threshold)
    }

    constructor (threshold: nat)
      ensures Valid() && trace == [] && this.threshold == threshold
    {
      this.threshold := threshold;
      failureCounts, endpointStates, trace, returned := map[], map[], [], [];
    }

    method RecordFailure(url: string) returns (failures: nat)
      modifies this`failureCounts
      ensures failureCounts == old(failureCounts)[url := failures] && failures == old(CountOf(url)) + 1
    {
      failureCounts := failureCounts[url := CountOf(url) + 1];
      failures := failureCounts[url];
    }

    method RecordSuccess(url: string)
      modifies this`failureCounts, this`endpointStates
      ensures failureCounts == old(failureCounts)[url := 0] && endpointStates == old(endpointStates)[url := Up]
    {
      failureCounts := failureCounts[url := 0];
      endpointStates := endpointStates[url := Up];
    }

    /** A counted failure: the state changes from the threshold on. */
    method HandleFailure(url: string, o: Outcome) returns (found: Option<ProbeFinding>)
      requires TablesAgree() && IsCounted(o)
      modifies this`failureCounts, this`endpointStates, this`trace
      ensures TablesAgree() && trace == old(trace) + [(url, o)]
      ensures found == Report(o, CountOf(url), threshold)
    {
      ghost var counts, states := failureCounts, endpointStates;
      FailureAgrees(counts, states, trace, threshold, url, o);
      trace := trace + [(url, o)];
      var failures := RecordFailure(url);
      assert failures == Count(counts, url) + 1 == CountOf(url);
      if failures < threshold {
        assert Agree(counts[url := failures], states, trace, threshold);
        return None;
      }
      var state := if o.Response? && o.status < 500 then Degraded else Down;
      endpointStates := endpointStates[url := state];
      assert Agree(counts[url := failures], states[url := state], trace, threshold);
      found := Some(FailureFinding(o, failures));
    }

    method HandleSuccess(url: string, o: Outcome) returns (found: Option<ProbeFinding>)
      requires TablesAgree() && IsSuccess(o)
      modifies this`failureCounts, this`endpointStates, this`trace
      ensures TablesAgree() && trace == old(trace) + [(url, o)]
      ensures found == Report(o, CountOf(url), threshold)
    {
      SuccessAgrees(failureCounts, endpointStates, trace, threshold, url, o);
      trace := trace + [(url, o)];
      RecordSuccess(url);
      found := if o.slow then Some(ProbeFinding(HighLatency, Medium, 0.9, 0)) else None;
    }

    method HandleTlsError(url: string) returns (found: Option<ProbeFinding>)
      requires TablesAgree()
      modifies this`endpointStates, this`trace
      ensures TablesAgree() && trace == old(trace) + [(url, TlsError)]
      ensures found == Report(TlsError, CountOf(url), threshold)
    {
      TlsAgrees(failureCounts, endpointStates, trace, threshold, url);
      trace := trace + [(url, TlsError)];
      endpointStates := endpointStates[url := Down];
      found := Some(ProbeFinding(SslError, High, 0.99, 0));
    }

    method HandleCancel(url: string) returns (found: Option<ProbeFinding>)
      requires TablesAgree()
      modifies this`trace
      ensures TablesAgree() && trace == old(trace) + [(url, Cancelled)]
      ensures found == Report(Cancelled, CountOf(url), threshold)
    {
      CancelAgrees(failureCounts, endpointStates, trace, threshold, url);
      trace := trace + [(url, Cancelled)];
      found := None;
    }

    method Probe(url: string, o: Outcome) returns (found: Option<ProbeFinding>)
      requires Valid()
      modifies this
      ensures Valid() && trace == old(trace) + [(url, o)] && returned == old(returned) + [found]
    {
      ReportsSnoc(trace, url, o, threshold);
      match o {
        case Response(status, _) =>
          if 200 <= status <= 299 { found := HandleSuccess(url, o); } else { found := HandleFailure(url, o); }
        case TlsError =>
          found := HandleTlsError(url);
        case Cancelled =>
          found := HandleCancel(url);
        case _ =>
          found := HandleFailure(url, o);
      }
      assert AgreeOn(failureCounts, endpointStates, trace, threshold, url);
      returned := returned + [found];
    }
  }

  lemma FailureSnoc(since: seq<Outcome>, o: Outcome, threshold: nat)
    requires IsCounted(o)
    ensures Failures(since + [o]) == Failures(since) + 1
    ensures StateAfter(since + [o], threshold) ==
      if Failures(since) + 1 < threshold then StateAfter(since, threshold)
      else if o.Response? && o.status < 500 then Degraded else Down
  {
    assert (since + [o])[..|since|] == since;
  }

  /** One more outcome touches only the history of its own URL. */
  lemma HistorySnoc(trace: seq<(string, Outcome)>, url: string, o: Outcome, u: string)
    ensures var since, after := Since(Of(trace, u)), Since(Of(trace + [(url, o)], u));
      && after == (if u != url then since else if IsSuccess(o) then [] else since + [o])
      && (since + [o])[..|since|] == since
  {
    var os := Of(trace, u);
    assert (trace + [(url, o)])[..|trace|] == trace;
    assert (os + [o])[..|os|] == os;
  }

  // -------------------------------------------------------------------- results

  /** The state is up exactly when since the last success there was no TLS error and too few counted failures. */
  lemma {:induction false} UpIff(since: seq<Outcome>, threshold: nat)
    requires threshold >= 1
    ensures StateAfter(since, threshold) == Up <==> TlsError !in since && Failures(since) < threshold
  {
    if since != [] {
      var before, o := since[..|since| - 1], since[|since| - 1];
      UpIff(before, threshold);
      assert since == before + [o];
    }
  }

  /** What the probes of one URL returned for counted failures since its last success. */
  function FailuresReported(trace: seq<(string, Outcome)>, returned: seq<Option<ProbeFinding>>, url: string): seq<ProbeFinding>
    requires |returned| == |trace|
  {
    if trace == [] then []
    else
      var u, o, found := trace[|trace| - 1].0, trace[|trace| - 1].1, returned[|trace| - 1];
      if u == url && IsSuccess(o) then []
      else
        FailuresReported(trace[..|trace| - 1], returned[..|trace| - 1], url)
        + if u == url && IsCounted(o) && found.Some? then [found.value] else []
  }

  lemma FailuresReportedSnoc(trace: seq<(string, Outcome)>, returned: seq<Option<ProbeFinding>>, url: string, o: Outcome,
                             found: Option<ProbeFinding>, u: string)
    requires |returned| == |trace|
    ensures FailuresReported(trace + [(url, o)], returned + [found], u) ==
      if url == u && IsSuccess(o) then []
      else FailuresReported(trace, returned, u) + if url == u && IsCounted(o) && found.Some? then [found.value] else []
  {
    assert (trace + [(url, o)])[..|trace|] == trace && (returned + [found])[..|trace|] == returned;
  }

  predicate Numbers(found: seq<ProbeFinding>, k: nat, threshold: nat) {
    && |found| == (if k >= threshold then k - threshold + 1 else 0)
    && forall j :: 0 <= j < |found| ==> found[j].failures == threshold + j
  }

  lemma NumbersGrow(found: seq<ProbeFinding>, k: nat, o: Outcome, threshold: nat)
    requires threshold >= 1 && IsCounted(o) && Numbers(found, k, threshold)
    ensures var r := Report(o, k + 1, threshold);
      Numbers(found + if r.Some? then [r.value] else [], k + 1, threshold)
  {
  }

  lemma FailuresOfOneMore(trace: seq<(string, Outcome)>, u: string, o: Outcome, url: string)
    ensures Failures(Since(Of(trace + [(u, o)], url))) ==
      if u != url then Failures(Since(Of(trace, url)))
      else if IsSuccess(o) then 0
      else Failures(Since(Of(trace, url))) + if IsCounted(o) then 1 else 0
  {
    HistorySnoc(trace, u, o, url);
  }

  lemma EmittedStep(before: seq<(string, Outcome)>, u: string, o: Outcome, url: string, threshold: nat)
    requires threshold >= 1
    requires Numbers(FailuresReported(before, Reports(before, threshold), url), Failures(Since(Of(before, url))), threshold)
    ensures var trace := before + [(u, o)];
      Numbers(FailuresReported(trace, Reports(trace, threshold), url), Failures(Since(Of(trace, url))), threshold)
  {
    var k := Failures(Since(Of(before, url)));
    var n := Failures(Since(Of(before + [(u, o)], u)));
    FailuresOfOneMore(before, u, o, url);
    FailuresOfOneMore(before, u, o, u);
    ReportsSnoc(before, u, o, threshold);
    FailuresReportedSnoc(before, Reports(before, threshold), u, o, Report(o, n, threshold), url);
    if u == url && IsCounted(o) { NumbersGrow(FailuresReported(before, Reports(before, threshold), url), k, o, threshold); }
  }

  /**
    In every trace over any URLs: k counted failures of a URL since its last
    success had max(0, k - threshold + 1) findings returned for them, numbered
    from the threshold to k without a gap, whatever else came between.
  */
  lemma {:induction false} EmittedCount(trace: seq<(string, Outcome)>, url: string, threshold: nat)
    requires threshold >= 1
    ensures Numbers(FailuresReported(trace, Reports(trace, threshold), url), Failures(Since(Of(trace, url))), threshold)
  {
    if trace != [] {
      var before, last := trace[..|trace| - 1], trace[|trace| - 1];
      assert trace == before + [(last.0, last.1)];
      EmittedCount(before, url, threshold);
      EmittedStep(before, last.0, last.1, url, threshold);
    }
  }

  /** What is reported last and what the tables say fit: critical findings leave the endpoint down, lesser failures degraded. */
  lemma ReportFitsState(since: seq<Outcome>, o: Outcome, threshold: nat)
    requires !IsSuccess(o) && Report(o, Failures(since + [o]), threshold).Some?
    ensures var found, state := Report(o, Failures(since + [o]), threshold).value, StateAfter(since + [o], threshold);
      && IsFraction(found.confidence)
      && (found.severity == Critical <==> state == Down && !o.TlsError?)
      && (found.kind == SslError <==> o.TlsError?)
      && (state == Degraded <==> found.severity == High && !o.TlsError?)
  {
    assert (since + [o])[..|since|] == since;
  }

  /** n percent, at most 99. */
  predicate Percent(x: real, n: int) {
    100.0 * x == (if n <= 99 then n else 99) as real
  }

  /** What the n-th counted failure is reported as, by the status or the lack of one. */
  lemma FailureReportedAs(o: Outcome, n: nat, threshold: nat)
    requires IsCounted(o) && n >= threshold
    ensures Report(o, n, threshold).Some? && Report(o, n, threshold).value.failures == n
    ensures var r := Report(o, n, threshold);
         match o
         case Response(status, _) =>
           && (r.value.kind == AuthFailure <==> status == 401 || status == 403)
           && (r.value.kind == RateLimitHit <==> status == 429)
           && (r.value.kind == Http4xx <==> status / 100 == 4 && status != 401 && status != 403 && status != 429)
           && (r.value.kind == Http5xx <==> status / 100 == 5)
           && (r.value.kind == AnomalousResponse <==> status < 400 || status > 599)
           && r.value.severity == (if status < 500 then High else Critical)
           && Percent(r.value.confidence, 70 + 5 * n)
         case _ => r.value.kind == EndpointDown && r.value.severity == Critical && Percent(r.value.confidence, 80 + 5 * n)
  {
  }

  /** What else is reported: slow successes and TLS errors, whatever was counted; below the threshold no failure is. */
  lemma OtherwiseReportedAs(o: Outcome, n: nat, threshold: nat)
    requires !IsCounted(o) || n < threshold
    ensures Report(o, n, threshold) ==
      match o
      case Response(status, slow) =>
        if status / 100 == 2 && slow then Some(ProbeFinding(HighLatency, Medium, 0.9, 0)) else None
      case TlsError => Some(ProbeFinding(SslError, High, 0.99, 0))
      case _ => None
  {
  }

  /** The code issues a finding of this probe can be blamed on. */
  predicate Blames(o: Outcome, issue: FindingType) {
    match o
    case Response(status, slow) =>
      if 200 <= status <= 299 then slow && issue == SqlInjectionRisk
      else if status in {401, 403} then issue in {MissingAuthCheck, HardcodedSecret}
      else if status == 429 then issue == MissingAuthCheck
      else
        && 500 <= status <= 599
        && issue in {NullDereference, SqlInjectionRisk, ReentrancyRisk, EvalUsage, HardcodedSecret, SsrfRisk}
    case Timeout => issue == NullDereference
    case ClientError => issue == NullDereference
    case _ => false
  }

  /**
    From the probe to the correlator: a finding made from a probe's report is in
    scope of a finding of the code watcher, which names no endpoint, exactly when
    service and window agree and the outcome can be blamed on that issue.  So
    other 4xx answers, answers outside 400 to 599 and TLS errors never are.
  */
  lemma ProbeMeetsCode(o: Outcome, n: nat, threshold: nat, window: real, api: Finding, code: Finding)
    requires Report(o, n, threshold).Some? && api.kind == Report(o, n, threshold).value.kind
    requires api.source.Api? && code.source.Code? && !Truthy(code.endpoint)
    ensures ShareScope(window, api, code) <==>
      && api.service == code.service && Abs(api.timestamp - code.timestamp) <= window
      && Blames(o, code.kind)
  {
  }
}
