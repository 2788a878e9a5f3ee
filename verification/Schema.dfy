/**
  Findings and alerts (watchers/schema.py).

  Strings are sequences of Unicode scalar values.  Enumerated fields are
  modelled after parsing; ids are opaque; times and confidences are exact reals.
*/
module Schema {
  datatype Option<+T> = None | Some(value: T)
  datatype Result<+T, +E> = Ok(value: T) | Err(error: E)

  datatype Severity = Low | Medium | High | Critical

  datatype Source = Api | Code | CorrelatorSource | Manual | Scheduler

  datatype FindingType =
    | Http5xx | Http4xx | HighLatency | EndpointDown | SslError | AuthFailure | RateLimitHit | AnomalousResponse
    | HardcodedSecret | SqlInjectionRisk | NullDereference | ReentrancyRisk | EvalUsage | WeakCrypto | SsrfRisk
    | MissingAuthCheck | MassAssignment | OpenRedirect | FileModified | SuspiciousPattern
    | CorrelatedFailure | Unknown

  datatype Finding = Finding(
    id: string,
    source: Source,
    kind: FindingType,
    severity: Severity,
    service: string,
    system: string,
    endpoint: Option<string>,
    file: Option<string>,
    line: Option<int>,
    symbol: Option<string>,
    traceId: Option<string>,
    confidence: real,
    title: string,
    description: string,
    timestamp: real)

  datatype Alert = Alert(
    id: string,
    apiFindingId: string,
    codeFindingId: string,
    apiError: FindingType,
    codeIssue: FindingType,
    service: string,
    system: string,
    endpoint: Option<string>,
    file: Option<string>,
    line: Option<int>,
    severity: Severity,
    confidence: real,
    rootCause: string,
    recommendedFix: string,
    traceId: Option<string>,
    timestamp: real)

  function Rank(s: Severity): (r: nat)
  {
    match s
    case Low => 1
    case Medium => 2
    case High => 3
    case Critical => 4
  }

  // --------------------------------------------------------------- validation

  /** What str.strip() removes. */
  predicate IsSpace(c: char) {
    var n := c as int;
    || 0x09 <= n <= 0x0D || 0x1C <= n <= 0x20 || n == 0x85 || n == 0xA0 || n == 0x1680
    || 0x2000 <= n <= 0x200A || n == 0x2028 || n == 0x2029 || n == 0x202F || n == 0x205F || n == 0x3000
  }

  predicate IsBlank(s: string) {
    forall i :: 0 <= i < |s| ==> IsSpace(s[i])
  }

  /** Mandatory text: not blank and not too long. */
  predicate IsText(s: string, maximum: nat) {
    !IsBlank(s) && |s| <= maximum
  }

  predicate AtMost(s: Option<string>, maximum: nat) {
    s.Some? ==> |s.value| <= maximum
  }

  predicate IsFraction(x: real) {
    0.0 <= x <= 1.0
  }

  predicate ValidFinding(f: Finding) {
    && IsText(f.service, 200) && IsText(f.system, 200) && IsText(f.title, 500) && IsText(f.description, 4000)
    && AtMost(f.endpoint, 2048) && AtMost(f.file, 4096) && AtMost(f.symbol, 500) && AtMost(f.traceId, 256)
    && (f.line.Some? ==> f.line.value >= 1)
    && IsFraction(f.confidence)
    && f.timestamp > 0.0
  }

  datatype AlertField = ServiceField | SystemField | RootCauseField | FixField | EndpointField | FileField
                      | TraceIdField | LineField | ConfidenceField | TimestampField

  /** Stricter than a finding's optional text: an alert refuses the empty string. */
  predicate Filled(s: Option<string>, maximum: nat) {
    s.Some? ==> 1 <= |s.value| <= maximum
  }

  /** The first field CorrelatedAlert.__post_init__ objects to. */
  function CheckAlert(a: Alert): Result<Alert, AlertField> {
    if !IsText(a.service, 200) then Err(ServiceField)
    else if !IsText(a.system, 200) then Err(SystemField)
    else if !IsText(a.rootCause, 4000) then Err(RootCauseField)
    else if !IsText(a.recommendedFix, 4000) then Err(FixField)
    else if !Filled(a.endpoint, 2048) then Err(EndpointField)
    else if !Filled(a.file, 4096) then Err(FileField)
    else if !Filled(a.traceId, 256) then Err(TraceIdField)
    else if a.line.Some? && a.line.value < 1 then Err(LineField)
    else if !IsFraction(a.confidence) then Err(ConfidenceField)
    else if a.timestamp <= 0.0 then Err(TimestampField)
    else Ok(a)
  }

  // ----------------------------------------------------------- building alerts

  predicate Truthy(s: Option<string>) {
    s.Some? && s.value != ""
  }

  /** `a or b` on optional strings. */
  function Either(a: Option<string>, b: Option<string>): Option<string> {
    if Truthy(a) then a else b
  }

  function SeverityOfRank(r: nat): Severity {
    if r >= 4 then Critical else if r >= 3 then High else if r >= 2 then Medium else Low
  }

  function Min(a: real, b: real): real {
    if a <= b then a else b
  }

  function Max(a: nat, b: nat): nat {
    if a >= b then a else b
  }

  /** The pair carries an empty string where an alert needs text or null. */
  predicate HasEmptyText(api: Finding, code: Finding) {
    || api.endpoint == Some("")
    || code.file == Some("")
    || (code.traceId == Some("") && !Truthy(api.traceId))
  }

  /**
    The alert for a matched pair.  Two valid findings are refused exactly when
    one of three optional texts is the empty string, which a finding may carry
    and an alert may not; otherwise nothing of the pair is mixed up and the
    severity is the larger of the two.
  */
  function NewCorrelatedAlert(api: Finding, code: Finding, confidence: real, rootCause: string, fix: string,
                              id: string, now: real): (r: Result<Alert, AlertField>)
    ensures ValidFinding(api) && ValidFinding(code) && IsFraction(confidence) && now > 0.0
            && IsText(rootCause, 4000) && IsText(fix, 4000) ==>
      && (r.Err? <==> HasEmptyText(api, code))
      && (r.Err? ==> r.error == (if api.endpoint == Some("") then EndpointField
                                 else if code.file == Some("") then FileField else TraceIdField))
    ensures r.Ok? ==>
      && r.value.severity in {api.severity, code.severity}
      && Rank(r.value.severity) >= Rank(api.severity) && Rank(r.value.severity) >= Rank(code.severity)
      && r.value.id == id && r.value.apiFindingId == api.id && r.value.codeFindingId == code.id
      && r.value.apiError == api.kind && r.value.codeIssue == code.kind
      && r.value.service == api.service && r.value.system == api.system && r.value.endpoint == api.endpoint
      && r.value.file == code.file && r.value.line == code.line
      && r.value.confidence == confidence && r.value.rootCause == rootCause && r.value.recommendedFix == fix
      && r.value.timestamp == now
      && (Truthy(api.traceId) ==> r.value.traceId == api.traceId)
      && (!Truthy(api.traceId) ==> r.value.traceId == code.traceId)
  {
    CheckAlert(Alert(
      id := id,
      apiFindingId := api.id,
      codeFindingId := code.id,
      apiError := api.kind,
      codeIssue := code.kind,
      service := api.service,
      system := api.system,
      endpoint := api.endpoint,
      file := code.file,
      line := code.line,
      severity := SeverityOfRank(Max(Rank(api.severity), Rank(code.severity))),
      confidence := confidence,
      rootCause := rootCause,
      recommendedFix := fix,
      traceId := Either(api.traceId, code.traceId),
      timestamp := now))
  }

}
