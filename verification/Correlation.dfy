/**
  When an API finding and a code finding belong together, and how sure the
  correlator is (watchers/correlator.py, lines 37-154).  Confidence is computed
  in exact reals; Python's round() is half-to-even.
*/
module Correlation {
  import opened Schema

  // ----------------------------------------------------------- knowledge base

  /** The keys of the knowledge base. */
  predicate Known(api: FindingType, code: FindingType) {
    match api
    case Http5xx => code in {NullDereference, SqlInjectionRisk, ReentrancyRisk, EvalUsage, HardcodedSecret, SsrfRisk}
    case AuthFailure => code in {MissingAuthCheck, HardcodedSecret}
    case EndpointDown => code == NullDereference
    case HighLatency => code == SqlInjectionRisk
    case RateLimitHit => code == MissingAuthCheck
    case _ => false
  }

  datatype Advice = Advice(rootCause: string, fix: string)

  /** The knowledge-base texts, whatever they say. */
  datatype Texts = Texts(known: (FindingType, FindingType) -> Advice, fallback: Advice)

  predicate IsAdvice(a: Advice) {
    IsText(a.rootCause, 4000) && IsText(a.fix, 4000)
  }

  ghost predicate ValidTexts(t: Texts) {
    IsAdvice(t.fallback) && forall a, c :: IsAdvice(t.known(a, c))
  }

  function LookupRootCause(t: Texts, api: FindingType, code: FindingType): Advice {
    if Known(api, code) then t.known(api, code) else t.fallback
  }

  // -------------------------------------------------------------------- scope

  function Abs(x: real): real {
    if x < 0.0 then -x else x
  }

  predicate ShareScope(window: real, api: Finding, code: Finding) {
    && api.source.Api? && code.source.Code?
    && api.service == code.service
    && Abs(api.timestamp - code.timestamp) <= window
    && if Truthy(api.endpoint) && Truthy(code.endpoint) then api.endpoint == code.endpoint
       else Known(api.kind, code.kind)
  }

  // --------------------------------------------------------------- confidence

  predicate SameTrace(api: Finding, code: Finding) {
    Truthy(api.traceId) && Truthy(code.traceId) && api.traceId == code.traceId
  }

  predicate SameEndpoint(api: Finding, code: Finding) {
    Truthy(api.endpoint) && Truthy(code.endpoint) && api.endpoint == code.endpoint
  }

  predicate BothSevere(api: Finding, code: Finding) {
    Rank(api.severity) >= 3 && Rank(code.severity) >= 3
  }

  /** The score before weighting. */
  function Score(api: Finding, code: Finding): real {
    var dt := Abs(api.timestamp - code.timestamp);
    0.5
    + (if SameTrace(api, code) then 0.35 else 0.0)
    + (if SameEndpoint(api, code) then 0.10 else 0.0)
    + (if dt <= 60.0 then 0.10 else if dt <= 300.0 then 0.05 else 0.0)
    + (if BothSevere(api, code) then 0.08 else 0.0)
    + (if Known(api.kind, code.kind) then 0.12 else 0.0)
  }

  /** round(x) to an integer, ties to even. */
  function RoundHalfEven(x: real): (r: int)
    ensures r as real - 0.5 <= x <= r as real + 0.5
    ensures x == r as real + 0.5 || x == r as real - 0.5 ==> r % 2 == 0
  {
    var f := x.Floor;
    if x - f as real < 0.5 then f
    else if x - f as real > 0.5 then f + 1
    else if f % 2 == 0 then f else f + 1
  }

  function Round3(x: real): real {
    RoundHalfEven(x * 1000.0) as real / 1000.0
  }

  function Average(api: Finding, code: Finding): real {
    api.confidence * 0.5 + code.confidence * 0.5
  }

  function Weigh(score: real, weight: real): real {
    Min(Round3(score * weight), 0.99)
  }

  function ComputeConfidence(api: Finding, code: Finding): real {
    Weigh(Score(api, code), Average(api, code))
  }

  lemma RoundMonotone(x: real, y: real)
    requires x <= y
    ensures Round3(x) <= Round3(y)
  {
    HalfEvenMonotone(x * 1000.0, y * 1000.0);
  }

  lemma HalfEvenMonotone(x: real, y: real)
    requires x <= y
    ensures RoundHalfEven(x) <= RoundHalfEven(y)
  {
    assert x.Floor <= y.Floor;
  }

  lemma RoundOfThousandths(n: int)
    ensures Round3(n as real / 1000.0) == n as real / 1000.0
  {
    var x := n as real / 1000.0;
    assert x * 1000.0 == n as real;
    assert (n as real).Floor == n;
  }

  lemma WeighMonotone(score: real, v: real, w: real)
    requires score >= 0.0 && v <= w
    ensures Weigh(score, v) <= Weigh(score, w)
  {
    assert score * v <= score * w;
    RoundMonotone(score * v, score * w);
  }

  lemma WeighNothing(score: real)
    ensures Weigh(score, 0.0) == 0.0
  {
    assert score * 0.0 == 0.0;
    RoundOfThousandths(0);
  }

  /** Confidence is a probability that never reaches 1, whatever the findings. */
  lemma ConfidenceBounded(api: Finding, code: Finding)
    requires ValidFinding(api) && ValidFinding(code)
    ensures 0.0 <= ComputeConfidence(api, code) <= 0.99
  {
    WeighNothing(Score(api, code));
    WeighMonotone(Score(api, code), 0.0, Average(api, code));
  }

  /** ... and it never drops when either input becomes more confident. */
  lemma ConfidenceMonotone(api: Finding, code: Finding, api': Finding, code': Finding)
    requires api' == api.(confidence := api'.confidence) && code' == code.(confidence := code'.confidence)
    requires api.confidence <= api'.confidence && code.confidence <= code'.confidence
    ensures ComputeConfidence(api, code) <= ComputeConfidence(api', code')
  {
    assert Score(api, code) == Score(api', code');
    WeighMonotone(Score(api, code), Average(api, code), Average(api', code'));
  }

  /**
    A pair admitted by the scope test scores from 0.60 to 1.25 before weighting:
    the least with nothing but a shared route, the most with every signal.
  */
  lemma ScopeScores(window: real, api: Finding, code: Finding)
    requires ShareScope(window, api, code)
    ensures var score, dt := Score(api, code), Abs(api.timestamp - code.timestamp);
      && 0.6 <= score <= 1.25
      && (score == 0.6 <==> SameEndpoint(api, code) && !SameTrace(api, code) && dt > 300.0
                            && !BothSevere(api, code) && !Known(api.kind, code.kind))
      && (score == 1.25 <==> SameEndpoint(api, code) && SameTrace(api, code) && dt <= 60.0
                             && BothSevere(api, code) && Known(api.kind, code.kind))
      && (SameTrace(api, code) ==> score >= 0.95)
  {
  }

  /** The eleven entries of the knowledge base. */
  lemma KnownPairings(api: FindingType, code: FindingType)
    ensures Known(api, code) <==> (api, code) in {
      (Http5xx, NullDereference), (Http5xx, SqlInjectionRisk), (Http5xx, ReentrancyRisk), (Http5xx, EvalUsage),
      (Http5xx, HardcodedSecret), (Http5xx, SsrfRisk), (AuthFailure, MissingAuthCheck), (AuthFailure, HardcodedSecret),
      (EndpointDown, NullDereference), (HighLatency, SqlInjectionRisk), (RateLimitHit, MissingAuthCheck)}
  {
  }

  /** Only the sum of the two confidences counts, so they can be swapped. */
  lemma ConfidenceOfSum(api: Finding, code: Finding, api': Finding, code': Finding)
    requires api' == api.(confidence := api'.confidence) && code' == code.(confidence := code'.confidence)
    requires api.confidence + code.confidence == api'.confidence + code'.confidence
    ensures ComputeConfidence(api, code) == ComputeConfidence(api', code')
  {
    assert Average(api, code) == (api.confidence + code.confidence) * 0.5;
    assert Average(api', code') == (api'.confidence + code'.confidence) * 0.5;
    assert Score(api, code) == Score(api', code');
  }

  /** n thousandths are nearest to x, and n is even if two are equally near. */
  predicate NearestThousandth(n: int, x: real) {
    && n as real - 0.5 <= 1000.0 * x <= n as real + 0.5
    && (1000.0 * x == n as real - 0.5 || 1000.0 * x == n as real + 0.5 ==> n % 2 == 0)
  }

  lemma RoundedNearest(x: real, n: int)
    requires NearestThousandth(n, x)
    ensures Round3(x) == n as real / 1000.0
  {
    var m := RoundHalfEven(x * 1000.0);
    assert m == n;
  }

  /**
    For two equally confident findings: the thousandth nearest to the score times
    that confidence, ties to even, but no more than 0.99.
  */
  lemma ConfidenceOfEquals(api: Finding, code: Finding, n: int)
    requires api.confidence == code.confidence && NearestThousandth(n, Score(api, code) * code.confidence)
    ensures n <= 990 ==> ComputeConfidence(api, code) == n as real / 1000.0
    ensures n > 990 ==> ComputeConfidence(api, code) == 0.99
  {
    WeighNearest(Score(api, code), code.confidence, n);
    AverageOfEquals(api, code);
  }

  lemma AverageOfEquals(api: Finding, code: Finding)
    requires api.confidence == code.confidence
    ensures Average(api, code) == code.confidence
  {
  }

  lemma WeighNearest(score: real, weight: real, n: int)
    requires NearestThousandth(n, score * weight)
    ensures Weigh(score, weight) == if n <= 990 then n as real / 1000.0 else 0.99
  {
    RoundedNearest(score * weight, n);
    CapInThousandths(n);
  }

  lemma CapInThousandths(n: int)
    ensures Min(n as real / 1000.0, 0.99) == if n <= 990 then n as real / 1000.0 else 0.99
  {
  }

  // The signals, in terms of the findings' own fields.

  ghost predicate TraceShared(api: Finding, code: Finding) {
    exists t: string :: t != "" && api.traceId == Some(t) && code.traceId == Some(t)
  }

  ghost predicate RouteShared(api: Finding, code: Finding) {
    exists e: string :: e != "" && api.endpoint == Some(e) && code.endpoint == Some(e)
  }

  predicate WithinSeconds(api: Finding, code: Finding, seconds: real) {
    -seconds <= api.timestamp - code.timestamp <= seconds
  }

  predicate Grave(s: Severity) {
    s == High || s == Critical
  }

  /** The pair has this signal: trace, route, minute, five minutes, severity, known pairing. */
  ghost predicate Signal(api: Finding, code: Finding, k: nat) {
    match k
    case 0 => TraceShared(api, code)
    case 1 => RouteShared(api, code)
    case 2 => WithinSeconds(api, code, 60.0)
    case 3 => WithinSeconds(api, code, 300.0)
    case 4 => Grave(api.severity) && Grave(code.severity)
    case _ => Known(api.kind, code.kind)
  }

  /** What it is worth, in hundredths. */
  const WORTH: seq<int> := [35, 10, 5, 5, 8, 12]

  /** A signal one pair has and another lacks, all others being alike, is worth just that; a pair without any scores 0.5. */
  lemma SignalWorth(api: Finding, code: Finding, api': Finding, code': Finding, k: nat)
    requires k < 6 && Signal(api, code, k) && !Signal(api', code', k)
    requires forall j: nat :: j < 6 && j != k ==> Signal(api, code, j) == Signal(api', code', j)
    ensures Score(api, code) - Score(api', code') == WORTH[k] as real / 100.0
  {
    SignalsMean(api, code);
    SignalsMean(api', code');
    assert k == 0 || k == 1 || k == 2 || k == 3 || k == 4 || k == 5;
  }

  lemma NoSignal(api: Finding, code: Finding)
    requires forall j: nat :: j < 6 ==> !Signal(api, code, j)
    ensures Score(api, code) == 0.5
  {
    SignalsMean(api, code);
  }

  lemma SignalsMean(api: Finding, code: Finding)
    ensures SameTrace(api, code) == Signal(api, code, 0) && SameEndpoint(api, code) == Signal(api, code, 1)
    ensures (Abs(api.timestamp - code.timestamp) <= 60.0) == Signal(api, code, 2)
    ensures (Abs(api.timestamp - code.timestamp) <= 300.0) == Signal(api, code, 3)
    ensures BothSevere(api, code) == Signal(api, code, 4) && Known(api.kind, code.kind) == Signal(api, code, 5)
  {
    if SameTrace(api, code) { assert TraceShared(api, code); }
    if SameEndpoint(api, code) { assert RouteShared(api, code); }
  }

  /** Neither endpoint is missing or empty. */
  predicate BothRoutes(api: Finding, code: Finding) {
    api.endpoint !in {None, Some("")} && code.endpoint !in {None, Some("")}
  }

  /** The scope test in the findings' own fields. */
  lemma ScopeMeans(window: real, api: Finding, code: Finding)
    ensures ShareScope(window, api, code) <==>
      && api.source == Source.Api && code.source == Source.Code && api.service == code.service
      && WithinSeconds(api, code, window)
      && (if BothRoutes(api, code) then api.endpoint == code.endpoint else Known(api.kind, code.kind))
  {
  }

  /** The surest pairs reach the cap: fully confident, one trace, one endpoint, within a minute. */
  lemma SurestPairs(window: real, api: Finding, code: Finding)
    requires ShareScope(window, api, code) && api.confidence == code.confidence == 1.0
    requires SameTrace(api, code) && SameEndpoint(api, code) && Abs(api.timestamp - code.timestamp) <= 60.0
    ensures ComputeConfidence(api, code) == 0.99
  {
    assert Score(api, code) * 1.0 == Score(api, code) >= 1.05;
    RoundOfThousandths(1050);
    RoundMonotone(1.05, Score(api, code));
  }

  /** There are such pairs, and nothing else is wrong with them. */
  lemma SurestPair(window: real) returns (api: Finding, code: Finding)
    requires window >= 0.0
    ensures ValidFinding(api) && ValidFinding(code) && ShareScope(window, api, code) && !HasEmptyText(api, code)
    ensures api.timestamp == code.timestamp == 1.0 && ComputeConfidence(api, code) == 0.99
  {
    assert !IsSpace("s"[0]);
    api := Finding("f", Source.Api, Http5xx, High, "s", "s", Some("/e"), None, None, None, Some("t"), 1.0, "s", "s", 1.0);
    code := api.(source := Source.Code, kind := NullDereference);
    SurestPairs(window, api, code);
  }

  /** Two fully confident findings in scope pass any threshold up to the default. */
  lemma DefaultThresholdPasses(window: real, api: Finding, code: Finding, minConfidence: real)
    requires ShareScope(window, api, code) && api.confidence == code.confidence == 1.0 && minConfidence <= 0.6
    ensures ComputeConfidence(api, code) >= minConfidence
  {
    ScopeScores(window, api, code);
    RoundOfThousandths(600);
    RoundMonotone(0.6, Score(api, code));
    assert Score(api, code) * 1.0 == Score(api, code);
  }

  /** A threshold can be met by some pair in scope exactly when it is at most the cap. */
  lemma ThresholdLimits(window: real, minConfidence: real)
    requires window >= 0.0
    ensures (exists api, code :: ValidFinding(api) && ValidFinding(code) && ShareScope(window, api, code)
                                 && ComputeConfidence(api, code) >= minConfidence)
            <==> minConfidence <= 0.99
  {
    var a, c := SurestPair(window);
    forall api, code | ValidFinding(api) && ValidFinding(code) && ShareScope(window, api, code)
                       && ComputeConfidence(api, code) >= minConfidence
      ensures minConfidence <= 0.99
    {
      ConfidenceBounded(api, code);
    }
  }
}
