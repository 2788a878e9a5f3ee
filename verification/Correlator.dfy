/**
  The correlation loop (`correlate`, watchers/correlator.py, lines 228-383): take
  one finding, buffer it, match, and dispose of every matched pair.  Redis and
  the notifier are seen through the outcomes they give to this process.
*/
module Correlator {
  import opened Schema
  import opened Correlation
  import opened Matching
  import opened CorrelationBuffer
  import opened Subsequences
  import opened Notifier

  datatype Config = Config(window: real, maxSize: nat, minConfidence: real, minSeverity: Severity, texts: Texts)

  /** What the outside world answers while one matched pair is handled. */
  datatype Answer =
    | StoreOrClaimRaises
    | NoToken
    | PublishRaises
    | Notifies(channels: Channels)

  datatype Handling = Handling(alertId: string, clock: real, answer: Answer)

  datatype Branch = LowConfidence | ClaimFailed | Suppressed | PublishFailed | Emitted(delivered: bool)

  /**
    One pair done with: how, whether giving its claim back was tried, whether
    users of some notification channel were told, and the alert made of it.
  */
  datatype Disposed = Disposed(api: Finding, code: Finding, handling: Handling, branch: Branch, releaseTried: bool, told: bool,
                                alert: Option<Alert>)

  /** None: building the alert raises, and nothing in the loop catches it. */
  function Judge(cfg: Config, api: Finding, code: Finding, h: Handling): (r: Option<Disposed>)
    ensures r.Some? ==> r.value.api == api && r.value.code == code && r.value.handling == h
    ensures r.Some? ==> (r.value.branch == LowConfidence <==> ComputeConfidence(api, code) < cfg.minConfidence)
    ensures r.Some? && r.value.branch != LowConfidence ==>
      && (r.value.branch == ClaimFailed <==> h.answer.StoreOrClaimRaises?)
      && (r.value.branch == Suppressed <==> h.answer.NoToken?)
      && (r.value.branch == PublishFailed <==> h.answer == PublishRaises)
      && (r.value.branch.Emitted? <==> h.answer.Notifies?)
    ensures r.Some? ==> (r.value.releaseTried <==> r.value.branch == PublishFailed || r.value.branch == Emitted(false))
  {
    var confidence := ComputeConfidence(api, code);
    if confidence < cfg.minConfidence then Some(Disposed(api, code, h, LowConfidence, false, false, None))
    else
      var advice := LookupRootCause(cfg.texts, api.kind, code.kind);
      var alert := NewCorrelatedAlert(api, code, confidence, advice.rootCause, advice.fix, h.alertId, h.clock);
      if alert.Err? then None
      else match h.answer
        case StoreOrClaimRaises => Some(Disposed(api, code, h, ClaimFailed, false, false, Some(alert.value)))
        case NoToken => Some(Disposed(api, code, h, Suppressed, false, false, Some(alert.value)))
        case PublishRaises => Some(Disposed(api, code, h, PublishFailed, true, false, Some(alert.value)))
        case Notifies(cs) =>
          var worth := ShouldNotify(alert.value.severity, cfg.minSeverity);
          var delivered := Succeeds(worth, cs);
          Some(Disposed(api, code, h, Emitted(delivered), !delivered, Told(worth, cs), Some(alert.value)))
  }

  /** What the alert of a pair says: each field from its side, the confidence of the pair, and the knowledge base's text for it. */
  predicate SaysOf(cfg: Config, api: Finding, code: Finding, h: Handling, a: Alert) {
    && a.id == h.alertId && a.timestamp == h.clock
    && a.apiFindingId == api.id && a.apiError == api.kind && a.codeFindingId == code.id && a.codeIssue == code.kind
    && a.service == api.service && a.system == api.system && a.endpoint == api.endpoint
    && a.file == code.file && a.line == code.line
    && (a.severity == api.severity || a.severity == code.severity)
    && ShouldNotify(a.severity, api.severity) && ShouldNotify(a.severity, code.severity)
    && a.confidence == ComputeConfidence(api, code) >= cfg.minConfidence
    && a.traceId == (if api.traceId in {None, Some("")} then code.traceId else api.traceId)
    && var text := if Known(api.kind, code.kind) then cfg.texts.known(api.kind, code.kind) else cfg.texts.fallback;
       a.rootCause == text.rootCause && a.recommendedFix == text.fix
  }

  /** A pair below the threshold makes no alert; every other makes one that says this. */
  lemma AlertSays(cfg: Config, api: Finding, code: Finding, h: Handling)
    requires Judge(cfg, api, code, h).Some?
    ensures var d := Judge(cfg, api, code, h).value;
      && (d.alert == None <==> d.branch == LowConfidence)
      && (d.alert.Some? ==> SaysOf(cfg, api, code, h, d.alert.value))
  {
  }

  /** Either finding is severe enough to notify about. */
  predicate Notable(cfg: Config, api: Finding, code: Finding) {
    ShouldNotify(api.severity, cfg.minSeverity) || ShouldNotify(code.severity, cfg.minSeverity)
  }

  predicate FateKnown(cfg: Config, d: Disposed) {
    // Given back although somebody was told.
    && (d.releaseTried && d.told <==>
          d.branch.Emitted? && d.handling.answer.Notifies? && Notable(cfg, d.api, d.code)
          && SomebodyGets(d.handling.answer.channels) && InVain(d.handling.answer.channels))
    // Kept although nobody was told.
    && (d.branch.Emitted? && !d.releaseTried && !d.told <==> d.branch.Emitted? && !Notable(cfg, d.api, d.code))
    // Nobody is told of a pair whose claim brought no token or whose alert was not published.
    && (d.told ==> d.branch.Emitted?)
  }

  /**
    A claim that brought its token should be given back exactly when nobody was
    told.  The loop does otherwise in two cases, and only in these: the alert got
    through to a channel in a call in which a channel raised or none acknowledged,
    and the claim is given back; or the alert was not worth a notification, and
    the claim stays.
  */
  lemma ClaimFate(cfg: Config, api: Finding, code: Finding, h: Handling)
    requires Judge(cfg, api, code, h).Some?
    ensures FateKnown(cfg, Judge(cfg, api, code, h).value)
  {
    var d := Judge(cfg, api, code, h).value;
    if d.branch != LowConfidence && h.answer.Notifies? {
      var advice := LookupRootCause(cfg.texts, api.kind, code.kind);
      var alert := NewCorrelatedAlert(api, code, ComputeConfidence(api, code), advice.rootCause, advice.fix, h.alertId, h.clock);
      assert ShouldNotify(alert.value.severity, cfg.minSeverity) <==> Notable(cfg, api, code);
      WhoWasTold(Notable(cfg, api, code), h.answer.channels);
    }
  }

  /**
    Both happen: with Slack acknowledging and Telegram raising, or with Slack's
    answer lost, a confident pair is told and given back if it is notable, and kept
    untold if it is not.
  */
  lemma BothFates(cfg: Config, api: Finding, code: Finding, h: Handling)
    requires Judge(cfg, api, code, h).Some? && Judge(cfg, api, code, h).value.branch != LowConfidence
    requires h.answer in {Notifies(Channels(Some(Accepted), Some(Raises(false)), None)), Notifies(Channels(Some(Failed(true)), None, None))}
    ensures var d := Judge(cfg, api, code, h).value;
      if Notable(cfg, api, code) then d.releaseTried && d.told else !d.releaseTried && !d.told
  {
    ClaimFate(cfg, api, code, h);
  }

  /** One turn of the loop. */
  datatype Event =
    | PopRaises
    | TimesOut
    | Malformed
    | Received(finding: Finding, now: real, handling: nat -> Handling)

  /** The buffers together with an account of everything that ever entered them. */
  datatype Ledger = Ledger(
    api: seq<Finding>, code: seq<Finding>,
    seenApi: seq<Finding>, seenCode: seq<Finding>,
    expiredApi: multiset<Finding>, expiredCode: multiset<Finding>,
    overflowApi: multiset<Finding>, overflowCode: multiset<Finding>,
    disposed: seq<Disposed>,
    crashed: bool)

  const EMPTY := Ledger([], [], [], [], multiset{}, multiset{}, multiset{}, multiset{}, [], false)

  function AddFinding(cfg: Config, s: Ledger, f: Finding): Ledger {
    match f.source
    case Api =>
      var grown := s.api + [f];
      var kept := LastN(grown, cfg.maxSize);
      s.(api := kept, seenApi := s.seenApi + [f], overflowApi := s.overflowApi + multiset(grown[..|grown| - |kept|]))
    case Code =>
      var grown := s.code + [f];
      var kept := LastN(grown, cfg.maxSize);
      s.(code := kept, seenCode := s.seenCode + [f], overflowCode := s.overflowCode + multiset(grown[..|grown| - |kept|]))
    case _ => s
  }

  function Evict(cfg: Config, s: Ledger, now: real): Ledger {
    var api, code := Fresh(s.api, now, cfg.window), Fresh(s.code, now, cfg.window);
    s.(api := api, code := code,
       expiredApi := s.expiredApi + (multiset(s.api) - multiset(api)),
       expiredCode := s.expiredCode + (multiset(s.code) - multiset(code)))
  }

  /** The account once one pair is done with. */
  function AfterPair(t: Ledger, d: Option<Disposed>): Ledger {
    match d
    case None => t.(crashed := true)
    case Some(v) => t.(api := RemoveFirst(t.api, v.api), code := RemoveFirst(t.code, v.code), disposed := t.disposed + [v])
  }

  function DisposeAll(cfg: Config, s: Ledger, matches: seq<Pair>, handling: nat -> Handling, k: nat): Ledger
    decreases |matches|
  {
    if matches == [] then s
    else
      var d := Judge(cfg, matches[0].0, matches[0].1, handling(k));
      if d.None? then AfterPair(s, d) else DisposeAll(cfg, AfterPair(s, d), matches[1..], handling, k + 1)
  }

  /** What the match pass finds after `f` was added. */
  function Pass(cfg: Config, s: Ledger): seq<Pair> {
    Greedy(cfg.window, s.api, s.code, {}, {})
  }

  function Step(cfg: Config, s: Ledger, e: Event): Ledger {
    if s.crashed || !e.Received? || !(e.finding.source.Api? || e.finding.source.Code?) then s
    else
      var s' := Evict(cfg, AddFinding(cfg, s, e.finding), e.now);
      DisposeAll(cfg, s', Pass(cfg, s'), e.handling, 0)
  }

  function Run(cfg: Config, events: seq<Event>): Ledger {
    if events == [] then EMPTY else Step(cfg, Run(cfg, events[..|events| - 1]), events[|events| - 1])
  }

  /** The k-th matched pair; it leaves the buffer on every branch that does not raise. */
  method DisposePair(cfg: Config, buffer: Buffer, matches: seq<Pair>, handling: nat -> Handling, k: nat, ghost t: Ledger)
    returns (d: Option<Disposed>, ghost t': Ledger)
    requires buffer.Valid() && buffer.api == t.api && buffer.code == t.code && k < |matches| && !t.crashed
    modifies buffer
    ensures buffer.Valid() && buffer.api == t'.api && buffer.code == t'.code && t'.crashed == d.None?
    ensures t'.disposed == if d.None? then t.disposed else t.disposed + [d.value]
    ensures DisposeAll(cfg, t, matches[k..], handling, k) ==
      if d.None? then t' else DisposeAll(cfg, t', matches[k + 1..], handling, k + 1)
  {
    var pair := matches[k];
    assert matches[k..][1..] == matches[k + 1..];
    d := Judge(cfg, pair.0, pair.1, handling(k));
    if d.Some? { buffer.RemovePair(pair.0, pair.1); }
    t' := AfterPair(t, d);
  }

  /** The loop over the matches, up to the first error nobody catches. */
  method DisposeMatches(cfg: Config, buffer: Buffer, matches: seq<Pair>, handling: nat -> Handling, ghost s: Ledger)
    returns (disposed: seq<Disposed>, crashed: bool)
    requires buffer.Valid() && buffer.api == s.api && buffer.code == s.code && !s.crashed
    modifies buffer
    ensures buffer.Valid()
    ensures var r := DisposeAll(cfg, s, matches, handling, 0);
      buffer.api == r.api && buffer.code == r.code && s.disposed + disposed == r.disposed && crashed == r.crashed
  {
    disposed, crashed := [], false;
    ghost var t, goal := s, DisposeAll(cfg, s, matches, handling, 0);
    assert matches[0..] == matches;
    var k := 0;
    while k < |matches| && !crashed
      invariant 0 <= k <= |matches|
      invariant buffer.Valid() && buffer.api == t.api && buffer.code == t.code
      invariant s.disposed + disposed == t.disposed && crashed == t.crashed
      invariant goal == if crashed then t else DisposeAll(cfg, t, matches[k..], handling, k)
      decreases |matches| - k, !crashed
    {
      var d;
      d, t := DisposePair(cfg, buffer, matches, handling, k, t);
      if d.None? {
        crashed := true;
      } else {
        assert s.disposed + (disposed + [d.value]) == t.disposed;
        disposed := disposed + [d.value];
        k := k + 1;
      }
    }
  }

  /** One turn of the loop. */
  method Turn(cfg: Config, buffer: Buffer, e: Event, ghost s: Ledger) returns (disposed: seq<Disposed>, crashed: bool)
    requires buffer.Valid() && buffer.window == cfg.window && buffer.maxSize == cfg.maxSize
    requires buffer.api == s.api && buffer.code == s.code && !s.crashed
    modifies buffer
    ensures buffer.Valid()
    ensures var r := Step(cfg, s, e);
      buffer.api == r.api && buffer.code == r.code && s.disposed + disposed == r.disposed && crashed == r.crashed
  {
    disposed, crashed := [], false;
    if e.Received? && (e.finding.source.Api? || e.finding.source.Code?) {
      buffer.Add(e.finding);
      var matches := buffer.FindMatches(e.now);
      disposed, crashed := DisposeMatches(cfg, buffer, matches, e.handling, Evict(cfg, AddFinding(cfg, s, e.finding), e.now));
    }
  }

  lemma {:induction false} CrashIsFinal(cfg: Config, events: seq<Event>, n: nat)
    requires n <= |events| && Run(cfg, events[..n]).crashed
    ensures Run(cfg, events) == Run(cfg, events[..n])
  {
    if n == |events| {
      assert events[..n] == events;
    } else {
      assert events[..|events| - 1][..n] == events[..n];
      CrashIsFinal(cfg, events[..|events| - 1], n);
    }
  }

  /** The loop, over any sequence of things that can happen to it; an uncaught error ends it. */
  method Correlate(cfg: Config, events: seq<Event>) returns (buffer: Buffer, disposed: seq<Disposed>, crashed: bool)
    ensures var r := Run(cfg, events);
      buffer.api == r.api && buffer.code == r.code && disposed == r.disposed && crashed == r.crashed
  {
    buffer := new Buffer(cfg.window, cfg.maxSize);
    disposed, crashed := [], false;
    var n := 0;
    while n < |events| && !crashed
      invariant 0 <= n <= |events|
      invariant fresh(buffer) && buffer.Valid() && buffer.window == cfg.window && buffer.maxSize == cfg.maxSize
      invariant var r := Run(cfg, events[..n]);
        buffer.api == r.api && buffer.code == r.code && disposed == r.disposed && crashed == r.crashed
      decreases |events| - n
    {
      assert events[..n + 1][..n] == events[..n];
      var more;
      more, crashed := Turn(cfg, buffer, events[n], Run(cfg, events[..n]));
      disposed := disposed + more;
      n := n + 1;
    }
    if crashed {
      CrashIsFinal(cfg, events, n);
    } else {
      assert events[..n] == events;
    }
  }
}
