/**
  Which runs kill the correlation loop: an uncaught error ends it when a
  confident match carries an empty text (watchers/correlator.py, lines 304-311).
*/
module Crashes {
  import opened Schema
  import opened Correlation
  import opened Matching
  import opened Correlator
  import opened CorrelatorRuns
  import opened DisposedPairs
  import opened FileScan
  import opened Subsequences

  lemma RaisingNeedsConfidence(cfg: Config, a: Finding, c: Finding, h: Handling)
    requires ValidFinding(a) && ValidFinding(c) && Judge(cfg, a, c, h).None?
    ensures cfg.minConfidence <= 0.99
  {
    ConfidenceBounded(a, c);
  }

  lemma TurnCrashNeedsConfidence(cfg: Config, before: seq<Event>, e: Event)
    requires AllValid(before) && Relevant(e) && ValidFinding(e.finding)
    requires !Run(cfg, before).crashed && Step(cfg, Run(cfg, before), e).crashed
    ensures cfg.minConfidence <= 0.99
  {
    var s := Run(cfg, before);
    var m := NewestMatch(cfg, s, e.finding, e.now);
    RunKeepsInv(cfg, before);
    TurnOutcome(cfg, s, e);
    OutcomeCrash(cfg, BeforePass(cfg, s, e.finding, e.now), m, e.handling);
    BuffersValid(cfg, before);
    NewestMatchFrom(cfg, s, e.finding, e.now);
    assert m[0] in m;
    RaisingNeedsConfidence(cfg, m[0].0, m[0].1, e.handling(0));
  }

  /** A crash takes a pair that passes the threshold. */
  lemma {:induction false} CrashNeedsConfidence(cfg: Config, events: seq<Event>)
    requires AllValid(events) && Run(cfg, events).crashed
    ensures cfg.minConfidence <= 0.99
  {
    var before, e := events[..|events| - 1], events[|events| - 1];
    assert AllValid(before);
    if Run(cfg, before).crashed {
      CrashNeedsConfidence(cfg, before);
    } else {
      TurnCrashNeedsConfidence(cfg, before, e);
    }
  }

  /** Two valid findings in scope, as sure as can be, one of them with an empty endpoint. */
  lemma EmptyEndpointPair(window: real) returns (api: Finding, code: Finding)
    requires window >= 0.0
    ensures ValidFinding(api) && ValidFinding(code) && ShareScope(window, api, code) && HasEmptyText(api, code)
    ensures api.timestamp == code.timestamp == 1.0 && ComputeConfidence(api, code) == 0.99
  {
    assert !IsSpace("s"[0]);
    api := Finding("f", Source.Api, Http5xx, High, "s", "s", Some(""), None, None, None, Some("t"), 1.0, "s", "s", 1.0);
    code := api.(source := Source.Code, kind := NullDereference, file := Some("f"));
    assert Score(api, code) * 1.0 == Score(api, code) == 1.15;
    RoundOfThousandths(1150);
  }

  lemma SecondCrashes(cfg: Config, s: Ledger, a: Finding, c: Finding)
    requires cfg.maxSize >= 1 && cfg.window > 0.0 && ValidTexts(cfg.texts)
    requires RunInv(cfg, s) && s.api == [a] && s.code == [] && !s.crashed
    requires ValidFinding(a) && ValidFinding(c) && ShareScope(cfg.window, a, c) && HasEmptyText(a, c)
    requires a.timestamp == c.timestamp == 1.0 && ComputeConfidence(a, c) >= cfg.minConfidence
    ensures Step(cfg, s, Reading(c)).crashed
  {
    var e := Reading(c);
    SecondMatches(cfg, s, a, c);
    TurnOutcome(cfg, s, e);
    JudgeRaisesIff(cfg, a, c, e.handling(0));
    OutcomeCrash(cfg, BeforePass(cfg, s, c, 1.0), [(a, c)], e.handling);
  }

  lemma PairCrashes(cfg: Config, a: Finding, c: Finding)
    requires cfg.maxSize >= 1 && cfg.window > 0.0 && ValidTexts(cfg.texts)
    requires ValidFinding(a) && ValidFinding(c) && ShareScope(cfg.window, a, c) && HasEmptyText(a, c)
    requires a.timestamp == c.timestamp == 1.0 && ComputeConfidence(a, c) >= cfg.minConfidence
    ensures Run(cfg, [Reading(a), Reading(c)]).crashed
  {
    RunOfTwo(cfg, Reading(a), Reading(c));
    FirstBuffered(cfg, a, Run(cfg, [Reading(a)]));
    SecondCrashes(cfg, Run(cfg, [Reading(a)]), a, c);
  }

  lemma CrashingRun(cfg: Config) returns (events: seq<Event>)
    requires cfg.maxSize >= 1 && cfg.window > 0.0 && ValidTexts(cfg.texts) && cfg.minConfidence <= 0.99
    ensures AllValid(events) && Run(cfg, events).crashed
  {
    var a, c := EmptyEndpointPair(cfg.window);
    PairCrashes(cfg, a, c);
    events := [Reading(a), Reading(c)];
    assert AllValid(events);
  }

  /** Some run of valid findings kills the loop exactly when the threshold can be met at all. */
  lemma SomeRunCrashesIff(cfg: Config)
    requires cfg.maxSize >= 1 && cfg.window > 0.0 && ValidTexts(cfg.texts)
    ensures (exists events :: AllValid(events) && Run(cfg, events).crashed) <==> cfg.minConfidence <= 0.99
  {
    if cfg.minConfidence <= 0.99 {
      var events := CrashingRun(cfg);
    }
    forall events | AllValid(events) && Run(cfg, events).crashed ensures cfg.minConfidence <= 0.99 {
      CrashNeedsConfidence(cfg, events);
    }
  }

  // ----------------------------------------------- the two watchers do not kill it

  /** One of the code watcher's findings, for a file with a path. */
  ghost predicate FromCodeWatcher(f: Finding) {
    exists site, path ::
      && path != ""
      && f == CodeFinding(site, f.kind, f.severity, f.confidence, f.service, f.system, path, f.title, f.description, f.id, f.timestamp)
  }

  /** API findings name a route, and code findings are the code watcher's. */
  ghost predicate Watched(f: Finding) {
    && (f.source.Api? ==> Truthy(f.endpoint))
    && (f.source.Code? ==> FromCodeWatcher(f))
  }

  lemma WatchedPairHasTexts(window: real, api: Finding, code: Finding)
    requires Watched(api) && Watched(code) && ShareScope(window, api, code)
    ensures !HasEmptyText(api, code)
  {
  }

  ghost predicate AllWatched(events: seq<Event>) {
    forall i :: 0 <= i < |events| && events[i].Received? ==> Watched(events[i].finding) && events[i].handling(0).clock > 0.0
  }

  lemma {:induction false} ConsumedWatched(events: seq<Event>, source: Source)
    requires AllWatched(events)
    ensures forall f :: f in Consumed(events, source) ==> Watched(f) && f.source == source
  {
    if events != [] { ConsumedWatched(events[..|events| - 1], source); }
  }

  lemma BuffersWatched(cfg: Config, events: seq<Event>)
    requires AllWatched(events) && !Run(cfg, events).crashed
    ensures forall f :: f in Run(cfg, events).api ==> Watched(f) && f.source.Api?
    ensures forall f :: f in Run(cfg, events).code ==> Watched(f) && f.source.Code?
  {
    SeenIsConsumed(cfg, events);
    RunKeepsInv(cfg, events);
    ConsumedWatched(events, Source.Api);
    ConsumedWatched(events, Source.Code);
    Members(Run(cfg, events).api, Run(cfg, events).seenApi);
    Members(Run(cfg, events).code, Run(cfg, events).seenCode);
  }

  lemma MatchHasTexts(cfg: Config, before: seq<Event>, e: Event)
    requires AllWatched(before) && Relevant(e) && Watched(e.finding) && !Run(cfg, before).crashed
    ensures var m := NewestMatch(cfg, Run(cfg, before), e.finding, e.now); m != [] ==> !HasEmptyText(m[0].0, m[0].1)
  {
    var s := Run(cfg, before);
    var m := NewestMatch(cfg, s, e.finding, e.now);
    if m != [] {
      BuffersWatched(cfg, before);
      RunKeepsInv(cfg, before);
      NewestMatchFrom(cfg, s, e.finding, e.now);
      NewestMatchInScope(cfg, s, e);
      assert m[0] in m;
      WatchedPairHasTexts(cfg.window, m[0].0, m[0].1);
    }
  }

  lemma TurnSurvives(cfg: Config, before: seq<Event>, e: Event)
    requires AllValid(before) && AllWatched(before) && ValidTexts(cfg.texts) && !Run(cfg, before).crashed
    requires e.Received? ==> ValidFinding(e.finding) && Watched(e.finding) && e.handling(0).clock > 0.0
    ensures !Run(cfg, before + [e]).crashed
  {
    if Relevant(e) {
      MatchHasTexts(cfg, before, e);
      CrashIffEmptyText(cfg, before, e);
    } else {
      RunSnoc(cfg, before, e);
    }
  }

  /** A run fed by the two watchers never dies, whatever its threshold, clocks and outcomes. */
  lemma {:induction false} WatchersNeverCrash(cfg: Config, events: seq<Event>)
    requires AllValid(events) && AllWatched(events) && ValidTexts(cfg.texts)
    ensures !Run(cfg, events).crashed
  {
    if events != [] {
      var before, e := events[..|events| - 1], events[|events| - 1];
      assert AllValid(before) && AllWatched(before);
      WatchersNeverCrash(cfg, before);
      TurnSurvives(cfg, before, e);
      assert events == before + [e];
    }
  }
}
