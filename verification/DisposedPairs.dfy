/**
  What is true of every pair the loop disposes of, over whole runs: why it was
  matched, which text it gets, whether it can pass the threshold, and what
  becomes of its claim.
*/
module DisposedPairs {
  import opened Schema
  import opened Correlation
  import opened Matching
  import opened Correlator
  import opened CorrelatorRuns

  predicate AllInScope(window: real, ds: seq<Disposed>) {
    forall i :: 0 <= i < |ds| ==> ShareScope(window, ds[i].api, ds[i].code)
  }

  lemma OutcomeInScope(cfg: Config, t: Ledger, m: seq<Pair>, handling: nat -> Handling)
    requires AllInScope(cfg.window, t.disposed) && (m != [] ==> ShareScope(cfg.window, m[0].0, m[0].1))
    ensures AllInScope(cfg.window, Outcome(cfg, t, m, handling).disposed)
  {
  }

  lemma NewestMatchInScope(cfg: Config, s: Ledger, e: Event)
    requires RunInv(cfg, s) && !s.crashed && Relevant(e)
    ensures var m := NewestMatch(cfg, s, e.finding, e.now); m != [] ==> ShareScope(cfg.window, m[0].0, m[0].1)
  {
    var m := NewestMatch(cfg, s, e.finding, e.now);
    NewestMatchIsOne(cfg, s, e.finding, e.now);
    if m != [] {
      assert m == [m[0]];
      if e.finding.source.Api? {
        ApiMatchSettles(cfg, s, e.finding, e.now, m[0].1);
      } else {
        CodeMatchSettles(cfg, s, e.finding, e.now, m[0].0);
      }
    }
  }

  /** Every pair ever disposed of was in scope. */
  lemma {:induction false} DisposedInScope(cfg: Config, events: seq<Event>)
    ensures AllInScope(cfg.window, Run(cfg, events).disposed)
  {
    if events != [] {
      var before, e := events[..|events| - 1], events[|events| - 1];
      var s := Run(cfg, before);
      DisposedInScope(cfg, before);
      if !s.crashed && Relevant(e) {
        RunKeepsInv(cfg, before);
        TurnOutcome(cfg, s, e);
        NewestMatchInScope(cfg, s, e);
        OutcomeInScope(cfg, BeforePass(cfg, s, e.finding, e.now), NewestMatch(cfg, s, e.finding, e.now), e.handling);
      }
    }
  }

  /** In plain terms: an API and a code finding of one service, no further apart than the window, with one route or a known pairing. */
  predicate Belong(window: real, a: Finding, c: Finding) {
    && a.source == Source.Api && c.source == Source.Code && a.service == c.service
    && -window <= a.timestamp - c.timestamp <= window
    && (if BothRoutes(a, c) then a.endpoint == c.endpoint else Known(a.kind, c.kind))
  }

  /** Every pair disposed of in any run is of that kind, and as long as the loop lives none is left over between turns. */
  lemma ExactlyPairsThatBelongGo(cfg: Config, events: seq<Event>)
    ensures forall d :: d in Run(cfg, events).disposed ==> Belong(cfg.window, d.api, d.code)
    ensures !Run(cfg, events).crashed ==>
      forall a, c :: a in Run(cfg, events).api && c in Run(cfg, events).code ==> !Belong(cfg.window, a, c)
  {
    DisposedInScope(cfg, events);
    NothingLeftInScope(cfg, events);
    forall a, c ensures Belong(cfg.window, a, c) <==> ShareScope(cfg.window, a, c) {
      ScopeMeans(cfg.window, a, c);
    }
  }

  /** Every record of a run is a verdict on its pair. */
  predicate AllJudged(cfg: Config, ds: seq<Disposed>) {
    forall i :: 0 <= i < |ds| ==> Judge(cfg, ds[i].api, ds[i].code, ds[i].handling) == Some(ds[i])
  }

  lemma {:induction false} DisposedJudged(cfg: Config, events: seq<Event>)
    ensures AllJudged(cfg, Run(cfg, events).disposed)
  {
    if events != [] {
      var before, e := events[..|events| - 1], events[|events| - 1];
      var s := Run(cfg, before);
      DisposedJudged(cfg, before);
      if !s.crashed && Relevant(e) {
        RunKeepsInv(cfg, before);
        TurnOutcome(cfg, s, e);
        OutcomeJudged(cfg, BeforePass(cfg, s, e.finding, e.now), NewestMatch(cfg, s, e.finding, e.now), e.handling);
      }
    }
  }

  lemma OutcomeJudged(cfg: Config, t: Ledger, m: seq<Pair>, handling: nat -> Handling)
    requires AllJudged(cfg, t.disposed)
    ensures AllJudged(cfg, Outcome(cfg, t, m, handling).disposed)
  {
  }

  // ------------------------------------------------------------------ age and scope

  lemma NewestMatchIsYoung(cfg: Config, s: Ledger, f: Finding, now: real)
    ensures forall m :: m in NewestMatch(cfg, s, f, now) ==> now - m.0.timestamp < cfg.window && now - m.1.timestamp < cfg.window
  {
    FreshMembers(s.api, now, cfg.window);
    FreshMembers(s.code, now, cfg.window);
    assert forall c :: FirstPartner(cfg.window, f, Fresh(s.code, now, cfg.window), {}) == Some(c) ==> c in s.code && IsFresh(c, now, cfg.window);
    assert forall a :: FirstApi(cfg.window, Fresh(s.api, now, cfg.window), f) == Some(a) ==> a in s.api && IsFresh(a, now, cfg.window);
  }

  /** The last entry is new, and its findings are both younger than the window at this clock. */
  predicate OneYoungMore(cfg: Config, before: seq<Disposed>, after: seq<Disposed>, now: real) {
    && |after| == |before| + 1 && after[..|before|] == before
    && now - after[|before|].api.timestamp < cfg.window && now - after[|before|].code.timestamp < cfg.window
  }

  lemma PassDisposesYoung(cfg: Config, s: Ledger, e: Event)
    requires Relevant(e)
    ensures var t, m := BeforePass(cfg, s, e.finding, e.now), NewestMatch(cfg, s, e.finding, e.now);
      var ds := Outcome(cfg, t, m, e.handling).disposed;
      ds == s.disposed || OneYoungMore(cfg, s.disposed, ds, e.now)
  {
    NewestMatchIsYoung(cfg, s, e.finding, e.now);
    OutcomeDisposes(cfg, BeforePass(cfg, s, e.finding, e.now), NewestMatch(cfg, s, e.finding, e.now), e.handling);
  }

  /** A turn disposes of nothing, or of one pair whose findings are both younger than the window at its clock. */
  lemma TurnDisposesYoung(cfg: Config, s: Ledger, e: Event)
    requires RunInv(cfg, s) && Step(cfg, s, e).disposed != s.disposed
    ensures e.Received? && OneYoungMore(cfg, s.disposed, Step(cfg, s, e).disposed, e.now)
  {
    if !s.crashed && Relevant(e) {
      TurnOutcome(cfg, s, e);
      PassDisposesYoung(cfg, s, e);
    }
  }

  lemma OutcomeDisposes(cfg: Config, t: Ledger, m: seq<Pair>, handling: nat -> Handling)
    ensures var ds := Outcome(cfg, t, m, handling).disposed;
      || ds == t.disposed
      || (m != [] && |ds| == |t.disposed| + 1 && ds[..|t.disposed|] == t.disposed
          && ds[|t.disposed|].api == m[0].0 && ds[|t.disposed|].code == m[0].1)
  {
  }

  /** Turn i disposes of the k-th pair of the run, and both its findings are younger than the window at its clock. */
  predicate DisposedYoung(cfg: Config, events: seq<Event>, k: nat, i: int) {
    && 0 <= i < |events| && events[i].Received? && k < |Run(cfg, events).disposed|
    && |Run(cfg, events[..i]).disposed| == k < |Run(cfg, events[..i + 1]).disposed|
    && var d := Run(cfg, events).disposed[k];
       events[i].now - d.api.timestamp < cfg.window && events[i].now - d.code.timestamp < cfg.window
  }

  lemma DisposedYoungLater(cfg: Config, before: seq<Event>, e: Event, k: nat, i: int)
    requires DisposedYoung(cfg, before, k, i)
    requires k < |Run(cfg, before + [e]).disposed| && Run(cfg, before + [e]).disposed[k] == Run(cfg, before).disposed[k]
    ensures DisposedYoung(cfg, before + [e], k, i)
  {
    assert (before + [e])[i] == before[i] && (before + [e])[..i] == before[..i] && (before + [e])[..i + 1] == before[..i + 1];
  }

  lemma Prefixes(before: seq<Event>, e: Event)
    ensures var all := before + [e];
      |all| == |before| + 1 && all[|before|] == e && all[..|before|] == before && all[..|before| + 1] == all
  {
  }

  lemma DisposedYoungNow(cfg: Config, before: seq<Event>, e: Event, k: nat)
    requires e.Received? && k == |Run(cfg, before).disposed|
    requires OneYoungMore(cfg, Run(cfg, before).disposed, Run(cfg, before + [e]).disposed, e.now)
    ensures DisposedYoung(cfg, before + [e], k, |before|)
  {
    Prefixes(before, e);
  }

  lemma OldOrNew(cfg: Config, before: seq<Event>, e: Event, k: nat)
    requires k < |Run(cfg, before + [e]).disposed|
    ensures k < |Run(cfg, before).disposed| ==> Run(cfg, before + [e]).disposed[k] == Run(cfg, before).disposed[k]
    ensures k >= |Run(cfg, before).disposed| ==> DisposedYoung(cfg, before + [e], k, |before|)
  {
    var s := Run(cfg, before);
    RunKeepsInv(cfg, before);
    RunSnoc(cfg, before, e);
    if Step(cfg, s, e).disposed != s.disposed {
      TurnDisposesYoung(cfg, s, e);
      if k >= |s.disposed| { DisposedYoungNow(cfg, before, e, k); }
    }
  }

  /** In every run each pair is disposed of in a turn at whose clock both its findings are younger than the window. */
  lemma {:induction false} DisposedWereYoung(cfg: Config, events: seq<Event>, k: nat)
    requires k < |Run(cfg, events).disposed|
    ensures exists i :: DisposedYoung(cfg, events, k, i)
  {
    assert events != [];
    var before, e := events[..|events| - 1], events[|events| - 1];
    assert events == before + [e];
    OldOrNew(cfg, before, e, k);
    if k < |Run(cfg, before).disposed| {
      DisposedWereYoung(cfg, before, k);
      var i :| DisposedYoung(cfg, before, k, i);
      DisposedYoungLater(cfg, before, e, k, i);
    }
  }

  // ------------------------------------------------------------- grounds and texts

  /**
    Every pair of every run rests on a knowledge-base entry, and then gets its
    text, or on a shared route.  Where either side names no route, as in every
    finding of the code watcher, it is the former, and the score is at least
    0.62 before weighting.
  */
  lemma EveryPairHasGrounds(cfg: Config, events: seq<Event>, i: nat)
    requires i < |Run(cfg, events).disposed|
    ensures var d := Run(cfg, events).disposed[i];
      && (!Truthy(d.code.endpoint) || !Truthy(d.api.endpoint) ==>
            && Known(d.api.kind, d.code.kind)
            && LookupRootCause(cfg.texts, d.api.kind, d.code.kind) == cfg.texts.known(d.api.kind, d.code.kind)
            && Score(d.api, d.code) >= 0.62)
      && (!Known(d.api.kind, d.code.kind) ==>
            && Truthy(d.api.endpoint) && d.api.endpoint == d.code.endpoint
            && LookupRootCause(cfg.texts, d.api.kind, d.code.kind) == cfg.texts.fallback)
  {
    DisposedInScope(cfg, events);
  }

  /** What every alert of every run says. */
  lemma EveryAlertSays(cfg: Config, events: seq<Event>, i: nat)
    requires i < |Run(cfg, events).disposed|
    ensures var d := Run(cfg, events).disposed[i];
      && (d.alert == None <==> d.branch == LowConfidence)
      && (d.alert.Some? ==> SaysOf(cfg, d.api, d.code, d.handling, d.alert.value))
  {
    DisposedJudged(cfg, events);
    var d := Run(cfg, events).disposed[i];
    AlertSays(cfg, d.api, d.code, d.handling);
  }

  /** What becomes of every claim of every run. */
  lemma EveryClaimsFate(cfg: Config, events: seq<Event>, i: nat)
    requires i < |Run(cfg, events).disposed|
    ensures FateKnown(cfg, Run(cfg, events).disposed[i])
  {
    DisposedJudged(cfg, events);
    var d := Run(cfg, events).disposed[i];
    ClaimFate(cfg, d.api, d.code, d.handling);
  }

  // ------------------------------------------------------------------- thresholds

  lemma DisposedWasSeen(cfg: Config, events: seq<Event>, i: nat)
    requires i < |Run(cfg, events).disposed|
    ensures Run(cfg, events).disposed[i].api in Run(cfg, events).seenApi
    ensures Run(cfg, events).disposed[i].code in Run(cfg, events).seenCode
  {
    NothingLost(cfg, events);
    var s := Run(cfg, events);
    assert ApiOf(s.disposed)[i] == s.disposed[i].api && CodeOf(s.disposed)[i] == s.disposed[i].code;
    assert s.disposed[i].api in multiset(ApiOf(s.disposed)) && s.disposed[i].code in multiset(CodeOf(s.disposed));
    assert s.disposed[i].api in multiset(s.seenApi) && s.disposed[i].code in multiset(s.seenCode);
  }

  lemma {:induction false} SeenValid(cfg: Config, events: seq<Event>)
    requires AllValid(events)
    ensures forall f :: f in Run(cfg, events).seenApi || f in Run(cfg, events).seenCode ==> ValidFinding(f)
  {
    if events != [] {
      var before, e := events[..|events| - 1], events[|events| - 1];
      SeenValid(cfg, before);
      TurnSeen(cfg, Run(cfg, before), e);
    }
  }

  /** Above the cap of 0.99 every pair of every run is dropped for low confidence. */
  lemma NothingPassesAboveTheCap(cfg: Config, events: seq<Event>, i: nat)
    requires AllValid(events) && cfg.minConfidence > 0.99 && i < |Run(cfg, events).disposed|
    ensures Run(cfg, events).disposed[i].branch == LowConfidence
  {
    DisposedWasSeen(cfg, events, i);
    SeenValid(cfg, events);
    DisposedJudged(cfg, events);
    var d := Run(cfg, events).disposed[i];
    ConfidenceBounded(d.api, d.code);
  }

  function Reading(f: Finding): Event {
    Received(f, 1.0, k => Handling("", 1.0, PublishRaises))
  }

  lemma OnlyFresh(cfg: Config, f: Finding)
    requires cfg.window > 0.0 && f.timestamp == 1.0
    ensures Fresh([f], 1.0, cfg.window) == [f]
  {
    FreshSnoc([], f, 1.0, cfg.window);
    assert [] + [f] == [f];
  }

  /** After the first of them it is buffered. */
  lemma FirstBuffered(cfg: Config, f: Finding, s: Ledger)
    requires cfg.maxSize >= 1 && cfg.window > 0.0 && f.source.Api? && f.timestamp == 1.0
    requires s == Run(cfg, [Reading(f)])
    ensures RunInv(cfg, s) && s.api == [f] && s.code == [] && !s.crashed && s.disposed == []
  {
    var t, e := BeforePass(cfg, EMPTY, f, 1.0), Reading(f);
    RunKeepsInv(cfg, [e]);
    RunKeepsInv(cfg, []);
    OnlyFresh(cfg, f);
    GrownSide(cfg, [], f, 1.0);
    assert t.api == [f] && t.code == [];
    assert NewestMatch(cfg, EMPTY, f, 1.0) == [];
    TurnOutcome(cfg, EMPTY, e);
    assert [e][..0] == [];
  }

  /** A sure pair is matched by the turn of its second finding, and gets past the threshold. */
  lemma SecondDisposed(cfg: Config, s: Ledger, a: Finding, c: Finding)
    requires cfg.maxSize >= 1 && cfg.window > 0.0 && ValidTexts(cfg.texts)
    requires RunInv(cfg, s) && s.api == [a] && s.code == [] && !s.crashed && s.disposed == []
    requires ValidFinding(a) && ValidFinding(c) && ShareScope(cfg.window, a, c) && !HasEmptyText(a, c)
    requires a.timestamp == c.timestamp == 1.0 && ComputeConfidence(a, c) >= cfg.minConfidence
    ensures var s' := Step(cfg, s, Reading(c)); |s'.disposed| == 1 && s'.disposed[0].branch == PublishFailed
  {
    var e := Reading(c);
    SecondMatches(cfg, s, a, c);
    TurnOutcome(cfg, s, e);
    JudgeRaisesIff(cfg, a, c, e.handling(0));
    OneOutcome(cfg, BeforePass(cfg, s, c, 1.0), a, c, e.handling);
  }

  lemma SecondMatches(cfg: Config, s: Ledger, a: Finding, c: Finding)
    requires cfg.maxSize >= 1 && cfg.window > 0.0 && s.api == [a]
    requires ShareScope(cfg.window, a, c) && a.timestamp == c.timestamp == 1.0
    ensures NewestMatch(cfg, s, c, 1.0) == [(a, c)]
  {
    OnlyFresh(cfg, a);
    assert FirstApi(cfg.window, [a], c) == Some(a);
  }

  lemma OneOutcome(cfg: Config, t: Ledger, a: Finding, c: Finding, handling: nat -> Handling)
    requires t.disposed == [] && Judge(cfg, a, c, handling(0)).Some?
    ensures Outcome(cfg, t, [(a, c)], handling).disposed == [Judge(cfg, a, c, handling(0)).value]
  {
  }

  lemma SurePairDisposed(cfg: Config, a: Finding, c: Finding)
    requires cfg.maxSize >= 1 && cfg.window > 0.0 && ValidTexts(cfg.texts)
    requires ValidFinding(a) && ValidFinding(c) && ShareScope(cfg.window, a, c) && !HasEmptyText(a, c)
    requires a.timestamp == c.timestamp == 1.0 && ComputeConfidence(a, c) >= cfg.minConfidence
    ensures var s := Run(cfg, [Reading(a), Reading(c)]); |s.disposed| == 1 && s.disposed[0].branch == PublishFailed
  {
    RunOfTwo(cfg, Reading(a), Reading(c));
    FirstBuffered(cfg, a, Run(cfg, [Reading(a)]));
    SecondDisposed(cfg, Run(cfg, [Reading(a)]), a, c);
  }

  lemma RunOfTwo(cfg: Config, d: Event, e: Event)
    ensures Run(cfg, [d, e]) == Step(cfg, Run(cfg, [d]), e)
  {
    assert [d] + [e] == [d, e];
    RunSnoc(cfg, [d], e);
  }

  predicate PairPasses(cfg: Config, events: seq<Event>, i: int) {
    && AllValid(events) && 0 <= i < |Run(cfg, events).disposed|
    && Run(cfg, events).disposed[i].branch != LowConfidence
  }

  lemma PassesUpToTheCap(cfg: Config) returns (events: seq<Event>)
    requires cfg.maxSize >= 1 && cfg.window > 0.0 && ValidTexts(cfg.texts) && cfg.minConfidence <= 0.99
    ensures PairPasses(cfg, events, 0)
  {
    var a, c := SurestPair(cfg.window);
    SurePairDisposed(cfg, a, c);
    events := [Reading(a), Reading(c)];
    assert AllValid(events);
  }

  /** Some run gets a pair past the threshold exactly when the threshold is at most 0.99. */
  lemma SomePairPassesIff(cfg: Config)
    requires cfg.maxSize >= 1 && cfg.window > 0.0 && ValidTexts(cfg.texts)
    ensures (exists events, i :: PairPasses(cfg, events, i)) <==> cfg.minConfidence <= 0.99
  {
    if cfg.minConfidence <= 0.99 {
      var events := PassesUpToTheCap(cfg);
    } else {
      forall events, i ensures !PairPasses(cfg, events, i) {
        if PairPasses(cfg, events, i) { NothingPassesAboveTheCap(cfg, events, i); }
      }
    }
  }
}
