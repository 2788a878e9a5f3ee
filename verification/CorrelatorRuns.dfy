/**
  What holds of the correlation loop over whole runs: any stream of findings
  (duplicates included), any clock readings, any outcome of every external call.
*/
module CorrelatorRuns {
  import opened Schema
  import opened Correlation
  import opened Matching
  import opened CorrelationBuffer
  import opened Correlator
  import opened Subsequences

  predicate Relevant(e: Event) {
    e.Received? && (e.finding.source.Api? || e.finding.source.Code?)
  }

  /** The state in which the match pass of a turn runs. */
  function BeforePass(cfg: Config, s: Ledger, f: Finding, now: real): Ledger {
    Evict(cfg, AddFinding(cfg, s, f), now)
  }

  // --------------------------------------------------- one match, the newest finding

  /** All that a pass can find: the new finding with its earliest fresh partner. */
  function NewestMatch(cfg: Config, s: Ledger, f: Finding, now: real): seq<Pair> {
    if cfg.maxSize == 0 || !IsFresh(f, now, cfg.window) then []
    else if f.source.Api? then
      match FirstPartner(cfg.window, f, Fresh(s.code, now, cfg.window), {})
      case None => []
      case Some(c) => [(f, c)]
    else
      match FirstApi(cfg.window, Fresh(s.api, now, cfg.window), f)
      case None => []
      case Some(a) => [(a, f)]
  }

  /** What is left of one side when `f` is appended and the stale entries go. */
  lemma GrownSide(cfg: Config, side: seq<Finding>, f: Finding, now: real)
    requires |side| <= cfg.maxSize
    ensures var kept := if cfg.maxSize == 0 then [] else Fresh(LastN(side, cfg.maxSize - 1), now, cfg.window);
      && Fresh(LastN(side + [f], cfg.maxSize), now, cfg.window)
         == kept + (if cfg.maxSize >= 1 && IsFresh(f, now, cfg.window) then [f] else [])
      && forall g :: g in kept ==> g in side
  {
    if cfg.maxSize >= 1 {
      var older := LastN(side, cfg.maxSize - 1);
      assert LastN(side + [f], cfg.maxSize) == older + [f];
      FreshSnoc(older, f, now, cfg.window);
      FreshMembers(older, now, cfg.window);
    }
  }

  lemma SettledSub(window: real, apis: seq<Finding>, codes: seq<Finding>, apis': seq<Finding>, codes': seq<Finding>)
    requires Settled(window, apis, codes)
    requires (forall a :: a in apis' ==> a in apis) && (forall c :: c in codes' ==> c in codes)
    ensures Settled(window, apis', codes')
  {
  }

  lemma ApiPass(cfg: Config, apis: seq<Finding>, codes: seq<Finding>, f: Finding, now: real)
    requires |apis| <= cfg.maxSize && Settled(cfg.window, apis, codes)
    ensures var m := Greedy(cfg.window, Fresh(LastN(apis + [f], cfg.maxSize), now, cfg.window), Fresh(codes, now, cfg.window), {}, {});
      m == if cfg.maxSize == 0 || !IsFresh(f, now, cfg.window) then []
           else match FirstPartner(cfg.window, f, Fresh(codes, now, cfg.window), {}) case None => [] case Some(c) => [(f, c)]
  {
    GrownSide(cfg, apis, f, now);
    var kept := if cfg.maxSize == 0 then [] else Fresh(LastN(apis, cfg.maxSize - 1), now, cfg.window);
    var others := Fresh(codes, now, cfg.window);
    FreshMembers(codes, now, cfg.window);
    SettledSub(cfg.window, apis, codes, kept, others);
    if cfg.maxSize == 0 || !IsFresh(f, now, cfg.window) {
      assert kept + [] == kept;
      SettledGreedy(cfg.window, kept, others, {}, {});
    } else {
      NewApiMatch(cfg.window, kept, f, others);
    }
  }

  lemma CodePass(cfg: Config, apis: seq<Finding>, codes: seq<Finding>, f: Finding, now: real)
    requires |codes| <= cfg.maxSize && Settled(cfg.window, apis, codes)
    ensures var m := Greedy(cfg.window, Fresh(apis, now, cfg.window), Fresh(LastN(codes + [f], cfg.maxSize), now, cfg.window), {}, {});
      m == if cfg.maxSize == 0 || !IsFresh(f, now, cfg.window) then []
           else match FirstApi(cfg.window, Fresh(apis, now, cfg.window), f) case None => [] case Some(a) => [(a, f)]
  {
    GrownSide(cfg, codes, f, now);
    var kept := if cfg.maxSize == 0 then [] else Fresh(LastN(codes, cfg.maxSize - 1), now, cfg.window);
    var others := Fresh(apis, now, cfg.window);
    FreshMembers(apis, now, cfg.window);
    SettledSub(cfg.window, apis, codes, others, kept);
    if cfg.maxSize == 0 || !IsFresh(f, now, cfg.window) {
      assert kept + [] == kept;
      SettledGreedy(cfg.window, others, kept, {}, {});
    } else {
      NewCodeMatch(cfg.window, others, kept, f);
    }
  }

  lemma PassIsNewestMatch(cfg: Config, s: Ledger, f: Finding, now: real)
    requires |s.api| <= cfg.maxSize && |s.code| <= cfg.maxSize && Settled(cfg.window, s.api, s.code)
    requires f.source.Api? || f.source.Code?
    ensures Pass(cfg, BeforePass(cfg, s, f, now)) == NewestMatch(cfg, s, f, now)
  {
    if f.source.Api? {
      ApiPass(cfg, s.api, s.code, f, now);
    } else {
      CodePass(cfg, s.api, s.code, f, now);
    }
  }

  // ------------------------------------------------------------- the run invariant

  function ApiOf(ds: seq<Disposed>): (r: seq<Finding>)
    ensures |r| == |ds|
  {
    seq(|ds|, i requires 0 <= i < |ds| => ds[i].api)
  }

  function CodeOf(ds: seq<Disposed>): (r: seq<Finding>)
    ensures |r| == |ds|
  {
    seq(|ds|, i requires 0 <= i < |ds| => ds[i].code)
  }

  /** Every finding that entered is in exactly one place. */
  predicate Conserved(s: Ledger) {
    && multiset(s.seenApi) == multiset(s.api) + s.expiredApi + s.overflowApi + multiset(ApiOf(s.disposed))
    && multiset(s.seenCode) == multiset(s.code) + s.expiredCode + s.overflowCode + multiset(CodeOf(s.disposed))
  }

  /** Each side is within bounds and in order of arrival. */
  predicate Orderly(cfg: Config, s: Ledger) {
    && |s.api| <= cfg.maxSize && |s.code| <= cfg.maxSize
    && Subseq(s.api, s.seenApi) && Subseq(s.code, s.seenCode)
  }

  predicate RunInv(cfg: Config, s: Ledger) {
    && Conserved(s)
    && Orderly(cfg, s)
    && (!s.crashed ==> Settled(cfg.window, s.api, s.code))
  }

  lemma GrownConserved<T>(side: seq<T>, f: T, n: nat)
    ensures var kept := LastN(side + [f], n);
      multiset(side) + multiset{f} == multiset(kept) + multiset((side + [f])[..|side| + 1 - |kept|])
  {
    var grown, kept := side + [f], LastN(side + [f], n);
    assert grown == grown[..|grown| - |kept|] + kept;
    assert multiset(grown) == multiset(side) + multiset{f};
  }

  lemma Regroup<T>(seen: multiset<T>, side: multiset<T>, expired: multiset<T>, overflow: multiset<T>, done: multiset<T>,
                   f: multiset<T>, kept: multiset<T>, dropped: multiset<T>)
    requires seen == side + expired + overflow + done && side + f == kept + dropped
    ensures seen + f == kept + expired + (overflow + dropped) + done
  {
    forall x
      ensures (seen + f)[x] == (kept + expired + (overflow + dropped) + done)[x]
    {
      assert seen[x] == side[x] + expired[x] + overflow[x] + done[x];
      assert (side + f)[x] == (kept + dropped)[x];
    }
  }

  /** One side of the account when a finding is appended. */
  lemma SideConserved<T>(seen: seq<T>, side: seq<T>, expired: multiset<T>, overflow: multiset<T>, done: multiset<T>, f: T, n: nat)
    requires multiset(seen) == multiset(side) + expired + overflow + done
    ensures var kept := LastN(side + [f], n);
      multiset(seen + [f]) == multiset(kept) + expired + (overflow + multiset((side + [f])[..|side| + 1 - |kept|])) + done
  {
    var kept := LastN(side + [f], n);
    GrownConserved(side, f, n);
    assert multiset(seen + [f]) == multiset(seen) + multiset{f};
    Regroup(multiset(seen), multiset(side), expired, overflow, done, multiset{f}, multiset(kept),
            multiset((side + [f])[..|side| + 1 - |kept|]));
  }

  lemma AddApiConserves(cfg: Config, s: Ledger, f: Finding)
    requires Conserved(s) && f.source.Api?
    ensures Conserved(AddFinding(cfg, s, f))
  {
    SideConserved(s.seenApi, s.api, s.expiredApi, s.overflowApi, multiset(ApiOf(s.disposed)), f, cfg.maxSize);
  }

  lemma AddCodeConserves(cfg: Config, s: Ledger, f: Finding)
    requires Conserved(s) && f.source.Code?
    ensures Conserved(AddFinding(cfg, s, f))
  {
    SideConserved(s.seenCode, s.code, s.expiredCode, s.overflowCode, multiset(CodeOf(s.disposed)), f, cfg.maxSize);
  }

  lemma AddConserves(cfg: Config, s: Ledger, f: Finding)
    requires Conserved(s)
    ensures Conserved(AddFinding(cfg, s, f))
  {
    if f.source.Api? {
      AddApiConserves(cfg, s, f);
    } else if f.source.Code? {
      AddCodeConserves(cfg, s, f);
    }
  }

  lemma EvictConserves(cfg: Config, s: Ledger, now: real)
    requires Conserved(s)
    ensures Conserved(Evict(cfg, s, now))
  {
    FreshSubset(s.api, now, cfg.window);
    FreshSubset(s.code, now, cfg.window);
  }

  lemma AddOrderly(cfg: Config, s: Ledger, f: Finding)
    requires Orderly(cfg, s)
    ensures Orderly(cfg, AddFinding(cfg, s, f))
  {
    if f.source.Api? {
      SideOrderly(s.api, s.seenApi, f, cfg.maxSize);
    } else if f.source.Code? {
      SideOrderly(s.code, s.seenCode, f, cfg.maxSize);
    }
  }

  lemma SideOrderly<T>(side: seq<T>, seen: seq<T>, f: T, n: nat)
    requires Subseq(side, seen)
    ensures Subseq(LastN(side + [f], n), seen + [f])
  {
    Snoc(side, seen, f);
    DropPrefix(side + [f], |side| + 1 - |LastN(side + [f], n)|);
    Trans(LastN(side + [f], n), side + [f], seen + [f]);
  }

  lemma EvictOrderly(cfg: Config, s: Ledger, now: real)
    requires Orderly(cfg, s)
    ensures Orderly(cfg, Evict(cfg, s, now))
  {
    FreshSubset(s.api, now, cfg.window);
    FreshSubset(s.code, now, cfg.window);
    Trans(Fresh(s.api, now, cfg.window), s.api, s.seenApi);
    Trans(Fresh(s.code, now, cfg.window), s.code, s.seenCode);
  }

  /** The state after one pair is done with. */
  function Removed(s: Ledger, d: Disposed): Ledger {
    s.(api := RemoveFirst(s.api, d.api), code := RemoveFirst(s.code, d.code), disposed := s.disposed + [d])
  }

  lemma RemovedConserves(s: Ledger, d: Disposed)
    requires Conserved(s) && d.api in s.api && d.code in s.code
    ensures Conserved(Removed(s, d))
  {
    RemoveFirstMultiset(s.api, d.api);
    RemoveFirstMultiset(s.code, d.code);
    assert ApiOf(s.disposed + [d]) == ApiOf(s.disposed) + [d.api];
    assert CodeOf(s.disposed + [d]) == CodeOf(s.disposed) + [d.code];
  }

  lemma RemoveFirstSubseq<T>(s: seq<T>, x: T, seen: seq<T>)
    requires Subseq(s, seen)
    ensures Subseq(RemoveFirst(s, x), seen) && |RemoveFirst(s, x)| <= |s|
    ensures forall y :: y in RemoveFirst(s, x) ==> y in s
  {
    if x in s {
      DropOne(s, IndexOf(s, x));
      Trans(RemoveFirst(s, x), s, seen);
    }
  }

  lemma RemoveLast<T>(xs: seq<T>, x: T)
    requires x !in xs
    ensures RemoveFirst(xs + [x], x) == xs
  {
    assert IndexOf(xs + [x], x) == |xs| by {
      assert (xs + [x])[..|xs|] == xs;
    }
  }

  lemma RemoveIncluded<T>(xs: seq<T>, x: T)
    ensures forall y :: y in RemoveFirst(xs, x) ==> y in xs
  {
  }

  lemma NewApiSettles(window: real, apis: seq<Finding>, codes: seq<Finding>, kept: seq<Finding>, f: Finding, others: seq<Finding>, c: Finding)
    requires Settled(window, apis, codes)
    requires (forall a :: a in kept ==> a in apis) && (forall d :: d in others ==> d in codes)
    requires c in others && ShareScope(window, f, c)
    ensures Settled(window, RemoveFirst(kept + [f], f), RemoveFirst(others, c))
  {
    assert f !in kept;
    RemoveLast(kept, f);
    RemoveIncluded(others, c);
  }

  lemma NewCodeSettles(window: real, apis: seq<Finding>, codes: seq<Finding>, others: seq<Finding>, a: Finding, kept: seq<Finding>, f: Finding)
    requires Settled(window, apis, codes)
    requires (forall b :: b in others ==> b in apis) && (forall d :: d in kept ==> d in codes)
    requires a in others && ShareScope(window, a, f)
    ensures Settled(window, RemoveFirst(others, a), RemoveFirst(kept + [f], f))
  {
    assert f !in kept;
    RemoveLast(kept, f);
    RemoveIncluded(others, a);
  }

  /** A new API finding and its partner were buffered, and once both are gone nothing is in scope. */
  lemma ApiMatchSettles(cfg: Config, s: Ledger, f: Finding, now: real, c: Finding)
    requires f.source.Api? && |s.api| <= cfg.maxSize && Settled(cfg.window, s.api, s.code)
    requires NewestMatch(cfg, s, f, now) == [(f, c)]
    ensures var t := BeforePass(cfg, s, f, now);
      && f in t.api && c in t.code && ShareScope(cfg.window, f, c)
      && Settled(cfg.window, RemoveFirst(t.api, f), RemoveFirst(t.code, c))
  {
    var t := BeforePass(cfg, s, f, now);
    var kept := Fresh(LastN(s.api, cfg.maxSize - 1), now, cfg.window);
    GrownSide(cfg, s.api, f, now);
    assert t.api == kept + [f];
    FreshMembers(s.code, now, cfg.window);
    NewApiSettles(cfg.window, s.api, s.code, kept, f, t.code, c);
  }

  lemma CodeMatchSettles(cfg: Config, s: Ledger, f: Finding, now: real, a: Finding)
    requires f.source.Code? && |s.code| <= cfg.maxSize && Settled(cfg.window, s.api, s.code)
    requires NewestMatch(cfg, s, f, now) == [(a, f)]
    ensures var t := BeforePass(cfg, s, f, now);
      && a in t.api && f in t.code && ShareScope(cfg.window, a, f)
      && Settled(cfg.window, RemoveFirst(t.api, a), RemoveFirst(t.code, f))
  {
    var t := BeforePass(cfg, s, f, now);
    var kept := Fresh(LastN(s.code, cfg.maxSize - 1), now, cfg.window);
    GrownSide(cfg, s.code, f, now);
    assert t.code == kept + [f];
    FreshMembers(s.api, now, cfg.window);
    NewCodeSettles(cfg.window, s.api, s.code, t.api, a, kept, f);
  }

  /** With nothing to match, nothing is in scope. */
  lemma NoMatchSettles(cfg: Config, s: Ledger, f: Finding, now: real)
    requires f.source.Api? || f.source.Code?
    requires |s.api| <= cfg.maxSize && |s.code| <= cfg.maxSize && Settled(cfg.window, s.api, s.code)
    requires NewestMatch(cfg, s, f, now) == []
    ensures var t := BeforePass(cfg, s, f, now); Settled(cfg.window, t.api, t.code)
  {
    PassIsNewestMatch(cfg, s, f, now);
    var t := BeforePass(cfg, s, f, now);
    forall a, c | a in t.api && c in t.code
      ensures !ShareScope(cfg.window, a, c)
    {
      if ShareScope(cfg.window, a, c) {
        GreedyMaximal(cfg.window, t.api, t.code, {}, {}, a, c);
        assert false;
      }
    }
  }

  lemma DisposeOne(cfg: Config, t: Ledger, p: Pair, handling: nat -> Handling)
    ensures DisposeAll(cfg, t, [p], handling, 0) ==
      match Judge(cfg, p.0, p.1, handling(0)) case None => t.(crashed := true) case Some(d) => Removed(t, d)
  {
    assert [p][1..] == [];
  }

  /** What one turn does: no match, a crash, or exactly one pair disposed of. */
  function Outcome(cfg: Config, t: Ledger, m: seq<Pair>, handling: nat -> Handling): Ledger {
    if m == [] then t
    else match Judge(cfg, m[0].0, m[0].1, handling(0))
      case None => t.(crashed := true)
      case Some(d) => Removed(t, d)
  }

  lemma NewestMatchIsOne(cfg: Config, s: Ledger, f: Finding, now: real)
    ensures |NewestMatch(cfg, s, f, now)| <= 1
  {
  }

  /** A pass matches at most one pair, the new finding with its earliest fresh partner, and disposes of that. */
  lemma TurnOutcome(cfg: Config, s: Ledger, e: Event)
    requires RunInv(cfg, s) && !s.crashed && Relevant(e)
    ensures Step(cfg, s, e) ==
      Outcome(cfg, BeforePass(cfg, s, e.finding, e.now), NewestMatch(cfg, s, e.finding, e.now), e.handling)
  {
    var t, m := BeforePass(cfg, s, e.finding, e.now), NewestMatch(cfg, s, e.finding, e.now);
    PassIsNewestMatch(cfg, s, e.finding, e.now);
    NewestMatchIsOne(cfg, s, e.finding, e.now);
    assert Step(cfg, s, e) == DisposeAll(cfg, t, m, e.handling, 0);
    if m != [] {
      assert m == [m[0]];
      DisposeOne(cfg, t, m[0], e.handling);
    }
  }

  lemma OutcomeKeepsInv(cfg: Config, t: Ledger, p: Pair, handling: nat -> Handling)
    requires Conserved(t) && Orderly(cfg, t) && !t.crashed
    requires p.0 in t.api && p.1 in t.code && Settled(cfg.window, RemoveFirst(t.api, p.0), RemoveFirst(t.code, p.1))
    ensures RunInv(cfg, Outcome(cfg, t, [p], handling))
  {
    var j := Judge(cfg, p.0, p.1, handling(0));
    if j.Some? {
      RemovedConserves(t, j.value);
      RemoveFirstSubseq(t.api, p.0, t.seenApi);
      RemoveFirstSubseq(t.code, p.1, t.seenCode);
    }
  }

  lemma BeforePassKeeps(cfg: Config, s: Ledger, f: Finding, now: real)
    requires Conserved(s) && Orderly(cfg, s)
    ensures var t := BeforePass(cfg, s, f, now); Conserved(t) && Orderly(cfg, t) && t.crashed == s.crashed
  {
    AddConserves(cfg, s, f);
    AddOrderly(cfg, s, f);
    EvictConserves(cfg, AddFinding(cfg, s, f), now);
    EvictOrderly(cfg, AddFinding(cfg, s, f), now);
  }

  lemma TurnKeepsInv(cfg: Config, s: Ledger, e: Event)
    requires RunInv(cfg, s)
    ensures RunInv(cfg, Step(cfg, s, e))
  {
    if !s.crashed && Relevant(e) {
      var f, m := e.finding, NewestMatch(cfg, s, e.finding, e.now);
      BeforePassKeeps(cfg, s, f, e.now);
      TurnOutcome(cfg, s, e);
      NewestMatchIsOne(cfg, s, f, e.now);
      if m == [] {
        NoMatchSettles(cfg, s, f, e.now);
      } else {
        assert m == [m[0]];
        if f.source.Api? {
          ApiMatchSettles(cfg, s, f, e.now, m[0].1);
        } else {
          CodeMatchSettles(cfg, s, f, e.now, m[0].0);
        }
        OutcomeKeepsInv(cfg, BeforePass(cfg, s, f, e.now), m[0], e.handling);
      }
    }
  }

  lemma {:induction false} RunKeepsInv(cfg: Config, events: seq<Event>)
    ensures RunInv(cfg, Run(cfg, events))
  {
    if events != [] {
      RunKeepsInv(cfg, events[..|events| - 1]);
      TurnKeepsInv(cfg, Run(cfg, events[..|events| - 1]), events[|events| - 1]);
    }
  }

  // ------------------------------------------------------------------ main results

  /** Unless the loop has died, no buffered pair is in scope between turns. */
  lemma NothingLeftInScope(cfg: Config, events: seq<Event>)
    ensures !Run(cfg, events).crashed ==> Settled(cfg.window, Run(cfg, events).api, Run(cfg, events).code)
  {
    RunKeepsInv(cfg, events);
  }

  /**
    Hence the quadratic search collapses: whatever happened before, the pass of
    the next turn finds the new finding with its earliest fresh partner in
    scope, or nothing.
  */
  lemma EveryPassIsNewestMatch(cfg: Config, events: seq<Event>, e: Event)
    requires !Run(cfg, events).crashed && Relevant(e)
    ensures var s := Run(cfg, events);
      && Pass(cfg, BeforePass(cfg, s, e.finding, e.now)) == NewestMatch(cfg, s, e.finding, e.now)
      && |NewestMatch(cfg, s, e.finding, e.now)| <= 1
  {
    RunKeepsInv(cfg, events);
    PassIsNewestMatch(cfg, Run(cfg, events), e.finding, e.now);
    NewestMatchIsOne(cfg, Run(cfg, events), e.finding, e.now);
  }

  /** No finding is lost or used twice, each side keeps its bound and order, and pairs are limited by both sides. */
  lemma NothingLost(cfg: Config, events: seq<Event>)
    ensures var s := Run(cfg, events);
      && multiset(s.seenApi) == multiset(s.api) + s.expiredApi + s.overflowApi + multiset(ApiOf(s.disposed))
      && multiset(s.seenCode) == multiset(s.code) + s.expiredCode + s.overflowCode + multiset(CodeOf(s.disposed))
      && |s.api| <= cfg.maxSize && Subseq(s.api, s.seenApi)
      && |s.code| <= cfg.maxSize && Subseq(s.code, s.seenCode)
      && |s.disposed| <= |s.seenApi| && |s.disposed| <= |s.seenCode|
  {
    RunKeepsInv(cfg, events);
    var s := Run(cfg, events);
    assert |multiset(s.seenApi)| == |s.seenApi| && |multiset(ApiOf(s.disposed))| == |s.disposed|;
    assert |multiset(s.seenCode)| == |s.seenCode| && |multiset(CodeOf(s.disposed))| == |s.disposed|;
  }

  // --------------------------------------------------------- why a finding leaves

  lemma EvictedAreStale(side: seq<Finding>, now: real, window: real)
    ensures forall f :: f in multiset(side) - multiset(Fresh(side, now, window)) ==> !IsFresh(f, now, window)
  {
    forall f | f in multiset(side) - multiset(Fresh(side, now, window)) ensures !IsFresh(f, now, window) {
      if IsFresh(f, now, window) { FreshCounts(side, f, now, window); }
    }
  }

  lemma {:induction false} DisposeAllKeepsAccounts(cfg: Config, t: Ledger, m: seq<Pair>, handling: nat -> Handling, k: nat)
    ensures var r := DisposeAll(cfg, t, m, handling, k);
      && r.expiredApi == t.expiredApi && r.expiredCode == t.expiredCode
      && r.overflowApi == t.overflowApi && r.overflowCode == t.overflowCode
    decreases |m|
  {
    if m != [] {
      var j := Judge(cfg, m[0].0, m[0].1, handling(k));
      if j.Some? { DisposeAllKeepsAccounts(cfg, Removed(t, j.value), m[1..], handling, k + 1); }
    }
  }

  /** In this turn the finding is in its buffer, and at least as old as the window at the turn's clock. */
  predicate Leaves(cfg: Config, s: Ledger, e: Event, f: Finding, source: Source) {
    && Relevant(e) && !s.crashed && e.now - f.timestamp >= cfg.window
    && var t := AddFinding(cfg, s, e.finding);
       f in (if source.Api? then t.api else t.code)
  }

  predicate LeavesIn(cfg: Config, events: seq<Event>, f: Finding, source: Source, i: int) {
    0 <= i < |events| && Leaves(cfg, Run(cfg, events[..i]), events[i], f, source)
  }

  lemma LeavesLater(cfg: Config, before: seq<Event>, e: Event, f: Finding, source: Source)
    requires (exists i :: LeavesIn(cfg, before, f, source, i)) || Leaves(cfg, Run(cfg, before), e, f, source)
    ensures exists i :: LeavesIn(cfg, before + [e], f, source, i)
  {
    if i :| LeavesIn(cfg, before, f, source, i) {
      assert (before + [e])[i] == before[i] && (before + [e])[..i] == before[..i];
      assert LeavesIn(cfg, before + [e], f, source, i);
    } else {
      assert (before + [e])[|before|] == e && (before + [e])[..|before|] == before;
      assert LeavesIn(cfg, before + [e], f, source, |before|);
    }
  }

  lemma PassExpires(cfg: Config, s: Ledger, e: Event, f: Finding)
    requires Relevant(e) && !s.crashed
    ensures var t := BeforePass(cfg, s, e.finding, e.now);
      && (f in t.expiredApi ==> f in s.expiredApi || Leaves(cfg, s, e, f, Source.Api))
      && (f in t.expiredCode ==> f in s.expiredCode || Leaves(cfg, s, e, f, Source.Code))
  {
    var grown := AddFinding(cfg, s, e.finding);
    EvictedAreStale(grown.api, e.now, cfg.window);
    EvictedAreStale(grown.code, e.now, cfg.window);
  }

  lemma StepKeepsExpired(cfg: Config, s: Ledger, e: Event)
    requires Relevant(e) && !s.crashed
    ensures var t := BeforePass(cfg, s, e.finding, e.now);
      Step(cfg, s, e).expiredApi == t.expiredApi && Step(cfg, s, e).expiredCode == t.expiredCode
  {
    var t := BeforePass(cfg, s, e.finding, e.now);
    DisposeAllKeepsAccounts(cfg, t, Pass(cfg, t), e.handling, 0);
  }

  /** One turn expires what was in the buffer and stale at its clock. */
  lemma TurnExpires(cfg: Config, s: Ledger, e: Event, f: Finding)
    ensures f in Step(cfg, s, e).expiredApi ==> f in s.expiredApi || Leaves(cfg, s, e, f, Source.Api)
    ensures f in Step(cfg, s, e).expiredCode ==> f in s.expiredCode || Leaves(cfg, s, e, f, Source.Code)
  {
    if !s.crashed && Relevant(e) {
      StepKeepsExpired(cfg, s, e);
      PassExpires(cfg, s, e, f);
    }
  }

  /** Whatever the account calls expired left its buffer in some turn, stale at that turn's clock. */
  lemma {:induction false} ExpiredWereStale(cfg: Config, events: seq<Event>, f: Finding)
    ensures f in Run(cfg, events).expiredApi ==> exists i :: LeavesIn(cfg, events, f, Source.Api, i)
    ensures f in Run(cfg, events).expiredCode ==> exists i :: LeavesIn(cfg, events, f, Source.Code, i)
  {
    if events != [] {
      var before, e := events[..|events| - 1], events[|events| - 1];
      assert events == before + [e];
      ExpiredWereStale(cfg, before, f);
      TurnExpires(cfg, Run(cfg, before), e, f);
      if f in Run(cfg, events).expiredApi { LeavesLater(cfg, before, e, f, Source.Api); }
      if f in Run(cfg, events).expiredCode { LeavesLater(cfg, before, e, f, Source.Code); }
    }
  }

  /** What one arrival pushes out of its side: the oldest finding of a full one, else nothing. */
  function PushedOut(cfg: Config, alive: bool, side: seq<Finding>, e: Event, source: Source): multiset<Finding> {
    if alive && e.Received? && e.finding.source == source && |side| == cfg.maxSize then multiset{(side + [e.finding])[0]}
    else multiset{}
  }

  lemma SidePushes(side: seq<Finding>, f: Finding, n: nat)
    requires |side| <= n
    ensures var grown, kept := side + [f], LastN(side + [f], n);
      multiset(grown[..|grown| - |kept|]) == if |side| == n then multiset{grown[0]} else multiset{}
  {
    var grown, kept := side + [f], LastN(side + [f], n);
    if |side| == n {
      assert |kept| == n && grown[..1] == [grown[0]];
    } else {
      assert kept == grown && grown[..0] == [];
    }
  }

  lemma ApiPushes(cfg: Config, s: Ledger, f: Finding)
    requires |s.api| <= cfg.maxSize && f.source.Api?
    ensures var t := AddFinding(cfg, s, f);
      && t.overflowApi == s.overflowApi + (if |s.api| == cfg.maxSize then multiset{(s.api + [f])[0]} else multiset{})
      && t.overflowCode == s.overflowCode
  {
    SidePushes(s.api, f, cfg.maxSize);
  }

  lemma CodePushes(cfg: Config, s: Ledger, f: Finding)
    requires |s.code| <= cfg.maxSize && f.source.Code?
    ensures var t := AddFinding(cfg, s, f);
      && t.overflowCode == s.overflowCode + (if |s.code| == cfg.maxSize then multiset{(s.code + [f])[0]} else multiset{})
      && t.overflowApi == s.overflowApi
  {
    SidePushes(s.code, f, cfg.maxSize);
  }

  lemma PassPushesNothing(cfg: Config, s: Ledger, e: Event)
    requires Relevant(e) && !s.crashed
    ensures Step(cfg, s, e).overflowApi == AddFinding(cfg, s, e.finding).overflowApi
    ensures Step(cfg, s, e).overflowCode == AddFinding(cfg, s, e.finding).overflowCode
  {
    var t := BeforePass(cfg, s, e.finding, e.now);
    DisposeAllKeepsAccounts(cfg, t, Pass(cfg, t), e.handling, 0);
  }

  predicate Pushes(cfg: Config, s: Ledger, e: Event, t: Ledger) {
    && t.overflowApi == s.overflowApi + PushedOut(cfg, !s.crashed, s.api, e, Source.Api)
    && t.overflowCode == s.overflowCode + PushedOut(cfg, !s.crashed, s.code, e, Source.Code)
  }

  lemma AddPushes(cfg: Config, s: Ledger, e: Event)
    requires Relevant(e) && !s.crashed && |s.api| <= cfg.maxSize && |s.code| <= cfg.maxSize
    ensures Pushes(cfg, s, e, AddFinding(cfg, s, e.finding))
  {
    if e.finding.source.Api? { ApiPushes(cfg, s, e.finding); } else { CodePushes(cfg, s, e.finding); }
  }

  lemma IdleTurn(cfg: Config, s: Ledger, e: Event)
    requires s.crashed || !Relevant(e)
    ensures Step(cfg, s, e) == s && Pushes(cfg, s, e, s)
  {
  }

  lemma SamePushes(cfg: Config, s: Ledger, e: Event, t: Ledger, u: Ledger)
    requires Pushes(cfg, s, e, t) && u.overflowApi == t.overflowApi && u.overflowCode == t.overflowCode
    ensures Pushes(cfg, s, e, u)
  {
  }

  /** In every run each turn overflows a side only if it is full, and then by its oldest finding. */
  lemma OverflowsOldestOfFullSide(cfg: Config, events: seq<Event>, e: Event)
    ensures Pushes(cfg, Run(cfg, events), e, Run(cfg, events + [e]))
  {
    var s := Run(cfg, events);
    RunSnoc(cfg, events, e);
    RunKeepsInv(cfg, events);
    if s.crashed || !Relevant(e) {
      IdleTurn(cfg, s, e);
    } else {
      AddPushes(cfg, s, e);
      PassPushesNothing(cfg, s, e);
      SamePushes(cfg, s, e, AddFinding(cfg, s, e.finding), Run(cfg, events + [e]));
    }
  }

  function Taken(before: seq<Finding>, e: Event, source: Source): seq<Finding> {
    if e.Received? && e.finding.source == source then before + [e.finding] else before
  }

  /** The findings of one source among the events, in order. */
  function Consumed(events: seq<Event>, source: Source): seq<Finding> {
    if events == [] then [] else Taken(Consumed(events[..|events| - 1], source), events[|events| - 1], source)
  }

  lemma {:induction false} DisposeAllSeen(cfg: Config, t: Ledger, m: seq<Pair>, handling: nat -> Handling, k: nat)
    ensures DisposeAll(cfg, t, m, handling, k).seenApi == t.seenApi
    ensures DisposeAll(cfg, t, m, handling, k).seenCode == t.seenCode
    decreases |m|
  {
    if m != [] {
      var j := Judge(cfg, m[0].0, m[0].1, handling(k));
      if j.Some? { DisposeAllSeen(cfg, Removed(t, j.value), m[1..], handling, k + 1); }
    }
  }

  lemma TurnSeen(cfg: Config, s: Ledger, e: Event)
    ensures s.crashed ==> Step(cfg, s, e) == s
    ensures !s.crashed ==> Step(cfg, s, e).seenApi == Taken(s.seenApi, e, Source.Api)
    ensures !s.crashed ==> Step(cfg, s, e).seenCode == Taken(s.seenCode, e, Source.Code)
  {
    if !s.crashed && Relevant(e) {
      var t := BeforePass(cfg, s, e.finding, e.now);
      DisposeAllSeen(cfg, t, Pass(cfg, t), e.handling, 0);
    }
  }

  lemma RunSnoc(cfg: Config, events: seq<Event>, e: Event)
    ensures Run(cfg, events + [e]) == Step(cfg, Run(cfg, events), e)
  {
    assert (events + [e])[..|events|] == events;
  }

  lemma ConsumedSnoc(events: seq<Event>, e: Event, source: Source)
    ensures Consumed(events + [e], source) == Taken(Consumed(events, source), e, source)
  {
    assert (events + [e])[..|events|] == events;
  }

  predicate SeenAll(cfg: Config, events: seq<Event>) {
    && Run(cfg, events).seenApi == Consumed(events, Source.Api)
    && Run(cfg, events).seenCode == Consumed(events, Source.Code)
  }

  lemma AliveBefore(cfg: Config, before: seq<Event>, e: Event, events: seq<Event>)
    requires events != [] && before == events[..|events| - 1] && e == events[|events| - 1]
    ensures !Run(cfg, events).crashed ==> !Run(cfg, before).crashed
  {
    assert events == before + [e];
    RunSnoc(cfg, before, e);
    DeadTurn(cfg, Run(cfg, before), e);
  }

  lemma DeadTurn(cfg: Config, s: Ledger, e: Event)
    ensures s.crashed ==> Step(cfg, s, e) == s
  {
  }

  lemma SeenStep(cfg: Config, before: seq<Event>, e: Event, events: seq<Event>)
    requires events != [] && before == events[..|events| - 1] && e == events[|events| - 1]
    requires !Run(cfg, before).crashed && SeenAll(cfg, before)
    ensures SeenAll(cfg, events)
  {
    assert events == before + [e];
    RunSnoc(cfg, before, e);
    TurnSeen(cfg, Run(cfg, before), e);
    ConsumedSnoc(before, e, Source.Api);
    ConsumedSnoc(before, e, Source.Code);
  }

  /** The account starts from everything received, as long as the loop lives. */
  lemma {:induction false} SeenIsConsumed(cfg: Config, events: seq<Event>)
    requires !Run(cfg, events).crashed
    ensures SeenAll(cfg, events)
  {
    if events != [] {
      var before, e := events[..|events| - 1], events[|events| - 1];
      AliveBefore(cfg, before, e, events);
      SeenIsConsumed(cfg, before);
      SeenStep(cfg, before, e, events);
    }
  }

  predicate AllValid(events: seq<Event>) {
    forall i :: 0 <= i < |events| && events[i].Received? ==> ValidFinding(events[i].finding)
  }

  lemma {:induction false} ConsumedValid(events: seq<Event>, source: Source)
    requires AllValid(events)
    ensures forall f :: f in Consumed(events, source) ==> ValidFinding(f)
  {
    if events != [] {
      ConsumedValid(events[..|events| - 1], source);
    }
  }

  lemma BuffersValid(cfg: Config, events: seq<Event>)
    requires AllValid(events) && !Run(cfg, events).crashed
    ensures forall f :: f in Run(cfg, events).api || f in Run(cfg, events).code ==> ValidFinding(f)
  {
    SeenIsConsumed(cfg, events);
    RunKeepsInv(cfg, events);
    ConsumedValid(events, Source.Api);
    ConsumedValid(events, Source.Code);
    Members(Run(cfg, events).api, Run(cfg, events).seenApi);
    Members(Run(cfg, events).code, Run(cfg, events).seenCode);
  }

  /** Building the alert raises exactly for a confident pair with an empty text. */
  lemma JudgeRaisesIff(cfg: Config, a: Finding, c: Finding, h: Handling)
    requires ValidFinding(a) && ValidFinding(c) && ValidTexts(cfg.texts) && h.clock > 0.0
    ensures Judge(cfg, a, c, h).None? <==> ComputeConfidence(a, c) >= cfg.minConfidence && HasEmptyText(a, c)
  {
    ConfidenceBounded(a, c);
    assert IsAdvice(LookupRootCause(cfg.texts, a.kind, c.kind));
  }

  lemma OutcomeCrash(cfg: Config, t: Ledger, m: seq<Pair>, handling: nat -> Handling)
    requires !t.crashed
    ensures Outcome(cfg, t, m, handling).crashed <==> m != [] && Judge(cfg, m[0].0, m[0].1, handling(0)).None?
  {
  }

  lemma NewestMatchFrom(cfg: Config, s: Ledger, f: Finding, now: real)
    ensures forall p :: p in NewestMatch(cfg, s, f, now) ==> p.0 in s.api + [f] && p.1 in s.code + [f]
  {
    FreshMembers(s.api, now, cfg.window);
    FreshMembers(s.code, now, cfg.window);
    NewestMatchIsOne(cfg, s, f, now);
  }

  /**
    The loop dies in a turn exactly when the new match is confident enough and
    carries an empty endpoint, file or trace id: building the alert raises and
    nothing catches it.
  */
  lemma CrashIffEmptyText(cfg: Config, events: seq<Event>, e: Event)
    requires !Run(cfg, events).crashed && Relevant(e) && AllValid(events) && ValidFinding(e.finding) && ValidTexts(cfg.texts)
    requires e.handling(0).clock > 0.0
    ensures var m := NewestMatch(cfg, Run(cfg, events), e.finding, e.now);
      Run(cfg, events + [e]).crashed <==>
        m != [] && ComputeConfidence(m[0].0, m[0].1) >= cfg.minConfidence && HasEmptyText(m[0].0, m[0].1)
  {
    var s := Run(cfg, events);
    var m := NewestMatch(cfg, s, e.finding, e.now);
    RunSnoc(cfg, events, e);
    RunKeepsInv(cfg, events);
    TurnOutcome(cfg, s, e);
    OutcomeCrash(cfg, BeforePass(cfg, s, e.finding, e.now), m, e.handling);
    if m != [] {
      BuffersValid(cfg, events);
      NewestMatchFrom(cfg, s, e.finding, e.now);
      assert m[0] in m;
      JudgeRaisesIff(cfg, m[0].0, m[0].1, e.handling(0));
    }
  }
}
