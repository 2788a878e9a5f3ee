/**
  The two bounded, time-windowed buffers of unmatched findings
  (`_CorrelationBuffer` in watchers/correlator.py, lines 159-223).
*/
module CorrelationBuffer {
  import opened Schema
  import opened Correlation
  import opened Matching
  import opened Subsequences

  function IndexOf<T(==)>(s: seq<T>, x: T): (i: nat)
    requires x in s
    ensures i < |s| && s[i] == x && x !in s[..i]
  {
    if s[0] == x then 0 else 1 + IndexOf(s[1..], x)
  }

  /** deque.remove: the first equal entry goes, if there is one. */
  function RemoveFirst<T(==)>(s: seq<T>, x: T): seq<T> {
    if x in s then s[..IndexOf(s, x)] + s[IndexOf(s, x) + 1..] else s
  }

  lemma RemoveFirstMultiset<T>(s: seq<T>, x: T)
    requires x in s
    ensures multiset(s) == multiset(RemoveFirst(s, x)) + multiset{x}
  {
    var i := IndexOf(s, x);
    assert s == s[..i] + [x] + s[i + 1..];
  }

  /** Each finding younger than the window stays as often as it was there, in order, and no other does. */
  predicate KeepsYoung(kept: seq<Finding>, side: seq<Finding>, now: real, window: real) {
    && (forall f :: f in side && now - f.timestamp < window ==> multiset(kept)[f] == multiset(side)[f])
    && (forall f :: f in kept ==> f in side && now - f.timestamp < window)
    && Subseq(kept, side)
  }

  lemma FreshKeepsYoung(side: seq<Finding>, now: real, window: real)
    ensures KeepsYoung(Fresh(side, now, window), side, now, window)
  {
    FreshMembers(side, now, window);
    FreshSubset(side, now, window);
    forall f | f in side && now - f.timestamp < window
      ensures multiset(Fresh(side, now, window))[f] == multiset(side)[f]
    {
      FreshCounts(side, f, now, window);
    }
  }

  /** The inner loop: once the API finding is used, no later code finding is taken. */
  method ScanCodes(window: real, a: Finding, codes: seq<Finding>, usedApi: set<string>, usedCode: set<string>) returns (found: Option<Finding>)
    ensures found == if a.id in usedApi then None else FirstPartner(window, a, codes, usedCode)
  {
    found := None;
    var used := a.id in usedApi;
    var j := 0;
    while j < |codes|
      invariant 0 <= j <= |codes|
      invariant used <==> a.id in usedApi || found.Some?
      invariant a.id in usedApi ==> found.None?
      invariant a.id !in usedApi ==>
        FirstPartner(window, a, codes, usedCode) == if found.Some? then found else FirstPartner(window, a, codes[j..], usedCode)
    {
      assert codes[j..][1..] == codes[j + 1..];
      if !used && codes[j].id !in usedCode && ShareScope(window, a, codes[j]) {
        found := Some(codes[j]);
        used := true;
      }
      j := j + 1;
    }
  }

  /** The nested loops. */
  method MatchAll(window: real, apis: seq<Finding>, codes: seq<Finding>) returns (matches: seq<Pair>)
    ensures matches == Greedy(window, apis, codes, {}, {})
  {
    matches := [];
    var usedApi: set<string>, usedCode: set<string> := {}, {};
    var i := 0;
    while i < |apis|
      invariant 0 <= i <= |apis|
      invariant matches + Greedy(window, apis[i..], codes, usedApi, usedCode) == Greedy(window, apis, codes, {}, {})
    {
      assert apis[i..][1..] == apis[i + 1..];
      var found := ScanCodes(window, apis[i], codes, usedApi, usedCode);
      if found.Some? {
        matches := matches + [(apis[i], found.value)];
        usedApi := usedApi + {apis[i].id};
        usedCode := usedCode + {found.value.id};
      }
      i := i + 1;
    }
  }

  class Buffer {
    const window: real
    const maxSize: nat
    var api: seq<Finding>
    var code: seq<Finding>

    ghost predicate Valid()
      reads this
    {
      |api| <= maxSize && |code| <= maxSize
    }

    constructor (window: real, maxSize: nat)
      ensures Valid() && this.window == window && this.maxSize == maxSize && api == [] && code == []
    {
      this.window := window;
      this.maxSize := maxSize;
      api := [];
      code := [];
    }

    /** Appending to a full side pushes its oldest entry out. */
    method Add(f: Finding)
      requires Valid()
      modifies this
      ensures Valid()
      ensures api == if f.source.Api? then LastN(old(api) + [f], maxSize) else old(api)
      ensures code == if f.source.Code? then LastN(old(code) + [f], maxSize) else old(code)
    {
      if f.source.Api? {
        api := LastN(api + [f], maxSize);
      } else if f.source.Code? {
        code := LastN(code + [f], maxSize);
      }
    }

    /** Drop what is too old, then match what is left. */
    method FindMatches(now: real) returns (matches: seq<Pair>)
      requires Valid()
      modifies this
      ensures Valid()
      ensures api == Fresh(old(api), now, window) && code == Fresh(old(code), now, window)
      ensures KeepsYoung(api, old(api), now, window) && KeepsYoung(code, old(code), now, window)
      ensures matches == Greedy(window, api, code, {}, {})
    {
      var freshApi := Fresh(api, now, window);
      var freshCode := Fresh(code, now, window);
      FreshKeepsYoung(api, now, window);
      FreshKeepsYoung(code, now, window);
      matches := MatchAll(window, freshApi, freshCode);
      api := LastN(freshApi, maxSize);
      code := LastN(freshCode, maxSize);
    }

    method RemovePair(a: Finding, c: Finding)
      requires Valid()
      modifies this
      ensures Valid()
      ensures api == RemoveFirst(old(api), a) && code == RemoveFirst(old(code), c)
    {
      api := RemoveFirst(api, a);
      code := RemoveFirst(code, c);
    }
  }
}
