/**
  The greedy one-to-one matching of `_CorrelationBuffer.find_matches`
  (watchers/correlator.py, lines 179-208), and how good it is.
*/
module Matching {
  import opened Schema
  import opened Correlation
  import opened Subsequences

  type Pair = (Finding, Finding)

  predicate IsFresh(f: Finding, now: real, window: real) {
    now - f.timestamp < window
  }

  /** The findings younger than the window, in order. */
  function Fresh(fs: seq<Finding>, now: real, window: real): (r: seq<Finding>)
    ensures |r| <= |fs|
  {
    if fs == [] then []
    else
      var r := Fresh(fs[..|fs| - 1], now, window);
      if IsFresh(fs[|fs| - 1], now, window) then r + [fs[|fs| - 1]] else r
  }

  lemma {:induction false} FreshMembers(fs: seq<Finding>, now: real, window: real)
    ensures forall f :: f in Fresh(fs, now, window) <==> f in fs && IsFresh(f, now, window)
  {
    if fs != [] {
      FreshMembers(fs[..|fs| - 1], now, window);
      assert fs == fs[..|fs| - 1] + [fs[|fs| - 1]];
    }
  }

  lemma FreshSnoc(fs: seq<Finding>, f: Finding, now: real, window: real)
    ensures Fresh(fs + [f], now, window) == if IsFresh(f, now, window) then Fresh(fs, now, window) + [f] else Fresh(fs, now, window)
  {
    assert (fs + [f])[..|fs|] == fs;
  }

  lemma {:induction false} FreshSubset(fs: seq<Finding>, now: real, window: real)
    ensures multiset(Fresh(fs, now, window)) <= multiset(fs)
    ensures Subseq(Fresh(fs, now, window), fs)
  {
    if fs != [] {
      var init, last := fs[..|fs| - 1], fs[|fs| - 1];
      assert fs == init + [last];
      FreshSubset(init, now, window);
      FreshSnoc(init, last, now, window);
      Snoc(Fresh(init, now, window), init, last);
    }
  }

  lemma {:induction false} FreshCounts(fs: seq<Finding>, f: Finding, now: real, window: real)
    requires IsFresh(f, now, window)
    ensures multiset(Fresh(fs, now, window))[f] == multiset(fs)[f]
  {
    if fs != [] {
      var init, last := fs[..|fs| - 1], fs[|fs| - 1];
      assert fs == init + [last];
      FreshCounts(init, f, now, window);
      FreshSnoc(init, last, now, window);
    }
  }

  /** `used` lists the code ids already taken. */
  predicate Available(window: real, api: Finding, code: Finding, used: set<string>) {
    code.id !in used && ShareScope(window, api, code)
  }

  /** codes[i] is available to `api` and nothing before it is. */
  predicate IsEarliest(window: real, api: Finding, codes: seq<Finding>, used: set<string>, i: int) {
    0 <= i < |codes| && Available(window, api, codes[i], used) && forall j :: 0 <= j < i ==> !Available(window, api, codes[j], used)
  }

  /** The earliest code finding that `api` can still take. */
  function FirstPartner(window: real, api: Finding, codes: seq<Finding>, used: set<string>): (r: Option<Finding>)
    ensures r.Some? ==> exists i :: IsEarliest(window, api, codes, used, i) && codes[i] == r.value
    ensures r.None? ==> forall c :: c in codes ==> !Available(window, api, c, used)
  {
    if codes == [] then None
    else if Available(window, api, codes[0], used) then
      assert IsEarliest(window, api, codes, used, 0);
      Some(codes[0])
    else
      var r := FirstPartner(window, api, codes[1..], used);
      assert forall i :: IsEarliest(window, api, codes[1..], used, i) ==> IsEarliest(window, api, codes, used, i + 1);
      r
  }

  /** Each API finding in turn takes its earliest available partner. */
  function Greedy(window: real, apis: seq<Finding>, codes: seq<Finding>, usedApi: set<string>, usedCode: set<string>): seq<Pair>
  {
    if apis == [] then []
    else
      var partner := if apis[0].id in usedApi then None else FirstPartner(window, apis[0], codes, usedCode);
      match partner
      case None => Greedy(window, apis[1..], codes, usedApi, usedCode)
      case Some(c) => [(apis[0], c)] + Greedy(window, apis[1..], codes, usedApi + {apis[0].id}, usedCode + {c.id})
  }

  function ApiIds(m: seq<Pair>): set<string> {
    set p | p in m :: p.0.id
  }

  function CodeIds(m: seq<Pair>): set<string> {
    set p | p in m :: p.1.id
  }

  /** No finding id is used twice on either side. */
  predicate OneToOne(m: seq<Pair>) {
    forall i, j :: 0 <= i < j < |m| ==> m[i].0.id != m[j].0.id && m[i].1.id != m[j].1.id
  }

  predicate InScope(window: real, apis: seq<Finding>, codes: seq<Finding>, m: seq<Pair>) {
    forall p :: p in m ==> p.0 in apis && p.1 in codes && ShareScope(window, p.0, p.1)
  }

  lemma {:induction false} GreedyInScope(window: real, apis: seq<Finding>, codes: seq<Finding>, usedApi: set<string>, usedCode: set<string>)
    ensures InScope(window, apis, codes, Greedy(window, apis, codes, usedApi, usedCode))
  {
    if apis != [] {
      var partner := if apis[0].id in usedApi then None else FirstPartner(window, apis[0], codes, usedCode);
      match partner
      case None => GreedyInScope(window, apis[1..], codes, usedApi, usedCode);
      case Some(c) => GreedyInScope(window, apis[1..], codes, usedApi + {apis[0].id}, usedCode + {c.id});
    }
  }

  lemma ConsOneToOne(p: Pair, m: seq<Pair>)
    requires OneToOne(m) && p.0.id !in ApiIds(m) && p.1.id !in CodeIds(m)
    ensures OneToOne([p] + m)
  {
    forall i | 0 <= i < |m| ensures m[i].0.id in ApiIds(m) && m[i].1.id in CodeIds(m) {
      assert m[i] in m;
    }
  }

  lemma ConsIds(p: Pair, m: seq<Pair>)
    ensures ApiIds([p] + m) == {p.0.id} + ApiIds(m) && CodeIds([p] + m) == {p.1.id} + CodeIds(m)
  {
    assert forall q :: q in [p] + m <==> q == p || q in m;
  }

  lemma {:induction false} GreedyOneToOne(window: real, apis: seq<Finding>, codes: seq<Finding>, usedApi: set<string>, usedCode: set<string>)
    ensures var m := Greedy(window, apis, codes, usedApi, usedCode);
      OneToOne(m) && ApiIds(m) !! usedApi && CodeIds(m) !! usedCode
  {
    if apis != [] {
      var partner := if apis[0].id in usedApi then None else FirstPartner(window, apis[0], codes, usedCode);
      match partner
      case None => GreedyOneToOne(window, apis[1..], codes, usedApi, usedCode);
      case Some(c) =>
        GreedyOneToOne(window, apis[1..], codes, usedApi + {apis[0].id}, usedCode + {c.id});
        ConsIds((apis[0], c), Greedy(window, apis[1..], codes, usedApi + {apis[0].id}, usedCode + {c.id}));
        ConsOneToOne((apis[0], c), Greedy(window, apis[1..], codes, usedApi + {apis[0].id}, usedCode + {c.id}));
    }
  }

  /** Nothing can be added: every pair in scope has an id that is already used. */
  lemma {:induction false} GreedyMaximal(window: real, apis: seq<Finding>, codes: seq<Finding>, usedApi: set<string>, usedCode: set<string>, a: Finding, c: Finding)
    requires a in apis && c in codes && ShareScope(window, a, c)
    ensures var m := Greedy(window, apis, codes, usedApi, usedCode);
      a.id in usedApi + ApiIds(m) || c.id in usedCode + CodeIds(m)
  {
    var m := Greedy(window, apis, codes, usedApi, usedCode);
    var partner := if apis[0].id in usedApi then None else FirstPartner(window, apis[0], codes, usedCode);
    match partner
    case None =>
      if a != apis[0] { GreedyMaximal(window, apis[1..], codes, usedApi, usedCode, a, c); }
    case Some(d) =>
      assert m[0] in m;
      if a != apis[0] {
        GreedyMaximal(window, apis[1..], codes, usedApi + {apis[0].id}, usedCode + {d.id}, a, c);
        assert forall p :: p in m[1..] ==> p in m;
      }
  }

  /** Pairs with distinct ids that each touch A or B number at most |A| + |B|. */
  lemma {:induction false} CoverBound(m: seq<Pair>, A: set<string>, B: set<string>)
    requires OneToOne(m)
    requires forall p :: p in m ==> p.0.id in A || p.1.id in B
    ensures |m| <= |A| + |B|
  {
    if m != [] {
      var last, rest := m[|m| - 1], m[..|m| - 1];
      assert forall i :: 0 <= i < |rest| ==> rest[i].0.id != last.0.id && rest[i].1.id != last.1.id;
      assert last in m && forall p :: p in rest ==> p in m;
      if last.0.id in A {
        CoverBound(rest, A - {last.0.id}, B);
      } else {
        CoverBound(rest, A, B - {last.1.id});
      }
    }
  }

  lemma {:induction false} IdsBound(m: seq<Pair>)
    ensures |ApiIds(m)| <= |m| && |CodeIds(m)| <= |m|
  {
    if m != [] {
      var last, rest := m[|m| - 1], m[..|m| - 1];
      IdsBound(rest);
      assert m == rest + [last];
      assert ApiIds(m) == ApiIds(rest) + {last.0.id} && CodeIds(m) == CodeIds(rest) + {last.1.id};
    }
  }

  /**
    For any buffer contents: the result is one-to-one, in scope and maximal, and
    no other one-to-one choice of in-scope pairs is more than twice as large.
  */
  lemma GreedyHalfOptimal(window: real, apis: seq<Finding>, codes: seq<Finding>, other: seq<Pair>)
    requires OneToOne(other) && InScope(window, apis, codes, other)
    ensures var m := Greedy(window, apis, codes, {}, {});
      && OneToOne(m) && InScope(window, apis, codes, m)
      && (forall a, c :: a in apis && c in codes && ShareScope(window, a, c) ==> a.id in ApiIds(m) || c.id in CodeIds(m))
      && |other| <= 2 * |m|
  {
    var m := Greedy(window, apis, codes, {}, {});
    GreedyInScope(window, apis, codes, {}, {});
    GreedyOneToOne(window, apis, codes, {}, {});
    forall a, c | a in apis && c in codes && ShareScope(window, a, c)
      ensures a.id in ApiIds(m) || c.id in CodeIds(m)
    {
      GreedyMaximal(window, apis, codes, {}, {}, a, c);
    }
    CoverBound(other, ApiIds(m), CodeIds(m));
    IdsBound(m);
  }

  /** One early API finding can take the only partner of the next. */
  lemma GreedyTakesOnlyPartner(window: real, a1: Finding, a2: Finding, c1: Finding, c2: Finding)
    requires a1.id != a2.id && c1.id != c2.id
    requires ShareScope(window, a1, c1) && ShareScope(window, a1, c2) && ShareScope(window, a2, c1) && !ShareScope(window, a2, c2)
    ensures Greedy(window, [a1, a2], [c1, c2], {}, {}) == [(a1, c1)]
    ensures OneToOne([(a1, c2), (a2, c1)]) && InScope(window, [a1, a2], [c1, c2], [(a1, c2), (a2, c1)])
  {
    assert FirstPartner(window, a1, [c1, c2], {}) == Some(c1);
    assert [a1, a2][1..] == [a2] && [a2][1..] == [] && [c1, c2][1..] == [c2];
    assert FirstPartner(window, a2, [c1, c2], {c1.id}) == None;
    assert {} + {c1.id} == {c1.id} && {} + {a1.id} == {a1.id};
    assert Greedy(window, [a2], [c1, c2], {a1.id}, {c1.id}) == [];
  }

  /**
    The factor two is reached, by four valid findings at one moment: an API and a
    code finding without a route, and one of each with different routes.
  */
  lemma GreedyNotMaximum(window: real) returns (apis: seq<Finding>, codes: seq<Finding>, other: seq<Pair>)
    requires window >= 0.0
    ensures forall f :: f in apis + codes ==> ValidFinding(f) && IsFresh(f, f.timestamp - 1.0, window)
    ensures OneToOne(other) && InScope(window, apis, codes, other)
    ensures |Greedy(window, apis, codes, {}, {})| == 1 && |other| == 2
  {
    assert !IsSpace("s"[0]);
    var a1 := Finding("1", Source.Api, Http5xx, High, "s", "s", None, None, None, None, None, 1.0, "s", "s", 1.0);
    var a2 := a1.(id := "2", endpoint := Some("/y"));
    var c1 := a1.(source := Source.Code, kind := NullDereference);
    var c2 := c1.(id := "2", endpoint := Some("/x"));
    assert "1"[0] != "2"[0] && "/x"[1] != "/y"[1];
    GreedyTakesOnlyPartner(window, a1, a2, c1, c2);
    apis, codes, other := [a1, a2], [c1, c2], [(a1, c2), (a2, c1)];
  }

  // ------------------------------------------- one new finding in a settled buffer

  /** No API finding of the one side is in scope of a code finding of the other. */
  predicate Settled(window: real, apis: seq<Finding>, codes: seq<Finding>) {
    forall a, c :: a in apis && c in codes ==> !ShareScope(window, a, c)
  }

  lemma {:induction false} SettledGreedy(window: real, apis: seq<Finding>, codes: seq<Finding>, usedApi: set<string>, usedCode: set<string>)
    requires Settled(window, apis, codes)
    ensures Greedy(window, apis, codes, usedApi, usedCode) == []
  {
    if apis != [] {
      SettledGreedy(window, apis[1..], codes, usedApi, usedCode);
    }
  }

  /** A new API finding at the end takes the earliest partner, and nothing else is matched. */
  lemma {:induction false} NewApiMatch(window: real, apis: seq<Finding>, f: Finding, codes: seq<Finding>)
    requires Settled(window, apis, codes)
    ensures Greedy(window, apis + [f], codes, {}, {}) ==
      match FirstPartner(window, f, codes, {}) case None => [] case Some(c) => [(f, c)]
  {
    if apis == [] {
      assert (apis + [f])[1..] == [];
    } else {
      assert (apis + [f])[1..] == apis[1..] + [f];
      NewApiMatch(window, apis[1..], f, codes);
    }
  }

  predicate IsEarliestApi(window: real, apis: seq<Finding>, code: Finding, i: int) {
    0 <= i < |apis| && ShareScope(window, apis[i], code) && forall j :: 0 <= j < i ==> !ShareScope(window, apis[j], code)
  }

  /** The earliest API finding in scope of `code`. */
  function FirstApi(window: real, apis: seq<Finding>, code: Finding): (r: Option<Finding>)
    ensures r.Some? ==> exists i :: IsEarliestApi(window, apis, code, i) && apis[i] == r.value
    ensures r.None? ==> forall a :: a in apis ==> !ShareScope(window, a, code)
  {
    if apis == [] then None
    else if ShareScope(window, apis[0], code) then
      assert IsEarliestApi(window, apis, code, 0);
      Some(apis[0])
    else
      var r := FirstApi(window, apis[1..], code);
      assert forall i :: IsEarliestApi(window, apis[1..], code, i) ==> IsEarliestApi(window, apis, code, i + 1);
      r
  }

  lemma {:induction false} PartnerIsNew(window: real, a: Finding, codes: seq<Finding>, f: Finding)
    requires forall c :: c in codes ==> !ShareScope(window, a, c)
    ensures FirstPartner(window, a, codes + [f], {}) == if ShareScope(window, a, f) then Some(f) else None
  {
    if codes == [] {
      assert codes + [f] == [f];
    } else {
      assert (codes + [f])[1..] == codes[1..] + [f];
      PartnerIsNew(window, a, codes[1..], f);
    }
  }

  /** Once the new code finding is taken nobody else finds a partner. */
  lemma {:induction false} NewCodeTaken(window: real, apis: seq<Finding>, codes: seq<Finding>, f: Finding, usedApi: set<string>)
    requires Settled(window, apis, codes)
    ensures Greedy(window, apis, codes + [f], usedApi, {f.id}) == []
  {
    if apis != [] {
      NewCodeTaken(window, apis[1..], codes, f, usedApi);
      assert apis[0] in apis;
      assert forall c :: c in codes + [f] ==> !Available(window, apis[0], c, {f.id});
    }
  }

  lemma {:induction false} NewCodeMatch(window: real, apis: seq<Finding>, codes: seq<Finding>, f: Finding)
    requires Settled(window, apis, codes)
    ensures Greedy(window, apis, codes + [f], {}, {}) ==
      match FirstApi(window, apis, f) case None => [] case Some(a) => [(a, f)]
  {
    if apis != [] {
      assert apis[0] in apis;
      PartnerIsNew(window, apis[0], codes, f);
      if ShareScope(window, apis[0], f) {
        NewCodeTaken(window, apis[1..], codes, f, {apis[0].id});
        assert {} + {f.id} == {f.id} && {} + {apis[0].id} == {apis[0].id};
      } else {
        NewCodeMatch(window, apis[1..], codes, f);
      }
    }
  }
}
