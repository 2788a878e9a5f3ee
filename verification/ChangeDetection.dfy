/**
  Which files have changed (`_has_changed`, watchers/code_watcher.py, lines
  93-165): a bounded table of hashes in recency order, against the full history
  of successful accesses.
*/
module ChangeDetection {
  import opened Schema
  import opened Subsequences

  datatype Entry = Entry(path: string, hash: string)

  function Paths(es: seq<Entry>): set<string> {
    if es == [] then {} else Paths(es[..|es| - 1]) + {es[|es| - 1].path}
  }

  predicate Distinct(es: seq<Entry>) {
    es == [] || (Distinct(es[..|es| - 1]) && es[|es| - 1].path !in Paths(es[..|es| - 1]))
  }

  function Without(es: seq<Entry>, path: string): (r: seq<Entry>)
    ensures |r| <= |es|
  {
    if es == [] then []
    else
      var r := Without(es[..|es| - 1], path);
      if es[|es| - 1].path == path then r else r + [es[|es| - 1]]
  }

  /** Every path ever accessed with its last hash, least recently accessed first. */
  function Recency(trace: seq<Entry>): seq<Entry> {
    if trace == [] then []
    else Without(Recency(trace[..|trace| - 1]), trace[|trace| - 1].path) + [trace[|trace| - 1]]
  }

  /** trace[i] is the last access of its path. */
  predicate LastAccess(trace: seq<Entry>, path: string, i: int) {
    0 <= i < |trace| && trace[i].path == path && path !in Paths(trace[i + 1..])
  }

  /** The path's previous access saw this hash, and fewer than n other paths were accessed since. */
  ghost predicate RecentlySeen(trace: seq<Entry>, n: nat, path: string, hash: string) {
    exists i :: LastAccess(trace, path, i) && trace[i].hash == hash && |Paths(trace[i + 1..])| < n
  }

  // ------------------------------------------------------------ sets of paths

  lemma {:induction false} PathsConcat(xs: seq<Entry>, ys: seq<Entry>)
    ensures Paths(xs + ys) == Paths(xs) + Paths(ys)
  {
    if ys == [] {
      assert xs + ys == xs;
    } else {
      assert (xs + ys)[..|xs + ys| - 1] == xs + ys[..|ys| - 1];
      PathsConcat(xs, ys[..|ys| - 1]);
    }
  }

  lemma PathsSnoc(xs: seq<Entry>, e: Entry)
    ensures Paths(xs + [e]) == Paths(xs) + {e.path}
  {
    assert (xs + [e])[..|xs|] == xs;
  }

  lemma {:induction false} PathsMember(es: seq<Entry>, i: nat)
    requires i < |es|
    ensures es[i].path in Paths(es)
  {
    if i < |es| - 1 { PathsMember(es[..|es| - 1], i); }
  }

  lemma {:induction false} DistinctCount(es: seq<Entry>)
    requires Distinct(es)
    ensures |Paths(es)| == |es|
  {
    if es != [] { DistinctCount(es[..|es| - 1]); }
  }

  lemma {:induction false} DistinctParts(xs: seq<Entry>, ys: seq<Entry>)
    requires Distinct(xs + ys)
    ensures Distinct(xs) && Distinct(ys) && Paths(xs) !! Paths(ys)
  {
    if ys == [] {
      assert xs + ys == xs;
    } else {
      var init := ys[..|ys| - 1];
      assert (xs + ys)[..|xs + ys| - 1] == xs + init;
      DistinctParts(xs, init);
      PathsConcat(xs, init);
    }
  }

  lemma WithoutSnoc(es: seq<Entry>, e: Entry, path: string)
    ensures Without(es + [e], path) == if e.path == path then Without(es, path) else Without(es, path) + [e]
  {
    assert (es + [e])[..|es|] == es;
  }

  lemma {:induction false} WithoutPaths(es: seq<Entry>, path: string)
    ensures Paths(Without(es, path)) == Paths(es) - {path}
    ensures path !in Paths(es) ==> Without(es, path) == es
  {
    if es != [] {
      var init, last := es[..|es| - 1], es[|es| - 1];
      WithoutPaths(init, path);
      PathsSnoc(Without(init, path), last);
      PathsSnoc(init, last);
      WithoutSnoc(init, last, path);
      assert es == init + [last];
    }
  }

  lemma DistinctSnoc(es: seq<Entry>, e: Entry)
    ensures Distinct(es + [e]) <==> Distinct(es) && e.path !in Paths(es)
  {
    assert (es + [e])[..|es|] == es;
  }

  lemma {:induction false} WithoutDistinct(es: seq<Entry>, path: string)
    requires Distinct(es)
    ensures Distinct(Without(es, path))
    ensures |Without(es, path)| == if path in Paths(es) then |es| - 1 else |es|
  {
    if es != [] {
      var init, last := es[..|es| - 1], es[|es| - 1];
      assert es == init + [last];
      DistinctSnoc(init, last);
      WithoutDistinct(init, path);
      WithoutPaths(init, path);
      WithoutSnoc(init, last, path);
      PathsSnoc(init, last);
      DistinctSnoc(Without(init, path), last);
    }
  }

  lemma WithoutOne(e: Entry, path: string)
    ensures Without([e], path) == if e.path == path then [] else [e]
    ensures Paths([e]) == {e.path}
  {
    assert [e][..0] == [];
    assert [] + [e] == [e];
  }

  lemma {:induction false} WithoutConcat(xs: seq<Entry>, ys: seq<Entry>, path: string)
    ensures Without(xs + ys, path) == Without(xs, path) + Without(ys, path)
  {
    if ys == [] {
      assert xs + ys == xs;
    } else {
      assert (xs + ys)[..|xs + ys| - 1] == xs + ys[..|ys| - 1];
      WithoutConcat(xs, ys[..|ys| - 1], path);
    }
  }

  // ------------------------------------------------------- recency and history

  lemma {:induction false} RecencyDistinct(trace: seq<Entry>)
    ensures Distinct(Recency(trace)) && Paths(Recency(trace)) == Paths(trace)
  {
    if trace != [] {
      var init, last := trace[..|trace| - 1], trace[|trace| - 1];
      var rest := Without(Recency(init), last.path);
      RecencyDistinct(init);
      WithoutDistinct(Recency(init), last.path);
      WithoutPaths(Recency(init), last.path);
      assert (rest + [last])[..|rest|] == rest;
    }
  }

  lemma RecencySnoc(trace: seq<Entry>, e: Entry)
    ensures Recency(trace + [e]) == Without(Recency(trace), e.path) + [e]
  {
    assert (trace + [e])[..|trace|] == trace;
  }

  /** What stands after a path in recency order is exactly what was accessed since. */
  lemma {:induction false} AfterIsSince(before: seq<Entry>, e: Entry, since: seq<Entry>) returns (older: seq<Entry>, newer: seq<Entry>)
    requires e.path !in Paths(since)
    ensures Recency(before + [e] + since) == older + [e] + newer
    ensures Paths(newer) == Paths(since)
    decreases |since|
  {
    if since == [] {
      RecencySnoc(before, e);
      assert before + [e] + since == before + [e];
      older, newer := Without(Recency(before), e.path), [];
    } else {
      var init, last := since[..|since| - 1], since[|since| - 1];
      assert since == init + [last];
      PathsSnoc(init, last);
      var o, n := AfterIsSince(before, e, init);
      older, newer := Without(o, last.path), Without(n, last.path) + [last];
      NewerPaths(n, init, last);
      RecencyStep(before + [e] + init, o, e, n, last);
      assert before + [e] + since == before + [e] + init + [last];
    }
  }

  lemma WithoutAround(o: seq<Entry>, e: Entry, n: seq<Entry>, path: string)
    requires e.path != path
    ensures Without(o + [e] + n, path) == Without(o, path) + [e] + Without(n, path)
  {
    WithoutConcat(o + [e], n, path);
    WithoutSnoc(o, e, path);
  }

  lemma RecencyStep(trace: seq<Entry>, o: seq<Entry>, e: Entry, n: seq<Entry>, last: Entry)
    requires Recency(trace) == o + [e] + n && last.path != e.path
    ensures Recency(trace + [last]) == Without(o, last.path) + [e] + (Without(n, last.path) + [last])
  {
    RecencySnoc(trace, last);
    WithoutAround(o, e, n, last.path);
    Regroup(Without(o, last.path), e, Without(n, last.path), last);
  }

  lemma Regroup(o: seq<Entry>, e: Entry, n: seq<Entry>, last: Entry)
    ensures o + [e] + n + [last] == o + [e] + (n + [last])
  {
  }

  lemma NewerPaths(n: seq<Entry>, init: seq<Entry>, last: Entry)
    requires Paths(n) == Paths(init)
    ensures Paths(Without(n, last.path) + [last]) == Paths(init + [last])
  {
    WithoutPaths(n, last.path);
    PathsSnoc(Without(n, last.path), last);
    PathsSnoc(init, last);
  }

  lemma {:induction false} LastAccessExists(trace: seq<Entry>, path: string) returns (i: nat)
    requires path in Paths(trace)
    ensures LastAccess(trace, path, i)
  {
    var init, last := trace[..|trace| - 1], trace[|trace| - 1];
    if last.path == path {
      i := |trace| - 1;
    } else {
      i := LastAccessExists(init, path);
      assert trace[i + 1..] == init[i + 1..] + [last];
      PathsSnoc(init[i + 1..], last);
    }
  }

  lemma LastAccessUnique(trace: seq<Entry>, path: string, i: nat, m: nat)
    requires LastAccess(trace, path, i) && LastAccess(trace, path, m)
    ensures i == m
  {
    if m < i { PathsMember(trace[m + 1..], i - m - 1); }
    if i < m { PathsMember(trace[i + 1..], m - i - 1); }
  }

  lemma MemberPath(es: seq<Entry>, e: Entry)
    requires e in es
    ensures e.path in Paths(es)
  {
    var i :| 0 <= i < |es| && es[i] == e;
    PathsMember(es, i);
  }

  /** Where an entry of a distinct sequence can be. */
  lemma OnlyOnce(older: seq<Entry>, e: Entry, newer: seq<Entry>, k: nat)
    requires Distinct(older + [e] + newer) && k < |older + [e] + newer|
    requires (older + [e] + newer)[k].path == e.path
    ensures k == |older|
  {
    DistinctParts(older + [e], newer);
    DistinctParts(older, [e]);
    WithoutOne(e, e.path);
    PathsConcat(older, [e]);
    if k < |older| { PathsMember(older, k); }
    if k > |older| { PathsMember(newer, k - |older| - 1); }
  }

  lemma LastNAt(es: seq<Entry>, n: nat, k: nat)
    requires k < |es|
    ensures |es| - k <= n ==> es[k] in LastN(es, n)
  {
    if |es| > n && |es| - k <= n { assert LastN(es, n)[k - (|es| - n)] == es[k]; }
  }

  lemma LastNFrom(es: seq<Entry>, n: nat, x: Entry) returns (k: nat)
    requires x in LastN(es, n)
    ensures k < |es| && es[k] == x && |es| - k <= n
  {
    var t :| 0 <= t < |LastN(es, n)| && LastN(es, n)[t] == x;
    k := t + |es| - |LastN(es, n)|;
  }

  /** An entry is among the last n of a distinct sequence exactly when fewer than n follow it. */
  lemma InLastN(older: seq<Entry>, e: Entry, newer: seq<Entry>, n: nat, hash: string)
    requires Distinct(older + [e] + newer)
    ensures Entry(e.path, hash) in LastN(older + [e] + newer, n) <==> e.hash == hash && |newer| < n
  {
    var all, x := older + [e] + newer, Entry(e.path, hash);
    assert all[|older|] == e;
    if x in LastN(all, n) {
      var k := LastNFrom(all, n, x);
      OnlyOnce(older, e, newer, k);
    }
    LastNAt(all, n, |older|);
  }

  /** The bounded table knows a hash exactly when the history says it was seen recently enough. */
  lemma TableKnowsRecent(trace: seq<Entry>, n: nat, path: string, hash: string)
    ensures Entry(path, hash) in LastN(Recency(trace), n) <==> RecentlySeen(trace, n, path, hash)
  {
    RecencyDistinct(trace);
    if path in Paths(trace) {
      var i := LastAccessExists(trace, path);
      assert trace == trace[..i] + [trace[i]] + trace[i + 1..];
      var older, newer := AfterIsSince(trace[..i], trace[i], trace[i + 1..]);
      InLastN(older, trace[i], newer, n, hash);
      DistinctParts(older + [trace[i]], newer);
      DistinctCount(newer);
      forall m | LastAccess(trace, path, m) ensures m == i { LastAccessUnique(trace, path, i, m); }
    } else {
      if Entry(path, hash) in LastN(Recency(trace), n) { MemberPath(Recency(trace), Entry(path, hash)); }
      forall m ensures !LastAccess(trace, path, m) {
        if LastAccess(trace, path, m) { PathsMember(trace, m); }
      }
    }
  }

  lemma SubsetCount<T>(a: set<T>, b: set<T>)
    requires a <= b
    ensures |a| <= |b|
  {
    assert b == a + (b - a);
  }

  /** With no more paths than the table holds, it agrees with an unbounded map from path to last hash. */
  lemma AgreesWithUnboundedMap(trace: seq<Entry>, n: nat, path: string, hash: string)
    requires |Paths(trace)| <= n
    ensures Entry(path, hash) in LastN(Recency(trace), n) <==> exists i :: LastAccess(trace, path, i) && trace[i].hash == hash
  {
    TableKnowsRecent(trace, n, path, hash);
    forall i | LastAccess(trace, path, i)
      ensures |Paths(trace[i + 1..])| < n
    {
      PathsSince(trace, path, i);
    }
  }

  lemma PathsSince(trace: seq<Entry>, path: string, i: nat)
    requires LastAccess(trace, path, i)
    ensures |Paths(trace[i + 1..])| < |Paths(trace)|
  {
    var since := Paths(trace[i + 1..]);
    assert trace == trace[..i + 1] + trace[i + 1..];
    PathsConcat(trace[..i + 1], trace[i + 1..]);
    PathsMember(trace, i);
    SubsetCount(since + {path}, Paths(trace));
  }

  // ------------------------------------------------------------------ the table

  lemma LastNTail(xs: seq<Entry>, ys: seq<Entry>, n: nat)
    requires xs == [] || |ys| >= n
    ensures LastN(xs + ys, n) == LastN(ys, n)
  {
    if xs == [] { assert xs + ys == ys; }
  }

  /** What was cut off before makes no difference to the table after a touch. */
  lemma CutThenTouch(cut: seq<Entry>, table: seq<Entry>, e: Entry)
    requires Distinct(table)
    ensures LastN(Without(cut + table, e.path) + [e], |table|) == LastN(Without(table, e.path) + [e], |table|)
  {
    var kept := Without(table, e.path) + [e];
    WithoutConcat(cut, table, e.path);
    WithoutDistinct(table, e.path);
    assert Without(cut, e.path) + Without(table, e.path) + [e] == Without(cut, e.path) + kept;
    LastNTail(Without(cut, e.path), kept, |table|);
  }

  lemma TouchTable(all: seq<Entry>, n: nat, e: Entry)
    requires Distinct(all)
    ensures LastN(Without(all, e.path) + [e], n) == LastN(Without(LastN(all, n), e.path) + [e], n)
  {
    LastNDistinct(all, n);
    if |all| > n {
      var cut := CutOff(all, n);
      CutThenTouch(cut, LastN(all, n), e);
    }
  }

  lemma CutOff(all: seq<Entry>, n: nat) returns (cut: seq<Entry>)
    requires |all| > n
    ensures all == cut + LastN(all, n) && |LastN(all, n)| == n
  {
    cut := all[..|all| - n];
  }

  /** One access keeps the table equal to the most recent part of the history. */
  lemma TouchKeepsRecent(trace: seq<Entry>, n: nat, e: Entry)
    ensures LastN(Recency(trace + [e]), n) == LastN(Without(LastN(Recency(trace), n), e.path) + [e], n)
  {
    RecencySnoc(trace, e);
    RecencyDistinct(trace);
    TouchTable(Recency(trace), n, e);
  }

  lemma WithoutAt(es: seq<Entry>, i: nat)
    requires Distinct(es) && i < |es|
    ensures Without(es, es[i].path) == es[..i] + es[i + 1..]
  {
    var older, e, newer := es[..i], es[i], es[i + 1..];
    assert es == older + [e] + newer;
    WithoutMiddle(older, e, newer);
  }

  lemma WithoutMiddle(older: seq<Entry>, e: Entry, newer: seq<Entry>)
    requires Distinct(older + [e] + newer)
    ensures Without(older + [e] + newer, e.path) == older + newer
  {
    WithoutConcat(older + [e], newer, e.path);
    WithoutSnoc(older, e, e.path);
    ElsewhereDistinct(older, e, newer);
    WithoutPaths(older, e.path);
    WithoutPaths(newer, e.path);
  }

  lemma ElsewhereDistinct(older: seq<Entry>, e: Entry, newer: seq<Entry>)
    requires Distinct(older + [e] + newer)
    ensures e.path !in Paths(older) && e.path !in Paths(newer)
  {
    DistinctParts(older + [e], newer);
    DistinctSnoc(older, e);
    PathsSnoc(older, e);
  }

  class FileHashes {
    const maxTracked: nat
    /** The OrderedDict, oldest first. */
    var table: seq<Entry>
    /** Every successful access so far. */
    ghost var trace: seq<Entry>

    ghost predicate Valid()
      reads this
    {
      table == LastN(Recency(trace), maxTracked)
    }

    constructor (maxTracked: nat)
      ensures Valid() && trace == [] && this.maxTracked == maxTracked
    {
      this.maxTracked := maxTracked;
      table, trace := [], [];
    }

    /** OrderedDict lookup: |table| when the path is not tracked. */
    method Find(path: string) returns (i: nat)
      requires Distinct(table)
      ensures i <= |table|
      ensures i < |table| ==> table[i].path == path
      ensures i == |table| ==> path !in Paths(table)
      ensures i < |table| <==> exists h :: Entry(path, h) in table
      ensures i < |table| ==> forall h :: Entry(path, h) in table <==> h == table[i].hash
    {
      i := 0;
      while i < |table| && table[i].path != path
        invariant i <= |table| && path !in Paths(table[..i])
      {
        assert table[..i + 1][..i] == table[..i];
        i := i + 1;
      }
      assert table[..|table|] == table;
      if i < |table| {
        assert table == table[..i] + [table[i]] + table[i + 1..];
        forall h ensures Entry(path, h) in table <==> h == table[i].hash {
          InLastN(table[..i], table[i], table[i + 1..], |table|, h);
        }
        assert Entry(path, table[i].hash) in table;
      } else {
        forall h ensures Entry(path, h) !in table {
          if Entry(path, h) in table { MemberPath(table, Entry(path, h)); }
        }
      }
    }

    /** Drop from the front until the table fits. */
    method Shrink()
      modifies this`table
      ensures table == LastN(old(table), maxTracked)
    {
      while |table| > maxTracked
        invariant |table| <= |old(table)| && table == old(table)[|old(table)| - |table|..]
        invariant |table| >= maxTracked || table == old(table)
      {
        table := table[1..];
      }
    }

    /**
      `read` is the file's hash, or None if it could not be read.  "Changed" is
      reported exactly for a readable file whose hash was not seen recently
      enough; an unreadable file leaves the table alone and reads as unchanged.
    */
    method HasChanged(path: string, read: Option<string>) returns (changed: bool)
      requires Valid()
      modifies this
      ensures Valid()
      ensures read.None? ==> !changed && trace == old(trace) && table == old(table)
      ensures read.Some? ==> trace == old(trace) + [Entry(path, read.value)]
      ensures read.Some? ==> (changed <==> !RecentlySeen(old(trace), maxTracked, path, read.value))
    {
      if read.None? {
        return false;
      }
      var e := Entry(path, read.value);
      RecencyDistinct(trace);
      LastNDistinct(Recency(trace), maxTracked);
      TableKnowsRecent(trace, maxTracked, path, read.value);
      TouchKeepsRecent(trace, maxTracked, e);
      var i := Find(path);
      trace := trace + [e];
      if i < |table| {
        WithoutAt(table, i);
        if table[i].hash == read.value {
          table := table[..i] + table[i + 1..] + [table[i]];
          return false;
        }
        table := table[..i] + table[i + 1..] + [e];
      } else {
        WithoutPaths(table, path);
        table := table + [e];
      }
      Shrink();
      changed := true;
    }
  }

  lemma LastNDistinct(es: seq<Entry>, n: nat)
    requires Distinct(es)
    ensures Distinct(LastN(es, n))
  {
    if |es| > n {
      assert es == es[..|es| - n] + es[|es| - n..];
      DistinctParts(es[..|es| - n], es[|es| - n..]);
    }
  }
}
