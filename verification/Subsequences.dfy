/** Keeping some elements of a sequence, in order. */
module Subsequences {
  /** The last n elements, all of them if there are fewer. */
  function LastN<T>(s: seq<T>, n: nat): seq<T> {
    if |s| <= n then s else s[|s| - n..]
  }

  predicate Subseq<T(==)>(xs: seq<T>, ys: seq<T>) {
    || xs == []
    || (ys != [] && ((xs[|xs| - 1] == ys[|ys| - 1] && Subseq(xs[..|xs| - 1], ys[..|ys| - 1])) || Subseq(xs, ys[..|ys| - 1])))
  }

  lemma {:induction false} Refl<T>(xs: seq<T>)
    ensures Subseq(xs, xs)
  {
    if xs != [] { Refl(xs[..|xs| - 1]); }
  }

  lemma Snoc<T>(xs: seq<T>, ys: seq<T>, z: T)
    requires Subseq(xs, ys)
    ensures Subseq(xs + [z], ys + [z]) && Subseq(xs, ys + [z])
  {
    assert (xs + [z])[..|xs|] == xs && (ys + [z])[..|ys|] == ys;
  }

  lemma {:induction false} Trans<T>(xs: seq<T>, ys: seq<T>, zs: seq<T>)
    requires Subseq(xs, ys) && Subseq(ys, zs)
    ensures Subseq(xs, zs)
    decreases |zs|
  {
    if xs != [] {
      var ys0, zs0 := ys[..|ys| - 1], zs[..|zs| - 1];
      if Subseq(ys, zs0) {
        Trans(xs, ys, zs0);
      } else if Subseq(xs, ys0) {
        Trans(xs, ys0, zs0);
      } else {
        Trans(xs[..|xs| - 1], ys0, zs0);
      }
    }
  }

  lemma {:induction false} DropPrefix<T>(xs: seq<T>, k: nat)
    requires k <= |xs|
    ensures Subseq(xs[k..], xs)
    decreases |xs|
  {
    if k < |xs| {
      DropPrefix(xs[..|xs| - 1], k);
      assert xs[k..][..|xs| - k - 1] == xs[..|xs| - 1][k..];
    }
  }

  lemma {:induction false} DropOne<T>(xs: seq<T>, i: nat)
    requires i < |xs|
    ensures Subseq(xs[..i] + xs[i + 1..], xs)
    decreases |xs|
  {
    var init := xs[..|xs| - 1];
    if i == |xs| - 1 {
      Refl(init);
      assert xs[..i] + xs[i + 1..] == init;
    } else {
      DropOne(init, i);
      Snoc(init[..i] + init[i + 1..], init, xs[|xs| - 1]);
      assert xs[..i] == init[..i];
      assert xs[i + 1..] == init[i + 1..] + [xs[|xs| - 1]];
      assert xs[..i] + xs[i + 1..] == init[..i] + init[i + 1..] + [xs[|xs| - 1]];
      assert xs == init + [xs[|xs| - 1]];
    }
  }

  lemma {:induction false} Members<T>(xs: seq<T>, ys: seq<T>)
    requires Subseq(xs, ys)
    ensures forall x :: x in xs ==> x in ys
    decreases |ys|
  {
    if xs != [] {
      var xs0, ys0 := xs[..|xs| - 1], ys[..|ys| - 1];
      if Subseq(xs, ys0) { Members(xs, ys0); } else { Members(xs0, ys0); }
      assert xs == xs0 + [xs[|xs| - 1]] && forall y :: y in ys0 ==> y in ys;
    }
  }
}
