/**
  When users hear of one fingerprint twice within a cooldown.  Claims of
  delivered alerts are a cooldown apart; a call of send_alert that does not
  return true may have told somebody all the same, and its claim is given back.
*/
module ToldTwice {
  import opened Schema
  import opened Notifier
  import opened ClaimProtocol
  import opened ClaimRuns

  /** One call of send_alert: under which claim, and what the channels did. */
  datatype Call = Call(lease: Lease, worth: bool, channels: Channels) {
    predicate Succeeded() {
      Succeeds(worth, channels)
    }
  }

  function CallsOf(s: State, step: Step): seq<Call> {
    if step.Notify? && Proc(s, step.pid).Notifying? then [Call(Proc(s, step.pid).lease, step.worth, step.channels)] else []
  }

  /** The calls made in a run, in order. */
  function Calls(c: Config, s: State, steps: seq<Step>): seq<Call> {
    if steps == [] then []
    else Calls(c, s, steps[..|steps| - 1]) + CallsOf(RunFrom(c, s, steps[..|steps| - 1]), steps[|steps| - 1])
  }

  // -------------------------------------------------- claims behind a success stand alone

  /** Somebody works under this claim, or delivered under it. */
  ghost predicate Relied(s: State, k: Lease) {
    || (exists p :: InForce(Proc(s, p), s.replies, k))
    || (exists d :: d in s.delivered && d.lease == k)
  }

  /** A granted claim is no later than one relied on, or a cooldown later. */
  predicate NotWithin(c: Config, l: Lease, k: Lease) {
    l.fp == k.fp ==> l.at <= k.at || k.at + c.cooldown <= l.at
  }

  ghost predicate GrantsApart(c: Config, s: State) {
    && (forall l :: l in s.granted ==> l.at <= s.now)
    && (forall l, k :: l in s.granted && Relied(s, k) ==> NotWithin(c, l, k))
  }

  /** The claim that this step grants. */
  predicate GrantedBy(s: State, step: Step, k: Lease) {
    && step.Apply? && step.msg in s.inflight && s.inflight[step.msg] == SetNx(k.fp, k.token)
    && !Live(s, k.fp) && k.at == s.now
  }

  lemma InForceAfterServe(c: Config, s: State, m: MessageId, p: Pid, k: Lease)
    requires Inv(c, s) && m in s.inflight && InForce(Proc(s, p), Serve(c, s, m).replies, k)
    ensures InForce(Proc(s, p), s.replies, k) || GrantedBy(s, Apply(m), k)
  {
    assert Awaits(Proc(s, p), s);
  }

  lemma InForceAfterSend(c: Config, s: State, step: Step, p: Pid, k: Lease)
    requires Messages(s) && SendStep(step)
    requires var s' := Do(c, s, step); InForce(Proc(s', p), s'.replies, k)
    ensures InForce(Proc(s, p), s.replies, k)
  {
    assert s.nextMsg !in s.replies;
  }

  lemma InForceAfter(c: Config, s: State, step: Step, p: Pid, k: Lease)
    requires Messages(s) && !step.Apply?
    requires var s' := Do(c, s, step); InForce(Proc(s', p), s'.replies, k)
    ensures InForce(Proc(s, p), s.replies, k)
  {
    if SendStep(step) { InForceAfterSend(c, s, step, p, k); }
  }

  lemma DeliveredAfter(c: Config, s: State, step: Step, d: Delivery)
    requires d in Do(c, s, step).delivered && d !in s.delivered
    ensures InForce(Proc(s, step.pid), s.replies, d.lease)
  {
  }

  lemma ReliedAfter(c: Config, s: State, step: Step, k: Lease)
    requires Inv(c, s) && Relied(Do(c, s, step), k)
    ensures Relied(s, k) || GrantedBy(s, step, k)
  {
    var s' := Do(c, s, step);
    if d :| d in s'.delivered && d.lease == k {
      if d !in s.delivered { DeliveredAfter(c, s, step, d); }
    } else {
      var p :| InForce(Proc(s', p), s'.replies, k);
      if step.Apply? {
        assert Proc(s', p) == Proc(s, p);
        if step.msg in s.inflight { InForceAfterServe(c, s, step.msg, p, k); }
      } else {
        InForceAfter(c, s, step, p, k);
      }
    }
  }

  lemma GrantedAfter(c: Config, s: State, step: Step, l: Lease)
    requires l in Do(c, s, step).granted
    ensures l in s.granted || GrantedBy(s, step, l)
    ensures Do(c, s, step).now >= s.now
  {
  }

  lemma ReliedCovered(c: Config, s: State, k: Lease)
    requires Inv(c, s) && Relied(s, k)
    ensures Covered(c, s, k)
  {
  }

  lemma StepKeepsGrantsApart(c: Config, s: State, step: Step)
    requires Inv(c, s) && GrantsApart(c, s)
    ensures GrantsApart(c, Do(c, s, step))
  {
    var s' := Do(c, s, step);
    forall l | l in s'.granted ensures l.at <= s'.now {
      GrantedAfter(c, s, step, l);
    }
    forall l, k | l in s'.granted && Relied(s', k) ensures NotWithin(c, l, k) {
      GrantedAfter(c, s, step, l);
      ReliedAfter(c, s, step, k);
      if Relied(s, k) { ReliedCovered(c, s, k); }
    }
  }

  /** Calls are made under granted claims; those that succeeded were deliveries, a cooldown apart. */
  ghost predicate CallsFit(c: Config, s: State, calls: seq<Call>) {
    && (forall i :: 0 <= i < |calls| ==> calls[i].lease in s.granted)
    && (forall i, j :: 0 <= i < j < |calls| && calls[i].Succeeded() && calls[j].Succeeded() ==> Apart(c, calls[i].lease, calls[j].lease))
    && (forall i :: 0 <= i < |calls| && calls[i].Succeeded() ==> exists d :: d in s.delivered && d.lease == calls[i].lease)
  }

  lemma HistoryGrows(c: Config, s: State, step: Step)
    ensures forall l :: l in s.granted ==> l in Do(c, s, step).granted
    ensures forall d :: d in s.delivered ==> d in Do(c, s, step).delivered
  {
  }

  lemma CallFits(c: Config, s: State, step: Step, calls: seq<Call>)
    requires Inv(c, s) && CallsFit(c, s, calls) && step.Notify? && Proc(s, step.pid).Notifying?
    ensures CallsFit(c, Do(c, s, step), calls + CallsOf(s, step))
  {
    var s', l := Do(c, s, step), Proc(s, step.pid).lease;
    HistoryGrows(c, s, step);
    assert InForce(Proc(s, step.pid), s.replies, l);
    assert l in s.granted;
    if Delivers(step) { assert s'.delivered == s.delivered + [Delivery(l, s.now)] && Delivery(l, s.now) in s'.delivered; }
    forall i | 0 <= i < |calls| && calls[i].Succeeded() ensures Apart(c, calls[i].lease, l) {
      var d :| d in s.delivered && d.lease == calls[i].lease;
      assert Apart(c, l, d.lease);
    }
  }

  lemma StepKeepsCallsFit(c: Config, s: State, step: Step, calls: seq<Call>)
    requires Inv(c, s) && CallsFit(c, s, calls)
    ensures CallsFit(c, Do(c, s, step), calls + CallsOf(s, step))
  {
    if CallsOf(s, step) == [] {
      HistoryGrows(c, s, step);
      assert calls + [] == calls;
    } else {
      CallFits(c, s, step, calls);
    }
  }

  lemma {:induction false} RunKeepsCallsFit(c: Config, steps: seq<Step>)
    requires c.Valid()
    ensures GrantsApart(c, Run(c, steps)) && CallsFit(c, Run(c, steps), Calls(c, Initial(), steps))
  {
    if steps != [] {
      var before, step := steps[..|steps| - 1], steps[|steps| - 1];
      RunKeepsCallsFit(c, before);
      RunKeepsInv(c, before);
      StepKeepsGrantsApart(c, Run(c, before), step);
      StepKeepsCallsFit(c, Run(c, before), step, Calls(c, Initial(), before));
    }
  }

  /**
    Of two calls for one fingerprint claimed less than a cooldown apart, the one
    claimed earlier did not return true; with the same claim time, not both did.
  */
  lemma EarlierDidNotSucceed(c: Config, steps: seq<Step>, i: nat, j: nat)
    requires c.Valid()
    requires var calls := Calls(c, Initial(), steps);
      && i < |calls| && j < |calls| && i != j && calls[i].lease.fp == calls[j].lease.fp
      && calls[i].lease.at <= calls[j].lease.at < calls[i].lease.at + c.cooldown
    ensures var calls := Calls(c, Initial(), steps);
      && (calls[i].lease.at < calls[j].lease.at ==> !calls[i].Succeeded())
      && !(calls[i].Succeeded() && calls[j].Succeeded())
  {
    RunKeepsCallsFit(c, steps);
    var calls, s := Calls(c, Initial(), steps), Run(c, steps);
    if calls[i].Succeeded() { assert NotWithin(c, calls[j].lease, calls[i].lease); }
  }

  // ------------------------------------------------------- and that is how it happens

  lemma {:induction false} CallsConcat(c: Config, s: State, xs: seq<Step>, ys: seq<Step>)
    ensures Calls(c, s, xs + ys) == Calls(c, s, xs) + Calls(c, RunFrom(c, s, xs), ys)
    decreases |ys|
  {
    if ys == [] {
      assert xs + ys == xs;
    } else {
      CallsConcat(c, s, xs, ys[..|ys| - 1]);
      RunFromConcat(c, s, xs, ys[..|ys| - 1]);
      assert (xs + ys)[..|xs + ys| - 1] == xs + ys[..|ys| - 1];
    }
  }

  lemma {:induction false} NoCalls(c: Config, s: State, steps: seq<Step>)
    requires forall k :: 0 <= k < |steps| ==> !steps[k].Notify?
    ensures Calls(c, s, steps) == []
  {
    if steps != [] { NoCalls(c, s, steps[..|steps| - 1]); }
  }

  lemma OneCall(c: Config, s: State, step: Step)
    ensures Calls(c, s, [step]) == CallsOf(s, step)
  {
    assert [step][..0] == [];
    assert Calls(c, s, []) == [] && RunFrom(c, s, []) == s;
  }

  lemma ThenOne(c: Config, s: State, xs: seq<Step>, x: Step)
    ensures RunFrom(c, s, xs + [x]) == Do(c, RunFrom(c, s, xs), x)
    ensures Calls(c, s, xs + [x]) == Calls(c, s, xs) + CallsOf(RunFrom(c, s, xs), x)
  {
    assert (xs + [x])[..|xs|] == xs;
  }

  lemma ThenTwo(c: Config, s: State, xs: seq<Step>, x: Step, y: Step)
    ensures RunFrom(c, s, xs + [x, y]) == Do(c, Do(c, RunFrom(c, s, xs), x), y)
    ensures !x.Notify? && !y.Notify? ==> Calls(c, s, xs + [x, y]) == Calls(c, s, xs)
  {
    ThenOne(c, s, xs, x);
    ThenOne(c, s, xs + [x], y);
    assert xs + [x, y] == (xs + [x]) + [y];
  }

  /** With the reply of the grant at hand, two steps bring the call. */
  lemma CallAfterGrant(c: Config, s: State, p: Pid)
    requires Proc(s, p).Claiming? && Proc(s, p).msg in s.replies && s.replies[Proc(s, p).msg].Granted?
    ensures var q, s' := Proc(s, p), Do(c, Do(c, s, ClaimReturns(p)), PublishReturns(p));
      && Proc(s', p) == Notifying(Lease(q.fp, q.token, s.replies[q.msg].at))
      && s'.now == s.now && s'.keys == s.keys && s'.inflight == s.inflight
  {
    var t := Do(c, s, ClaimReturns(p));
    assert t == Move(s, p, Publishing(Lease(Proc(s, p).fp, Proc(s, p).token, s.replies[Proc(s, p).msg].at)));
  }

  /** An alert claimed and published, up to the call of send_alert. */
  lemma CallComes(c: Config, s: State, p: Pid, fp: Fingerprint) returns (steps: seq<Step>)
    requires c.Valid() && Quiet(s, fp, p)
    ensures var s' := RunFrom(c, s, steps);
      && Proc(s', p) == Notifying(Lease(fp, s.nextToken, s.now)) && s'.now == s.now
      && s'.keys == s.keys[fp := Entry(s.nextToken, s.now + c.cooldown)] && s'.inflight == map[]
    ensures Calls(c, s, steps) == []
  {
    var first := Granting(c, s, p, fp);
    CallAfterGrant(c, RunFrom(c, s, first), p);
    ThenTwo(c, s, first, ClaimReturns(p), PublishReturns(p));
    steps := first + [ClaimReturns(p), PublishReturns(p)];
  }

  lemma Granting(c: Config, s: State, p: Pid, fp: Fingerprint) returns (steps: seq<Step>)
    requires c.Valid() && Quiet(s, fp, p)
    ensures var t := RunFrom(c, s, steps);
      && Proc(t, p) == Claiming(fp, s.nextToken, 1, s.nextMsg) && t.now == s.now
      && s.nextMsg in t.replies && t.replies[s.nextMsg] == Granted(s.now)
      && t.keys == s.keys[fp := Entry(s.nextToken, s.now + c.cooldown)] && t.inflight == map[]
    ensures Calls(c, s, steps) == []
  {
    steps := GrantSteps(p, fp, s.nextMsg);
    GrantedByRun(c, s, p, fp);
    NoCalls(c, s, steps);
  }

  lemma NotifiedOnce(c: Config, s: State, p: Pid, fp: Fingerprint, cs: Channels) returns (steps: seq<Step>)
    requires c.Valid() && Quiet(s, fp, p)
    ensures Calls(c, s, steps) == [Call(Lease(fp, s.nextToken, s.now), true, cs)]
  {
    var until := CallComes(c, s, p, fp);
    ThenOne(c, s, until, Notify(p, true, cs));
    steps := until + [Notify(p, true, cs)];
  }

  lemma ReleaseGoesThrough(c: Config, s: State, p: Pid, cs: Channels)
    requires Proc(s, p).Notifying? && !Succeeds(true, cs) && s.inflight == map[]
    requires var l := Proc(s, p).lease; Live(s, l.fp) && s.keys[l.fp].token == l.token
    ensures var s' := Do(c, Do(c, Do(c, s, Notify(p, true, cs)), Apply(s.nextMsg)), ReleaseReturns(p));
      Quiet(s', Proc(s, p).lease.fp, p) && Proc(s, p).lease.fp !in s'.keys && s'.now == s.now && s'.nextMsg == s.nextMsg + 1
  {
    var l := Proc(s, p).lease;
    var s1 := Do(c, s, Notify(p, true, cs));
    assert s1 == BeginRelease(s, p, l);
    assert s1.inflight == map[s.nextMsg := CompareDelete(l.fp, l.token)];
    var s2 := Do(c, s1, Apply(s.nextMsg));
    assert s2.inflight == map[] && l.fp !in s2.keys && Proc(s2, p) == Proc(s1, p);
  }

  /** A call that does not return true: the delete is sent, applied and answered, and the key is free again. */
  lemma FailAndRelease(c: Config, s: State, p: Pid, fp: Fingerprint, cs: Channels) returns (steps: seq<Step>)
    requires c.Valid() && Quiet(s, fp, p) && !Succeeds(true, cs)
    ensures var s' := RunFrom(c, s, steps); Quiet(s', fp, p) && fp !in s'.keys && s'.now == s.now
    ensures Calls(c, s, steps) == [Call(Lease(fp, s.nextToken, s.now), true, cs)]
  {
    var until := CallComes(c, s, p, fp);
    var t := RunFrom(c, s, until);
    ThenOne(c, s, until, Notify(p, true, cs));
    ThenTwo(c, s, until + [Notify(p, true, cs)], Apply(t.nextMsg), ReleaseReturns(p));
    ReleaseGoesThrough(c, t, p, cs);
    steps := until + [Notify(p, true, cs)] + [Apply(t.nextMsg), ReleaseReturns(p)];
  }

  lemma CallsLater(c: Config, s: State, gap: real, steps: seq<Step>)
    requires gap >= 0.0
    ensures Calls(c, s, [Tick(gap)] + steps) == Calls(c, s.(now := s.now + gap), steps)
  {
    CallsConcat(c, s, [Tick(gap)], steps);
    OneCall(c, s, Tick(gap));
    RunOfOne(c, s, Tick(gap));
  }

  /** The first call fails, its claim is given back, and after `gap` comes the second. */
  lemma TwiceRun(c: Config, p: Pid, fp: Fingerprint, gap: real, first: Channels, second: Channels) returns (steps: seq<Step>)
    requires c.Valid() && gap >= 0.0 && !Succeeds(true, first)
    ensures var calls := Calls(c, Initial(), steps);
      && |calls| == 2 && calls[0].lease.fp == calls[1].lease.fp == fp
      && calls[0].lease.at == 0.0 && calls[1].lease.at == gap
      && calls[0] == Call(calls[0].lease, true, first) && calls[1] == Call(calls[1].lease, true, second)
  {
    var once := FailAndRelease(c, Initial(), p, fp, first);
    var s := RunFrom(c, Initial(), once);
    var later := s.(now := s.now + gap);
    assert Proc(later, p) == Proc(s, p);
    var again := NotifiedOnce(c, later, p, fp, second);
    CallsLater(c, s, gap, again);
    CallsConcat(c, Initial(), once, [Tick(gap)] + again);
    steps := once + ([Tick(gap)] + again);
  }

  /** Channels did this in the i-th call and that in the j-th, under a claim of the same fingerprint `gap` later. */
  predicate TwoCalls(calls: seq<Call>, i: int, j: int, fp: Fingerprint, gap: real, first: Channels, second: Channels) {
    && 0 <= i < |calls| && 0 <= j < |calls| && i != j
    && calls[i] == Call(calls[i].lease, true, first) && calls[j] == Call(calls[j].lease, true, second)
    && calls[i].lease.fp == calls[j].lease.fp == fp && calls[j].lease.at - calls[i].lease.at == gap
  }

  ghost predicate ToldTwice(c: Config, steps: seq<Step>, fp: Fingerprint, gap: real, first: Channels, second: Channels) {
    exists i, j :: TwoCalls(Calls(c, Initial(), steps), i, j, fp, gap, first, second)
  }

  lemma ToldTwiceRun(c: Config, fp: Fingerprint, gap: real, first: Channels, second: Channels) returns (steps: seq<Step>)
    requires c.Valid() && gap >= 0.0
    requires !Succeeds(true, first) || (gap == 0.0 && !Succeeds(true, second))
    ensures ToldTwice(c, steps, fp, gap, first, second)
  {
    if !Succeeds(true, first) {
      steps := TwiceRun(c, 0, fp, gap, first, second);
      assert TwoCalls(Calls(c, Initial(), steps), 0, 1, fp, gap, first, second);
    } else {
      steps := TwiceRun(c, 0, fp, gap, second, first);
      assert TwoCalls(Calls(c, Initial(), steps), 1, 0, fp, gap, first, second);
    }
  }

  lemma ToldTwiceNeedsFailure(c: Config, steps: seq<Step>, fp: Fingerprint, gap: real, first: Channels, second: Channels)
    requires c.Valid() && 0.0 <= gap < c.cooldown && ToldTwice(c, steps, fp, gap, first, second)
    ensures !Succeeds(true, first) || (gap == 0.0 && !Succeeds(true, second))
  {
    var i, j :| TwoCalls(Calls(c, Initial(), steps), i, j, fp, gap, first, second);
    EarlierDidNotSucceed(c, steps, i, j);
  }

  /**
    Users can hear of one fingerprint twice under claims less than a cooldown
    apart exactly when in the earlier call a channel raised or none acknowledged;
    of two claims at the same moment it may be either.
  */
  lemma ToldTwiceIff(c: Config, fp: Fingerprint, gap: real, first: Channels, second: Channels)
    requires c.Valid() && 0.0 <= gap < c.cooldown
    requires SomebodyGets(first) && SomebodyGets(second)
    ensures (exists steps :: ToldTwice(c, steps, fp, gap, first, second)) <==> InVain(first) || (gap == 0.0 && InVain(second))
  {
    WhoWasTold(true, first);
    WhoWasTold(true, second);
    if InVain(first) || (gap == 0.0 && InVain(second)) {
      var steps := ToldTwiceRun(c, fp, gap, first, second);
    }
    if steps :| ToldTwice(c, steps, fp, gap, first, second) {
      ToldTwiceNeedsFailure(c, steps, fp, gap, first, second);
    }
  }

  /** A lost answer is enough: Slack shows the alert, the call returns false, and at once it may be shown again. */
  lemma LostAnswerTellsTwice(c: Config, fp: Fingerprint, gap: real)
    requires c.Valid() && 0.0 <= gap < c.cooldown
    ensures var cs := Channels(Some(Failed(true)), None, None); exists steps :: ToldTwice(c, steps, fp, gap, cs, cs)
  {
    var cs := Channels(Some(Failed(true)), None, None);
    ToldTwiceIff(c, fp, gap, cs, cs);
  }
}
