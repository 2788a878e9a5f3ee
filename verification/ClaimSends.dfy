/**
  The cooldown spaces claims.  How far apart the alerts themselves are sent
  depends on how long their owners take.
*/
module ClaimSends {
  import opened ClaimProtocol
  import opened ClaimRuns
  import opened ClaimSafety

  /** Deliveries are listed as they are sent, each after its claim. */
  predicate SentInOrder(s: State) {
    && (forall i :: 0 <= i < |s.delivered| ==> s.delivered[i].lease.at <= s.delivered[i].sentAt <= s.now)
    && (forall i, j :: 0 <= i < j < |s.delivered| ==> s.delivered[i].sentAt <= s.delivered[j].sentAt)
  }

  lemma NothingDelivered(c: Config, s: State, step: Step)
    requires !(Delivers(step) && Proc(s, step.pid).Notifying?)
    ensures Do(c, s, step).delivered == s.delivered && Do(c, s, step).now >= s.now
  {
  }

  lemma StepKeepsOrder(c: Config, s: State, step: Step)
    requires Inv(c, s) && SentInOrder(s)
    ensures SentInOrder(Do(c, s, step))
  {
    if Delivers(step) && Proc(s, step.pid).Notifying? {
      var l := Proc(s, step.pid).lease;
      assert InForce(Proc(s, step.pid), s.replies, l);
      assert Covered(c, s, l);
      assert Do(c, s, step).now == s.now;
      assert Do(c, s, step).delivered == s.delivered + [Delivery(l, s.now)];
    } else {
      NothingDelivered(c, s, step);
    }
  }

  lemma {:induction false} RunKeepsOrder(c: Config, steps: seq<Step>)
    requires c.Valid()
    ensures SentInOrder(Run(c, steps))
  {
    if steps != [] {
      RunKeepsOrder(c, steps[..|steps| - 1]);
      RunKeepsInv(c, steps[..|steps| - 1]);
      StepKeepsOrder(c, Run(c, steps[..|steps| - 1]), steps[|steps| - 1]);
    }
  }

  /**
    Two alerts of one fingerprint, each sent within `held` of its claim, are sent
    at least the cooldown less `held` apart.
  */
  lemma SendsAreSpaced(c: Config, steps: seq<Step>, i: nat, j: nat, held: real)
    requires c.Valid() && i < j < |Run(c, steps).delivered|
    requires var d := Run(c, steps).delivered;
      && d[i].lease.fp == d[j].lease.fp
      && d[i].sentAt <= d[i].lease.at + held
      && d[j].sentAt <= d[j].lease.at + held
    ensures var d := Run(c, steps).delivered;
      && d[i].lease.at <= d[i].sentAt <= d[j].sentAt <= Run(c, steps).now
      && d[j].sentAt - d[i].sentAt >= c.cooldown - held
  {
    RunKeepsOrder(c, steps);
    DeliveriesAreSpaced(c, steps, i, j);
  }

  // ------------------------------------------------------ the bound is attained

  /** The correlator learns of its claim and publishes: it now notifies under that lease. */
  lemma ClaimLearned(c: Config, s: State, p: Pid)
    requires Proc(s, p).Claiming? && Proc(s, p).msg in s.replies && s.replies[Proc(s, p).msg].Granted?
    ensures var q := Proc(s, p);
      Do(c, Do(c, s, ClaimReturns(p)), PublishReturns(p)) ==
      Move(s, p, Notifying(Lease(q.fp, q.token, s.replies[q.msg].at)))
  {
    var q := Proc(s, p);
    var l := Lease(q.fp, q.token, s.replies[q.msg].at);
    assert Do(c, s, ClaimReturns(p)) == Move(s, p, Publishing(l));
    assert s.procs[p := Publishing(l)][p := Notifying(l)] == s.procs[p := Notifying(l)];
  }

  function SendSteps(p: Pid): seq<Step> {
    [ClaimReturns(p), PublishReturns(p), Success(p)]
  }

  /** An alert claimed now, sent `wait` later, with nothing else going on. */
  function OneAlert(p: Pid, fp: Fingerprint, msg: MessageId, wait: real): seq<Step> {
    GrantSteps(p, fp, msg) + ([Tick(wait)] + SendSteps(p))
  }

  lemma SendAfter(c: Config, s: State, p: Pid, wait: real)
    requires Proc(s, p).Claiming? && Proc(s, p).msg in s.replies && s.replies[Proc(s, p).msg].Granted? && wait >= 0.0
    ensures var q, s' := Proc(s, p), RunFrom(c, s, [Tick(wait)] + SendSteps(p));
      && s'.delivered == s.delivered + [Delivery(Lease(q.fp, q.token, s.replies[q.msg].at), s.now + wait)]
      && s'.keys == s.keys && s'.inflight == s.inflight && s'.nextMsg == s.nextMsg && s'.now == s.now + wait
      && Proc(s', p) == Idle && forall o :: o != p ==> Proc(s', o) == Proc(s, o)
  {
    var later := s.(now := s.now + wait);
    RunFromConcat(c, s, [Tick(wait)], SendSteps(p));
    assert RunFrom(c, s, [Tick(wait)]) == later by { assert [Tick(wait)][..0] == []; }
    RunOfThree(c, later, ClaimReturns(p), PublishReturns(p), Success(p));
    ClaimLearned(c, later, p);
  }

  lemma OneAlertSent(c: Config, s: State, p: Pid, fp: Fingerprint, wait: real)
    requires c.Valid() && Quiet(s, fp, p) && wait >= 0.0
    ensures var s' := RunFrom(c, s, OneAlert(p, fp, s.nextMsg, wait));
      && s'.delivered == s.delivered + [Delivery(Lease(fp, s.nextToken, s.now), s.now + wait)]
      && s'.keys == s.keys[fp := Entry(s.nextToken, s.now + c.cooldown)]
      && s'.inflight == map[] && s'.nextMsg == s.nextMsg + 1 && s'.now == s.now + wait
      && Proc(s', p) == Idle && forall o :: o != p ==> Proc(s', o) == Proc(s, o)
  {
    RunFromConcat(c, s, GrantSteps(p, fp, s.nextMsg), [Tick(wait)] + SendSteps(p));
    GrantedByRun(c, s, p, fp);
    SendAfter(c, RunFrom(c, s, GrantSteps(p, fp, s.nextMsg)), p, wait);
  }

  lemma QuietAgain(c: Config, s: State, p: Pid, q: Pid, fp: Fingerprint, held: real)
    requires s.inflight == map[] && Proc(s, p).Idle? && (forall o :: o != p ==> Proc(s, o).Idle?)
    requires fp in s.keys && s.keys[fp].expires == c.cooldown && s.now == held <= c.cooldown
    ensures var s' := Do(c, s, Tick(c.cooldown - held));
      Quiet(s', fp, q) && s'.now == c.cooldown && s'.nextMsg == s.nextMsg && s'.delivered == s.delivered
  {
    assert Proc(Do(c, s, Tick(c.cooldown - held)), q) == Proc(s, q);
  }

  /** The first owner takes `held`; the key runs out; the second sends at once. */
  function SlowThenFast(c: Config, p: Pid, q: Pid, fp: Fingerprint, held: real): seq<Step> {
    OneAlert(p, fp, 0, held) + [Tick(c.cooldown - held)] + OneAlert(q, fp, 1, 0.0)
  }

  /**
    The bound is exact: for every cooldown and every `held` up to it some run
    sends two alerts of one fingerprint exactly the cooldown less `held` apart,
    at the same moment for an owner that takes the whole cooldown.
  */
  lemma SendGapIsAttained(c: Config, p: Pid, q: Pid, fp: Fingerprint, held: real)
    requires c.Valid() && 0.0 <= held <= c.cooldown
    ensures var d := Run(c, SlowThenFast(c, p, q, fp, held)).delivered;
      && |d| == 2 && d[0].lease.fp == d[1].lease.fp == fp
      && d[0].sentAt == d[0].lease.at + held && d[1].sentAt == d[1].lease.at
      && d[1].sentAt - d[0].sentAt == c.cooldown - held
  {
    var first, pause, second := OneAlert(p, fp, 0, held), [Tick(c.cooldown - held)], OneAlert(q, fp, 1, 0.0);
    OneAlertSent(c, Initial(), p, fp, held);
    RunSnoc(c, first, pause[0]);
    QuietAgain(c, Run(c, first), p, q, fp, held);
    RunFromConcat(c, Initial(), first + pause, second);
    OneAlertSent(c, Run(c, first + pause), q, fp, 0.0);
  }
}
