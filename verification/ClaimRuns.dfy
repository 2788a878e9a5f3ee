/** How runs of the claim protocol are put together, and one uncontended claim. */
module ClaimRuns {
  import opened ClaimProtocol
  import opened Schema
  import opened Notifier

  lemma RunSnoc(c: Config, steps: seq<Step>, step: Step)
    ensures Run(c, steps + [step]) == Do(c, Run(c, steps), step)
  {
    assert (steps + [step])[..|steps|] == steps;
  }

  lemma {:induction false} RunFromConcat(c: Config, s: State, xs: seq<Step>, ys: seq<Step>)
    ensures RunFrom(c, s, xs + ys) == RunFrom(c, RunFrom(c, s, xs), ys)
    decreases |ys|
  {
    if ys == [] {
      assert xs + ys == xs;
    } else {
      RunFromConcat(c, s, xs, ys[..|ys| - 1]);
      assert (xs + ys)[..|xs + ys| - 1] == xs + ys[..|ys| - 1];
    }
  }

  lemma RunOfOne(c: Config, s: State, x: Step)
    ensures RunFrom(c, s, [x]) == Do(c, s, x)
  {
    assert [x][..0] == [];
    assert RunFrom(c, s, []) == s;
  }

  lemma RunOfTwo(c: Config, s: State, x: Step, y: Step)
    ensures RunFrom(c, s, [x, y]) == Do(c, Do(c, s, x), y)
  {
    RunOfOne(c, s, x);
    assert [x, y][..1] == [x];
  }

  lemma RunOfThree(c: Config, s: State, x: Step, y: Step, z: Step)
    ensures RunFrom(c, s, [x, y, z]) == Do(c, Do(c, Do(c, s, x), y), z)
  {
    RunOfTwo(c, s, x, y);
    assert [x, y, z][..2] == [x, y];
  }

  /** The notification step in which Slack takes the alert and nothing else is configured. */
  function Success(p: Pid): (step: Step)
    ensures Delivers(step)
  {
    var cs := Channels(Some(Accepted), None, None);
    assert Posted(cs) == [Accepted];
    Notify(p, true, cs)
  }

  predicate Quiet(s: State, fp: Fingerprint, p: Pid) {
    s.inflight == map[] && !Live(s, fp) && Proc(s, p).Idle?
  }

  function GrantSteps(p: Pid, fp: Fingerprint, msg: MessageId): seq<Step> {
    [Begin(p, fp), StoreReturns(p), Apply(msg)]
  }

  /** With the key free and nothing on the wire, two steps put a claim on the wire and a third grants it. */
  lemma ClaimGranted(c: Config, s: State, p: Pid, fp: Fingerprint)
    requires c.Valid() && s.inflight == map[] && !Live(s, fp) && Proc(s, p).Idle?
    ensures Do(c, Do(c, Do(c, s, Begin(p, fp)), StoreReturns(p)), Apply(s.nextMsg)) ==
      s.(keys := s.keys[fp := Entry(s.nextToken, s.now + c.cooldown)],
         procs := s.procs[p := Claiming(fp, s.nextToken, 1, s.nextMsg)],
         replies := s.replies[s.nextMsg := Granted(s.now)],
         nextToken := s.nextToken + 1, nextMsg := s.nextMsg + 1,
         granted := s.granted + [Lease(fp, s.nextToken, s.now)])
  {
    var s1 := Do(c, s, Begin(p, fp));
    assert s1 == s.(procs := s.procs[p := Storing(fp)]);
    var s2 := Do(c, s1, StoreReturns(p));
    assert s2 == s.(procs := s.procs[p := Claiming(fp, s.nextToken, 1, s.nextMsg)], nextToken := s.nextToken + 1,
                    nextMsg := s.nextMsg + 1, inflight := map[s.nextMsg := SetNx(fp, s.nextToken)]);
    assert s2.inflight - {s.nextMsg} == map[];
  }

  lemma GrantedByRun(c: Config, s: State, p: Pid, fp: Fingerprint)
    requires c.Valid() && Quiet(s, fp, p)
    ensures RunFrom(c, s, GrantSteps(p, fp, s.nextMsg)) ==
      s.(keys := s.keys[fp := Entry(s.nextToken, s.now + c.cooldown)],
         procs := s.procs[p := Claiming(fp, s.nextToken, 1, s.nextMsg)],
         replies := s.replies[s.nextMsg := Granted(s.now)],
         nextToken := s.nextToken + 1, nextMsg := s.nextMsg + 1,
         granted := s.granted + [Lease(fp, s.nextToken, s.now)])
  {
    RunOfThree(c, s, Begin(p, fp), StoreReturns(p), Apply(s.nextMsg));
    ClaimGranted(c, s, p, fp);
  }
}
