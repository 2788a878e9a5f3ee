/** Claims refused because an earlier attempt of the same call set the key. */
module SelfRefusal {
  import opened ClaimProtocol
  import opened ClaimRuns
  import opened ClaimLoss

  /** The server is about to refuse p's claim because an earlier attempt of the same call set the key. */
  predicate RefusedByOwnToken(s: State, p: Pid) {
    && Proc(s, p).Claiming?
    && var q := Proc(s, p);
       q.msg in s.inflight && Live(s, q.fp) && s.keys[q.fp].token == q.token
  }

  predicate FirstTryUnseen(s: State, q: Process) {
    q.Claiming? && q.attempt == 1 ==>
      && (forall m :: m in s.inflight && s.inflight[m].token == q.token ==> m == q.msg)
      && (q.msg in s.inflight ==> forall fp :: fp in s.keys ==> s.keys[fp].token != q.token)
  }

  predicate AttemptBounded(c: Config, q: Process) {
    q.Claiming? ==> 1 <= q.attempt <= c.maxSends
  }

  ghost predicate FirstTry(c: Config, s: State) {
    && (forall fp :: fp in s.keys ==> s.keys[fp].token < s.nextToken)
    && (forall p :: FirstTryUnseen(s, Proc(s, p)) && AttemptBounded(c, Proc(s, p)))
  }

  lemma ServerKeepsFirstTry(c: Config, s: State, step: Step)
    requires Inv(c, s) && FirstTry(c, s) && ServerStep(step)
    ensures FirstTry(c, Do(c, s, step))
  {
    var s' := Do(c, s, step);
    forall p
      ensures FirstTryUnseen(s', Proc(s', p)) && AttemptBounded(c, Proc(s', p))
    {
      var q := Proc(s, p);
      assert Proc(s', p) == q;
      assert FirstTryUnseen(s, q) && AttemptBounded(c, q) && Awaits(q, s);
    }
  }

  lemma SendKeepsFirstTry(c: Config, s: State, step: Step)
    requires Inv(c, s) && FirstTry(c, s) && SendStep(step)
    ensures FirstTry(c, Do(c, s, step))
  {
    var s' := Do(c, s, step);
    if s' != s {
      var sender := Proc(s, step.pid);
      assert AttemptBounded(c, sender);
      forall p
        ensures FirstTryUnseen(s', Proc(s', p)) && AttemptBounded(c, Proc(s', p))
      {
        var q := Proc(s, p);
        assert FirstTryUnseen(s, q) && AttemptBounded(c, q) && Awaits(q, s);
        if p != step.pid && q.Claiming? {
          assert Proc(s', p) == q && Uses(q, q.token);
          var t := s'.inflight[s.nextMsg].token;
          assert t == s.nextToken || Uses(sender, t);
        }
      }
    }
  }

  lemma StepKeepsFirstTry(c: Config, s: State, step: Step)
    requires Inv(c, s) && FirstTry(c, s)
    ensures FirstTry(c, Do(c, s, step))
  {
    if ServerStep(step) {
      ServerKeepsFirstTry(c, s, step);
    } else if SendStep(step) {
      SendKeepsFirstTry(c, s, step);
    } else {
      var s' := Do(c, s, step);
      forall p
        ensures FirstTryUnseen(s', Proc(s', p)) && AttemptBounded(c, Proc(s', p))
      {
        assert Proc(s', p).Claiming? ==> Proc(s', p) == Proc(s, p);
        assert FirstTryUnseen(s, Proc(s, p)) && AttemptBounded(c, Proc(s, p));
      }
    }
  }

  lemma {:induction false} RunKeepsFirstTry(c: Config, steps: seq<Step>)
    requires c.Valid()
    ensures FirstTry(c, Run(c, steps))
  {
    if steps == [] {
      assert forall p :: Proc(Initial(), p) == Idle;
    } else {
      RunKeepsFirstTry(c, steps[..|steps| - 1]);
      RunKeepsInv(c, steps[..|steps| - 1]);
      StepKeepsFirstTry(c, Run(c, steps[..|steps| - 1]), steps[|steps| - 1]);
    }
  }

  function SelfRefusalSteps(p: Pid, fp: Fingerprint): seq<Step> {
    GrantSteps(p, fp, 0) + [ClaimRetries(p)]
  }

  /** The key was set by the first attempt; the second is on the wire. */
  lemma SelfRefusalRun(c: Config, p: Pid, fp: Fingerprint)
    requires c.Valid() && c.maxSends >= 2
    ensures RefusedByOwnToken(Run(c, SelfRefusalSteps(p, fp)), p)
  {
    GrantedByRun(c, Initial(), p, fp);
    RunSnoc(c, GrantSteps(p, fp, 0), ClaimRetries(p));
  }

  /** A claim can be refused by its own earlier attempt exactly when the client may retry at all. */
  lemma SelfRefusalIffRetries(c: Config)
    requires c.Valid()
    ensures (exists steps, p :: RefusedByOwnToken(Run(c, steps), p)) <==> c.maxSends >= 2
  {
    if c.maxSends >= 2 {
      SelfRefusalRun(c, 0, "");
    }
    forall steps, p | RefusedByOwnToken(Run(c, steps), p)
      ensures c.maxSends >= 2
    {
      RunKeepsFirstTry(c, steps);
      var q := Proc(Run(c, steps), p);
      assert FirstTryUnseen(Run(c, steps), q) && AttemptBounded(c, q);
    }
  }

  /** A claim about to be refused by its own earlier attempt is already lost. */
  lemma SelfRefusalIsLost(c: Config, steps: seq<Step>, p: Pid)
    requires c.Valid() && RefusedByOwnToken(Run(c, steps), p)
    ensures Lost(c, Run(c, steps), Proc(Run(c, steps), p).fp)
  {
    RunKeepsInv(c, steps);
    var s := Run(c, steps);
    var fp, token := Proc(s, p).fp, Proc(s, p).token;
    assert Holds(Proc(s, p), token) && Uses(Proc(s, p), token);
    forall o ensures !CaresFor(c, s, Proc(s, o), fp, token) {
      assert CaresFor(c, s, Proc(s, o), fp, token) ==> Uses(Proc(s, o), token);
    }
    forall i | 0 <= i < |s.delivered| ensures s.delivered[i].lease.token != token {
      assert s.delivered[i] in s.delivered;
    }
  }
}
