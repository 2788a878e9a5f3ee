/**
  Claims that nobody will make use of or give back: the key stays for the rest
  of its cooldown and suppresses the alert, though no alert went out under it.
*/
module ClaimLoss {
  import opened ClaimProtocol
  import opened ClaimRuns
  import opened ClaimSafety

  // -------------------------------------------------------------- lost claims

  /** The claim was granted and the reply the correlator waits for says so. */
  predicate Answered(s: State, q: Process, fp: Fingerprint, token: Token) {
    q.Claiming? && q.fp == fp && q.token == token && q.msg in s.replies && s.replies[q.msg].Granted?
  }

  /** Giving the claim back, and able to send the command once more. */
  predicate MayRelease(c: Config, q: Process, fp: Fingerprint, token: Token) {
    q.Releasing? && q.lease.fp == fp && q.lease.token == token && q.attempt < c.maxSends
  }

  predicate CaresFor(c: Config, s: State, q: Process, fp: Fingerprint, token: Token) {
    || Answered(s, q, fp, token)
    || (Working(q) && q.lease.fp == fp && q.lease.token == token)
    || MayRelease(c, q, fp, token)
  }

  predicate Told(s: State, fp: Fingerprint, token: Token) {
    exists i :: 0 <= i < |s.delivered| && s.delivered[i].lease.fp == fp && s.delivered[i].lease.token == token
  }

  predicate DeleteSent(s: State, fp: Fingerprint, token: Token) {
    exists m :: m in s.inflight && s.inflight[m] == CompareDelete(fp, token)
  }

  /** An alert went out under the claim, or the claim may yet be used or given back. */
  ghost predicate Settling(c: Config, s: State, fp: Fingerprint, token: Token) {
    || Told(s, fp, token)
    || DeleteSent(s, fp, token)
    || exists p :: CaresFor(c, s, Proc(s, p), fp, token)
  }

  /** The key suppresses alerts, none went out under it, and nobody is left to send one or to give it back. */
  ghost predicate Lost(c: Config, s: State, fp: Fingerprint) {
    Live(s, fp) && !Settling(c, s, fp, s.keys[fp].token)
  }

  /** Exactly how a claim gets lost. */
  ghost predicate Loses(c: Config, s: State, fp: Fingerprint, step: Step) {
    match step
    // A SET arrives after its caller stopped waiting for it.
    case Apply(m) =>
      && m in s.inflight && s.inflight[m].SetNx? && s.inflight[m].fp == fp && !Live(s, fp)
      && (forall p :: !(Proc(s, p).Claiming? && Proc(s, p).msg == m))
      && !Settling(c, s, fp, s.inflight[m].token)
    // The last delete goes missing and its caller sends no other.
    case Drop(m) =>
      && Live(s, fp) && m in s.inflight && s.inflight[m] == CompareDelete(fp, s.keys[fp].token)
      && !DeleteSent(s.(inflight := s.inflight - {m}), fp, s.keys[fp].token)
      && (forall p :: !MayRelease(c, Proc(s, p), fp, s.keys[fp].token))
    // The reply to a granted claim is not waited for.
    case ClaimRetries(p) => Live(s, fp) && Answered(s, Proc(s, p), fp, s.keys[fp].token) && Proc(s, p).attempt < c.maxSends
    case ClaimRaises(p) => Live(s, fp) && Answered(s, Proc(s, p), fp, s.keys[fp].token)
    // Giving it back ends with no delete under way, though another could have been sent.
    case ReleaseReturns(p) => GivesUp(c, s, fp, Proc(s, p)) && Proc(s, p).msg in s.replies
    case ReleaseRaises(p) => GivesUp(c, s, fp, Proc(s, p))
    // The owner dies.
    case Crash(p) =>
      && Live(s, fp) && CaresFor(c, s, Proc(s, p), fp, s.keys[fp].token)
      && !DeleteSent(s, fp, s.keys[fp].token)
    case _ => false
  }

  predicate GivesUp(c: Config, s: State, fp: Fingerprint, q: Process) {
    Live(s, fp) && MayRelease(c, q, fp, s.keys[fp].token) && !DeleteSent(s, fp, s.keys[fp].token)
  }

  /** A claim has one correlator at most, and none after it was delivered. */
  lemma OnlyCarer(c: Config, s: State, p: Pid, fp: Fingerprint, token: Token)
    requires Inv(c, s) && CaresFor(c, s, Proc(s, p), fp, token)
    ensures !Told(s, fp, token)
    ensures forall o :: o != p ==> !CaresFor(c, s, Proc(s, o), fp, token)
    ensures !Proc(s, p).Releasing? ==> !DeleteSent(s, fp, token)
  {
    assert Uses(Proc(s, p), token);
    forall i | 0 <= i < |s.delivered| ensures s.delivered[i].lease.token != token {
      assert s.delivered[i] in s.delivered;
    }
    forall o | o != p ensures !CaresFor(c, s, Proc(s, o), fp, token) {
      assert CaresFor(c, s, Proc(s, o), fp, token) ==> Uses(Proc(s, o), token);
    }
    if !Proc(s, p).Releasing? { assert Holds(Proc(s, p), token); }
  }

  /** When only p's entry changes. */
  lemma MoveLoses(c: Config, s: State, p: Pid, q: Process, fp: Fingerprint, token: Token)
    requires Inv(c, s)
    ensures var s' := Move(s, p, q);
      && (CaresFor(c, s, q, fp, token) ==> Settling(c, s', fp, token))
      && (!CaresFor(c, s, q, fp, token) ==>
            (Settling(c, s, fp, token) && !Settling(c, s', fp, token)
             <==> CaresFor(c, s, Proc(s, p), fp, token) && !DeleteSent(s, fp, token)))
  {
    var s' := Move(s, p, q);
    assert Proc(s', p) == q && forall o :: o != p ==> Proc(s', o) == Proc(s, o);
    assert DeleteSent(s', fp, token) == DeleteSent(s, fp, token) && Told(s', fp, token) == Told(s, fp, token);
    assert forall o :: CaresFor(c, s', Proc(s', o), fp, token) == CaresFor(c, s, Proc(s', o), fp, token);
    if CaresFor(c, s, Proc(s, p), fp, token) {
      OnlyCarer(c, s, p, fp, token);
    } else if !CaresFor(c, s, q, fp, token) {
      assert forall o :: CaresFor(c, s', Proc(s', o), fp, token) == CaresFor(c, s, Proc(s, o), fp, token);
    }
  }

  predicate EndStep(step: Step) {
    step.ClaimRaises? || step.ReleaseReturns? || step.ReleaseRaises?
  }

  lemma CrashLosesIff(c: Config, s: State, p: Pid, fp: Fingerprint)
    requires Inv(c, s) && !Lost(c, s, fp)
    ensures Lost(c, Do(c, s, Crash(p)), fp) <==> Loses(c, s, fp, Crash(p))
  {
    if Live(s, fp) {
      MoveLoses(c, s, p, Crashed, fp, s.keys[fp].token);
    }
  }

  /** A correlator stops caring for whatever it cared for. */
  lemma EndStepLosesIff(c: Config, s: State, step: Step, fp: Fingerprint)
    requires Inv(c, s) && !Lost(c, s, fp) && EndStep(step)
    ensures Lost(c, Do(c, s, step), fp) <==> Loses(c, s, fp, step)
  {
    var s', p := Do(c, s, step), step.pid;
    if Live(s, fp) && s' != s {
      var token := s.keys[fp].token;
      assert s' == Move(s, p, Idle);
      MoveLoses(c, s, p, Idle, fp, token);
      if CaresFor(c, s, Proc(s, p), fp, token) { OnlyCarer(c, s, p, fp, token); }
    }
  }

  /** A correlator goes on with what it was doing. */
  lemma MoveStepLosesNothing(c: Config, s: State, step: Step, fp: Fingerprint)
    requires Inv(c, s) && !Lost(c, s, fp) && !ServerStep(step) && !SendStep(step) && !Delivers(step) && !EndStep(step) && !step.Crash?
    ensures !Lost(c, Do(c, s, step), fp)
  {
    var s', p := Do(c, s, step), step.pid;
    if Live(s, fp) && s' != s {
      var token := s.keys[fp].token;
      var q := Proc(s', p);
      assert s' == Move(s, p, q);
      assert CaresFor(c, s, Proc(s, p), fp, token) ==> CaresFor(c, s, q, fp, token);
      MoveLoses(c, s, p, q, fp, token);
    }
  }

  lemma NotifyLosesNothing(c: Config, s: State, step: Step, fp: Fingerprint)
    requires Inv(c, s) && !Lost(c, s, fp) && Delivers(step)
    ensures !Lost(c, Do(c, s, step), fp)
  {
    var s', p := Do(c, s, step), step.pid;
    if Live(s, fp) && s' != s {
      var token := s.keys[fp].token;
      assert forall o :: o != p ==> Proc(s', o) == Proc(s, o);
      if CaresFor(c, s, Proc(s, p), fp, token) {
        assert s'.delivered[|s.delivered|].lease == Proc(s, p).lease;
        assert Told(s', fp, token);
      } else if Told(s, fp, token) {
        var i :| 0 <= i < |s.delivered| && s.delivered[i].lease.fp == fp && s.delivered[i].lease.token == token;
        assert s'.delivered[i] == s.delivered[i];
        assert Told(s', fp, token);
      } else if !DeleteSent(s, fp, token) {
        var o :| CaresFor(c, s, Proc(s, o), fp, token);
        assert CaresFor(c, s', Proc(s', o), fp, token);
      }
    }
  }

  /** When p's entry changes and a command goes on the wire. */
  lemma SendLoses(c: Config, s: State, p: Pid, q: Process, cmd: Command, fp: Fingerprint, token: Token)
    requires Inv(c, s) && (q.Claiming? ==> q.msg == s.nextMsg)
    ensures var s' := Send(Move(s, p, q), cmd);
      && (cmd == CompareDelete(fp, token) ==> Settling(c, s', fp, token))
      && (cmd != CompareDelete(fp, token) && !MayRelease(c, q, fp, token) && !Working(q) ==>
            (Settling(c, s, fp, token) && !Settling(c, s', fp, token)
             <==> CaresFor(c, s, Proc(s, p), fp, token) && !DeleteSent(s, fp, token)))
  {
    var t, s' := Move(s, p, q), Send(Move(s, p, q), cmd);
    assert forall m :: m in s.inflight ==> m != s.nextMsg;
    if cmd == CompareDelete(fp, token) {
      assert s'.inflight[s.nextMsg] == cmd;
    } else if !MayRelease(c, q, fp, token) && !Working(q) {
      MoveLoses(c, s, p, q, fp, token);
      assert !CaresFor(c, s, q, fp, token);
      SendSettles(c, t, cmd, fp, token);
    }
  }

  lemma SendSettles(c: Config, s: State, cmd: Command, fp: Fingerprint, token: Token)
    requires s.nextMsg !in s.inflight && cmd != CompareDelete(fp, token)
    ensures Settling(c, Send(s, cmd), fp, token) <==> Settling(c, s, fp, token)
  {
    var s' := Send(s, cmd);
    assert forall o :: Proc(s', o) == Proc(s, o);
    assert forall o :: CaresFor(c, s', Proc(s', o), fp, token) == CaresFor(c, s, Proc(s, o), fp, token);
    assert DeleteSent(s', fp, token) == DeleteSent(s, fp, token) by {
      forall m | m in s.inflight ensures m in s'.inflight && s'.inflight[m] == s.inflight[m] {
      }
    }
  }

  lemma NextTokenIrrelevant(c: Config, s: State, next: Token, fp: Fingerprint)
    ensures Lost(c, s.(nextToken := next), fp) == Lost(c, s, fp)
  {
    var s' := s.(nextToken := next);
    assert forall o :: Proc(s', o) == Proc(s, o);
    if Live(s, fp) {
      var token := s.keys[fp].token;
      assert forall o :: CaresFor(c, s', Proc(s', o), fp, token) == CaresFor(c, s, Proc(s, o), fp, token);
      assert DeleteSent(s', fp, token) == DeleteSent(s, fp, token);
      assert Told(s', fp, token) == Told(s, fp, token);
    }
  }

  lemma ClaimSendLosesIff(c: Config, s: State, step: Step, fp: Fingerprint)
    requires Inv(c, s) && !Lost(c, s, fp) && (step.StoreReturns? || step.ClaimRetries?)
    ensures Lost(c, Do(c, s, step), fp) <==> Loses(c, s, fp, step)
  {
    var s', p := Do(c, s, step), step.pid;
    if Live(s, fp) && s' != s {
      var token := s.keys[fp].token;
      var q, cmd := Proc(s', p), s'.inflight[s.nextMsg];
      NextTokenIrrelevant(c, Send(Move(s, p, q), cmd), s'.nextToken, fp);
      SendLoses(c, s, p, q, cmd, fp, token);
      if CaresFor(c, s, Proc(s, p), fp, token) { OnlyCarer(c, s, p, fp, token); }
    }
  }

  /** Starting or repeating a release puts the delete on the wire. */
  lemma ReleaseSendLosesNothing(c: Config, s: State, step: Step, fp: Fingerprint)
    requires Inv(c, s) && !Lost(c, s, fp) && (step.PublishRaises? || FailsToDeliver(step) || step.ReleaseRetries?)
    ensures !Lost(c, Do(c, s, step), fp)
  {
    var s', p := Do(c, s, step), step.pid;
    if Live(s, fp) && s' != s {
      var token := s.keys[fp].token;
      var q, cmd := Proc(s', p), CompareDelete(Proc(s, p).lease.fp, Proc(s, p).lease.token);
      assert s' == Send(Move(s, p, q), cmd);
      SendLoses(c, s, p, q, cmd, fp, token);
    }
  }

  lemma DropLosesIff(c: Config, s: State, m: MessageId, fp: Fingerprint)
    requires Inv(c, s) && !Lost(c, s, fp)
    ensures Lost(c, Do(c, s, Drop(m)), fp) <==> Loses(c, s, fp, Drop(m))
  {
    var s' := Do(c, s, Drop(m));
    if Live(s, fp) {
      var token := s.keys[fp].token;
      assert forall o :: CaresFor(c, s', Proc(s', o), fp, token) == CaresFor(c, s, Proc(s, o), fp, token);
      assert Told(s', fp, token) == Told(s, fp, token);
      if m in s.inflight && s.inflight[m] == CompareDelete(fp, token) {
        assert Abandoned(s, token);
        assert !Told(s, fp, token);
        assert forall o :: CaresFor(c, s, Proc(s, o), fp, token) ==> MayRelease(c, Proc(s, o), fp, token) || Holds(Proc(s, o), token);
      } else {
        assert DeleteSent(s', fp, token) == DeleteSent(s, fp, token) by {
          forall n | n in s.inflight && n != m ensures n in s'.inflight && s'.inflight[n] == s.inflight[n] {
          }
        }
      }
    }
  }

  lemma TickLosesNothing(c: Config, s: State, d: real, fp: Fingerprint)
    requires !Lost(c, s, fp)
    ensures !Lost(c, Do(c, s, Tick(d)), fp)
  {
    var s' := Do(c, s, Tick(d));
    if Live(s, fp) {
      var token := s.keys[fp].token;
      assert forall o :: CaresFor(c, s', Proc(s', o), fp, token) == CaresFor(c, s, Proc(s, o), fp, token);
      assert Told(s', fp, token) == Told(s, fp, token) && DeleteSent(s', fp, token) == DeleteSent(s, fp, token);
    }
  }

  /** Answering a command, where that is neither a grant nor a delete for this token. */
  lemma AnswerSettles(c: Config, s: State, m: MessageId, fp: Fingerprint, token: Token)
    requires Inv(c, s) && m in s.inflight && s.inflight[m] != CompareDelete(fp, token)
    requires s.inflight[m] == SetNx(fp, token) ==> Live(s, fp)
    ensures Settling(c, Serve(c, s, m), fp, token) <==> Settling(c, s, fp, token)
  {
    var s' := Serve(c, s, m);
    forall o ensures CaresFor(c, s', Proc(s', o), fp, token) == CaresFor(c, s, Proc(s, o), fp, token) {
      assert Awaits(Proc(s, o), s);
    }
    assert Told(s', fp, token) == Told(s, fp, token);
    assert DeleteSent(s', fp, token) == DeleteSent(s, fp, token) by {
      forall n | n in s.inflight && n != m ensures n in s'.inflight && s'.inflight[n] == s.inflight[n] {
      }
    }
  }

  /** A grant is in somebody's hands exactly if its caller still waits for it, or the claim was settling anyway. */
  lemma GrantSettles(c: Config, s: State, m: MessageId)
    requires Inv(c, s) && m in s.inflight && s.inflight[m].SetNx? && !Live(s, s.inflight[m].fp)
    ensures var fp, token := s.inflight[m].fp, s.inflight[m].token;
      Settling(c, Serve(c, s, m), fp, token) <==>
      Settling(c, s, fp, token) || exists p :: Proc(s, p).Claiming? && Proc(s, p).msg == m
  {
    var s', fp, token := Serve(c, s, m), s.inflight[m].fp, s.inflight[m].token;
    forall o
      ensures CaresFor(c, s', Proc(s', o), fp, token) <==>
              CaresFor(c, s, Proc(s, o), fp, token) || (Proc(s, o).Claiming? && Proc(s, o).msg == m)
    {
      assert Awaits(Proc(s, o), s);
    }
    assert Told(s', fp, token) == Told(s, fp, token);
    assert DeleteSent(s', fp, token) == DeleteSent(s, fp, token) by {
      forall n | n in s.inflight && n != m ensures n in s'.inflight && s'.inflight[n] == s.inflight[n] {
      }
    }
  }

  lemma ApplyLosesIff(c: Config, s: State, m: MessageId, fp: Fingerprint)
    requires Inv(c, s) && !Lost(c, s, fp)
    ensures Lost(c, Do(c, s, Apply(m)), fp) <==> Loses(c, s, fp, Apply(m))
  {
    if m in s.inflight {
      var cmd := s.inflight[m];
      if cmd.SetNx? && cmd.fp == fp && !Live(s, fp) {
        GrantSettles(c, s, m);
      } else if Live(s, fp) && cmd != CompareDelete(fp, s.keys[fp].token) {
        AnswerSettles(c, s, m, fp, s.keys[fp].token);
      }
    }
  }

  lemma PidStepLosesIff(c: Config, s: State, step: Step, fp: Fingerprint)
    requires Inv(c, s) && !Lost(c, s, fp) && !ServerStep(step)
    ensures Lost(c, Do(c, s, step), fp) <==> Loses(c, s, fp, step)
  {
    if step.StoreReturns? || step.ClaimRetries? {
      ClaimSendLosesIff(c, s, step, fp);
    } else if SendStep(step) {
      ReleaseSendLosesNothing(c, s, step, fp);
    } else if EndStep(step) {
      EndStepLosesIff(c, s, step, fp);
    } else if step.Crash? {
      CrashLosesIff(c, s, step.pid, fp);
    } else if Delivers(step) {
      NotifyLosesNothing(c, s, step, fp);
    } else {
      MoveStepLosesNothing(c, s, step, fp);
    }
  }

  /** In every run, a step loses a claim exactly if it is one of the listed ones. */
  lemma LostIff(c: Config, steps: seq<Step>, step: Step, fp: Fingerprint)
    requires c.Valid() && !Lost(c, Run(c, steps), fp)
    ensures Lost(c, Run(c, steps + [step]), fp) <==> Loses(c, Run(c, steps), fp, step)
  {
    RunKeepsInv(c, steps);
    RunSnoc(c, steps, step);
    var s := Run(c, steps);
    match step
    case Tick(d) => TickLosesNothing(c, s, d, fp);
    case Apply(m) => ApplyLosesIff(c, s, m, fp);
    case Drop(m) => DropLosesIff(c, s, m, fp);
    case _ => PidStepLosesIff(c, s, step, fp);
  }

  // ---------------------------------------------------------- lost means lost

  /** The command under way is the SET that puts this token on the key. */
  predicate Grants(s: State, step: Step, fp: Fingerprint, token: Token) {
    step.Apply? && step.msg in s.inflight && s.inflight[step.msg] == SetNx(fp, token) && !Live(s, fp)
  }

  lemma ToldAfter(c: Config, s: State, step: Step, fp: Fingerprint, token: Token)
    requires Told(Do(c, s, step), fp, token)
    ensures Settling(c, s, fp, token)
  {
    var s' := Do(c, s, step);
    var i :| 0 <= i < |s'.delivered| && s'.delivered[i].lease.fp == fp && s'.delivered[i].lease.token == token;
    if i < |s.delivered| {
      assert s.delivered[i] == s'.delivered[i];
      assert Told(s, fp, token);
    } else {
      assert CaresFor(c, s, Proc(s, step.pid), fp, token);
    }
  }

  lemma DeleteAfter(c: Config, s: State, step: Step, fp: Fingerprint, token: Token)
    requires DeleteSent(Do(c, s, step), fp, token)
    ensures Settling(c, s, fp, token)
  {
    var s' := Do(c, s, step);
    var m :| m in s'.inflight && s'.inflight[m] == CompareDelete(fp, token);
    if m in s.inflight && s.inflight[m] == s'.inflight[m] {
      assert DeleteSent(s, fp, token);
    } else {
      assert CaresFor(c, s, Proc(s, step.pid), fp, token);
    }
  }

  /** Serving a command hands nothing but a grant to the one who waits for it. */
  lemma ServeMakesNoCarer(c: Config, s: State, m: MessageId, fp: Fingerprint, token: Token, p: Pid)
    requires Inv(c, s) && m in s.inflight && !Grants(s, Apply(m), fp, token)
    requires CaresFor(c, Serve(c, s, m), Proc(s, p), fp, token)
    ensures CaresFor(c, s, Proc(s, p), fp, token)
  {
    assert Awaits(Proc(s, p), s);
  }

  lemma SendMakesNoCarer(c: Config, s: State, step: Step, fp: Fingerprint, token: Token, p: Pid)
    requires Messages(s) && SendStep(step)
    requires var s' := Do(c, s, step); CaresFor(c, s', Proc(s', p), fp, token)
    ensures CaresFor(c, s, Proc(s, p), fp, token)
  {
    assert s.nextMsg !in s.replies;
  }

  lemma StepMakesNoCarer(c: Config, s: State, step: Step, fp: Fingerprint, token: Token, p: Pid)
    requires Messages(s) && !step.Apply?
    requires var s' := Do(c, s, step); CaresFor(c, s', Proc(s', p), fp, token)
    ensures CaresFor(c, s, Proc(s, p), fp, token)
  {
    if SendStep(step) { SendMakesNoCarer(c, s, step, fp, token, p); }
  }

  lemma CarerAfter(c: Config, s: State, step: Step, fp: Fingerprint, token: Token)
    requires Inv(c, s) && !Grants(s, step, fp, token)
    requires var s' := Do(c, s, step); exists p :: CaresFor(c, s', Proc(s', p), fp, token)
    ensures Settling(c, s, fp, token)
  {
    var s' := Do(c, s, step);
    var p :| CaresFor(c, s', Proc(s', p), fp, token);
    if step.Apply? {
      assert Proc(s', p) == Proc(s, p);
      if step.msg in s.inflight { ServeMakesNoCarer(c, s, step.msg, fp, token, p); }
    } else {
      StepMakesNoCarer(c, s, step, fp, token, p);
    }
    assert CaresFor(c, s, Proc(s, p), fp, token);
  }

  /** A claim once let go of does not come back to anyone. */
  lemma NothingResettles(c: Config, s: State, step: Step, fp: Fingerprint, token: Token)
    requires Inv(c, s) && !Grants(s, step, fp, token) && Settling(c, Do(c, s, step), fp, token)
    ensures Settling(c, s, fp, token)
  {
    var s' := Do(c, s, step);
    if Told(s', fp, token) {
      ToldAfter(c, s, step, fp, token);
    } else if DeleteSent(s', fp, token) {
      DeleteAfter(c, s, step, fp, token);
    } else {
      CarerAfter(c, s, step, fp, token);
    }
  }

  lemma KeyStays(c: Config, s: State, step: Step, fp: Fingerprint)
    requires Live(s, fp) && !DeleteSent(s, fp, s.keys[fp].token)
    ensures var s' := Do(c, s, step);
      && fp in s'.keys && s'.keys[fp] == s.keys[fp]
      && forall l :: l in s'.granted && l.fp == fp ==> l in s.granted
  {
  }

  lemma StepStaysLost(c: Config, s: State, step: Step, fp: Fingerprint)
    requires Inv(c, s) && Lost(c, s, fp) && Do(c, s, step).now < s.keys[fp].expires
    ensures var s' := Do(c, s, step);
      && Lost(c, s', fp) && s'.keys[fp] == s.keys[fp]
      && forall l :: l in s'.granted && l.fp == fp ==> l in s.granted
  {
    var s', token := Do(c, s, step), s.keys[fp].token;
    KeyStays(c, s, step, fp);
    if Settling(c, s', fp, token) {
      NothingResettles(c, s, step, fp, token);
      assert false;
    }
  }

  /** From then on, until the key expires: no new claim, and no alert under this one. */
  lemma {:induction false} StaysLost(c: Config, s: State, steps: seq<Step>, fp: Fingerprint)
    requires Inv(c, s) && Lost(c, s, fp) && RunFrom(c, s, steps).now < s.keys[fp].expires
    ensures var t := RunFrom(c, s, steps);
      && Inv(c, t) && Lost(c, t, fp) && t.keys[fp] == s.keys[fp]
      && forall l :: l in t.granted && l.fp == fp ==> l in s.granted
    decreases |steps|
  {
    if steps != [] {
      var before, step := steps[..|steps| - 1], steps[|steps| - 1];
      TimeFlows(c, RunFrom(c, s, before), step);
      StaysLost(c, s, before, fp);
      StepKeepsInv(c, RunFrom(c, s, before), step);
      StepStaysLost(c, RunFrom(c, s, before), step, fp);
    }
  }

  lemma TimeFlows(c: Config, s: State, step: Step)
    ensures Do(c, s, step).now >= s.now
  {
  }

  /** One way to settle a claim at once: send the alert, or take the key away. */
  function Remedy(c: Config, s: State, p: Pid): seq<Step> {
    match Proc(s, p)
    case Claiming(_, _, _, _) => [ClaimReturns(p), PublishReturns(p)] + [Success(p)]
    case Publishing(_) => [PublishReturns(p)] + [Success(p)]
    case Notifying(_) => [] + [Success(p)]
    case _ => [ReleaseRetries(p)] + [Apply(s.nextMsg)]
  }

  predicate Settled(s: State, t: State, fp: Fingerprint) {
    t.now == s.now && fp in s.keys && (fp !in t.keys || Told(t, fp, s.keys[fp].token))
  }

  lemma NotifySettles(c: Config, s: State, t: State, p: Pid, fp: Fingerprint)
    requires fp in s.keys && t.now == s.now
    requires Proc(t, p).Notifying? && Proc(t, p).lease.fp == fp && Proc(t, p).lease.token == s.keys[fp].token
    ensures Settled(s, Do(c, t, Success(p)), fp)
  {
    assert Do(c, t, Success(p)).delivered[|t.delivered|].lease == Proc(t, p).lease;
  }

  lemma OwnerSettles(c: Config, s: State, p: Pid, fp: Fingerprint)
    requires Live(s, fp) && Working(Proc(s, p)) && Proc(s, p).lease.fp == fp && Proc(s, p).lease.token == s.keys[fp].token
    ensures Settled(s, RunFrom(c, s, Remedy(c, s, p)), fp)
  {
    if Proc(s, p).Publishing? {
      assert Remedy(c, s, p) == [PublishReturns(p), Success(p)];
      RunOfTwo(c, s, PublishReturns(p), Success(p));
      NotifySettles(c, s, Do(c, s, PublishReturns(p)), p, fp);
    } else {
      assert Remedy(c, s, p) == [Success(p)];
      RunOfOne(c, s, Success(p));
      NotifySettles(c, s, s, p, fp);
    }
  }

  lemma ClaimerSettles(c: Config, s: State, p: Pid, fp: Fingerprint)
    requires Live(s, fp) && Answered(s, Proc(s, p), fp, s.keys[fp].token)
    ensures Settled(s, RunFrom(c, s, Remedy(c, s, p)), fp)
  {
    var t := Do(c, Do(c, s, ClaimReturns(p)), PublishReturns(p));
    assert Remedy(c, s, p) == [ClaimReturns(p), PublishReturns(p), Success(p)];
    RunOfThree(c, s, ClaimReturns(p), PublishReturns(p), Success(p));
    NotifySettles(c, s, t, p, fp);
  }

  lemma DeleteGoesThrough(c: Config, s: State, p: Pid, fp: Fingerprint)
    requires Live(s, fp) && MayRelease(c, Proc(s, p), fp, s.keys[fp].token)
    ensures Settled(s, Do(c, Do(c, s, ReleaseRetries(p)), Apply(s.nextMsg)), fp)
  {
    var l := Proc(s, p).lease;
    var t := Do(c, s, ReleaseRetries(p));
    assert t == Send(Move(s, p, Releasing(l, Proc(s, p).attempt + 1, s.nextMsg)), CompareDelete(l.fp, l.token));
    assert Do(c, t, Apply(s.nextMsg)) == Serve(c, t, s.nextMsg);
  }

  lemma ReleaserSettles(c: Config, s: State, p: Pid, fp: Fingerprint)
    requires Live(s, fp) && MayRelease(c, Proc(s, p), fp, s.keys[fp].token)
    ensures Settled(s, RunFrom(c, s, Remedy(c, s, p)), fp)
  {
    assert Remedy(c, s, p) == [ReleaseRetries(p), Apply(s.nextMsg)];
    RunOfTwo(c, s, ReleaseRetries(p), Apply(s.nextMsg));
    DeleteGoesThrough(c, s, p, fp);
  }

  /** A claim that is not lost can still be settled, with no time passing. */
  lemma Remediable(c: Config, s: State, fp: Fingerprint) returns (steps: seq<Step>)
    requires Inv(c, s) && Live(s, fp) && Settling(c, s, fp, s.keys[fp].token)
    ensures Settled(s, RunFrom(c, s, steps), fp)
  {
    var token := s.keys[fp].token;
    if Told(s, fp, token) {
      steps := [];
    } else if DeleteSent(s, fp, token) {
      var m :| m in s.inflight && s.inflight[m] == CompareDelete(fp, token);
      steps := [Apply(m)];
      RunOfOne(c, s, Apply(m));
    } else {
      var p :| CaresFor(c, s, Proc(s, p), fp, token);
      steps := Remedy(c, s, p);
      if Working(Proc(s, p)) {
        OwnerSettles(c, s, p, fp);
      } else if Proc(s, p).Claiming? {
        ClaimerSettles(c, s, p, fp);
      } else {
        ReleaserSettles(c, s, p, fp);
      }
    }
  }

  /**
    A claim is lost exactly when, whatever happens before the key expires, the
    key stays and no alert goes out under it.  Until then nobody can claim the
    fingerprint again.
  */
  lemma LostMeansNothingDelivered(c: Config, steps: seq<Step>, fp: Fingerprint)
    requires c.Valid() && Live(Run(c, steps), fp)
    ensures var s := Run(c, steps);
      Lost(c, s, fp) <==>
      forall more :: RunFrom(c, s, more).now < s.keys[fp].expires ==>
        var t := RunFrom(c, s, more);
        && fp in t.keys && t.keys[fp] == s.keys[fp] && !Told(t, fp, s.keys[fp].token)
        && forall l :: l in t.granted && l.fp == fp ==> l in s.granted
  {
    RunKeepsInv(c, steps);
    var s := Run(c, steps);
    if Lost(c, s, fp) {
      forall more | RunFrom(c, s, more).now < s.keys[fp].expires
        ensures var t := RunFrom(c, s, more);
          && fp in t.keys && t.keys[fp] == s.keys[fp] && !Told(t, fp, s.keys[fp].token)
          && forall l :: l in t.granted && l.fp == fp ==> l in s.granted
      {
        StaysLost(c, s, more, fp);
      }
    } else {
      var more := Remediable(c, s, fp);
      assert RunFrom(c, s, more).now < s.keys[fp].expires;
    }
  }

  // -------------------------------------------------------- how that comes about

  function UnansweredSteps(p: Pid, fp: Fingerprint): seq<Step> {
    GrantSteps(p, fp, 0) + [ClaimRaises(p)]
  }

  /**
    It takes no second attempt: for every cooldown and every number of sends
    a claim whose only reply is lost is kept for its whole cooldown, with nobody
    at work and nothing on the wire.
  */
  lemma UnansweredClaimIsLost(c: Config, p: Pid, fp: Fingerprint)
    requires c.Valid()
    ensures var s := Run(c, UnansweredSteps(p, fp));
      && Lost(c, s, fp) && s.keys[fp].expires == s.now + c.cooldown
      && s.delivered == [] && s.inflight == map[] && forall q :: Proc(s, q) == Idle
  {
    GrantedByRun(c, Initial(), p, fp);
    RunSnoc(c, GrantSteps(p, fp, 0), ClaimRaises(p));
  }
}
