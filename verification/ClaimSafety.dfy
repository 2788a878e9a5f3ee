/**
  What the claim protocol guarantees in every run.
*/
module ClaimSafety {
  import opened ClaimProtocol
  import opened ClaimRuns

  /** Two delivered alerts of one fingerprint were claimed a full cooldown apart, by different calls. */
  lemma DeliveriesAreSpaced(c: Config, steps: seq<Step>, i: nat, j: nat)
    requires c.Valid() && i < j < |Run(c, steps).delivered|
    requires Run(c, steps).delivered[i].lease.fp == Run(c, steps).delivered[j].lease.fp
    ensures var k, l := Run(c, steps).delivered[i].lease, Run(c, steps).delivered[j].lease;
      && k in Run(c, steps).granted && l in Run(c, steps).granted
      && k.token != l.token
      && (k.at + c.cooldown <= l.at || l.at + c.cooldown <= k.at)
  {
    RunKeepsInv(c, steps);
    assert Run(c, steps).delivered[i] in Run(c, steps).delivered;
    assert Run(c, steps).delivered[j] in Run(c, steps).delivered;
  }

  predicate Working(q: Process) {
    q.Publishing? || q.Notifying?
  }

  /**
    Between claim and release a correlator owns the key, or its lease is over;
    the token was stored for it and is no one else's.
  */
  lemma OwnerOrExpired(c: Config, steps: seq<Step>, p: Pid)
    requires c.Valid() && Working(Proc(Run(c, steps), p))
    ensures var s, l := Run(c, steps), Proc(Run(c, steps), p).lease;
      && l in s.granted && l.at <= s.now
      && (s.now < l.at + c.cooldown ==> Live(s, l.fp) && s.keys[l.fp] == Entry(l.token, l.at + c.cooldown))
      && (forall q :: q != p ==> !Uses(Proc(s, q), l.token))
  {
    RunKeepsInv(c, steps);
    var s, l := Run(c, steps), Proc(Run(c, steps), p).lease;
    assert InForce(Proc(s, p), s.replies, l) && Uses(Proc(s, p), l.token);
  }

  /** At most one correlator works on a fingerprint under an unexpired lease. */
  lemma OneLiveOwner(c: Config, steps: seq<Step>, p: Pid, q: Pid)
    requires c.Valid() && p != q
    requires Working(Proc(Run(c, steps), p)) && Working(Proc(Run(c, steps), q))
    requires Proc(Run(c, steps), p).lease.fp == Proc(Run(c, steps), q).lease.fp
    ensures var s := Run(c, steps);
      Proc(s, p).lease.at + c.cooldown <= s.now || Proc(s, q).lease.at + c.cooldown <= s.now
  {
    OwnerOrExpired(c, steps, p);
    OwnerOrExpired(c, steps, q);
    var s := Run(c, steps);
    assert Uses(Proc(s, q), Proc(s, q).lease.token);
  }

  /** A token returned by claim_alert was stored by that very call, whichever attempt was answered. */
  lemma ReturnedTokenWasStored(c: Config, steps: seq<Step>, p: Pid)
    requires c.Valid() && Proc(Run(c, steps), p).Claiming?
    requires Proc(Run(c, steps + [ClaimReturns(p)]), p).Publishing?
    ensures var q, l := Proc(Run(c, steps), p), Proc(Run(c, steps + [ClaimReturns(p)]), p).lease;
      && l.fp == q.fp && l.token == q.token && l in Run(c, steps).granted
      && Run(c, steps).replies[q.msg] == Granted(l.at)
  {
    RunKeepsInv(c, steps);
    RunSnoc(c, steps, ClaimReturns(p));
    var s := Run(c, steps);
    assert InForce(Proc(s, p), s.replies, Proc(Do(c, s, ClaimReturns(p)), p).lease);
  }

  /**
    A live claim goes away only by the compare-and-delete carrying its own
    token, and only when no correlator holds that token and no alert was
    delivered under it.
  */
  lemma ReleaseSparesOthers(c: Config, steps: seq<Step>, step: Step, fp: Fingerprint)
    requires c.Valid() && Live(Run(c, steps), fp)
    requires var s' := Run(c, steps + [step]);
      fp !in s'.keys || s'.keys[fp] != Run(c, steps).keys[fp]
    ensures var s := Run(c, steps);
      && step.Apply? && step.msg in s.inflight
      && s.inflight[step.msg] == CompareDelete(fp, s.keys[fp].token)
      && Abandoned(s, s.keys[fp].token)
  {
    RunKeepsInv(c, steps);
    RunSnoc(c, steps, step);
  }

  /**
    What the server answers: a claim is granted now exactly if the key is free,
    and then the key is its own; a release tells whether it removed the key,
    which it does exactly if the key carries its token.
  */
  lemma AnswersTell(c: Config, steps: seq<Step>, m: MessageId)
    requires m in Run(c, steps).inflight
    ensures var s, s' := Run(c, steps), Run(c, steps + [Apply(m)]);
      m in s'.replies && m !in s'.inflight && match s.inflight[m]
      case SetNx(fp, token) =>
        && (s'.replies[m] == Granted(s.now) <==> fp !in s.keys || s.keys[fp].expires <= s.now)
        && (s'.replies[m] == Refused <==> fp in s.keys && s.now < s.keys[fp].expires)
        && (s'.replies[m] != Refused ==> fp in s'.keys && s'.keys[fp] == Entry(token, s.now + c.cooldown))
      case CompareDelete(fp, token) =>
        && (s'.replies[m] == Released(true) <==> fp in s.keys && s.now < s.keys[fp].expires && s.keys[fp].token == token)
        && (s'.replies[m] == Released(true) <==> fp in s.keys && s.now < s.keys[fp].expires && fp !in s'.keys)
        && (s'.replies[m] == Released(true) || s'.replies[m] == Released(false))
  {
    RunSnoc(c, steps, Apply(m));
  }
}
