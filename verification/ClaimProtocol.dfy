/**
  Alert claims as a distributed lease (watchers/redis_client.py and the
  claiming half of watchers/correlator.py).

  Any number of correlators share one Redis key per fingerprint.  A command
  travels as a message: the server may apply it at any later moment, or never,
  and the sender may stop waiting at any moment.  So "failed", "applied with the
  reply lost" and "applied after the caller gave up" are all covered, in every
  interleaving with clock ticks, crashes and restarts.
*/
module ClaimProtocol {
  import opened Notifier

  type Fingerprint = string
  type Token = nat
  type Pid = nat
  type MessageId = nat

  /**
    The same for all correlators.  `maxSends` is how often one call may put its
    command on the wire: the attempts of `_with_retry`, each of which redis-py
    may send again by itself (retry_on_timeout).
  */
  datatype Config = Config(cooldown: real, maxSends: nat) {
    predicate Valid() {
      cooldown > 0.0 && maxSends >= 1
    }
  }

  /** What the cooldown key holds: who claimed it and when Redis forgets it. */
  datatype Entry = Entry(token: Token, expires: real)

  /** One granted claim: `at` is the server time at which the key was set. */
  datatype Lease = Lease(fp: Fingerprint, token: Token, at: real)

  /** An alert for which send_alert returned true, and when it did. */
  datatype Delivery = Delivery(lease: Lease, sentAt: real)

  datatype Command =
    | SetNx(fp: Fingerprint, token: Token)
    | CompareDelete(fp: Fingerprint, token: Token)

  datatype Reply =
    | Granted(at: real)
    | Refused
    | Released(removed: bool)

  /** Where one correlator is in the handling of one alert. */
  datatype Process =
    | Idle
    | Storing(fp: Fingerprint)
    | Claiming(fp: Fingerprint, token: Token, attempt: nat, msg: MessageId)
    | Publishing(lease: Lease)
    | Notifying(lease: Lease)
    | Releasing(lease: Lease, attempt: nat, msg: MessageId)
    | Crashed

  datatype State = State(
    now: real,
    keys: map<Fingerprint, Entry>,
    procs: map<Pid, Process>,
    inflight: map<MessageId, Command>,
    replies: map<MessageId, Reply>,
    nextToken: Token,
    nextMsg: MessageId,
    granted: seq<Lease>,
    delivered: seq<Delivery>)

  datatype Step =
    | Tick(elapsed: real)
    | Apply(msg: MessageId)
    | Drop(msg: MessageId)
    | Begin(pid: Pid, fp: Fingerprint)
    | StoreRaises(pid: Pid)
    | StoreReturns(pid: Pid)
    | ClaimReturns(pid: Pid)
    | ClaimRetries(pid: Pid)
    | ClaimRaises(pid: Pid)
    | PublishReturns(pid: Pid)
    | PublishRaises(pid: Pid)
    | Notify(pid: Pid, worth: bool, channels: Channels)
    | ReleaseReturns(pid: Pid)
    | ReleaseRetries(pid: Pid)
    | ReleaseRaises(pid: Pid)
    | Crash(pid: Pid)
    | Restart(pid: Pid)

  function Initial(): State {
    State(0.0, map[], map[], map[], map[], 0, 0, [], [])
  }

  function Proc(s: State, p: Pid): Process {
    if p in s.procs then s.procs[p] else Idle
  }

  /** Redis treats a key past its expiry as absent. */
  predicate Live(s: State, fp: Fingerprint) {
    fp in s.keys && s.now < s.keys[fp].expires
  }

  /** One command, run atomically by the server. */
  function Serve(c: Config, s: State, m: MessageId): State
    requires m in s.inflight
  {
    var rest := s.inflight - {m};
    match s.inflight[m]
    case SetNx(fp, token) =>
      if Live(s, fp) then
        s.(inflight := rest, replies := s.replies[m := Refused])
      else
        s.(inflight := rest,
           replies := s.replies[m := Granted(s.now)],
           keys := s.keys[fp := Entry(token, s.now + c.cooldown)],
           granted := s.granted + [Lease(fp, token, s.now)])
    case CompareDelete(fp, token) =>
      if Live(s, fp) && s.keys[fp].token == token then
        s.(inflight := rest, replies := s.replies[m := Released(true)], keys := s.keys - {fp})
      else
        s.(inflight := rest, replies := s.replies[m := Released(false)])
  }

  function Move(s: State, p: Pid, q: Process): State {
    s.(procs := s.procs[p := q])
  }

  /** Put a command on the wire; its id is the old `nextMsg`. */
  function Send(s: State, cmd: Command): State {
    s.(inflight := s.inflight[s.nextMsg := cmd], nextMsg := s.nextMsg + 1)
  }

  function BeginRelease(s: State, p: Pid, lease: Lease): State {
    Send(Move(s, p, Releasing(lease, 1, s.nextMsg)), CompareDelete(lease.fp, lease.token))
  }

  /** One step of the system.  A step that is not enabled changes nothing. */
  function Do(c: Config, s: State, step: Step): State {
    match step
    case Tick(d) => if d >= 0.0 then s.(now := s.now + d) else s
    case Apply(m) => if m in s.inflight then Serve(c, s, m) else s
    case Drop(m) => s.(inflight := s.inflight - {m})
    case Begin(p, fp) => if Proc(s, p).Idle? then Move(s, p, Storing(fp)) else s
    case StoreRaises(p) => if Proc(s, p).Storing? then Move(s, p, Idle) else s
    case StoreReturns(p) =>
      (match Proc(s, p)
       case Storing(fp) =>
         Send(Move(s, p, Claiming(fp, s.nextToken, 1, s.nextMsg)), SetNx(fp, s.nextToken))
         .(nextToken := s.nextToken + 1)
       case _ => s)
    case ClaimReturns(p) =>
      (match Proc(s, p)
       case Claiming(fp, token, _, m) =>
         if m !in s.replies then s
         else if s.replies[m].Granted? then Move(s, p, Publishing(Lease(fp, token, s.replies[m].at)))
         else Move(s, p, Idle)
       case _ => s)
    case ClaimRetries(p) =>
      (match Proc(s, p)
       case Claiming(fp, token, k, _) =>
         if k < c.maxSends then Send(Move(s, p, Claiming(fp, token, k + 1, s.nextMsg)), SetNx(fp, token)) else s
       case _ => s)
    case ClaimRaises(p) => if Proc(s, p).Claiming? then Move(s, p, Idle) else s
    case PublishReturns(p) =>
      (match Proc(s, p) case Publishing(l) => Move(s, p, Notifying(l)) case _ => s)
    case PublishRaises(p) =>
      (match Proc(s, p) case Publishing(l) => BeginRelease(s, p, l) case _ => s)
    case Notify(p, worth, channels) =>
      (match Proc(s, p)
       case Notifying(l) =>
         if Succeeds(worth, channels) then Move(s, p, Idle).(delivered := s.delivered + [Delivery(l, s.now)])
         else BeginRelease(s, p, l)
       case _ => s)
    case ReleaseReturns(p) =>
      (match Proc(s, p) case Releasing(_, _, m) => if m in s.replies then Move(s, p, Idle) else s case _ => s)
    case ReleaseRetries(p) =>
      (match Proc(s, p)
       case Releasing(l, k, _) =>
         if k < c.maxSends then
           Send(Move(s, p, Releasing(l, k + 1, s.nextMsg)), CompareDelete(l.fp, l.token))
         else s
       case _ => s)
    case ReleaseRaises(p) => if Proc(s, p).Releasing? then Move(s, p, Idle) else s
    case Crash(p) => Move(s, p, Crashed)
    case Restart(p) => if Proc(s, p).Crashed? then Move(s, p, Idle) else s
  }

  function RunFrom(c: Config, s: State, steps: seq<Step>): State {
    if steps == [] then s else Do(c, RunFrom(c, s, steps[..|steps| - 1]), steps[|steps| - 1])
  }

  /** The state after a run; every sequence of steps is a run. */
  function Run(c: Config, steps: seq<Step>): State {
    RunFrom(c, Initial(), steps)
  }

  // ---------------------------------------------------------------- invariant

  /** The correlator has drawn this token and has not started to give it back. */
  predicate Holds(q: Process, token: Token) {
    match q
    case Claiming(_, t, _, _) => t == token
    case Publishing(l) => l.token == token
    case Notifying(l) => l.token == token
    case _ => false
  }

  predicate Uses(q: Process, token: Token) {
    Holds(q, token) || (q.Releasing? && q.lease.token == token)
  }

  /** The claim is granted: the correlator knows it, or the grant is the reply it waits for. */
  predicate InForce(q: Process, replies: map<MessageId, Reply>, l: Lease) {
    match q
    case Claiming(fp, token, _, m) => m in replies && replies[m] == Granted(l.at) && l.fp == fp && l.token == token
    case Publishing(k) => k == l
    case Notifying(k) => k == l
    case _ => false
  }

  /** The key still carries this very claim, or its cooldown is over. */
  predicate Covered(c: Config, s: State, l: Lease) {
    && l.at <= s.now
    && (s.now < l.at + c.cooldown ==> l.fp in s.keys && s.keys[l.fp] == Entry(l.token, l.at + c.cooldown))
  }

  predicate Apart(c: Config, k: Lease, l: Lease) {
    k.fp == l.fp ==> k.at + c.cooldown <= l.at || l.at + c.cooldown <= k.at
  }

  predicate Awaits(q: Process, s: State) {
    q.Claiming? ==> q.msg < s.nextMsg && (q.msg in s.inflight ==> s.inflight[q.msg] == SetNx(q.fp, q.token))
  }

  ghost predicate Messages(s: State) {
    && (forall m :: m in s.inflight ==> m < s.nextMsg && m !in s.replies && s.inflight[m].token < s.nextToken)
    && (forall m :: m in s.replies ==> m < s.nextMsg)
    && (forall p :: Awaits(Proc(s, p), s))
  }

  ghost predicate Tokens(s: State) {
    && (forall p: Pid, t: Token :: Uses(Proc(s, p), t) ==> t < s.nextToken)
    && (forall d :: d in s.delivered ==> d.lease.token < s.nextToken)
    && (forall p: Pid, q: Pid, t: Token :: Uses(Proc(s, p), t) && Uses(Proc(s, q), t) ==> p == q)
    && (forall p, d :: d in s.delivered ==> !Uses(Proc(s, p), d.lease.token))
    && (forall i, j :: 0 <= i < j < |s.delivered| ==> s.delivered[i].lease.token != s.delivered[j].lease.token)
  }

  /** A release on the wire can only concern a claim nobody relies on any more. */
  ghost predicate Abandoned(s: State, token: Token) {
    && (forall p :: !Holds(Proc(s, p), token))
    && (forall d :: d in s.delivered ==> d.lease.token != token)
  }

  ghost predicate Deletes(s: State) {
    forall m :: m in s.inflight && s.inflight[m].CompareDelete? ==> Abandoned(s, s.inflight[m].token)
  }

  ghost predicate Leases(c: Config, s: State) {
    && (forall p, l :: InForce(Proc(s, p), s.replies, l) ==> Covered(c, s, l) && l in s.granted)
    && (forall d :: d in s.delivered ==> Covered(c, s, d.lease) && d.lease in s.granted)
  }

  ghost predicate Spaced(c: Config, s: State) {
    && (forall p, q, k, l :: p != q && InForce(Proc(s, p), s.replies, k) && InForce(Proc(s, q), s.replies, l) ==> Apart(c, k, l))
    && (forall p, k, d :: InForce(Proc(s, p), s.replies, k) && d in s.delivered ==> Apart(c, k, d.lease))
    && (forall i, j :: 0 <= i < j < |s.delivered| ==> Apart(c, s.delivered[i].lease, s.delivered[j].lease))
  }

  ghost predicate Inv(c: Config, s: State) {
    c.Valid() && Messages(s) && Tokens(s) && Deletes(s) && Leases(c, s) && Spaced(c, s)
  }

  /** q claims no more than r does. */
  ghost predicate Weaker(q: Process, r: Process, s: State) {
    && Awaits(q, s)
    && (forall t: Token :: Uses(q, t) ==> Uses(r, t))
    && (forall t: Token :: Holds(q, t) ==> Holds(r, t))
    && (forall l :: InForce(q, s.replies, l) ==> InForce(r, s.replies, l))
  }

  lemma MoveKeepsInv(c: Config, s: State, p: Pid, q: Process)
    requires Inv(c, s) && Weaker(q, Proc(s, p), s)
    ensures Inv(c, Move(s, p, q))
  {
    var s' := Move(s, p, q);
    assert forall o :: Proc(s', o) == if o == p then q else Proc(s, o);
    assert forall l :: Covered(c, s, l) ==> Covered(c, s', l);
    assert forall o, l :: InForce(Proc(s', o), s'.replies, l) ==> InForce(Proc(s, o), s.replies, l);
  }

  lemma TickKeepsInv(c: Config, s: State, d: real)
    requires Inv(c, s) && d >= 0.0
    ensures Inv(c, s.(now := s.now + d))
  {
    var s' := s.(now := s.now + d);
    assert forall o :: Proc(s', o) == Proc(s, o);
    assert forall l :: Covered(c, s, l) ==> Covered(c, s', l);
  }

  lemma DropKeepsInv(c: Config, s: State, m: MessageId)
    requires Inv(c, s)
    ensures Inv(c, s.(inflight := s.inflight - {m}))
  {
    var s' := s.(inflight := s.inflight - {m});
    assert forall o :: Proc(s', o) == Proc(s, o);
    assert forall l :: Covered(c, s, l) ==> Covered(c, s', l);
  }

  /** A grant happens only when every earlier claim of that key is out of its cooldown. */
  lemma GrantKeepsInv(c: Config, s: State, m: MessageId)
    requires Inv(c, s) && m in s.inflight && s.inflight[m].SetNx? && !Live(s, s.inflight[m].fp)
    ensures Inv(c, Serve(c, s, m))
  {
    var s' := Serve(c, s, m);
    var fp, token := s.inflight[m].fp, s.inflight[m].token;
    assert forall o :: Proc(s', o) == Proc(s, o);
    assert forall l :: Covered(c, s, l) ==> Covered(c, s', l) && (l.fp == fp ==> l.at + c.cooldown <= s.now);
    var newest := Lease(fp, token, s.now);
    assert Covered(c, s', newest);
    forall p, l | InForce(Proc(s', p), s'.replies, l) && !InForce(Proc(s, p), s.replies, l)
      ensures l == newest && Proc(s, p).Claiming? && Proc(s, p).msg == m
    {
      assert Awaits(Proc(s, p), s);
    }
    forall p, q, k, l | p != q && InForce(Proc(s', p), s'.replies, k) && InForce(Proc(s', q), s'.replies, l)
      ensures Apart(c, k, l)
    {
      if !InForce(Proc(s, p), s.replies, k) && !InForce(Proc(s, q), s.replies, l) {
        assert Uses(Proc(s, p), token) && Uses(Proc(s, q), token);
        assert false;
      }
    }
  }

  lemma AnswerKeepsInv(c: Config, s: State, m: MessageId)
    requires Inv(c, s) && m in s.inflight && !(s.inflight[m].SetNx? && !Live(s, s.inflight[m].fp))
    ensures Inv(c, Serve(c, s, m))
  {
    var s' := Serve(c, s, m);
    assert forall o :: Proc(s', o) == Proc(s, o);
    forall p, l | InForce(Proc(s', p), s'.replies, l)
      ensures InForce(Proc(s, p), s.replies, l)
    {
    }
    forall l | Covered(c, s, l) && (s.inflight[m].CompareDelete? ==> l.token != s.inflight[m].token)
      ensures Covered(c, s', l)
    {
    }
    if s.inflight[m].CompareDelete? {
      assert Abandoned(s, s.inflight[m].token);
      forall p, l | InForce(Proc(s', p), s'.replies, l)
        ensures l.token != s.inflight[m].token
      {
        assert Holds(Proc(s, p), l.token);
      }
    }
  }

  /** Where p's entry and the wire differ, and nothing else that claims depend on. */
  lemma SendKeepsLeases(c: Config, s: State, s': State, p: Pid)
    requires Inv(c, s)
    requires s'.now == s.now && s'.keys == s.keys && s'.replies == s.replies && s'.granted == s.granted && s'.delivered == s.delivered
    requires forall o :: o != p ==> Proc(s', o) == Proc(s, o)
    requires forall l :: !InForce(Proc(s', p), s.replies, l)
    ensures Leases(c, s') && Spaced(c, s')
  {
    assert forall l :: Covered(c, s, l) ==> Covered(c, s', l);
  }

  /** A new message on the wire, and p waiting for it, are in order. */
  lemma SendKeepsMessages(c: Config, s: State, s': State, p: Pid, cmd: Command)
    requires Inv(c, s)
    requires s'.replies == s.replies && s'.inflight == s.inflight[s.nextMsg := cmd] && s'.nextMsg == s.nextMsg + 1
    requires s.nextToken <= s'.nextToken && cmd.token < s'.nextToken
    requires forall o :: o != p ==> Proc(s', o) == Proc(s, o)
    requires var q := Proc(s', p); q.Claiming? ==> q.msg == s.nextMsg && cmd == SetNx(q.fp, q.token)
    ensures Messages(s')
  {
    forall o
      ensures Awaits(Proc(s', o), s')
    {
      assert Awaits(Proc(s, o), s);
    }
  }

  /** p uses one token only: its own, or one just drawn. */
  lemma SendKeepsTokens(c: Config, s: State, s': State, p: Pid, token: Token)
    requires Inv(c, s)
    requires s'.delivered == s.delivered && s.nextToken <= s'.nextToken && token < s'.nextToken
    requires forall o :: o != p ==> Proc(s', o) == Proc(s, o)
    requires forall t: Token :: Uses(Proc(s', p), t) <==> t == token
    requires Uses(Proc(s, p), token) || token == s.nextToken
    ensures Tokens(s')
  {
  }

  /** Sending a claim: the token is drawn now, or was drawn by this very call. */
  lemma SendClaimKeepsInv(c: Config, s: State, p: Pid, fp: Fingerprint, token: Token, k: nat, next: Token)
    requires Inv(c, s)
    requires (Holds(Proc(s, p), token) && next == s.nextToken) || (token == s.nextToken && next == token + 1)
    ensures Inv(c, Send(Move(s, p, Claiming(fp, token, k, s.nextMsg)), SetNx(fp, token)).(nextToken := next))
  {
    var q := Claiming(fp, token, k, s.nextMsg);
    var s' := Send(Move(s, p, q), SetNx(fp, token)).(nextToken := next);
    assert forall o :: Proc(s', o) == if o == p then q else Proc(s, o);
    assert Uses(Proc(s, p), token) || token == s.nextToken;
    SendKeepsLeases(c, s, s', p);
    SendKeepsMessages(c, s, s', p, SetNx(fp, token));
    SendKeepsTokens(c, s, s', p, token);
    ClaimKeepsDeletes(c, s, s', p, token);
  }

  lemma ClaimKeepsDeletes(c: Config, s: State, s': State, p: Pid, token: Token)
    requires Inv(c, s)
    requires s'.delivered == s.delivered && Proc(s', p).Claiming? && Proc(s', p).token == token
    requires s'.inflight == s.inflight[s.nextMsg := SetNx(Proc(s', p).fp, token)]
    requires forall o :: o != p ==> Proc(s', o) == Proc(s, o)
    requires Holds(Proc(s, p), token) || token == s.nextToken
    ensures Deletes(s')
  {
  }

  lemma SendReleaseKeepsInv(c: Config, s: State, p: Pid, l: Lease, k: nat)
    requires Inv(c, s) && Uses(Proc(s, p), l.token)
    ensures Inv(c, Send(Move(s, p, Releasing(l, k, s.nextMsg)), CompareDelete(l.fp, l.token)))
  {
    var q := Releasing(l, k, s.nextMsg);
    var s' := Send(Move(s, p, q), CompareDelete(l.fp, l.token));
    assert forall o :: Proc(s', o) == if o == p then q else Proc(s, o);
    SendKeepsLeases(c, s, s', p);
    SendKeepsMessages(c, s, s', p, CompareDelete(l.fp, l.token));
    SendKeepsTokens(c, s, s', p, l.token);
    assert Deletes(s');
  }

  /** What delivering adds to the list of delivered alerts. */
  lemma DeliverySpaced(c: Config, s: State, s': State, p: Pid, d: Delivery)
    requires Inv(c, s) && InForce(Proc(s, p), s.replies, d.lease)
    requires s'.now == s.now && s'.keys == s.keys && s'.replies == s.replies && s'.granted == s.granted
    requires s'.delivered == s.delivered + [d]
    requires forall o :: Proc(s', o) == if o == p then Idle else Proc(s, o)
    ensures Leases(c, s') && Spaced(c, s')
  {
    assert forall k :: Covered(c, s, k) ==> Covered(c, s', k);
    assert forall e :: e in s'.delivered <==> e in s.delivered || e == d;
    forall i | 0 <= i < |s.delivered| ensures s.delivered[i] in s.delivered {
    }
  }

  /** The notification step whose send_alert returns true. */
  predicate Delivers(step: Step) {
    step.Notify? && Succeeds(step.worth, step.channels)
  }

  predicate FailsToDeliver(step: Step) {
    step.Notify? && !Succeeds(step.worth, step.channels)
  }

  lemma DeliverKeepsInv(c: Config, s: State, step: Step)
    requires Inv(c, s) && Delivers(step) && Proc(s, step.pid).Notifying?
    ensures Inv(c, Do(c, s, step))
  {
    var p := step.pid;
    var d := Delivery(Proc(s, p).lease, s.now);
    var s' := Do(c, s, step);
    assert forall o :: Proc(s', o) == if o == p then Idle else Proc(s, o);
    assert Holds(Proc(s, p), d.lease.token) && Uses(Proc(s, p), d.lease.token);
    DeliverySpaced(c, s, s', p, d);
    assert Messages(s') by { assert forall o :: Awaits(Proc(s, o), s); }
    assert forall e :: e in s'.delivered <==> e in s.delivered || e == d;
    assert Tokens(s') by {
      forall i | 0 <= i < |s.delivered| ensures s.delivered[i].lease.token != d.lease.token {
        assert s.delivered[i] in s.delivered;
      }
    }
    assert Deletes(s');
  }

  predicate ServerStep(step: Step) {
    step.Tick? || step.Apply? || step.Drop?
  }

  predicate SendStep(step: Step) {
    step.StoreReturns? || step.ClaimRetries? || step.PublishRaises? || FailsToDeliver(step) || step.ReleaseRetries?
  }

  lemma ApplyKeepsInv(c: Config, s: State, m: MessageId)
    requires Inv(c, s) && m in s.inflight
    ensures Inv(c, Serve(c, s, m))
  {
    if s.inflight[m].SetNx? && !Live(s, s.inflight[m].fp) {
      GrantKeepsInv(c, s, m);
    } else {
      AnswerKeepsInv(c, s, m);
    }
  }

  lemma ServerStepKeepsInv(c: Config, s: State, step: Step)
    requires Inv(c, s) && ServerStep(step)
    ensures Inv(c, Do(c, s, step))
  {
    match step
    case Tick(d) => if d >= 0.0 { TickKeepsInv(c, s, d); }
    case Drop(m) => DropKeepsInv(c, s, m);
    case Apply(m) => if m in s.inflight { ApplyKeepsInv(c, s, m); }
  }

  lemma SendStepKeepsInv(c: Config, s: State, step: Step)
    requires Inv(c, s) && SendStep(step)
    ensures Inv(c, Do(c, s, step))
  {
    var p, q := step.pid, Proc(s, step.pid);
    if Do(c, s, step) != s {
      if step.StoreReturns? {
        SendClaimKeepsInv(c, s, p, q.fp, s.nextToken, 1, s.nextToken + 1);
      } else if step.ClaimRetries? {
        SendClaimKeepsInv(c, s, p, q.fp, q.token, q.attempt + 1, s.nextToken);
      } else {
        SendReleaseKeepsInv(c, s, p, q.lease, if step.ReleaseRetries? then q.attempt + 1 else 1);
      }
    }
  }

  lemma MoveStepKeepsInv(c: Config, s: State, step: Step)
    requires Inv(c, s) && !ServerStep(step) && !SendStep(step) && !Delivers(step)
    ensures Inv(c, Do(c, s, step))
  {
    var s' := Do(c, s, step);
    if s' != s {
      var p, q := step.pid, Proc(s', step.pid);
      assert s' == Move(s, p, q);
      MoveKeepsInv(c, s, p, q);
    }
  }

  lemma StepKeepsInv(c: Config, s: State, step: Step)
    requires Inv(c, s)
    ensures Inv(c, Do(c, s, step))
  {
    if ServerStep(step) {
      ServerStepKeepsInv(c, s, step);
    } else if SendStep(step) {
      SendStepKeepsInv(c, s, step);
    } else if Delivers(step) {
      if Proc(s, step.pid).Notifying? { DeliverKeepsInv(c, s, step); }
    } else {
      MoveStepKeepsInv(c, s, step);
    }
  }

  lemma {:induction false} RunKeepsInv(c: Config, steps: seq<Step>)
    requires c.Valid()
    ensures Inv(c, Run(c, steps))
  {
    if steps == [] {
      assert forall p :: Proc(Initial(), p) == Idle;
    } else {
      RunKeepsInv(c, steps[..|steps| - 1]);
      StepKeepsInv(c, Run(c, steps[..|steps| - 1]), steps[|steps| - 1]);
    }
  }
}
