/**
  In which order one correlator does things, over whole runs: what its visible
  steps say about each other, whatever the state machine in between looks like.
*/
module CallOrder {
  import opened ClaimProtocol
  import opened ClaimRuns

  /** The k-th step of the run is one of p's, and it took effect. */
  predicate Acts(c: Config, steps: seq<Step>, k: int, p: Pid) {
    && 0 <= k < |steps| && !ServerStep(steps[k]) && steps[k].pid == p
    && Run(c, steps[..k + 1]) != Run(c, steps[..k])
  }

  predicate Begins(c: Config, steps: seq<Step>, k: int, p: Pid) {
    Acts(c, steps, k, p) && steps[k].Begin?
  }

  /** p takes up another alert between the two steps. */
  ghost predicate BeginsBetween(c: Config, steps: seq<Step>, p: Pid, i: int, j: int) {
    exists b :: i < b < j && Begins(c, steps, b, p)
  }

  /** p draws a token. */
  predicate Draws(c: Config, steps: seq<Step>, k: int, p: Pid) {
    Acts(c, steps, k, p) && Run(c, steps[..k + 1]).nextToken != Run(c, steps[..k]).nextToken
  }

  lemma StepAt(c: Config, steps: seq<Step>, k: nat)
    requires k < |steps|
    ensures Run(c, steps[..k + 1]) == Do(c, Run(c, steps[..k]), steps[k])
  {
    assert steps[..k + 1][..k] == steps[..k];
  }

  // -------------------------------------------------- what stays so until the next Begin

  /** Only taking up an alert leads out of this phase. */
  ghost predicate Closed(c: Config, p: Pid, phase: Process -> bool) {
    forall s: State, step: Step :: phase(Proc(s, p)) && !(step.Begin? && step.pid == p) ==> phase(Proc(Do(c, s, step), p))
  }

  lemma PhaseNext(c: Config, s: State, step: Step, p: Pid, phase: Process -> bool)
    requires Closed(c, p, phase) && phase(Proc(s, p))
    requires step.Begin? && step.pid == p ==> Do(c, s, step) == s
    ensures phase(Proc(Do(c, s, step), p))
  {
  }

  lemma PhaseAt(c: Config, steps: seq<Step>, p: Pid, phase: Process -> bool, k: nat)
    requires Closed(c, p, phase) && k < |steps| && phase(Proc(Run(c, steps[..k]), p)) && !Begins(c, steps, k, p)
    ensures phase(Proc(Run(c, steps[..k + 1]), p))
  {
    StepAt(c, steps, k);
    PhaseNext(c, Run(c, steps[..k]), steps[k], p, phase);
  }

  lemma {:induction false} PhaseStays(c: Config, steps: seq<Step>, p: Pid, phase: Process -> bool, i: nat, j: nat)
    requires Closed(c, p, phase) && i < j <= |steps| && phase(Proc(Run(c, steps[..i + 1]), p))
    requires !BeginsBetween(c, steps, p, i, j)
    ensures phase(Proc(Run(c, steps[..j]), p))
  {
    if i + 1 < j {
      PhaseStays(c, steps, p, phase, i, j - 1);
      PhaseAt(c, steps, p, phase, j - 1);
    }
  }

  predicate Over(q: Process) {
    q.Idle? || q.Crashed?
  }

  predicate GivingUp(q: Process) {
    Over(q) || q.Releasing?
  }

  predicate NotAsking(q: Process) {
    !q.Storing?
  }

  /** Nothing but its own steps moves p. */
  lemma Unmoved(c: Config, s: State, step: Step, p: Pid)
    requires ServerStep(step) || step.pid != p || Do(c, s, step) == s
    ensures Proc(Do(c, s, step), p) == Proc(s, p)
  {
  }

  lemma OverStep(c: Config, s: State, step: Step, p: Pid)
    requires Over(Proc(s, p)) && !ServerStep(step) && step.pid == p && !step.Begin?
    ensures Over(Proc(Do(c, s, step), p))
  {
  }

  lemma GivingUpStep(c: Config, s: State, step: Step, p: Pid)
    requires GivingUp(Proc(s, p)) && !ServerStep(step) && step.pid == p && !step.Begin?
    ensures GivingUp(Proc(Do(c, s, step), p))
  {
  }

  lemma NotAskingStep(c: Config, s: State, step: Step, p: Pid)
    requires NotAsking(Proc(s, p)) && !ServerStep(step) && step.pid == p && !step.Begin?
    ensures NotAsking(Proc(Do(c, s, step), p))
  {
  }

  lemma OverIsClosed(c: Config, p: Pid)
    ensures Closed(c, p, Over)
  {
    forall s: State, step: Step | Over(Proc(s, p)) && !(step.Begin? && step.pid == p) ensures Over(Proc(Do(c, s, step), p)) {
      if ServerStep(step) || step.pid != p { Unmoved(c, s, step, p); } else { OverStep(c, s, step, p); }
    }
  }

  lemma GivingUpIsClosed(c: Config, p: Pid)
    ensures Closed(c, p, GivingUp)
  {
    forall s: State, step: Step | GivingUp(Proc(s, p)) && !(step.Begin? && step.pid == p) ensures GivingUp(Proc(Do(c, s, step), p)) {
      if ServerStep(step) || step.pid != p { Unmoved(c, s, step, p); } else { GivingUpStep(c, s, step, p); }
    }
  }

  lemma NotAskingIsClosed(c: Config, p: Pid)
    ensures Closed(c, p, NotAsking)
  {
    forall s: State, step: Step | NotAsking(Proc(s, p)) && !(step.Begin? && step.pid == p) ensures NotAsking(Proc(Do(c, s, step), p)) {
      if ServerStep(step) || step.pid != p { Unmoved(c, s, step, p); } else { NotAskingStep(c, s, step, p); }
    }
  }

  // ---------------------------------------------------------------- the laws

  /** The reply that p was waiting for when it took this step refuses its claim. */
  predicate RefusalTaken(c: Config, steps: seq<Step>, k: nat, p: Pid)
    requires k < |steps|
  {
    var s := Run(c, steps[..k]);
    steps[k].ClaimReturns? && Proc(s, p).Claiming? && Proc(s, p).msg in s.replies && s.replies[Proc(s, p).msg] == Refused
  }

  /** What ends the handling of an alert. */
  predicate Ends(c: Config, steps: seq<Step>, k: nat, p: Pid)
    requires k < |steps|
  {
    var step := steps[k];
    || step.StoreRaises? || step.ClaimRaises? || step.ReleaseReturns? || step.ReleaseRaises? || step.Crash?
    || Delivers(step) || RefusalTaken(c, steps, k, p)
  }

  lemma EndIsOver(c: Config, steps: seq<Step>, k: nat, p: Pid)
    requires k < |steps| && Acts(c, steps, k, p) && Ends(c, steps, k, p)
    ensures Over(Proc(Run(c, steps[..k + 1]), p))
  {
    StepAt(c, steps, k);
  }

  lemma OverDoesNothing(c: Config, steps: seq<Step>, k: nat, p: Pid)
    requires Acts(c, steps, k, p) && Over(Proc(Run(c, steps[..k]), p))
    ensures steps[k].Begin? || steps[k].Crash? || steps[k].Restart?
  {
    StepAt(c, steps, k);
  }

  /**
    A refused claim, a claim or store that raised, a delivered alert, a finished
    release, a crash: whatever p does next for an alert, it takes one up first.
  */
  lemma OverUntilNextBegin(c: Config, steps: seq<Step>, p: Pid, i: nat, j: nat)
    requires i < j < |steps| && Acts(c, steps, i, p) && Acts(c, steps, j, p) && Ends(c, steps, i, p)
    requires !steps[j].Begin? && !steps[j].Crash? && !steps[j].Restart?
    ensures BeginsBetween(c, steps, p, i, j)
  {
    if !BeginsBetween(c, steps, p, i, j) {
      EndIsOver(c, steps, i, p);
      OverIsClosed(c, p);
      PhaseStays(c, steps, p, Over, i, j);
      OverDoesNothing(c, steps, j, p);
      assert false;
    }
  }

  lemma FailureGivesUp(c: Config, steps: seq<Step>, k: nat, p: Pid)
    requires k < |steps| && Acts(c, steps, k, p) && (steps[k].PublishRaises? || FailsToDeliver(steps[k]))
    ensures GivingUp(Proc(Run(c, steps[..k + 1]), p))
  {
    StepAt(c, steps, k);
  }

  lemma GivingUpOnlyReleases(c: Config, steps: seq<Step>, k: nat, p: Pid)
    requires Acts(c, steps, k, p) && GivingUp(Proc(Run(c, steps[..k]), p))
    ensures steps[k].ReleaseReturns? || steps[k].ReleaseRetries? || steps[k].ReleaseRaises?
            || steps[k].Begin? || steps[k].Crash? || steps[k].Restart?
  {
    StepAt(c, steps, k);
  }

  /** Once publishing raised or send_alert did not return true, p only gives the claim back; it never notifies under it. */
  lemma OnlyReleasesAfterFailure(c: Config, steps: seq<Step>, p: Pid, i: nat, j: nat)
    requires i < j < |steps| && Acts(c, steps, i, p) && Acts(c, steps, j, p)
    requires steps[i].PublishRaises? || FailsToDeliver(steps[i])
    requires !steps[j].ReleaseReturns? && !steps[j].ReleaseRetries? && !steps[j].ReleaseRaises?
    requires !steps[j].Begin? && !steps[j].Crash? && !steps[j].Restart?
    ensures BeginsBetween(c, steps, p, i, j)
  {
    if !BeginsBetween(c, steps, p, i, j) {
      FailureGivesUp(c, steps, i, p);
      GivingUpIsClosed(c, p);
      PhaseStays(c, steps, p, GivingUp, i, j);
      GivingUpOnlyReleases(c, steps, j, p);
      assert false;
    }
  }

  lemma DrawLeavesStoring(c: Config, steps: seq<Step>, k: nat, p: Pid)
    requires Draws(c, steps, k, p)
    ensures Proc(Run(c, steps[..k]), p).Storing? && NotAsking(Proc(Run(c, steps[..k + 1]), p))
  {
    StepAt(c, steps, k);
  }

  /** One claim for each alert taken up: p draws no second token in between. */
  lemma OneClaimPerBegin(c: Config, steps: seq<Step>, p: Pid, i: nat, j: nat)
    requires i < j && Draws(c, steps, i, p) && Draws(c, steps, j, p)
    ensures BeginsBetween(c, steps, p, i, j)
  {
    if !BeginsBetween(c, steps, p, i, j) {
      DrawLeavesStoring(c, steps, i, p);
      NotAskingIsClosed(c, p);
      PhaseStays(c, steps, p, NotAsking, i, j);
      DrawLeavesStoring(c, steps, j, p);
      assert false;
    }
  }

  // ---------------------------------------------------------- what can happen when

  predicate Answered(s: State, m: MessageId) {
    m in s.replies
  }

  /** What can happen to a correlator, by where it is in the handling of an alert. */
  predicate Possible(c: Config, s: State, step: Step)
    requires !ServerStep(step)
  {
    match Proc(s, step.pid)
    case Idle => step.Begin? || step.Crash?
    case Storing(_) => step.StoreReturns? || step.StoreRaises? || step.Crash?
    case Claiming(_, _, sent, m) =>
      || (step.ClaimReturns? && Answered(s, m)) || (step.ClaimRetries? && sent < c.maxSends) || step.ClaimRaises? || step.Crash?
    case Publishing(_) => step.PublishReturns? || step.PublishRaises? || step.Crash?
    case Notifying(_) => step.Notify? || step.Crash?
    case Releasing(_, sent, m) =>
      || (step.ReleaseReturns? && Answered(s, m)) || (step.ReleaseRetries? && sent < c.maxSends) || step.ReleaseRaises? || step.Crash?
    case Crashed => step.Restart?
  }

  lemma PossibleMoves(c: Config, s: State, step: Step)
    requires Messages(s) && !ServerStep(step) && Possible(c, s, step)
    ensures Proc(Do(c, s, step), step.pid) != Proc(s, step.pid)
  {
  }

  lemma ImpossibleStays(c: Config, s: State, step: Step)
    requires !ServerStep(step) && !Possible(c, s, step) && !(step.Crash? && Proc(s, step.pid).Crashed?)
    ensures Do(c, s, step) == s
  {
  }

  /** In every run a step takes effect exactly if it is possible where its correlator is. */
  lemma ActsIffPossible(c: Config, steps: seq<Step>, step: Step)
    requires c.Valid() && !ServerStep(step) && !step.Crash?
    ensures Acts(c, steps + [step], |steps|, step.pid) <==> Possible(c, Run(c, steps), step)
  {
    RunKeepsInv(c, steps);
    RunSnoc(c, steps, step);
    assert (steps + [step])[..|steps|] == steps && (steps + [step])[..|steps| + 1] == steps + [step];
    if Possible(c, Run(c, steps), step) { PossibleMoves(c, Run(c, steps), step); } else { ImpossibleStays(c, Run(c, steps), step); }
  }

  /** Whatever a correlator was at, after a crash and a restart it can take up any alert. */
  lemma RestartTakesUp(c: Config, s: State, p: Pid, fp: Fingerprint)
    ensures Proc(RunFrom(c, s, [Crash(p), Restart(p), Begin(p, fp)]), p) == Storing(fp)
  {
    RunOfThree(c, s, Crash(p), Restart(p), Begin(p, fp));
  }

  // ------------------------------------------------------------ how often a command is sent

  predicate IsRetry(step: Step) {
    step.ClaimRetries? || step.ReleaseRetries?
  }

  /** How often in a row p has sent its command again. */
  function Repeats(c: Config, steps: seq<Step>, p: Pid): nat {
    if steps == [] then 0
    else
      var before := steps[..|steps| - 1];
      if !Acts(c, steps, |steps| - 1, p) then Repeats(c, before, p)
      else if IsRetry(steps[|steps| - 1]) then Repeats(c, before, p) + 1
      else 0
  }

  predicate Counted(c: Config, q: Process, repeats: nat) {
    && (q.Claiming? ==> q.attempt == repeats + 1 <= c.maxSends)
    && (q.Releasing? ==> q.attempt == repeats + 1 <= c.maxSends)
  }

  lemma OwnStepCounted(c: Config, s: State, step: Step, repeats: nat)
    requires c.Valid() && !ServerStep(step) && Counted(c, Proc(s, step.pid), repeats) && Do(c, s, step) != s
    ensures Counted(c, Proc(Do(c, s, step), step.pid), if IsRetry(step) then repeats + 1 else 0)
  {
  }

  lemma RepeatsSnoc(c: Config, steps: seq<Step>, step: Step, p: Pid)
    ensures Repeats(c, steps + [step], p) ==
      if ServerStep(step) || step.pid != p || Do(c, Run(c, steps), step) == Run(c, steps) then Repeats(c, steps, p)
      else if IsRetry(step) then Repeats(c, steps, p) + 1 else 0
  {
    var all := steps + [step];
    assert all[..|all| - 1] == steps && all[..|all|] == all;
    RunSnoc(c, steps, step);
  }

  lemma {:induction false} RunCounted(c: Config, steps: seq<Step>, p: Pid)
    requires c.Valid()
    ensures Counted(c, Proc(Run(c, steps), p), Repeats(c, steps, p))
  {
    if steps != [] {
      var before, step := steps[..|steps| - 1], steps[|steps| - 1];
      assert steps == before + [step];
      RunCounted(c, before, p);
      RepeatsSnoc(c, before, step, p);
      RunSnoc(c, before, step);
      if ServerStep(step) || step.pid != p || Do(c, Run(c, before), step) == Run(c, before) {
        Unmoved(c, Run(c, before), step, p);
      } else {
        OwnStepCounted(c, Run(c, before), step, Repeats(c, before, p));
      }
    }
  }

  /** In every run a command is sent again exactly as long as it was sent fewer times than allowed. */
  lemma RetriesIffSendsLeft(c: Config, steps: seq<Step>, p: Pid)
    requires c.Valid()
    ensures var q := Proc(Run(c, steps), p);
      && (q.Claiming? ==> (Acts(c, steps + [ClaimRetries(p)], |steps|, p) <==> Repeats(c, steps, p) + 1 < c.maxSends))
      && (q.Releasing? ==> (Acts(c, steps + [ReleaseRetries(p)], |steps|, p) <==> Repeats(c, steps, p) + 1 < c.maxSends))
  {
    RunCounted(c, steps, p);
    ActsIffPossible(c, steps, ClaimRetries(p));
    ActsIffPossible(c, steps, ReleaseRetries(p));
  }

  // ------------------------------------------------------- what comes before a notification

  /** Where p took up the alert, drew its token, learned of the grant, and published. */
  datatype Story = Story(begun: int, drawn: int, granted: int, published: int)

  predicate Begun(c: Config, steps: seq<Step>, p: Pid, fp: Fingerprint, b: int) {
    Acts(c, steps, b, p) && steps[b] == Begin(p, fp)
  }

  predicate Drew(c: Config, steps: seq<Step>, p: Pid, token: Token, d: int) {
    Draws(c, steps, d, p) && Run(c, steps[..d]).nextToken == token
  }

  /** p takes the reply that grants this lease to it. */
  predicate Learned(c: Config, steps: seq<Step>, p: Pid, l: Lease, g: int) {
    && Acts(c, steps, g, p) && steps[g] == ClaimReturns(p)
    && var s := Run(c, steps[..g]);
       Proc(s, p).Claiming? && Proc(s, p).msg in s.replies && s.replies[Proc(s, p).msg] == Granted(l.at)
  }

  predicate Published(c: Config, steps: seq<Step>, p: Pid, q: int) {
    Acts(c, steps, q, p) && steps[q] == PublishReturns(p)
  }

  /** The story behind where p is now. */
  ghost predicate Fits(c: Config, steps: seq<Step>, p: Pid, q: Process, h: Story) {
    match q
    case Storing(fp) => Begun(c, steps, p, fp, h.begun) && !BeginsBetween(c, steps, p, h.begun, |steps|)
    case Claiming(fp, token, _, _) =>
      && Begun(c, steps, p, fp, h.begun) && h.begun < h.drawn && Drew(c, steps, p, token, h.drawn)
      && !BeginsBetween(c, steps, p, h.begun, |steps|)
    case Publishing(l) =>
      && Begun(c, steps, p, l.fp, h.begun) && h.begun < h.drawn && Drew(c, steps, p, l.token, h.drawn)
      && h.drawn < h.granted && Learned(c, steps, p, l, h.granted)
      && !BeginsBetween(c, steps, p, h.begun, |steps|)
    case Notifying(l) =>
      && Begun(c, steps, p, l.fp, h.begun) && h.begun < h.drawn && Drew(c, steps, p, l.token, h.drawn)
      && h.drawn < h.granted && Learned(c, steps, p, l, h.granted)
      && h.granted < h.published && Published(c, steps, p, h.published)
      && !BeginsBetween(c, steps, p, h.begun, |steps|)
    case _ => true
  }

  lemma ActsLater(c: Config, steps: seq<Step>, step: Step, k: int, p: Pid)
    requires k < |steps|
    ensures Acts(c, steps + [step], k, p) <==> Acts(c, steps, k, p)
  {
    if 0 <= k < |steps| {
      assert (steps + [step])[..k + 1] == steps[..k + 1] && (steps + [step])[..k] == steps[..k];
    }
  }

  lemma NoBeginLater(c: Config, steps: seq<Step>, step: Step, p: Pid, b: int)
    requires !BeginsBetween(c, steps, p, b, |steps|) && !Begins(c, steps + [step], |steps|, p)
    ensures !BeginsBetween(c, steps + [step], p, b, |steps + [step]|)
  {
    forall k | b < k < |steps + [step]| ensures !Begins(c, steps + [step], k, p) {
      if k < |steps| {
        ActsLater(c, steps, step, k, p);
        assert !Begins(c, steps, k, p);
      }
    }
  }

  lemma DrewLater(c: Config, steps: seq<Step>, step: Step, p: Pid, token: Token, d: int)
    requires Drew(c, steps, p, token, d)
    ensures Drew(c, steps + [step], p, token, d)
  {
    assert (steps + [step])[..d + 1] == steps[..d + 1] && (steps + [step])[..d] == steps[..d];
  }

  lemma LearnedLater(c: Config, steps: seq<Step>, step: Step, p: Pid, l: Lease, g: int)
    requires Learned(c, steps, p, l, g)
    ensures Learned(c, steps + [step], p, l, g)
  {
    assert (steps + [step])[..g + 1] == steps[..g + 1] && (steps + [step])[..g] == steps[..g];
  }

  /** A story stays true while p takes up nothing new. */
  lemma FitsLater(c: Config, steps: seq<Step>, step: Step, p: Pid, q: Process, h: Story)
    requires Fits(c, steps, p, q, h) && !Begins(c, steps + [step], |steps|, p)
    ensures Fits(c, steps + [step], p, q, h)
  {
    if q.Storing? || q.Claiming? || q.Publishing? || q.Notifying? {
      ActsLater(c, steps, step, h.begun, p);
      NoBeginLater(c, steps, step, p, h.begun);
    }
    if q.Claiming? { DrewLater(c, steps, step, p, q.token, h.drawn); }
    if q.Publishing? || q.Notifying? {
      DrewLater(c, steps, step, p, q.lease.token, h.drawn);
      LearnedLater(c, steps, step, p, q.lease, h.granted);
    }
    if q.Notifying? { ActsLater(c, steps, step, h.published, p); }
  }

  lemma ActsNow(c: Config, steps: seq<Step>, step: Step, p: Pid)
    requires !ServerStep(step) && step.pid == p && Do(c, Run(c, steps), step) != Run(c, steps)
    ensures Acts(c, steps + [step], |steps|, p)
  {
    assert (steps + [step])[..|steps|] == steps && (steps + [step])[..|steps| + 1] == steps + [step];
    RunSnoc(c, steps, step);
  }

  lemma BegunNow(c: Config, steps: seq<Step>, p: Pid, fp: Fingerprint)
    requires Do(c, Run(c, steps), Begin(p, fp)) != Run(c, steps)
    ensures Begun(c, steps + [Begin(p, fp)], p, fp, |steps|)
    ensures !BeginsBetween(c, steps + [Begin(p, fp)], p, |steps|, |steps| + 1)
  {
    ActsNow(c, steps, Begin(p, fp), p);
  }

  lemma DrewNow(c: Config, steps: seq<Step>, step: Step, p: Pid)
    requires !ServerStep(step) && step.pid == p && Do(c, Run(c, steps), step).nextToken != Run(c, steps).nextToken
    ensures Drew(c, steps + [step], p, Run(c, steps).nextToken, |steps|)
  {
    assert (steps + [step])[..|steps|] == steps && (steps + [step])[..|steps| + 1] == steps + [step];
    RunSnoc(c, steps, step);
  }

  lemma LearnedNow(c: Config, steps: seq<Step>, p: Pid, l: Lease)
    requires Proc(Do(c, Run(c, steps), ClaimReturns(p)), p) == Publishing(l) && Proc(Run(c, steps), p) != Publishing(l)
    ensures Learned(c, steps + [ClaimReturns(p)], p, l, |steps|)
  {
    ActsNow(c, steps, ClaimReturns(p), p);
    assert (steps + [ClaimReturns(p)])[..|steps|] == steps;
  }

  lemma PublishedNow(c: Config, steps: seq<Step>, p: Pid)
    requires Do(c, Run(c, steps), PublishReturns(p)) != Run(c, steps)
    ensures Published(c, steps + [PublishReturns(p)], p, |steps|)
  {
    ActsNow(c, steps, PublishReturns(p), p);
  }

  /** The steps that open or continue a story. */
  predicate Telling(step: Step) {
    step.Begin? || step.StoreReturns? || step.ClaimReturns? || step.PublishReturns?
  }

  lemma OtherStep(c: Config, s: State, step: Step)
    requires !ServerStep(step) && !Telling(step)
    ensures var q, r := Proc(s, step.pid), Proc(Do(c, s, step), step.pid);
      || r == q || r.Idle? || r.Crashed? || r.Releasing?
      || (q.Claiming? && r.Claiming? && r.fp == q.fp && r.token == q.token)
  {
  }

  lemma OtherStepFits(c: Config, steps: seq<Step>, step: Step, p: Pid, h: Story)
    requires !ServerStep(step) && step.pid == p && !Telling(step) && Fits(c, steps, p, Proc(Run(c, steps), p), h)
    ensures Fits(c, steps + [step], p, Proc(Do(c, Run(c, steps), step), p), h)
  {
    NotBegin(c, steps, step, p);
    FitsLater(c, steps, step, p, Proc(Run(c, steps), p), h);
    OtherStep(c, Run(c, steps), step);
  }

  lemma NotBegin(c: Config, steps: seq<Step>, step: Step, p: Pid)
    requires !step.Begin?
    ensures !Begins(c, steps + [step], |steps|, p)
  {
  }

  lemma AskFits(c: Config, steps: seq<Step>, p: Pid, h: Story)
    requires Do(c, Run(c, steps), StoreReturns(p)) != Run(c, steps) && Fits(c, steps, p, Proc(Run(c, steps), p), h)
    ensures Fits(c, steps + [StoreReturns(p)], p, Proc(Do(c, Run(c, steps), StoreReturns(p)), p), h.(drawn := |steps|))
  {
    NotBegin(c, steps, StoreReturns(p), p);
    FitsLater(c, steps, StoreReturns(p), p, Proc(Run(c, steps), p), h);
    DrewNow(c, steps, StoreReturns(p), p);
  }

  lemma LearnFits(c: Config, steps: seq<Step>, p: Pid, h: Story)
    requires Do(c, Run(c, steps), ClaimReturns(p)) != Run(c, steps) && Fits(c, steps, p, Proc(Run(c, steps), p), h)
    ensures Fits(c, steps + [ClaimReturns(p)], p, Proc(Do(c, Run(c, steps), ClaimReturns(p)), p), h.(granted := |steps|))
  {
    var r := Proc(Do(c, Run(c, steps), ClaimReturns(p)), p);
    NotBegin(c, steps, ClaimReturns(p), p);
    FitsLater(c, steps, ClaimReturns(p), p, Proc(Run(c, steps), p), h);
    if r.Publishing? { LearnedNow(c, steps, p, r.lease); }
  }

  lemma PublishFits(c: Config, steps: seq<Step>, p: Pid, h: Story)
    requires Do(c, Run(c, steps), PublishReturns(p)) != Run(c, steps) && Fits(c, steps, p, Proc(Run(c, steps), p), h)
    ensures Fits(c, steps + [PublishReturns(p)], p, Proc(Do(c, Run(c, steps), PublishReturns(p)), p), h.(published := |steps|))
  {
    NotBegin(c, steps, PublishReturns(p), p);
    FitsLater(c, steps, PublishReturns(p), p, Proc(Run(c, steps), p), h);
    PublishedNow(c, steps, p);
  }

  /** Each move of p adds at most one chapter. */
  lemma OwnStepFits(c: Config, steps: seq<Step>, step: Step, p: Pid, h: Story) returns (h': Story)
    requires !ServerStep(step) && step.pid == p && Do(c, Run(c, steps), step) != Run(c, steps)
    requires Fits(c, steps, p, Proc(Run(c, steps), p), h)
    ensures Fits(c, steps + [step], p, Proc(Do(c, Run(c, steps), step), p), h')
  {
    if step.Begin? {
      BegunNow(c, steps, p, step.fp);
      h' := h.(begun := |steps|);
    } else if step.StoreReturns? {
      AskFits(c, steps, p, h);
      h' := h.(drawn := |steps|);
    } else if step.ClaimReturns? {
      LearnFits(c, steps, p, h);
      h' := h.(granted := |steps|);
    } else if step.PublishReturns? {
      PublishFits(c, steps, p, h);
      h' := h.(published := |steps|);
    } else {
      OtherStepFits(c, steps, step, p, h);
      h' := h;
    }
  }

  lemma {:induction false} StoryOf(c: Config, steps: seq<Step>, p: Pid) returns (h: Story)
    ensures Fits(c, steps, p, Proc(Run(c, steps), p), h)
  {
    if steps == [] {
      h := Story(0, 0, 0, 0);
    } else {
      var before, step := steps[..|steps| - 1], steps[|steps| - 1];
      assert steps == before + [step];
      h := StoryOf(c, before, p);
      RunSnoc(c, before, step);
      if ServerStep(step) || step.pid != p || Do(c, Run(c, before), step) == Run(c, before) {
        Unmoved(c, Run(c, before), step, p);
        NothingBegun(c, before, step, p);
        FitsLater(c, before, step, p, Proc(Run(c, before), p), h);
      } else {
        h := OwnStepFits(c, before, step, p, h);
      }
    }
  }

  lemma NothingBegun(c: Config, steps: seq<Step>, step: Step, p: Pid)
    requires ServerStep(step) || step.pid != p || Do(c, Run(c, steps), step) == Run(c, steps)
    ensures !Begins(c, steps + [step], |steps|, p)
  {
    assert (steps + [step])[..|steps|] == steps && (steps + [step])[..|steps| + 1] == steps + [step];
    RunSnoc(c, steps, step);
  }

  /** What led to a notification: one alert taken up, one token drawn for it, its grant learned, and the alert published. */
  ghost predicate CameAbout(c: Config, steps: seq<Step>, p: Pid, j: int, fp: Fingerprint, token: Token, at: real, h: Story) {
    && 0 <= h.begun < h.drawn < h.granted < h.published < j <= |steps|
    && Begun(c, steps, p, fp, h.begun) && Drew(c, steps, p, token, h.drawn)
    && Learned(c, steps, p, Lease(fp, token, at), h.granted) && Published(c, steps, p, h.published)
    && !BeginsBetween(c, steps, p, h.begun, j)
  }

  /** Every notification comes about in that order, for the alert taken up last. */
  lemma NotifyComesLast(c: Config, steps: seq<Step>, p: Pid) returns (fp: Fingerprint, token: Token, at: real, h: Story)
    requires exists worth, channels :: Do(c, Run(c, steps), Notify(p, worth, channels)) != Run(c, steps)
    ensures CameAbout(c, steps, p, |steps|, fp, token, at, h)
  {
    var q := Proc(Run(c, steps), p);
    h := StoryOf(c, steps, p);
    assert q.Notifying?;
    fp, token, at := q.lease.fp, q.lease.token, q.lease.at;
  }
}
