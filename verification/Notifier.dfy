/** Delivery to the configured channels (`send_alert`, watchers/notifier.py, lines 52-54 and 267-332). */
module Notifier {
  import opened Schema

  /**
    What posting to one channel does: a success status; any other answer, a
    timeout or a request error; or something uncaught.  `reached`: users see the
    alert all the same, as when it was transmitted and the answer lost.
  */
  datatype Post = Accepted | Failed(reached: bool) | Raises(reached: bool)

  /** None: the channel is not configured. */
  type Channel = Option<Post>

  datatype Channels = Channels(slack: Channel, telegram: Channel, webhook: Channel)

  datatype Outcome = Returns(delivered: bool) | Throws

  predicate ShouldNotify(severity: Severity, threshold: Severity) {
    Rank(severity) >= Rank(threshold)
  }

  /** From the threshold on, in the order LOW, MEDIUM, HIGH, CRITICAL. */
  lemma NotifyFromThreshold(severity: Severity, threshold: Severity)
    ensures ShouldNotify(severity, threshold) <==>
      match threshold
      case Low => true
      case Medium => severity != Low
      case High => severity == High || severity == Critical
      case Critical => severity == Critical
  {
  }

  predicate Raised(made: seq<Post>) {
    Raises(true) in made || Raises(false) in made
  }

  predicate Reached(made: seq<Post>) {
    Accepted in made || Failed(true) in made || Raises(true) in made
  }

  /** The posts made once `c` has had its turn; nothing follows one that raised. */
  function Then(made: seq<Post>, c: Channel): seq<Post> {
    if Raised(made) || c.None? then made else made + [c.value]
  }

  /** The posts of one call, in order. */
  function Posted(cs: Channels): seq<Post> {
    Then(Then(Then([], cs.slack), cs.telegram), cs.webhook)
  }

  /** How the call ends: true also if the alert is not worth sending, when nothing is posted. */
  function OutcomeOf(worth: bool, cs: Channels): Outcome {
    if !worth then Returns(true)
    else if Raised(Posted(cs)) then Throws
    else Returns(Accepted in Posted(cs))
  }

  predicate Succeeds(worth: bool, cs: Channels) {
    OutcomeOf(worth, cs) == Returns(true)
  }

  /** How many channels acknowledged the alert, whatever the call returns. */
  function AcceptedBy(worth: bool, cs: Channels): nat {
    if worth then CountAccepted(Posted(cs)) else 0
  }

  /** Users of some channel see the alert. */
  predicate Told(worth: bool, cs: Channels) {
    worth && Reached(Posted(cs))
  }

  // ------------------------------------------------- the same, channel by channel

  predicate Fails(c: Channel) {
    c.Some? && c.value.Raises?
  }

  predicate Gets(c: Channel) {
    c.Some? && (c.value.Accepted? || c.value.reached)
  }

  /** Users of a channel whose turn came see the alert. */
  predicate SomebodyGets(cs: Channels) {
    Gets(cs.slack) || (!Fails(cs.slack) && (Gets(cs.telegram) || (!Fails(cs.telegram) && Gets(cs.webhook))))
  }

  /** A channel raises, or none acknowledges. */
  predicate InVain(cs: Channels) {
    || Fails(cs.slack) || Fails(cs.telegram) || Fails(cs.webhook)
    || Some(Accepted) !in {cs.slack, cs.telegram, cs.webhook}
  }

  lemma ThenCases(made: seq<Post>, c: Channel)
    ensures Raised(Then(made, c)) <==> Raised(made) || Fails(c)
    ensures Reached(Then(made, c)) <==> Reached(made) || (!Raised(made) && Gets(c))
    ensures Accepted in Then(made, c) <==> Accepted in made || (!Raised(made) && c == Some(Accepted))
  {
  }

  lemma PostedCases(cs: Channels)
    ensures Reached(Posted(cs)) <==> SomebodyGets(cs)
    ensures Raised(Posted(cs)) || Accepted !in Posted(cs) <==> InVain(cs)
  {
    ThenCases([], cs.slack);
    ThenCases(Then([], cs.slack), cs.telegram);
    ThenCases(Then(Then([], cs.slack), cs.telegram), cs.webhook);
  }

  /**
    What a caller may conclude.  True means that somebody was told or that it was
    not worth it.  Not true leaves both possible: somebody was told exactly when
    the alert got through to a channel in a call in which a channel raised or none
    acknowledged.
  */
  lemma WhoWasTold(worth: bool, cs: Channels)
    ensures Told(worth, cs) <==> worth && SomebodyGets(cs)
    ensures Succeeds(worth, cs) && !Told(worth, cs) <==> !worth
    ensures !Succeeds(worth, cs) && Told(worth, cs) <==> worth && SomebodyGets(cs) && InVain(cs)
  {
    PostedCases(cs);
  }

  /** Two ways to tell somebody in vain: one channel acknowledges and the next raises; the only answer is lost. */
  lemma ToldInVain(cs: Channels)
    requires cs in {Channels(Some(Accepted), Some(Raises(false)), None), Channels(Some(Failed(true)), None, None)}
    ensures !Succeeds(true, cs) && Told(true, cs)
  {
    WhoWasTold(true, cs);
  }

  function CountAccepted(made: seq<Post>): (n: nat)
    ensures n > 0 <==> Accepted in made
  {
    if made == [] then 0
    else
      assert made == made[..|made| - 1] + [made[|made| - 1]];
      CountAccepted(made[..|made| - 1]) + (if made[|made| - 1].Accepted? then 1 else 0)
  }

  lemma ThenAccepted(made: seq<Post>, c: Channel)
    requires !Raised(made)
    ensures CountAccepted(Then(made, c)) == CountAccepted(made) + (if c == Some(Accepted) then 1 else 0)
  {
    if c.Some? { assert (made + [c.value])[..|made|] == made; }
  }

  /** One channel's turn: not `going` if posting raised. */
  method PostTo(c: Channel, ghost made: seq<Post>, attempted: nat, accepted: nat)
    returns (going: bool, tries: nat, total: nat)
    requires !Raised(made) && accepted == CountAccepted(made) <= attempted
    ensures going <==> !Raised(Then(made, c))
    ensures total == CountAccepted(Then(made, c)) <= tries
    ensures tries == attempted + (if c.Some? then 1 else 0)
  {
    ThenAccepted(made, c);
    going, tries, total := true, attempted, accepted;
    if c.Some? {
      tries := tries + 1;
      going := !c.value.Raises?;
      total := total + (if c.value.Accepted? then 1 else 0);
    }
  }

  /** The three channels in turn; `accepted` counts what was acknowledged even when the call throws. */
  method SendAlert(severity: Severity, threshold: Severity, cs: Channels) returns (outcome: Outcome, accepted: nat)
    ensures outcome == OutcomeOf(ShouldNotify(severity, threshold), cs)
    ensures accepted == AcceptedBy(ShouldNotify(severity, threshold), cs)
  {
    if !ShouldNotify(severity, threshold) {
      return Returns(true), 0;
    }
    ghost var one := Then([], cs.slack);
    ghost var two := Then(one, cs.telegram);
    var going, attempted;
    going, attempted, accepted := PostTo(cs.slack, [], 0, 0);
    if !going { return Throws, accepted; }
    going, attempted, accepted := PostTo(cs.telegram, one, attempted, accepted);
    if !going { return Throws, accepted; }
    going, attempted, accepted := PostTo(cs.webhook, two, attempted, accepted);
    if !going { return Throws, accepted; }
    if attempted == 0 || accepted == 0 {
      return Returns(false), accepted;
    }
    outcome := Returns(true);
  }
}
