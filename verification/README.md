# Security Watchtower: verified model

A Dafny model of the parts of Security Watchtower that decide which alerts exist
and who is told about them, with proofs over whole runs.  `dafny verify
dfyconfig.toml` checks everything.

| file | models |
|---|---|
| `Schema.dfy`, `Validation.dfy`, `Fingerprint.dfy`, `KeyIdentity.dfy` | findings, alerts, their validation, the text behind the cooldown key and what shares it |
| `Correlation.dfy` | the scope test, the knowledge base keys, confidence |
| `Matching.dfy`, `CorrelationBuffer.dfy` | the greedy match pass and the two bounded buffers |
| `Correlator.dfy`, `CorrelatorRuns.dfy`, `DisposedPairs.dfy`, `Crashes.dfy` | the consume/match/dispose loop and its whole-run properties |
| `ClaimProtocol.dfy`, `ClaimRuns.dfy`, `ClaimSafety.dfy`, `CallOrder.dfy` | alert claims as leases on a shared, timed Redis key |
| `ClaimSends.dfy`, `ToldTwice.dfy`, `ClaimLoss.dfy`, `SelfRefusal.dfy` | how far apart alerts are sent, when users hear twice, and how claims get lost |
| `Retry.dfy`, `Notifier.dfy` | bounded retry and delivery accounting |
| `ChangeDetection.dfy`, `Snapshot.dfy` | the hash table of known files and the bounded file reader |
| `SyntaxWalk.dfy`, `TreeFlags.dfy`, `FileScan.dfy` | the syntax-tree visitor, the pattern scan and deduplication |
| `ApiWatcher.dfy`, `Shutdown.dfy` | the probe failure tables and the shutdown controller |
| `Subsequences.dfy` | order-preserving selection, used by several of the above |

How it is read:

- **Correlation loop.** `Correlator.Correlate` is the loop on a mutable buffer,
  proved equal to `Run`, a fold over events.  Each event carries everything the
  outside world does in that turn: the finding, the clock reading (which may go
  backwards) and, per matched pair, how the store, claim, publish and notify
  calls end.  The run results need no assumption on ids: duplicated findings,
  which the retry around LPUSH can cause, are covered.
- **Claim protocol.** Every sequence of steps is a run; a step that is not
  enabled changes nothing.  A command is a message that the server applies at any
  later time or never, so failure, lost replies, retries and late application
  need no separate cases.  Assumed: one cooldown value, distinct tokens (drawn
  from a counter), and no use of `suppress_alert` beside the loop.  `maxSends`
  counts how often one call puts its command on the wire, including what
  redis-py sends again by itself after a timeout (watchers/redis_client.py:60,
  watchers/config.py:159); one attempt of `_with_retry` may be two sends.
  "Delivered" means that `send_alert` returned true.
- **Shutdown.** The two halves of `fail` are separate steps, so other threads run
  between them.

What the code does that one might not expect, with the exact condition:

- `new_correlated_alert` refuses the empty string where a finding allows it, and
  `correlate` does not catch that: one such finding ends the loop
  (`CrashIffEmptyText`).  Valid findings can do so exactly when the threshold can
  be met at all (`SomeRunCrashesIff`, with the run in `CrashingRun`); findings of
  the two watchers never do (`WatchersNeverCrash`).
- A claim can be lost: the key stays and suppresses the alert, nothing was
  delivered under it, and nothing will be before it expires.  `LostIff` lists exactly the steps that
  lose one: the caller stops waiting for a claim that was granted (it tries again
  or gives up), a SET arrives after its caller left, the owner dies, or the last
  delete of a release goes missing or is never repeated.  `LostMeansNothingDelivered`
  shows that this state is the only one without a way out.  It needs no second
  attempt (`UnansweredClaimIsLost`); what does need one, exactly, is a claim
  refused by its own token (`SelfRefusalIffRetries`), and that claim is lost
  already (`SelfRefusalIsLost`).
- A claim that brought its token should be given back exactly when nobody was
  told.  The loop gives it back although somebody was told exactly when the alert
  got through to a channel in a call in which a channel raised or none
  acknowledged, as when the only answer was lost; and it keeps it although nobody
  was told exactly when the alert is below the notification threshold
  (`ClaimFate`, over whole runs `EveryClaimsFate`; both happen, `BothFates`).
- So the cooldown does not keep users from hearing twice.  Of two alerts of one
  fingerprint that got through under claims less than a cooldown apart, in the
  earlier call a channel raised or none acknowledged, and exactly then it can
  happen (`ToldTwiceIff`); one lost answer is enough (`LostAnswerTellsTwice`).
- The cooldown spaces the claims of delivered alerts, not the moments of sending
  (`DeliveriesAreSpaced`).  Alerts sent within a time h of their claims are sent
  at least the cooldown less h apart, and for each h some run attains just that
  (`SendsAreSpaced`, `SendGapIsAttained`).
- Settings accept a `min_confidence` up to 1.  Some run gets a pair past the
  threshold exactly when it is at most 0.99 (`ThresholdLimits`,
  `SomePairPassesIff`).
- The fingerprint text can be taken apart exactly when no part contains `|`
  (`SplitJoinIff`).  A target without `|` in service and endpoint, and without a
  piece of its file, the last apart, that reads like a finding type, has its key to
  itself, however the others are written (`SameKeyIffSameTarget`).  In general an
  alert shares its key with an alert about something else exactly when the key can
  be cut elsewhere into a service, an endpoint, a type and a file that an alert may
  carry: a service that is not blank and fits 200 characters, an endpoint within
  2048, not empty unless the knowledge base knows the type, and a file within 4096
  (`CollisionIff`; in plain lengths, among texts without U+0130,
  `CollisionIffFittingCut`).  Service "s|x" at
  endpoint "e" collides with service "s" at "x|e" (`SeparatorCollides`).
- A worker that fails after `main` has read the failure field is recorded but not
  reported (`LateFailureUnreported`).
- `find_matches` is documented as returning all matching pairs; the code returns
  a greedy one-to-one choice, and the model follows the code.  Likewise "above
  threshold" in the correlator's docstring is "at or above" in the code.

## Model

| member | source | states |
|---|---|---|
| Schema.NewCorrelatedAlert | watchers/schema.py:395-444 | for two valid findings the alert is refused exactly when the endpoint, the file or the chosen trace id is the empty string, naming the first of them; an accepted alert takes every field from the right side and the larger severity |
| Validation.FindingAcceptedIff | watchers/schema.py:128-186 | a finding is accepted exactly within the limits of its fields, in plain numbers; optional texts may be empty |
| Validation.AlertAcceptedIff | watchers/schema.py:262-317 | an alert is accepted exactly within its own; optional texts are null or not empty |
| Fingerprint.SplitJoinIff | watchers/schema.py:333-336 | joining parts with the separator can be undone exactly when no part contains it |
| KeyIdentity.KeyInFull | watchers/schema.py:333-336 | the text that is hashed: service, endpoint, API type, file and line, in lower case, null as nothing, with a bar between neighbours |
| KeyIdentity.SameKeyIffSameTarget | watchers/schema.py:414-420 | a target without a separator in service and endpoint and without a type-like piece in its file shares its key with another, whatever that contains, exactly when service, endpoint and file agree up to case and null/empty, and API type and line agree; the code issue plays no part |
| KeyIdentity.SameTargetSameKey | watchers/schema.py:414-420 | the same target always has the same key |
| KeyIdentity.CollisionIff | watchers/schema.py:333-336 | among valid pairs in scope whose alert is not refused: another target has this alert's key exactly when the key can be cut elsewhere into texts that some alert may carry, up to case |
| KeyIdentity.CollisionIffFittingCut | watchers/schema.py:333-336 | the same among alerts whose texts do without U+0130, the one character str.lower lengthens, with plain limits on the alert's own substrings |
| KeyIdentity.SeparatorCollides | watchers/schema.py:335 | two alerts about different services with one key |
| Correlation.RoundHalfEven | watchers/correlator.py:154 | the result is a nearest integer, and the even one on a tie |
| Correlation.ConfidenceBounded | watchers/correlator.py:117-154 | confidence of two valid findings lies in [0, 0.99] |
| Correlation.ConfidenceMonotone | watchers/correlator.py:151-154 | raising either input confidence never lowers the result, through average, rounding and cap |
| Correlation.ConfidenceOfSum | watchers/correlator.py:151-152 | only the sum of the two confidences counts |
| Correlation.ConfidenceOfEquals | watchers/correlator.py:151-154 | for equally confident findings it is the thousandth nearest to score times confidence, ties to even, at most 0.99 |
| Correlation.SignalWorth | watchers/correlator.py:126-149 | what each of the six signals adds, each said of the findings' own fields |
| Correlation.NoSignal | watchers/correlator.py:126 | a pair without any scores 0.5 |
| Correlation.KnownPairings | watchers/correlator.py:37-85 | the eleven keys of the knowledge base |
| Correlation.ScopeMeans | watchers/correlator.py:100-112 | the scope test in the findings' own fields |
| Correlation.ScopeScores | watchers/correlator.py:100-149 | a pair in scope scores 0.60 to 1.25 before weighting, and exactly which signals give each end |
| Correlation.ThresholdLimits | watchers/correlator.py:151-154 | some valid pair in scope reaches a threshold exactly when it is at most 0.99 |
| Correlation.SurestPairs | watchers/correlator.py:126-154 | fully confident findings with one trace and one endpoint within a minute get exactly 0.99 |
| Correlation.DefaultThresholdPasses | watchers/correlator.py:296 | fully confident findings in scope pass any threshold up to the default 0.6 |
| Matching.FirstPartner | watchers/correlator.py:193-202 | the partner found is the earliest available one; none is found only if none is available |
| Matching.GreedyHalfOptimal | watchers/correlator.py:184-208 | for any buffer contents the pass is one-to-one, in scope, maximal, and at least half as large as any other one-to-one choice |
| Matching.GreedyNotMaximum | watchers/correlator.py:193-202 | the factor two is reached: four valid findings of which one pair is matched where two were possible |
| CorrelationBuffer.ScanCodes | watchers/correlator.py:194-202 | the inner loop takes the earliest available partner of an unused finding |
| CorrelationBuffer.Buffer.Add | watchers/correlator.py:172-177 | the finding goes to the end of its own side; a full side loses its oldest |
| CorrelationBuffer.Buffer.FindMatches | watchers/correlator.py:179-208 | each side keeps exactly the findings with now - timestamp < window, as often as they were there and in order, and the nested loops compute the greedy matching of them |
| CorrelationBuffer.Buffer.RemovePair | watchers/correlator.py:210-219 | the first equal entry leaves each side, if there is one |
| Correlator.ClaimFate | watchers/correlator.py:336-372 | for every pair and whatever each channel does: the claim is given back although somebody was told exactly when the alert got through to a channel and a channel raised or none acknowledged, and kept although nobody was told exactly below the threshold |
| Correlator.BothFates | watchers/correlator.py:354-370 | both happen, with one channel acknowledging and the next raising, and with the only answer lost |
| Correlator.DisposeMatches | watchers/correlator.py:293-372 | the loop over matches on the real buffer equals its fold, stopping at the first uncaught error |
| Correlator.Correlate | watchers/correlator.py:228-383 | the loop ends with the buffers, disposed pairs and crash flag that the fold over events gives |
| CorrelatorRuns.NothingLeftInScope | watchers/correlator.py:247-372 | in every run, unless the loop has died, no buffered API/code pair is in scope between turns |
| CorrelatorRuns.EveryPassIsNewestMatch | watchers/correlator.py:289-293 | after any run, the next pass finds at most one pair: the new finding with its earliest fresh partner in scope |
| CorrelatorRuns.TurnOutcome | watchers/correlator.py:289-372 | one turn changes nothing but buffering and eviction, or dies, or disposes of exactly that pair |
| CorrelatorRuns.NothingLost | watchers/correlator.py:165-219 | in every run each consumed finding is in exactly one of buffer, expired, overflowed, disposed pair; sides stay bounded and in arrival order; pairs never exceed either side's count |
| CorrelatorRuns.SeenIsConsumed | watchers/correlator.py:282-289 | the account above starts from exactly the API and code findings received, in order |
| CorrelatorRuns.ExpiredWereStale | watchers/correlator.py:179-207 | in every run, what the account calls expired was in its buffer in some turn with now - timestamp >= window |
| CorrelatorRuns.OverflowsOldestOfFullSide | watchers/correlator.py:165-177 | in every run a turn overflows a side only if it is full, and then by its oldest finding |
| CorrelatorRuns.CrashIffEmptyText | watchers/correlator.py:304-311 | a turn kills the loop exactly when the new match reaches the threshold and carries an empty endpoint, file or trace id |
| Crashes.SomeRunCrashesIff | watchers/correlator.py:296-311 | some run of valid findings kills the loop exactly when the threshold is at most 0.99 |
| Crashes.WatchersNeverCrash | watchers/code_watcher.py:194-211 | a run whose API findings name an endpoint and whose code findings are made as the code watcher makes them never dies |
| DisposedPairs.DisposedInScope | watchers/correlator.py:100-112 | every pair disposed of in any run was in scope |
| DisposedPairs.ExactlyPairsThatBelongGo | watchers/correlator.py:100-112 | in plain fields, in every run: pairs disposed of have one service, times within the window, and one route or a known pairing; and no such pair is left over |
| DisposedPairs.DisposedWereYoung | watchers/correlator.py:188-202 | in every run each pair is disposed of in a turn at whose clock both its findings are younger than the window |
| DisposedPairs.EveryPairHasGrounds | watchers/correlator.py:93-112 | in every run a disposed pair with a side that names no endpoint, as every code-watcher finding, is a knowledge-base pairing with its own text and scores at least 0.62; one that gets the default text shares a non-empty route |
| DisposedPairs.EveryAlertSays | watchers/correlator.py:304-311 | in every run a pair below the threshold makes no alert, and every other makes one with each field from its side, the larger severity, the confidence of the pair and the knowledge base's text for it |
| DisposedPairs.EveryClaimsFate | watchers/correlator.py:336-372 | what ClaimFate says holds of every pair of every run |
| DisposedPairs.NothingPassesAboveTheCap | watchers/correlator.py:296-302 | with a threshold above 0.99 every pair of every run is dropped for low confidence |
| DisposedPairs.SomePairPassesIff | watchers/correlator.py:296-302 | some run of valid findings gets a pair past the threshold exactly when it is at most 0.99 |
| Retry.WithRetry | watchers/redis_client.py:79-110 | between 1 and max_attempts tries, first success wins, a fatal error stops at once, exhaustion raises the last error, and the sleep is base_delay * (2^(tries-1) - 1) |
| Notifier.SendAlert | watchers/notifier.py:267-332 | the outcome and the number of channels that acknowledged are those of the three channels in turn |
| Notifier.WhoWasTold | watchers/notifier.py:219-332 | true with nobody told exactly below the threshold; not true with somebody told exactly when the alert got through to a channel whose turn came and a channel raised or none acknowledged |
| Notifier.NotifyFromThreshold | watchers/notifier.py:52-54 | an alert is worth a notification from the threshold on |
| ClaimProtocol.StepKeepsInv | watchers/redis_client.py:203-235 | every step of every correlator, the server, the network and the clock keeps the lease invariant |
| ClaimProtocol.RunKeepsInv | watchers/redis_client.py:203-235 | the lease invariant holds after every run |
| CallOrder.OverUntilNextBegin | watchers/correlator.py:313-372 | in every run, after a refused claim, a store or claim that raised, a delivered alert, a finished release or a crash, a correlator does nothing more until it takes up an alert again |
| CallOrder.OnlyReleasesAfterFailure | watchers/correlator.py:336-370 | in every run, once publishing raised or send_alert did not return true, it only gives the claim back until then |
| CallOrder.OneClaimPerBegin | watchers/redis_client.py:203-217 | in every run, between two tokens of one correlator it takes up an alert |
| CallOrder.ActsIffPossible | watchers/correlator.py:313-372 | in every run a step takes effect exactly if it is possible where its correlator is in the handling of an alert |
| CallOrder.RetriesIffSendsLeft | watchers/redis_client.py:88-104 | in every run a command is sent again exactly as long as it was sent fewer times than allowed |
| CallOrder.NotifyComesLast | watchers/correlator.py:313-363 | in every run a notification follows taking up its alert, drawing its token, learning the grant of that token and publishing, in that order |
| ClaimSafety.DeliveriesAreSpaced | watchers/correlator.py:313-372 | two delivered alerts of one fingerprint have different tokens, both granted, with claim times a full cooldown apart |
| ClaimSafety.OwnerOrExpired | watchers/correlator.py:336-372 | a correlator between claim and release owns the key or its lease is over, and no other uses its token |
| ClaimSafety.OneLiveOwner | watchers/correlator.py:336-372 | at most one correlator works on a fingerprint under an unexpired lease |
| ClaimSafety.ReturnedTokenWasStored | watchers/redis_client.py:203-217 | a returned token was stored by that very call, after any retries |
| ClaimSafety.ReleaseSparesOthers | watchers/redis_client.py:220-235 | a live claim disappears only by the compare-and-delete carrying its own token, when nobody holds it or delivered under it |
| ClaimSafety.AnswersTell | watchers/redis_client.py:209-235 | a claim is granted exactly if the key is free, and a release tells whether it removed the key, exactly if the key carries its token |
| SelfRefusal.SelfRefusalIffRetries | watchers/redis_client.py:208-217 | a claim can be refused because of its own earlier attempt exactly when its command may be sent twice |
| SelfRefusal.SelfRefusalIsLost | watchers/redis_client.py:208-217 | in every run such a claim is lost |
| ClaimLoss.LostIff | watchers/correlator.py:313-372 | in every run, exactly which steps lose a claim |
| ClaimLoss.LostMeansNothingDelivered | watchers/redis_client.py:203-235 | in every run, a claim is lost exactly when in every continuation until it expires the key stays, no alert is delivered under it and the fingerprint is not claimed again |
| ClaimLoss.UnansweredClaimIsLost | watchers/correlator.py:314-326 | for every cooldown and number of sends a claim whose reply is lost stays for its whole cooldown with nobody at work |
| ClaimSends.SendsAreSpaced | watchers/correlator.py:354-363 | alerts of one fingerprint sent within h of their claims are sent at least the cooldown less h apart, in the order listed, each after its claim |
| ClaimSends.SendGapIsAttained | watchers/correlator.py:354-363 | for every cooldown and every h up to it some run sends two alerts exactly the cooldown less h apart |
| ToldTwice.EarlierDidNotSucceed | watchers/correlator.py:354-372 | in every run, of two calls of send_alert for one fingerprint claimed less than a cooldown apart the earlier-claimed one did not return true |
| ToldTwice.ToldTwiceIff | watchers/correlator.py:354-372 | alerts of one fingerprint can get through under claims less than a cooldown apart exactly when in the earlier call a channel raised or none acknowledged |
| ToldTwice.LostAnswerTellsTwice | watchers/notifier.py:252-260 | for every gap below the cooldown some run does so with nothing but lost answers |
| ChangeDetection.TableKnowsRecent | watchers/code_watcher.py:152-163 | the bounded table holds a hash exactly when the path's last access had it and fewer than the bound other paths were accessed since |
| ChangeDetection.AgreesWithUnboundedMap | watchers/code_watcher.py:93-95 | with no more paths than the bound the table agrees with the full map from path to last hash |
| ChangeDetection.TouchKeepsRecent | watchers/code_watcher.py:155-162 | one access keeps the table equal to the most recent part of the history in recency order |
| ChangeDetection.FileHashes.HasChanged | watchers/code_watcher.py:152-165 | changed is reported exactly for a readable file not seen recently with that hash; an unreadable one changes nothing |
| Snapshot.Bounded | watchers/code_watcher.py:115-125 | reads within their bounds never hold more than the limit plus one bytes |
| Snapshot.ReadAll | watchers/code_watcher.py:113-125 | against any answers the loop ends, never asks for nothing, and joins what was answered up to the empty read |
| Snapshot.JoinedOfContent | watchers/code_watcher.py:116-123 | reads of an unchanging content join to a prefix of it, and to all of it at end of file |
| Snapshot.ReadFileSnapshot | watchers/code_watcher.py:98-144 | the descriptor is closed once; not regular and too large (over 1048576 bytes) are refused before any read; what was read to the end is returned exactly if device, inode, size and mtime agree and the length is the size, else the file has changed; an unchanging file is returned whole unless a read fails |
| SyntaxWalk.PathsOfExact | watchers/code_watcher.py:261 | the listed positions are exactly those of the tree, once each, in pre-order |
| SyntaxWalk.WalkVisitsEveryPosition | watchers/code_watcher.py:217-275 | the walk flags exactly what stands at the tree's positions, each once, in pre-order |
| TreeFlags.WalkFlagsExactlyTheDue | watchers/code_watcher.py:242-275 | a flag is raised exactly if an eval/exec call, a shell=True keyword or a sensitive chain with its line lies anywhere in the tree: in functions, arguments, keyword values, attribute values or other parts |
| TreeFlags.WalkInOrder | watchers/code_watcher.py:261 | a node's own flags come first, then those of its parts from left to right, each once |
| SyntaxWalk.Visitor.Visit | watchers/code_watcher.py:242-275 | visiting appends exactly the walk of the node |
| FileScan.FirstMatch | watchers/code_watcher.py:181-212 | the first pattern that is switched on and matches, or none if there is none |
| FileScan.FiresIff | watchers/code_watcher.py:181-187 | the pattern that counts is the first that matches, secrets passed over where they are switched off |
| FileScan.CommentIff | watchers/code_watcher.py:176-179 | a skipped line is one with one of four markers after white space |
| FileScan.ScanRegex | watchers/code_watcher.py:170-212 | one hit per matching non-comment line, for its first applicable pattern, in line order |
| FileScan.Deduplicate | watchers/code_watcher.py:350-358 | the loop keeps each finding whose key did not come earlier |
| FileScan.FirstOnesSound | watchers/code_watcher.py:350-358 | kept keys are pairwise distinct and none is lost |
| FileScan.ScanFile | watchers/code_watcher.py:327-358 | the result is every regex hit followed by the tree hits in walk order whose key is new; an unreadable file gives nothing |
| FileScan.FlagsAreReported | watchers/code_watcher.py:341-358 | every type and line the tree walk flags is in the result |
| FileScan.InferService | watchers/code_watcher.py:296-310 | the component after the first `services`, else after the first `components`, else the parent directory, else a fixed name; cut to 200 characters and never blank |
| FileScan.ServiceAfterMarker | watchers/code_watcher.py:298-307 | the component right after the first `services`, without its white space, cut to 200 characters, is the service |
| FileScan.CodeFindingSays | watchers/code_watcher.py:194-240 | what every construction site fills in and what it leaves out |
| FileScan.CodeWatcherUsesKnowledgeBase | watchers/code_watcher.py:194-211 | a code-watcher finding names no endpoint, so it matches only through the knowledge base |
| ApiWatcher.ProbeMeetsCode | watchers/api_watcher.py:75-84 | a finding from a probe is in scope of a code-watcher finding exactly when service and window agree and that outcome can be blamed on that code issue, listed by status |
| ApiWatcher.ReportFitsState | watchers/api_watcher.py:186-282 | a reported failure is critical exactly when it leaves the endpoint down without being a TLS error, and high exactly when it leaves it degraded |
| ApiWatcher.FailureReportedAs | watchers/api_watcher.py:75-84 | type, severity and confidence of the n-th counted failure, by its status or the lack of one |
| ApiWatcher.OtherwiseReportedAs | watchers/api_watcher.py:149-282 | what is reported otherwise: slow successes and TLS errors, and nothing else |
| ApiWatcher.Prober.Probe | watchers/api_watcher.py:127-282 | after any interleaving of probes of any URLs both tables say of each URL what its own outcomes since its last success say, and every finding returned so far is the one its URL's history calls for |
| ApiWatcher.UpIff | watchers/api_watcher.py:87-94 | an endpoint is up exactly when since its last success there was no TLS error and fewer counted failures than the threshold |
| ApiWatcher.EmittedCount | watchers/api_watcher.py:186-221 | in every trace, k counted failures of a URL since its last success had max(0, k - threshold + 1) findings returned, numbered from the threshold to k, with anything else in between |
| Shutdown.ShutdownController.Fail | watchers/main.py:54-65 | a failure is recorded only if there was none, and stop is set |
| Shutdown.FailLeavesItsMark | watchers/main.py:54-75 | a completed fail() leaves a failure recorded, stop set, and main able to wake |
| Shutdown.NothingIsTakenBack | watchers/main.py:42-65 | however a run goes on, the failure, the stop flag and main's result stay |
| Shutdown.TailReportsFirstFailure | watchers/main.py:163-186 | main ends with the first failure raised before it reads the field, normally exactly when there was none |
| Shutdown.LateFailureUnreported | watchers/main.py:172-186 | a failure after that read is recorded but main has returned normally |

## Left out

- Redis, HTTP, DNS, watchdog, asyncio and thread machinery: calls are seen only through how they end.
- The findings queue (push and pop) and the alert record: streams of events and outcomes stand for them.
- Regular expressions, SHA-256, UUIDs and JSON text: patterns are an open predicate, ids and hashes are opaque, keys are the text before hashing.
- IEEE floating point: confidence, scores and times are exact reals.
- Strings with lone surrogates: Dafny characters are Unicode scalar values; hashing such a string raises in the original.
- Finding contexts and the bodies of the knowledge-base texts: the texts are any that are not blank and at most 4000 characters.
- Errors raised by a scan half way: the scan results are for scans that do not raise.
- Python's recursion limit and the rest of its syntax: nodes other than calls, attributes, names and constants are generic.
- Notification payloads, redaction, environment parsing, URL checks and logging: straight-line code.
- ClaimProtocol and the interleaved part of Shutdown are state machines on values: what is proved is about atomic steps, not about an object being updated in place.
- ReadFileSnapshot: an error from closing the descriptor is not modelled.
- Correlate: the periodic statistics and the wait after a failed pop have no effect on the model.
- CollisionIffFittingCut: alerts with U+0130 in a text, on either side, are left to CollisionIff, whose limits are up to case.
- Prober.Probe: the finding schema refuses a title over 500 characters, so a probe of a very long URL raises after its outcome was recorded; that is not modelled.
- ClaimFate: who listens on the alert channel is not modelled; a PUBLISH that was applied though its reply was lost has reached them, and the claim is given back all the same.
