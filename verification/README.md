# Verified models of the identity runtime

This project models the parts of the identity runtime that are small state machines or exact
transformations, and proves what they promise over every input and every run.  The steps of a
protocol are pure functions on states; what they keep is an invariant, and what a whole run keeps is
a theorem over sequences of states and steps.  Where the source updates an object in place there is
a class whose methods are proved against those functions.

The areas:

- **Call gate** (`CallGate`, `CallGateRuns`, `CallGateLock`): the lock in front of a memory source
  that makes one call at a time, with two queues, hand-over, cancellation and turning away.
- **Plugin events** (`EventStream`, `EventStreamRuns`, `EventViews`, `EventSubscriber`): a bounded queue
  that drops the oldest, with numbered events per generation and a count of what was lost.
- **Broken provider entries** (`BrokenEntries`, `BrokenReload`, `BrokenRepair`): a file split into
  admitted and broken entries, written back, repaired and cut, and what the next load makes of it.
- **Sign-in custody** (`SignIn`, `SignInRuns`, `SignInGuards`, `SignInCustody`): attempts that are started,
  superseded, claimed, published, cancelled and expired.  The `state` check is that of section 10.12 of RFC 6749,
  the single use of a code that of its section 4.1.2.
- **Acceptance scoring** (`AcceptanceManifest`, `AcceptanceCases`, `AcceptanceUsage`,
  `AcceptanceScore`, `AcceptancePairs`, `AcceptanceFindings`, `AcceptanceReport`, `AcceptanceContents`,
  `AcceptanceTotals`, `AcceptanceScoring`, `AcceptanceCounting`): validation, pairing and aggregation over maps walked in any order.
- **Heard history** (`HeardText`, `HeardUnicode`, `HeardHistory`, `HeardEdits`, `HeardRuns`,
  `HeardPaging`): a buffer that expires, is bounded, takes late evidence and is read in pages.  The
  texts are UTF-8 as section 3 of RFC 3629 has it.
- **Outbox delivery** (`Outbox`, `OutboxRuns`, `OutboxWalk`, `OutboxSends`): claims, sends, outcomes, crashes
  and boots.
- **Ledger door** (`LedgerDoor`): admission with pauses, seal recovery and the projection.
- **Cognition settings** (`Cognition`, `CognitionHeld`), **model windows** (`ModelWindow`) and the
  **ledger printer** (`LedgerPrinter`).

Time is an integer clock that steps move forward.  What comes from outside (cancellation, network
answers, whether a write succeeded, a fresh stream name) is a parameter of the step.  Orders the
source leaves open (a Go map walked, goroutines interleaved) are left open here.

Three promises turned out not to hold of the code as it stands; each has a concrete case and the
exact condition:

- Conservation of events fails once a delivery comes back to a subscriber already stopped
  (`EventStreamRuns.AStopBreaksConservation`), and only then
  (`EventStreamRuns.ConservedIffNoneCameBackStopped`).
- An utterance heard twice under a session longer than 256 bytes is kept twice
  (`HeardRuns.LongSessionIsKeptTwice`); an arrival keeps every buffer free of repeats exactly when its
  session is no longer than that (`HeardRuns.KeepsUniqueIffShort`).
- A grace held under a ceiling of more than 1,000,002 rounds can still be out of its bounds
  (`CognitionHeld.OneRoundMoreOverflows`, `CognitionHeld.HeldIsValidIff`, `CognitionHeld.HoldAgainIff`).

## Model

| member | source | states |
|---|---|---|
| `CallGate.StepKeeps` | internal/app/meaning_source.go:585-663 | every step of take, wake, sent, release, cancel and the clock keeps: held exactly when one call owns the gate, the queues hold exactly the waiting calls in order, `ends` is the owner's clock |
| `CallGate.PassedKeeps` | internal/app/meaning_source.go:650-663 | handing on gives the gate to the first cue, else the first memory, else frees it, and keeps the invariant |
| `CallGate.LeftKeeps` | internal/app/meaning_source.go:619-634 | a waiter that leaves its queue keeps the invariant |
| `CallGate.LeaverLeavesTheRest` | internal/app/meaning_source.go:628-633 | a waiter that leaves takes its own place out of its queue; the others keep their order, and the other queue, the other calls, the owner and its clock are unchanged |
| `CallGateRuns.OneToken` | internal/app/meaning_source.go:585-663 | in every run: held iff exactly one call owns the gate; a free gate has both queues empty; a call is queued iff it waits |
| `CallGateRuns.HandedOnce` | internal/app/meaning_source.go:650-663 | no waiter is handed the gate twice |
| `CallGateRuns.GoneForGood` | internal/app/meaning_source.go:598-635 | a call that is done is never queued, handed or holding again, and one turned away never owned the gate |
| `CallGateRuns.GivenUpPassesOn` | internal/app/meaning_source.go:609-616 | a call handed the gate that gave up passes the token on in the same step |
| `CallGateRuns.TurnedAwayOnlyBehind` | internal/app/meaning_source.go:619-634 | a waiter is turned away only while another call owns the gate and is past its deadline plus the margin |
| `CallGateRuns.OvertakenOnlyByElders` | internal/app/meaning_source.go:592-597 | whoever gains the gate while a call waits was queued before it, or is a cue passing a memory |
| `CallGateRuns.CueWaitsItsTurn` | internal/app/meaning_source.go:650-657 | a waiting cue sees no memory call pass and at most as many cues as stood ahead of it |
| `CallGateRuns.AheadOnlyShrinks` | internal/app/meaning_source.go:585-663 | over any stretch of waiting, those ahead only shrink, by one for each grant in the class |
| `CallGateRuns.FirstInFirstOut` | internal/app/meaning_source.go:650-657 | of two calls in a queue the later gains nothing while the earlier waits |
| `CallGateRuns.TimeStartsAnew` | internal/app/meaning_source.go:638-642 | while a call owns the gate its time runs from its last sending, or from when the gate came to it |
| `CallGateRuns.WakeComesTo` | internal/app/meaning_source.go:598-635 | which of the four endings a waking comes to, each exactly when, and when a call still waiting is woken next |
| `CallGateRuns.ArrivalSays` | internal/app/meaning_source.go:585-597 | an arrival takes a free gate at once and otherwise goes last in the queue of its class |
| `CallGateRuns.ReleaseSays` | internal/app/meaning_source.go:644-663 | a release goes to the first waiting cue, else the first waiting memory, else leaves the gate free |
| `CallGateRuns.CancelledIff` | internal/app/meaning_source.go:598-635 | in every run a call counts as cancelled exactly when it arrived so or was cancelled since |
| `CallGateLock.Lock.Enter` | internal/app/meaning_source.go:585-597 | is the arrival of the protocol on the object: the gate at once or a place at the end of a queue |
| `CallGateLock.Lock.Recheck` | internal/app/meaning_source.go:608-635 | is the waking of the protocol on the object: handed, given up, turned away or still waiting |
| `CallGateLock.Lock.Sent` | internal/app/meaning_source.go:638-642 | is the sending of the protocol on the object: the owner's time starts anew |
| `CallGateLock.Lock.Release` | internal/app/meaning_source.go:644-648 | is the release of the protocol on the object, and says which waiter was handed the gate |
| `CallGateLock.Lock.PassOn` | internal/app/meaning_source.go:650-663 | the channel closed was open |
| `CallGateLock.Removed` | internal/app/meaning_source.go:628-633 | the loop that takes a waiter out of its queue removes it and nothing else |
| `EventStream.StepKeeps` | internal/app/plugin_events.go:130-176 | every step of emitting, taking, settling, looking and stopping keeps order, counters and conservation |
| `EventStreamRuns.EventsAreConserved` | internal/app/plugin_events.go:130-176 | in every run, while not stopped or exhausted: emitted plus unattributed plus stale equals accepted plus lost plus queued plus in flight |
| `EventStreamRuns.AllSettledNoLossMeansAllAccepted` | internal/app/plugin_calibration.go:32-63 | a view with everything settled and no loss means every event of the generation was accepted |
| `EventStreamRuns.AStopBreaksConservation` | internal/app/plugin_calibration.go:65-68 | a run in which a stop leaves an event uncounted |
| `EventStreamRuns.OneStepBalancedIff` | internal/app/plugin_calibration.go:65-79 | one step within a generation breaks the law exactly when it brings a delivery back to a stopped subscriber |
| `EventStreamRuns.ConservedIffNoneCameBackStopped` | internal/app/plugin_calibration.go:65-79 | in every run, while not exhausted, the law holds exactly when no earlier step of the generation brought a delivery back to a stopped subscriber |
| `EventStreamRuns.QueueIsTheLatestRun` | internal/app/plugin_events.go:140-176 | the generation's queued sequences are consecutive and end at what was emitted last, all on one stream |
| `EventStreamRuns.GuardsNeverFire` | internal/app/plugin_events.go:156-176 | after a drop the second enqueue has room, and the out-of-order guard of Finish never fires |
| `EventStreamRuns.SettledSequencesRise` | internal/app/plugin_calibration.go:65-79 | within a generation the settled sequences strictly rise |
| `EventSubscriber.PluginSubscriber.GenerationLocked` | internal/app/plugin_calibration.go:8-23 | refuses a generation that is zero or past; a new one starts its counters and its stream anew |
| `EventSubscriber.PluginSubscriber.LoseLocked` | internal/app/plugin_calibration.go:25-30 | counts a loss or marks the counter exhausted |
| `EventSubscriber.PluginSubscriber.Emit` | internal/app/plugin_events.go:130-176 | an emission no take interrupts is the protocol's moves one after another |
| `EventSubscriber.PluginSubscriber.Enqueue` | internal/app/plugin_events.go:156-176 | enqueue, drop the oldest, enqueue again |
| `EventSubscriber.PluginSubscriber.Snapshot` | internal/app/plugin_calibration.go:32-63 | is the look of the protocol on the object: the view, or the first reason there is none |
| `EventViews.ViewIsTheSubscriber` | internal/app/plugin_calibration.go:32-63 | in every run an available view shows the four fields of the subscriber as the look leaves it, at the asked generation, with no more settled than emitted |
| `EventViews.ReasonIs` | internal/app/plugin_calibration.go:32-63 | each reason for having no view is given exactly when it applies and nothing before it refuses |
| `EventViews.GenerationsStartAnew` | internal/app/plugin_calibration.go:8-23 | a later generation starts counters and stream anew, the current one changes nothing but an unnamed stream, a past one nothing |
| `EventViews.EmissionSays` | internal/app/plugin_events.go:101-176 | a tool call is numbered after the last of its generation and held out, or is one loss, or nothing once stopped |
| `EventViews.QueueMoves` | internal/app/plugin_events.go:130-176 | room takes the event last, no room drops the oldest and counts it lost if it is current, a taker takes the oldest |
| `EventViews.NoRoomAgain` | internal/app/plugin_events.go:130-176 | without room at the second try a tool call is one loss and ends the views of its generation |
| `EventViews.SettlesIff` | internal/app/plugin_calibration.go:65-79 | a sequence settles iff the delivery is the subscriber's own and lies past the last settled and not past the last emitted |
| `EventViews.DeliverySettles` | internal/app/plugin_calibration.go:65-79 | in every run an own delivery that comes back settles its sequence, and is one loss if not accepted |
| `EventSubscriber.PluginSubscriber.Finish` | internal/app/plugin_calibration.go:65-79 | settles a sequence of the current generation and counts a refusal as lost |
| `EventSubscriber.FullQueueKeepsTheNewest` | internal/app/plugin_events.go:156-176 | on a full queue the oldest goes, the new event is last, and a current one that went is counted lost |
| `BrokenEntries.AdmitEntries` | internal/app/providers_broken.go:30-54 | computes the greedy split, and what it admits is fit |
| `BrokenEntries.KeptIsFit` | internal/app/providers_broken.go:39-54 | greedy admission is sound |
| `BrokenEntries.RejectedInOrder` | internal/app/providers_broken.go:39-48 | broken entries stand in file order, each at the index and after the count it had |
| `BrokenEntries.WithBrokenEntries` | internal/app/providers_broken.go:196-213 | the loop that writes broken entries back is the weave of the two lists |
| `BrokenEntries.SaveAfterLoad` | internal/app/providers_broken.go:30-54 | merging what a load split gives the file back, entry for entry |
| `BrokenEntries.RepairReplacesOne` | internal/app/providers_broken.go:244-262 | merging after a repair gives the file with that one position replaced |
| `BrokenEntries.RemovalDropsOne` | internal/app/providers_broken.go:233-242 | merging after a removal gives the file without that one position |
| `BrokenEntries.DeletionDropsOne` | internal/app/providers.go:793-806 | merging after an admitted entry is deleted gives the file without that one position |
| `BrokenEntries.EditOfALoadedFile` | internal/app/providers_broken.go:233-262 | from load to save, repairing or removing the entry shown at a position changes that position alone |
| `BrokenEntries.LoopAdmitsAllIff` | internal/app/providers_broken.go:36-48 | the loop agrees with the all-at-once path exactly on lists whose every prefix is fit |
| `BrokenEntries.SplitIsTheLoop` | internal/app/providers_broken.go:36-54 | for a rule that prefixes inherit, the all-at-once path changes nothing and what is admitted is fit |
| `BrokenEntries.NoneCouldGoBack` | internal/app/providers_broken.go:39-48 | for such a rule no broken entry could go back unrepaired at its place |
| `BrokenReload.RepairIsTheNextLoad` | internal/app/providers_broken.go:244-262 | for a rule that survives taking an entry out, the repaired file splits into exactly the repaired registry: same providers with the entry among them, same other broken entries |
| `BrokenReload.RemovalIsTheNextLoad` | internal/app/providers_broken.go:233-242 | the file without a broken entry splits into the same providers and the other broken entries, those after it one place earlier |
| `BrokenRepair.ValidateEntries` | internal/app/providers.go:510-540 | the loop decides the registry's rules: names given and distinct, at most one default, every entry passing its own checks |
| `BrokenRepair.RulesOfAPrefix` | internal/app/providers.go:510-540 | the rules of the decoded entries hold of every prefix of a list they hold of |
| `BrokenRepair.RulesWithoutOne` | internal/app/providers.go:510-540 | and of the list with any one entry taken out |
| `BrokenRepair.PrepareRegistry` | internal/app/providers_broken.go:85-110 | a registry is prepared exactly when every entry decodes and the rules hold of them |
| `BrokenRepair.RuleIsPrefixClosed` | internal/app/providers_broken.go:85-110 | the registry's rule holds of every prefix of a list of entries it holds of, and of the empty list |
| `BrokenRepair.RuleIsHereditary` | internal/app/providers_broken.go:85-110 | and survives taking any one entry out |
| `BrokenRepair.Load` | internal/app/providers_broken.go:30-54 | a load of any file succeeds with a fit registry, and it is always the loop's split |
| `BrokenRepair.BrokenStaysOut` | internal/app/providers_broken.go:39-48 | under the registry's rule no broken entry could go back unrepaired at its place |
| `BrokenRepair.RepairHoldsAtTheNextLoad` | internal/app/providers_broken.go:244-262 | after any repair that fits, the next load reads exactly the repaired registry |
| `BrokenRepair.RemovalHoldsAtTheNextLoad` | internal/app/providers_broken.go:233-242 | after a removal the next load reads the same providers and the other broken entries |
| `BrokenRepair.FreeName` | internal/app/providers_broken.go:135-194 | the search for a free name ends, with the name itself or the first number after it that is not taken |
| `BrokenRepair.RepairFor` | internal/app/providers_broken.go:135-194 | the repair offered is the first change that makes the entry fit at its insertion point, and a new name is one not taken |
| `BrokenRepair.DescribeBroken` | internal/app/providers_broken.go:54-83 | each broken entry is shown with its own name and default mark, and is offered the first repair that makes it fit at the place it will be put, or none if none does |
| `BrokenRepair.OfferedByHand` | internal/app/providers_broken.go:135-194 | which repair is offered, listed case by case: another name, no default mark, speech taken out |
| `BrokenRepair.TakenIff` | internal/app/providers_broken.go:54-83 | a name is taken iff an admitted entry bears it, or a broken one does and it is not empty |
| `BrokenRepair.RulesOneByOne` | internal/app/providers.go:508-540 | entries obeying the rules still do with one more iff it is named and sound, its name is new and it is no second default |
| `BrokenRepair.ShownIsTheFiles` | internal/app/providers_broken.go:215-222 | in a file just loaded a broken entry is shown for exactly the text at its position, and no two for the same |
| `BrokenRepair.ProviderRegistry.BrokenIndex` | internal/app/providers_broken.go:215-222 | finds the entry at a position if its digest is still the one shown |
| `BrokenRepair.ProviderRegistry.RemoveBroken` | internal/app/providers_broken.go:233-242 | removes that entry alone or changes nothing |
| `BrokenRepair.ProviderRegistry.RepairBroken` | internal/app/providers_broken.go:244-262 | puts the repaired entry in its place and renumbers those after it, or changes nothing |
| `BrokenRepair.ProviderRegistry.DeleteProvider` | internal/app/providers.go:793-806 | deletes an admitted entry and renumbers the broken ones after it |
| `SignIn.StepKeeps` | internal/app/oauth_signin.go:153-365 | every step, with the edits of profiles that delete attempts, keeps: the map points at live attempts under their own keys, and a live attempt is the newest for its key and its file |
| `SignInRuns.OneInProgress` | internal/app/oauth_signin.go:182-202 | at most one unsettled sign-in per key and per credential file |
| `SignInRuns.ClaimedOnce` | internal/app/oauth_signin.go:425-443 | an authorization-code attempt is claimed at most once, and with its own state |
| `SignInRuns.WritesOnlyAfterAClaim` | internal/app/oauth_signin.go:408-443 | such an attempt writes only after a claim |
| `SignInRuns.WriterIsNewest` | internal/app/oauth_signin.go:332-365 | whoever writes is live, not ended, and the newest for its key and file |
| `SignInRuns.OutOfTheMapNeverWrites` | internal/app/oauth_signin.go:303-365 | a superseded, cancelled or expired attempt never writes afterwards |
| `SignInRuns.StartSilencesTheOthers` | internal/app/oauth_signin.go:182-202 | after a start no earlier attempt under the key or for the file ever writes |
| `SignInRuns.ForgetSilences` | internal/app/oauth_profiles.go:323-329 | after a profile is edited or disconnected, no attempt under its key or for its own token file ever writes |
| `SignInRuns.NewestTokensStay` | internal/app/oauth_signin.go:332-365 | each attempt writes at most once, and a file's writes come in the order of the starts |
| `SignInRuns.ShownConnectedWasWritten` | internal/app/oauth_signin.go:303-330 | a settled sign-in shows Connected only if it wrote, and never Pending |
| `SignInCustody.Custody.Supersede` | internal/app/oauth_signin.go:182-202 | the walk over the map settles exactly the attempts of the key or the file, in any order |
| `SignInCustody.Custody.StartAttempt` | internal/app/oauth_signin.go:153-282 | is the start step |
| `SignInCustody.Custody.Settle` | internal/app/oauth_signin.go:555-562 | ends the attempt and leaves only its outcome in the map |
| `SignInCustody.Custody.ClaimCode` | internal/app/oauth_signin.go:425-443 | is the claim step: own state, live, not ended, not claimed |
| `SignInCustody.Custody.PublishTokens` | internal/app/oauth_signin.go:332-365 | is the publish step, its scope granted iff none is required or it is among those granted |
| `SignInCustody.Custody.HasScope` | internal/app/oauth_signin.go:333-341 | the loop finds the required scope iff none is required or it is among those granted |
| `SignInGuards.WritesIff` | internal/app/oauth_signin.go:332-365 | in every run a token file is written iff tokens with the scope, from the current profile, are published and written for an attempt in progress that has not ended |
| `SignInGuards.ClaimedIff` | internal/app/oauth_signin.go:425-443 | an attempt comes to be claimed, and its worker begins, exactly by a claim with its own state, or by the poll of a device attempt, while in progress and not ended |
| `SignInGuards.SettlesIff` | internal/app/oauth_signin.go:182-330 | an attempt stops being in progress iff it is called off, runs out, is concluded or forgotten |
| `SignInGuards.SettlesAs` | internal/app/oauth_signin.go:182-330 | what is shown of it then: Cancelled, Expired, Connected or Failed, or nothing |
| `SignInGuards.EndsIff` | internal/app/oauth_signin.go:182-330 | a live attempt ends iff its time runs out or it goes out of progress |
| `SignInGuards.ShownStays` | internal/app/oauth_signin.go:182-202 | what is shown of a settled sign-in changes only by a start under its key or by forgetting it |
| `SignInGuards.StartSays` | internal/app/oauth_signin.go:182-202 | a start that goes ahead puts the new attempt in progress under its key |
| `SignInCustody.Custody.EndAttempt` | internal/app/oauth_signin.go:303-330 | is the end step of a worker |
| `SignInCustody.Custody.CancelKey` | internal/app/oauth_signin.go:538-549 | is the cancel step |
| `SignInCustody.Custody.ExpireAttempt` | internal/app/oauth_signin.go:204-213 | is the expiry step |
| `SignInCustody.Custody.ForgetProfile` | internal/app/oauth_profiles.go:609-614 | the walk that cancels and deletes a profile's attempts, in any order of the map |
| `AcceptanceManifest.Validate` | internal/acceptance/manifest.go:104-180 | accepts exactly the valid manifests: ids all distinct, variants judgeable, every bar within reach in each set its job appears in, negative cases of known jobs |
| `AcceptanceManifest.CheckVariants` | internal/acceptance/manifest.go:136-155 | claims the variants' ids and counts them per set, exactly when all are fine and new |
| `AcceptanceManifest.BarCanBeMet` | internal/acceptance/manifest.go:159-163 | the walk over the per-set counts, in any order |
| `AcceptanceManifest.Cases` | internal/acceptance/manifest.go:202-220 | every variant of the set in order, then every negative case |
| `AcceptanceCases.SlotsFacts` | internal/acceptance/manifest.go:202-220 | in a valid manifest no two cases share an id, and each is a variant of the set or a negative case |
| `AcceptanceCases.ShotsAreVariants` | internal/acceptance/manifest.go:207-213 | a job has as many cases as variants in the set |
| `AcceptanceCases.ShortIffNone` | internal/acceptance/report.go:102-114 | in a valid manifest a job is short of variants in a set iff it has none there |
| `AcceptanceUsage.UsageTally.Add` | internal/acceptance/report.go:262-290 | adds an observation to rows, totals, the lower bound and its reasons, whatever order its maps are walked in |
| `AcceptanceScore.OrderDoesNotMatter` | internal/acceptance/report.go:120-178 | any permutation of the verdicts and of the observations gives the same result, report or findings |
| `AcceptancePairs.AttemptsFineIff` | internal/acceptance/report.go:129-164 | nothing is wrong with any attempt iff the lists pair one to one, agree on the case and name known cases |
| `AcceptancePairs.ScoredIff` | internal/acceptance/report.go:95-178 | a report is returned iff the set is known, every job has a variant in it, and verdicts and observations pair and cover each case exactly once and nothing else |
| `AcceptancePairs.SomeRunIsScored` | internal/acceptance/report.go:95-247 | there are runs that are scored: one job with one variant, attempted once |
| `AcceptanceReport.EveryVariantCountsOnce` | internal/acceptance/report.go:190-217 | attempts equal the job's variants in the set and are the sum of the four counts; successes, assisted, failures and unsupported are each the number of its cases that a verdict with that ending names |
| `AcceptanceContents.JobReportSays` | internal/acceptance/report.go:190-233 | a job's report bears its name and bar, passes iff the bar is reached and no violation stands, and counts each kind of help given on its cases |
| `AcceptanceContents.BreachReportedIff` | internal/acceptance/report.go:217-233 | a violation stands in a job's report iff a verdict on one of its cases, or on a negative case tied to it, saw it |
| `AcceptanceContents.NegativesReported` | internal/acceptance/report.go:190-247 | the negative cases are reported in the manifest's order with what their verdicts say |
| `AcceptanceContents.UsageReported` | internal/acceptance/report.go:262-290 | which tables the usage names, which columns it totals and which reasons for doubt it gives |
| `AcceptanceFindings.FindingsAreTrue` | internal/acceptance/report.go:115-178 | a run refused for what is wrong with it reports exactly the findings that hold of its lists |
| `AcceptanceFindings.RefusedByName` | internal/acceptance/report.go:95-114 | an unknown set and the first job short of variants are refused, by name |
| `AcceptanceCases.JudgeableIff` | internal/acceptance/manifest.go:104-190 | a variant, or a negative case, is accepted iff its texts say something and its set, help or job is a known one |
| `AcceptanceCases.ValidMeans` | internal/acceptance/manifest.go:104-190 | in a valid manifest each variant is of one of two sets, each bar is within reach where its job appears, each negative case is tied to no job or exactly one |
| `AcceptanceReport.PassesIff` | internal/acceptance/report.go:235-246 | a run passes iff every job reaches its threshold and no verdict of the run saw a violation |
| `AcceptanceTotals.UsageIsConserved` | internal/acceptance/report.go:190-233 | every total of the report is the sum over all observations, and the sum over the jobs plus the observations of negative cases tied to no job |
| `AcceptanceScoring.Index` | internal/acceptance/report.go:100-114 | the maps of variants and jobs, or the first job short of variants |
| `AcceptanceScoring.PairUp` | internal/acceptance/report.go:129-156 | the findings of attempts with a verdict, and the attempts on each case, in any order of the map |
| `AcceptanceScoring.FindUnjudged` | internal/acceptance/report.go:157-164 | the findings of observations with no verdict, in any order of the map |
| `AcceptanceScoring.FindMissing` | internal/acceptance/report.go:165-172 | the cases attempted never or more than once |
| `AcceptanceCounting.JobTally.Count` | internal/acceptance/report.go:193-231 | is the counting of one entry in its job, in place |
| `AcceptanceCounting.CountCases` | internal/acceptance/report.go:190-233 | the loop over the cases leaves each job the tally of its own entries and the total that of all |
| `AcceptanceCounting.Score` | internal/acceptance/report.go:95-247 | for a valid manifest and any lists, returns the score, report or refusal |
| `HeardText.LongestValidIs` | internal/app/heard_history.go:44-53 | the longest valid beginning is valid and begins the text, and no longer one is valid |
| `HeardText.HeardPrefix` | internal/app/heard_history.go:44-53 | the loop computes the text or its longest valid beginning within the limit |
| `HeardText.PrefixCutsBetweenCharacters` | internal/app/heard_history.go:44-53 | a valid text is cut at most three bytes short, between characters |
| `HeardText.DecimalOrder` | internal/app/speaker_segment.go:53 | no revision is less than itself, and not falling twice is not falling |
| `HeardUnicode.RuneIff` | internal/app/heard_history.go:44-53 | a text begins with a character iff it begins with the UTF-8 encoding, so long, of a Unicode scalar value |
| `HeardUnicode.ValidIff` | internal/app/heard_history.go:44-53 | the valid texts are exactly the UTF-8 encodings of sequences of Unicode scalar values |
| `HeardUnicode.BlankIff` | internal/app/heard_history.go:93-97 | the blank texts are exactly the encodings of white space characters and nothing else |
| `HeardUnicode.DecimalLessIff` | internal/app/speaker_segment.go:53 | revisions written as numbers are ordered as those numbers |
| `HeardHistory.HeardBuffer.Expire` | internal/app/heard_history.go:81-91 | drops the rows past their time from the front |
| `HeardHistory.HeardBuffer.Retain` | internal/app/heard_history.go:93-136 | adds a row at the end, within the capacity, unless it is already held or ignored |
| `HeardHistory.HeardBuffer.Amend` | internal/app/heard_history.go:156-189 | is the amendment on the object: the first row the evidence is about is changed or taken out, and no other |
| `HeardEdits.EvidenceSays` | internal/app/heard_history.go:156-189 | of an older registry it changes nothing; of a speaker the policy ignores it leaves exactly the other rows; otherwise as many rows, that one with the evidence's revision, cut attribution and fitting ids |
| `HeardEdits.EvidenceOfNothing` | internal/app/heard_history.go:156-189 | evidence about no row changes none |
| `HeardEdits.HearingSays` | internal/app/heard_history.go:93-136 | what an utterance leaves: nothing, or the rows in time, with the new one last unless it is a repeat or ignored |
| `HeardEdits.NewRowSays` | internal/app/heard_history.go:93-155 | the row made of an utterance, field by field |
| `HeardEdits.ExpiryDropsThePast` | internal/app/heard_history.go:81-91 | expiry drops a beginning of rows past their time and stops at the first that is not |
| `HeardEdits.KeptAreTheFit` | internal/app/heard_history.go:138-155 | the ids kept of a speaker are those that fit, in order |
| `HeardEdits.IgnoresIff` | internal/app/heard_history.go:156-189 | a policy ignores a speaker iff it is on and one of the ids is listed |
| `HeardRuns.RunKeeps` | internal/app/heard_history.go:81-189 | in every run row numbers strictly increase and none exceeds the last one given |
| `HeardRuns.RowsDescend` | internal/app/heard_history.go:93-189 | across any stretch a row is newly numbered or an earlier one with text, initial attribution, session, final and time unchanged, revision risen, registry revision not fallen |
| `HeardRuns.NoneExpired` | internal/app/heard_history.go:81-136 | after each hearing, amendment or read no row is past the retention in force |
| `HeardRuns.WithinCapacity` | internal/app/heard_history.go:130-135 | the buffer never outgrows the largest capacity it was filled under |
| `HeardRuns.UniqueThroughShortSessions` | internal/app/heard_history.go:106-115 | with sessions of at most 256 bytes, session and final are unique in every run |
| `HeardRuns.AddingKeepsUniqueIff` | internal/app/heard_history.go:106-115 | an addition keeps them unique iff no kept row has the pair as stored |
| `HeardRuns.KeepsUniqueIffShort` | internal/app/heard_history.go:96-135 | an arrival that is kept leaves every buffer without repeats without repeats iff its session has at most 256 bytes |
| `HeardRuns.LongSessionIsKeptTwice` | internal/app/heard_history.go:96-135 | any arrival with a longer session that is kept at all, heard twice, is kept twice |
| `HeardRuns.OneIsHeardTwice` | internal/app/heard_history.go:96-135 | there are such arrivals |
| `HeardPaging.PageOf` | internal/app/heard_history.go:228-281 | the reading loop is the page function |
| `HeardPaging.FirstRow` | internal/app/heard_history.go:259-272 | the halving of an oversized first row ends, fitting or with no text |
| `HeardPaging.Recall` | internal/app/heard_history.go:209-293 | expires, refuses or reads one page |
| `HeardPaging.FailsOnlyOnAHopelessRow` | internal/app/heard_history.go:259-276 | a page fails only when its first row is too large with no text at all |
| `HeardPaging.PageAdvances` | internal/app/heard_history.go:228-285 | a page that names a cursor shows at least one row, its cursor is strictly lower, and continuing wants exactly the rest |
| `HeardPaging.PagingIsComplete` | internal/app/heard_history.go:209-293 | following the cursor from the start shows every wanted row once, newest first, and nothing else |
| `HeardPaging.WantedAreTheMatches` | internal/app/heard_history.go:230-248 | the wanted rows are the matching rows of the buffer, in falling number |
| `HeardPaging.PageWithinBudget` | internal/app/heard_history.go:249-281 | every page is within the byte budget and the row limit |
| `HeardPaging.EveryRunPagesCompletely` | internal/app/heard_history.go:81-293 | paging is complete in every state of every run |
| `Outbox.StepKeeps` | internal/store/outbox.go:207-335 | every claim, send, outcome, release, crash and boot keeps: a row that may be claimed has had nothing that may have left |
| `OutboxRuns.AtMostOneMayHaveLeft` | internal/app/channels.go:251-317 | over all runs a message has at most one send that may have had an effect |
| `OutboxRuns.NothingTriedAfter` | internal/app/channels.go:251-317 | after such a send no channel and no later pass tries again |
| `OutboxRuns.CrashInASendIsTheLast` | internal/app/channels.go:379-387 | a crash in a send is its last send, settled by a boot or not |
| `OutboxRuns.UnwrittenStaysInFlight` | internal/app/channels.go:372-387 | after an outcome that was not written, in every later state the message is not delivered, nobody holds it, and it is in flight or unknown; the step that takes it out of flight is a boot, which leaves it unknown |
| `OutboxRuns.RefusedWalkRequeues` | internal/store/outbox.go:282-303 | a refused walk returns the message to the queue until its attempts run out |
| `OutboxRuns.ReleaseUndoesAClaim` | internal/store/outbox.go:251-265 | a claim given back leaves the row claimable as before |
| `OutboxWalk.OutboxStore.ClaimDispatch` | internal/store/outbox.go:220-249 | grants a claim iff the row is not delivered, parked, unknown or in flight |
| `OutboxWalk.OutboxStore.Settle` | internal/store/outbox.go:267-280 | an outcome is written under the claim that is in force and no other |
| `OutboxWalk.DeliverOne` | internal/app/channels.go:251-317 | nothing is sent without a claim or while an open page will show the message; the ways are tried in order up to the first send that may have left, and one outcome is written |
| `OutboxSends.MayHaveLeftIff` | internal/app/channels.go:349-370 | a send may have left iff the call failed, or answered without error, or with a reason in none of the three refusal sets |
| `OutboxSends.SendsInOrder` | internal/app/channels.go:251-317 | a walk sends on the open ways in order up to the first send that may have left, and no further |
| `OutboxSends.UnclearIsTheLast` | internal/app/channels.go:251-317 | a way whose call failed is the last sent on and the walk ends unclear unless unwritten; one answered without error likewise, delivered |
| `OutboxSends.RowSays` | internal/store/outbox.go:267-323 | what a walk leaves in the row: attempts, claim, delivery, effect and parking |
| `OutboxSends.ClaimSays` | internal/store/outbox.go:220-249 | a claim is a time after the last settled attempt and changes nothing else |
| `OutboxSends.BootSays` | internal/store/outbox.go:326-345 | a boot parks what is in flight and not delivered, as unknown, and nothing else |
| `OutboxSends.GrantedIff` | internal/store/outbox.go:220-249 | a message is granted to a sender, or to the page, exactly when its row allows it |
| `OutboxSends.DeliveredIff` | internal/store/outbox.go:267-323 | in every run a message stands delivered iff some step wrote so for a claim still in force |
| `OutboxSends.ClaimantsAre` | internal/app/channels.go:118-160 | the claimants of a channel are the plugins that name it, if the operator named it |
| `OutboxWalk.OnlyTheLastMayHaveLeft` | internal/app/channels.go:259-304 | at most the last send of a walk may have left, and it ends refused for good iff some send was |
| `OutboxWalk.ClaimableAgainIff` | internal/app/channels.go:251-317 | after a walk the row is claimable iff every send was refused, none for good, attempts remain and the outcome was written |
| `OutboxWalk.DescribeRoutes` | internal/app/channels.go:118-160 | a channel named by one plugin is carried by it, by two is carried by none |
| `LedgerDoor.AdmissionAddsAtMostOne` | internal/app/adapters.go:243-304 | one admission adds at most its one event, even across seal recovery, and applies it or leaves the ledger frozen |
| `LedgerDoor.AppendedIff` | internal/app/adapters.go:243-304 | an event is appended iff valid, not frozen, a broken seal recovered, tail intact, event fit and written; applied iff it then materializes |
| `LedgerDoor.FreezesIff` | internal/app/adapters.go:243-304 | the record freezes iff the seal is corrupt, the tail not intact, the write half done or the event not materialized |
| `LedgerDoor.RecoveredIsWhole` | internal/ledger/seal_recovery.go:15-124 | a recovery succeeds iff it leaves the record neither frozen nor with a broken seal, and touches no event |
| `LedgerDoor.LedgerIsTheAdmitted` | internal/app/adapters.go:243-304 | in every run the ledger is the events of the admissions that wrote, in their order |
| `LedgerDoor.FrozenIff` | internal/app/adapters.go:243-304 | in every run the record is frozen iff a step so far froze it |
| `LedgerDoor.SealBrokenIff` | internal/app/adapters.go:270-285 | in every run the seal stands broken iff it broke and no admission has mended it since |
| `LedgerDoor.ArrivalWaitsIff` | internal/app/adapters.go:212-228 | an append waits iff it is no head and a pause is in force, and then for that pause and its time |
| `LedgerDoor.PauseAskedFor` | internal/app/adapters.go:193-209 | a pause asked for while none is in force is new and lasts two seconds, otherwise nothing changes |
| `LedgerDoor.RankIs` | internal/app/adapters.go:211-304 | in every run an event is ready iff it had not to wait or woke, and done iff it was admitted |
| `LedgerDoor.EndedByRelease` | internal/app/adapters.go:193-209 | the pauses ended early are exactly those released while in force |
| `LedgerDoor.ProjectionIsTheReplay` | internal/app/adapters.go:243-304 | in every run, while not frozen, the projection is the replay of the ledger, each event once |
| `LedgerDoor.ProjectionIsTheFold` | internal/app/adapters.go:243-304 | for any way of applying an event, the projection a run builds is, while not frozen, the fold of the ledger's events |
| `LedgerDoor.NothingAfterADivergence` | internal/app/adapters.go:290-298 | after one failed materialization nothing more is appended |
| `LedgerDoor.WaitsAtMostOneBound` | internal/app/adapters.go:191-228 | an append waits at most one pause bound, and a head not at all |
| `LedgerDoor.EarlyOnlyByRelease` | internal/app/adapters.go:193-228 | an append that wakes before its pause's time was preceded by the release of that very pause while it was in force |
| `LedgerDoor.PauseEndsOnlyByItsOwn` | internal/app/adapters.go:193-209 | a pause in force ends early only by its own release |
| `LedgerDoor.Door.AskForPause` | internal/app/adapters.go:193-209 | opens a pause, or none while one is in force |
| `LedgerDoor.Door.Release` | internal/app/adapters.go:193-209 | ends its own pause and no other |
| `LedgerDoor.Door.AdmitNow` | internal/app/adapters.go:243-304 | is the admission function on ledger and projection |
| `Cognition.Settings.HoldCognition` | internal/app/cognition_settings.go:250-303 | the loop holds each setting in turn in place and lists those it changed, or fails |
| `Cognition.Settings.HoldSetting` | internal/app/cognition_settings.go:252-284 | one setting is brought to its bounds in place, left as it is, or cannot be held |
| `Cognition.TableIsProper` | internal/app/cognition_settings.go:155-206 | the settings table has sensible bounds, no repeated key, the rhythm first, and a spacing bound above the rhythm's |
| `Cognition.HoldIsPointwise` | internal/app/cognition_settings.go:250-303 | past the rhythm every setting is held by itself |
| `CognitionHeld.LoadFailsIff` | internal/app/cognition_settings.go:250-259 | the hold fails iff some value is zero or negative where none is allowed |
| `CognitionHeld.HeldIsValidIff` | internal/app/cognition_settings.go:219-303 | what is held passes the validator iff the brief time parses and the grace does not overflow its ceiling |
| `CognitionHeld.HoldAgainIff` | internal/app/cognition_settings.go:250-303 | a second hold changes nothing iff the grace does not overflow |
| `CognitionHeld.ValidIsKept` | internal/app/cognition_settings.go:219-303 | the hold leaves a valid configuration as it is |
| `CognitionHeld.FittingSettingKept` | internal/app/cognition_settings.go:250-303 | a setting in bounds, alone and jointly, keeps its value |
| `CognitionHeld.HeldWhere` | internal/app/cognition_settings.go:250-303 | where each value is held to: above its bound to that bound, below its least to that, a spacing within the rhythm to zero, an unfitting grace to two under its ceiling or zero |
| `CognitionHeld.GraceFitsIff` | internal/app/cognition_settings.go:117-145 | a grace fits iff it leaves two rounds under every ceiling in force |
| `CognitionHeld.SaidIsWhatChanged` | internal/app/cognition_settings.go:284-301 | what a load says it did not take as it stands is exactly what the hold changed |
| `CognitionHeld.SpacingOutlastsRhythm` | internal/app/cognition_settings.go:69-77 | after a hold the spacing in force exceeds the rhythm in force |
| `CognitionHeld.HeldUnderTheCeiling` | internal/app/cognition_settings.go:117-145 | under a ceiling of at most 1,000,002 rounds the held configuration is valid and settled |
| `CognitionHeld.OneRoundMoreOverflows` | internal/app/cognition_settings.go:117-145 | with one round more it need not be |
| `ModelWindow.PartsFitTheWindow` | internal/app/provider_resolve.go:392-427 | prompt plus output plus margin fit a known window, the prompt is positive iff the configured limit is not negative, and the facility budget is at least the prompt's |
| `ModelWindow.ThinkingLeavesAnAnswer` | internal/app/provider_resolve.go:171-188 | the thinking budget is 0 or leaves at least 1024 output tokens |
| `ModelWindow.AdmittedIff` | internal/app/provider_resolve.go:97-169 | resolution admits iff no limit in force is negative and a known window leaves a prompt; it resolves to those limits |
| `ModelWindow.RefusedFor` | internal/app/provider_resolve.go:153-169 | which of the two refusals is given, each exactly when |
| `ModelWindow.WithoutAWindow` | internal/app/provider_resolve.go:392-427 | with no window known the budget is the configured limit or 32,000, and a facility has the conversation's |
| `ModelWindow.PublishedWindowIsUsable` | internal/app/provider_resolve.go:141-151 | a published output cap never makes a window with room for the default unusable |
| `LedgerPrinter.Printer.Flush` | cmd/aii/ledger_cmd.go:255-260 | prints the waiting rows in order, with the mark, and none waits |
| `LedgerPrinter.Printer.OnVerified` | cmd/aii/ledger_cmd.go:197-217 | is the verified step |
| `LedgerPrinter.Printer.OnUnverified` | cmd/aii/ledger_cmd.go:219-253 | is the unverified step |
| `LedgerPrinter.Show` | cmd/aii/ledger_cmd.go:102-105 | a whole reading prints exactly what it ought to |
| `LedgerPrinter.TextMarksWhatNothingVouchesFor` | cmd/aii/ledger_cmd.go:183-270 | in text the wanted rows are printed once, in order, unmarked iff verified and a signed row stands at or after, or the reading ended well |
| `LedgerPrinter.JsonPrintsTheLines` | cmd/aii/ledger_cmd.go:197-253 | in JSON the wanted lines are printed as they stand |
| `LedgerPrinter.RestIsMarked` | cmd/aii/ledger_cmd.go:219-253 | of what did not verify, exactly the wanted records are printed, marked, and the lines that are none but hold the words |
| `LedgerPrinter.LastIsTheLastRead` | cmd/aii/ledger_cmd.go:197-253 | the last number reported is that of the last record read, verified or not |
| `LedgerPrinter.WantedIff` | cmd/aii/ledger_cmd.go:183-196 | a record is wanted iff its number is in range, its kind the one asked for, and the words, in any case, in its kind or payload |
| `LedgerPrinter.UnmarkedUpToProved` | cmd/aii/ledger_cmd.go:134-149 | in a cut reading a verified row is unmarked iff its number is not above the number reported as proved |

## Left out

- Startup, handover, re-execution, signals and process supervision.
- The insides of HTTP, TLS, the OAuth exchange, model discovery and catalogs: their answers are parameters.
- Dashboard views, notices, log lines and the wording of messages and errors.
- Cryptography and JSON encoding: hashes are identities, an encoded size is a function of the rows.
- `pluginSource.turn` and `ask`, which hold the call gate, and the making of one gate per plugin.
- Which plugin an event is matched to: one calibrated subscription that wants every event is modelled.
- Sign-in attempts are known by a number given at their start; the removal of a token file, and of files beside it, is not modelled.
- AcceptanceScore.Scored: the four sorted lists of what is wrong with a run are one set of findings, and totals are exact where the source adds floating point.
- AcceptanceManifest.Validate: says whether a manifest is accepted, not which fault is named first.
- AcceptanceUsage.ValidVerdict: a list absent from the file is not told from an empty one.
- OutboxWalk.DeliverOne: the looking up of a contact's ways, and the text of the answers, are not modelled.
- The settling of sends after a restore from a backup (`SettleRestore`).
- LedgerDoor.Door.AdmitNow: the capture of a ledger tail is not modelled.
- LedgerPrinter.Show: a failing writer, and the escaping of control characters in a printed row, are not modelled.
- Cognition.Settings.HoldCognition: names the settings changed without the sentences about them; single changes from the dashboard are not modelled.
- The output limit that is applied once more when a client is made from a resolved entry.
- Choosing among memory sources, and the editing of credentials and grants.
