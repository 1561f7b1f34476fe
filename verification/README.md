# VisitFlow: a verified model of its hard cores

VisitFlow manages visits to company sites: a host files a visit, participants receive QR passes, the
lobby lets them in and out, and messages go out through configurable providers. All state lives in
PostgreSQL rows that handlers change with guarded updates inside transactions. This project models the
parts where correctness depends on more than one handler, and proves what they promise.

`dafny verify dfyconfig.toml` checks everything.

## How it is laid out

**Notification delivery.** `NotificationQueue` is a state machine over the rows of `notifications`,
`notification_rules` and `notification_api_configs`, the workers and their row locks, with one function
per transaction. A delivery is split where another transaction can get in between: claim, take the row
lock, start the provider call, commit the result, or crash (which rolls back and frees the lock). Every row
carries the trace of what happened to it. `NotificationHistory` says what a well-behaved trace is and what
follows from it, without rows or workers. `NotificationEffects` writes every transaction out over the columns, as
a description that does not go through the functions it describes; `NotificationMoves` says how single rows move;
`NotificationSafety` is the invariant that ties rows, workers and traces together in every reachable state;
`NotificationTheorems`, `NotificationConfig`, `NotificationRules` and `NotificationRetries` hold the results;
`NotificationTick` is one tick of the worker; `NotificationStore` is the object whose methods carry the
transactions out step by step.

**Visits.** `VisitModel` is one visit with its participants, their QR tokens and its event log, with one
function per transaction, which `VisitEffects` writes out over the columns; `VisitInvariants` and `VisitTheorems` hold the invariant and the results over all
runs, `VisitExceptions` what falls short of them and exactly when; `VisitStore` is the object over all visits,
with the refusals of the handlers.

**Algorithms.** `Templates` (the two template renderers), `Base64Url`, `VisitCursor` and `VisitPaging`
(the visit list), `DynamicQr` (links, scanning and time windows), `SecretMask` (masked API secrets),
`LoginThrottle`, `RateLimiter`, `ScriptNonce` and `TrackingSnippet` (pasted tracking code). `Strings` and
`Wrappers` hold what several of them share.

## What the code does that its descriptions do not say

- The login throttle inserts the first failure without ever locking, so a limit of one attempt behaves
  like a limit of two (`LoginThrottle.AtMostMaxAttempts`, tight by `LoginThrottle.BoundIsReached`), and only
  with that limit can the nightly deletion of throttle rows change a decision
  (`LoginThrottle.OneAttemptMakesCleanupVisible`). The guide says the lock comes when the limit is exceeded
  (docs/ADMIN_GUIDE.md:313); the code locks when it is reached (internal/app/security.go:126).
- Issuing a QR and the no-show job clamp the early and late minutes to 0..1440; manual check-in and
  rescheduling use them as they are. The two agree exactly when both settings are in range
  (`VisitTheorems.ManualAgreesIffInRange`).
- Rescheduling checks the visit status before its transaction and not inside it, so the model lets the
  transaction find the visit in any status (internal/app/visits.go:895-918).
- The decision about a visit has no participant guard: an approval brings participants who were already
  cancelled back, a rejection overwrites their cancellation, and nothing else ever does
  (`VisitExceptions.CancelledUntilDecided`, reached by `VisitExceptions.DecisionFindsCancelled`).
- A comment says the visit is cancelled when the last open participant leaves
  (internal/app/visits_ops.go:14-15). That holds if and only if everybody else was cancelled too
  (`VisitExceptions.LastLeaverCancels`); somebody who checked out or never came leaves the visit SCHEDULED with
  nobody open. The no-show job does the same when not everybody is absent, as it closes only visits where
  everybody is (`VisitExceptions.TickStrands`). No other transaction does
  (`VisitExceptions.StrandedExactlyWhen`), and only cancelling the visit ends it
  (`VisitExceptions.StrandedStays`). Both are reached (`VisitExceptions.CancelFindsCheckedOut`,
  `VisitExceptions.TickFindsCancelled`).
- A disabled API never has a pending message, but a disabled rule can. A requeued message keeps the API it was
  queued with; if its rule has moved to another API, disabling that one disables the rule and leaves the message
  queued. This is the only way (`NotificationRules.ServedExactlyWhen`), it takes a requeue of such a message
  first (`NotificationRules.AlignedExactlyWhen`), and the message is not claimed while it lasts
  (`NotificationTheorems.UnservedIsNotClaimed`). It is reached (`NotificationRules.PendingMessageOfDisabledRule`).
- With braces in a value the order of Go's map iteration shows in a rendered template
  (`Templates.BracesMakeOrderVisible`).
- The rate limiter can admit more than its limit within a window's length exactly when the limit is at least two
  (`RateLimiter.ExceedsUnlessOne`), but never twice the limit (`RateLimiter.AtMostTwiceTheLimit`, tight for every
  limit and window by `RateLimiter.TwiceTheLimitIsTight`).

## Model

| member | source | states |
|---|---|---|
| `NotificationHistory.CallsPaidByClaims` | internal/app/background.go:73-89 | In a well-behaved trace every provider call since the last reset is paid for by a claim of its own, and there are at most five claims |
| `NotificationHistory.AtMostFiveCalls` | internal/app/background.go:74-88 | Any stretch of a well-behaved trace without a reset holds at most five provider calls |
| `NotificationHistory.NothingStartsAfterWithdrawal` | internal/app/background.go:228-231 | After a cancellation no claim and no call until a reset lies in between |
| `NotificationHistory.ResultBelongsToItsClaim` | internal/app/background.go:262-270 | A recorded result goes back to the claim with the same token, with no other claim or reset in between |
| `NotificationHistory.OneCallPerClaim` | internal/app/background.go:71-88 | No claim token ever calls the provider twice |
| `NotificationHistory.ClaimsOfSuffix` | internal/app/background.go:87-88 | Without a reset, claims add up from any point of the trace on |
| `NotificationSafety.StepKeepsInv` | internal/app/background.go:43-94 | Every transaction, of workers, handlers and configuration, keeps the invariant: sending exactly with a claim token, one to five attempts, locks held by the worker the claim names, distinct tokens, and a row that agrees with its well-behaved trace |
| `NotificationSafety.ClaimKeepsInv` | internal/app/background.go:70-94 | Claiming under a fresh token keeps the invariant, also when it takes over an expired lease |
| `NotificationSafety.TakeLockKeepsInv` | internal/app/background.go:226-255 | Locking re-checks status and token, so only the owner of the claim proceeds; the invariant is kept |
| `NotificationSafety.CommitKeepsInv` | internal/app/background.go:257-284 | Recording a result, and freeing the lock, keeps the invariant |
| `NotificationSafety.CrashKeepsInv` | internal/app/background.go:232-240 | A rollback at any point keeps the invariant |
| `NotificationSafety.SettleKeepsInv` | internal/app/background.go:287-293 | Failing, cancelling or logging a claimed row without a call keeps the invariant |
| `NotificationSafety.CancelAllKeepsInv` | internal/app/notification_config.go:1045-1050 | Cancelling pending rows, giving an open claim its attempt back, keeps the invariant |
| `NotificationSafety.RequeueKeepsInv` | internal/app/notifications_admin.go:62-66 | Requeueing failed or cancelled rows keeps the invariant |
| `NotificationSafety.RefreshKeepsInv` | internal/app/notification_config.go:1072-1182 | Refreshing visit_start rows keeps the invariant |
| `NotificationSafety.UpdateRuleKeepsInv` | internal/app/notification_config.go:706-812 | All three branches of a rule update keep the invariant, including taking claimed rows back |
| `NotificationSafety.DeleteRuleKeepsInv` | internal/app/notification_config.go:814-845 | Deleting a rule, which cancels its rows and clears their link, keeps the invariant |
| `NotificationSafety.RunKeepsInv` | internal/app/background.go:19-41 | The invariant holds after every run of transactions in any order |
| `NotificationTheorems.AtMostFiveProviderCalls` | internal/app/background.go:43-94 | In every run, with any number of workers, crashes and edits, a notification gets at most five provider calls between two resets |
| `NotificationTheorems.OneCallInFlight` | internal/app/background.go:226-231 | At most one provider call per notification is in flight |
| `NotificationTheorems.NoCallAfterCancel` | internal/app/background.go:228-231 | After a committed cancellation no claim and no call starts until the row is reset |
| `NotificationTheorems.EachResultHasItsOwnCall` | internal/app/background.go:257-270 | Each recorded result directly follows the call of its own claim, and nobody claimed the row in between |
| `NotificationTheorems.StaleWorkerWritesNothing` | internal/app/background.go:295-308 | A worker whose token is no longer current changes no row, whatever it does next |
| `NotificationTheorems.CallIsUndisturbed` | internal/app/background.go:228-231 | While a call is in flight no other transaction changes its row, apart from foreign keys a delete sets to null |
| `NotificationTheorems.CommitAlwaysRecords` | internal/app/background.go:257-284 | A call that comes back is always recorded: the claim cannot have been lost while the lock was held |
| `NotificationTheorems.TraceIsFaithful` | internal/app/background.go:70-94 | No step forges a trace: it is extended by at most one event, and the event is what the step did to the row |
| `NotificationTheorems.CallLeavesEvent` | internal/app/background.go:257 | No provider call starts without leaving its event |
| `NotificationTheorems.RowMoves` | internal/app/background.go:43-308 | Everything any transaction can do to one row, as a complete list of moves |
| `NotificationTheorems.ClaimedRowIsInRange` | internal/app/background.go:72-88 | Sending exactly with a token, and then one to five attempts: the floor at zero never bites and the SQL delay is the Go backoff |
| `NotificationTheorems.SqlDelayIsBackoff` | internal/app/notification_config.go:1326-1334 | The delay in SQL and the Go helper agree exactly from the first attempt on |
| `NotificationTheorems.FinalIsFinal` | internal/app/background.go:264-269 | A sent or logged row is never changed again, over every run |
| `NotificationTheorems.LastAttemptOutcomes` | internal/app/background.go:44-46 | A row sending at attempt five stays so, fails, is cancelled, or is finished by its own claim holder |
| `NotificationTheorems.LeaseProtects` | internal/app/background.go:79-82 | Within two minutes of the claim nobody else takes the row over |
| `NotificationTheorems.RequeuedRowIsDue` | internal/app/notifications_admin.go:59-66 | A requeued row can be claimed at once and has its full budget |
| `NotificationTheorems.ClaimsWithinBudget` | internal/app/background.go:73-89 | Without insert, requeue or refresh the queue makes at most the sum of five minus attempts further claims |
| `NotificationRetries.NotTriedEarly` | internal/app/background.go:73-80 | A waiting message that is not reset is neither claimed nor sent by any run that ends before its time |
| `NotificationRetries.RefusalDelaysRetry` | internal/app/background.go:260-262 | A call refused after k attempts is not repeated for 5k minutes in any run, unless the message is reset |
| `NotificationRetries.GivingUpDelaysRetry` | internal/app/background.go:287-289 | Neither is a message that was given up without a call |
| `NotificationRetries.MessageIsNotEarly` | internal/app/notification_config.go:998-1005 | A message is not sent before its offset from the start of the visit, or from the event, in any run |
| `NotificationRetries.DueIsClaimable` | internal/app/background.go:72-80 | When its time has come, a message that is free and allowed can be claimed, exactly until its fifth attempt |
| `NotificationConfig.ConfigurationStaysConsistent` | internal/app/notification_config.go:504-572 | In every reachable state rules refer to existing APIs of their channel, enabled rules to enabled idempotent ones, and a disabled or deleted API has no pending message |
| `NotificationConfig.UpdateApiKeepsConfig` | internal/app/notification_config.go:491-580 | An API update keeps that, refusing a channel change in use and disabling rules and cancelling messages with the API |
| `NotificationConfig.DeleteApiKeepsConfig` | internal/app/notification_config.go:582-622 | A delete keeps that, refusing while rules or pending messages refer to the API |
| `NotificationConfig.UpdateRuleKeepsConfig` | internal/app/notification_config.go:647-812 | A rule update keeps that in all its branches |
| `NotificationConfig.HandlerKeepsConfig` | internal/app/notification_config.go:1099-1177 | Enqueue, refresh, requeue and cancellations keep that |
| `NotificationConfig.CallsGoThroughEnabledApis` | internal/app/background.go:73-82 | Every provider call in flight goes through an enabled API that sends an idempotency variable |
| `NotificationRules.DisablingServes` | internal/app/notification_config.go:553-572 | Disabling an API keeps every pending message under an enabled rule if and only if no pending message of a rule of that API carries another API |
| `NotificationRules.ServedExactlyWhen` | internal/app/notification_config.go:504-572 | No other transaction ever leaves a pending message under a missing or disabled rule |
| `NotificationTheorems.UnservedIsNotClaimed` | internal/app/background.go:77-78 | A message whose rule is disabled is not claimed by any step, whatever API it carries |
| `NotificationRules.AlignedExactlyWhen` | internal/app/notifications_admin.go:62-66 | Every pending message carries the API its rule has now, until a requeue takes up a message whose rule has moved, and only then |
| `NotificationRules.UpdateRuleAligns` | internal/app/notification_config.go:752-804 | A rule that moves takes its pending messages along or cancels them |
| `NotificationRules.EveryMessageIsServed` | internal/app/notifications_admin.go:62-66 | In every run without such a requeue, every pending message is under an enabled rule and its API |
| `NotificationRules.PendingMessageOfDisabledRule` | internal/app/notifications_admin.go:62-66 | A run with such a requeue reaches a queued message of a disabled rule |
| `NotificationStore.FirstDue` | internal/app/background.go:72-86 | The claim query finds a claimable row with the earliest time, or none exists |
| `NotificationEffects.ClaimableMeans` | internal/app/background.go:72-84 | Which rows the claim query finds: free, under five attempts, API and rule enabled, and due or with their lease over |
| `NotificationEffects.ClaimEffect` | internal/app/background.go:86-89 | The columns a claim writes |
| `NotificationEffects.TimeEffect` | internal/app/background.go:80-81 | Time passes, and nothing else with it |
| `NotificationStore.Store.ClaimNotification` | internal/app/background.go:70-94 | Takes the first due row under a fresh token with one more attempt, or reports that nothing is due |
| `NotificationStore.Store.DispatchClaimedNotification` | internal/app/background.go:232-285 | Calls the provider exactly when the claim is still the worker's and the row can be locked; otherwise no row changes |
| `NotificationTick.DeliveryOutcome` | internal/app/background.go:246-284 | A delivery leaves one call and its result on its own row: sent, failed with five minutes of delay per attempt, or still claimed; nothing else anywhere, and nothing at all when the claim was lost |
| `NotificationEffects.CommitEffect` | internal/app/background.go:257-284 | The columns a recorded result writes, for an owned and for a lost claim |
| `NotificationStore.Store.RecordResult` | internal/app/background.go:257-284 | The result and, when refused, the delay are written exactly when the claim is still the worker's |
| `NotificationStore.Store.SettleClaim` | internal/app/background.go:287-308 | A claimed row is failed with its delay, cancelled with its attempt given back, or logged, exactly when the claim is still the worker's |
| `NotificationEffects.SettleEffect` | internal/app/background.go:287-308 | The columns each of the three writes |
| `NotificationStore.Store.ProcessNotifications` | internal/app/background.go:43-64 | One tick expires abandoned claims, then at most twenty times claims the first due row and right away delivers or settles it; it takes no message twice, leaves no unlocked abandoned claim, and stops early only when nothing is due |
| `NotificationEffects.ExpireEffect` | internal/app/background.go:44-46 | Exactly the rows sending for the fifth time with their lease over fail, and nothing else changes, unless one of them is locked |
| `NotificationTick.OutcomeRests` | internal/app/background.go:96-285 | Whatever a claim comes to, its message is not due again at that moment and no other row has changed |
| `NotificationTick.OneMoreRests` | internal/app/background.go:51-63 | So one more claim of a tick takes a message the tick has not taken, and abandons none |
| `NotificationStore.Store.CancelNotification` | internal/app/notifications_admin.go:137-150 | An administrator cancels exactly queued and failed rows |
| `NotificationEffects.AdminCancelEffect` | internal/app/notifications_admin.go:137-150 | That row is cancelled with its attempts kept, and no other row changes |
| `NotificationStore.Store.RetryNotification` | internal/app/notifications_admin.go:89-103 | A row is requeued exactly when failed or cancelled with its API and rule enabled |
| `NotificationEffects.RequeueEffect` | internal/app/notifications_admin.go:62-66 | Exactly those of the list are queued, due now, with no attempt used and no claim |
| `NotificationStore.Store.RetryFailedNotifications` | internal/app/notifications_admin.go:105-135 | Requeues what may be requeued among the oldest failed rows and reports how many were selected and how many requeued |
| `NotificationStore.OldestIsComplete` | internal/app/notifications_admin.go:107 | No failed row is left out of the selection unless it holds five hundred |
| `NotificationStore.Store.CancelPendingVisitNotifications` | internal/app/notification_config.go:1045-1050 | Exactly the pending messages of the visit are cancelled; it waits exactly while one is being delivered |
| `NotificationEffects.VisitCancelEffects` | internal/app/visits_ops.go:48-52 | Cancelling a visit and cancelling a participant cancel exactly their own pending messages |
| `NotificationEffects.ReconfirmEffects` | internal/app/visits.go:1186-1191 | A new QR cancels exactly the confirmations it replaces |
| `NotificationStore.Store.QueueNotificationEvent` | internal/app/notification_config.go:923-1011 | Host mail, and one message per enabled rule of the event in the visitor's language or in any whose recipient has an address, due at its time but not in the past; nothing else |
| `NotificationStore.FireRules` | internal/app/notification_config.go:937-1010 | The loop over the rules is a run of inserts, one for each rule that fires and none for the others |
| `NotificationEffects.InsertForRuleEffect` | internal/app/notification_config.go:984-1005 | The columns of a new message: the rule's channel and API, the event's visit and participant, due the offset after the start or the event, but not in the past |
| `NotificationStore.QueueHostMail` | internal/app/mail.go:379-408 | One mail row per recipient, without rule or API, due at once |
| `NotificationEffects.InsertPlainEffect` | internal/app/mail.go:397-406 | The columns of a message without rule and API |
| `NotificationStore.RefreshOutcome` | internal/app/notification_config.go:1108-1177 | A refreshed message stays queued exactly when rule, participant, API and recipient are all still there; otherwise it is cancelled |
| `NotificationEffects.RefreshEffects` | internal/app/notification_config.go:1072-1182 | Exactly the waiting visit_start messages of the visit, or of one participant, are rebuilt for the start of the visit with no attempt used, or cancelled |
| `NotificationStore.RefreshItems` | internal/app/notification_config.go:1072-1182 | The loop refreshes exactly the selected messages |
| `NotificationStore.Store.UpdateNotificationApi` | internal/app/notification_config.go:491-580 | When it refuses, and that it changes nothing then |
| `NotificationEffects.UpdateApiEffect` | internal/app/notification_config.go:545-572 | A disabled API is left with no enabled rule and no pending message, an enabled one changes neither; every other rule and message is untouched |
| `NotificationStore.Store.DeleteNotificationApi` | internal/app/notification_config.go:582-622 | Refused while referenced, and then nothing changes |
| `NotificationEffects.DeleteApiEffect` | internal/app/notification_config.go:597-610 | Afterwards no message refers to the API, and nothing else has changed |
| `NotificationStore.Store.CreateNotificationRule` | internal/app/notification_config.go:667-704 | Created exactly when its API exists, fits and may be used |
| `NotificationEffects.CreateEffects` | internal/app/notification_config.go:667-704 | A new rule or API is stored as given |
| `NotificationEffects.ConfigGuardsMean` | internal/app/notification_config.go:647-665 | Which APIs and rules are acceptable, when a change of channel clashes, and what refers to an API |
| `NotificationStore.Store.UpdateNotificationRule` | internal/app/notification_config.go:706-812 | Refused exactly when missing, unacceptable or waiting for a delivery, and then nothing changes |
| `NotificationEffects.UpdateRuleEffect` | internal/app/notification_config.go:741-804 | What becomes of each message: untouched, cancelled, or taken back and rebuilt |
| `NotificationEffects.RebuildEffect` | internal/app/notification_config.go:760-790 | A visit_start rule that stays one has every pending message taken back from its worker and rebuilt, or cancelled where it cannot be delivered any more |
| `NotificationStore.Store.DeleteNotificationRule` | internal/app/notification_config.go:814-845 | Refused exactly when missing or waiting for a delivery, and then nothing changes |
| `NotificationEffects.DeleteRuleEffect` | internal/app/notification_config.go:828-838 | No message refers to the rule, what was pending of it is cancelled, other messages are untouched |
| `VisitInvariants.StepKeepsInv` | internal/app/visits.go:875-1650 | Every transaction keeps the invariant between visit status, participant statuses and tokens |
| `VisitInvariants.CheckInKeepsInv` | internal/app/visits.go:1532-1600 | A scan keeps it |
| `VisitInvariants.AggregateFits` | internal/app/visits.go:1626-1630 | The CASE expression after a check-out gives exactly the status that fits the participants |
| `VisitInvariants.CancelParticipantKeepsInv` | internal/app/visits_ops.go:16-87 | Cancelling one participant, with or without the visit, keeps it |
| `VisitInvariants.ApproveKeepsInv` | internal/app/visits.go:1024-1124 | Approval, which schedules everyone and issues a QR to each, keeps it |
| `VisitInvariants.ReissueKeepsInv` | internal/app/visits.go:1139-1200 | Reissue revokes, numbers the next version and keeps exactly one live QR |
| `VisitTheorems.StatusTellsParticipants` | internal/app/visits.go:942-956 | In every reachable state: CHECKED_IN exactly when some participant is; pending, cancelled, rejected, checked-out and no-show visits restrict their participants and tokens as stated |
| `VisitTheorems.OneLiveQr` | internal/app/visits.go:1173-1184 | Tokens form one chain with versions 1 to n, only version n can be live, one is live while scheduled or inside, none once cancelled |
| `VisitTheorems.GoneIsForever` | internal/app/visits.go:1126-1133 | A checked-out or rejected participant never changes status again |
| `VisitTheorems.LogAccountsForEveryStatus` | internal/app/visits.go:576-625 | Replaying the event log from the opening status gives every participant's present status, in every reachable state |
| `VisitTheorems.MaintenanceAccounted` | internal/app/background.go:315-320 | No-show marking and automatic check-out keep the log complete |
| `VisitTheorems.NobodyEntersTwice` | internal/app/visits.go:1564-1581 | With single use on throughout, every participant has at most one CHECKED_IN event over every run: scan, manual or walk-in |
| `VisitTheorems.ScanNeedsExpected` | internal/app/visits.go:1560-1571 | With single use on, only a participant who is still expected passes a scan |
| `VisitTheorems.WindowsAlwaysFollow` | internal/app/visits.go:750-765 | With fixed settings in range every live QR is valid from early minutes before the visit to late minutes after it |
| `VisitTheorems.ManualEqualsScan` | internal/app/visits_ops.go:186-196 | Manual check-in is allowed at exactly the moments the visitor's own QR would be accepted |
| `VisitTheorems.ManualAgreesIffInRange` | internal/app/visits_ops.go:190-196 | Right after a reissue the two agree about every moment if and only if both settings are in range |
| `VisitTheorems.NoShowMeansExpired` | internal/app/background.go:310-318 | Maintenance marks an expected visitor absent exactly when that visitor's QR has expired |
| `VisitExceptions.CancelledUntilDecided` | internal/app/visits.go:1063 | A cancelled participant changes status if and only if the visit awaits approval and is decided: scheduled by an approval, rejected by a rejection |
| `VisitExceptions.CancelledIsForever` | internal/app/visits.go:1043-1064 | Once the visit is decided, a cancellation is final over every run |
| `VisitExceptions.LastLeaverCancels` | internal/app/visits_ops.go:14-77 | Cancelling the last open participant cancels the visit if and only if everybody else was cancelled; otherwise it stays SCHEDULED with nobody open |
| `VisitExceptions.StrandedExactlyWhen` | internal/app/visits_ops.go:66-77 | Exactly which transactions, in which states, leave a visit SCHEDULED with nobody open |
| `VisitExceptions.TickStrands` | internal/app/background.go:315-324 | One maintenance tick does so exactly for a visit past its grace in which somebody was cancelled or checked out |
| `VisitExceptions.StrandedStays` | internal/app/background.go:324 | Over every run without cancelling the visit, it stays so |
| `VisitStore.CheckRequest` | internal/app/visits.go:436-548 | Which requests are accepted, the first refusal in the order of the checks, and the number of visits |
| `VisitStore.AcceptedIsOk` | internal/app/visits.go:436-548 | Every occurrence of an accepted request is one that the results about visits apply to |
| `VisitStore.Store.CreateVisitRecord` | internal/app/visits.go:436-640 | One new visit per occurrence, enrolled in its series, and every other visit as it was; or nothing |
| `VisitStore.SeriesCreates` | internal/app/visits.go:551-632 | With new and distinct ids each occurrence starts as its own request, nothing is overwritten and nothing else appears |
| `VisitEffects.OpenEffect` | internal/app/visits.go:551-632 | Who is in a new visit and how, with which QR, and what its log says: walk-in, to be approved, or expected |
| `VisitStore.EnrolledConsists` | internal/app/visits.go:560-563 | A new series consists of exactly its occurrences, and every other series is as it was |
| `VisitStore.SeriesAt` | internal/app/visits.go:569-573 | Occurrence k starts as its own request k weeks later |
| `VisitStore.SeriesKeeps` | internal/app/visits.go:569-632 | Creating a series leaves every other visit alone |
| `VisitStore.Store.CheckInByQr` | internal/app/visits.go:1532-1600 | Accepted exactly when the scan passes, and then only that participant has entered, on that token; a refused reuse would have passed without single use |
| `VisitEffects.ScanMeans` | internal/app/visits.go:1562-1571 | Which token lets which participant in: valid now, not revoked, not used twice, in a visit and for a participant that are not over |
| `VisitEffects.CheckInEffect` | internal/app/visits.go:1576-1585 | That participant is inside and logged, that token used, an open visit CHECKED_IN, and nothing else changed |
| `VisitStore.Store.CheckInByHand` | internal/app/visits_ops.go:148-226 | Accepted exactly when expected and inside the window, and then only that participant has entered and no live token is left unused |
| `VisitEffects.ManualMeans` | internal/app/visits_ops.go:186-196 | Somebody expected, in a visit that is on, within the window as set |
| `VisitEffects.ManualCheckInEffect` | internal/app/visits_ops.go:197-213 | That participant is inside and logged, their valid tokens used, an open visit CHECKED_IN, and nothing else changed |
| `VisitStore.Store.CheckOutVisitor` | internal/app/visits.go:1602-1650 | Check-out exactly of somebody inside, logged, with the status recomputed |
| `VisitEffects.CheckOutEffect` | internal/app/visits.go:1619-1630 | That participant has left, nobody else changed, and the visit is open as long as somebody is inside or expected |
| `VisitStore.Store.CancelOneParticipant` | internal/app/visits_ops.go:16-87 | Cancels one participant, and the visit exactly when the remaining count is zero |
| `VisitEffects.CancelParticipantEffect` | internal/app/visits_ops.go:36-77 | One participant is cancelled with their QR revoked; if everybody else was cancelled or rejected, the whole visit is |
| `VisitStore.Store.CancelSeries` | internal/app/visits_ops.go:89-143 | Cancels exactly this and every later occurrence of the series that can be cancelled, counts them, and refuses with nothing changed when there is none |
| `VisitStore.LaterOnesFollow` | internal/app/visits_ops.go:102 | In a series as created these are the occurrences from the chosen one on |
| `VisitStore.Store.ApprovalAction` | internal/app/visits.go:1024-1124 | Approval or rejection of a pending visit; the loop issues one QR per participant |
| `VisitEffects.DecisionEffects` | internal/app/visits.go:1043-1102 | Everybody is scheduled with one more QR, or everybody is rejected |
| `VisitStore.Store.ReissueQr` | internal/app/visits.go:1139-1200 | Reissued exactly when reissuable |
| `VisitEffects.ReissueEffect` | internal/app/visits.go:1173-1184 | Every older QR is revoked and one more is valid, with the next version, the window of the visit and a link to the one it replaces |
| `VisitStore.Store.UpdateVisit` | internal/app/visits.go:875-935 | Rescheduling, guarded by a status read earlier |
| `VisitEffects.RegisterEffect` | internal/app/registration.go:345 | Self-registration leaves one event and changes nothing else |
| `VisitEffects.RescheduleEffect` | internal/app/visits.go:908-918 | The visit has the new schedule, every valid QR runs from early minutes before it to late minutes after it, and nothing else has changed |
| `VisitStore.Store.RunVisitMaintenance` | internal/app/background.go:310-325 | Both maintenance updates, in every visit |
| `VisitEffects.TickEffect` | internal/app/background.go:315-324 | Exactly those still expected past the grace are absent, with one event each in order; a SCHEDULED visit with everybody absent is a NO_SHOW; nothing else changes |
| `VisitStore.CheckedOutVisitIds` | internal/app/background.go:470-480 | The distinct visits of the list, all of them and no other |
| `VisitStore.SweepVisits` | internal/app/background.go:418-468 | Ending, logging and recomputing step by step amounts to the automatic check-out of every visit |
| `VisitEffects.AutoCheckOutEffect` | internal/app/background.go:425-459 | Exactly those inside past their site's hour have left, with one event each in order; the status is recomputed exactly where somebody left; nothing else changes |
| `VisitStore.ListedIfSwept` | internal/app/background.go:452-459 | A visit is recomputed exactly when somebody was swept out of it |
| `Templates.ParseUnparse` | internal/app/notification_config.go:25 | Cutting a template at its placeholders loses nothing |
| `Templates.ValidateMeans` | internal/app/notification_config.go:298-310 | A template is refused for an unknown name first, then for a double brace outside its placeholders, and accepted otherwise |
| `Templates.ReplaceIsSubstitute` | internal/app/visits.go:781-783 | On accepted text, replacing a placeholder in the string is filling that slot |
| `Templates.AnyOrderIsOnePass` | internal/app/visits.go:780-785 | For every accepted template with all values present and brace-free, sequential replacement in any order gives the one-pass text |
| `Templates.RenderTemplate` | internal/app/visits.go:780-785 | The loop over the map is replacement in some order of all keys, hence the one-pass text under those conditions |
| `Templates.BracesMakeOrderVisible` | internal/app/visits.go:780-785 | Two orders that give different texts when a value contains a placeholder |
| `Base64Url.RoundTrip` | internal/app/visits.go:262-270 | Every byte sequence is decoded back from its unpadded base64url text |
| `Base64Url.GroupsKeepBits` | internal/app/visits.go:262-270 | The bits of every group are those of its bytes in their order, filled up with zeros |
| `VisitCursor.TimeRoundTrip` | internal/app/visits.go:263 | Every timestamp with a four-digit year is read back from its RFC 3339 text, with the fraction trimmed |
| `VisitCursor.CalendarMeans` | internal/app/visits.go:272-283 | Months and leap years are those of the Gregorian calendar |
| `VisitCursor.InstantMeans` | internal/app/visits.go:272-283 | The times a cursor may hold are exactly those of calendar and clock up to the year 9999 |
| `VisitCursor.CursorRoundTrip` | internal/app/visits.go:262-283 | A cursor leads back to its start and id exactly when the id is not empty |
| `VisitPaging.RowComparison` | internal/app/visits.go:349-351 | Keys compare like the SQL row: first the start by its calendar fields, then the id |
| `VisitPaging.OrderIsTotal` | internal/app/visits.go:349-351 | The row comparison on start and id is a strict total order |
| `VisitPaging.QueryVisits` | internal/app/visits.go:354-381 | The collected page is cut to the limit and a cursor is given exactly when there was an extra row |
| `VisitPaging.ExtraRow` | internal/app/visits.go:316-318 | One extra row is enough to know whether there are more |
| `VisitPaging.PageSplits` | internal/app/visits.go:349-381 | A page is ordered, behind its cursor, and what it leaves out is behind the next cursor |
| `VisitPaging.WalkDescends` | internal/app/visits.go:349-351 | Whatever happens to the visits between pages, the pages together are strictly descending |
| `VisitPaging.EveryStayingVisitOnce` | internal/app/visits.go:320-382 | A walk to the end shows every visit that matched all along with one schedule exactly once |
| `VisitPaging.WalkShowsOnlyMatches` | internal/app/visits.go:330-351 | Nothing is shown that did not match when its page was read |
| `VisitPaging.EveryWalkFinishes` | internal/app/visits.go:376-380 | Once the visits stop changing, the walk ends within a bounded number of pages |
| `Strings.ParsePrint` | internal/app/visits.go:1347 | Every 64-bit number is read back from its decimal text |
| `DynamicQr.SignedLinkRoundTrip` | internal/app/visits.go:1322-1332 | Token, timestamp and signature of a signed link are recovered exactly when the base is linkable |
| `DynamicQr.BareLinkRoundTrip` | internal/app/visits.go:1322-1332 | The token of an unsigned link is recovered exactly when the base is linkable |
| `DynamicQr.HostIsLinkable` | internal/app/visits.go:1367-1368 | A scheme and a host make a linkable base |
| `DynamicQr.SchemeNeedsLetter` | internal/app/visits.go:1322-1332 | Text that does not start with a letter has no scheme, and a colon in front is an error |
| `DynamicQr.ControlIsRefused` | internal/app/visits.go:1322-1332 | Text with a control character is taken for no link |
| `DynamicQr.AcceptedInAdjacentWindows` | internal/app/visits.go:1339-1357 | From printing to scanning, a dynamic link is accepted exactly while its window is next to the current one |
| `DynamicQr.GoodForOneDeadAfterTwo` | internal/app/visits.go:1351-1354 | For every period a link is accepted for one period and refused from two periods on |
| `DynamicQr.PeriodIsTight` | internal/app/visits.go:1351-1354 | Some link is refused one second after its period |
| `DynamicQr.TwoPeriodsAreTight` | internal/app/visits.go:1351-1354 | Some link is still accepted one second before two periods are over |
| `DynamicQr.StaticLinkAlwaysAccepted` | internal/app/visits.go:1378-1381 | A static link is accepted whatever the period and the time |
| `DynamicQr.SignatureBinds` | internal/app/visits.go:1355-1356 | With an injective digest a dynamic signature vouches for one token and one timestamp only |
| `DynamicQr.StaticSignatureBinds` | internal/app/visits.go:1378-1381 | With an injective digest a static signature vouches for one token only, and no dynamic one passes for it |
| `SecretMask.ValueIsSecret` | internal/app/notification_config.go:339-347 | The loop finds a secret key that names the value, with or without its section |
| `SecretMask.NamesMeans` | internal/app/notification_config.go:331-347 | A key is named by its name with the section in front, or by its name alone if that starts with no section |
| `SecretMask.MaskSecrets` | internal/app/notification_config.go:349-358 | Exactly the non-empty secret values are replaced by the mask |
| `SecretMask.MergeSecrets` | internal/app/notification_config.go:360-373 | Succeeds exactly when every masked value stands for a stored secret; those are restored, the others are the new ones; otherwise names an offending key |
| `SecretMask.WriteBackRestores` | internal/app/notification_config.go:349-373 | Writing a masked read back restores the stored values exactly when every stored mask literal belongs to a secret key |
| `SecretMask.CarriedSecretStaysHidden` | internal/app/notification_config.go:509-512 | A carried-over secret is masked again in the next read |
| `SecretMask.WritingRevealsNothing` | internal/app/notification_config.go:349-373 | Two stores that read the same answer a merge alike and read the same afterwards |
| `SecretMask.StoreIsMaskFree` | internal/app/notification_config.go:457-464 | No run of creations, updates and deletions stores the mask literal |
| `SecretMask.ReadThenWriteIsIdentity` | internal/app/notification_config.go:491-547 | In every reachable store, reading a configuration masked and writing it back changes nothing |
| `SecretMask.ApiStore.Create` | internal/app/notification_config.go:447-482 | Refuses the mask literal in either section and otherwise stores the input |
| `SecretMask.ApiStore.Update` | internal/app/notification_config.go:491-547 | Stores the merged values exactly when the merge and the input check succeed |
| `SecretMask.ApiStore.Show` | internal/app/notification_config.go:398-422 | Shows the masked values |
| `LoginThrottle.ThrottlePolicy` | internal/app/security.go:78-88 | The policy in force is always in range, and each setting is the configured one if that is in range |
| `LoginThrottle.ThrottleTable.LoginLock` | internal/app/security.go:91-105 | Positive exactly when some key is locked, at least a second, and as long as the longest lock |
| `LoginThrottle.ThrottleTable.RecordLoginFailure` | internal/app/security.go:112-132 | One upsert per key in order |
| `LoginThrottle.ThrottleTable.LocalLogin` | internal/app/auth.go:52-95 | Reads the lock, compares only when no key is locked, then records or clears |
| `LoginThrottle.AttemptEffect` | internal/app/security.go:112-141 | A failure is counted for each of its keys, from one again after a quiet lockout, and locks at the threshold; a success forgets its keys; no other row changes |
| `LoginThrottle.RecordPerKey` | internal/app/auth.go:101-107 | The two keys of an attempt differ, so each is recorded once and no other row changes |
| `LoginThrottle.AtMostMaxAttempts` | internal/app/security.go:78-132 | Without a success, every half-open interval of lockout length holds at most the configured comparisons per account (two when one is configured) and ten times that per address, wherever the nightly deletion falls |
| `LoginThrottle.BoundIsReached` | internal/app/security.go:112-132 | A burst of guesses at an account is compared exactly up to that bound |
| `LoginThrottle.AddressBoundIsReached` | internal/app/security.go:110-118 | Guesses at many accounts from one address are compared exactly up to ten times the limit |
| `LoginThrottle.CleanupChangesNothing` | internal/app/background.go:332 | With two or more attempts allowed, the nightly deletion changes no decision of any run |
| `LoginThrottle.OneAttemptMakesCleanupVisible` | internal/app/background.go:332 | With one attempt allowed it lets one more password be compared |
| `RateLimiter.Limiter.Allow` | internal/app/security.go:162-178 | Consumes one request of the current window and admits it while the count is below the limit |
| `RateLimiter.Limiter.Cleanup` | internal/app/security.go:180-188 | Deletes exactly the windows that are over |
| `RateLimiter.AdmittedWhileRoom` | internal/app/security.go:162-178 | A request is admitted exactly when fewer than limit were admitted in its window before it |
| `RateLimiter.AtMostLimitPerWindow` | internal/app/security.go:142-178 | No window admits more than limit requests of a key |
| `RateLimiter.AtMostTwiceTheLimit` | internal/app/security.go:162-178 | Any closed interval as long as a window admits at most twice the limit less one |
| `RateLimiter.TwiceTheLimitIsTight` | internal/app/security.go:162-178 | For every limit and every window a run that reaches that bound |
| `RateLimiter.ExceedsUnlessOne` | internal/app/security.go:162-178 | Some interval as long as a window admits more than the limit if and only if the limit is at least two |
| `RateLimiter.CleanupChangesNothing` | internal/app/security.go:180-188 | Cleaning up anywhere in a run changes no later decision |
| `ScriptNonce.IndexFold` | internal/app/tracking.go:326-352 | The least position of the needle ignoring ASCII case, or -1 exactly when there is none |
| `ScriptNonce.FoldMeans` | internal/app/tracking.go:354-359 | Exactly the capital letters are folded, each to its small one |
| `ScriptNonce.WithScriptNonce` | internal/app/tracking.go:300-324 | The escaped attribute is added behind exactly the script names whose tag has no nonce |
| `ScriptNonce.EscapeMeans` | internal/app/tracking.go:319 | A quote becomes the reference to its own character code, the other three characters their names, and everything else stays |
| `ScriptNonce.AddAttribute` | internal/app/tracking.go:304-323 | The loop weaves the attribute in, name by name |
| `ScriptNonce.OnlyInserts` | internal/app/tracking.go:300-324 | Erasing the additions gives the snippet back, and every addition is the attribute |
| `ScriptNonce.NameSurvives` | internal/app/tracking.go:310-318 | Every script tag of the snippet is still one |
| `ScriptNonce.NameIsOld` | internal/app/tracking.go:310-323 | No other script tag appears |
| `ScriptNonce.EveryTagHasNonce` | internal/app/tracking.go:300-301 | Afterwards every script tag carries a nonce |
| `ScriptNonce.SecondPassAddsNothing` | internal/app/tracking.go:302-324 | A second pass, with any nonce, changes nothing |
| `TrackingSnippet.SnippetOrigins` | internal/app/tracking.go:245-272 | Terminates; the origins are distinct, not empty, complete, and in the order in which the scan first names them |
| `TrackingSnippet.AddressStarts` | internal/app/tracking.go:274-282 | An address starts with a letter that is no boundary, so scanning moves forward |
| `TrackingSnippet.InjectTrackingSnippet` | internal/app/tracking.go:361-378 | Placed exactly when the snippet is not blank and the document has a closing tag, in front of the first preferred one |

## Left out

- Database failures in the middle of a handler: they roll the transaction back, which leaves the state as it was. A lost database session while a call is in flight is the crash step.
- Interleavings finer than a transaction for handlers other than the delivery worker: each handler transaction is one step, and one that would wait for a row under delivery runs later.
- That visit transactions see each other's work is an assumption. The code does not always lock what it reads: a check-out aggregates the participants without locking the visit first (internal/app/visits.go:1622-1630), so two check-outs at once may leave a visit CHECKED_IN with nobody inside, and a reissue reads the visit unlocked (internal/app/visits.go:1156). Such runs are not in the model.
- Which of its branches a worker takes for a claimed row (decryption, SMTP switched off, log mode): any branch may be taken at any time.
- Message bodies, recipients and metadata, and how a provider request is built or its answer read.
- The text fields of a rule (audience, templates, subject, locale) are one comparable value.
- NotificationStore.Store.QueueNotificationEvent: which rules are in the visitor's language, whose recipient has an address, and who wants host mail are given, as they come from fields of people that are not modelled.
- NotificationStore.Store.RetryFailedNotifications: selecting and requeueing are one step here and two statements in the code; a row that changes in between is guarded by the requeue itself.
- Templates.AnyOrderIsOnePass: brace-free values are enough for every template but not needed for each; a brace does harm only where it meets other text and spells a placeholder, which depends on all values and the template together.
- `created_at` as a second sort key of the claim query: among rows due at the same time any may be first.
- Row by row execution inside one SQL statement: a statement over many rows is one assignment to the map of rows.
- Roles, departments, delegation and site scope: a step stands for an actor who may take it.
- Visitor data, consent, watch list, visit types, registration invitations and the statistics and exports built on visits.
- Rows are created with the columns the schema defaults to: queued, no attempts, no claim (internal/database/migrations/0005_baseline.sql:242-251).
- The weekly shift of a series is seven times 24 hours, as it is for times with a fixed offset; a zone with daylight saving is not modelled.
- The order in which the automatic check-out returns participants: within a visit it is their order in the visit.
- Resending a visit's messages picks the latest live token and queues messages; it changes no status and is not modelled.
- Approval escalation sets a flag of its own and queues one message.
- The cursor parser accepts times with another offset, a comma before the fraction and hours of one digit; the model reads only what the encoder writes, so a foreign cursor may be read by the service and not by the model.
- Ids are compared byte by byte; a database collation may order them otherwise.
- Percent-encoding in scanned links, and which authorities Go's URL parser accepts: the latter is a parameter of the model.
- Digests are arbitrary functions; where a result needs it, injectivity is a hypothesis. Token randomness and encryption are not modelled.
- TrackingSnippet.SnippetOrigins: reading an origin out of one address is Go's URL parser and a parameter here.
- The input check of an API configuration, apart from the mask literal, is a parameter in `SecretMask`; secret keys are taken as normalised.
- User names are taken as trimmed and in lower case; the pause after a failed login is not modelled. Resetting an account's row from the administration counts as a success.
- Page policy headers, the violation report and the provider-specific snippets around pasted tracking code.
