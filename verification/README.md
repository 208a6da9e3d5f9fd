# Phone-farm backend: a verified model

The backend rents out phones that sit in numbered slots of a farm. A customer watches a phone
through a live stream, sends text messages through it, uploads an eSIM QR code to it, and shares
the phone with background services that provision, reroute and reboot it. This project models the
stateful cores of that backend and proves what they promise over whole runs.

Objects that the program updates in place are classes with contracts on their whole new state.
Concurrency is modelled as step systems: a step is one section under the program's lock, a lock
acquisition, or an effect outside it, and a theorem about runs covers every interleaving. Where a
promise is not kept, a lemma gives the run that breaks it and a theorem says exactly when it holds.

| file | what it covers |
|---|---|
| `Basics.dfy` | optional values, rounding, sizes of finite sets, searching in strings and bytes |
| `StreamQueueModel.dfy`, `StreamQueueSteps.dfy`, `StreamQueueRuns.dfy`, `StreamQueueOperations.dfy`, `CustomerStreamQueue.dfy` | the live-stream lease table and wait queue: transition function, one step, whole runs, what each operation does to each rental, the object |
| `StreamBandwidth.dfy` | busy flags and the snapshot intervals derived from them |
| `SmsOutbox.dfy`, `SmsDispatch.dfy` | the Farm's outbox with its durable store; guards, retries, delivery tracking and resume |
| `SmsProtocol.dfy`, `SmsProtocolLimits.dfy`, `SmsProviderIds.dfy` | VPS-to-Farm sending as a step system; exactly which guarantee each arrangement gives; the provider ids of the durable rows |
| `SlotSms.dfy` | key encoding, racing enqueues and the dispatch loop on the VPS |
| `SlotCoordinator.dfy`, `HealthRecovery.dfy` | slot locks, semaphore and reboot gate; failure counters, cooldown and the dry run |
| `StreamWarmup.dfy` | ownership of streams opened ahead of the viewer |
| `Multipart.dfy` | the multipart QR parser against the standard printer |
| `RemoteSessions.dfy` | remote-access sessions per slot |
| `ScreenGuidance.dfy` | the coalescing screen-state cache |
| `TokenCache.dfy` | the bounded cache of verified access tokens |
| `BootSettle.dfy` | waiting for a phone to be back after a reboot |
| `JobWorker.dfy`, `JobOutcomes.dfy`, `JobClaims.dfy` | the persistent job worker; how jobs end; jobs sent with and without a claim on their slot |

## Where the code falls short of a promise

- The quoted wait bounds the real one exactly for positions no greater than the number of active
  leases (`WaitEstimateExact`). For those, all quotes are kept exactly when the TTL is a whole number
  of seconds or at most 15 (`QuotesHoldExactly`, `FractionalTtlUndershoots`). The default TTL is whole.
- At-most-once sending holds on every run exactly when all requests share one outbox object
  (`AtMostOnceExactlyWhenShared`). `mobi_rent_agent/application/farm_sms_command.py:91` builds a
  service, and so a copy of the table, per request. There a delivery is safe exactly when its key is
  durable already or no other request is about to reserve it (`ArrivalIsSafeExactly`); otherwise both
  can send (`OverlapSendsTwice`), and the later reservation can wipe out the provider id of a message
  already accepted (`ProviderIdsKeptExactly`, with the same guard). On the other hand, if store writes can fail, an "ok" names a durable
  key on every run exactly when services are rebuilt (`AcksDurableExactlyWhenRebuilt`).
- With a shared outbox, a request that finds its key only at the reservation is told "failed" although
  the message may have gone out, where the lookup before it would have said "accepted". It happens
  exactly when another request reserves the key after this one's second lookup, and never in the
  rebuilt arrangement (`RefusedAtReserveExactly`, `RaceFromTheStart`). The cause is the wording of the
  exception, which lacks the mark the Farm command looks for (`RaceReplyIsNoDuplicate`).
- The health service's dry run suppresses exactly where a live run reboots, if and only if every
  suppression finds both locks free and a working reboot, and no check of a spell at the threshold falls
  between the cooldown's end counted from the suppression and counted from the reboot's return
  (`DryRunMirrorsExactly`). With free locks, a slow reboot alone tells them apart (`SlowRebootDiverges`).
- A stream whose status is not a number, or whose content call raises, is never closed
  (`AccountedExactly`, `ContentCallLeaks`). A waiting viewer's event is never set exactly when another
  viewer's take drops it before anybody was to set it (`WakeUpLostExactly`, `OtherTakeLosesWakeUp`).
- The QR payload comes back exactly when the delimiter occurs nowhere in it. Section 5.1.1 of RFC 2046
  forbids it only at the start of a line (`RoundTripExactly`, `LegalPayloadIsCut`).
- A session created after its rental's end, because the slot lock was busy since the authorisation,
  runs a minute past it unless the platform's grant ends sooner (`ExpiryExact`, `OutlivesExactly`).
- An answer from the screen cache is younger than 0.4 s, but a poll that skips the probe may answer
  from a line of any age (`SkippedProbe`).
- A cached token can be served at or after its own expiry claim exactly when it was inserted, by a
  verifier's answer or a fallback, less than 300 s before that claim (`ServedBeforeClaimExactly`).
  A logged-out token stays out until a verifier accepts it again exactly when, at the logout, no
  validation under way is past the verifiers with it or holds an active record of it to fall back on
  (`LoggedOutExactly`, `FallbackUndoesLogout`).
- A job is sent at most once on every run exactly when the work on each job is serialised
  (`OnceExactlyWhenSerial`); the worker loop and the thread started on enqueue are not. There a start on
  a pending job is safe exactly when no other thread has fetched it (`BeginIsSafeExactly`).
- A finished job of known outcome keeps its slot claim exactly when its thread died between storing
  the result and the release, the claim came after the release, or there is no Farm (`ClaimIsFreed`,
  `CrashStrandsClaim`, `LateClaimStrandsClaim`), and then for good (`StrandedForGood`).
- A request that is refused its slot leaves its stored job to the worker, which sends it although the
  slot is another job's (`RefusedJobIsSent`). An assignment can go out without a granted claim exactly
  when a thread starts on it before the claim was granted (`SentBareExactly`).

## Model

| member | source | states |
|---|---|---|
| `StreamQueueSteps.StepKeepsValid` | mobi_rent_agent/application/customer_stream_queue.py:74-163 | every operation keeps: leases within the cap and keyed by rental, queue without repeats and disjoint from leases, somebody waits only while the table is full, busy flag and callback trace in step |
| `StreamQueueSteps.StepWithin` | mobi_rent_agent/application/customer_stream_queue.py:209-228 | no operation leaves a lease that runs past one TTL from now |
| `StreamQueueSteps.TermsAreKept` | mobi_rent_agent/application/customer_stream_queue.py:94-97 | an operation, heartbeats included, never changes the term of a lease; only the rental's own admission after its lease ran out starts a new one, of one TTL |
| `StreamQueueSteps.StepAdvances` | mobi_rent_agent/application/customer_stream_queue.py:91-122 | while a rental waits, one operation never lets anybody overtake it, and a prune after a deadline moves it up by at least the number of leases that ended by then |
| `StreamQueueSteps.LeavesByGrantOrRelease` | mobi_rent_agent/application/customer_stream_queue.py:136-144 | a rental leaves the queue only by being granted a lease or by its own release |
| `StreamQueueModel.FillIs` | mobi_rent_agent/application/customer_stream_queue.py:277-287 | the promotion loop pops exactly as many heads as there are free places and grants exactly those, in order, leaving all other leases alone |
| `StreamQueueRuns.RunKeepsValid` | mobi_rent_agent/application/customer_stream_queue.py:59-144 | the queue invariant over every run, and no lease ever outlives one TTL from the last event |
| `StreamQueueRuns.ReachableInvariant` | mobi_rent_agent/application/customer_stream_queue.py:289-296 | in every reachable state: cap, keys, disjointness, full table while waiting; the callback trace alternates, starts with true and ends at "some lease or admin slot exists" |
| `StreamQueueRuns.NobodyOvertakes` | mobi_rent_agent/application/customer_stream_queue.py:91-122 | over any run in which a rental keeps waiting its position never grows, and whoever is served or ahead of it afterwards was served or ahead of it before |
| `StreamQueueRuns.StopsWaitingByGrant` | mobi_rent_agent/application/customer_stream_queue.py:277-287 | a rental that stops waiting without a release was granted a lease on the way |
| `StreamQueueRuns.EstimateCoversPosition` | mobi_rent_agent/application/customer_stream_queue.py:250-258 | within the quoted wait at least as many leases run out as the quoted position |
| `StreamQueueRuns.WaitEstimateIsUpperBound` | mobi_rent_agent/application/customer_stream_queue.py:243-287 | told position p no greater than the active leases and wait s at now, no run that prunes at or after now+s leaves the rental waiting |
| `StreamQueueRuns.WaitEstimateExact` | mobi_rent_agent/application/customer_stream_queue.py:243-287 | the quote bounds every run if and only if the position is no greater than the number of active leases |
| `StreamQueueRuns.EveryQuoteExact` | mobi_rent_agent/application/customer_stream_queue.py:243-287 | the same for every quote given after any history from the empty queue |
| `StreamQueueRuns.EstimateIsKept` | mobi_rent_agent/application/customer_stream_queue.py:243-287 | within the quote a rental that is not released is granted a lease |
| `StreamQueueRuns.WaitEstimateUnique` | mobi_rent_agent/application/customer_stream_queue.py:250-257 | the quote depends on the state alone, not on the order the table is walked in |
| `StreamQueueRuns.FractionalTtlUndershoots` | mobi_rent_agent/application/customer_stream_queue.py:250-258 | for every capacity, a fractional TTL above 15 s has a reachable full table whose first waiting rental still waits after its quoted time and a prune |
| `StreamQueueRuns.QuotesHoldExactly` | mobi_rent_agent/application/customer_stream_queue.py:243-287 | over all histories, rentals and continuations no quote for a covered position is missed if and only if the TTL is whole or at most 15 s |
| `StreamQueueRuns.RoundsAdvance` | mobi_rent_agent/application/customer_stream_queue.py:267-287 | n prunes at least one TTL apart move a waiting rental up by n times the capacity |
| `StreamQueueRuns.NoStarvation` | mobi_rent_agent/application/customer_stream_queue.py:94-97 | position p is granted within ceil(p / capacity) such prunes, whatever heartbeats the holders send |
| `StreamQueueOperations.PruneExact` | mobi_rent_agent/application/customer_stream_queue.py:267-287 | a prune keeps a holder if and only if its term is not over and it was heard from within the idle limit; it grants a waiting rental, from its own entry, if and only if there is a place for it, and moves the others up by the places |
| `StreamQueueOperations.AdmitExact` | mobi_rent_agent/application/customer_stream_queue.py:91-122 | after the prune, an admission marks a holder as heard from and keeps its term, keeps a waiting rental's place and age, gives a newcomer a place exactly if it claims one and the room allows it, nothing if it claims none, and the end of the queue if the room is taken |
| `StreamQueueOperations.AdmitOthers` | mobi_rent_agent/application/customer_stream_queue.py:91-122 | what an admission leaves of every other rental is what a prune alone would |
| `StreamQueueOperations.ReleaseExact` | mobi_rent_agent/application/customer_stream_queue.py:136-144 | a release forgets its own rental, leaves every other lease alone, gives a freed place to the head of the queue, and moves up by one exactly those behind the one released |
| `StreamQueueOperations.SilentHolderLeaves` | mobi_rent_agent/application/customer_stream_queue.py:267-275 | over every run: a holder without admission or confirmation for the idle limit has no lease after the next operation that prunes |
| `StreamQueueOperations.AttendedHolderStays` | mobi_rent_agent/application/customer_stream_queue.py:93-97 | over every run: a holder that shows itself within the idle limit before every prune, and is not released, holds its lease to the end of its term |
| `StreamQueueOperations.QuoteIsLeast` | mobi_rent_agent/application/customer_stream_queue.py:250-258 | the quote is no longer than it must be: at any whole second from 15 before it, fewer leases have run out than the position calls for, and fewer than there are |
| `StreamQueueOperations.QuoteCovers` | mobi_rent_agent/application/customer_stream_queue.py:250-258 | within the quote as many leases run out as the position calls for, or all there are |
| `CustomerStreamQueues.CustomerStreamQueue.Admit` | mobi_rent_agent/application/customer_stream_queue.py:74-122 | one admission is one transition, and its answer is active, queued at the right place with an allowed quote and the least number of minutes covering it, or untracked |
| `CustomerStreamQueues.CustomerStreamQueue.RankLeases` | mobi_rent_agent/application/customer_stream_queue.py:250-252 | lists every lease once, in the order they run out |
| `CustomerStreamQueues.CustomerStreamQueue.EstimateWait` | mobi_rent_agent/application/customer_stream_queue.py:243-258 | the seconds quoted are the clamped remaining time of the lease at the quoted rank |
| `CustomerStreamQueues.CustomerStreamQueue.QueuedEntry` | mobi_rent_agent/application/customer_stream_queue.py:230-234 | finds the first entry of a rental, or none |
| `CustomerStreamQueues.CustomerStreamQueue.PruneTable` | mobi_rent_agent/application/customer_stream_queue.py:267-275 | drops exactly the leases whose term is over or whose holder was silent for the idle limit, then promotes |
| `CustomerStreamQueues.CustomerStreamQueue.PromoteWaiting` | mobi_rent_agent/application/customer_stream_queue.py:277-287 | the loop computes the promotion function, then publishes the flag |
| `CustomerStreamQueues.CustomerStreamQueue.PublishBusy` | mobi_rent_agent/application/customer_stream_queue.py:289-296 | calls back only on a change of the flag |
| `CustomerStreamQueues.CustomerStreamQueue.Release` | mobi_rent_agent/application/customer_stream_queue.py:136-144 | drops the rental's lease and queue entries, promotes, and hands back the dropped lease |
| `CustomerStreamQueues.CustomerStreamQueue.MarkPrepared` | mobi_rent_agent/application/customer_stream_queue.py:124-134 | one transition on the lease, no extension of its expiry |
| `CustomerStreamQueues.CustomerStreamQueue.MarkAdmin` | mobi_rent_agent/application/customer_stream_queue.py:146-153 | adds or removes the admin slot and publishes the flag |
| `CustomerStreamQueues.CustomerStreamQueue.HasBusyStreams` | mobi_rent_agent/application/customer_stream_queue.py:155-158 | prunes, then answers whether a lease or admin slot exists |
| `CustomerStreamQueues.CustomerStreamQueue.ActiveCount` | mobi_rent_agent/application/customer_stream_queue.py:165-168 | prunes, then counts the leases |
| `StreamBandwidth.Governor.ApplyIntervals` | mobi_rent_agent/application/stream_bandwidth.py:77-86 | afterwards every registered snapshot refreshes every 10 s exactly when a customer or administrator watches or some slot had input less than 60 s before, and every 4 s otherwise |
| `StreamBandwidth.Governor.RegisterSnapshot` | mobi_rent_agent/application/stream_bandwidth.py:21-27 | registers once, then applies the intervals |
| `StreamBandwidth.Governor.SetCustomerStreamsBusy` | mobi_rent_agent/application/stream_bandwidth.py:30-34 | sets the flag, and the intervals agree with it at once |
| `StreamBandwidth.Governor.SetAdminSlot` | mobi_rent_agent/application/stream_bandwidth.py:37-44 | the same for an admin slot |
| `StreamBandwidth.Governor.NoteSlotInput` | mobi_rent_agent/application/stream_bandwidth.py:47-51 | the same for customer input |
| `StreamBandwidth.Governor.Deliver` | mobi_rent_agent/application/stream_bandwidth.py:30-34 | after any callback trace the flag is its last value and the intervals agree |
| `StreamBandwidth.Governor.DeliveredFlagMatchesQueue` | mobi_rent_agent/application/stream_bandwidth.py:30-34 | over every run of the queue, a governor called back with every published value ends with its flag saying whether the queue has a lease or admin stream, and with the intervals applied |
| `SmsOutboxes.ApplyKeeps` | mobi_rent_agent/application/sms_outbox.py:34-66 | one operation, stored or not: the durable table only gains messages and never changes a message's identity or loses a provider id |
| `SmsOutboxes.DurableForever` | mobi_rent_agent/application/sms_outbox.py:28-66 | the same over every run with failing writes and restarts, with one in-memory copy of the table |
| `SmsOutboxes.ReloadIsIdentity` | mobi_rent_agent/application/sms_outbox.py:26-32 | while writes succeed, memory equals disk, so crash and reload is the identity |
| `SmsOutboxes.AgreementExact` | mobi_rent_agent/application/sms_outbox.py:84-135 | one operation keeps memory and disk equal if and only if its write was stored or changed nothing |
| `SmsOutboxes.SmsOutbox.constructor` | mobi_rent_agent/application/sms_outbox.py:27-32 | a restart reads back exactly the durable table |
| `SmsOutboxes.SmsOutbox.ReserveKey` | mobi_rent_agent/application/sms_outbox.py:34-66 | a known key is a duplicate and touches nothing; a new one is in memory as a pending record for the slot, job and redacted number, and durable exactly when the store accepted it |
| `SmsOutboxes.SmsOutbox.UpdateKey` | mobi_rent_agent/application/sms_outbox.py:84-135 | replaces what the update brings and keeps what it does not, in memory and on disk; tells an unknown key and a refused write apart from success |
| `SmsOutboxes.SmsOutbox.ListNonTerminal` | mobi_rent_agent/application/sms_outbox.py:76-82 | lists exactly once every message not yet delivered, failed or timed out |
| `SmsDispatch.SmsDispatchService.SubmitWithRetries` | mobi_rent_agent/application/sms_service.py:414-433 | at least one and at most max_attempts calls, on the slot's SIM; it calls again exactly after an error that begins as a transport error and nowhere mentions a timeout |
| `SmsDispatch.SmsDispatchService.SendForSlot` | mobi_rent_agent/application/sms_service.py:110-249 | the provider is called if and only if the key is new and durably reserved, no guard refuses, the slot has a device, the expected one if one is expected, the recipient is on the allowlist, sending is live and the slot lock is free; a known key changes nothing; a refused one is marked dry-run or blocked; an accepted message keeps its provider id and ends at the poller's verdict |
| `SmsDispatch.SmsDispatchService.RecordBlocked` | mobi_rent_agent/application/sms_service.py:305-335 | a refused new key is reserved durably and marked blocked |
| `SmsDispatch.SmsDispatchService.PollDelivery` | mobi_rent_agent/application/sms_service.py:337-412 | tracking writes only its own key, keeps its provider id, applies every poll in turn and stores the verdict's status |
| `SmsDispatch.SmsDispatchService.RecordAccepted` | mobi_rent_agent/application/sms_service.py:203-236 | an accepted message carries the provider id; success is reported exactly on a delivered verdict, or at once without a poller |
| `SmsDispatch.SmsDispatchService.RecordUnaccepted` | mobi_rent_agent/application/sms_service.py:237-249 | an unaccepted outcome is stored as unknown, submitted or failed by what the last call said |
| `SmsDispatch.SmsDispatchService.ResumeInflight` | mobi_rent_agent/application/sms_service.py:79-108 | after a restart exactly the unfinished messages with a provider id are followed to the end, nothing else is touched, and nothing is sent |
| `SmsDispatch.RaceReplyIsNoDuplicate` | mobi_rent_agent/application/sms_outbox.py:49-52 | the exception's text at the reservation never contains the mark by which the Farm command knows a duplicate |
| `SmsDispatch.SameDuplicateTwoAnswers` | mobi_rent_agent/application/farm_sms_command.py:135-162 | the same known key is answered 200 when found at the lookup and 422 when found at the reservation |
| `SmsProtocol.AtMostOnceOverRuns` | mobi_rent_agent/application/farm_sms_command.py:91-162 | over every run with retries, losses, failed writes and crashes each key has one execution, bounded and never continued past an unsafe outcome, if every arrival finds a shared outbox, a durable key, or nobody about to reserve it |
| `SmsProtocol.NextKeepsKey` | mobi_rent_agent/application/farm_sms_command.py:91-162 | one step of any request keeps a key safe; only an arrival on that very key has to pass the guard |
| `SmsProtocolLimits.AtMostOnceExactlyWhenShared` | mobi_rent_agent/application/farm_sms_command.py:91-162 | every run is at-most-once if and only if requests share one outbox |
| `SmsProtocolLimits.ArrivalIsSafeExactly` | mobi_rent_agent/application/farm_sms_command.py:91-128 | in every safe state and both arrangements: after an arrival on a key no continuation without further arrivals on it executes twice, if and only if the outbox is shared, the key is durable, or no other request is about to reserve it |
| `SmsProtocolLimits.OverlapSendsTwice` | mobi_rent_agent/application/farm_sms_command.py:91-128 | in every safe state, an arrival the guard rejects has a continuation with two executions |
| `SmsProtocolLimits.RacersSendTwice` | mobi_rent_agent/application/farm_sms_command.py:91-128 | in any state, two rebuilt services past their lookups on one key not called for yet can both reserve it and both call the provider |
| `SmsProtocolLimits.RefusedAtReserveExactly` | mobi_rent_agent/application/sms_service.py:149-157 | after any history, a request that looked twice without seeing its key, and that every gate would admit, is answered failed if and only if the outbox is shared and another request reserved the key in between |
| `SmsProtocolLimits.LoserIsToldFailed` | mobi_rent_agent/application/sms_service.py:149-157 | in any shared state with two requests past their lookups one can send while the other is told that it failed |
| `SmsProtocolLimits.RaceFromTheStart` | mobi_rent_agent/application/sms_service.py:149-157 | such a run from the empty outbox |
| `SmsProtocolLimits.AcksOverRuns` | mobi_rent_agent/application/vps_slot_sms_service.py:204-251 | over every run a positive answer names a key the outbox holds durably, or one whose store write failed |
| `SmsProtocolLimits.AcksDurableExactlyWhenRebuilt` | mobi_rent_agent/application/farm_sms_command.py:102-118 | with failing writes every ok answer names a durable key if and only if services are rebuilt per request |
| `SmsProtocolLimits.AloneIsServed` | mobi_rent_agent/application/farm_sms_command.py:91-162 | in any state a request left alone is told that all is well if its key is known, and otherwise sends its message once, keeps its key durably and its sender hears of it |
| `SmsProtocolLimits.RetriesExactly` | mobi_rent_agent/application/sms_service.py:414-433 | a request goes on calling through failures that are safe to retry exactly as long as its attempts last |
| `SmsProviderIds.WriteKeepsId` | mobi_rent_agent/infrastructure/sms_outbox_store.py:35-69 | in either arrangement one write to a safe key keeps its provider id, and ties it to the request that holds the row and was accepted |
| `SmsProviderIds.IdsKeptOverRuns` | mobi_rent_agent/application/farm_sms_command.py:91-162 | over every run whose arrivals on a key pass the guard, a provider id once durable is never lost or replaced, with any number of copies of the table |
| `SmsProviderIds.ProviderIdsKeptExactly` | mobi_rent_agent/infrastructure/sms_outbox_store.py:46-65 | in every safe state: after an arrival on a key no continuation without further arrivals on it loses or replaces its provider id, if and only if the outbox is shared, the key is durable, or no other request is about to reserve it |
| `SlotSms.FarmKeyIsInjective` | mobi_rent_agent/application/vps_slot_sms_service.py:208 | Farm keys agree exactly when slot and caller key do, and never equal a webhook reply key |
| `SlotSms.StripExact` | mobi_rent_agent/application/farm_sms_command.py:43-46 | stripping takes white space off both ends, all of it and nothing else |
| `SlotSms.FarmStripsNothing` | mobi_rent_agent/application/farm_sms_command.py:43-46 | the key survives the Farm's stripping of white space unchanged |
| `SlotSms.EnqueueIsIdempotent` | mobi_rent_agent/application/vps_slot_sms_service.py:106-181 | in every interleaving, callers on one slot and key get the same message for the same content and a conflict for other content, and nobody an internal error |
| `SlotSms.OneThreadPerRow` | mobi_rent_agent/application/vps_slot_sms_service.py:141-202 | in every interleaving no row gets two dispatch threads, no thread lacks a row, and a row has its thread exactly when its own inserter has gone on |
| `SlotSms.AloneIsServed` | mobi_rent_agent/application/vps_slot_sms_service.py:106-202 | in any state a caller left alone is answered from its key's row, with the row's message or a conflict by content, or else gets a row, one thread and its message id |
| `SlotSms.RejectedByGateOnly` | mobi_rent_agent/application/vps_slot_sms_service.py:119-138 | in every interleaving a caller is turned away only by its own gate |
| `SlotSms.Dispatcher.DispatchAsync` | mobi_rent_agent/application/vps_slot_sms_service.py:204-263 | a queued or failed message is sent at most max_attempts times with the same key and content, on until an acceptance or an answer 400, 401, 403 or 422; the stored message has the attempts, and the status and id or error of the last answer |
| `SlotCoordinator.MutualExclusion` | mobi_rent_agent/application/slot_coordinator.py:16-40 | in every interleaving of provisioning, routing and recovery one worker per slot, one reboot overall, and permits plus acquirers constant |
| `SlotCoordinator.RunKeeps` | mobi_rent_agent/application/slot_coordinator.py:16-40 | every run keeps lock table, gate and permits in agreement with who is inside |
| `SlotCoordinator.AskingExact` | mobi_rent_agent/application/slot_coordinator.py:16-40 | in every reachable state whoever asks gets the permit, the slot and the reboot gate exactly if they are free; a provisioner waits exactly while they are not, the others go on without |
| `SlotCoordinator.LeavingExact` | mobi_rent_agent/application/slot_coordinator.py:16-40 | a thread that is done gives back the gate, the slot and the permit, and touches no other thread |
| `SlotCoordinator.SomeThreadCanGo` | mobi_rent_agent/application/provisioning_service.py:185-206 | no deadlock: unless all threads are idle, one can take its next step |
| `SlotCoordinator.GoDescends` | mobi_rent_agent/application/proxy_service.py:64-74 | every step uses up work in hand |
| `SlotCoordinator.CanDrain` | mobi_rent_agent/application/slot_coordinator.py:16-40 | from every reachable state a bounded schedule lets everybody finish |
| `HealthRecovery.CounterIsSpell` | mobi_rent_agent/application/health_service.py:76-90 | the counter is the number of unhealthy observations since the last healthy one or completed recovery |
| `HealthRecovery.StampIsLastRecovery` | mobi_rent_agent/application/health_service.py:91-120 | the timestamp is that of the last completed recovery, if any: taken at once in a dry run, after the reboot in a live one |
| `HealthRecovery.AttemptExact` | mobi_rent_agent/application/health_service.py:88-92 | a recovery is due if and only if the spell reaches the threshold and the cooldown since every last completed one is over; it is suppressed, deferred or carried out by the switch and the locks it meets |
| `HealthRecovery.RebootsAreSpaced` | mobi_rent_agent/application/health_service.py:91-92 | attempts come at least a cooldown after every earlier completed recovery |
| `HealthRecovery.DryRunMirrorsExactly` | mobi_rent_agent/application/health_service.py:94-122 | the dry run suppresses at exactly the steps the live run reboots, if and only if every suppression would find both locks free, a working reboot, and the cooldown over even when counted from the previous reboot's return |
| `HealthRecovery.SuppressesWhereLiveReboots` | mobi_rent_agent/application/health_service.py:94-122 | as long as the runs agreed, they agree at the next step if and only if that holds there |
| `HealthRecovery.MirrorsUnderFreeLocks` | mobi_rent_agent/application/health_service.py:94-122 | with free locks and successful reboots they agree throughout if and only if no check falls between the two ends of a cooldown |
| `HealthRecovery.SlowRebootDiverges` | mobi_rent_agent/application/health_service.py:97-116 | a reboot of five seconds makes them differ although both locks are free and it succeeds |
| `HealthRecovery.HealthService.HandleObservation` | mobi_rent_agent/application/health_service.py:76-122 | one observation changes its own slot's counter and stamp as specified, no other slot's, and reboots exactly when reported |
| `HealthRecovery.HealthService.RunOnce` | mobi_rent_agent/application/health_service.py:55-74 | a pass gives each slot the state its own observations determine, in whatever order all of them arrive |
| `HealthRecovery.FoldIsStateAfter` | mobi_rent_agent/application/health_service.py:55-74 | that state is the one the run theorems speak about |
| `StreamWarmup.PrimingLosesNoByte` | mobi_rent_agent/application/stream_warmup.py:146-171 | replaying the first chunk and going on yields every byte the upstream had |
| `StreamWarmup.FirstPiece` | mobi_rent_agent/application/stream_warmup.py:147-150 | the chunk loop stops at the first piece with bytes, if only empty ones and no failure come before it |
| `StreamWarmup.StepKeepsValid` | mobi_rent_agent/application/stream_warmup.py:53-108 | every lock section, close and clock check keeps one owner per stream, one device per held stream, and fresh handouts |
| `StreamWarmup.Ownership` | mobi_rent_agent/application/stream_warmup.py:53-174 | in every interleaving an opened stream is in exactly one of priming, held, closing, popped, closed once, handed out once, or lost, and held for one device only |
| `StreamWarmup.HandoutIsFresh` | mobi_rent_agent/application/stream_warmup.py:91-108 | a stream handed out was never closed and was stored at most 15 s before |
| `StreamWarmup.StoredIsHandedOut` | mobi_rent_agent/application/stream_warmup.py:67-108 | whatever else happens meanwhile, a stream stored for a device and not disturbed goes to the next taker if and only if it is at most 15 s old, and is closed otherwise |
| `StreamWarmup.AccountedExactly` | mobi_rent_agent/application/stream_warmup.py:110-174 | when all threads are done an upstream is held, closed or handed out if and only if its priming did not blow up outside the guarded loop |
| `StreamWarmup.ContentCallLeaks` | mobi_rent_agent/application/stream_warmup.py:145-200 | a content call that raises leaves the upstream open for good |
| `StreamWarmup.WaiterIsWoken` | mobi_rent_agent/application/stream_warmup.py:53-99 | after any history, while an event is a device's pending one, the next begin, store or fail for the device sees to it that the event is set or is still to be set by a thread on its way, whatever happens then |
| `StreamWarmup.WakeUpLostExactly` | mobi_rent_agent/application/stream_warmup.py:91-103 | after any history, a step that ends an event's being its device's pending one leaves it never to be set in any continuation if and only if the step is another take for the device and nobody was to set the event |
| `StreamWarmup.OtherTakeLosesWakeUp` | mobi_rent_agent/application/stream_warmup.py:91-103 | such a run from the empty cache |
| `StreamWarmup.MjpegPrimeCache.Begin` | mobi_rent_agent/application/stream_warmup.py:53-65 | alone, an operation is this run of the step system: the parked stream goes and is closed, the old event is set, the new one is pending |
| `StreamWarmup.MjpegPrimeCache.Store` | mobi_rent_agent/application/stream_warmup.py:67-79 | the same for storing; without a device the stream is closed |
| `StreamWarmup.MjpegPrimeCache.Fail` | mobi_rent_agent/application/stream_warmup.py:81-89 | the same for giving up |
| `StreamWarmup.MjpegPrimeCache.Take` | mobi_rent_agent/application/stream_warmup.py:91-108 | hands out exactly the device's parked stream, unclosed, if it is at most 15 s old, and closes it otherwise |
| `StreamWarmup.MjpegPrimeCache.PrimeFromPlatform` | mobi_rent_agent/application/stream_warmup.py:110-174 | stores the stream exactly for status 200 with content and bytes before any failure, closes it and fails on other readable answers, and blows up exactly on a status that is no number or a content call that raises |
| `StreamWarmup.MjpegPrimeCache.WarmUp` | mobi_rent_agent/application/stream_warmup.py:192-205 | a priming that blew up is followed by clearing the device |
| `Basics.FirstIndexMeaning` | mobi_rent_agent/application/esim_qr_upload.py:118-121 | the search returns the first occurrence, and -1 exactly when there is none |
| `Multipart.SplitAcross` | mobi_rent_agent/application/esim_qr_upload.py:107 | a delimiter after text that ends outside its alphabet splits exactly there |
| `Multipart.ParseQrImage` | mobi_rent_agent/application/esim_qr_upload.py:105-137 | the loop returns the last QR part of the split body, or none |
| `Multipart.ExtractSegment` | mobi_rent_agent/application/esim_qr_upload.py:111-134 | one printed part reads back as its own header block and payload, line breaks included |
| `Multipart.DecodedExactly` | mobi_rent_agent/application/esim_qr_upload.py:89-102 | a part announced as base64 in any case of letters is decoded, or taken as it is if that fails; else one announced as quoted-printable is decoded; else it is taken as it is |
| `Multipart.ExtractBareSegment` | mobi_rent_agent/application/esim_qr_upload.py:111-134 | a part printed with bare line feeds reads back as well |
| `Multipart.ParseInvertsPrint` | mobi_rent_agent/application/esim_qr_upload.py:105-137 | for any parts without the delimiter, parsing the printed body gives exactly the last QR payload, or none |
| `Multipart.DecodedPartComesBack` | mobi_rent_agent/application/esim_qr_upload.py:105-137 | the last QR part without the delimiter comes back decoded as its headers announce, whatever the parts before it hold |
| `Multipart.RoundTripExactly` | mobi_rent_agent/application/esim_qr_upload.py:105-137 | the last QR payload comes back if and only if it does not contain the delimiter, whatever the parts before it hold |
| `Multipart.LegalPayloadIsCut` | mobi_rent_agent/application/esim_qr_upload.py:107 | a payload that section 5.1.1 of RFC 2046 allows, with the delimiter in mid-line, does not come back |
| `RemoteSessions.AtMostOneLiveSession` | mobi_rent_agent/application/remote_access_service.py:676-771 | over every run of create, initialise and end with a clock that never goes back, each slot has at most one live session |
| `RemoteSessions.BusyExactly` | mobi_rent_agent/application/remote_access_service.py:676-681 | busy is answered if and only if another rental's session is live on the slot |
| `RemoteSessions.SuccessMeansLive` | mobi_rent_agent/application/remote_access_service.py:683-771 | a success leaves the caller's own active session on the slot, live if and only if it was reused or the platform's grant is not over |
| `RemoteSessions.EndedStaysEnded` | mobi_rent_agent/application/remote_access_service.py:2804-2832 | an ended session is not revived by anything but a new creation for its rental |
| `RemoteSessions.ExpiryExact` | mobi_rent_agent/application/remote_access_service.py:714-744 | a session ends less than 60 s after its rental if and only if the lock was entered before the rental's end or the platform's grant is that short |
| `RemoteSessions.SessionsEndWithTheirRental` | mobi_rent_agent/application/remote_access_service.py:714-744 | over every run of such prompt creations no active session outlives its rental by 60 s |
| `RemoteSessions.LateLockOutlivesRental` | mobi_rent_agent/application/remote_access_service.py:523-628 | a creation authorised before the rental's end that got the lock after it, and whose session runs 60 s or more past that end |
| `RemoteSessions.OutlivesExactly` | mobi_rent_agent/application/remote_access_service.py:523-744 | a first creation authorised in time outlives its rental if and only if the lock came after the end and the grant reaches 60 s past it |
| `RemoteSessions.RemoteAccessService.ActiveForSlot` | mobi_rent_agent/infrastructure/remote_access_store.py:298-309 | returns a live session of the slot with the latest creation, or none exactly when none is live |
| `RemoteSessions.RemoteAccessService.CreateLocked` | mobi_rent_agent/application/remote_access_service.py:676-771 | one creation is one step, fed by a truthful query; reused exactly for the caller's own live session; a new session runs the whole minutes its time to live and its rental leave, one at least, or to the end of the grant; a refusal leaves at most a prepared row |
| `RemoteSessions.RemoteAccessService.EndLocked` | mobi_rent_agent/application/remote_access_service.py:2804-2832 | ends the rental's session, or answers 404 or 403 and changes nothing |
| `RemoteSessions.RemoteAccessService.ReleaseDevice` | mobi_rent_agent/application/remote_access_service.py:1031-1059 | succeeds exactly for the right slot with a known device, and then only ends that rental's session |
| `RemoteSessions.RemoteAccessService.SweepStaleSessions` | mobi_rent_agent/application/remote_access_service.py:1796-1817 | releases exactly the live sessions, on open slots with a device, whose rental is gone, over or another customer's, and leaves every other row alone |
| `ScreenGuidance.StepKeepsValid` | mobi_rent_agent/application/screen_guidance.py:154-206 | every section keeps reads, lines and stored answers in correspondence with at most one under way |
| `ScreenGuidance.OneReadInFlight` | mobi_rent_agent/application/screen_guidance.py:196-206 | with any number of pollers at most one reads the phone |
| `ScreenGuidance.ReadsAreSpaced` | mobi_rent_agent/application/screen_guidance.py:196-206 | a read starts at least 0.4 s after the previous result was stored |
| `ScreenGuidance.CachedAnswersAreRecent` | mobi_rent_agent/application/screen_guidance.py:168-172 | a cached answer is younger than 0.4 s and shows the last non-blank line known at its read |
| `ScreenGuidance.BlankReadRepeats` | mobi_rent_agent/application/screen_guidance.py:138-144 | a read of nothing but white space repeats the line before it, any other shows its own, and no line is shown only if none ever came |
| `ScreenGuidance.GuidanceCache.CachedDeviceScreenGuidance` | mobi_rent_agent/application/screen_guidance.py:154-206 | an undisturbed poll repeats an answer less than 0.4 s old, shows the last line if it skips the probe, or makes exactly one read and stores what it shows |
| `TokenCache.StaysBounded` | mobi_rent_agent/application/auth_service.py:247-260 | an insertion keeps the cache within its maximum |
| `TokenCache.EvictionExact` | mobi_rent_agent/application/auth_service.py:247-254 | an entry goes if and only if the table is full and it expired, or nothing expired and it is the victim, which then has minimal verification time |
| `TokenCache.ServedWasVerified` | mobi_rent_agent/application/auth_service.py:120-146 | in every interleaving a served user was produced, active, by a verifier for that token less than a lifetime earlier, or, if a record of that token ever stood in for the verifier, before a lifetime past its expiry claim |
| `TokenCache.ServedPastItsExpiry` | mobi_rent_agent/application/auth_service.py:137-145 | one answer of long ago, renewed by a fallback, is served almost a lifetime past its claim |
| `TokenCache.RecordServesPastExactly` | mobi_rent_agent/application/auth_service.py:239-246 | a record inserted at now can be served at or after its claim if and only if the claim is less than a lifetime ahead |
| `TokenCache.ServedBeforeClaimExactly` | mobi_rent_agent/application/auth_service.py:239-246 | over every run, no lookup at any moment could be served at or after its claim if and only if every answer and every fallback inserted its record at least a lifetime before its claim |
| `TokenCache.LateInsertionServesPast` | mobi_rent_agent/application/auth_service.py:120-128 | after any later insertion a lookup is served at or past the claim, with no fallback needed |
| `TokenCache.LoggedOutExactly` | mobi_rent_agent/application/auth_service.py:120-156 | in any state, after a logout every continuation in which no verifier accepts the token again keeps it out of the cache and unserved, if and only if no validation under way is past the verifiers with that token or holds an active record of it |
| `TokenCache.CarrierReturns` | mobi_rent_agent/application/auth_service.py:136-145 | any such validation can put a logged-out token back without another word from a verifier |
| `TokenCache.FallbackUndoesLogout` | mobi_rent_agent/application/auth_service.py:136-145 | such a run from the empty cache: a renewal reads the record, the user logs out, the verifier cannot be reached |
| `TokenCache.AuthService.Logout` | mobi_rent_agent/application/auth_service.py:148-156 | drops exactly the token's record |
| `TokenCache.AuthService.CachedToken` | mobi_rent_agent/application/auth_service.py:222-230 | returns a record exactly before its expiry, and drops it afterwards |
| `TokenCache.AuthService.Oldest` | mobi_rent_agent/application/auth_service.py:253 | finds an entry of minimal verification time |
| `TokenCache.AuthService.DropExpired` | mobi_rent_agent/application/auth_service.py:249-251 | removes exactly the expired entries |
| `TokenCache.AuthService.RememberToken` | mobi_rent_agent/application/auth_service.py:232-260 | the insertion the eviction theorem speaks about, with an oldest victim |
| `TokenCache.AuthService.ValidateUserToken` | mobi_rent_agent/application/auth_service.py:120-146 | serves a record less than 300 s old and not over; otherwise whom the local check or the deciding reply names, nobody on a definite rejection, the old record's user only if the verifier could not be reached twice, active users only; and keeps what it served with the claim that goes with it |
| `BootSettle.RunGrows` | mobi_rent_agent/application/device_hardware_lockdown.py:771-783 | the streak counter reaches the wanted number exactly when the probes contain that many successes in a row |
| `BootSettle.AdbShellSettled` | mobi_rent_agent/application/device_hardware_lockdown.py:743-790 | true if and only if the probes contain `needed` successes in a row, at the first such run; false only at the deadline, the stop, or without a phone, and never after waiting longer than a pause for each probe |
| `BootSettle.EchoesAdd` | mobi_rent_agent/application/device_screen_prepare.py:175-188 | echoes after a finished boot check bring a window exactly when they contain a run |
| `BootSettle.WaitBootCompleted` | mobi_rent_agent/application/device_screen_prepare.py:144-194 | true if and only if a window of three echoes was seen, every echo following a boot check that said done; false after the whole budget, with the timeout warning, spent on observations with a pause at most for each |
| `JobWorker.StepKeepsValid` | mobi_rent_agent/application/vps_job_worker.py:77-135 | every step of serialised work keeps calls, releases and claims in agreement with the stored jobs |
| `JobWorker.OnceExactlyWhenSerial` | mobi_rent_agent/application/vps_job_worker.py:77-103 | over every run with crashes no job is sent twice if and only if work on each job is serialised |
| `JobWorker.CalledOnceOverRuns` | mobi_rent_agent/application/vps_job_worker.py:61-103 | over every run, serialised or not, in which no thread starts on a job another has just fetched, every job is sent at most once |
| `JobWorker.BeginIsSafeExactly` | mobi_rent_agent/application/vps_job_worker.py:77-103 | in every safe state, after a start on a pending job no continuation without further starts on it sends it twice, if and only if no other thread has fetched it |
| `JobWorker.TwoThreadsCallTwice` | mobi_rent_agent/application/vps_job_worker.py:61-75 | in any state in which two threads have fetched one job both can send it |
| `JobWorker.FinishedStays` | mobi_rent_agent/application/vps_job_worker.py:77-119 | a finished job keeps its record and is never sent again |
| `JobOutcomes.EndingExact` | mobi_rent_agent/application/vps_job_worker.py:77-133 | one step ends an unfinished job exactly by applying an answer, as the answer says, by a cache look that finds nothing, by recovering what is no assignment, or unsent without a Farm |
| `JobOutcomes.HowJobsEnd` | mobi_rent_agent/application/vps_job_worker.py:77-133 | over every serialised run a finished job has the record that one step of the run ended it with, in one of those ways |
| `JobOutcomes.UnknownKeepsItsClaim` | mobi_rent_agent/application/vps_job_worker.py:223-257 | over every serialised run a job stored as unknown keeps the claim it was granted, unless an administrator takes it |
| `JobWorker.ReleasesAreOwn` | mobi_rent_agent/application/vps_job_worker.py:259-270 | a release names the job's own slot and id, and a job of unknown outcome is never released |
| `JobWorker.ClaimLostOnlyToItsJob` | mobi_rent_agent/infrastructure/slot_assignment_store.py:103-115 | a claim goes only by an administrator or its own job's release, never by an older job |
| `JobWorker.ClaimIsFreed` | mobi_rent_agent/application/vps_job_worker.py:240-257 | over every serialised run, a finished assignment of known outcome that no thread serves holds its claim if and only if the claim was granted, no administrator took it, and its thread died before the release, the claim came after the release, or there is no Farm |
| `JobWorker.CrashStrandsClaim` | mobi_rent_agent/application/vps_job_worker.py:243-251 | a crash between the result and the release strands the claim |
| `JobWorker.LateClaimStrandsClaim` | mobi_rent_agent/application/vps_farm_management_service.py:1497-1503 | a job the loop finishes before its request has claimed the slot leaves the claim behind although no thread died |
| `JobWorker.StrandedForGood` | mobi_rent_agent/application/vps_job_worker.py:69-75 | a stranded claim stays until an administrator removes it |
| `JobClaims.SentUngrantedIsBare` | mobi_rent_agent/application/vps_farm_management_service.py:1491-1508 | over every run, serialised or not, the claim of a stored assignment has exactly one of four fates (to be made, granted, refused, lost with its request), and an assignment sent but never granted its slot is on record as sent without a claim |
| `JobClaims.SentBareExactly` | mobi_rent_agent/application/vps_farm_management_service.py:1491-1508 | in every state, serialised or not, once a thread has started on a pending assignment some continuation sends it without a granted claim if and only if the claim had not been granted at the start |
| `JobClaims.ClaimedFirstNeverBare` | mobi_rent_agent/application/vps_job_worker.py:77-103 | over every run in which threads start only on claimed assignments none is sent without its claim |
| `JobClaims.RefusedJobIsSent` | mobi_rent_agent/application/vps_farm_management_service.py:1497-1508 | a run from the empty tables in which a job is sent although its request was refused the slot, which another job holds |
| `JobWorker.VpsJobWorker.ProcessJob` | mobi_rent_agent/application/vps_job_worker.py:77-103 | sends exactly the pending jobs; an assignment ends unknown if and only if its answer says so or reads as a failure after the code was sent, and failed if and only if it is a failure with nothing sent; another job fails exactly when the answer is not ok |
| `JobWorker.VpsJobWorker.RecoverRunningJob` | mobi_rent_agent/application/vps_job_worker.py:105-135 | settles a running job exactly when it has gone stale, from the Farm's cache or as unknown, and never sends |
| `JobWorker.VpsJobWorker.ApplyFarmResponse` | mobi_rent_agent/application/vps_job_worker.py:177-257 | stores that ending, and drops the claim exactly when the outcome is known and the slot is claimed under the job's own id |
| `JobWorker.VpsJobWorker.PollOnce` | mobi_rent_agent/application/vps_job_worker.py:69-75 | one pass sends each listed pending job once and ends it, ends each listed stale running job without sending it, and leaves all others as they were |

## Left out

- Strings reach the operations stripped and slots as integers; parsing of requests, routes and configuration is not modelled.
- Stream queue: leases are values, so a caller that keeps a returned lease object and sees it change is not captured; the text "Up next in ..." and the public dictionaries are left out; the capacity and TTL are constant.
- StreamBandwidth.Governor.ApplyIntervals: says nothing between two setter calls; when the input hold runs out, the code re-evaluates the intervals only at the next setter.
- SmsDispatch: the delivery poller's loop is a trace supplied from outside; sleeping, uuid generation, phone redaction and the wording of guard reasons are parameters; a provider client that raises is not modelled.
- SmsProtocol.AtMostOnceOverRuns: holds only for runs whose arrivals pass the guard; that the guard is exact for each arrival is ArrivalIsSafeExactly.
- SmsProviderIds: what the delivery poller writes after an accepted call is one with the write that follows the call.
- Webhook replies: the inbound dispatcher appears as another client of the Farm protocol and through the disjointness of its keys; its job table is left out.
- SlotSms: rate limits, offline checks and the Farm status probe are one gate with an outcome from outside; mirroring to the tenant database and event recording are left out.
- SlotCoordinator: locks and semaphore appear as state of the step system, not as an object, because what matters is who waits for whom; the bodies of provisioning, route repair and reboot are opaque; acquires are not nested. The SMS service's own coordinator is a separate object and appears as a lock outcome in SmsDispatch.
- HealthRecovery: the dry and the live run are compared on the same observations, although a live reboot also delays the probes after it; the probe itself and the thread pool are outside; observations arrive in any order.
- StreamWarmup.MjpegPrimeCache.Take: the wait on the event is a step of its own in the interleaving theorems and absent from the sequential method; its timeout only bounds the wait.
- Multipart: the header-to-name regular expression and the base64 and quoted-printable decoders are parameters; RoundTripExactly assumes decoders never return more bytes than they get. The fallback to the email library and a preamble before the first delimiter are left out.
- RemoteSessions: sessions are taken atomically under the slot lock; the paths that write back an earlier session copy outside it (`mobi_rent_agent/application/remote_access_service.py:1707-1794` and lines 1823-1835) are not modelled, nor are setup, restriction and stream fields of a row. Authorisation, the stream queue hook and the platform's own calls are outside.
- ScreenGuidance: one phone is modelled, phones do not share state but the cache lock; an empty serial bypasses the cache and is left out, as is the second cache on the VPS and the catalogue of screens.
- TokenCache: digests stand for tokens; the platform's side of a logout, profile, role and credential handling are left out, as is an expiry claim that is not a finite number.
- BootSettle: time is counted in ticks and each adb call takes at least one; exceptions other than a failed adb call are not modelled.
- JobWorker.ClaimIsFreed: for runs that serialise the work on each job; without that a recovery can overwrite the result of a call still in flight.
- JobWorker: a job claims its slot once, so the request that finds its slot held by its own job is left out; recording the eSIM upload and slot events are left out; the list limit of twenty per pass is left to the caller; the durable rental reservation lives elsewhere and is not touched by this code.
- ADB, shell scripts, HTTP, SQLite and the tenant database are outcomes supplied from outside or plain maps; marker-string classifiers, error catalogues and reports are not modelled.
