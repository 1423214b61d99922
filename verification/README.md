# Verified models of the modem service's concurrent and codec core

These Dafny modules model the parts of the service where correctness is hardest to see from one
function: who may talk to the SIM card and when, how MBIM messages reach the caller that waits for
them, how SMS, SIM and provisioning data are cut up and put together, and how long a cached eSIM
overview may be believed.

- **The APDU arbiter.** `ArbiterModel` is a transition system with one step per critical section
  (draw an id, arrive, wake, cancel, touch, release, expire, leave a barrier); time is an input of
  each step. `ArbiterProtocol` proves its invariant, `ArbiterOrder` and `ArbiterRuns` its order and
  progress claims, `ArbiterTurns` the order of equal transports, `ArbiterPassing` when one
  ticket may pass another, `ArbiterLeases` its lease claims. `ArbiterExclusion` says who may hold the card
  beside whom, and `ArbiterEffects` what each section changes, both in terms of the fields. `Arbiter` is
  the object with its fields and scanning loops; each method is proved to be one step. Order is always a matter of queue position,
  never of ids.
- **SIM-auth readiness** (`SimAuthReady`). A single-flight probe with generations and wait channels.
- **MBIM.** `MbimFragments` and `MbimCollector` split and collect, `MbimDevice` and `MbimDelivery`
  demultiplex, `MbimRuns` states delivery over whole runs, `MbimReplies` that of the answers without
  fragments and of errors, `MbimIndications` that of indications,
  `MbimStream` cuts the byte stream; `MbimEndToEnd` puts the three together.
- **Codecs.** `SmsReassembler`; `Gsm7` and `PnnRecord` for network names; `BerTlv`; `Qmi` and
  `CardStatus`; `PduTrim` and `PduHex`; `WbxmlHeader`, `WbxmlReader`, `WbxmlRoundTrip`, `WbxmlObject`,
  `WbxmlTables`, and `WbxmlMeaning` for what a provisioning document says (`WbxmlExample` has one).
  `Binary` and `Bytes` hold the arithmetic of bits and little-endian words, `Text` trimming, `Wrappers` the
  optional value.
- **The eSIM overview cache.** `OverviewCache` has the locked sections and the object,
  `OverviewRuns` every interleaving of loads, shared calls and invalidations, `OverviewEffects` what each
  section does and how long a stored load is handed out.

Where the source updates fields in place there is a class whose methods are proved equal to a
function of the old state; the theorems are about those functions and about runs of them.

## What turned out not to hold

- *No grantable waiter sleeps* fails when a transport crosses the 500 ms ageing threshold between
  two checks on one notification channel: ageing alone closes no channel, so the ticket that is now
  selected sleeps on. `ArbiterLostWakeup.WakeupIsLost` is such a run. `ArbiterOrder.ParkedAndGrantable`
  says exactly when it happens: a sleeper on the current channel is grantable if and only if no session
  and no one-shot is active and its ticket is a transport outside the AKA class that could run now with
  nothing before it ending the search, has aged by now but had not at the check that parked it, and is
  the first such aged candidate in the queue. Sessions, one-shots and barriers are never affected.
- *Split then collect is the identity* holds if and only if the info buffer is shorter than 2^32
  octets (`MbimCollector.SplitThenCollect`).
- *A padded network-name record comes back whole* fails exactly when its last value ends in 00 or
  FF; the last object is then lost (`PnnRecord.PaddedRecord`).
- *Patching the active profile succeeds exactly when the cache holds the target* fails for targets
  whose normalised form still ends in a space or a quote: the target is normalised twice, cached
  values once (`OverviewCache.PatchIsRightIff`, `OverviewCache.RefusedExample`).
- *A token of an attribute list is read as it was meant* fails for the characteristic types (0xA0 to
  0xAA in page 0, 0xA0 to 0xA5 in page 1), which stand in the start and in the value table: such a token is
  read as a start exactly while no attribute is open and as a value exactly while one is
  (`WbxmlTables.TypeReadAsMeant`, for all tokens `WbxmlTables.ReadAsMeantIff`). A name followed by the
  type NAPDEF is read as the name "NAPDEF" without a type (`WbxmlTables.StartReadAsValue`); the value
  NAPDEF with no attribute open, which means nothing, is read as a type (`WbxmlTables.ValueReadAsStart`).
  Documents in the round trip avoid exactly these places.

## Model

| member | source | states |
|---|---|---|
| `ArbiterProtocol.StepKeepsInv` | internal/apduarbiter/arbiter.go:407-837 | every locked section, run by whatever goroutine at whatever time, keeps the whole invariant: each id drawn is in exactly one place; at most one of sessions, one-shot and transports is non-empty, sessions and QMI transports stay within their limits, an exclusive transport is alone, QMI channels are positive and distinct, no active lease has a class an active barrier blocks; requests = acquires + timeouts + queued; every sleeper on the current channel was refused in the current state |
| `ArbiterProtocol.InitInv` | internal/apduarbiter/arbiter.go:176-191 | a new arbiter satisfies the invariant |
| `ArbiterRuns.EveryStateInv` | internal/apduarbiter/arbiter.go:407-837 | every state of every run satisfies the invariant |
| `ArbiterProtocol.GrantKeepsExclusion` | internal/apduarbiter/arbiter.go:481-515 | granting what the predicate allows keeps the exclusion rules for all three lease kinds and barriers |
| `ArbiterProtocol.MoveKeepsIdentity` | internal/apduarbiter/arbiter.go:630-639 | moving one id from one list to another keeps every id in exactly one list |
| `ArbiterProtocol.SignalledParkings` | internal/apduarbiter/arbiter.go:837-840 | after a signal no goroutine sleeps on the current channel |
| `ArbiterOrder.SomeSelected` | internal/apduarbiter/arbiter.go:526-571 | whenever some transport could run, exactly one is selected |
| `ArbiterOrder.SelectedIsEligible` | internal/apduarbiter/arbiter.go:526-571 | the selected transport can run and nothing before it ends the search |
| `ArbiterOrder.NoGrantBehindFence` | internal/apduarbiter/arbiter.go:481-571 | no lease is granted while a session, one-shot, barrier, or an aged, unblocked, exclusive transport outside the AKA class is queued ahead of it |
| `ArbiterOrder.EqualTransportsInOrder` | internal/apduarbiter/arbiter.go:526-571 | transports of equal class, scope and channel are granted in queue order, unless the later one carries a stamp old enough to have aged and the earlier one a newer stamp; with stamps in queue order that cannot be |
| `ArbiterOrder.NoStuckState` | internal/apduarbiter/arbiter.go:481-571 | with no lease active, some ticket is grantable if and only if the queue holds a barrier, an unblocked session or one-shot at its head, or an unblocked transport with only transports before it |
| `ArbiterOrder.IdleCardGrantsSomeone` | internal/apduarbiter/arbiter.go:481-571 | with neither lease nor barrier active a non-empty queue always has a grantable ticket |
| `ArbiterOrder.OnlyAgeingGrants` | internal/apduarbiter/arbiter.go:526-571 | in an unchanged state a refused ticket becomes grantable if and only if no session or one-shot is active and it is an eligible transport outside the AKA class that crossed the ageing threshold in between and is the first aged candidate |
| `ArbiterOrder.ParkedAndGrantable` | internal/apduarbiter/arbiter.go:448-479 | in every reachable state a sleeper on the current channel is grantable if and only if that same condition holds between the check that parked it and now |
| `ArbiterOrder.SomeoneAwakeIsGranted` | internal/apduarbiter/arbiter.go:448-479 | an idle card with waiters has a waiter that is granted when it looks and can wake, unless that waiter's transport became the first aged candidate while it slept on the current channel |
| `ArbiterLostWakeup.WakeupIsLost` | internal/apduarbiter/arbiter.go:448-479 | a concrete ten-state run in which a transport ages between two checks: the card ends idle, a queued ticket is grantable, and no sleeper can ever wake |
| `ArbiterRuns.NoOvertaking` | internal/apduarbiter/arbiter.go:481-571 | over every run, while a barrier, session, one-shot or aged exclusive non-AKA transport waits, only leases queued ahead of it start |
| `ArbiterRuns.BarrierWaitIsBounded` | internal/apduarbiter/arbiter.go:197-250 | between a barrier's enqueue and any later state in which it still waits at most as many leases start as were queued when it arrived |
| `ArbiterTurns.EqualTransportsKeepOrder` | internal/apduarbiter/arbiter.go:526-571 | over every run, while a transport waits, a lease of a ticket behind it for the same class, scope and channel starts only if that ticket has aged and the one in front, stamped later, has not; with stamps in queue order, and for authentications, never |
| `ArbiterTurns.PassedInOneSection` | internal/apduarbiter/arbiter.go:526-571 | the same of one section |
| `ArbiterPassing.TransportGrantableIff` | internal/apduarbiter/arbiter.go:481-600 | a transport may be granted if and only if no session or one-shot is active, it is not blocked, it could run, every ticket ahead of it lets it pass, and no candidate behind it is more urgent; a transport lets another pass if it is blocked, or could run but is less urgent, or cannot run and does not gate the queue; aged non-AKA tickets are the most urgent, then AKA ones |
| `ArbiterPassing.SelectedIsBest` | internal/apduarbiter/arbiter.go:526-571 | the three-step search is the order by urgency and then by position |
| `ArbiterPassing.WallIff` | internal/apduarbiter/arbiter.go:526-600 | a ticket lets nobody pass if and only if it is no transport, or it is not blocked and either could run and has aged outside the AKA class, or cannot run and gates the queue |
| `ArbiterPassing.FenceIsWall` | internal/apduarbiter/arbiter.go:526-600 | every fence is such a wall |
| `ArbiterPassing.OnlyPassersStart` | internal/apduarbiter/arbiter.go:481-600 | over every run, while a ticket waits a lease of a ticket that was not ahead of it starts only as a transport that it lets pass as things stand in that section |
| `ArbiterPassing.NobodyPassesAWall` | internal/apduarbiter/arbiter.go:481-600 | over every run, while a ticket waits and is a wall, whatever its age or class, only leases of tickets that were ahead of it start |
| `ArbiterExclusion.NoLeaseUnderItsBarrier` | internal/apduarbiter/arbiter.go:481-515 | over every run, while a barrier is active no active session, one-shot or transport has a class in the set that barrier blocks |
| `ArbiterExclusion.BarrierRefusesItsClasses` | internal/apduarbiter/arbiter.go:617-624 | a ticket whose class some active barrier's set holds is never grantable |
| `ArbiterExclusion.SessionIff` | internal/apduarbiter/arbiter.go:481-505 | a session is grantable if and only if it is at the head, no active barrier's set holds its class, no one-shot or transport is active and fewer than MaxSessions sessions are |
| `ArbiterExclusion.OneShotIff` | internal/apduarbiter/arbiter.go:481-505 | a one-shot is grantable if and only if it is at the head, its class is in no active barrier's set and no lease is active |
| `ArbiterExclusion.BarrierIff` | internal/apduarbiter/arbiter.go:507-515 | a barrier is grantable if and only if no lease is active and it is the first barrier queued |
| `ArbiterExclusion.LoneTransportIff` | internal/apduarbiter/arbiter.go:481-587 | a transport alone in the queue is grantable if and only if no session or one-shot is active, its class is in no active barrier's set, and there is room: no transport for an exclusive one, fewer than the limit and all on other channels for one on a channel |
| `ArbiterExclusion.FreeCardGrantsOpenClasses` | internal/apduarbiter/arbiter.go:481-571 | with no lease active a session or one-shot at the head, or a transport alone in the queue, whose class is in no active barrier's set is grantable |
| `ArbiterExclusion.RoomIs` | internal/apduarbiter/arbiter.go:573-587 | a transport could run if and only if there is that room for it |
| `ArbiterExclusion.GatesIs` | internal/apduarbiter/arbiter.go:589-600 | a waiting transport holds up those behind it if and only if it is exclusive, an exclusive one is active, or the channels in use have reached the limit |
| `ArbiterExclusion.SecondTransportIff` | internal/apduarbiter/arbiter.go:526-600 | behind a transport without room, one with room is granted if and only if the one in front waits for its channel only |
| `ArbiterExclusion.ActiveTogether` | internal/apduarbiter/arbiter.go:481-600 | over every run at most one kind of lease is active, sessions within their limit, an exclusive transport alone, channels positive, distinct and within their limit |
| `ArbiterEffects.OverdueGoes` | internal/apduarbiter/arbiter.go:702-730 | over every run, when the watchdog of a lease fires at least MaxLeaseHold after its grant and its last touch, the lease is active no more, whatever its kind |
| `ArbiterEffects.ExpiryIsExact` | internal/apduarbiter/arbiter.go:702-730 | for all three lease kinds: an active lease whose deadline has come is found no more, forced and epoch are one higher, every other lease is found as before; otherwise only the clock changes |
| `ArbiterEffects.ReleaseEffect` | internal/apduarbiter/arbiter.go:665-684 | the named lease is found no more and everybody is woken, every other is found as before; a lease that is not active changes only the clock |
| `ArbiterEffects.TouchEffect` | internal/apduarbiter/arbiter.go:641-663 | the named lease's deadline is a full hold time from now and nothing else changes |
| `ArbiterEffects.CancelEffect` | internal/apduarbiter/arbiter.go:448-479 | exactly the named ticket leaves the queue, a time-out is counted and everybody is woken |
| `ArbiterEffects.LeaveEffect` | internal/apduarbiter/arbiter.go:686-700 | exactly the named barrier ends and everybody is woken |
| `ArbiterEffects.WakeEffect` | internal/apduarbiter/arbiter.go:448-479 | a woken ticket that is grantable leaves the queue and is listed last among its kind with a full hold time to go; otherwise it sleeps on the current channel |
| `ArbiterEffects.ArriveEffect` | internal/apduarbiter/arbiter.go:407-479 | an arriving ticket goes to the end of the queue, is counted and wakes everybody, and is then granted or sleeps on the channel opened by its arrival |
| `ArbiterEffects.FoundWhereListed` | internal/apduarbiter/arbiter.go:641-684 | in every state of the invariant a lease is found under its id and kind exactly where it is listed |
| `ArbiterRuns.StartsOnce` | internal/apduarbiter/arbiter.go:407-479 | no id starts a lease twice |
| `ArbiterRuns.PhasesOnlyAdvance` | internal/apduarbiter/arbiter.go:407-479 | along a run an id only moves forward: drawn, waiting, holding, done |
| `ArbiterRuns.LeaseStarts` | internal/apduarbiter/arbiter.go:407-479 | a lease starts only in the check of an arriving or woken goroutine, and only when its ticket is grantable there |
| `ArbiterLeases.ReleaseIsExact` | internal/apduarbiter/arbiter.go:665-684 | a release removes the lease it names, if active, and leaves every other lease as it was |
| `ArbiterLeases.LateReleaseChangesNothing` | internal/apduarbiter/arbiter.go:665-730 | over every run, releasing a lease that has ended once, for instance by expiry, changes nothing at any later time |
| `ArbiterLeases.ForcedReleaseIsLate` | internal/apduarbiter/arbiter.go:641-730 | over every run the watchdog forces a lease out only when at least MaxLeaseHold has passed since its grant and since each touch that found it active |
| `ArbiterLeases.GrantIsFound` | internal/apduarbiter/arbiter.go:630-639 | a granted lease is found under its id and type with its deadline one full hold time away |
| `ArbiterLeases.StepKeepsSafe` | internal/apduarbiter/arbiter.go:641-730 | no section brings a deadline below a bound already earned |
| `ArbiterRequests.RequestNormalisesOnce` | internal/apduarbiter/arbiter.go:894-924 | normalising a request twice is normalising it once, for any upper-casing that treats ASCII as usual, is idempotent and respects white space |
| `ArbiterRequests.LeaseTicket` | internal/apduarbiter/arbiter.go:407-430 | a lease's ticket is on a QMI channel if and only if it is a transport asking for that in QMI mode with a positive channel; its class is the one asked for, or a non-empty default |
| `ArbiterRequests.BarrierTicket` | internal/apduarbiter/arbiter.go:197-230 | a barrier's ticket always blocks some class |
| `ArbiterRequests.BlockedClasses` | internal/apduarbiter/arbiter.go:197-216 | a barrier blocks exactly its listed classes, normalised, and AKA and SMSC when none is listed |
| `ArbiterRequests.Defaults` | internal/apduarbiter/arbiter.go:176-191 | positive limits are taken; others become two minutes, one session and one QMI transport |
| `ArbiterRequests.ClassOfRequest` | internal/apduarbiter/arbiter.go:912-924 | a class that is named stays; without one a one-shot is USIMAKA, any other lease EUICCWrite and a barrier SwitchBarrier; an empty list blocks USIMAKA and SMSC, and an empty name in a list blocks USIMAKA |
| `ArbiterRequests.ModeIs` | internal/apduarbiter/arbiter.go:934-940 | a mode is what stands between its outer white space in upper case, and UNKNOWN if nothing does |
| `ArbiterObject.Arbiter.SelectedTransport` | internal/apduarbiter/arbiter.go:526-571 | the scanning loop returns the id of the selected transport, and 0 only if no transport can run |
| `ArbiterObject.Arbiter.CanAcquireTransportNow` | internal/apduarbiter/arbiter.go:573-587 | the check against active transports |
| `ArbiterObject.Arbiter.TransportWaitGatesQueue` | internal/apduarbiter/arbiter.go:589-600 | whether a waiting transport holds up those behind it |
| `ArbiterObject.Arbiter.HasPendingBarrierAhead` | internal/apduarbiter/arbiter.go:602-615 | whether a barrier is queued ahead of a ticket |
| `ArbiterObject.Arbiter.IsBlockedByActiveBarrier` | internal/apduarbiter/arbiter.go:617-624 | yes if and only if some active barrier's set of blocked classes holds the class |
| `ArbiterObject.Arbiter.CanAcquireLease` | internal/apduarbiter/arbiter.go:481-505 | says exactly whether the ticket at its position is grantable |
| `ArbiterObject.Arbiter.CanAcquireBarrier` | internal/apduarbiter/arbiter.go:507-515 | says exactly whether a barrier may enter |
| `ArbiterObject.Arbiter.Acquire` | internal/apduarbiter/arbiter.go:407-479 | the section from the lock to holding a lease or sleeping is the Arrive step; it reports a grant exactly when the lease is active |
| `ArbiterObject.Arbiter.BeginBarrier` | internal/apduarbiter/arbiter.go:197-250 | the section from the lock to entering or sleeping is the Arrive step of a barrier |
| `ArbiterObject.Arbiter.Woken` | internal/apduarbiter/arbiter.go:448-479 | a woken goroutine's next look is the Wake step, and it is granted exactly when its ticket is grantable there |
| `ArbiterObject.Arbiter.GiveUp` | internal/apduarbiter/arbiter.go:448-479 | leaving the queue on a done context is the Cancel step |
| `ArbiterObject.Arbiter.Touch` | internal/apduarbiter/arbiter.go:641-663 | extending a deadline is the Touch step |
| `ArbiterObject.Arbiter.Release` | internal/apduarbiter/arbiter.go:665-684 | releasing a lease is the Release step |
| `ArbiterObject.Arbiter.ReleaseExpired` | internal/apduarbiter/arbiter.go:702-730 | the watchdog's callback is the Expire step, at any time |
| `ArbiterObject.Arbiter.ReleaseBarrier` | internal/apduarbiter/arbiter.go:686-700 | leaving a barrier is the BarrierLeave step |
| `ArbiterObject.Arbiter.DrawTicketId` | internal/apduarbiter/arbiter.go:219-219 | the atomic counter gives an id never given before |
| `ArbiterObject.Arbiter.IsIdle` | internal/apduarbiter/arbiter.go:797-803 | whether nobody waits or holds |
| `ArbiterObject.Arbiter.ReadStats` | internal/apduarbiter/arbiter.go:310-330 | the counters shown add up: requests = acquires + timeouts + queued; the active leases shown exclude each other and stay within the limit; the kind of the first ticket |
| `ArbiterObject.PendingBarrierFences` | internal/apduarbiter/arbiter.go:602-615 | a lease behind a queued barrier is not grantable anyway, so the separate test is redundant |
| `ArbiterObject.SelectionByIdIsByPlace` | internal/apduarbiter/arbiter.go:481-505 | comparing the selected id is comparing the selected position |
| `SimAuthReady.StepKeeps` | internal/apduarbiter/simauth_ready.go:50-115 | every section keeps: one probe in flight, channels consistent, generation and readiness as the history says |
| `SimAuthReady.NilReturnIsFresh` | internal/apduarbiter/simauth_ready.go:50-115 | over all interleavings, when a call decides to return nil a probe begun in the current generation has succeeded |
| `SimAuthReady.OneProbeAtATime` | internal/apduarbiter/simauth_ready.go:84-108 | at most one probe is in flight |
| `SimAuthReady.ChannelsCloseOnce` | internal/apduarbiter/simauth_ready.go:99-102 | each wait channel is closed once, exactly when its probe ends |
| `SimAuthReady.SleepersWillWake` | internal/apduarbiter/simauth_ready.go:70-82 | a sleeper can wake, or the probe in flight will close the channel it sleeps on |
| `SimAuthReady.ProbeAlwaysHasChannel` | internal/apduarbiter/simauth_ready.go:71-75 | the branch that makes a channel for a waiter during a probe is never taken |
| `SimAuthReady.FinishIsFresh` | internal/apduarbiter/simauth_ready.go:95-98 | a probe that returns in the generation it began in makes readiness fresh |
| `SimAuthReady.LookEffect` | internal/apduarbiter/simauth_ready.go:65-90 | a ready gate answers at once and starts no probe; while a probe runs the caller sleeps on its channel; otherwise the caller starts one on a new channel in the current generation |
| `SimAuthReady.ProbeEffect` | internal/apduarbiter/simauth_ready.go:92-113 | the end of a probe closes its channel; in its own generation its outcome is the gate's and the call's, in a later one the gate stays and the call looks again after a success and fails after a failure |
| `SimAuthReady.InvalidateEffect` | internal/apduarbiter/simauth_ready.go:25-41 | an invalidation closes the gate under a new generation and does not stop the probe that runs |
| `SimAuthReady.ReadyGateStartsNoProbe` | internal/apduarbiter/simauth_ready.go:65-69 | after a look at a ready gate no probe has begun |
| `SimAuthReady.Gate.Look` | internal/apduarbiter/simauth_ready.go:65-90 | the section at the top of the loop is the Check step |
| `SimAuthReady.Gate.ProbeReturned` | internal/apduarbiter/simauth_ready.go:92-113 | the section after the probe is the Finish step; it closes an open channel only; Nil only with a fresh success |
| `SimAuthReady.Gate.InvalidateReady` | internal/apduarbiter/simauth_ready.go:25-41 | invalidation is the Invalidate step |
| `MbimFragments.SplitCommand` | pkg/mbim/fragment.go:79-125 | the loops over sizes and buffers produce the frames of the chunks of the info buffer |
| `MbimFragments.SplitChunks` | pkg/mbim/fragment.go:79-104 | the chunks put together are the info buffer; fewer than 2^32 of them when it is shorter than that |
| `MbimCollector.SplitThenCollect` | pkg/mbim/fragment.go:27-125 | split then collect gives back service, CID, command-type word and info if and only if the info buffer is shorter than 2^32 octets, for every transfer size |
| `MbimCollector.CutThenCollect` | pkg/mbim/fragment.go:27-77 | any cutting into fragments fed in order reports done exactly on the last one and gives back the message |
| `MbimCollector.FragmentsFit` | pkg/mbim/fragment.go:79-125 | with a transfer size over 48 every fragment fits it and carries its own length in its header |
| `MbimCollector.Add` | pkg/mbim/fragment.go:27-58 | a fragment that is refused, out of order for instance, leaves the collector as it was |
| `MbimCollector.CollectorObject.AddFragment` | pkg/mbim/fragment.go:27-58 | the method updates the collector's fields as that function says |
| `MbimCollector.CollectStep` | pkg/mbim/fragment.go:27-58 | the next fragment in order is accepted, done exactly when last |
| `MbimCollector.FirstFrameFields` | pkg/mbim/message.go:12-50 | each header field is read where it was written, in 32 bits |
| `MbimCollector.NextFrameFields` | pkg/mbim/fragment.go:118-123 | each header field of a later fragment is read where it was written, in 32 bits |
| `MbimDelivery.DeliversOwnReply` | pkg/mbim/device.go:142-243 | over all interleavings from any state, a pending command without a collector whose transaction's steps are the fragments of its reply gets exactly one result: its own service, CID, status and info buffer |
| `MbimDelivery.DeliversWhatCame` | pkg/mbim/device.go:142-243 | the same for any fragments in order, whatever length they announce: the announced part of what came, or the malformed-reply error if less came |
| `MbimDelivery.OtherMessage` | pkg/mbim/device.go:142-243 | a message about another transaction leaves this one's caller, channel and collector alone |
| `MbimDelivery.TransactionIdsDiffer` | pkg/mbim/device.go:91-96 | two allocations get the same id if and only if they are a multiple of 2^32 apart |
| `MbimRuns.EveryCallGetsItsReply` | pkg/mbim/device.go:91-243 | over every run from a new device in which each call registers an id it drew, with at most 2^32 draws, a call that has not given up and whose modem sends about its id just the fragments of its reply after it registered has exactly its own reply on its own channel, whatever the other calls do; nothing is assumed about reuse of ids |
| `MbimRuns.RegisteredGetsReply` | pkg/mbim/device.go:98-243 | from a new device on, a transaction nothing happened to before it was registered gets its reply |
| `MbimRuns.NoCollectorBefore` | pkg/mbim/device.go:202-211 | a transaction nothing has happened to has no collector |
| `MbimRuns.DrawsDiffer` | pkg/mbim/device.go:91-96 | with at most 2^32 draws two draws give two ids |
| `MbimRuns.OnlyOwner` | pkg/mbim/device.go:91-136 | nobody but the call that drew an id registers it or gives it up |
| `MbimReplies.EveryCallGetsItsAnswer` | pkg/mbim/device.go:83-243 | over every run, under the terms of EveryCallGetsItsReply, a call whose modem answers it once with OPEN_DONE or CLOSE_DONE after it registered has exactly that answer's status on its own channel |
| `MbimReplies.AnswerArrives` | pkg/mbim/device.go:142-243 | over any steps, when the one step about a waiting transaction is its answer, its channel then holds exactly the answer's status |
| `MbimReplies.AnswerDelivers` | pkg/mbim/device.go:149-159 | the sixteen octets of an OPEN_DONE or CLOSE_DONE leave exactly their status on the channel of the transaction they name and end it; to a transaction that is not pending they are nothing |
| `MbimReplies.Ignored` | pkg/mbim/device.go:142-166 | a message without a whole header, an answer without a status and a message of any other type change nothing |
| `MbimReplies.ReadErrorReachesAll` | pkg/mbim/device.go:245-254 | after a read error every pending caller's channel holds exactly that error, no other channel changed, and nothing is pending or half collected |
| `MbimReplies.CallerSteps` | pkg/mbim/device.go:91-136 | a draw is the next number in 32 bits, a registration opens a new channel, giving up forgets the transaction only, an indication is taken oldest first |
| `MbimReplies.TakenIff` | pkg/mbim/fragment.go:27-58 | a fragment is taken if and only if its fragment header is whole and it is the next in order, with its fixed fields when it is the first; what it is refused for otherwise |
| `MbimReplies.RefusedFragment` | pkg/mbim/device.go:168-211 | a refused fragment neither answers anybody nor loses what was collected |
| `MbimReplies.FragmentsAreFull` | pkg/mbim/fragment.go:79-104 | there are several fragments only if the transfer size is over 48 and the message does not fit, and all but the last fill it |
| `MbimDevice.SendNeverBlocks` | pkg/mbim/device.go:98-105 | over every run each reply channel is sent at most one result, so the send on its one place never blocks |
| `MbimDevice.SentGrows` | pkg/mbim/device.go:225-256 | what was sent on a channel stays |
| `MbimDevice.SendErrors` | pkg/mbim/device.go:245-256 | the loop of failPending sends the error once to each pending caller, in any map order, and to nobody else |
| `MbimDevice.NewInv` | pkg/mbim/device.go:41-49 | a new device satisfies the invariant |
| `MbimDevice.DeviceObject.Alloc` | pkg/mbim/device.go:91-96 | drawing a transaction id is the AllocTx step, with wrap-around |
| `MbimDevice.DeviceObject.RegisterPending` | pkg/mbim/device.go:98-105 | registering gives a new, empty channel to the transaction |
| `MbimDevice.DeviceObject.RemovePending` | pkg/mbim/device.go:219-223 | giving up is the Forget step |
| `MbimDevice.DeviceObject.Send` | pkg/mbim/device.go:225-243 | delivering a reply or an error to whoever is pending, on a channel that has room |
| `MbimDevice.DeviceObject.OnMessage` | pkg/mbim/device.go:142-243 | one turn of the read loop is the Message step |
| `MbimDevice.DeviceObject.FailPending` | pkg/mbim/device.go:245-256 | a read error is the ReadFailed step |
| `MbimStream.NothingLost` | pkg/mbim/transport.go:41-73 | for any reads, failing ones included, buffered + read octets = returned message + buffer + what is to come |
| `MbimStream.NothingLostInMany` | pkg/mbim/transport.go:41-73 | the same over any number of reads |
| `MbimStream.NextMessage` | pkg/mbim/transport.go:41-73 | a valid message next in the stream is returned, whatever the chunking |
| `MbimStream.StreamComesBack` | pkg/mbim/transport.go:41-73 | a stream of valid messages (12 to 65536 octets, right length) comes back as exactly those, in order, in any chunking |
| `MbimStream.ReadOutcome` | pkg/mbim/transport.go:41-73 | for every buffer and all reads: reading goes on while the octets wait for more and stops at the first read that fails or brings nothing, with that read's error, or an unexpected end of file behind octets; else the octets decide: a length under 12 or over 65536 is refused with nothing consumed, any other gives the message |
| `MbimStream.StreamTransport.ReadMessage` | pkg/mbim/transport.go:41-73 | the read loop does what the specification of reading says |
| `MbimStream.StreamTransport.WriteMessage` | pkg/mbim/transport.go:27-39 | under any short writes and errors: exactly the octets and the error the specification of writing gives; no error if and only if no write that fails or takes nothing comes before the message is out, and then exactly the message went out |
| `MbimStream.WriteSucceedsIff` | pkg/mbim/transport.go:27-39 | writing fails if and only if some write fails or takes nothing before the message is out; otherwise all of it goes out |
| `MbimStream.WriteStops` | pkg/mbim/transport.go:27-39 | a failed write ends at the first such write with its error, or a short write, after exactly what the writes up to it took |
| `MbimEndToEnd.BytesToCaller` | pkg/mbim/device.go:142-243 | stream, collector and device together: however reads cut the octets up, the caller of a transaction gets exactly its reply |
| `MbimEndToEnd.OctetsToCallers` | pkg/mbim/device.go:91-243 | stream, device and callers over whole runs from a new device in which other calls draw, register and give up in between: if the octets read are valid messages that say of a registered id just the fragments of its reply, the caller has exactly its reply, however reads cut the octets up |
| `MbimEndToEnd.HandlesStream` | pkg/mbim/transport.go:41-73 | a loop that handles what ReadMessage returns handles the messages of the stream in order |
| `MbimEndToEnd.CommandOverTheWire` | pkg/mbim/device.go:107-136 | if writing a command's fragments reports no error, whoever reads what went out, in any chunking, reads exactly the fragments and collects the command; it reports none if every write takes something and none fails |
| `MbimEndToEnd.SendCommand` | pkg/mbim/device.go:107-124 | splitting and writing in a loop up to the first error puts out exactly what the specification of writing the fragments says |
| `MbimEndToEnd.WritesAll` | pkg/mbim/device.go:116-123 | without an error all of every message goes out, in order |
| `MbimIndications.IndicationCollects` | pkg/mbim/device.go:184-200 | an indication in any number of fragments is collected back to its service, CID and info |
| `MbimIndications.IndicationArrives` | pkg/mbim/device.go:184-200 | over all interleavings, the fragments of an indication touch the queue only with the last one, which appends exactly the indication, or nothing if 16 are queued, and leaves the transaction ready for the next |
| `MbimIndications.OwnIndication` | pkg/mbim/device.go:184-200 | the next fragment moves the collector on, the last one queues the indication if there is room |
| `MbimIndications.ShapedFirst` | pkg/mbim/device.go:258-276 | shaping a first indication fragment gives exactly a reply fragment with status 0 and a right length |
| `SmsReassembler.ReassemblyIsOrderIndependent` | pkg/smscodec/reassembler.go:28-63 | a conversation not cleaned away completes exactly on its last missing part, with the parts in ascending order, whatever the order, the duplicates and the traffic of other conversations |
| `SmsReassembler.ConversationsAreIndependent` | pkg/smscodec/reassembler.go:28-81 | each conversation behaves as if its own fragments were all that arrived |
| `SmsReassembler.CompletesExactlyOnLastPart` | pkg/smscodec/reassembler.go:36-63 | nothing completes before the last missing part; that part gives the joined parts and removes the entry |
| `SmsReassembler.OrderDoesNotMatter` | pkg/smscodec/reassembler.go:36-63 | two arrivals of the same parts give the same message |
| `SmsReassembler.KeyInjective` | pkg/smscodec/reassembler.go:36-36 | two senders and references with the same key are the same |
| `SmsReassembler.SortIsASort` | pkg/smscodec/reassembler.go:55-55 | the sort gives a sorted permutation |
| `SmsReassembler.SortKeepsParts` | pkg/smscodec/reassembler.go:55-55 | sorting keeps each part under its number |
| `SmsReassembler.SortedReadsAsJoin` | pkg/smscodec/reassembler.go:56-59 | reading sorted fragments off is joining the parts in ascending order |
| `SmsReassembler.TwoParts` | pkg/smscodec/reassembler.go:55-63 | two parts in either order of arrival: the one with the smaller number comes first |
| `SmsReassembler.PartArrives` | pkg/smscodec/reassembler.go:28-63 | a part with a number already there is dropped; any other is kept, unless there are now as many as it says itself: then the parts joined in order are handed out and the entry is gone; other entries stay |
| `SmsReassembler.WholeMessage` | pkg/smscodec/reassembler.go:28-31 | a message that is no part of another is complete at once and nothing is kept of it |
| `SmsReassembler.CleanKeeps` | pkg/smscodec/reassembler.go:66-82 | a cleanup keeps an entry, unchanged, if and only if one of its fragments carries a time and that is after the cutoff |
| `SmsReassembler.Reassembler.Add` | pkg/smscodec/reassembler.go:28-63 | the loops and the cache update do what the specification of one arrival says |
| `SmsReassembler.Reassembler.Cleanup` | pkg/smscodec/reassembler.go:65-81 | exactly the entries with a fragment whose time is set and after the cutoff stay, as they are |
| `Gsm7.Unpack` | internal/modem/sim_metadata.go:280-299 | exactly (8 * octets - spare) / 7 septets, the k-th being digit k in base 128 of the octets' number; refused exactly when that count is not positive |
| `Gsm7.SeptetBits` | internal/modem/sim_metadata.go:290-298 | bit b of septet k is bit 7k + b of the octet stream (section 6.1.2.1.1 of 3GPP TS 23.038) |
| `Gsm7.UnpackInvertsPack` | internal/modem/sim_metadata.go:280-299 | unpacking inverts packing whatever fills the spare bits |
| `Gsm7.PackPacks` | internal/modem/sim_metadata.go:280-299 | every string of septets has such a packing |
| `Gsm7.Bounded` | internal/modem/sim_metadata.go:288-298 | the accumulator stays below 2^14, so it never wraps |
| `Gsm7.TakeOctet` | internal/modem/sim_metadata.go:291-292 | or-ing the shifted octet in adds it |
| `PnnRecord.DecodeRecord` | internal/modem/sim_metadata.go:114-142 | the record read is the one its objects describe; it is refused exactly when there is none |
| `PnnRecord.TlvLength` | internal/modem/sim_metadata.go:154-173 | the length of the run of name objects at the front of the trimmed data |
| `PnnRecord.TrimPadding` | internal/modem/sim_metadata.go:95-101 | the data up to its last octet that is not 00 or FF |
| `PnnRecord.PaddedRecord` | internal/modem/sim_metadata.go:95-173 | every object of a padded record comes back, except exactly a last one whose value ends in 00 or FF, which is lost |
| `PnnRecord.BothWalksAgree` | internal/modem/sim_metadata.go:121-140 | the walk over lengths meets the objects the first walk accepted, at the same places |
| `PnnRecord.NamesOfRecord` | internal/modem/sim_metadata.go:121-152 | the full name is the last readable one under tag 43, the short name the last readable one under tag 45, and each is empty without one |
| `BerTlv.CollectsForest` | internal/simaid/tlv.go:3-56 | on the encoding of any forest (section 5.2.2 of ISO/IEC 7816-4), with padding between objects and lengths of up to three octets, minimal or not, the result is the pre-order list of values under the tag |
| `BerTlv.CollectTLVValues` | internal/simaid/tlv.go:3-56 | the cursor loop and its recursion, on strictly shorter data, compute what the specification collects on any octets |
| `BerTlv.CollectsSlices` | internal/simaid/tlv.go:3-56 | whatever the data, every value collected is a piece of it |
| `BerTlv.NodeReads` | internal/simaid/tlv.go:6-47 | an encoded object is taken exactly as it was put |
| `BerTlv.TakenIsObject` | internal/simaid/tlv.go:6-47 | only an encoded object behind padding is ever taken: a tag that ends, a length of up to three octets, a value that is all there |
| `BerTlv.ScanObject` | internal/simaid/tlv.go:6-47 | one turn of the loop takes the next object or stops |
| `Qmi.BuildQMIMessage` | pkg/mbim/uicc_qmi.go:67-105 | the buffer filled by offset is the frame |
| `Qmi.FrameLayout` | pkg/mbim/uicc_qmi.go:67-105 | every field of both kinds of frame by its offset: the fixed octets, service, client, transaction in one or two octets, message, TLVs; each 16-bit length is right if and only if it fits |
| `Qmi.TlvsReadBack` | pkg/mbim/uicc_qmi.go:113-127 | a run of TLVs is read back as it was put |
| `Qmi.ExtractClientId` | pkg/mbim/uicc_qmi.go:108-129 | the loop finds the first client TLV long enough |
| `Qmi.ClientComesBack` | pkg/mbim/uicc_qmi.go:37-48 | whatever control frame carries the client TLV behind others, its client id comes out |
| `Qmi.ParseQMIResultOnly` | pkg/mbim/uicc_qmi_power.go:12-32 | the first long enough result TLV decides |
| `Qmi.ResultFound` | pkg/mbim/uicc_qmi_power.go:18-32 | behind any others, the first four octets of type 2 decide: success if the result is 0, else a refusal with the error that follows |
| `Qmi.NotThere` | pkg/mbim/uicc_qmi_power.go:18-32 | there is no verdict, and no client, if and only if no TLV of that type is long enough |
| `CardStatus.WellFormedFrame` | pkg/mbim/uicc_qmi.go:135-210 | on a frame with a well-formed card status the application walker returns all applications in slot order and the slot walker the first active slot |
| `CardStatus.WalkersAgree` | pkg/mbim/uicc_qmi_power.go:73-127 | over any octets: a whole structure gives both walkers all its applications and its first active slot; a cut one is noticed by the first and never reported as having no active slot by the second |
| `CardStatus.SameAppBoundaries` | pkg/mbim/uicc_qmi_power.go:109-118 | over any octets both walkers and the structure cross the same application boundaries |
| `CardStatus.SlotsRead` | pkg/mbim/uicc_qmi.go:161-205 | the structure is read back from its encoding |
| `CardStatus.SlotsEncode` | pkg/mbim/uicc_qmi.go:161-205 | what is read whole is encoded by exactly the octets read |
| `CardStatus.FirstActiveIsFirst` | pkg/mbim/uicc_qmi_power.go:103-108 | the slot returned is the first whose card and slot states are both 1: its logical slot, or its place when that is 0 |
| `CardStatus.NoneActive` | pkg/mbim/uicc_qmi_power.go:103-122 | no slot is reported if and only if none is active |
| `CardStatus.FlattenInOrder` | pkg/mbim/uicc_qmi.go:161-205 | the applications come slot by slot |
| `CardStatus.FlattenOne` | pkg/mbim/uicc_qmi.go:171-203 | and within a slot each with its type octet and its identifier |
| `CardStatus.ParseAllAIDs` | pkg/mbim/uicc_qmi.go:135-210 | the nested cursor loops, in bounds on every input, return what the application walk gives |
| `CardStatus.ParseActiveSlot` | pkg/mbim/uicc_qmi_power.go:73-127 | the cursor loops, in bounds on every input, return what the slot walk gives, errors included |
| `PduTrim.DeliverTPDULayout` | pkg/smscodec/pdu_trim.go:109-148 | the moving cursor finds the layout, or refuses |
| `PduTrim.LayoutOfDeliver` | pkg/smscodec/pdu_trim.go:109-148 | on a TPDU put together from its fields (section 9.2.2.1 of 3GPP TS 23.040) the layout names the fields' own places |
| `PduTrim.LayoutMeansDeliver` | pkg/smscodec/pdu_trim.go:109-148 | there is a layout only where the octets are such a TPDU |
| `PduTrim.TrimCutsTrailing` | pkg/smscodec/pdu_trim.go:66-84 | trimming cuts off exactly what lies behind the user data |
| `PduTrim.NormalizeSpareBits` | pkg/smscodec/pdu_trim.go:86-107 | masking a copied buffer is the clearing operation |
| `PduTrim.ClearBits` | pkg/smscodec/pdu_trim.go:86-107 | with septets, clearing leaves every user-data bit below 7 * length and zeroes the rest; with octets it changes none (section 9.2.3.16 of 3GPP TS 23.040) |
| `PduTrim.ClearElsewhere` | pkg/smscodec/pdu_trim.go:86-107 | no other octet changes |
| `PduTrim.TrimIsDeclaredPrefix` | pkg/smscodec/pdu_trim.go:66-84 | trimming returns the prefix of exactly the declared length |
| `PduTrim.TrimTwice` | pkg/smscodec/pdu_trim.go:66-72 | trimming is idempotent |
| `PduTrim.ClearTwice` | pkg/smscodec/pdu_trim.go:86-107 | clearing is idempotent |
| `PduTrim.TrimClearCommute` | pkg/smscodec/pdu_trim.go:66-107 | trimming and clearing commute |
| `PduTrim.TrimKeepsLayout` | pkg/smscodec/pdu_trim.go:66-84 | trimming keeps the layout |
| `PduTrim.ClearKeepsLayout` | pkg/smscodec/pdu_trim.go:86-107 | clearing keeps the layout |
| `PduTrim.TrimFullKeeps` | pkg/smscodec/pdu_trim.go:45-63 | on the octets: the service-centre address stays, the TPDU is trimmed, octets that do not reach that far are left alone, and doing it again changes nothing |
| `PduHex.TrimTextIs` | pkg/smscodec/pdu_trim.go:35-64 | hexadecimal text is trimmed as its octets are and printed in upper case; any other text or a negative length only loses the white space around it; doing it again changes nothing |
| `PduHex.DecodesEncoded` | pkg/smscodec/pdu_trim.go:41-63 | decoding inverts encoding |
| `PduHex.EncodedAt` | pkg/smscodec/pdu_trim.go:63-63 | each octet is printed as two digits of 0 to 9 and A to F, the high one first |
| `PduHex.DecodesIff` | pkg/smscodec/pdu_trim.go:41-44 | text is hexadecimal if and only if its length is even and every character is a digit of either case |
| `WbxmlHeader.ReadsEncoded` | pkg/smscodec/wbxml_omacp.go:195-208 | reading inverts the mb_u_int32 encoding (section 5.1 of WBXML 1.3) in any width up to five octets, in 32 bits |
| `WbxmlHeader.ReadEnds` | pkg/smscodec/wbxml_omacp.go:195-208 | an integer ends at its first octet without the top bit if that is among the first five; else it is too long, or the data ends in it |
| `WbxmlHeader.ParseMBUint32At` | pkg/smscodec/wbxml_omacp.go:135-153 | the offset reader gives what the reading function gives |
| `WbxmlObject.Reader.ReadMBUint32` | pkg/smscodec/wbxml_omacp.go:195-208 | the cursor reader gives what the same function gives, so both agree |
| `WbxmlHeader.IsWBXMLHeader` | pkg/smscodec/wbxml_omacp.go:108-132 | says yes if and only if the decoder's header stage succeeds and the version is 1 to 3 |
| `WbxmlHeader.FindWBXMLStart` | pkg/smscodec/wbxml_omacp.go:89-105 | the first suffix that is a header, which always passes the header stage, or nothing if there is none |
| `WbxmlHeader.HeaderReadsBack` | pkg/smscodec/wbxml_omacp.go:248-281 | a header put together from its parts is read back, in any integer widths |
| `WbxmlHeader.HeaderRefused` | pkg/smscodec/wbxml_omacp.go:248-281 | no octets, another document type, a string table that is not all there, and an integer cut off at each place: what each is refused for |
| `WbxmlMeaning.DecodesWhatIsSaid` | pkg/smscodec/wbxml_omacp.go:248-442 | on every document of groups of settings under the OMA tables, nested to any depth, in letters, tokens and table strings of both pages, wrapped or not, and whatever follows where the reader stops: each node has its group's type, exactly its named settings with the trimmed value of the last one of each name, and its inner groups in order; a setting's name may be its text; a document without entries gives nothing |
| `WbxmlMeaning.GroupMeans` | pkg/smscodec/wbxml_omacp.go:388-412 | the same of one group: type, settings and inner groups |
| `WbxmlMeaning.AttributesMean` | pkg/smscodec/wbxml_omacp.go:445-525 | an attribute list gives each name the value of its last attribute: what the start token begins and the pieces go on with, trimmed |
| `WbxmlMeaning.NoTypeIsTheMark` | pkg/smscodec/wbxml_omacp.go:388-412 | no group's type can be the mark that settings carry inside the reader |
| `WbxmlMeaning.StoredString` | pkg/smscodec/wbxml_omacp.go:225-234 | a table reference gives the string up to its NUL or the table's end, and nothing from there on |
| `WbxmlMeaning.CutOpaque` | pkg/smscodec/wbxml_omacp.go:237-244 | opaque data longer than what is left is not skipped |
| `WbxmlExample.Example` | pkg/smscodec/wbxml_omacp.go:248-442 | a whole document octet by octet: the group NAPDEF with NAP-ADDRESS set to internet |
| `WbxmlRoundTrip.DecodeInvertsEncode` | pkg/smscodec/wbxml_omacp.go:248-442 | decoding inverts encoding for every document: nested elements, attribute lists, inline and table strings, opaque data, code-page switches; what follows where the reader stops takes nothing back |
| `WbxmlRoundTrip.RefusedIff` | pkg/smscodec/wbxml_omacp.go:307-331 | an element is refused exactly at the end of the data, at a stray end token and at a switch without its page, behind any switches |
| `WbxmlRoundTrip.ElemReads` | pkg/smscodec/wbxml_omacp.go:307-386 | an encoded element is read as what it means and the reader is just after it |
| `WbxmlRoundTrip.ItemsRead` | pkg/smscodec/wbxml_omacp.go:343-385 | the same of an element's content |
| `WbxmlRoundTrip.AttrsRead` | pkg/smscodec/wbxml_omacp.go:445-525 | the same of an attribute list |
| `WbxmlTables.ReadAsMeantIff` | pkg/smscodec/wbxml_omacp.go:497-518 | with the tables of OMA client provisioning a start or value token is read as meant if and only if the round trip counts it as valid where it stands |
| `WbxmlTables.TypeReadAsMeant` | pkg/smscodec/wbxml_omacp.go:497-518 | a characteristic type is read as a start exactly while no attribute is open and as a value exactly while one is |
| `WbxmlTables.BothTablesAreTypes` | pkg/smscodec/wbxml_omacp.go:800-817 | the tokens of both tables are exactly the characteristic types, which start "type" with their own value |
| `WbxmlTables.StartsOfPage0` | pkg/smscodec/wbxml_omacp.go:596-657 | where the runs of the start table of page 0 begin and end, and what stands there |
| `WbxmlTables.StartsOfPage1` | pkg/smscodec/wbxml_omacp.go:739-762 | the same of page 1 |
| `WbxmlTables.ValuesOfPage0` | pkg/smscodec/wbxml_omacp.go:660-734 | the same of the value table of page 0 |
| `WbxmlTables.ValuesOfPage1` | pkg/smscodec/wbxml_omacp.go:765-798 | the same of page 1 |
| `WbxmlTables.StaysTyped` | pkg/smscodec/wbxml_omacp.go:445-525 | an open "type" always has a value, whatever token comes |
| `WbxmlTables.StartReadAsValue` | pkg/smscodec/wbxml_omacp.go:497-518 | a name followed by the type NAPDEF is read as the name "NAPDEF" and no type |
| `WbxmlTables.ValueReadAsStart` | pkg/smscodec/wbxml_omacp.go:497-518 | the value NAPDEF with no attribute open is read as a type |
| `WbxmlObject.Reader.ParseElement` | pkg/smscodec/wbxml_omacp.go:307-442 | the recursive reader stays in bounds, makes strict progress, terminates on every input and computes what the specification says |
| `WbxmlObject.Reader.ParseContent` | pkg/smscodec/wbxml_omacp.go:343-385 | the same of the content loop |
| `WbxmlObject.Reader.ParseAttributes` | pkg/smscodec/wbxml_omacp.go:445-525 | the same of the attribute loop |
| `WbxmlObject.Reader.ReadStrI` | pkg/smscodec/wbxml_omacp.go:211-222 | a string up to its NUL, or to the end |
| `WbxmlObject.Reader.ReadStrT` | pkg/smscodec/wbxml_omacp.go:225-234 | a string of the table, empty when out of range |
| `WbxmlObject.DecodeWBXML` | pkg/smscodec/wbxml_omacp.go:248-303 | the whole decoder computes what the specification says |
| `OverviewEffects.StoredStays` | internal/esim/manager.go:1320-1519 | over every run, a successful load stored under the current generation stays cached until the next bump, whatever else runs: the cache holds that load's overview, unchanged if no patch since knew its target, else with exactly the profiles enabled that the last such patch names |
| `OverviewEffects.LooksFindIt` | internal/esim/manager.go:1491-1494 | so every look until then hands out that overview and names that load |
| `OverviewEffects.SharersGetTheLoad` | internal/esim/manager.go:1498-1519 | over every run, everybody who shared a call gets what its load returned, stored or not |
| `OverviewEffects.NothingOldAfterBump` | internal/esim/manager.go:1333-1354 | after an invalidation or a reset nothing loaded before it is cached again, and no call that begins after it hands such a thing out |
| `OverviewEffects.StoreStep` | internal/esim/manager.go:1320-1331 | a store under the current generation leaves exactly the loaded overview or none, its error or none, and its chip or the old one; under any other nothing is written; the shared call's answer is the load's either way |
| `OverviewEffects.LookStep` | internal/esim/manager.go:1491-1494 | a look answers with what is cached and changes nothing else |
| `OverviewEffects.JoinStep` | internal/esim/manager.go:1495-1499 | a caller that missed takes the current generation as its key and shares the call open under it, or opens one |
| `OverviewEffects.BumpStep` | internal/esim/manager.go:1333-1354 | each bump begins the next generation with no overview and no error; which of chip and discovery results it keeps |
| `OverviewEffects.PatchEffect` | internal/esim/manager.go:1422-1489 | a patch takes if and only if the cached overview knows the target, and then enables exactly what it names |
| `OverviewRuns.CachedAfterEveryBump` | internal/esim/manager.go:1320-1354 | over every interleaving, a cached overview comes from a load begun in the current generation, after the latest bump, and has that load's profiles |
| `OverviewRuns.AnswersAreFresh` | internal/esim/manager.go:1491-1519 | what a call hands out comes from a load begun after every invalidation that was over when the call began, even if it shared another's load |
| `OverviewRuns.StepKeepsInv` | internal/esim/manager.go:1320-1519 | every section keeps: cached and shared results are fresh for their keys, one open shared call per key, nothing cached while one may still write |
| `OverviewRuns.EveryStateInv` | internal/esim/manager.go:1320-1519 | every state of every run satisfies the invariant |
| `OverviewRuns.OneLoadPerKey` | internal/esim/manager.go:1498-1513 | at most one shared call is open per generation |
| `OverviewRuns.StoreOverwritesNothing` | internal/esim/manager.go:1320-1331 | a store never replaces another load's overview and a failed load discards none |
| `OverviewCache.PatchIsRightIff` | internal/esim/manager.go:1422-1489 | for a given target, success is reported exactly when the cache holds the target, on every cache, if and only if the normalised target has no space or quote left at either end |
| `OverviewCache.PatchOfSettled` | internal/esim/manager.go:1422-1489 | for such a target success means exactly that the cache holds the non-empty normalised target, whatever the group key |
| `OverviewCache.RefusedExample` | internal/esim/manager.go:1899-1910 | a target for which a cache holding that very ICCID is refused |
| `OverviewCache.SettledIff` | internal/esim/manager.go:1899-1904 | normalising twice is normalising once if and only if no space or quote is left at an end |
| `OverviewCache.NormalizeStrips` | internal/esim/manager.go:1899-1904 | white space at the ends goes first, then quotes, then fillers at the end |
| `OverviewCache.PatchEnablesExactly` | internal/esim/manager.go:1471-1485 | on success exactly the matching profiles are enabled and nothing else changes; without success nothing changes |
| `OverviewCache.PatchTwice` | internal/esim/manager.go:1422-1489 | patching twice is patching once |
| `OverviewCache.Manager.PatchCachedActiveProfile` | internal/esim/manager.go:1422-1489 | the searches and the marking loops do what the specification says, independently of the group key |
| `OverviewCache.Manager.Find` | internal/esim/manager.go:1437-1469 | a search finds only what is there, and with no group key all that is there |
| `OverviewCache.Manager.SetOverviewCache` | internal/esim/manager.go:1320-1331 | under the current generation the fields are exactly the overview, the error, and the overview's chip or the old one; under any other they stay |
| `OverviewCache.Manager.InvalidateOverviewCache` | internal/esim/manager.go:1333-1346 | the next generation, with no overview, error or chip |
| `OverviewCache.Manager.ClearHardwareDiscoveryCaches` | internal/esim/manager.go:1348-1354 | the same, with nothing discovered |
| `OverviewCache.Manager.ResetForRefresh` | internal/esim/manager.go:1784-1792 | the next generation, with no overview or error, nothing discovered, and the chip only if it can be reused |

## Left out

- 64-bit counters, ids and generations are unbounded naturals: their wrap-around is not modelled. Transaction ids and all 16- and 32-bit fields do wrap.
- Each critical section reads the clock once; the source may read it more than once inside one section. Clock readings are assumed not to go back between sections.
- Contexts and timers are Cancel and Expire steps that may come at any time; the release-once guard of a lease handle is the exactness of release.
- Owners, modes as shown, wait and hold statistics other than the conserved counters, snapshots, WaitIdle and log events of the arbiter.
- The MBIM device handles one message as one step, though the source takes its lock several times in it; callers that register or cancel in between are ordered before or after it.
- MbimRuns.EveryCallGetsItsReply: states delivery while the read loop runs, for a modem that sends nothing else about that transaction; an indication that carries a pending transaction id shares its collector, as in the source.
- Opening and closing of the MBIM device, its proxy and serial transports, and single-structure MBIM encoders and parsers.
- Reassembly keys do not include the width of the reference; a duplicate that arrives after completion starts a new entry. Both are as in the source.
- SMS sequence numbers are naturals, times are natural numbers with 0 for the zero time.
- SmsReassembler.Reassembler.Add: the in-place sort of the fragment slice is modelled as a function on sequences; sharing of the backing array is not modelled.
- The GSM character table and the choice between name encodings; the name decoder is a parameter of PnnRecord.DecodeRecord.
- The alphabet of a data coding scheme is an uninterpreted function from the scheme to an optional alphabet; reading the length out of a modem's header line is left out.
- The reader is proved for every choice of token tables and of the trimming of attribute values; WbxmlTables has the tables themselves, the trimming stays a parameter. Formatting of the decoded configuration, detection by port, and the version text are left out.
- WbxmlMeaning.DecodesWhatIsSaid: the trimming may be any that keeps a capital letter in front, as that of white space does (`WbxmlMeaning.TrimKeepsCapitals`); opaque data, text directly in a group and attributes of the document element are only in the round trip of trees.
- The recursion depth of the TLV and WBXML readers is not bounded; stack exhaustion is not modelled.
- OverviewRuns.CachedAfterEveryBump: runs do not contain RefreshProfiles, which writes profiles into the cache without looking at the generation, nor the chip-information writers outside the cached slice.
- A loader that returns neither an overview nor an error, the clearing of chip information after a refresh, and the suppression windows and background reloads of the overview.
- OverviewEffects.StoreStep: the runs carry one error for every failed load; the object stores whichever it is given.
- Sharing of the cached overview between a reader that copies it after unlocking and a patch in place is not modelled: overviews are values.
- Application identifiers of groups are compared through an arbitrary key function; the result does not depend on it.
- Error values carry their kind; message texts are left out.
- The ECM bootstrap, call poller, AT text parsers, cellular policy, configuration files, HTTP handlers and user interfaces.
