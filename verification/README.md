# csar-core: protocols of the shared service library, in Dafny

csar-core is a Go library that services share. This project models its stateful
parts and proves what they promise in every run:

- the transactional audit outbox and its relay (`audit/outbox.go`),
- the flight registry and the byte scope built on it (`readcache/group.go`, `readcache/scope.go`),
- the token minter with its cache, gates, backoff and sweep (`tokenmint/minter.go`),
- the batching audit client (`audit/client.go`),
- the keyset-paginated audit listing and its cursor (`audit/postgres.go`),
- the retrying round tripper and its shared budget (`stsclient/retry_transport.go`),
- the SMTP submission session (`email/smtp.go`),
- the in-place JSON redactors (`jsonredact/redact.go`),
- the migration runner (`pgutil/migrate.go`).

Most parts have two layers. Transition functions on values say what one atomic
step does; an object is a class whose methods, with the source's loops and
branches, are proved against those functions. A second module (`...Runs`, or the
end of the same file) puts the steps into runs: any number of goroutines, workers,
callers or processes, with crashes, panics, lost answers and cancellations in every
interleaving. An invariant is shown to survive every step, and the theorems follow
from it. `ScopeAnswers` and `AuditClientFates` then say what every call returns and what
becomes of every event. Time is an integer from a clock that never goes back, each SQL statement
and each section under a mutex is one step, and transports, loaders, servers and
random draws are arbitrary inputs.

Some promises turned out to hold only under a condition. The code is modelled as it
is, a concrete input or run shows the failure, and the condition is proved to be the
exact one:

- The token of an accepted answer is usable exactly when the lifetime was left out or stays positive as int64 nanoseconds; half a second and ten billion seconds are both accepted and give a token that has already expired (`MintedTokenIsUsableIff`).
- The minimum refresh interval and the failure waits survive `Sweep` exactly when they do not exceed `IdleTTL` (`HardFloorHoldsIff`, `WaitsAreHonouredIff`).
- A sweep forgets exactly the idle credentials that were contacted since they were last forgotten, so one that only ever met the rate limiter stays in memory for ever (`SweepForgetsIff`, `NeverContactedIsNeverSwept`).
- The doubling of the backoff is the capped power of two exactly when it stays within int64, and a clamp respects its bounds exactly when they are in order; the configuration checks neither (`BackoffIsExactIff`, `ClampStaysInRangeIff`).
- Two profiles can share a state key exactly when one name is the other continued past a NUL (`ProfilesCollideIff`, `CredentialKeysCollideIff`).
- A repeated `Close` of the audit client cuts no event off exactly when everything had already been sent at the call, as it has once the first `Close` is past its wait (`RepeatedCloseIsSafeIff`, `CloseAfterTheFirstIsSafe`).
- Every send of a request carries its body exactly when the request is not retried, can produce its body again, or has no bytes; a retried `GET` can lose its body (`SendsCarryTheBodyIff`).
- A definite failure is reported for an accepted message exactly when the server accepted with a 2yz reply other than 250 (`OutcomeIsSoundIff`).

Two behaviours are worth knowing: `List` ignores the service and request id of its
filter and silently restarts on an undecodable cursor (`ListIgnores`), and a final `*`
in a redaction path selects only a key that is literally named `*`
(`LastComponentIsLiteral`).

## Model

| member | source | states |
|---|---|---|
| Outbox.NewPGOutbox | audit/outbox.go:33-38 | A handle exists exactly when both a pool and a service name are given, and is bound to them. |
| Outbox.PGOutbox.EnqueueTx | audit/outbox.go:66-95 | Table and error after an enqueue are those of the reference transition: four refusals without effect, a fresh row, an accepted repetition, an identity conflict. |
| Outbox.EnqueueNeverTouchesAPendingRow | audit/outbox.go:82-94 | Whatever is enqueued, pending rows keep every lease, attempt and schedule field; success means that the row now holds exactly these bytes; conflict is reported exactly for different content under a pending id. |
| Outbox.EnqueueSucceedsIff | audit/outbox.go:66-95 | Exactly which submissions succeed and which error the others get; the row of a new id starts due, unclaimed and unleased. |
| Outbox.PGOutbox.Candidate | audit/outbox.go:108-112 | The scan returns the unique least unlocked due row of the service in the order of next attempt, enqueue time and id, and nothing only if no row is eligible. |
| Outbox.CandidateIsUnique | audit/outbox.go:108-112 | The row that the claim query picks is determined by table, time and locked rows. |
| Outbox.PGOutbox.ClaimRow | audit/outbox.go:104-121 | A claim leases the candidate for sixty seconds under the given token, counts one attempt and changes no other row; no claim means nothing was eligible and nothing changed. |
| Outbox.PGOutbox.Finish | audit/outbox.go:123-141 | Table and error after finish are those of the reference transition, guarded by current token and live lease. |
| Outbox.FinishChangesOnlyALiveClaim | audit/outbox.go:123-141 | Finish changes the table exactly when the claim holds a live lease, only the claimed row, removes it exactly on a delivered success, and reports lease lost exactly otherwise. |
| Outbox.RetrySecondsBounds | audit/outbox.go:143-151 | The retry delay is monotone, between 1 and 30, and the power of two capped at 30 for every attempt count. |
| Outbox.PGOutbox.DeliverOne | audit/outbox.go:155-178 | One relay round, with either database call possibly failing or losing its answer, removes the claimed row only after a reported success inside the lease; in all other cases the row stays with its payload, released or leased. |
| Outbox.FinishedAfterClaim | audit/outbox.go:123-141 | A finish after its own claim is decided by whether it still runs inside the lease, and by nothing else. |
| Outbox.RoundLosesOnlyDeliveredRows | audit/outbox.go:155-178 | A round removes its row exactly after a successful send and a finish that arrived inside the lease; otherwise the row keeps its content with one more attempt, leased or released, and all other rows stay. |
| OutboxRuns.StepKeepsInv | audit/outbox.go:66-178 | Every enqueue, claim, send, finish, crash and clock step keeps custody, lease records, claim counts and exclusive tokens. |
| OutboxRuns.RunKeepsInv | audit/outbox.go:66-178 | The invariant holds at every moment of every run of any number of workers and services. |
| OutboxRuns.CommittedIsHeldOrConfirmed | audit/outbox.go:26-27 | Every committed event is still a row with exactly its bytes or a send of it reported success, and nothing is ever sent that was not committed. |
| OutboxRuns.PendingUntilDelivered | audit/outbox.go:153-178 | At-least-once: a row inserted at some step is there at every later step unless a send of those bytes succeeded strictly in between. |
| OutboxRuns.RemovalFollowsDelivery | audit/outbox.go:123-141 | A row that leaves the table was delivered after its own insertion, not in an earlier life of the id. |
| OutboxRuns.RemovedByItsClaim | audit/outbox.go:123-141 | Only the finish of a successful send under the current claim removes a row. |
| OutboxRuns.SentWasDelivered | audit/outbox.go:163-171 | A worker about to finish successfully did send this claim's payload at an earlier step. |
| OutboxRuns.SpentForever | audit/outbox.go:104-141 | A token that is on no row never comes back to one. |
| OutboxRuns.AtMostOneClaimCanChangeARow | audit/outbox.go:123-141 | Fencing: of all claims ever issued for a row at most one can change it in a given state. |
| OutboxRuns.DeadClaimStaysDead | audit/outbox.go:123-141 | A superseded or expired claim reports lease lost and changes nothing at every later step. |
| OutboxRuns.StepKeepsMine | audit/outbox.go:104-141 | While a lease is live no step of another worker takes the row away or claims it. |
| OutboxRuns.FinishSucceedsExactlyInsideTheLease | audit/outbox.go:104-141 | A worker that does not crash finishes successfully if and only if its finish statement runs inside its own lease, whatever others do. |
| OutboxRuns.TimedRoundsExclude | audit/outbox.go:180-182 | With 5 s, 30 s and 5 s limits kept, finish takes effect, the lease is live throughout and nobody claims the row in between. |
| OutboxRuns.PendingRowsAreScheduled | audit/outbox.go:104-151 | Every pending row is due within 30 s, leased for at most 60 s, within the payload limit, and its attempts equal the claims taken since its insertion. |
| OutboxRuns.UntouchedRowBecomesDue | audit/outbox.go:108-112 | A row left alone for sixty seconds is claimable. |
| OutboxRuns.ClaimTakesTheEarliest | audit/outbox.go:104-121 | A claim takes the earliest due, free and unlocked row of its service by next attempt, enqueue time and id, leases it for sixty seconds, counts one attempt and touches nothing else. |
| OutboxRuns.FailedDeliveryIsRescheduled | audit/outbox.go:123-151 | A failed delivery that finishes inside its lease leaves the row unleased and due after exactly min(2^(n-1), 30) seconds, n being the claims taken since the row's insertion. |
| OutboxRuns.RoundReschedules | audit/outbox.go:155-178 | A crash-free round with a failed send reschedules its row exactly if its finish runs inside its own lease. |
| OutboxRuns.UnleasedRowStays | audit/outbox.go:85-141 | A row without a lease changes only when it is claimed. |
| OutboxRuns.NextClaimWaits | audit/outbox.go:104-151 | The next claim of a row whose delivery failed comes no earlier than that delay, whoever makes it. |
| OutboxRuns.BacklogZeroIsDrained | audit/outbox.go:209-219 | Backlog zero holds exactly when no committed event of the service is pending, and then all of them were confirmed. |
| GroupObjects.NewGroup | readcache/group.go:39-44 | A group exists exactly when all limits are positive, and starts empty. |
| GroupObjects.Registry.Begin | readcache/group.go:49-69 | A refusal for key or capacity without a ticket, a leader ticket or an attached follower, as the registry on values says. |
| GroupObjects.Registry.Finish | readcache/group.go:72-82 | Only the current ticket of the key completes, and exactly then is the call removed and its reply published. |
| GroupObjects.Registry.FireRelease | readcache/group.go:60-61 | A release function acts once and gives back one follower's place. |
| GroupObjects.Registry.Lead | readcache/group.go:114-118 | A leader completes its ticket with the load's result, or with the abort error after a panic; the deferred second finish changes nothing. |
| GroupObjects.Call.Wait | readcache/group.go:88-99 | A cancelled waiter leaves with its own error, otherwise a completed call gives its one reply. |
| Group.BeginSound | readcache/group.go:49-69 | Begin keeps the registry valid and leads exactly when the key is well-formed and free and there is room; a refusal changes nothing. |
| Group.BeginIsExact | readcache/group.go:49-69 | A key is bad exactly if empty or too long, capacity is reported exactly for a full flight or a full registry, and an admission adds exactly one flight or one follower's place. |
| Group.FinishSound | readcache/group.go:71-82 | Finish succeeds exactly for the unanswered flight of this key, changes no other flight, and keeps the registry valid. |
| Group.ReleaseSound | readcache/group.go:46-61 | Release is idempotent, frees exactly one place, and ends no flight. |
| Group.RunIsValid | readcache/group.go:17-22 | In every interleaving live keys stay within the limit with one ticket each, and each follower count equals the admitted and unreleased followers and is within its limit. |
| Group.RepliesAreFinal | readcache/group.go:72-82 | A flight keeps its key and its one reply for ever. |
| Group.OldTicketIsPowerless | readcache/group.go:71-77 | A completed ticket never completes anything again, whatever flight its key has now. |
| ScopeObjects.NewScope | readcache/scope.go:33-43 | A scope exists exactly when storage, lifetime and flight limits are positive and bounded, and starts empty. |
| ScopeObjects.Scope.Close | readcache/scope.go:45-51 | After Close nothing is stored and the scope is cancelled. |
| ScopeObjects.Scope.Reserve | readcache/scope.go:64-74 | Looking up returns an existing entry, refuses when full, or leaves exactly one reservation. |
| ScopeObjects.Scope.Commit | readcache/scope.go:93-106 | A commit stores a fresh copy and adds its length, or refuses for cancellation or space. |
| ScopeObjects.Scope.Enter | readcache/scope.go:64-74 | Between calls a lookup finds the stored entry or leaves the key's as the one reservation. |
| ScopeObjects.Scope.Fill | readcache/scope.go:83-106 | A reservation is filled exactly when the load succeeds, is not cancelled and fits both limits; otherwise nothing changes and the reason is returned. |
| ScopeObjects.Scope.Resolve | readcache/scope.go:53-112 | Exactly when a call succeeds and with which error it fails; a success hands out a fresh copy of the stored bytes and stores at most this load, a failure leaves all fields as they were. |
| ScopeObjects.CallersCannotCorrupt | readcache/scope.go:21-22 | After overwriting the loader's array and the returned array, a second Resolve of a stored key succeeds with the original bytes. |
| Scope.TotalWith | readcache/scope.go:98-104 | Setting one entry changes the account by exactly that entry's length. |
| Scope.CommitIsAccounted | readcache/scope.go:93-106 | A commit keeps the byte counter equal to the total of the entries and within its limit. |
| Scope.ReserveIsAccounted | readcache/scope.go:64-74 | A reservation keeps the account and the entry limit. |
| Scope.UndoIsAccounted | readcache/scope.go:76-82 | Removing an unfilled reservation keeps the account. |
| ScopeRuns.StepKeepsInv | readcache/scope.go:45-112 | Every step of every goroutine, of cancellation, of Close and of callers writing to their buffers keeps store, registry and goroutines consistent. |
| ScopeRuns.RunKeepsInv | readcache/scope.go:45-112 | The invariant holds at every moment of every interleaving of Resolve, panic and Close. |
| ScopeRuns.OneLeaderPerKey | readcache/group.go:46-69 | Two goroutines that lead at the same time lead different keys. |
| ScopeRuns.NoStaleReservation | readcache/scope.go:64-73 | A leader that has not reserved never meets somebody else's reservation of its key. |
| ScopeRuns.CommitKeepsStore | readcache/scope.go:93-106 | A commit that succeeds is the first of its key and keeps the store accounted. |
| ScopeRuns.DeferredIsIdle | readcache/group.go:114-118 | After a normal finish the deferred abort finds its ticket spent. |
| ScopeRuns.ForeignBufferKeepsStore | readcache/scope.go:101-111 | Writing to a buffer that the scope does not own changes neither entries nor account. |
| ScopeRuns.ScopeIsAccounted | readcache/scope.go:45-112 | In every interleaving the byte counter is the exact total and within its limit, entries with reservations are within theirs, and each reservation belongs to the goroutine that leads the live flight of its key. |
| ScopeRuns.ClosedScopeRetainsNothing | readcache/scope.go:45-51 | Once a Close has cleared the scope no later step leaves a committed entry or a counted byte. |
| ScopeRuns.CommittedBytesAreFinal | readcache/scope.go:63-107 | Bytes once committed for a key never change. |
| ScopeRuns.OneCommitPerKey | readcache/scope.go:63-107 | At most one load per key is ever committed. |
| ScopeRuns.CommitIsFirst | readcache/scope.go:93-106 | A commit finds its key unwritten and its bytes stay for the rest of the run. |
| ScopeRuns.ResolveReturnsTheCommittedLoad | readcache/scope.go:53-112 | The scope is a write-once map: every successful Resolve returns exactly the bytes of the one committed load of its key. |
| ScopeRuns.NoFlightOutlivesItsLeader | readcache/group.go:101-119 | When all calls have returned, panics included, no flight is live and no reservation is left. |
| ScopeAnswers.FirstFailureIff | readcache/scope.go:53-107 | A goroutine gets a failing result from exactly those of its steps that meet a reason visible before the step. |
| ScopeAnswers.ResultStays | readcache/scope.go:63-111 | A result, once there, is carried to the return; a failure unchanged. |
| ScopeAnswers.ResolveFailsIff | readcache/scope.go:53-112 | A returned call failed with an error or panic if and only if one of its own steps met the reason for it: a cancelled scope or context, a bad key or a registry limit, a full memo, its load's error or panic, a value or total over its limit, or the error of the flight it followed. |
| ScopeAnswers.LeaderPublishesItsResult | readcache/group.go:114-118 | A leader's flight ends with the leader's own result, or with the abort error exactly if its load panicked. |
| ScopeAnswers.FollowerReturnsItsFlightsReply | readcache/group.go:88-99 | A follower that waited to the end returns the very reply of its flight: its error, or the bytes committed for the key. |
| ScopeAnswers.CommitterReturnsItsOwnBytes | readcache/scope.go:101-111 | A leader that commits returns the bytes of its own load. |
| Minter.PositiveGrantIsUsable | tokenmint/minter.go:304-322 | A token from a positive lifetime is usable when minted, due for refresh no later than it expires, and never outlives the grant. |
| Minter.EmptyGrantIsOver | tokenmint/minter.go:304-322 | A lifetime that is not positive is kept, and its token is over when it is minted. |
| Minter.MintedTokenIsUsableIff | tokenmint/client.go:280-286 | The token of an accepted answer is usable if and only if the lifetime was left out or the converted seconds stay positive as int64 nanoseconds. |
| Minter.OrdinaryLifetimesAreExact | tokenmint/client.go:280-286 | From one second up to 9223372037 seconds the lifetime is the advertised whole seconds. |
| Minter.LifetimeIsRefusedIff | tokenmint/client.go:280-286 | An answer is refused exactly for an advertised time that is not positive; without one the default holds. |
| Minter.HalfASecondMintsAnExpiredToken | tokenmint/client.go:280-286 | Half a second is accepted and gives a token that expires at once. |
| Minter.TenBillionSecondsMintAnExpiredToken | tokenmint/client.go:280-286 | Ten billion seconds are accepted and wrap around to an expired token. |
| Minter.DoublingIsCapped | tokenmint/minter.go:336-340 | Without overflow the loop computes the capped power of two. |
| Minter.OverflowWraps | tokenmint/minter.go:336-339 | When the doubling overflows, some failure count makes it negative. |
| Minter.BackoffIsExactIff | tokenmint/minter.go:336-340 | The step is the capped power of two for all failure counts if and only if the last doubling fits int64; a maximum up to 2^62 suffices. |
| Minter.ClampStaysInRangeIff | tokenmint/minter.go:348-356 | Clamping stays within its bounds for all values if and only if the bounds are in order. |
| Minter.BackoffBounds | tokenmint/minter.go:324-346 | Credential errors wait exactly their own time; hints are clamped, and with base above maximum wait one of the two; other waits lie between half the step and the step. |
| Minter.CredentialKeysCollideIff | tokenmint/minter.go:358-363 | Exactly which credentials share a key: the same one, or two of which one profile name continues the other past a NUL and the client ids make up the difference. |
| Minter.ProfilesCollideIff | tokenmint/minter.go:358-363 | Two profiles have credentials with one key if and only if one name is the other continued past a NUL. |
| Minter.NulInAProfileNameSharesKeys | tokenmint/minter.go:358-363 | With NUL in a profile name two credentials share a key. |
| Minter.TokenMinter.ComputeBackoff | tokenmint/minter.go:324-346 | The int64 loop, clamp and half jitter compute the reference wait. |
| Minter.TokenMinter.MintOne | tokenmint/minter.go:144-223 | One mint changes its own entry and answers as the reference transition says: fresh, gated, limited, failed or granted, each with or without a fallback token. |
| Minter.TokenMinter.Mint | tokenmint/minter.go:124-142 | An unknown profile is refused without effect; otherwise exactly one credential's entry is minted. |
| Minter.TokenMinter.Sweep | tokenmint/minter.go:228-252 | A sweep drops exactly the entries that are due, keeps the others unchanged and counts what it dropped. |
| MinterRuns.ContactKeepsKey | tokenmint/minter.go:183-222 | An upstream contact extends a sound log of attempts by a sound attempt. |
| MinterRuns.MintKeepsKey | tokenmint/minter.go:144-223 | Every mint, also of other credentials, keeps each credential's state in step with its log. |
| MinterRuns.SweepKeepsKey | tokenmint/minter.go:228-252 | A sweep keeps each credential's state in step with its log, or forgets it safely. |
| MinterRuns.RunKeepsKeys | tokenmint/minter.go:124-252 | State and log agree for every credential at every moment of every run. |
| MinterRuns.OutageIsMasked | tokenmint/minter.go:36-47 | While the newest token ever granted has not expired, every mint of the credential succeeds whatever the upstream, limiter and sweeps do, and without a new grant returns that very token. |
| MinterRuns.ReturnedTokensAreUsable | tokenmint/minter.go:144-223 | Every returned token is the newest one; it is usable exactly unless this call was granted a lifetime that is not positive, and a usable one refreshes no later than it expires. |
| MinterRuns.ReturnedTokenWasGranted | tokenmint/minter.go:304-322 | A returned token has the access token and type of the latest answer that the upstream granted to this credential, and exactly the expiry and refresh times that follow from that answer and the profile. |
| MinterRuns.MintAnswersByTheLog | tokenmint/minter.go:144-223 | Told by the credential's past contacts: exactly when a mint asks the upstream, and what it answers, the new token, the newest while it lasts, the failure met, the failure waited for, or throttled. |
| MinterRuns.LogIsExact | tokenmint/minter.go:187-213 | Every contact of every run left exactly the token, or the wait for its place in the streak of failures, that its answer means. |
| MinterRuns.AttemptsAreSpaced | tokenmint/minter.go:153-161 | Consecutive contacts keep the refresh interval and the failure wait, or IdleTTL after a sweep; the failure count is the current streak. |
| MinterRuns.SweepForgetsIff | tokenmint/minter.go:225-252 | A sweep forgets a credential if and only if it was contacted since it was last forgotten, that was IdleTTL ago and no token is usable. |
| MinterRuns.NeverContactedIsNeverSwept | tokenmint/minter.go:242-244 | An entry that has never reached the upstream stays at every later step of every run. |
| MinterRuns.ForgetfulRun | tokenmint/minter.go:228-252 | A concrete run in which a failure is swept and repeated after IdleTTL. |
| MinterRuns.HardFloorHoldsIff | tokenmint/profile.go:71-73 | The floor between two mints holds in all runs if and only if it does not exceed IdleTTL. |
| MinterRuns.WaitsAreBounded | tokenmint/minter.go:324-346 | No wait in any run exceeds the largest of the three configured ones. |
| MinterRuns.WaitsAreHonouredIff | tokenmint/minter.go:157-158 | Failure waits are kept in all runs if and only if none of the three configured waits exceeds IdleTTL. |
| AuditClient.OfferIsOrderly | audit/client.go:124-128 | An offer appends to the accepted events exactly when the queue has room. |
| AuditClient.ReceiveIsOrderly | audit/client.go:188-223 | Receiving moves one event along without loss or reordering and keeps batches within bounds. |
| AuditClient.FlushIsOrderly | audit/client.go:171-186 | A flush empties the batch into the flushed sequence and keeps what the channel took in order. |
| AuditClient.NewPipeSizes | audit/client.go:68-94 | A new client queues a thousand events unless configured and four batches for each worker. |
| AuditClient.TimerIsOrderly | audit/client.go:224-226 | The timer flushes the batch and moves nothing else. |
| AuditClient.Client.Record | audit/client.go:107-129 | A closed client or a full queue drops the event, otherwise it is accepted last. |
| AuditClient.Client.Dispatch | audit/client.go:161-228 | On a closed queue the dispatcher flushes every accepted event, in order, and leaves nothing behind, whenever the timer fires. |
| AuditClientRuns.StepKeepsInv | audit/client.go:107-242 | Every step of callers, dispatcher and workers keeps gate, crew, pipe and books consistent. |
| AuditClientRuns.RunKeepsInv | audit/client.go:107-242 | The invariant holds at every moment of every interleaving. |
| AuditClientRuns.EventsAreConserved | audit/client.go:161-228 | Flushed batches, current batch and queue spell out the accepted events; batches hold 1 to 100; a waiting batch has its timer armed; no channel is closed twice or sent to after closing. |
| AuditClientRuns.EachBatchIsSentOnce | audit/client.go:230-242 | A received batch is being sent by exactly one worker or has been sent. |
| AuditClientRuns.OutcomesAreFinal | audit/client.go:230-242 | A finished send is never repeated or revised. |
| AuditClientRuns.FirstCloseDrains | audit/client.go:146-159 | When the first Close is past its wait, queue, batch and channel are empty and every batch taken was sent; with fallback logging every event given to Record was delivered or logged. |
| AuditClientRuns.NothingEntersAClosedQueue | audit/client.go:117-129 | After the queue is closed nothing is accepted. |
| AuditClientRuns.TransportClosesLast | audit/client.go:147-159 | Without a repeated Close the transport closes only after everything was sent. |
| AuditClientRuns.AllSentStays | audit/client.go:117-159 | In a closed client, what has all been sent stays so. |
| AuditClientRuns.RepeatedCloseIsSafeIff | audit/client.go:147-152 | A Close of an already closed client finds everything sent in every continuation if and only if everything has been sent at the call. |
| AuditClientRuns.CloseAfterTheFirstIsSafe | audit/client.go:147-159 | Once the first Close is past its wait, everything is sent and every later Close is safe. |
| AuditClientRuns.RepeatedCloseMayCutOff | audit/client.go:147-152 | A concrete run in which a second Close closes the transport over a queued event. |
| AuditClientFates.SizesAre | audit/client.go:83-94 | Both channels keep their sizes in every run. |
| AuditClientFates.OfferAcceptsIffRoom | audit/client.go:119-128 | An offered event is accepted, as the last of the queue, exactly if the queue has room. |
| AuditClientFates.FlushKeepsIffRoom | audit/client.go:171-226 | A batch is flushed exactly by its hundredth event, the timer or the drained queue; it goes to the end of the channel exactly if there is room and is dropped otherwise. |
| AuditClientFates.ParcelWasFlushed | audit/client.go:171-186 | Every batch in the history was flushed by one step and dropped exactly if that step found the channel full. |
| AuditClientFates.KeptBatchesWereSent | audit/client.go:146-242 | Once the first Close is past its wait, every batch that found room was handed to exactly one Send of its own. |
| AuditClientFates.LoggedIff | audit/client.go:117-242 | With fallback logging an event is logged if and only if it was refused, dropped with its batch, or its Send failed. |
| Cursor.Base64RoundTrip | audit/postgres.go:172-176 | Raw URL base64 gives back every byte string. |
| Cursor.Base64IsUrlSafe | audit/postgres.go:172-176 | The text holds only letters, digits, minus and underscore, without padding. |
| Cursor.PackIsBigEndian | audit/postgres.go:172-176 | Three bytes and their four sextets are the same number, high bits first. |
| Cursor.AlphabetIsOrdered | audit/postgres.go:172-176 | The sextets stand for A to Z, a to z, 0 to 9, minus and underscore in this order. |
| Cursor.CursorRoundTrip | audit/postgres.go:172-202 | Every cursor decodes to its time and id, also when the id contains the separator, and is never empty. |
| Cursor.CursorIsRejectedIff | audit/postgres.go:188-202 | A cursor is rejected exactly for corrupt base64, a missing separator or an unparsable time. |
| ListWalk.List | audit/postgres.go:72-163 | Given the rows of its query, List returns the reference page, at most limit rows and a cursor exactly if more follow; given a database error it returns that. |
| ListWalk.Scan | audit/postgres.go:142-162 | The scan loop and the cut make the page of the rows. |
| ListWalk.ListIgnores | audit/postgres.go:84-131 | Service and request id do not matter, and an undecodable cursor gives the first page. |
| ListWalk.Limit | audit/postgres.go:73-76 | A limit from 1 to 100 is kept, any other becomes 50. |
| ListWalk.LessIsLexicographic | audit/postgres.go:133-134 | Ids are ordered by the first byte where they differ, a proper prefix first. |
| ListWalk.ListingIsSorted | audit/postgres.go:133-134 | The reference listing is strictly descending by time and id and holds exactly the selected rows. |
| ListWalk.ListingIsUnique | audit/postgres.go:133-134 | It is the only such sequence. |
| ListWalk.CutIsFull | audit/postgres.go:155-162 | A page has a successor exactly when rows are left, and is then full with its cursor at its last row. |
| ListWalk.RequestCovers | audit/postgres.go:124-134 | A request lists each row it selects or leaves it ahead of the next cursor. |
| ListWalk.LaterPagesAreOlder | audit/postgres.go:124-134 | Every later page lies wholly behind the last row of every earlier page, even when rows come and go. |
| ListWalk.WalkListsTheStable | audit/postgres.go:72-163 | Over a table that changes between requests a finished walk lists nothing twice and every matching row that was there throughout; pages with a successor are exactly full. |
| ListWalk.WalkIsTheListing | audit/postgres.go:72-163 | On a fixed table the pages concatenate to the sorted matching rows. |
| ListWalk.WalkFilters | audit/postgres.go:84-123 | A walk lists exactly the rows that agree with every given field of the filter and lie within its times. |
| ListWalk.WalkRunsBackInTime | audit/postgres.go:133-134 | The listed rows run back in time, ties broken by falling id. |
| ListWalk.WalkIsBounded | audit/postgres.go:72-163 | No walk lists more rows than match. |
| ListWalk.WalkTerminates | audit/postgres.go:155-162 | Every walk over a fixed table reaches its end by following the cursor. |
| RetryTransport.SendsCarryTheBodyIff | stsclient/retry_transport.go:86-110 | In all runs every send of a request is given its whole body if and only if it is not retryable, can produce the body again, or has no bytes; only unconditionally retried methods can fail. |
| RetryTransport.RetriedRun | stsclient/retry_transport.go:97-110 | A run in which the retry of a request without GetBody is given an empty body after the first send read it. |
| RetryTransport.TakeStaysFunded | stsclient/retry_transport.go:160-175 | Spent plus remaining tokens never exceed the cap plus one per whole second, and the bucket stays within 0 and 20. |
| RetryTransport.TakeIsExact | stsclient/retry_transport.go:160-175 | A token is granted exactly when one is left or a whole second has passed, and the bucket then holds the refilled amount, capped, less the one spent. |
| RetryTransport.TripSends | stsclient/retry_transport.go:57-84 | At most three sends, each but the last answered by something worth retrying; the answer is the last reply, and one worth retrying is returned only when attempts or tokens ran out. |
| RetryTransport.UnrepeatableIsSentOnce | stsclient/retry_transport.go:86-95 | A write without an idempotency key or with a body that cannot be reopened, and any unknown method, is sent at most once in every run. |
| RetryTransport.OtherRepliesEndTheCall | stsclient/retry_transport.go:112-125 | Any reply but 502, 503, 504 or a transient error ends its call. |
| RetryTransport.RepeatedRun | stsclient/retry_transport.go:52-84 | For each repeatable request and each of those replies, a run in which it is sent again. |
| RetryTransport.SentTwiceIff | stsclient/retry_transport.go:52-95 | Some run sends a request twice if and only if its method is safe, or it is a keyed write whose body, if any, can be reopened. |
| RetryTransport.TripGoesOn | stsclient/retry_transport.go:64-82 | After a reply worth repeating the loop sends again while there are tokens, unless it is interrupted. |
| RetryTransport.Transport.Take | stsclient/retry_transport.go:160-175 | Refill by whole seconds up to the cap and spending of one token, as the reference says. |
| RetryTransport.Transport.Attempt | stsclient/retry_transport.go:58-82 | One turn of the loop stops with its result or goes on with one more attempt granted. |
| RetryTransport.Transport.RoundTrip | stsclient/retry_transport.go:52-84 | A request that may not be repeated is sent exactly once, whole and for free; any other follows the reference trip, bodies included; always one to three sends. |
| RetryTransport.StepKeepsInv | stsclient/retry_transport.go:52-95 | Every step of any number of concurrent round trips keeps budget, calls and send entitlements in balance. |
| RetryTransport.RunKeepsInv | stsclient/retry_transport.go:52-175 | The balance holds at every moment of every interleaving. |
| RetryTransport.LoadIsBounded | stsclient/retry_transport.go:15-21 | In every interleaving all sends together are at most one per call plus 20 plus one per whole second since construction. |
| RetryTransport.CallsAreBounded | stsclient/retry_transport.go:52-84 | No call makes more than three sends; a request that is not retryable is done exactly when it made its one. |
| RetryTransport.TripIsARun | stsclient/retry_transport.go:57-84 | The loop, run alone, is one of the interleavings and leaves the same budget, number of sends and bodies. |
| Smtp.Classified | email/smtp.go:112-125 | A failure is unknown exactly when there is no reply and the message may have been accepted. |
| Smtp.AuthSucceedsIff | email/smtp.go:134-154 | Login succeeds exactly when at most two challenges precede the server's agreement. |
| Smtp.LoginAuth.Next | email/smtp.go:141-154 | First challenge user name, second password, a third is an error. |
| Smtp.LoginAuth.Exchange | email/smtp.go:127-154 | What reaches the wire is user name then password, one for each challenge and no more, and nothing without TLS or to a host of another name. |
| Smtp.Open | email/smtp.go:25-72 | Set-up fails at its first failing stage, never delivers anything, and succeeds only with TLS on. |
| Smtp.Submit | email/smtp.go:76-91 | The transaction fails at its first failing stage, and the server has the message exactly when all earlier exchanges went well and it decided on a 2yz reply. |
| Smtp.Send | email/smtp.go:24-101 | The result is the session's first failure or a receipt whatever QUIT does; credentials go out only over TLS, one for each challenge. |
| Smtp.SessionSplits | email/smtp.go:24-101 | Before the end of data a session can only fail; after it the final reply alone decides. |
| Smtp.ReceiptIff | email/smtp.go:24-101 | A receipt takes exactly these replies, stage by stage, and the server's offers of TLS and login. |
| Smtp.StagesAreOrdered | email/smtp.go:24-101 | TLS comes before the login, the login before any mail command, the end of data last. |
| Smtp.FailureIsTheFirst | email/smtp.go:24-101 | A failed session reports its first failing stage. |
| Smtp.FailureFollowsTheReply | email/smtp.go:103-125 | The code is that of the reply read, retryable exactly for 4yz; without a reply the outcome is unknown from the body on and retryable before; failed checks reject. |
| Smtp.OutcomeIsSoundIff | email/smtp.go:86-125 | A receipt means accepted; a definite failure of an accepted message happens exactly for a read 2yz reply other than 250. |
| Smtp.OtherSuccessIsMisread | email/smtp.go:112-125 | Whenever the body is delivered, a final 251 accepts the message and is reported as a rejection. |
| Smtp.CompliantServersAreNeverMisread | email/errors.go:5-12 | Against a server that uses 250, accepted means receipt or unknown, and a definite failure means not accepted. |
| Smtp.UnknownIsForced | email/smtp.go:89-91 | A lost final reply looks the same whether or not the server took the message, so unknown is the only sound answer. |
| Smtp.UnknownMeansNoReply | email/smtp.go:86-91 | Unknown is reported only for a body or final reply that broke off without a reply. |
| Smtp.RetryableMeansTransient | email/smtp.go:112-125 | A failure is retryable exactly when an exchange ended with a 4yz reply or, before the body, with none; a code is always the server's own. |
| Redact.WalksCompose | jsonredact/redact.go:124-175 | Two key walks with one mask are one walk with both key sets. |
| Redact.KeyListsCompose | jsonredact/redact.go:111-122 | RedactKeys with two lists is RedactKeys with both, in either order, and once is enough. |
| Redact.WalkMasksExactly | jsonredact/redact.go:124-148 | Every matching key at any depth ends as the mask, and every address without one shows the same scalar, keys or length as before. |
| Redact.NothingEscapesTheWalk | jsonredact/redact.go:124-175 | No matching key anywhere in the result has another value than the mask. |
| Redact.MatchedIff | jsonredact/redact.go:124-148 | The walkers return true exactly when some address ends in a matching key. |
| Redact.UnmatchedIsUnchanged | jsonredact/redact.go:124-148 | A walk that returns false has changed nothing. |
| Redact.PathMasksExactly | jsonredact/redact.go:58-108 | Every address that a path selects ends as the mask, and every address not at or below one is as before. |
| Redact.PathAddressIff | jsonredact/redact.go:60-108 | Which addresses a path selects, told without the document: keys consume equal components or stars, the last one literally, and indices consume a star if there is one. |
| Redact.PathMatchedIff | jsonredact/redact.go:58-108 | RedactPath returns true exactly when the path selects something. |
| Redact.LastComponentIsLiteral | jsonredact/redact.go:67-72 | The last step of a selected address is the path's last component taken literally. |
| Redact.WalkAndPathCommute | jsonredact/redact.go:42-49 | Key walks and path redactions with one mask commute. |
| Redact.PathsCommute | jsonredact/redact.go:42-44 | Path redactions commute with each other. |
| Redact.PathIsIdempotent | jsonredact/redact.go:58-108 | Redacting a path twice is redacting it once. |
| Redact.PathOrderIsIrrelevant | jsonredact/redact.go:38-44 | Any two orders of the configured paths give the same document. |
| Redact.PipelineIsIdempotent | jsonredact/redact.go:42-49 | Redacting a redacted document changes nothing, and the key walk might as well come first. |
| Redact.EachPathIsApplied | jsonredact/redact.go:38-44 | Every configured path has been applied in the end. |
| Redact.PipelineMasksExactly | jsonredact/redact.go:23-56 | In the redacted document every place that a path selects or a hit key ends shows the mask, and every address not at or below one shows what it did. |
| Redact.KeysAreFolded | jsonredact/redact.go:110-122 | Keys that fold to a listed one are masked, and addresses without such a key stay. |
| Redact.MaskOr | jsonredact/redact.go:28-31 | An empty mask is replaced by the default. |
| RedactObjects.Walk | jsonredact/redact.go:124-175 | The recursive walker over shared-nothing nodes, updating in place, leaves exactly the walked document and returns whether anything matched. |
| RedactObjects.WalkMap | jsonredact/redact.go:126-136 | The loop over a map, in any order of its keys, redacts every field. |
| RedactObjects.WalkList | jsonredact/redact.go:137-144 | The loop over an array walks every element. |
| RedactObjects.RedactKeys | jsonredact/redact.go:111-122 | With any list, the empty one included, the result is the walk with the list's keys regardless of case. |
| RedactObjects.RedactPath | jsonredact/redact.go:60-108 | The path walker leaves exactly the path-redacted document and returns whether the path selected anything. |
| RedactObjects.PathMap | jsonredact/redact.go:75-84 | A star follows every field of a map, in any order. |
| RedactObjects.PathList | jsonredact/redact.go:92-103 | An array passes the path on to every element, consuming a star. |
| RedactObjects.RedactDocument | jsonredact/redact.go:38-49 | The whole in-place pipeline leaves the pipeline's document. |
| Migrate.Database.Apply | pgutil/migrate.go:52-70 | Up and its record commit together or not at all, and a recorded name is refused. |
| Migrate.Database.RunMigrations | pgutil/migrate.go:39-75 | The loop applies what is missing, in order, until the first failure, as the reference run says. |
| Migrate.RanKeepsPrefix | pgutil/migrate.go:39-75 | From any applied prefix and however interrupted, a run leaves a prefix at least as long, which covers its own list when it returns nil. |
| Migrate.RepeatedRunCompletes | pgutil/migrate.go:39-75 | After any interruption one undisturbed run completes the list with each Up committed once. |
| Migrate.RunGoesExactlySoFar | pgutil/migrate.go:39-75 | A run applies what is missing in order up to the first migration whose check fails or that is new and does not succeed; that one still takes effect if only its commit's answer was lost. |
| Migrate.StepKeepsInv | pgutil/migrate.go:39-73 | Every statement, failure and crash of concurrent runners keeps table and effects in agreement, the effects a prefix, and at most one open insert. |
| Migrate.RunKeepsInv | pgutil/migrate.go:39-73 | This holds at every moment of every interleaving. |
| Migrate.CommittedIsAPrefix | pgutil/migrate.go:39-73 | In every interleaving the recorded names are exactly those of the committed Ups, these are a prefix of the list in its order, each once, and a runner that returned nil has its whole list recorded. |
| Migrate.EachCommitIsNew | pgutil/migrate.go:58-70 | A commit adds exactly the runner's next migration, which had not committed before. |
| Migrate.EffectsAreFinal | pgutil/migrate.go:39-73 | What has committed stays committed and recorded. |
| Migrate.RunnerCanFinish | pgutil/migrate.go:39-75 | From any moment without an open insert a runner that is left alone returns nil and leaves exactly the prefix that covers its list. |

## Left out

- HTTP, gRPC, S3, TLS and DNS plumbing, cryptography and JWT code, and configuration schemas: library wrappers or field-by-field checks that would add only easy members. What the minter needs of a validated profile is a predicate.
- JSON parsing and printing, UUIDs, and the preparation and validation of audit events: an event arrives prepared, malformed or invalid; a UUID token is any unused one.
- SHA-256: a credential key is the hashed text itself, so that distinct texts give distinct keys.
- Time formatting in cursors: `format` and `parse` are a parameter of which only the round trip and the absence of the separator are used, on the range of times that the format can write; rows of a walk lie in that range.
- Floating-point rounding of the lifetime haircut: the product is exact and then floored. Go leaves the conversion of a float outside int64 open, so it may give any int64 here.
- The rate limiter's and singleflight's internals: the limiter is an arbitrary yes or no, and mints of one credential do not overlap.
- A sweep in the middle of an in-flight mint: mints and sweeps are whole steps.
- `notify/client.go`: a near copy of the audit client.
- `RecordSync`, the relay's sleep between rounds, `Backlog`'s oldest age, logging, metrics, health probes and server lifecycle.
- `RedactQueryMap`, regular-expression text redaction, and which keys count as sensitive: a walk takes any set of keys, and lower-casing is any function.
- The text match that makes a network error transient, and the length of the jittered pause: an error is transient or not, and a pause ends or is interrupted.
- Message building and STARTTLS or TLS internals of SMTP: a message is well-formed or not, and an exchange is answered, answered unheard, or dropped.
- Redaction of documents whose nodes are shared: a parsed document never shares nodes.
- ScopeObjects.Scope.Resolve: one goroutine without interference; all interleavings are in ScopeRuns.
- Outbox.PGOutbox.DeliverOne: one round without interference; crashes and rivals are in OutboxRuns.
- AuditClient.Client.Dispatch: the loop once the queue is closed; with callers still recording it is in AuditClientRuns.
- Minter.TokenMinter.constructor: takes a validated, non-empty configuration, which the source also demands of its caller.
- GroupObjects.Registry.Begin: a leader's release function, which does nothing, is absent instead of empty.
