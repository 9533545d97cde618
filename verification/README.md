# Ride hailing: a verified model

A Dafny model of the ride service, the driver and location service and what joins them: the `rides` row with its audit
log, the actors that race for it, the matcher, and the driver-side tables and queues.

The core is one state machine (`Lifecycle`). Its actors are ride creation, passenger cancellations, the two-minute
timer of each ride with its callback, the driver-response consumer, the driver-status consumer, and the driver
service's handlers that publish what they learned about a ride earlier. One action is one SQL transaction or read, one
mutex section, one publish or one queue operation, each of which may fail, so a run is any interleaving. Several actors
decide on a row read in an earlier transaction and write in a later one; `LifecycleInvariant` says of each actor what
it still knows, and proves that knowledge stable under what the others may do. `LifecycleTheorems` draws the
consequences for every reachable state and run; `Redelivery` proves by forward simulation that failed and repeated
deliveries take in, commit and leave waiting what a run without failures does. For what the code does not guarantee
there is a concrete run, and a theorem saying exactly when it does hold: `LifecycleFinality` for terminal statuses and
the timeout, `LifecycleDrivers` for rides started without a driver, `LifecycleRestarts` for the price of rides that are
started again, `LifecycleWatch` for requests that nobody watches, `LifecycleEarnings` for what a driver is credited;
`LifecycleProgress` carries a queued message through. `LifecycleMatching` runs the matcher and the rides together.
`LifecycleDecisions`, `LifecycleOrigins` and `LifecycleMessages` say what is decided, written and announced in the
source's own terms, with its texts and numbers, and trace cancellations and messages back through their runs.

The code that the machine abstracts is modelled as classes with mutable fields and proved against it: `RideStore` holds
the repository, with a failure possible at every statement and the UPDATE statement built placeholder by placeholder;
`RideService` holds the service, whose methods are shown to be runs of exactly their own actor's actions when nobody
else acts in between.

| file | subject |
|---|---|
| Fare, RideRequest, RideStore, RideInvariant | pricing, validation, the repository's transactions, what every transaction keeps |
| Lifecycle, LifecycleRuns, LifecycleFrames, LifecycleInvariant, LifecycleSteps, LifecycleTheorems | the joint state machine, uninterrupted runs, what actions leave alone, its invariant and what follows |
| LifecycleDecisions, LifecycleOrigins, LifecycleMessages | what is decided, written and announced, and where it comes from |
| LifecycleAnnouncements, LifecycleMatching | announcements of commits; the matcher and the rides together |
| LifecycleProgress, LifecycleFinality, LifecycleDrivers, LifecycleRestarts, LifecycleWatch, LifecycleEarnings, LifecycleLimits | what the code does not guarantee: runs, and exactly when it does |
| Redelivery, MessageConsumer | nack and requeue: the simulation, and the consumer loop |
| RideService | the service's methods as runs of the machine |
| Matching, MatcherCode | pending offers: every interleaving, and the code |
| LocationRate, DriverSessions, DriverLocations | limiter against history, session money, current point against history |
| WsHub | registration and send queues |

Assumptions: one process per service; messages that parse; random ids that never repeat; row transactions serialised by
their row locks; a requeued message returns to the head of its queue; real numbers for floating point. Clocks,
failures, distances, fresh ids and the results of foreign calls are parameters, and no assumption is made about the
lifecycle's clocks: a timer may fire at any time after it was armed, and each commit carries any time.

Where the code and its documentation differ, the code is followed. The lifecycle diagram (README.md:46-53) draws
CANCELLED and COMPLETED as ends; `UpdateRideStatus` never looks at the status it replaces, so they are not
(`LifecycleLimits.CancelledIsNotFinal`, `LifecycleRestarts.CompletedIsNotFinal`); `LifecycleFinality.FinalExactly`,
`LifecycleFinality.FinalUntilReportedExactly` and `LifecycleTheorems.ForwardOnlyExactly` say when they are. As nothing
clears `completed_at`, a ride that is started again is charged up to its earlier completion
(`LifecycleRestarts.ChargesElapsedExactly`). `GetRide` does not load the estimated duration
(internal/ride/repository.go:97-108), so a ride without a start time would be charged no minutes;
`LifecycleTheorems.FinalFareAlwaysComputable` shows that this never decides a price.

## Model

| member | source | states |
|---|---|---|
| `LifecycleTheorems.CompletedOnlyFromInProgress` | internal/ride/service.go:211-244 | in every interleaving a log entry that reaches COMPLETED follows one that reached IN_PROGRESS and carries a final fare, although the status is read in one transaction and written in another |
| `LifecycleTheorems.FinalFareAlwaysComputable` | internal/ride/refund.go:21-47 | whenever a ride in progress is priced, at any clock reading, it has a start time and a known type, is charged at least one minute, gives no error and costs at least base plus one minute |
| `LifecycleTheorems.CompletedRideIsSettled` | internal/ride/repository.go:299-314 | status COMPLETED implies start time, completion time and final fare are all set, the fare at least base plus one minute |
| `LifecycleTheorems.NeverUnderRefunds` | internal/ride/service.go:142-155 | every recorded refund is at least the refund owed for the status found under the lock and at most the full fare, although it was computed from an earlier read: in numbers, between 0.8 of the fare and the fare, and the whole fare if the ride was REQUESTED, to within 0.005 |
| `LifecycleTheorems.SuccessfulCancelSawCancellable` | internal/ride/repository.go:153-206 | a cancellation that commits had read REQUESTED or MATCHED, no later than the locked status, and appends exactly one entry, with the refund of the status it had read |
| `LifecycleTheorems.OneMatchOneCancel` | internal/ride/repository.go:208-260 | for any racing responses, cancels and timeouts: at most one DRIVER_MATCHED entry, always the second; at most one RIDE_CANCELLED entry, after the match if there is one; matched_at is set exactly when driver_id is |
| `LifecycleTheorems.DriverWrittenOnce` | internal/ride/repository.go:228-245 | driver_id is the driver of the DRIVER_MATCHED entry, absent without one, and never changes along any later run |
| `LifecycleTheorems.CrossServiceAgreement` | internal/driverlocation/service.go:54-82 | every queued EN_ROUTE or ARRIVED message names a ride whose row holds exactly that driver, then and in every later state |
| `LifecycleTheorems.AssignedStatusHasDriver` | internal/driverlocation/handler.go:52-89 | MATCHED, EN_ROUTE or ARRIVED implies the row has a driver, the one of its log's match entry |
| `LifecycleTheorems.LogReplaysToRow` | internal/ride/repository.go:366-386 | in every reachable state rides and logs have the same keys, each log starts with RIDE_REQUESTED, each old status is the previous new one, and the log folds to status, driver, final fare, cancellation reason and set time columns of the row |
| `LifecycleTheorems.TimesFollowLog` | internal/ride/repository.go:276-318 | each time column of a row is set if and only if its log has an entry that reaches that status, and the log starts with the request and its estimated fare |
| `LifecycleTheorems.NoStuckRequest` | internal/ride/service.go:298-318 | once CreateRide has succeeded, a ride that is still REQUESTED has its timer armed or its callback running, unless the repository failed the callback |
| `LifecycleTheorems.CallbackResolves` | internal/ride/service.go:306-313 | a timer callback that ends without a repository failure leaves its ride out of REQUESTED for ever, whatever raced with it |
| `LifecycleTheorems.TimersClearedLate` | internal/ride/service.go:320-328 | a timer entry is only removed when REQUESTED has been left for good |
| `LifecycleTheorems.AtMostOneCommitPerMessage` | internal/shared/messaging/consumer.go:29-36 | however often a driver-status or driver-response message is delivered, at most one transaction is committed for it |
| `LifecycleTheorems.NoNackWithoutFailure` | internal/ride/service.go:211-266 | the driver-status handler never returns a message to the queue unless the repository failed |
| `LifecycleTheorems.NextEvolves` | internal/ride/repository.go:153-344 | every step keeps the identity, fare and driver of each row, never returns a row to REQUESTED, nor from later statuses to MATCHED, and only extends logs; steps other than the driver-status consumer's write leave settled rows alone |
| `LifecycleTheorems.RunEvolves` | internal/ride/repository.go:153-344 | the same along any run |
| `LifecycleTheorems.ForwardOnlyExactly` | README.md:46-53 | in every reachable state a ride's history strictly climbs the documented lifecycle if and only if reports were committed in lifecycle order and none after a cancellation |
| `LifecycleTheorems.ForwardOnly` | internal/ride/consumer.go:71-84 | when a ride's driver-status messages are handled in the order EN_ROUTE, ARRIVED, BUSY, AVAILABLE (any repeats, gaps, redeliveries) and none commits after a cancellation, its statuses strictly climb and its log has at most six entries |
| `LifecycleOrigins.CancellationOrigin` | internal/ride/service.go:128-174 | every committed cancellation goes back to one request or callback for this very ride: a passenger cancels only their own ride, with the reason they gave or the default text; a callback found the ride REQUESTED; the refund logged is that of the status the call had read |
| `LifecycleOrigins.CallOrigin` | internal/ride/service.go:119-155 | every call that has not yet written is traced to the action that began it, with its ride, passenger and reason, and to its read |
| `LifecycleOrigins.ArrivalOrigin` | internal/driverlocation/handler.go:52-89 | every ARRIVED message in the queue was accepted from the driver in the row of a ride that was MATCHED or EN_ROUTE |
| `LifecycleOrigins.DepartureOrigin` | internal/driverlocation/service.go:54-88 | every EN_ROUTE message in the queue answers an announcement that its ride is MATCHED to its driver |
| `LifecycleMessages.AnnouncementOrigin` | internal/ride/events.go:144-161 | in every run each message published to ride_status carries the ride, the status, and the driver or the empty string, of the row as its handler read it again after its commit |
| `LifecycleMessages.MatchAnnouncedExactly` | internal/ride/service.go:176-198 | a match is announced with the driver who accepted, and as MATCHED if and only if nothing else of the ride was committed before the re-read |
| `LifecycleMessages.MatchAnnouncedAsCancelled` | internal/ride/service.go:176-198 | a concrete run in which a cancellation comes in between: the one announcement of the match says CANCELLED |
| `LifecycleMessages.ReportAnnounced` | internal/ride/service.go:242-253 | a committed report is announced as EN_ROUTE, ARRIVED, IN_PROGRESS or COMPLETED, the status it means, the first two with the reporting driver |
| `LifecycleDecisions.CreationWrites` | internal/ride/repository.go:28-94 | exactly a fresh ride with a passenger and a quote is stored, REQUESTED, with that quote and nothing else set |
| `LifecycleDecisions.ResponseCommitsExactly` | internal/ride/consumer.go:29-41 | a response commits a match if and only if it is accepted, names ride and driver, and the ride is known and REQUESTED; it then writes status, driver and match time, and otherwise is acknowledged |
| `LifecycleDecisions.ReportDecidesExactly` | internal/ride/consumer.go:71-84 | a report goes on to a write if and only if it moves the ride it names, to the status it means; otherwise it is acknowledged |
| `LifecycleDecisions.ReportWrites` | internal/ride/repository.go:276-341 | a committed report writes the status it means and that status's own time, a fare if and only if it completes the ride, and logs the reporting driver |
| `LifecycleDecisions.CancelReadsExactly` | internal/ride/service.go:142-150 | a cancellation goes on if and only if the ride is known and, where a passenger is given, that passenger's; it keeps the status read and its refund |
| `LifecycleDecisions.CancelCommitsExactly` | internal/ride/repository.go:153-206 | the write cancels if and only if the ride is still REQUESTED or MATCHED, with reason, time and refund |
| `LifecycleDecisions.CallbackReadsExactly` | internal/ride/service.go:306-313 | the timer's callback goes on if and only if it finds the ride REQUESTED, with its own reason text |
| `LifecycleDecisions.CancelBegins` | internal/ride/service.go:134-140 | the reason is the passenger's or the default text |
| `LifecycleDecisions.DetailsSentExactly` | internal/driverlocation/service.go:54-88 | a ride_status message leads to one EN_ROUTE for its driver and ride if and only if it says MATCHED and names both |
| `LifecycleDecisions.FailedDetailsWait` | internal/driverlocation/service.go:66-78 | when the details cannot be sent the message stays at the head of its queue; one that calls for nothing is done with |
| `LifecycleDecisions.ArrivalIsPublished` | internal/driverlocation/handler.go:85-86 | an accepted arrival is published as ARRIVED for its driver and ride, or lost with its publish, and never again |
| `LifecycleDecisions.ArrivalAcceptedExactly` | internal/driverlocation/handler.go:52-89 | an arrival is accepted if and only if it comes from the driver in the row of a ride that is MATCHED or EN_ROUTE |
| `LifecycleWatch.WatchedExactly` | internal/ride/service.go:298-318 | in every reachable state a ride that is REQUESTED is watched (its creator still to arm the timer, the timer armed, or its callback before its write) if and only if it is being created, or was created and no repository failure ended its callback |
| `LifecycleWatch.UnwatchedForGood` | internal/ride/service.go:298-318 | a ride that nobody watches is not watched in any later state of any run |
| `LifecycleWatch.UnpublishedRequestIsUnwatched` | internal/ride/service.go:94-116 | a concrete run in which the publish fails after the insert: the ride is REQUESTED and nobody watches it |
| `LifecycleWatch.FailedCallbackLeavesUnwatched` | internal/ride/service.go:306-313 | a concrete run in which the repository fails the one callback of a created ride, which stays REQUESTED and unwatched |
| `LifecycleAnnouncements.AnnouncementsConserved` | internal/ride/service.go:128-266 | along every run each commit of a ride after its request is announced exactly once, or lost in exactly one failed re-read or publish of its own, or still under way: log entries are one plus those sent, lost and under way |
| `LifecycleMatching.DriverAcceptedOwnOffer` | internal/driverlocation/matching.go:130-161 | with matcher and rides run together, under every interleaving, the driver of a row is the first candidate of a match attempt for this very ride who accepted the offer made to them |
| `LifecycleMatching.MatchIsHandedOver` | internal/driverlocation/matching.go:130-161 | a successful publish hands the ride service an acceptance by the driver who said yes, for the ride of that call |
| `LifecycleMatching.JointRunKeepsInv` | internal/driverlocation/matching.go:130-161 | every response on its way to the ride service, and every driver in a row, is a published match |
| `LifecycleEarnings.CreditIsFinalExactly` | internal/driverlocation/handler.go:374-389 | a ride that completes once is credited to the session at its final fare, in every run through the look-up to after the completion, if and only if the completion was committed by the look-up or the estimate equals the final fare to the hundredth |
| `LifecycleEarnings.EstimateIsCredited` | internal/driverlocation/repository.go:194-206 | a concrete run in which the look-up comes before the commit and the driver is credited the estimate of a much dearer ride |
| `LifecycleFinality.TimeoutCancelsOverRun` | internal/ride/service.go:306-313 | from a callback that may have seen REQUESTED to its write, over any run: it cancels a matched ride if and only if a match and nothing else of that ride was committed in between, an unmatched one if and only if nothing was |
| `LifecycleFinality.FinalUntilReportedExactly` | internal/ride/repository.go:276-292 | in every reachable state a CANCELLED or COMPLETED status is final, in every run in which no further EN_ROUTE, ARRIVED or BUSY report of the ride is sent, if and only if none is waiting or being handled |
| `LifecycleFinality.FinalUnlessReported` | internal/ride/service.go:211-231 | along any run in which no EN_ROUTE, ARRIVED or BUSY report of the ride is taken up, a terminal status stays, from any state in which the consumer is not about to write the ride |
| `LifecycleFinality.PendingReportMoves` | internal/ride/service.go:211-244 | such a report waiting anywhere in the queue can be carried through by the consumer alone, and then the terminal status has changed |
| `LifecycleFinality.FinalExactly` | internal/ride/repository.go:262-344 | along any run a CANCELLED or COMPLETED status is final if and only if no driver-status write of that ride comes through |
| `LifecycleFinality.SettledStatusMovesExactly` | internal/ride/repository.go:276-292 | a ride past MATCHED changes status in a step if and only if that step is the driver-status consumer's successful write of it |
| `LifecycleFinality.ReportOnTerminalRide` | internal/ride/service.go:220-231 | a report taken up for a cancelled or completed ride starts a write if and only if it is EN_ROUTE, ARRIVED or BUSY; any other is acknowledged |
| `LifecycleFinality.TimeoutCancelsExactly` | internal/ride/service.go:306-313 | the timer callback's write cancels if and only if the log holds the request and at most a match after it, and cancels a matched ride if and only if that match came last; it then appends exactly one entry |
| `LifecycleProgress.HeadFinishes` | internal/ride/service.go:211-266 | whatever the driver-status consumer is doing, a run of its own finishes the message at the head; afterwards nothing is left to do for it and no driver has changed |
| `LifecycleProgress.QueuedFinishes` | internal/shared/messaging/consumer.go:13-39 | the same for a message at any position of the queue |
| `LifecycleDrivers.CheckIsNeededExactly` | internal/driverlocation/handler.go:319-347 | publishing BUSY for a ride is safe, in every checked run that follows, if and only if the ride has a driver then: otherwise a run starts it without one |
| `LifecycleDrivers.CheckedStartsAreAttended` | internal/driverlocation/handler.go:319-347 | in every run that publishes BUSY only for rides with a driver, every IN_PROGRESS or COMPLETED ride has a driver |
| `LifecycleDrivers.UncheckedBusyStarts` | internal/driverlocation/handler.go:319-347 | a BUSY message for a ride without a driver, wherever it waits, can be carried through to IN_PROGRESS without a driver |
| `LifecycleDrivers.StartedWithoutDriverExactly` | internal/ride/repository.go:276-300 | a committed BUSY write leaves the ride without a driver if and only if the row it writes has none |
| `LifecycleDrivers.DriverFixedAfterRequest` | internal/ride/repository.go:228-245 | once REQUESTED is left, a ride keeps the driver it has, or has none, in every later run |
| `LifecycleRestarts.CompletedIsNotFinal` | internal/ride/repository.go:276-292 | a concrete run in which a further BUSY message starts a completed ride again |
| `LifecycleRestarts.HourForAMinute` | internal/ride/refund.go:21-47 | a concrete run in which a restarted ride is driven for an hour and completed at the fare of one minute |
| `LifecycleRestarts.ChargesElapsedExactly` | internal/ride/refund.go:32-43 | in every reachable state a ride in progress is charged the minutes since it was started, at every clock reading, if and only if its log has no COMPLETED entry |
| `LifecycleRestarts.CompletionCharges` | internal/ride/service.go:233-244 | every completion writes and logs the fare for the minutes from the last start to now on the first completion, and to the previous completion on any later one |
| `LifecycleRestarts.RestartedRideChargesOneMinute` | internal/ride/refund.go:32-43 | a ride that completed before is charged one minute, at any clock reading, if and only if it last started less than two minutes before that completion, or after it |
| `LifecycleRestarts.CompletionTimeExactly` | internal/ride/repository.go:303-314 | a row has a completion time, and a final fare, if and only if its log has a COMPLETED entry |
| `LifecycleLimits.CancelledIsNotFinal` | internal/ride/repository.go:276-292 | a concrete run in which a late ARRIVED message moves a cancelled ride to ARRIVED |
| `LifecycleLimits.TimeoutCancelsMatchedRide` | internal/ride/service.go:306-313 | a concrete run in which the timer callback cancels a ride matched between its two reads |
| `LifecycleLimits.InProgressWithoutDriver` | internal/driverlocation/handler.go:319-347 | a concrete run in which a BUSY message puts a never matched ride IN_PROGRESS without a driver |
| `Redelivery.RedeliveryTransparent` | internal/shared/messaging/consumer.go:29-36 | for every run, whatever consumer attempts fail before or after their commit and are requeued, a run without failing attempts takes in the same requests and messages in the same order, passes through the same sequence of databases, row for row and event for event, and is left with the same queues, but for a head already committed: no message is lost or repeated |
| `Redelivery.StepSim` | internal/ride/service.go:176-266 | every step of the failing system is matched by steps without failing attempts that take in and commit the same and restore the relation |
| `LifecycleSteps.NextKeepsInv` | internal/ride/service.go:59-328 | every action of every actor keeps the rely-guarantee invariant of all actors, rows, logs, queues and timers |
| `LifecycleInvariant.StatusStable` | internal/ride/service.go:211-244 | what the driver-status consumer read before its write stays valid under every step of the other actors |
| `RideRequest.ValidateCreateRideRequest` | internal/ride/validation.go:22-75 | accepts exactly the requests that break no requirement, and otherwise reports the first requirement broken |
| `RideStore.RefundInNumbers` | internal/ride/refund.go:5-14 | the fare before a match, 0.8 of it after, each to within 0.005; nothing later |
| `RideStore.MinutesInNumbers` | internal/ride/refund.go:32-43 | whole minutes of 60 s from the start to the completion or now, at least one; none without a start |
| `RideStore.MatchWrites` | internal/ride/repository.go:208-260 | only a known ride that is REQUESTED is matched: status, driver and match time are written and logged, all else stays |
| `RideStore.CancelWrites` | internal/ride/repository.go:153-206 | only a known ride that is REQUESTED or MATCHED is cancelled: status, reason and time are written, the refund is logged, all else stays |
| `RideStore.StatusWrites` | internal/ride/repository.go:262-344 | each reported status writes its own time, COMPLETED the fare too, and is logged with the reporting driver; all else stays |
| `RideService.Service.MapDriverStatusToRideStatus` | internal/ride/consumer.go:71-84 | a report stands for a ride status by itself exactly if it stands for the same one whatever the ride is doing; otherwise only AVAILABLE does, for a ride in progress |
| `RideService.Service.CreateRide` | internal/ride/service.go:59-117 | is a run of the creation's own steps: exactly the requests that break a requirement are refused; refused requests and failed statements change nothing; otherwise exactly the new row, its first event and its two coordinates are stored; success arms the timer, a failed publish leaves the ride REQUESTED without one |
| `RideService.Service.HandleDriverMatched` | internal/ride/service.go:176-209 | is a run of the response consumer: acknowledged exactly on success; unknown or already matched rides change nothing; a match is committed, its timer cleared and its row announced; errors only from repository failures |
| `RideService.Service.HandleDriverResponse` | internal/ride/consumer.go:29-41 | the same for any response; rejected or incomplete ones are acknowledged |
| `RideService.Service.HandleDriverStatus` | internal/ride/service.go:211-266 | is a run of the status consumer: acknowledged exactly on success; reports asking for no transition change nothing; any other is committed, with the final fare of the row read first when completing, and announced |
| `RideService.Service.WriteStatus` | internal/ride/service.go:242-266 | the write half alone: the committed transition and its announcement |
| `RideService.Service.CancelRide` | internal/ride/service.go:128-174 | is a run of the call: a ride is cancelled only without a passenger or by its own; another passenger is refused and changes nothing; success means the locked cancellation with the refund of the status read first and the reason given or the default, the timer cleared and the row announced |
| `RideService.Service.WriteCancel` | internal/ride/service.go:151-174 | the write half alone, with the exact reason of a refusal |
| `RideService.Service.MatchingTimeout` | internal/ride/service.go:306-317 | the timer callback is a run of its call, a ride it does not find REQUESTED is left alone, and without a repository failure an existing ride is not REQUESTED when it returns |
| `RideService.Service.StartMatchingTimeout` | internal/ride/service.go:298-318 | arms the ride's timer, replacing an earlier one, and no other |
| `RideService.Service.ClearMatchingTimeout` | internal/ride/service.go:320-328 | removes the ride's timer if present, and no other |
| `RideService.Service.PublishRideStatus` | internal/ride/events.go:144-161 | the message carries status and driver of the row it is built from, an absent driver as the empty string |
| `RideStore.PostgresRepository.CreateRide` | internal/ride/repository.go:28-94 | all or nothing: with any statement failing the tables are unchanged, otherwise both coordinates, the row and its RIDE_REQUESTED event are there together |
| `RideStore.PostgresRepository.GetRide` | internal/ride/repository.go:96-151 | the row, not-found, or the failure |
| `RideStore.PostgresRepository.CancelRide` | internal/ride/repository.go:153-206 | with a failure at any statement the tables are the old ones or the fully committed ones (only when the re-read fails), else exactly the cancellation or its refusal |
| `RideStore.PostgresRepository.UpdateRideMatched` | internal/ride/repository.go:208-260 | the same for the match |
| `RideStore.PostgresRepository.UpdateRideStatus` | internal/ride/repository.go:262-344 | the same for the status update, through the generated SET list |
| `RideStore.PostgresRepository.BuildUpdate` | internal/ride/repository.go:285-324 | the generated query, read back with its placeholders, sets exactly the columns of the transition, and its last placeholder is the ride id |
| `RideStore.PostgresRepository.AppendSet` | internal/ride/repository.go:285-322 | one more column keeps placeholders and arguments in step and leaves earlier assignments as they were |
| `RideStore.PostgresRepository.InsertRideEvent` | internal/ride/repository.go:366-386 | appends to the ride's log and to no other |
| `Fare.FareInNumbers` | internal/ride/fare.go:78-101 | for all arguments: the three rate lines, the error cases in their order, and a whole number of hundredths within 0.005 of the price |
| `Fare.QuoteInNumbers` | internal/ride/fare.go:52-76 | quotes exist exactly for the three types, with the distance to two decimals and the least whole number of minutes, at least one, at two minutes per km |
| `Fare.RoundTies` | internal/ride/fare.go:148-150 | ties are rounded away from zero |
| `Fare.QuoteTracksIdeal` | internal/ride/fare.go:52-76 | a quote exists exactly for known types and lies between base + d(km + 2 min) - 0.005 and that plus one minute + 0.005, for every distance |
| `Fare.QuoteMonotone` | internal/ride/fare.go:52-76 | a longer ride is never quoted cheaper |
| `Fare.QuoteOrderedByType` | internal/ride/fare.go:34-50 | ECONOMY <= PREMIUM <= XL at every distance |
| `Fare.FareAtLeastMinimum` | internal/ride/fare.go:78-101 | a known type, a distance and at least a minute give no error and at least base plus one minute |
| `Fare.DurationTracksDistance` | internal/ride/fare.go:129-142 | the estimate is at least one minute, covers two minutes per km and exceeds that by at most one |
| `MessageConsumer.Consume` | internal/shared/messaging/consumer.go:13-39 | the i-th delivery is the message after as many as were acknowledged before it; acknowledged plus remaining messages are the queue, in order; it only stops early on an empty queue |
| `MessageConsumer.RedeliveredUntilAcked` | internal/shared/messaging/consumer.go:29-36 | two deliveries are of the same message exactly when no acknowledgement lies between them |
| `Matching.FirstAcceptorMatched` | internal/driverlocation/matching.go:50-74 | over every interleaving one MatchRide call publishes at most one match, for the last candidate it tried, who answered yes to the offer made to them; no earlier candidate answered yes |
| `Matching.WinnerIsPublished` | internal/driverlocation/matching.go:130-161 | publishing names the last candidate tried, who said yes; without a failure that match is published |
| `Matching.YesEndsTheSearch` | internal/driverlocation/matching.go:66-72 | an ended offer leads to publishing if and only if it was answered yes, and otherwise to the next candidate |
| `Matching.PendingIsOpenOffers` | internal/driverlocation/matching.go:76-128 | the keys of pending are exactly the offers between registration and deferred removal, each leading to its own channel |
| `Matching.ChannelsKeepToTheirOffer` | internal/driverlocation/matching.go:190-204 | a channel holds at most one response and only ever receives responses to its own offer |
| `Matching.FirstResponseWins` | internal/driverlocation/matching.go:105-127 | the answer a call acts on is the first response sent for that offer; late, duplicate and foreign ones change nothing |
| `Matching.GivesUpOnlyAfterAll` | internal/driverlocation/matching.go:50-74 | a call that ended without an acceptance has tried every candidate |
| `Matching.WaitingIsBounded` | internal/driverlocation/matching.go:17-22 | at most 30 s of waiting per candidate and 150 s in all, and at least 30 s for each that timed out |
| `Matching.TimeoutsAreTakeable` | internal/driverlocation/matching.go:105-127 | time can always pass or some timeout be taken |
| `Matching.NextKeepsInv` | internal/driverlocation/matching.go:50-205 | every action of every matcher and responder keeps the joint invariant |
| `MatcherCode.Matcher.MatchRide` | internal/driverlocation/matching.go:50-74 | the loop publishes for the first accepting candidate and for none otherwise, and leaves pending as it found it |
| `MatcherCode.Matcher.OfferToDriver` | internal/driverlocation/matching.go:76-128 | accepted exactly if the offer was sent, not given up on, and the first response to it accepts; on every exit its key is gone and other offers keep theirs |
| `MatcherCode.Matcher.HandleDriverResponse` | internal/driverlocation/matching.go:172-205 | reaches only the channel of its own offer, and only if that is empty |
| `MatcherCode.OneSlot.TrySend` | internal/driverlocation/matching.go:199-204 | the non-blocking send fills an empty channel and is dropped by a full one |
| `LocationRate.LimiterEqualsHistory` | internal/driverlocation/handler.go:415-427 | an update is allowed if and only if nothing was granted to that driver less than 3 s earlier, over any history of allows and marks |
| `LocationRate.WindowBound` | internal/driverlocation/handler.go:400-427 | any closed window of length L holds at most L / 3 s + 1 allowed updates of a driver |
| `LocationRate.DriversAreIndependent` | internal/driverlocation/handler.go:415-433 | a driver is answered as if the calls of all other drivers were deleted |
| `LocationRate.Limiter.AllowLocationUpdate` | internal/driverlocation/handler.go:415-427 | answers and records in one critical section |
| `LocationRate.Limiter.MarkLocationUpdated` | internal/driverlocation/handler.go:429-433 | records unconditionally |
| `DriverSessions.SessionMoneyConserved` | internal/driverlocation/repository.go:178-192 | over any run each session holds the number of its rides and the sum of their shares rounded to hundredths, within 0.4 hundredths per ride of 0.8 of the fares |
| `DriverSessions.RidesConserved` | internal/driverlocation/repository.go:178-192 | ride counts over all sessions sum to the completions recorded with a session open |
| `DriverSessions.TableMatchesReference` | internal/driverlocation/repository.go:124-192 | over any run the table is a stack of sessions per driver, each with the fares completed while it was on top |
| `DriverSessions.OfflineEndsNewest` | internal/driverlocation/repository.go:143-176 | the session closed is the driver's newest open one, so nested sessions end last-in first-out |
| `DriverSessions.CreditAddsShare` | internal/driverlocation/repository.go:178-192 | rounding the running total equals adding the rounded share |
| `DriverSessions.LatestOpen` | internal/driverlocation/repository.go:143-176 | an open session of the driver with the greatest start time, or none if there is none open |
| `DriverSessions.Sessions.FindLatestOpen` | internal/driverlocation/repository.go:143-192 | the scan finds that session |
| `DriverSessions.Sessions.StartDriverSession` | internal/driverlocation/repository.go:124-134 | adds an open, empty session |
| `DriverSessions.Sessions.EndDriverSession` | internal/driverlocation/repository.go:143-176 | closes that session and reports its duration and totals, or zeros without one |
| `DriverSessions.Sessions.RecordCompletedRide` | internal/driverlocation/repository.go:178-192 | adds one ride and its share to that session, and nothing without one |
| `DriverLocations.MoveLeavesOneCurrent` | internal/driverlocation/repository.go:93-106 | after an update, whatever the flags were, the new point is the only current one of its driver, no position or owner has changed, and no other driver or passenger row has |
| `DriverLocations.CurrentAgreesWithHistory` | internal/driverlocation/repository.go:82-122 | after any transactions a driver who has reported has exactly one current coordinate: the point of its last history row, at the position of the driver's last report |
| `DriverLocations.MoveStoresReport` | internal/driverlocation/repository.go:99-116 | latitude, longitude, driver and ride reported are those stored, in both tables |
| `DriverLocations.HistoryIsBijective` | internal/driverlocation/repository.go:82-122 | driver coordinates and history rows correspond one to one, with equal positions |
| `DriverLocations.PlaceKeepsInv` | internal/ride/repository.go:346-364 | ride creation's coordinates are never current and change nothing about any driver |
| `DriverLocations.LocationStore.UpdateDriverLocation` | internal/driverlocation/repository.go:82-122 | all or nothing at any failing statement; otherwise the new point is current, the old ones are not, and history has one more row |
| `DriverLocations.LocationStore.InsertCoordinate` | internal/ride/repository.go:346-364 | adds one passenger point that is not current |
| `WsHub.ChannelHistory` | internal/shared/ws/hub.go:115-167 | per connection, messages taken then buffered are exactly the accepted ones in order, at most 16 buffered, and the channel is closed at most once |
| `WsHub.RegisteredClientIsOpen` | internal/shared/ws/hub.go:83-92 | no registered client has a closed send channel, and it is registered under its own id |
| `WsHub.SendOutcome` | internal/shared/ws/hub.go:148-167 | a send is accepted when there is room, dropped when full, and hits a closed channel exactly when the client left since the look-up |
| `WsHub.AcceptedOrigin` | internal/shared/ws/hub.go:148-167 | every message a connection has accepted was sent to its client by some SendJSON |
| `WsHub.SafeExactly` | internal/shared/ws/hub.go:139-167 | in every reachable state the hub survives every run without a further look-up if and only if no send is pending |
| `WsHub.SurvivesExactly` | internal/shared/ws/hub.go:139-167 | over any run the hub survives if and only if no send is attempted on a channel after its connection has closed it |
| `WsHub.SendCanCrash` | internal/shared/ws/hub.go:139-167 | a concrete run in which a client leaves between a look-up and its send, which ends the process |
| `WsHub.StaysRegisteredExactly` | internal/shared/ws/hub.go:139-146 | over any run a connection stays registered if and only if no connection comes or goes under its id |
| `WsHub.OldExitUnregistersReplacement` | internal/shared/ws/hub.go:139-146 | a concrete state in which the exit of a replaced connection unregisters the live one |
| `WsHub.Hub.Register` | internal/shared/ws/hub.go:83-92 | registers a fresh connection under its id, replacing any other |
| `WsHub.Hub.Disconnect` | internal/shared/ws/hub.go:139-146 | is the removal by id followed by the close |
| `WsHub.Hub.SendJSON` | internal/shared/ws/hub.go:148-167 | true exactly if the client is registered and has room, and then the message is appended |
| `WsHub.Hub.WritePump` | internal/shared/ws/hub.go:115-137 | writes the front of the buffer in order and leaves the rest |

## Left out

- RideService.Service.CreateRide: the haversine distance is an arbitrary real, and trimming and upper-casing of request texts are taken as done.
- Redelivery.RedeliveryTransparent: an announcement lost with a failed attempt is lost in the run without failures too; what becomes of announcements is `LifecycleAnnouncements.AnnouncementsConserved`.
- RideRequest.ValidateCreateRideRequest: trimming and upper-casing of texts are taken as done, and the nil request is not modelled.
- LifecycleTheorems.NoNackWithoutFailure: liveness of the broker connection and of reconnecting is not claimed.
- DriverSessions.TableMatchesReference: assumes that session start times do not go backwards; of equally old open sessions the newer row is taken, which the SQL leaves open.
- LocationRate.LimiterEqualsHistory: assumes a clock that does not go backwards.
- Matching.WaitingIsBounded: a timeout that is due is taken before time goes on; scheduling delay is not modelled.
- Matching.FirstAcceptorMatched: the candidates are a given sequence of at most five; the PostGIS query and its order are not modelled.
- MatcherCode.Matcher.MatchRide: which responses arrive while an offer is open, and whether it is given up, are inputs; interleaving with other calls is in `Matching`.
- DriverLocations.CurrentAgreesWithHistory: whole transactions only; two overlapping updates of one driver are not modelled.
- RideService.Service.HandleDriverStatus: runs uninterrupted there; interleaving is the business of `Lifecycle`.
- The responses that reach the ride service are arbitrary in `Lifecycle`, whose theorems need no more; `LifecycleMatching` restricts them to what the matcher publishes.
- `handleRideStatus` is one action: reading ride details, sending them and publishing EN_ROUTE are not separated.
- Status texts are datatypes; unknown driver statuses behave like OFFLINE, which no branch handles.
- Floating-point error, NaN, overflow of DECIMAL columns, process restarts and several instances of a service.
- HTTP and WebSocket plumbing, authentication, pings, JSON, JWT, UUIDs, logging, configuration, admin queries, passenger notifications, correlation ids, the location fan-out, and RabbitMQ connection handling.
