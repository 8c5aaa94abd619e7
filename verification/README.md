# Tuljai Stays: a verified model

Tuljai Stays lets pilgrims hold a room type in a lodge for a few minutes, turn the hold into a booking
(paid at the lodge and accepted by the owner, or paid online and accepted at once), and stay. This
project models the parts of it that have to keep promises to each other while many requests, jobs and
devices run at the same time, and proves those promises for every input and every run.

| file | what it models |
|---|---|
| `Inventory.dfy`, `BookingSteps.dfy` | the rows, the availability queries, and what each transaction does to the rows |
| `BookingInvariant.dfy`, `BookingPreservation.dfy` | what holds in every reachable state, and why every step keeps it |
| `BookingRuns.dfy` | whole runs: any interleaving of calls whose reads may be arbitrarily old, with a clock and an environment that changes rooms, blocks, types and lodges |
| `BookingEffects.dfy` | each call said of the rows themselves: exactly when it changes anything, every field it writes, and what that means over runs |
| `BookingRaces.dfy`, `BookingRaceRuns.dfy` | three writes that are not safe, the exact condition under which each is, and a run in which it is not |
| `BookingPromise.dfy`, `BookingPromiseRun.dfy` | what a hold is worth: always a room for one night, not always for two |
| `BookingServices.dfy` | the services as methods that update the tables row by row, proved equal to the steps |
| `Pricing.dfy`, `CashCollection.dfy` | the price of a stay; the cash receipt at the lodge |
| `Base32.dfy` | the codec of the authenticator secrets, over 32-bit registers |
| `CatalogCards.dfy`, `CatalogCache.dfy`, `CatalogPaging.dfy` | building, caching, filtering, sorting and paging the lodge cards |
| `ClientBookings.dfy`, `ApiClient.dfy` | how the apps merge booking updates; how they refresh an expired token |
| `AuthSessions.dfy`, `OtpLimit.dfy` | sessions, refresh and access tokens; the sliding limit on one-time passwords |
| `LayoutValidation.dfy` | the validator of the pilgrim app's layout |
| `Counting.dfy`, `Wrappers.dfy` | set cardinality; Option and Result |

Identifiers are natural numbers, dates are day numbers, instants are milliseconds, money is in paise.

## How the allocator is modelled

A service call reads some rows and then runs a transaction. The two halves are separate functions. In a
run, an event names the earlier state in which its call made its reads, so the transaction meets rows that
any number of other steps may have changed. Every transaction that claims inventory first takes the
room-type row lock (`inventory-lock.ts:3-9`), which is why its body is one step; a single guarded update
is one step as well. Reads and writes that nothing locks together are apart: a rejection, an expiry and a
transition write over whatever the row has become, and their history rows come as steps of their own. Two
such writes are steps exactly where they do no harm (`BookingSteps.Enabled`): the payment service's write
of an order, when the provider answers before the hold runs out, and a check-in, when the booking was not
released meanwhile. What they do otherwise is the subject of `BookingRaces.dfy`. The code compares counts
over a whole window; the invariant is about each night and each room. The bridge is
`BookingInvariant.WindowBoundsNight`.

## Where the code does not do what it is for

1. `createBooking` refuses a hold with a provider order, but only in the reads before its transaction
   (`bookings.service.ts:125`, against `159-170`). An order attached in between goes with a booking
   that is not paid, and the payment call for that order then answers with that booking.
   `BookingRaces.CreateBookingAndOrders` gives the exact condition for one call,
   `BookingRaces.OrdersArePaidInRuns` for runs, and `BookingRaceRuns.LateOrderGoesUnpaid` the run.
2. The guarded `attachProviderOrder` is not what the payment service calls: `payments.service.ts:541-548`
   moves the expiry of the hold by identifier after the provider has answered. If the hold ran out
   meanwhile and another guest took the room, the night is oversold. The two writes are the same exactly
   while the hold is live and has no order: `BookingPreservation.WriteOrderIsGuarded`,
   `BookingRaces.WriteOrderAndCapacity`, `BookingRaceRuns.LateOrderOversells`.
3. `transitionBooking` (`bookings.service.ts:1130-1161`) writes the status of a row it read earlier. A
   check-in that overlaps a cancellation brings the booking back after its room was given away.
   `BookingRaces.LateTransition`, `BookingRaces.LateCheckIn`, `BookingRaceRuns.LateCheckInDoubleBooks`.
4. The comment on `onSessionExpired` (`api-client.ts:9-15`) promises a call whenever the refresh fails.
   A refresh that rejects, instead of answering null, is never reported: the code is followed.
   `ApiClient.ReportedUnlessRejected`, `ApiClient.RejectedRefreshIsSilent`.
5. An access token may expire up to the signing delay after its session, because its lifetime is measured
   before it is signed and signing counts whole seconds (`auth.service.ts:779-791`). Requests are still
   refused in time, because each one looks at the session. `AuthSessions.ExpirySlips`,
   `AuthSessions.NothingAcceptedPastDeadline`.
6. The reply to a booking's creation replaces the app's copy without comparing versions
   (`PilgrimAppProvider.tsx:529`), and realtime events for a no-show are ignored although a record shows
   it as cancelled. `ClientBookings.CreationMayGoBack`, `ClientBookings.CreationReplyOvertaken`,
   `ClientBookings.EventAgreesWithRecord`.
7. A polled record does not carry the payment and the amount (`backend-sync.ts:207-216`). A device that
   learns by polling that a booking was accepted and paid goes on showing it as payable at the lodge, while
   one that lists its bookings shows it as paid. `ClientBookings.RecordLeavesPaymentStale`; the exact
   condition under which the whole booking is right is in `ClientBookings.Converges`.
8. A hold is not a reservation. It is honoured exactly when the rooms free for its whole stay outnumber all
   other claims without a room that touch the stay (`BookingPromise.HoldIsHonouredExactly`). With nothing
   taken off sale that is always so for one night and, for every longer stay, not always: a later, shorter
   hold is counted against the one room that is free for all the nights
   (`BookingPromiseRun.OneNightIsThePromise`, `BookingPromiseRun.LongHoldIsRefused`).

## Model

| member | source | states |
|---|---|---|
| Inventory.ParseDateRange | backend/src/modules/bookings/booking-availability.service.ts:106-118 | a range is accepted exactly when it has a night, and keeps exactly its nights |
| Inventory.OverlapIsSharedNight | backend/src/modules/bookings/booking-availability.service.ts:190-193 | the overlap test of the queries holds exactly when some night belongs to both stays |
| Inventory.FirstRoom | backend/src/modules/bookings/booking-availability.service.ts:91-104 | the owner-approval flow takes the first room by floor and number |
| Inventory.FindAttempt | backend/src/modules/bookings/booking-locks.service.ts:45-49 | the hold found for an attempt key has that pilgrim and key; none is found only if there is none |
| Inventory.FindBySource | backend/src/modules/bookings/bookings.service.ts:161-165 | the prior booking found names the hold as its source; none is found only if there is none |
| BookingInvariant.WindowBoundsNight | backend/src/modules/bookings/booking-availability.service.ts:140-179 | a positive window-wide count leaves that many rooms unclaimed on every single night of the window |
| BookingInvariant.PlacedAndFree | backend/src/modules/bookings/booking-availability.service.ts:181-224 | bookings with a room on a night and rooms free for the whole window are different rooms of the type |
| BookingPreservation.CreateLockKeeps | backend/src/modules/bookings/booking-locks.service.ts:38-103 | taking a hold keeps capacity on every night, attempt keys unique, and everything else of the invariant |
| BookingPreservation.AttachKeeps | backend/src/modules/bookings/booking-locks.service.ts:130-141 | attaching an order under the guard keeps the invariant: only a live hold's expiry moves, orders stay unique |
| BookingPreservation.ExpireLocksKeeps | backend/src/modules/bookings/booking-locks.service.ts:157-167 | expiring overdue holds keeps the invariant |
| BookingPreservation.ReleaseKeeps | backend/src/modules/bookings/booking-locks.service.ts:149-155 | releasing a hold keeps the invariant |
| BookingPreservation.CreateBookingKeeps | backend/src/modules/bookings/bookings.service.ts:159-256 | converting a hold replaces its claim on every night by the booking's, with one creation row and one collection row if paid online, even when the hold row was read long before |
| BookingPreservation.PrepaidKeeps | backend/src/modules/bookings/bookings.service.ts:396-527 | converting a paid hold gives a room no active booking overlaps, and one paid collection row of the hold's amount |
| BookingPreservation.AcceptKeeps | backend/src/modules/bookings/bookings.service.ts:825-874 | accepting gives a room no active booking overlaps, and adds no claim |
| BookingPreservation.CancelKeeps | backend/src/modules/bookings/bookings.service.ts:626-658 | cancelling keeps the invariant |
| BookingPreservation.BlindWriteKeeps | backend/src/modules/bookings/bookings.service.ts:903-919 | a rejection or an expiry written over whatever the row has become keeps the invariant, since it only releases |
| BookingPreservation.TransitionKeeps | backend/src/modules/bookings/bookings.service.ts:1144-1151 | a check-out or completion written over whatever the row has become, and a check-in written over an active booking, keep the invariant |
| BookingPreservation.NoteKeeps | backend/src/modules/bookings/bookings.service.ts:1152-1158 | a history row that is not about a creation keeps the invariant whenever it comes |
| BookingPreservation.WriteOrderIsGuarded | backend/src/modules/payments/payments.service.ts:541-548 | the deployed write of an order does what the guarded update does exactly when the hold is live and has no order |
| BookingPreservation.OrderStepKeeps | backend/src/modules/payments/payments.service.ts:510-548 | the payment service's resolve, ask and write keeps the invariant when the provider answers before the hold expires |
| BookingPreservation.StepKeeps | backend/src/modules/bookings/inventory-lock.ts:3-9 | every step, however old the reads of its call, keeps the whole invariant and moves every row only forward |
| BookingRuns.RunIsSafe | backend/src/modules/bookings/inventory-lock.ts:3-9 | in every run, every state satisfies the invariant and every earlier row has only moved forward |
| BookingRuns.NightsFit | backend/src/modules/bookings/booking-availability.service.ts:140-179 | in every reachable state and on every night, active bookings with and without a room and live holds of a type fit in its rooms, and no two bookings share one |
| BookingRuns.NoRoomIsDoubleBooked | backend/src/modules/bookings/booking-views.service.ts:208-222 | over every interleaving the conflict report's query for doubly booked rooms returns nothing |
| BookingRuns.NoTypeIsOverbooked | backend/src/modules/bookings/booking-views.service.ts:226-245 | nor does its query for overbooked room types, when the stated total is not below the rooms there are |
| BookingRuns.ConsumedIsBooked | backend/src/modules/bookings/bookings.service.ts:159-170 | in every reachable state a hold is consumed exactly when one booking, and no other, names it, and that booking has its pilgrim, type and stay |
| BookingRuns.HoldsEnd | backend/src/modules/bookings/booking-locks.service.ts:135-167 | consumed, released and expired are never left; a hold past its expiry is never converted, extended or given an order |
| BookingRuns.CreationAfterBooking | backend/src/modules/bookings/bookings.service.ts:398-402 | a creation call, prepaid or not, that meets a booking already made from its hold changes nothing and can only answer with that booking |
| BookingRuns.CreationIsIdempotent | backend/src/modules/bookings/bookings.service.ts:127-131 | over any run, every creation call after the first for a hold leaves the rows alone; the booking has one creation row |
| BookingRuns.RepeatAnswers | backend/src/modules/bookings/bookings.service.ts:159-165 | a creation call that meets the booking answers with it exactly when it did not give up in its reads |
| BookingRuns.RepeatReturnsExactly | backend/src/modules/bookings/bookings.service.ts:346-363 | a call repeated after the booking was made returns it exactly when its pilgrim calls and the order asked for, or its absence, is the hold's |
| BookingRuns.PaymentAgainReturnsBooking | backend/src/modules/bookings/bookings.service.ts:359-363 | a payment confirmed again returns the booking it made |
| BookingRuns.CreationAgainReturnsBooking | backend/src/modules/bookings/bookings.service.ts:125-131 | a creation repeated by its caller returns the booking exactly when the hold has no order |
| BookingRuns.AttemptNamesOneHold | backend/src/modules/bookings/booking-locks.service.ts:44-68 | in every reachable state a pilgrim's attempt key names at most one hold |
| BookingRuns.AttemptIsIdempotent | backend/src/modules/bookings/booking-locks.service.ts:50-67 | every later call with the key takes no inventory: it answers with that hold exactly when the key is valid, the hold is live and it was asked for with the same details, and fails otherwise |
| BookingRuns.FailureChangesNothing | backend/src/modules/bookings/bookings.service.ts:447-450 | a call that fails leaves every row as it was, and so does a payment that finds no room |
| BookingRuns.PrepaidMoneyIsConserved | backend/src/modules/bookings/bookings.service.ts:368-373 | whatever happens between order and capture and ever after, a prepaid booking's total is what was captured, what its hold stores, and what its one paid row says |
| BookingRuns.PrepaidCreation | backend/src/modules/bookings/bookings.service.ts:393-517 | the step that makes a prepaid booking records the captured amount in all three places |
| BookingRuns.PaymentPaysOnce | backend/src/modules/bookings/bookings.service.ts:514-517 | a captured payment pays for at most one booking |
| BookingEffects.LockExactly | backend/src/modules/bookings/booking-locks.service.ts:69-92 | a call takes a hold exactly when its key is fresh, the type is on sale and a room is left; the hold is the caller's for that type, stay and key, active until now plus the given time, without an order, and nothing else changes |
| BookingEffects.AttemptReturnsFirst | backend/src/modules/bookings/booking-locks.service.ts:44-68 | over runs: once a call with a key was answered with a hold, every later call of that pilgrim with that key takes nothing and answers with that hold exactly while it is live and the details are the same |
| BookingEffects.AvailableExactly | backend/src/modules/bookings/booking-availability.service.ts:30-89 | the availability answer is positive exactly when the type is on sale and more rooms can be sold for the window than bookings and holds wait for one |
| BookingEffects.ReleaseExactly | backend/src/modules/bookings/booking-locks.service.ts:149-155 | the caller's own active hold ends at this moment; no other row changes |
| BookingEffects.ExpiryExactly | backend/src/modules/bookings/booking-locks.service.ts:157-167 | exactly the active holds whose time is up become expired |
| BookingEffects.AttachExactly | backend/src/modules/bookings/booking-locks.service.ts:130-141 | the guarded update writes order, amount and expiry exactly on a live hold without an order |
| BookingEffects.OrderExactly | backend/src/modules/payments/payments.service.ts:510-548 | an order is written exactly for the caller's live hold without one, at a positive price while a room is left; it is for the price quoted, extends the hold by the given time, and changes no other row |
| BookingEffects.QuoteIsCharged | backend/src/modules/payments/payments.service.ts:524-548 | over runs in which only this call writes orders, a prepaid booking costs, ever after, the quote of the call that wrote its order |
| BookingEffects.CreationExactly | backend/src/modules/bookings/bookings.service.ts:159-256 | a booking is made exactly when the caller's hold serves and is still open, the type is on sale and a room is left; every field of it, of its history row and of its collection |
| BookingEffects.BookedForThePrice | backend/src/modules/bookings/bookings.service.ts:200-213 | over runs, a booking paid at the lodge or pending online costs, ever after, the quote of the call that made it, is paid as that call asked, and has its deadline counted from then |
| BookingEffects.PaymentExactly | backend/src/modules/bookings/bookings.service.ts:396-517 | a payment makes a booking exactly when the hold serves with that order and amount, the type is on sale for the guests and some room nobody locked can be sold; it is accepted and paid, in the first such room |
| BookingEffects.CancelExactly | backend/src/modules/bookings/bookings.service.ts:617-656 | a booking not yet begun is cancelled exactly by its pilgrim or an administrator, and its room goes back on sale; a stranger is refused |
| BookingEffects.AcceptExactly | backend/src/modules/bookings/bookings.service.ts:811-874 | a waiting pay-at-lodge booking is accepted exactly by someone who manages the lodge while a room can be sold, and gets the first by floor and number |
| BookingEffects.RejectExactly | backend/src/modules/bookings/bookings.service.ts:892-911 | the same for a rejection, which does nothing else; anyone else leaves the rows alone |
| BookingEffects.OwnerSilenceExactly | backend/src/modules/bookings/bookings.service.ts:1021-1034 | the expiry job marks exactly bookings that waited for an answer until their deadline |
| BookingEffects.TransitionExactly | backend/src/modules/bookings/bookings.service.ts:1138-1151 | check-in is for accepted bookings, check-out for guests who are in, completion for those who left |
| BookingEffects.OnlyTheEntitled | backend/src/modules/bookings/bookings.service.ts:612-660 | over every run a booking is cancelled only by its pilgrim or an administrator, accepted and rejected only by a manager and only if paid at the lodge, expired only past its deadline, checked in only while active |
| BookingRaces.CreateBookingAndOrders | backend/src/modules/bookings/bookings.service.ts:125-170 | a creation keeps orders matched with paid bookings exactly when the hold still has no order at the write |
| BookingRaces.PrepaidSuccessIsPaid | backend/src/modules/bookings/bookings.service.ts:346-402 | while orders are matched, a payment call that succeeds ends with a booking paid in full for the amount of its order |
| BookingRaces.OrdersArePaidInRuns | backend/src/modules/bookings/bookings.service.ts:125-170 | over a run bookings of holds with an order are paid in every state exactly when every creation met a hold without one |
| BookingRaces.PaymentCallsEndPaid | backend/src/modules/bookings/bookings.service.ts:346-402 | in such a run every payment call that succeeds ends with a booking paid in full for its order |
| BookingRaces.WriteOrderAndCapacity | backend/src/modules/payments/payments.service.ts:541-548 | the unguarded write of the order keeps capacity exactly when the hold is live, is already ended, or every night has a room to spare |
| BookingRaces.LateTransition | backend/src/modules/bookings/bookings.service.ts:1138-1151 | a transition written late brings no released booking back exactly when the booking is still active or the transition is not a check-in |
| BookingRaces.LateCheckIn | backend/src/modules/bookings/bookings.service.ts:1138-1151 | written over a released booking, a check-in double-books exactly when another active booking took the room for an overlapping stay |
| BookingRaceRuns.LateOrderOversells | backend/src/modules/payments/payments.service.ts:510-548 | a run in which the unguarded write oversells a night; the guarded update refuses there |
| BookingRaceRuns.LateOrderGoesUnpaid | backend/src/modules/bookings/bookings.service.ts:125-170 | a run in which a hold with an order becomes an unpaid booking that the payment call then answers with |
| BookingRaceRuns.LateCheckInDoubleBooks | backend/src/modules/bookings/bookings.service.ts:1138-1151 | a run in which a late check-in puts two active bookings in one room |
| BookingPromise.WindowLeavesOpen | backend/src/modules/bookings/booking-availability.service.ts:140-179 | a positive window-wide count leaves, on every night of the window, more open rooms than claims without a room |
| BookingPromise.StepKeepsPromise | backend/src/modules/bookings/inventory-lock.ts:3-9 | every step but the environment's keeps an open room on each night for each claim without one, however old its reads |
| BookingPromise.PromiseIsKept | backend/src/modules/bookings/booking-availability.service.ts:140-224 | so does every stretch of a run in which rooms and blocks are not changed from outside |
| BookingPromise.HoldIsHonouredExactly | backend/src/modules/bookings/bookings.service.ts:159-256 | a live hold of any length can be booked exactly when the rooms free for its stay outnumber the other claims without a room that touch it |
| BookingPromise.PaymentIsHonouredExactly | backend/src/modules/bookings/bookings.service.ts:396-450 | a payment for it goes through exactly when some room not locked by others is free for the whole stay |
| BookingPromise.AcceptanceIsHonouredExactly | backend/src/modules/bookings/bookings.service.ts:825-839 | an acceptance goes through exactly when some room is free for the whole stay |
| BookingPromise.OneNightHoldIsHonoured | backend/src/modules/bookings/bookings.service.ts:159-256 | in such a run a live hold of one night can be booked whenever the type is still bookable, and a payment for it finds a room |
| BookingPromise.OneNightBookingIsAccepted | backend/src/modules/bookings/bookings.service.ts:825-839 | in such a run the owner's acceptance of a pending booking of one night finds a room |
| BookingPromiseRun.LongHoldIsRefused | backend/src/modules/bookings/bookings.service.ts:175-183 | for every stay of two nights or more, a run in which its live hold is refused although nothing was taken off sale and each night has its rooms |
| BookingPromiseRun.OneNightIsThePromise | backend/src/modules/bookings/bookings.service.ts:159-183 | holds of n nights are honoured in every run without outside changes exactly when n is one |
| BookingServices.ClaimIsInvisible | backend/src/modules/bookings/bookings.service.ts:166-181 | a transaction that has consumed its own hold sees the same availability as before |
| BookingServices.KeepsInvariant | backend/src/modules/bookings/inventory-lock.ts:3-9 | a method whose effect is a step keeps the invariant |
| BookingServices.ExpireOne | backend/src/modules/bookings/bookings.service.ts:1030-1042 | one pass of the expiry loop expires one more booking with one row and keeps the invariant |
| BookingServices.Database.CreateLock | backend/src/modules/bookings/booking-locks.service.ts:23-116 | reply and rows are those of the step; the invariant is kept |
| BookingServices.Database.AttachProviderOrder | backend/src/modules/bookings/booking-locks.service.ts:130-141 | reply and rows are those of the step; the invariant is kept |
| BookingServices.Database.WriteProviderOrder | backend/src/modules/payments/payments.service.ts:541-548 | the write by identifier alone, or the violation of the unique order |
| BookingServices.Database.CreatePrepaidOrder | backend/src/modules/payments/payments.service.ts:510-548 | resolve and write together are the step; the invariant is kept |
| BookingServices.Database.ReleaseLock | backend/src/modules/bookings/booking-locks.service.ts:149-155 | released exactly when the caller's hold was active; the caller's hold is not live afterwards |
| BookingServices.Database.ExpireLocks | backend/src/modules/bookings/booking-locks.service.ts:157-167 | afterwards no hold is overdue; the count is the number that was |
| BookingServices.Database.CreateBookingTransaction | backend/src/modules/bookings/bookings.service.ts:159-256 | for any earlier copy of the hold row, the row-by-row body with its roll-backs does exactly what the step does |
| BookingServices.Database.CreateBooking | backend/src/modules/bookings/bookings.service.ts:109-266 | reads and transaction together are the step; the invariant is kept |
| BookingServices.Database.PrepaidTransaction | backend/src/modules/bookings/bookings.service.ts:396-545 | for any earlier copy of the hold row and any rooms locked by others, the body does exactly what the step does |
| BookingServices.Database.CreatePrepaidBooking | backend/src/modules/bookings/bookings.service.ts:336-553 | reads and transaction together are the step; the invariant is kept |
| BookingServices.Database.CancelTransaction | backend/src/modules/bookings/bookings.service.ts:626-658 | for any earlier copy of the booking row, the body does exactly what the step does |
| BookingServices.Database.CancelBooking | backend/src/modules/bookings/bookings.service.ts:612-668 | reads and transaction together are the step; the invariant is kept |
| BookingServices.Database.AcceptTransaction | backend/src/modules/bookings/bookings.service.ts:825-874 | for any earlier copy of the booking row, the body does exactly what the step does |
| BookingServices.Database.AcceptBooking | backend/src/modules/bookings/bookings.service.ts:811-885 | reads and transaction together are the step; the invariant is kept |
| BookingServices.Database.RejectBooking | backend/src/modules/bookings/bookings.service.ts:887-929 | read and blind write together are the step, the history row is the second one; the invariant is kept |
| BookingServices.Database.ExpirePendingBookings | backend/src/modules/bookings/bookings.service.ts:1021-1045 | exactly the overdue bookings expire, each with one history row, nothing else changes, and the count is right |
| BookingServices.Database.TransitionWrite | backend/src/modules/bookings/bookings.service.ts:1144-1151 | the status is written whatever the row has become since it was read |
| BookingServices.Database.TransitionBooking | backend/src/modules/bookings/bookings.service.ts:1130-1161 | read and write together are the step, the history row is the second one; the invariant is kept |
| BookingServices.RowsOfCalls | backend/src/modules/bookings/bookings.service.ts:912-919 | the history rows of rejection, expiry and transitions, field by field |
| Pricing.CalculateStayPrice | backend/src/modules/bookings/booking-pricing.ts:5-86 | the closed form with its loop of corrections returns the sum of the nights' prices, or the error, for all inputs |
| Pricing.FestivalNightsCount | backend/src/modules/bookings/booking-pricing.ts:52-60 | the min/max expression is the number of nights in both the stay and the festival |
| Pricing.RegularTotal | backend/src/modules/bookings/booking-pricing.ts:61-63 | base and festival rate times their counts is the total of the nights without overrides |
| Pricing.ApplyOverride | backend/src/modules/bookings/booking-pricing.ts:66-77 | the correction for one override turns the total without it into the total with it |
| Pricing.FinalTests | backend/src/modules/bookings/booking-pricing.ts:78-85 | the counters reject exactly the stays with a night below zero |
| Pricing.PricedTotal | backend/src/modules/bookings/booking-pricing.ts:81 | if every night has a price the total is not negative, so the last test never decides alone |
| Pricing.PriceIsAdditive | backend/src/modules/bookings/booking-pricing.ts:4 | a stay is priced exactly when both its parts are, and then for their sum |
| Pricing.OutsideOverridesIgnored | backend/src/modules/bookings/booking-pricing.ts:17-21 | overrides of nights outside the stay change nothing |
| Pricing.OneNightCosts | backend/src/modules/bookings/booking-pricing.ts:52-77 | with a festival price and two ordered days, a night without an override costs the festival price exactly from the first day to the last inclusive, and base otherwise |
| Pricing.StayCosts | backend/src/modules/bookings/booking-pricing.ts:5-86 | the answer to every stay in terms of the arguments: refused for its dates, for its window, for a negative price, or the sum of its nights |
| CashCollection.AttemptCollectsOnce | backend/src/modules/bookings/cash-collection.ts:35-112 | an attempt that reports a change raises the paid sum from 0 to exactly the total and zeroes the balance for the amount the owner confirmed; any other attempt changes nothing |
| CashCollection.RecordedExactly | backend/src/modules/bookings/cash-collection.ts:37-73 | the receipt is recorded exactly when the caller may, the guest is checked in to pay at the lodge, the cash is untouched, the whole total is due and the amount confirmed is the total |
| CashCollection.CollectedAtMostOnce | backend/src/modules/bookings/cash-collection.ts:27-34 | over any run, from any rows and with any other changes in between, at most one attempt reports a change |
| CashCollection.ShownMeansDone | backend/src/modules/bookings/cash-collection.ts:5-24 | for a checked-in pay-at-lodge booking with dated receipts, the screen says collected exactly when any further attempt is a no-op |
| CashCollection.RetryIsHarmless | backend/src/modules/bookings/cash-collection.ts:56 | an attempt repeated after the collection succeeds without doing anything |
| CashCollection.ParseRendered | backend/src/modules/bookings/cash-collection.ts:66-69 | an amount shown with two decimals and sent back is read as the same amount |
| CashCollection.CollectionDesk.RecordCashCollection | backend/src/modules/bookings/cash-collection.ts:28-112 | the transaction does exactly what the attempt function says |
| CashCollection.ParsedExactly | backend/src/modules/bookings/cash-collection.ts:67-70 | an amount is read exactly from digits with an optional point and one or two digits, and as what they stand for |
| CashCollection.AnsweredExactly | backend/src/modules/bookings/cash-collection.ts:39-75 | each other answer, already collected or one of four refusals, exactly when it is given |
| CashCollection.ReceiptExactly | backend/src/modules/bookings/cash-collection.ts:86-101 | the one row that is left: the whole total, paid now, marked as the owner's, with nothing due |
| CashCollection.PaidAddsUp | backend/src/modules/bookings/cash-collection.ts:53-55 | what is paid is the sum over the paid rows, however the list is cut |
| CashCollection.LatestExactly | backend/src/modules/bookings/cash-collection.ts:10-21 | the date shown is that of a paid row, and no paid row has a later one |
| Base32.EncodeBase32 | backend/src/modules/auth/totp.util.ts:64-78 | although the register overflows, the symbols carry exactly the input's bits in fives, zero-padded, ceil(8n/5) of them |
| Base32.DecodeBase32 | backend/src/modules/auth/totp.util.ts:80-95 | a text is accepted exactly when its upper case without padding is made of letters of the alphabet; the bytes carry exactly its whole bytes of bits |
| Base32.IndexOfLetter | backend/src/modules/auth/totp.util.ts:85-86 | a character has a position exactly when it is in the alphabet, and it is the letter at that position |
| Base32.EncodingUnique | backend/src/modules/auth/totp.util.ts:64-78 | the bits of an input determine its encoding |
| Base32.DecodingUndoesEncoding | backend/src/modules/auth/totp.util.ts:64-95 | decoding the symbols of any byte sequence of any length gives it back |
| Base32.PaddedSpelling | backend/src/modules/auth/totp.util.ts:84 | an encoding in either case, letter by letter, and followed by any number of padding signs is read like the encoding |
| Base32.RoundTrip | backend/src/modules/auth/totp.util.ts:64-95 | decoding any spelling (case, padding) of an encoding returns the encoded bytes |
| Base32.EncodingUndoesDecoding | backend/src/modules/auth/totp.util.ts:64-95 | encoding what was decoded gives the same symbols exactly for canonical ones: no symbol too many, no bit set after the last byte |
| Base32.KnownAnswer | backend/src/modules/auth/totp.util.ts:3 | the first known answer of RFC 4648, section 10 |
| CatalogCards.CoverByLodge | backend/src/modules/catalog/catalog.service.ts:224-230 | the map holds each lodge's first photo |
| CatalogCards.PricesByLodge | backend/src/modules/catalog/catalog.service.ts:232-240 | the map holds each lodge's cheapest rates, the earlier row winning a tie |
| CatalogCards.Cheapest | backend/src/modules/catalog/catalog.service.ts:232-240 | no room type of the lodge is cheaper, and there is a price exactly when there is a room type |
| CatalogCards.First | backend/src/modules/catalog/catalog.service.ts:224-230 | the photo found is the lodge's and none of the lodge's comes before it |
| CatalogCards.ReviewByLodge | backend/src/modules/catalog/catalog.service.ts:242-250 | the map holds each lodge's last review row |
| CatalogCards.Assemble | backend/src/modules/catalog/catalog.service.ts:224-278 | the loops produce one card a lodge from its first photo, cheapest rates and reviews |
| CatalogCards.QueriedCards | backend/src/modules/catalog/catalog.service.ts:206-222 | asking only about the listed lodges gives the same cards as all rows would |
| CatalogCards.CoverShown | backend/src/modules/catalog/catalog.service.ts:224-230 | the cover is the thumbnail of the lodge's first photo, or else its picture; no photo, no cover |
| CatalogCards.PricesShown | backend/src/modules/catalog/catalog.service.ts:232-240 | both prices are those of the lodge's cheapest room type, the earliest if several are |
| CatalogCards.ReviewsShown | backend/src/modules/catalog/catalog.service.ts:242-250 | the rating is the average to the nearest tenth, halves up, with the row's count |
| CatalogCards.AmenitiesShown | backend/src/modules/catalog/catalog.service.ts:256-267 | the slugs are those of the usable amenities in their order and lower case; the first four are shown |
| CatalogCache.CachedCardsAreFresh | backend/src/modules/catalog/catalog.service.ts:182-193 | for every interleaving of builds, invalidations and data changes, cached cards come from a build requested, and four queries answered, after the latest invalidation |
| CatalogCache.HitEqualsFreshBuild | backend/src/modules/catalog/catalog.service.ts:188-191 | with the data unchanged since then, a hit equals a fresh build, and its build finished less than the cache time ago |
| CatalogCache.BuildsAreTraced | backend/src/modules/catalog/catalog.service.ts:193-222 | a build of the current generation was requested since the latest invalidation and its results are what the data was when each query was answered |
| CatalogCache.CatalogService.Invalidate | backend/src/modules/catalog/catalog.service.ts:182-186 | the generation moves on and nothing is a hit any more |
| CatalogCache.CatalogService.Begin | backend/src/modules/catalog/catalog.service.ts:188-193 | a hit exactly when the entry has not expired; otherwise the generation the build starts in |
| CatalogCache.CatalogService.End | backend/src/modules/catalog/catalog.service.ts:224-283 | the cards of the query results, kept exactly when the generation has not moved |
| CatalogCache.ServedExactly | backend/src/modules/catalog/catalog.service.ts:188-191 | what a build of the current generation returned is what requests get for fifteen seconds from its end and no longer, until an invalidation or another such build |
| CatalogCache.StaleBuildIsDropped | backend/src/modules/catalog/catalog.service.ts:280-283 | a build not requested since the latest invalidation leaves the cache as it is |
| CatalogCache.RequestsAndDrops | backend/src/modules/catalog/catalog.service.ts:182-193 | a request is answered from the cache or begins a build; an invalidation leaves nothing to answer from |
| CatalogPaging.SortIsStable | backend/src/modules/catalog/catalog.service.ts:285-302 | the sort orders by the chosen key and leaves ties in their order |
| CatalogPaging.StableSortIsUnique | backend/src/modules/catalog/catalog.service.ts:287-301 | a list is a stable sort of the cards exactly when it is this one |
| CatalogPaging.StableSortPermutes | backend/src/modules/catalog/catalog.service.ts:287-301 | a stable sort drops, adds and repeats nothing |
| CatalogPaging.FilteredMembers | backend/src/modules/catalog/catalog.service.ts:64-85 | the filter keeps each matching card as often as it occurs and no other |
| CatalogPaging.PagesMakeTheList | backend/src/modules/catalog/catalog.service.ts:87-98 | pages 1 to totalPages put together are exactly the stable sort of the matching cards |
| CatalogPaging.PageSizes | backend/src/modules/catalog/catalog.service.ts:90-98 | a page has cards exactly up to totalPages; every page before the last is full |
| CatalogPaging.EachCardOnOnePage | backend/src/modules/catalog/catalog.service.ts:90-98 | with distinct ids each matching card is on exactly one page |
| CatalogPaging.ShownInOrder | backend/src/modules/catalog/catalog.service.ts:285-302 | of two cards on any pages the one shown earlier is not dearer, not rated lower, not later by name, or not farther and then not later by name, as asked; what is missing counts as farthest, dearest or rated nothing |
| CatalogPaging.ShownExactly | backend/src/modules/catalog/catalog.service.ts:64-85 | the pages show a card exactly when none of six reasons, written out from the query in rupees, leaves it out, as often as the catalogue has it |
| CatalogPaging.Defaults | backend/src/modules/catalog/catalog.service.ts:87-95 | without page, size or order: the first page of twelve, nearest first |
| ClientBookings.ReceiveIsPerBooking | apps/pilgrim-app/src/pilgrim-ui/booking-state.ts:34-50 | on the list a message does to each booking what it does to that booking alone; a snapshot drops what it does not list |
| ClientBookings.AlwaysGenuine | apps/pilgrim-app/src/pilgrim-ui/booking-state.ts:5-32 | whatever the order and repetition of messages, status and QR code are those of the server's version with the same timestamp |
| ClientBookings.NeverOlder | apps/pilgrim-app/src/pilgrim-ui/backend-sync.ts:193-206 | a booking every snapshot lists is never lost and never goes back in version |
| ClientBookings.Converges | apps/pilgrim-app/src/pilgrim-ui/backend-sync.ts:193-217 | once the newest version was delivered, status, QR code and dates equal the server's for good; payment, amount and details do exactly when the version also came in full or they were right before its record came |
| ClientBookings.DevicesAgree | apps/pilgrim-app/src/pilgrim-ui/booking-state.ts:34-50 | two devices that received the newest version agree on status, QR code and dates, however their messages were ordered, and entirely if each received it in full |
| ClientBookings.RecordLeavesPaymentStale | apps/pilgrim-app/src/pilgrim-ui/backend-sync.ts:207-216 | two runs from one history, one ending with a record and one with a list, that show the same booking payable at the lodge and paid |
| ClientBookings.EventAgreesWithRecord | apps/pilgrim-app/src/pilgrim-ui/booking-state.ts:19-31 | a newer event shows what the record of its version would exactly when its status is one the app handles |
| ClientBookings.CreationMayGoBack | apps/pilgrim-app/src/pilgrim-ui/PilgrimAppProvider.tsx:529 | the reply to a creation puts the booking back exactly when it is older |
| ClientBookings.CreationReplyOvertaken | apps/pilgrim-app/src/pilgrim-ui/PilgrimAppProvider.tsx:529 | a run in which a list overtakes the reply to the creation, which then puts the booking back |
| ClientBookings.SeenIsServer | apps/pilgrim-app/src/pilgrim-ui/backend-sync.ts:274-280 | in every run what the list shows is a version of the server, and each of the eleven statuses shows as the one of the five written out |
| ClientBookings.FullDeliveryShown | apps/pilgrim-app/src/pilgrim-ui/backend-sync.ts:157-168 | after the newest version came in full the screen shows its status, payment, dates, amount and details, whatever arrives later |
| ClientBookings.EventExactly | apps/pilgrim-app/src/pilgrim-ui/booking-state.ts:5-32 | an event moves the booking it names exactly when its time is newer and its status is one of eight; payment and dates stay, no booking is added or lost |
| ClientBookings.RecordExactly | apps/pilgrim-app/src/pilgrim-ui/backend-sync.ts:193-217 | a record moves the booking it names exactly when that is not newer, and leaves payment, amount and details |
| ClientBookings.SnapshotExactly | apps/pilgrim-app/src/pilgrim-ui/booking-state.ts:34-50 | the list has exactly the snapshot's bookings; one that was newer on the device stays, every other is as the snapshot has it |
| ClientBookings.CreationExactly | apps/pilgrim-app/src/pilgrim-ui/PilgrimAppProvider.tsx:529 | the reply puts the booking on the list as the server has it and leaves the others |
| AuthSessions.ExpiryWithinDeadline | backend/src/modules/auth/auth.service.ts:742-791 | in every run, however often refreshed, a token expires by the deadline its login fixed plus the signing delay, and the deadline never moves |
| AuthSessions.ExpirySlips | backend/src/modules/auth/auth.service.ts:779-791 | for every token, the exact condition under which its own expiry is past its session's end, with the two cases of what limits its lifetime |
| AuthSessions.ExpirySlipsByOneMillisecond | backend/src/modules/auth/auth.service.ts:779-791 | an input for which one millisecond of signing delay is enough |
| AuthSessions.ShortTokenSlips | backend/src/modules/auth/auth.service.ts:779-791 | an input for which a token limited by its own lifetime slips |
| AuthSessions.NothingAcceptedPastDeadline | backend/src/modules/auth/strategies/jwt-auth.strategy.ts:22-34 | in every run no request is accepted at or past the deadline its login fixed |
| AuthSessions.RevokedForGood | backend/src/modules/auth/auth.service.ts:627-643 | after revocation no refresh looked up succeeds and no access token of the session is accepted, not even one a refresh under way still issues |
| AuthSessions.ResetEndsSessions | backend/src/modules/auth/auth.service.ts:570-579 | after a password reset nothing issued before it works, whatever happens next |
| AuthSessions.LogoutEndsSession | backend/src/modules/auth/auth.service.ts:654-668 | the first of the two writes of a logout already ends the session |
| AuthSessions.AuthService.IssueAccessToken | backend/src/modules/auth/auth.service.ts:774-792 | refused exactly when no whole second is left; otherwise the expiry is within the deadline plus the delay |
| AuthSessions.AuthService.IssueTokens | backend/src/modules/auth/auth.service.ts:742-773 | a new row that expires no later than its session, and the access token for it |
| AuthSessions.AuthService.LookupRefresh | backend/src/modules/auth/auth.service.ts:627-643 | succeeds exactly when token, session and user are all live for that device |
| AuthSessions.AuthService.Logout | backend/src/modules/auth/auth.service.ts:654-674 | both writes for the caller's token on that device, after which no refresh succeeds; otherwise nothing |
| AuthSessions.AuthService.EndSessions | backend/src/modules/auth/auth.service.ts:617-624 | no token of the user can be refreshed; no other user's token changes |
| AuthSessions.LoginWorksExactly | backend/src/modules/auth/auth.service.ts:742-772 | over runs: from its last write until something ends it, a login can be refreshed from its device and no other, and its access tokens are accepted until their expiry, exactly until the lesser of token lifetime and session age has passed since it began |
| AuthSessions.UnfinishedLogin | backend/src/modules/auth/auth.service.ts:742-772 | before its last write nothing of a login works |
| AuthSessions.IssuedExactly | backend/src/modules/auth/auth.service.ts:774-792 | over runs: each step issues at most one token, for the user of its refresh token, whose lifetime is the lesser of the configured one and the whole seconds left, and none exactly when that is no second |
| AuthSessions.LookupExactly | backend/src/modules/auth/auth.service.ts:627-653 | a look-up starts a refresh exactly when the token is good, for the user and the end that its login fixed |
| AuthSessions.RefreshWasLookedUp | backend/src/modules/auth/auth.service.ts:627-653 | nothing is refreshed without a look-up that found the token good for the device that asked |
| AuthSessions.SuspensionBars | backend/src/modules/auth/strategies/jwt-auth.strategy.ts:22-34 | after a suspension nothing of the user works, a later login included, until it is lifted |
| OtpLimit.AtMostInAnyWindow | backend/src/modules/auth/auth.service.ts:731-741 | every interval of the window's length, wherever it starts, holds at most the permitted number of requests of a key |
| OtpLimit.RefusedWhenFull | backend/src/modules/auth/auth.service.ts:731-741 | a request is refused exactly when the window ending now holds the permitted number |
| OtpLimit.Limiter.RequestOtp | backend/src/modules/auth/auth.service.ts:123-140 | count and insert do exactly what the attempt function says |
| OtpLimit.AcceptedIsWritten | backend/src/modules/auth/auth.service.ts:731-741 | a request is written exactly when fewer than the permitted number of the key's requests lie in the window, counted as a set of places in the log |
| OtpLimit.KeysAreIndependent | backend/src/modules/auth/auth.service.ts:731-741 | over all attempts a key is served or refused as if it were the only one |
| ApiClient.SingleFlight | packages/shared/src/api-client.ts:135-143 | over all interleavings at most one refresh is outstanding, and whichever settles is the one in the slot |
| ApiClient.SentAtMostTwice | packages/shared/src/api-client.ts:76-114 | every request is sent at most twice, awaits at most one refresh, and is sent again only after one |
| ApiClient.NobodyIsStranded | packages/shared/src/api-client.ts:135-143 | every waiting request waits for the refresh under way or for one that has settled |
| ApiClient.ReportedOncePerReset | packages/shared/src/api-client.ts:121-133 | between any two reports of an expiry the flag was reset |
| ApiClient.FlagIsRight | packages/shared/src/api-client.ts:121-133 | the flag is up exactly when the expiry was reported since the last reset |
| ApiClient.ReportedUnlessRejected | packages/shared/src/api-client.ts:100-112 | a refused request that waited leaves the expiry reported exactly when its refresh gave no token or it was reported before |
| ApiClient.RejectedRefreshIsSilent | packages/shared/src/api-client.ts:100-112 | a run in which the refresh rejects and nobody is told |
| ApiClient.ApiClient.StartOrJoinRefresh | packages/shared/src/api-client.ts:135-143 | joins the refresh under way or starts one |
| ApiClient.ApiClient.NotifySessionExpired | packages/shared/src/api-client.ts:121-125 | reports exactly when the flag was down, and raises it |
| ApiClient.ApiClient.ResetSessionExpiredFlag | packages/shared/src/api-client.ts:131-133 | the flag is down and nothing is reported |
| ApiClient.ApiClient.Replied | packages/shared/src/api-client.ts:94-112 | what a reply leads to: the next phase, the fields and the reports are those of the step |
| ApiClient.ApiClient.Resumed | packages/shared/src/api-client.ts:104-112 | what a settled refresh leads to: the next phase, the fields and the reports are those of the step |
| ApiClient.SentExactly | packages/shared/src/api-client.ts:94-107 | over every trace a request is sent once, and once more exactly when it resumed after a refresh that gave a token |
| ApiClient.TokenSendsAgain | packages/shared/src/api-client.ts:104-107 | that resume sends the request again, lowers the flag and leaves it on its second and last try |
| ApiClient.DoneAfterOneSend | packages/shared/src/api-client.ts:94-112 | a request ends after one send only if its reply was not a refreshable 401, no refresh is configured, or its refresh gave no token or rejected |
| ApiClient.RefusedThenSentAgain | packages/shared/src/api-client.ts:94-107 | a run in which a refused request is sent again with the new token |
| ApiClient.PathsThatRefresh | packages/shared/src/api-client.ts:149-153 | a path never refreshes exactly when it ends in one of six named endpoints; logout is not one of them |
| LayoutValidation.NoneIsSecure | backend/src/modules/app-config/app-config.validation.ts:16-32 | the recursive check finds nothing exactly when every url-named key on every path is null, empty or https |
| LayoutValidation.AssertSecureUrls | backend/src/modules/app-config/app-config.validation.ts:16-32 | the loops report the first insecure address in visiting order, or none exactly when all are secure |
| LayoutValidation.IdsAreHyphenatedWords | backend/src/modules/app-config/app-config.validation.ts:8 | the id pattern accepts exactly lower-case words joined by single hyphens |
| LayoutValidation.SectionAccepted | backend/src/modules/app-config/app-config.validation.ts:34-63 | a section is accepted exactly when the value carries it, it is lawful and its id is new |
| LayoutValidation.SectionsAccepted | backend/src/modules/app-config/app-config.validation.ts:90-91 | a list is accepted exactly when each value carries its section, each is lawful and ids are distinct |
| LayoutValidation.AcceptedExactly | backend/src/modules/app-config/app-config.validation.ts:65-104 | a value is accepted as a layout exactly when it carries that layout and the layout is lawful |
| LayoutValidation.ValidatingAgainIsNoChange | backend/src/modules/app-config/app-config.validation.ts:93-103 | validating an accepted layout again returns it unchanged |
| LayoutValidation.ValidateSection | backend/src/modules/app-config/app-config.validation.ts:34-63 | the tests in their order give the specified section or the specified error |
| LayoutValidation.ValidatePilgrimLayout | backend/src/modules/app-config/app-config.validation.ts:65-104 | the specified layout or error; an accepted layout is lawful and is what the value carries |
| LayoutValidation.BytesOfText | backend/src/modules/app-config/app-config.validation.ts:57 | the size compared with the limit is that of the JSON text, with its escapes, in UTF-8 |
| LayoutValidation.FirstReported | backend/src/modules/app-config/app-config.validation.ts:16-32 | what is reported names an insecure address, the first there is from the top and from the left |
| LayoutValidation.AcceptedInWords | backend/src/modules/app-config/app-config.validation.ts:5-104 | acceptance with every limit written out: 1 to 30 sections, ids of at most 40 characters, seven types, 8192 bytes of props, no insecure address, six-digit colours |
| LayoutValidation.RefusedSection | backend/src/modules/app-config/app-config.validation.ts:34-63 | what each complaint about a section means |

## Left out

- `updateBookingStatus` and the support console's `updateBooking` are not steps of the runs: they write
  status or dates without the inventory lock or a capacity check, so nothing is claimed for runs with them.
- BookingRuns.RunIsSafe: the order write after the hold ran out and the check-in over a released booking are
  not steps, since they break the invariant; exactly when, is stated in `BookingRaces.dfy`.
- BookingRuns.NoTypeIsOverbooked: the stated number of rooms of a type is not tied to its room rows in the
  code, so the lemma asks that it is not below the number of rows, deleted ones included.
- BookingServices.Database.CreateBooking: all clock readings of one transaction are one instant, and the
  price calculation enters as a parameter that is None when it rejects.
- OtpLimit.Limiter.RequestOtp: the count and the insert are one step; the code does not lock between them.
- CatalogPaging.SortIsStable: the runtime's sort is represented by an insertion sort, which
  `StableSortIsUnique` shows to be no loss; a name's place in the locale's order is a field of the card.
- AuthSessions.ResetEndsSessions: says nothing of a login whose password was checked before the reset and
  whose row is written after it; the password check itself is not part of this model.
- LayoutValidation.AcceptedExactly: a JSON number is its text, so the spelling of numbers is given.
- CashCollection.CollectedAtMostOnce: other code may change the booking and its rows in any way except
  removing rows or making a settled row pending again; the audit row and the collector's name are left out.
- That accepting or paying finds a room for a stay of several nights: capacity on every night does not give
  one room for the whole window, and the code refuses in that case; the promise is proved for one night.
- Soft-deleted bookings, deleted users, guest rows, room status history, audit rows, notifications, payment
  intents, refunds and settlements: no property stated here depends on them.
- A hold's secret code stands for its identifier; a lodge's two verification fields are one flag.
- The database's own constraints are modelled where a step could meet them (a positive collection amount,
  unique orders, payments, source holds and attempt keys); isolation internals are not part of this model.
- ClientBookings.Converges: names and the cover photo joined from other rows are not part of a booking here.
- Parsing a date string beyond its day number, non-ASCII case mapping in the catalogue's search, and the
  decimal library's signed zero.
- The query's comma lists and its search text arrive split and trimmed; duration strings arrive parsed.
- QR scanning, checkout through the guest register, the legacy booking-first payment, the admin sign-in
  throttle and one-time-password checking.
- The admin timeline, BI sums, formatting, permissions, screens, controllers, sockets and storage: they
  would only add easy members, or nothing to prove.
