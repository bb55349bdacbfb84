# Reservation and settlement engine: verified model

A Dafny model of the backend of a car rental marketplace: how cars are reserved, what is booked in
the ledger, how lifecycle events reach the outside, how the fleet and its data are administered.
`dafny verify dfyconfig.toml` checks everything.

Money is measured in paise: an exact amount is a `real`, an amount rounded to two decimals is an
`int` (in `ReturnSettlement`, charges are whole rupees as in the source). Times are integers in
milliseconds. `Number.prototype.toFixed` (section 21.1.3.3 of ECMA-262) and decimal.js rounding are
half away from zero on exact values, `Math.round` is half up. AES-256-GCM (sections 7.1 and 7.2 of
NIST SP 800-38D) is a pair of function values of which only `Sound` is used.

## Parts

- **Reservations** (`Intervals`, `Bookings`, `Reservations`, `ReservationProgress`,
  `ReservationWitnesses`, `Calendar`).
  `Reservations` interleaves the transactions of any number of clients step by step: row lock,
  check, local write, commit. Only the Postgres row lock excludes; the Redis lock plays no part.
  `ReservationProgress` says when a transaction succeeds, without its queries.
  `Calendar` is the state of holds, blocks and bookings with one step per operation, because each of
  them holds the lock of its car; `Valid()` is the safety statement. Every method keeps it but the
  damaged return, the maintenance block and the extension, whose contracts say exactly when they do.
- **Money** (`Money`, `Options`, `SortedTiers`, `FareCalculator`, `CancellationPolicy`, `Ledger`, `Settlement`,
  `StoredJournals`, `BookingFares`, `StoredWitnesses`). From the price of a trip through the columns of a booking to
  its journals, and from a cancellation to the books it leaves, in the exact amounts the ledger checks
  and in the rounded rows it stores. `PriceToSettledIff` is the theorem across all of them.
- **Lifecycle** (`Lifecycle`, `LifecycleRuns`, `LifecycleOrigins`). The transaction of `executeTransition`, and every
  interleaving of attempts that validated at one moment and commit at another, with orders and payment
  verifications in between. `LifecycleOrigins` traces every event, refund and deposit of a run back to
  what an attempt had found.
- **Outbox** (`OutboxRows`, `OutboxProtocol`, `OutboxWitnesses`, `OutboxWorker`, `OutboxSchedule`). Every interleaving
  of workers, crashes, recoveries and the unclaimed dispatch after a commit; one worker's batch
  statement by statement; and how the two agree.
- **Fleet** (`FleetRules`, `FleetVehicle`, `FleetInterleavings`). The vehicle status machine with the
  operations that bypass its transition matrix: as rules, as the field updates of one car row, and
  statement by statement with any number of calls under way.
- **Bank data** (`BankCodec`, `BankMigration`). The stored form of bank details, and the backfill and
  rotation scripts with other clients writing between any two of their database
  statements.
- **Return** (`ReturnSettlement`). Charges of a return and the split of the deposit.

## Where the code does not keep a promise

Each of these is proved with its exact condition.

- A trip extension stores the end date it was quoted for. Confirmed when the booking ends earlier
  than that, it leaves a gap nobody checks (`ConfirmationExact`); its query also leaves out
  RETURN_PENDING (`ConfirmationExactForFive`).
- A discount larger than the platform's share plus the protection fee unbalances the baseline
  journal (`ComposedBaselineBalancedIff`). A booking with a payment captured but no baseline can be
  refunded exactly if something was paid, its fare covers the vendor and tax shares and the vendor share is not zero
  (`RefundableExactly`); otherwise the refused baseline rolls every cancellation with a refund back.
- The ledger checks the balance of exact amounts and stores rounded ones. A stored reversal can be
  one paisa off, never more, and `StoredReversalBalancedIff` says exactly when. Account balances sum
  stored rows, so clearing is off by exactly what the stored journals miss together (`TrialBalance`),
  at most a paisa per refund (`StoredBooksWithin`), and one cancelled trip is enough
  (`StoredTrialBalanceMayBeOff`).
- A refund does not ask whether anything was captured, so cancelling an unpaid pending booking leaves a
  refund row over the whole amount (`UnpaidCancellationRefunds`), and a payment verification does not ask
  whether the booking still stands: made after a cancellation it holds the released deposit
  (`DepositExactly`, `LatePaymentHoldsDeposit`).
- An extension whose base rounds to zero paise leaves no journal: the ledger refuses the zero line
  and the caller swallows the error (`ExtensionJournalExact`).
- Only claims are compare-and-set in the outbox, so PUBLISHED is final exactly when nobody who has
  read or claimed the event is still on its way (`PublishedIsFinalExactly`). The unclaimed dispatch,
  a recovery that reads before it writes, and a worker whose status re-read fails after a recorded
  failure can each un-publish an event (`DirectDispatchUnpublishes`, `SplitRecoveryUnpublishes`,
  `LateRecountUnpublishes`), and the same kind of write can lower the retry count
  (`CountFallsExactly`), even among workers that never share a claim (`StaleListLowersCount`).
- The candidate query stops at five retries, so a larger `maxRetries` can strand an event
  (`RetryAllowanceExact`).
- RETIRED is documented as terminal, but a rejection and a rental completion leave it
  (`FleetRules.RetiredLeftExactly`), and so does any other call, a vendor's or an administrator's, that
  was past its checks before the retirement (`FleetInterleavings.RetiredStaysExactly`).
- The availability flag follows the status except when a maintenance is closed on a car that is back
  in service already (`FlagThroughoutExactly`).
- The seven-day safety hold, the maintenance block and the confirmed extension look at less than what
  reserves the car (`DamagedCompletionExact`, `MaintenanceBlockExact`, `ExtendedExact`).
- The backfill writes under the active version but looks for v1: under any other version it
  reports every row it has just encrypted as still plain, and it wraps rows that other versions
  already encrypted (`RemainingAfter`, `MigratedKeepsViewIff`).

## Assumptions

- A query after `SELECT … FOR UPDATE` sees all committed rows; a held Redis car lock excludes other
  operations on the car (`Calendar` only).
- A step of `OutboxProtocol` is one database access or one downstream publish, and is atomic.
  A database write that fails has changed nothing. Each event has at most one direct dispatch.
  `WorkersAreExclusive` further assumes what `WorkersOnly` spells out; its condition on the status
  re-read excludes the run of `LateRecountUnpublishes`. `WorkersCountFailures` also assumes
  `CountCurrent`, which excludes the run of `StaleListLowersCount`.
- `FleetRules` and `FleetVehicle` take calls one after the other. `FleetInterleavings` does not: it
  relies on no lock, and a call reads at one moment and writes at another.
- One outbox batch, hold operation or booking runs at one clock reading. Candidate and stale events
  come back in creation order; the source leaves the order of stale events open.
- Strings are sequences of Unicode scalar values, so UTF-8 coding is a bijection; unpaired
  surrogates do not occur.
- Prices, fees and rates fed to the fare calculator are not negative, as its callers guarantee.

## Model

| member | source | states |
|---|---|---|
| Reservations.NoDoubleBooking | car_rental_backend/src/bookings/bookings.service.ts:485-650 | in every interleaving of row-locked creations and lifecycle moves of any number of clients, two bookings of a car in the five reserving statuses never overlap; the Redis lock is not needed; that the check refuses nothing else is ReservationProgress.CreationExact |
| Reservations.ExtensionsKeepFourDisjoint | car_rental_backend/src/bookings/trip-extensions.service.ts:316-359 | with extensions in the runs, PENDING, CONFIRMED, HANDOVER_READY and ONGOING stay pairwise disjoint as long as every extension is confirmed with a recorded end not past the booking's end |
| Reservations.StepKeepsInv | car_rental_backend/src/bookings/booking-lifecycle.service.ts:1020-1046 | the inductive invariant: a car row has one holder, a passed check stays true until its commit, and no lifecycle move enters the tracked statuses |
| Reservations.ConfirmationExact | car_rental_backend/src/bookings/trip-extensions.service.ts:320-359 | a confirmation keeps the four statuses disjoint if and only if no such booking lies between the booking's present end and the recorded end |
| Reservations.ConfirmationExactForFive | car_rental_backend/src/bookings/trip-extensions.service.ts:320-344 | a timely confirmation keeps all five statuses disjoint if and only if no RETURN_PENDING booking, which the query leaves out, lies in the re-checked interval |
| Reservations.TimelyIsSafe | car_rental_backend/src/bookings/trip-extensions.service.ts:320-344 | old interval and re-checked interval together cover what a timely extension claims |
| ReservationWitnesses.StaleEndDoubleBooks | car_rental_backend/src/bookings/trip-extensions.service.ts:108-178 | a reachable state with overlapping bookings among the four statuses, made by two extensions confirmed out of order |
| ReservationWitnesses.ReturnPendingDoubleBooks | car_rental_backend/src/bookings/trip-extensions.service.ts:321-338 | a reachable state in which a timely extension overlaps a RETURN_PENDING booking |
| ReservationProgress.CreationExact | car_rental_backend/src/bookings/bookings.service.ts:485-650 | an uninterrupted creation adds its booking if and only if no PENDING, CONFIRMED, HANDOVER_READY, ONGOING or RETURN_PENDING booking of the car shares an instant with it; a refused one changes nothing |
| ReservationProgress.EndedBookingFreesItsTime | car_rental_backend/src/bookings/bookings.service.ts:489-511 | a reserving booking keeps every creation out of its time, and once CANCELLED, EXPIRED or COMPLETED the same creation succeeds |
| ReservationProgress.ConfirmationRuns | car_rental_backend/src/bookings/trip-extensions.service.ts:316-359 | an uninterrupted confirmation moves the end if and only if no other booking of the car in the four queried statuses shares an instant with the time between the two recorded ends |
| ReservationProgress.OrderExact | car_rental_backend/src/bookings/trip-extensions.service.ts:108-178 | an extension is ordered exactly for an ONGOING booking and a later end with nothing of the four statuses in between |
| Bookings.EnteredFrom | car_rental_backend/src/bookings/booking-lifecycle.service.ts:1020-1046 | the transition matrix read by target: where each status may be entered from |
| Intervals.OverlapIsSharedInstant | car_rental_backend/src/cars/vehicle-availability.service.ts:44-46 | the overlap test on proper half-open intervals is true exactly when they share an instant |
| Calendar.SearchAndCheckAgree | car_rental_backend/src/cars/cars.service.ts:266-395 | search and availability decision differ in exactly one thing: the customer's own live holds |
| Calendar.ClearIsFree | car_rental_backend/src/cars/vehicle-availability.service.ts:188-289 | the four deciders' queries are Free: no booking of five statuses, no block and no live hold of somebody else that neither ends before nor starts after, and no blocked date from start to end, both included |
| Calendar.PartsAreFree | car_rental_backend/src/cars/vehicle-availability.service.ts:188-289 | a longer interval never clears a clash |
| Calendar.Fleet.CheckAvailability | car_rental_backend/src/cars/vehicle-availability.service.ts:188-289 | the conflict list names every clashing booking, block and hold, and the blocked dates exactly when one lies in the closed interval; it is empty exactly when the car is free in the sense of Free, which uses none of the queries |
| Calendar.Fleet.Search | car_rental_backend/src/cars/cars.service.ts:266-395 | the excluded-id set plus the blockedDates filter keeps exactly the eligible cars that are free for a customer without holds |
| Calendar.Fleet.CreateBooking | car_rental_backend/src/bookings/bookings.service.ts:485-664 | a booking is inserted exactly for a proper interval not in the past on an eligible car that is Free for this customer; exactly the customer's ACTIVE holds on it become CONVERTED; the calendar stays safe |
| Calendar.Fleet.CreateHold | car_rental_backend/src/cars/vehicle-availability.service.ts:309-379 | idempotent replay, or a hold exactly when the key is new and the eligible car is Free for the customer; holds of different customers stay disjoint |
| Calendar.Fleet.ReleaseHold | car_rental_backend/src/cars/vehicle-availability.service.ts:384-405 | a hold of this customer becomes RELEASED, nothing else changes, the calendar stays safe |
| Calendar.Fleet.ExpireHold | car_rental_backend/src/cars/vehicle-availability.service.ts:410-421 | only an ACTIVE hold expires, nothing else changes, the calendar stays safe |
| Calendar.Fleet.BlockVehicle | car_rental_backend/src/cars/vehicle-availability.service.ts:444-541 | a block is added exactly when role and ownership allow it and no reserving booking meets it |
| Calendar.Fleet.UnblockVehicle | car_rental_backend/src/cars/vehicle-availability.service.ts:546-570 | removes the block of that id and only it, exactly when there is one and a named vendor owns it |
| Calendar.Fleet.MoveBooking | car_rental_backend/src/bookings/booking-lifecycle.service.ts:1020-1046 | an allowed move changes one status and keeps the calendar safe |
| Calendar.AddBookingSafe | car_rental_backend/src/bookings/bookings.service.ts:491-664 | inserting a clear booking and converting the customer's holds keeps bookings, holds and blocks apart |
| Calendar.AddHoldSafe | car_rental_backend/src/cars/vehicle-availability.service.ts:309-379 | adding a hold that was clear for its customer keeps the calendar safe |
| Calendar.LaterStillSafe | car_rental_backend/src/cars/vehicle-availability.service.ts:188-289 | time passing never makes a safe calendar unsafe |
| Calendar.AddBlockExact | car_rental_backend/src/cars/vehicle-availability.service.ts:444-541 | adding a block is safe if and only if no reserving booking meets it |
| Calendar.DamagedCompletionExact | car_rental_backend/src/bookings/booking-lifecycle.service.ts:654-668 | the seven-day safety hold of a damaged return, placed without looking at bookings, is safe if and only if no other reserving booking meets it |
| Calendar.MaintenanceBlockExact | car_rental_backend/src/cars/vendor-fleet.service.ts:395-437 | the maintenance check looks at three statuses; when it passes, the block is safe if and only if no PENDING or RETURN_PENDING booking meets it |
| Calendar.ExtendedExact | car_rental_backend/src/bookings/trip-extensions.service.ts:320-359 | moving the end of a reserving booking is safe if and only if no other reserving booking and no live hold meets what it adds and no block begins in it |
| Calendar.Fleet.ConfirmExtension | car_rental_backend/src/bookings/trip-extensions.service.ts:320-359 | the confirmation passes exactly when the four-status query finds nothing, and leaves the calendar safe if and only if the booking reserves nothing or there is room: blocks, holds and RETURN_PENDING are not looked at |
| Calendar.Fleet.CompleteWithDamage | car_rental_backend/src/bookings/booking-lifecycle.service.ts:654-668 | the completion places its safety hold whatever is booked, and leaves the calendar safe if and only if no other reserving booking meets it |
| Calendar.Fleet.BlockForMaintenance | car_rental_backend/src/cars/vendor-fleet.service.ts:395-437 | for every return date, past ones included: the check with its override, the block placed, and when that is safe |
| Calendar.DamagedReturnBeforeNextTrip | car_rental_backend/src/bookings/booking-lifecycle.service.ts:654-668 | operations that lead to a safety hold over the next booking |
| Calendar.MaintenanceOverPendingBooking | car_rental_backend/src/cars/vendor-fleet.service.ts:395-437 | operations that lead to a maintenance block over a PENDING booking |
| Calendar.ExtensionIntoBlock | car_rental_backend/src/bookings/trip-extensions.service.ts:320-359 | operations that lead to a confirmed extension into a block |
| SortedTiers.SelectIsTopMatch | car_rental_backend/src/bookings/cancellation-policy.service.ts:167-184 | sort-then-first-match picks a matching tier with the largest key, for lists in any order |
| SortedTiers.SelectByLoop | car_rental_backend/src/bookings/cancellation-policy.service.ts:173-184 | the loop with break over the sorted copy computes that selection |
| SortedTiers.SelectIsFirstOfTop | car_rental_backend/src/bookings/cancellation-policy.service.ts:167-184 | of several matching tiers with the largest key the one listed first is picked |
| FareCalculator.DurationTierIsLongestReached | car_rental_backend/src/common/fare-calculator.service.ts:27-39 | the duration discount applied is that of the reached tier that asks for the most days |
| FareCalculator.DiscountedBaseNonNegative | car_rental_backend/src/common/fare-calculator.service.ts:24-47 | discounts never make the base negative or raise it |
| FareCalculator.TotalCoversVendorAndGst | car_rental_backend/src/common/fare-calculator.service.ts:49-74 | total at least vendor net plus GST after independent rounding, for every tax rate up to 100 % |
| FareCalculator.CoverageExactTaxRate | car_rental_backend/src/common/fare-calculator.service.ts:49-74 | the total covers vendor net plus GST at all prices if and only if the tax rate is at most 100 % |
| FareCalculator.PartsWithinOnePaisa | car_rental_backend/src/common/fare-calculator.service.ts:49-74 | total minus base, fee and tax is off by at most one paisa |
| FareCalculator.FareMeans | car_rental_backend/src/common/fare-calculator.service.ts:24-74 | to the nearest paisa each: package plus kilometres, that less the duration discount for base and vendor, the commission on the base, the tax on the commission, and the sum |
| FareCalculator.WeekAndMonth | car_rental_backend/src/common/fare-calculator.service.ts:35-39 | weekly discount from seven days, monthly from thirty if there is one, never both |
| FareCalculator.TiersReplaceWeekAndMonth | car_rental_backend/src/common/fare-calculator.service.ts:27-34 | a list of tiers replaces them; nothing is taken off when no tier is reached |
| Ledger.Books.RecordJournal | car_rental_backend/src/finance/ledger-core.service.ts:33-176 | a journal enters the books exactly when its key is new, it has two lines, all positive, and the exact debits equal the credits; each refusal is told apart; the stored rows stay the rounded lines of the journals |
| Ledger.Books.GetAccountBalance | car_rental_backend/src/finance/ledger-core.service.ts:184-220 | the loop over the stored, rounded amounts returns debits minus credits for clearing and credits minus debits otherwise |
| Ledger.TrialBalance | car_rental_backend/src/finance/ledger-core.service.ts:33-176 | in the stored rows clearing exceeds what the liability and revenue accounts hold together by exactly what the rounded journals miss; it equals it if and only if these misses add up to zero |
| Ledger.ExactTrialBalance | car_rental_backend/src/finance/ledger-core.service.ts:33-176 | on the amounts before rounding, clearing always equals them in books built by recordJournal |
| Settlement.BuildBaseline | car_rental_backend/src/bookings/booking-lifecycle.service.ts:397-461 | the pushed lines are the baseline journal |
| Settlement.ComputeReversal | car_rental_backend/src/bookings/booking-lifecycle.service.ts:479-512 | the proportional split with the residual in the platform part |
| Settlement.BuildReversal | car_rental_backend/src/bookings/booking-lifecycle.service.ts:479-570 | the pushed lines are the reversal journal of that split |
| Settlement.BaselinePieces | car_rental_backend/src/bookings/booking-lifecycle.service.ts:397-461 | what the baseline posts to each account on each side |
| Settlement.ReversalMeans | car_rental_backend/src/bookings/booking-lifecycle.service.ts:479-512 | the live deposit goes back first; of the rest vendor and tax give back their fraction of the fare, the vendor never more than it had, and the platform the remainder |
| Settlement.BaselineBalancedIff | car_rental_backend/src/bookings/booking-lifecycle.service.ts:397-476 | the baseline balances if and only if total fare is at least vendor net plus GST |
| Settlement.BaselineAcceptableIff | car_rental_backend/src/bookings/booking-lifecycle.service.ts:397-476 | the ledger takes it if and only if, besides, vendor net is positive: its line is pushed unguarded |
| Settlement.ReversalAcceptableIff | car_rental_backend/src/bookings/booking-lifecycle.service.ts:478-584 | for every refund, below or beyond the fare: the reversal is accepted if and only if the vendor and tax shares leave the platform part non-negative, stated on the columns with the division cleared |
| Settlement.EveryRefundAcceptable | car_rental_backend/src/bookings/booking-lifecycle.service.ts:478-584 | with vendor net plus GST within the fare every positive refund balances |
| Settlement.CancellationLeavesOnlyTheFee | car_rental_backend/src/bookings/booking-lifecycle.service.ts:397-584 | on the amounts before rounding: after baseline and reversal escrow is zero, clearing is exactly the fee, and vendor, GST and platform keep the same fraction fee/fare of their baseline |
| StoredJournals.StoredReversalBalancedIff | car_rental_backend/src/bookings/booking-lifecycle.service.ts:478-584 | once each row is rounded to the two decimals of its column, an accepted reversal balances if and only if the remainders of the shares add up again: within the fare over vendor, platform and tax share, beyond it unless the tax share is exactly half a paisa off |
| StoredJournals.StoredReversalWithinOnePaisa | car_rental_backend/src/bookings/booking-lifecycle.service.ts:478-584 | and it is never more than one paisa off |
| StoredJournals.StoredBaselineExact | car_rental_backend/src/bookings/booking-lifecycle.service.ts:397-476 | baselines are stored exactly |
| StoredJournals.CancellationStoresOnlyTheFee | car_rental_backend/src/bookings/booking-lifecycle.service.ts:397-584 | in the stored rows of baseline and reversal escrow is exactly zero, clearing is exactly the fee, and vendor, GST and platform are each within half a paisa of the kept fraction |
| StoredJournals.CleanMiss | car_rental_backend/src/bookings/booking-lifecycle.service.ts:478-584 | a journal of the engine is stored balanced if and only if it is no refund or the rounded shares of its refund add up again (StoresBalanced on the columns) |
| StoredJournals.CleanBooksBalance | car_rental_backend/src/finance/ledger-core.service.ts:184-220 | stored books in which every refund is of that kind are in trial balance |
| StoredJournals.StoredBooksWithin | car_rental_backend/src/finance/ledger-core.service.ts:184-220 | in the stored books of the engine clearing is off by at most one paisa for every refund |
| StoredWitnesses.StoredReversalMayBeOff | car_rental_backend/src/bookings/booking-lifecycle.service.ts:500-512 | a day trip composed by createBooking and refunded by the cancellation policy whose accepted reversal is stored out of balance |
| StoredWitnesses.StoredTrialBalanceMayBeOff | car_rental_backend/src/finance/ledger-core.service.ts:184-220 | the stored books of that trip are out of trial balance |
| CancellationPolicy.CalculateCancellation | car_rental_backend/src/bookings/cancellation-policy.service.ts:98-229 | branches, tier loop and rounding compute the decision |
| CancellationPolicy.LaterCancellationCostsMore | car_rental_backend/src/bookings/cancellation-policy.service.ts:124-213 | for any well-tiered matrix, cancelling later never lowers the fee nor raises the refund, through the strict 24-hour mark and the rounding of hours |
| CancellationPolicy.FeeWithinFare | car_rental_backend/src/bookings/cancellation-policy.service.ts:204-213 | fee within the fare part, fee plus refund is what was paid, the deposit is never charged |
| CancellationPolicy.DefaultSchedule | car_rental_backend/src/bookings/cancellation-policy.service.ts:33-57 | the fee of the default matrix at every moment, boundaries included |
| CancellationPolicy.DefaultFeeInMs | car_rental_backend/src/bookings/cancellation-policy.service.ts:124-213 | the default fee from the two timestamps to the paise: free from 86418000 ms before pickup, a quarter from 21582000, half while above -18000, all from then on |
| CancellationPolicy.FreeOfCharge | car_rental_backend/src/bookings/cancellation-policy.service.ts:132-155 | a pending booking, a vendor and an overriding administrator cancel for nothing at any time under any matrix, each under its own tier name |
| CancellationPolicy.FeeOfFurthestMark | car_rental_backend/src/bookings/cancellation-policy.service.ts:156-202 | under any matrix the fee is that of the reached mark with the most hours, and the after-start fee when none is reached or the pickup has passed |
| CancellationPolicy.FeeIsNearest | car_rental_backend/src/bookings/cancellation-policy.service.ts:204-213 | the fee is that percentage of the fare to the nearest paisa, the refund the rest of what was paid |
| CancellationPolicy.MissingFieldsAreDefaults | car_rental_backend/src/bookings/cancellation-policy.service.ts:33-57 | a matrix without fields decides as the default one |
| CancellationPolicy.AcceptedMatrixIsWellTiered | car_rental_backend/src/config-engine/system-config-validator.ts:176-256 | a matrix the validator accepts, checking only neighbours of the sorted list, is well tiered |
| CancellationPolicy.AcceptedExactly | car_rental_backend/src/config-engine/system-config-validator.ts:176-256 | it accepts exactly the non-empty lists of distinct non-negative marks with percentages in range that are well tiered |
| BookingFares.ComposeBooking | car_rental_backend/src/bookings/bookings.service.ts:340-448 | step-by-step composition of add-ons, discount and protection gives the money columns |
| BookingFares.ComposedMeans | car_rental_backend/src/bookings/bookings.service.ts:340-448 | the four location fees, rounded once, reach total and vendor alike; the discount comes off the quote but not below zero; protection is added; fee, tax and deposit pass through |
| BookingFares.ComposedBaselineBalancedIff | car_rental_backend/src/bookings/bookings.service.ts:390-448 | a composed booking's baseline balances if and only if the discount that reaches the fare is at most total minus base minus GST plus the protection fee |
| BookingFares.UndiscountedBaselineBalances | car_rental_backend/src/bookings/bookings.service.ts:390-448 | without a discount it always balances |
| BookingFares.LargeDiscountUnbalances | car_rental_backend/src/bookings/bookings.service.ts:390-448 | a concrete discount below the fare that unbalances it |
| BookingFares.ExtensionJournalExact | car_rental_backend/src/bookings/trip-extensions.service.ts:361-429 | every extension journal balances, and the ledger takes it if and only if the base rounds to at least one paisa |
| BookingFares.ExtensionMeans | car_rental_backend/src/bookings/trip-extensions.service.ts:361-429 | an extension costs base, commission and 18 % tax on the commission, however many days it adds |
| BookingFares.PostExtension | car_rental_backend/src/bookings/trip-extensions.service.ts:361-429 | the journal is in the books exactly when base and key allow it; otherwise the books are unchanged |
| BookingFares.PriceToSettledIff | car_rental_backend/src/bookings/booking-lifecycle.service.ts:397-584 | from price input to settled books: for every composed booking paid in full, stored matrix and moment at which something is refunded, both journals are accepted and only the fee is left, exactly and in stored rows, if and only if the discount that reaches the fare is within the platform share plus the protection fee and vendor net is positive |
| BookingFares.PriceToSettledCancellation | car_rental_backend/src/bookings/booking-lifecycle.service.ts:397-584 | without a discount that always holds, for a positive base and a tax rate up to 100 % |
| Lifecycle.ReadyMeans | car_rental_backend/src/bookings/booking-lifecycle.service.ts:979-1265 | an attempt passes exactly when role, matrix and preconditions allow it, each refusal has its own answer in this order, the plan carries the status and payment it saw, and its refund lies between the deposit and what was paid |
| Lifecycle.Booking.Validate | car_rental_backend/src/bookings/booking-lifecycle.service.ts:220-318 | reads only, and answers what Prepare says |
| Lifecycle.Booking.Commit | car_rental_backend/src/bookings/booking-lifecycle.service.ts:325-584 | conflict exactly when the status changed since validation; otherwise status, deposit, refund intent, journals and outbox event together, or nothing when the ledger refuses |
| Lifecycle.Booking.PostCancellation | car_rental_backend/src/bookings/booking-lifecycle.service.ts:388-585 | baseline if it is missing and the payment captured, then the reversal; both or neither |
| Lifecycle.Booking.ExecuteTransition | car_rental_backend/src/bookings/booking-lifecycle.service.ts:220-860 | an uninterrupted attempt is validation followed by its commit and is never a conflict |
| Lifecycle.Booking.OpenPayment | car_rental_backend/src/payments/payments.service.ts:244-433 | an order over fare and deposit exactly for a PENDING booking that is not paid |
| Lifecycle.Booking.VerifyPayment | car_rental_backend/src/payments/payments.service.ts:674-758 | payment PAID, deposit HELD and baseline journal together, or nothing when the ledger refuses |
| LifecycleRuns.HistoryIsPath | car_rental_backend/src/bookings/booking-lifecycle.service.ts:834-849 | in every interleaving of attempts, orders and payment verifications without any lock the outbox history is a path of allowed edges from PENDING to the present status, the books stay sound, and there is at most one refund, only on a CANCELLED booking |
| LifecycleRuns.StartedIsNeverCancelled | car_rental_backend/src/bookings/booking-lifecycle.service.ts:1020-1046 | ONGOING is never followed by CANCELLED or EXPIRED |
| LifecycleRuns.EnteredOnce | car_rental_backend/src/bookings/booking-lifecycle.service.ts:1020-1046 | no status but DISPUTED and REFUND_PENDING is entered twice, and a terminal status ends the history |
| LifecycleRuns.EdgeRaisesRank | car_rental_backend/src/bookings/booking-lifecycle.service.ts:1020-1046 | every edge of the matrix raises the rank, except between the two contested statuses |
| LifecycleRuns.RefundableExactly | car_rental_backend/src/bookings/booking-lifecycle.service.ts:388-585 | a captured booking without a baseline journal can be refunded by some sequence of attempts if and only if something was paid, the fare covers vendor net plus GST, and vendor net is positive |
| LifecycleRuns.RunKeepsEngine | car_rental_backend/src/payments/payments.service.ts:743-768 | every run keeps the books of the kind whose stored rows are off by at most a paisa per refund |
| LifecycleRuns.VendorHandsOver | car_rental_backend/src/bookings/booking-lifecycle.service.ts:1176-1216 | the ordinary trip is among the runs: payment verified, deposit HELD, confirmed and handed over by the vendor |
| LifecycleOrigins.ConfirmedExactly | car_rental_backend/src/bookings/booking-lifecycle.service.ts:1061-1133 | a pending booking is confirmed exactly for an active, verified, unblocked, unreserved car by its vendor, or support that is a party to it, once the payment is captured, or by staff, unpaid with a reason of ten characters; otherwise the precondition fails |
| LifecycleOrigins.HandoverReadyExactly | car_rental_backend/src/bookings/booking-lifecycle.service.ts:1135-1150 | handover needs an active car and the finalized pre-trip inspection |
| LifecycleOrigins.StartedExactly | car_rental_backend/src/bookings/booking-lifecycle.service.ts:1152-1236 | a trip starts exactly with car and inspection in order and, but for staff, deposit held, payment captured if there is one, not too early and the code verified; otherwise the precondition fails |
| LifecycleOrigins.CompletedExactly | car_rental_backend/src/bookings/booking-lifecycle.service.ts:1239-1264 | completion needs the finalized post-trip inspection and, but for staff, no dispute and the verified code; otherwise the precondition fails |
| LifecycleOrigins.OthersExactly | car_rental_backend/src/bookings/booking-lifecycle.service.ts:979-1015 | the other targets ask for the right to act only; customers cancel and return, vendors do not refund |
| LifecycleOrigins.EventOrigin | car_rental_backend/src/bookings/booking-lifecycle.service.ts:220-360 | behind every event of every interleaving stands an earlier attempt that found the booking where the event starts and whose actor had the right to ask |
| LifecycleOrigins.ConfirmedMeans | car_rental_backend/src/bookings/booking-lifecycle.service.ts:1061-1133 | and behind CONFIRMED one that found the booking pending, the car in order and the payment captured, unless staff gave a reason |
| LifecycleOrigins.StartedMeans | car_rental_backend/src/bookings/booking-lifecycle.service.ts:1152-1236 | behind ONGOING one with the pre-trip inspection finalized and the code verified, or staff |
| LifecycleOrigins.CompletedMeans | car_rental_backend/src/bookings/booking-lifecycle.service.ts:1239-1264 | behind COMPLETED one with the post-trip inspection finalized, no dispute and the code verified, or staff |
| LifecycleOrigins.CustomersOnlyCancel | car_rental_backend/src/bookings/booking-lifecycle.service.ts:997-1005 | attempts of customers alone cancel the pending booking and do nothing else |
| LifecycleOrigins.NeverConfirmedUnpaid | car_rental_backend/src/bookings/booking-lifecycle.service.ts:1116-1133 | in every interleaving of attempts of customers and vendors, a booking whose payment nobody captures is cancelled or expires, at most |
| LifecycleOrigins.RefundOfAttempt | car_rental_backend/src/bookings/booking-lifecycle.service.ts:272-302 | what an attempt to cancel refunds: everything while pending, to a vendor and to an overriding administrator, else all but the default fee by the milliseconds to pickup |
| LifecycleOrigins.RefundOrigin | car_rental_backend/src/bookings/booking-lifecycle.service.ts:366-386 | the refund row of every run is what the policy gave an attempt of that run |
| LifecycleOrigins.PostedExactly | car_rental_backend/src/bookings/booking-lifecycle.service.ts:388-585 | which journals a cancellation adds, by their keys |
| LifecycleOrigins.PaymentVerifiedExactly | car_rental_backend/src/payments/payments.service.ts:491-758 | a payment is verified exactly when one is open and its journal is booked already or acceptable, read off the columns; then deposit and journal follow |
| LifecycleOrigins.DepositExactly | car_rental_backend/src/bookings/booking-lifecycle.service.ts:352-363 | in every run the deposit of a live booking is held exactly when a payment was verified, and that of a cancelled one is released exactly unless a payment was verified after the cancellation |
| LifecycleOrigins.LatePaymentHoldsDeposit | car_rental_backend/src/payments/payments.service.ts:674-758 | a run that ends CANCELLED with the deposit held: payment verification does not ask for the status |
| LifecycleOrigins.UnpaidCancellationRefunds | car_rental_backend/src/bookings/booking-lifecycle.service.ts:273-276 | a customer who cancels a pending booking that was never paid leaves a refund row over the whole amount |
| OutboxRows.FailedComesBack | car_rental_backend/src/bookings/outbox-worker.service.ts:97-128 | a FAILED event with at most five retries is eligible again after a minute |
| OutboxRows.BackoffDoubles | car_rental_backend/src/bookings/outbox-worker.service.ts:120-128 | the first wait is one second, each retry doubles it, up to a minute |
| OutboxRows.EligibleIsDue | car_rental_backend/src/bookings/outbox-worker.service.ts:97-128 | an event is taken exactly when it is new, or FAILED with at most four retries and 1, 2, 4, 8 or 16 seconds old |
| OutboxRows.DeadAfterMaxRetries | car_rental_backend/src/bookings/booking-outbox.service.ts:169-186 | an event becomes a dead letter with its maxRetries-th failure and not before |
| OutboxRows.WritersKeepConsistent | car_rental_backend/src/bookings/booking-outbox.service.ts:169-186 | every writer keeps retryCount and status in step |
| OutboxProtocol.PublishedMeansDelivered | car_rental_backend/src/bookings/outbox-worker.service.ts:47-189 | in every interleaving of workers, crashes, recoveries and unclaimed dispatches, PUBLISHED implies a completed publish; FAILED and PROCESSING have retries left, DEAD_LETTER has none |
| OutboxProtocol.WorkersAreExclusive | car_rental_backend/src/bookings/outbox-worker.service.ts:130-189 | workers alone, with recovery in one step, no failing status re-read and live claims inside the timeout: no event has two claim holders, and a PUBLISHED row never changes again |
| OutboxProtocol.WorkersCountFailures | car_rental_backend/src/bookings/outbox-worker.service.ts:150-181 | if besides no error path writes a retry count read before another failure (CountCurrent), the count rises by one per failure or recovery and never past maxRetries |
| OutboxProtocol.StepRaisesCount | car_rental_backend/src/bookings/outbox-worker.service.ts:57-70 | one step of such workers: exact effect on the count, failures only from PROCESSING |
| OutboxProtocol.CountFallsExactly | car_rental_backend/src/bookings/outbox-worker.service.ts:167-181 | in every interleaving, a step lowers the count of an event if and only if it records a failure by somebody whose own count is more than one behind |
| OutboxProtocol.UnpublishedExactly | car_rental_backend/src/bookings/booking-outbox.service.ts:169-186 | a step takes an event out of PUBLISHED if and only if it is a failure write: of dispatchEvent, of the worker's error path with or without its claim, or of a split recovery |
| OutboxProtocol.PublishedThroughoutExactly | car_rental_backend/src/bookings/booking-outbox.service.ts:169-186 | over a run an event stays PUBLISHED throughout if and only if nobody records a failure of it |
| OutboxProtocol.PublishedIsFinalExactly | car_rental_backend/src/bookings/outbox-worker.service.ts:130-189 | PUBLISHED is final from a moment on, whatever follows, if and only if no agent that has read or claimed the event is still on its way |
| OutboxWitnesses.RetryAllowanceExact | car_rental_backend/src/bookings/outbox-worker.service.ts:99-105 | an event can be left FAILED and never eligible again if and only if its maxRetries exceeds five: by the most disciplined workers, and equally in any interleaving |
| OutboxWitnesses.StuckStays | car_rental_backend/src/bookings/outbox-worker.service.ts:96-108 | and no further run of workers changes such an event |
| OutboxWitnesses.StaleListLowersCount | car_rental_backend/src/bookings/outbox-worker.service.ts:167-181 | a run under the conditions of WorkersAreExclusive in which retryCount goes down |
| OutboxWitnesses.DirectDispatchUnpublishes | car_rental_backend/src/bookings/booking-outbox.service.ts:157-186 | a run in which the one unclaimed dispatch of an event, racing with a claiming worker, marks it FAILED after it was PUBLISHED |
| OutboxWitnesses.LateRecountUnpublishes | car_rental_backend/src/bookings/outbox-worker.service.ts:150-181 | a run of workers only, inside the timeout and without recovery, in which a failing status re-read does the same |
| OutboxWitnesses.SplitRecoveryUnpublishes | car_rental_backend/src/bookings/outbox-worker.service.ts:47-71 | a run, with all live workers inside the timeout, in which a recovery that reads before it writes does the same |
| OutboxWorker.Worker.DispatchEvent | car_rental_backend/src/bookings/booking-outbox.service.ts:22-190 | skip, publish or record the failure; exact row and answer |
| OutboxWorker.Worker.RecoverStaleProcessingEvents | car_rental_backend/src/bookings/outbox-worker.service.ts:47-77 | exactly the first fifty stale rows fail once more; the number of PROCESSING rows falls by the number returned |
| OutboxWorker.Worker.RunBatch | car_rental_backend/src/bookings/outbox-worker.service.ts:94-189 | exactly the picked candidates are handled, each once; an event that is not due (2, 4, 8, 16 seconds after one to four retries) stays as it is; processed = success + failed + dead-lettered, and PUBLISHED and DEAD_LETTER rows grow by success and dead-lettered |
| OutboxWorker.Worker.ProcessPendingEvents | car_rental_backend/src/bookings/outbox-worker.service.ts:82-200 | recovery, then the batch on what it left; processed is at most batchSize; what is neither due nor a claim older than 300000 ms is untouched |
| OutboxWorker.Worker.HandleCron | car_rental_backend/src/bookings/outbox-worker.service.ts:27-42 | a run in progress makes the timer a no-op |
| OutboxWorker.OldestArePicked | car_rental_backend/src/bookings/outbox-worker.service.ts:115-128 | an eligible event among the first batchSize candidates is always handled |
| OutboxSchedule.PickedExactly | car_rental_backend/src/bookings/outbox-worker.service.ts:97-133 | a batch takes exactly the due events with fewer than batchSize due events and fewer than twice as many retryable ones before them |
| OutboxSchedule.RecoveredExactly | car_rental_backend/src/bookings/outbox-worker.service.ts:47-77 | a recovery takes exactly the first fifty claims older than five minutes |
| OutboxSchedule.UndisturbedIsHandled | car_rental_backend/src/bookings/outbox-worker.service.ts:130-189 | the protocol's steps for one due event, with nobody in between, do what the batch says, for every outcome |
| OutboxSchedule.UndisturbedDirectIsHandled | car_rental_backend/src/bookings/booking-outbox.service.ts:22-190 | the direct dispatch left alone publishes an unpublished event or records the failure, without a claim |
| FleetInterleavings.UninterruptedIsApply | car_rental_backend/src/cars/vendor-fleet.service.ts:257-687 | the statements of a call, with nobody in between, do exactly what the rule of the call says |
| FleetInterleavings.ActiveIsAvailable | car_rental_backend/src/cars/vehicle-lifecycle.service.ts:228-244 | in every interleaving of the statements of any number of calls, an ACTIVE car is available |
| FleetInterleavings.FlagThroughoutExactly | car_rental_backend/src/cars/vendor-fleet.service.ts:478-535 | in every interleaving, isAvailable says throughout whether the car is ACTIVE if and only if no maintenance is closed on a car that is back in service already |
| FleetInterleavings.ParkedCarStaysAvailable | car_rental_backend/src/cars/vendor-fleet.service.ts:503-512 | a reachable end state, no call left, with a car INACTIVE and available |
| FleetInterleavings.VendorCannotLiftExactly | car_rental_backend/src/cars/vehicle-lifecycle.service.ts:139-167 | no sequence of vendor statements changes the status of a SUSPENDED or RETIRED car if and only if no vendor call is past its checks |
| FleetInterleavings.RunKeepsVendorTargets | car_rental_backend/src/cars/vehicle-lifecycle.service.ts:148-155 | the hypothesis of that result holds in every run: a vendor call never comes to suspend or retire |
| FleetInterleavings.RetiredStaysExactly | car_rental_backend/src/cars/vendor-fleet.service.ts:609-687 | in every interleaving of everybody's calls without a new rejection or rental completion a RETIRED car stays RETIRED if and only if no call is already past its checks with another status to write |
| FleetInterleavings.VendorsCannotActivateUnverified | car_rental_backend/src/cars/vehicle-lifecycle.service.ts:211-226 | in every interleaving of vendor statements where verification is required, an unverified car does not come into service, unless a vendor call was heading there |
| FleetInterleavings.MaintenanceOverwritesRetired | car_rental_backend/src/cars/vendor-fleet.service.ts:381-467 | a reachable state in which a vendor maintenance, checked earlier, takes a car out of RETIRED |
| FleetRules.AvailableExactlyWhenActive | car_rental_backend/src/cars/vehicle-lifecycle.service.ts:93-275 | calls one after the other: over every run of all fleet operations and rental completions from creation on, isAvailable holds exactly when the car is ACTIVE |
| FleetRules.VendorCannotLift | car_rental_backend/src/cars/vehicle-lifecycle.service.ts:139-167 | calls one after the other: no sequence of vendor calls changes anything about a SUSPENDED or RETIRED car |
| FleetRules.VendorCannotActivateUnverified | car_rental_backend/src/cars/vehicle-lifecycle.service.ts:211-226 | calls one after the other: where verification is required, vendor calls alone never put an unverified car into service |
| FleetRules.RetiredStaysExactly | car_rental_backend/src/cars/vendor-fleet.service.ts:609-649 | calls one after the other: a RETIRED car stays so throughout a run if and only if the run has no rejection and no rental completion |
| FleetRules.RetiredLeftExactly | car_rental_backend/src/cars/vendor-fleet.service.ts:618-629 | one call takes a car out of RETIRED if and only if it is one of those two |
| FleetRules.ActivatedExactly | car_rental_backend/src/cars/vehicle-lifecycle.service.ts:211-243 | the exact condition under which each call puts a car into service |
| FleetRules.MovedExactly | car_rental_backend/src/cars/vehicle-lifecycle.service.ts:123-209 | for every other target: the statuses it is entered from, what needs an administrator or support, and what a running rental forbids or asks a reason for |
| FleetRules.TakenOutExactly | car_rental_backend/src/cars/vendor-fleet.service.ts:368-687 | when each of the other calls takes a car out of service |
| FleetRules.OnTripStaysInService | car_rental_backend/src/cars/vehicle-lifecycle.service.ts:169-209 | calls one after the other: during a rental only a reasoned suspension or retirement by staff, a rejection or the end of the rental takes the car out of service |
| FleetRules.MaintenanceExactly | car_rental_backend/src/cars/vendor-fleet.service.ts:368-472 | when a maintenance starts and the exact row it leaves: blocked until the expected return, or 2592000000 ms |
| FleetRules.ClosedExactly | car_rental_backend/src/cars/vendor-fleet.service.ts:478-535 | what closing a maintenance leaves |
| FleetRules.SubmittedExactly | car_rental_backend/src/cars/vendor-fleet.service.ts:257-298 | who may submit what, and the review that starts over |
| FleetRules.VerifiedExactly | car_rental_backend/src/cars/vendor-fleet.service.ts:541-603 | where a verified car goes |
| FleetRules.RecordClosedExactly | car_rental_backend/src/bookings/booking-lifecycle.service.ts:698-707 | only the undamaged end of a rental can leave an ACTIVE car with an open maintenance record, and exactly when the record was open |
| FleetRules.AuditExplainsStatus | car_rental_backend/src/cars/vehicle-lifecycle.service.ts:246-257 | calls one after the other: the audit log is a path from DRAFT to the present status but for the unlogged parking in completeMaintenance, and has no gap at all without it |
| FleetRules.CallKeepsSeamless | car_rental_backend/src/cars/vendor-fleet.service.ts:503-512 | a call breaks a gapless log if and only if it completes a maintenance |
| FleetVehicle.Vehicle.constructor | car_rental_backend/src/cars/vendor-fleet.service.ts:65-145 | a new car is DRAFT, unreviewed and unavailable |
| FleetVehicle.Vehicle.TransitionStatus | car_rental_backend/src/cars/vehicle-lifecycle.service.ts:93-275 | success exactly when the car is already there or the move is permitted; exact new row and log |
| FleetVehicle.Vehicle.SubmitForVerification | car_rental_backend/src/cars/vendor-fleet.service.ts:257-298 | the submission rule, including the reset that stays when the move fails |
| FleetVehicle.Vehicle.BeginMaintenance | car_rental_backend/src/cars/vendor-fleet.service.ts:368-472 | out of service with one block more, or unchanged |
| FleetVehicle.Vehicle.FinishMaintenance | car_rental_backend/src/cars/vendor-fleet.service.ts:478-535 | blocks gone, parked or back in service, flag in step even when the closing transition fails |
| FleetVehicle.Vehicle.AdminVerify | car_rental_backend/src/cars/vendor-fleet.service.ts:541-603 | verified in any case; activated or parked by the rule |
| FleetVehicle.Vehicle.AdminReject | car_rental_backend/src/cars/vendor-fleet.service.ts:609-649 | back to DRAFT from any status |
| FleetVehicle.Vehicle.AdminSuspend | car_rental_backend/src/cars/vendor-fleet.service.ts:654-661 | the suspension rule |
| FleetVehicle.Vehicle.AdminRetire | car_rental_backend/src/cars/vendor-fleet.service.ts:666-687 | retires only a car without a trip in progress |
| FleetVehicle.Vehicle.CompleteRental | car_rental_backend/src/bookings/booking-lifecycle.service.ts:630-707 | in service, or parked when damage was found |
| BankCodec.SoundCiphersExist | car_rental_backend/src/common/bank-encryption.service.ts:76-86 | what is assumed of AES-GCM can be met: some pair of functions has it |
| BankCodec.HexRoundTrip | car_rental_backend/src/common/bank-encryption.service.ts:80-86 | hex decoding undoes hex encoding, and hex has no colon |
| BankCodec.SplitJoin | car_rental_backend/src/common/bank-encryption.service.ts:108-111 | splitting at colons loses nothing and gives one part more than there are colons |
| BankCodec.FormatSplits | car_rental_backend/src/common/bank-encryption.service.ts:86-113 | the five fields come back as printed |
| BankCodec.WrittenUnder | car_rental_backend/src/common/bank-encryption.service.ts:59-74 | the version asked for unless absent or empty, else the active one; an unknown one fails, and a value already tagged with it stays |
| BankCodec.ReadExactly | car_rental_backend/src/common/bank-encryption.service.ts:96-134 | a value without the prefix reads as itself; of the others exactly those fail that have not five parts, name an unknown version or do not open |
| BankCodec.BlankIsNothing | car_rental_backend/src/common/bank-encryption.service.ts:59-62 | exactly the values of nothing but white space are stored as nothing |
| BankCodec.EitherCase | car_rental_backend/src/common/bank-encryption.service.ts:116-124 | hex digits are read in either case |
| BankCodec.RoundTripIff | car_rental_backend/src/common/bank-encryption.service.ts:59-134 | decrypt(encrypt(p)) = p if and only if the version name has no colon, for every registered version, IV and plaintext that is not blank or already tagged |
| BankCodec.EncryptStoredIff | car_rental_backend/src/common/bank-encryption.service.ts:71-74 | encrypting a stored value keeps its meaning if and only if it is not in encrypted form or already has the tag it would get |
| BankCodec.ReencryptIff | car_rental_backend/src/common/bank-encryption.service.ts:139-143 | re-encryption keeps the decrypted value if and only if that value is neither blank nor tagged with the target version |
| BankCodec.BankEncryption.constructor | car_rental_backend/src/common/bank-encryption.service.ts:11-39 | registered versions, start-up refusal and active version from the configuration |
| BankCodec.BankEncryption.RegisterKeyVersion | car_rental_backend/src/common/bank-encryption.service.ts:51-53 | registering a version changes the decryption of no value of another version |
| BankMigration.MigratedKeepsViewIff | car_rental_backend/scripts/backfill-bank-encryption.ts:93-112 | one row of the backfill keeps its meaning if and only if it is legacy or already under the active version |
| BankMigration.VendorTable.UpdateIfUnchanged | car_rental_backend/scripts/backfill-bank-encryption.ts:104-112 | the conditional update writes only a row that still holds what was read |
| BankMigration.VendorTable.MigrateAll | car_rental_backend/scripts/backfill-bank-encryption.ts:69-130 | the keyset loop ends, and left alone visits every row once |
| BankMigration.VendorTable.RunBackfill | car_rental_backend/scripts/backfill-bank-encryption.ts:22-176 | if every value found or written meanwhile is legacy, v1 or under the active version (AllFit, OthersFit), no reader can tell the table from the one without the script, whoever writes between any two of its database statements; left alone each plain row is encrypted once, and counted again at the end if the active version is not v1; a missing key fails every row and changes none |
| BankMigration.RemainingAfter | car_rental_backend/scripts/backfill-bank-encryption.ts:133-143 | the closing count is the number of plain rows found, or zero for v1, because tags of colon-free versions are unique; so it is zero if and only if the active version is v1 or nothing was plain |
| BankMigration.MigratedIsDone | car_rental_backend/scripts/backfill-bank-encryption.ts:69-130 | a finished backfill keeps absent, blank and enc:v1: values, and everything else starts with the active tag, legacy text reading as before |
| BankMigration.VendorTable.RunKeyRotation | car_rental_backend/scripts/rotate-bank-keys.ts:16-107 | if no selected row decrypts to a value that itself carries the target tag (AllSane), no reader can tell whether it ran, whoever writes at its pauses; live, rotated + skipped + failed equals the rows selected; left alone exactly the unreadable rows remain |
| BankMigration.RotatedKeepsView | car_rental_backend/scripts/rotate-bank-keys.ts:53-76 | a rotated row decrypts as before |
| BankMigration.RotatedIsDone | car_rental_backend/scripts/rotate-bank-keys.ts:35-88 | a finished rotation tags exactly the readable values that start with enc: and not with the target's tag, and keeps every other row |
| ReturnSettlement.LateHoursCover | car_rental_backend/src/bookings/rental-operations.service.ts:307-319 | late hours are counted from the scheduled end, rounded up, once the grace period is over |
| ReturnSettlement.DaysCover | car_rental_backend/src/bookings/rental-operations.service.ts:291-294 | started days of the trip, at least one |
| ReturnSettlement.KmPrice | car_rental_backend/src/bookings/rental-operations.service.ts:280-300 | kilometres beyond the package or 300 a day, at the agreed rate, the car's or 12 |
| ReturnSettlement.FuelPrice | car_rental_backend/src/bookings/rental-operations.service.ts:303-304 | 15 for every per cent below the level at pickup once more than five are missing |
| ReturnSettlement.LatePrice | car_rental_backend/src/bookings/rental-operations.service.ts:307-319 | nothing within 45 minutes, then one and a half times the hourly price, or 150, for every started hour |
| ReturnSettlement.DamagePrice | car_rental_backend/src/bookings/rental-operations.service.ts:321-323 | the estimate, to the nearest rupee |
| ReturnSettlement.ChargesAreAmounts | car_rental_backend/src/bookings/rental-operations.service.ts:296-323 | charges are never negative, and there is none exactly under the stated thresholds |
| ReturnSettlement.ChargesMonotone | car_rental_backend/src/bookings/rental-operations.service.ts:296-323 | further, later, emptier or more damaged never costs less |
| ReturnSettlement.RefundAntitone | car_rental_backend/src/bookings/rental-operations.service.ts:340-381 | nor gets more of the deposit back |
| ReturnSettlement.Deposit.Settle | car_rental_backend/src/bookings/rental-operations.service.ts:340-381 | refunded plus deducted is the deposit, the refund is what the charges leave, and the status says which case it is |
| ReturnSettlement.ExecuteReturn | car_rental_backend/src/bookings/rental-operations.service.ts:243-381 | rejected exactly for a wrong status or an odometer below the start; otherwise those charges and that split |

## Left out

- Controllers, guards, DTO validation, caching, notifications, real-time streams, PDF and report generation: input and output only.
- Payment gateway, OTP delivery and key derivation: foreign calls; an outcome is a parameter where it matters.
- Quote snapshots: bookings made from an accepted quote take their columns from a pricing service that is not part of this model.
- Location closures and geographic ranking in search: unrelated to date availability.
- One object for a whole extension: its interleavings are in `Reservations`, its end-date write in `Calendar`, its journal on the ledger object in `BookingFares`.
- The legacy branches of `updateStatus` and `cancelBooking` in the bookings service, loyalty, referral and payout follow-ups of a transition, and the handover side of rental operations: they add no harder property.
- Calendar.Fleet.CheckAvailability: conflicts from hub closures are not part of the list; locations are not modelled.
- Ledger.Books.GetAccountBalance: no filter by entity, and no corporate receivable account; the journals modelled here use neither.
- FleetInterleavings.UninterruptedIsApply: completeMaintenance deletes the blocks and parks the car in two statements, here they are one; the lookups of bookings are facts handed in at each read.
- Calendar.Fleet.CreateBooking: prices are composed in `BookingFares`; the car lock is held throughout, the version without it is `Reservations.NoDoubleBooking`.
- Lifecycle.Booking.Commit: the effects on the car of a completed booking are in `FleetRules` and `Calendar.DamagedCompletionExact`, not in the same transaction object.
- Settlement.ComputeReversal: the ratio is exact; the 20-digit precision of decimal.js division is not modelled.
- Lifecycle.Booking.OpenPayment: refunded payments, wallet credit, the gateway's order and the quote check; reading and writing are one step.
- Lifecycle.Booking.VerifyPayment: signature and amount checks, wallet and corporate contributions, coupon usage and the gateway webhook; the journal is that of a payment through the gateway, and reading and writing are one step.
- OutboxWorker.Worker.ProcessPendingEvents: no other writer runs meanwhile; interleavings are the subject of `OutboxProtocol`.
- FleetRules.AvailableExactlyWhenActive: calls one after the other; overlapping calls are in `FleetInterleavings.FlagThroughoutExactly`.
- FleetRules.VendorCannotLift: calls one after the other; overlapping calls are in `FleetInterleavings.VendorCannotLiftExactly`.
- FleetRules.VendorCannotActivateUnverified: calls one after the other; overlapping calls are in `FleetInterleavings.VendorsCannotActivateUnverified`.
- FleetRules.RetiredStaysExactly: calls one after the other; overlapping calls are in `FleetInterleavings.RetiredStaysExactly`.
- FleetRules.AuditExplainsStatus: calls one after the other, because a late write logs the status its call had read; log entries of bookings and service areas are left out.
- FleetVehicle.Vehicle.BeginMaintenance: the bookings in the window are facts handed in, not looked up in a booking table.
- FleetVehicle.Vehicle.FinishMaintenance: a failing readiness lookup is not modelled, only its answer.
- ReturnSettlement.ExecuteReturn: consuming the return code and completing the booking afterwards are separate services and not composed here.
- BankCodec.BankEncryption.constructor: masking for display and the internals of AES-GCM are not part of this model.
- BankMigration.VendorTable.RunBackfill: the set of vendors is fixed during a run; vendors created meanwhile are not modelled.
- IEEE rounding noise of `Number` arithmetic before `toFixed`: amounts are exact.
