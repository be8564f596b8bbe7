# Ticketing: the protocols behind holds, payments, caching and publishing

The repository sells seats. A client claims seats under a short lease (a *hold*), pays for them through an external
provider, and ends with a booking, a refund or a released hold, while reapers return lapsed leases to inventory. All
of it is transactions over shared tables, and any number of clients and reapers interleave. This project models those
transactions, puts them into one step system, and proves what survives every interleaving. It does the same for the
versioned event cache, for keyset pagination and for publishing, and it verifies the two self-contained algorithms
(seat generation and the deletion order).

## How the model is laid out

* `Tables`, `Claims`, `Purchases`, `Charges` give the rows and every booking or payment transaction as a function on
  the tables.
* `Protocol` makes each committed transaction, and each call to the provider, one atomic step. A purchase is a saga
  that advances stage by stage; one that is never scheduled again has crashed. Each operation carries the time it read
  from the clock, which may be long past when it commits. The provider approves, declines or fails at will. A step
  whose guard fails changes nothing, so every list of steps is a run and results about `Exec(w0, steps)` are about all
  runs.
* `Frames` says what each step leaves alone; `Leases`, `Money`, `Sales` hold the inductive invariants. `Ownership`,
  `Settlement`, `Refunds`, `HoldStatuses`, `Timing`, `ClaimLaws`, `Reaping` and `Audit` state the theorems a reader
  would want, and `SharedKey`, `SharedRefund`, `HoldRuns` and `SweepLimit` the runs in which the code departs from
  them.
* `Admission`, `Releases`, `PurchaseLaws`, `Retries` and `EventLaws` say, by conditions on the request and the rows
  alone, when each request is given each answer and what it leaves; `Pricing` says what a charge is the sum of,
  `HoldViews` that a hold is charged as it is shown, `CatalogCalls` how a call for a page ends, and `PageContents`
  what the page says.
* `BookingService`, `Provider`, `OrganizerService` and `Catalog.EventViews` are the services as they are written:
  classes whose methods update the tables, each proved against the transaction function and the protocol steps.
* `LockOrder` models row locks, `Catalog` the cache with its shared flights, `Text`, `Cursor` and `Search` pagination,
  `Inventory` and `Publishing` the organizer's transactions, `Seatmap` and `DeletionOrder` the two algorithms.
* Three modules join the parts. `JointRuns` (with `LateTickets`) interleaves publishing with booking and shows that
  every such run is a run of each; `EventPages` interleaves the organizer with the catalog, so that the versions the
  cache serves are the organizer's rows, tiers and ticket counts; `Listing` is the search over the organizer's events.

## Where the code differs from its documentation

* `Truncated` is documented as "work remains", so that an operator can tell it from "nothing to do". For a sweep that
  meets no row locked elsewhere the flag agrees with the work left if and only if the number of lapsed tickets was not
  exactly 50,000 (`Reaping.AloneSweep`); at 50,000, which a run reaches, it is set although nothing is left
  (`SweepLimit.TruncatedWithNothingLeft`). A batch skips locked rows, and one that comes up short ends the sweep:
  without the flag exactly the rows its last batch skipped are left, and the flag is right if and only if it skipped
  none (`Reaping.LeftAfterSweep`). Any number of lapsed rows can be left that way (`SweepLimit.SkippedWithoutFlag`).
* The payment key is `"booking:" + key` without the user, while bookings are unique per user and key. One charge is
  one booking in every run exactly when no two users share a key (`SharedKey.OneBookingPerChargeIff`).
* `Refund` is documented as idempotent, but its check and its stamp are separate statements. A charge is refunded at
  most once in every run exactly when no two users share a key (`SharedRefund.RefundedOnceIff`).
* `CreateEvent` checks sections as given and stores them trimmed. An event that prices every section of its venue can
  be published exactly when no section name has surrounding space (`Publishing.CreatedEventPublishesIff`); a venue
  with such a section can never have a published event.
* The cap on generated seats is checked on a 64-bit running total. It holds exactly when no single section exceeds
  2^63 - 1 - 200,000 seats (`Seatmap.CapHoldsIff`); otherwise the product can wrap, and the total can even go
  negative.
* The lifecycle of a hold is documented as ACTIVE to one of CONVERTED, EXPIRED and RELEASED, but conversion rechecks
  neither expiry nor status and a decline writes RELEASED unconditionally. A hold only moves up the order ACTIVE,
  EXPIRED, CONVERTED, RELEASED, so RELEASED is final (`HoldStatuses.StatusesOnlyRise`,
  `HoldStatuses.ReleasedIsFinal`). CONVERTED is final for a set of clients in all runs exactly when none of them
  purchases one hold under two keys (`HoldStatuses.ConvertedIsFinalIff`). EXPIRED is final exactly for clients who
  purchase nothing (`HoldStatuses.ExpiredIsFinalIff`), and a purchase can move a hold out of it exactly once the clock
  has reached the expiry (`HoldStatuses.ExpiredIsLeftIff`).
* Request times have nanoseconds and stored ones microseconds. A start time less than a microsecond after the zero
  time is accepted and stored as the zero time, which cursors refuse. All events of a run are spared that exactly when
  it accepts no such request (`Listing.EventsAreTimedIff`), and a cursor that was handed out is refused exactly when
  its key has the zero time (`Search.NextIsAcceptedIff`). An event that ends within the microsecond in which it starts
  passes the checks and is then refused by the database.

## Model

| member | source | states |
|---|---|---|
| Settlement.EveryChargeIsDisposedOf | booking/purchase.go:68-133 | in every run, whatever crashed elsewhere, with no key shared between users: once no purchase on it is between paid and booked or between refunded and closed, a COMPLETED payment has exactly one booking, which is CONFIRMED with sold seats priced at exactly the amount and no refund, or owns no seat and is refunded exactly when COMPENSATED |
| Settlement.NoChargeIsForgotten | booking/purchase.go:117-133 | with no assumption on keys or crashes: money taken is in a booking of the same total or in the hands of a purchase that still has to write one |
| Settlement.OneBookingPerPayment | booking/purchase.go:96-102 | keys kept apart, two bookings never refer to the same payment |
| Settlement.ChargedAtMostOnce | payments/payments.go:70-96 | over all racing and retried calls no key reaches the provider's charge operation twice |
| Settlement.OutcomesMatchCharges | booking/purchase.go:275-289 | every booking's payment has its total, and is FAILED for a FAILED booking and COMPLETED for every other |
| Settlement.OnlyDefiniteOutcomesMoveSeats | booking/purchase.go:104-115 | a conversion changes tables only on a COMPLETED payment and a decline only on a FAILED one; a key whose charge is IN_PROGRESS ends the purchase with no change |
| Settlement.ChargesAreAdmitted | payments/payments.go:62-68 | in every run the arguments a purchase charges with pass the argument checks, and a payment key once taken keeps its row, so a replay always has one to read |
| Settlement.RefundStamp | booking/purchase.go:456-475 | no key shared and no purchase on this payment having yet to act on it, a booking's payment carries refunded_at exactly when the booking is COMPENSATED |
| Refunds.RefundedAtMostOnce | payments/payments.go:198-247 | with no key shared between users, no run calls the provider's refund operation twice for one payment, crashes and refused refunds included |
| Refunds.RefundsAreLogged | payments/payments.go:227-238 | the calls counted are exactly those that extend the provider's log of refunds |
| SharedRefund.SharedKeyRefundsTwice | payments/payments.go:218-246 | for any two users and any key, a run in which both find the charge unstamped and refund it |
| SharedRefund.RefundedOnceIff | payments/payments.go:218-246 | a set of clients refunds every charge at most once in all runs if and only if no two of its users share a key |
| SharedKey.SharedKeySellsTwice | booking/purchase.go:96-102 | for any two users and any key, a run in which one charge confirms two bookings of different seats |
| SharedKey.OneBookingPerChargeIff | booking/purchase.go:80-102 | a set of clients books every charge once in all runs if and only if no two of its users share a key |
| Ownership.LeasesAgree | booking/holds.go:156-191 | in every reachable state, stale clocks included, a HELD ticket has its hold's event and expiry, has lapsed if the hold is no longer ACTIVE, and CONVERTED or RELEASED holds carry no ticket |
| Ownership.HoldsOnlyShrink | booking/purchase.go:224-249 | between any two states of a run a hold's expiry only grows, it never returns to ACTIVE, and the tickets carrying its id only shrink, so the fence has no ABA problem |
| Ownership.CountDetectsLoss | booking/purchase.go:224-249 | whatever commits between reading a lease and extending it, as many tickets under the hold as were read means exactly those tickets, so comparing counts misses nothing |
| Ownership.SoldStaysSold | booking/holds.go:267-273 | a SOLD ticket keeps its row, and so its CONFIRMED booking, whatever is interleaved afterwards |
| HoldRuns.ExpiredThenConverted | booking/purchase.go:291-314 | for any hold, user and key, a run in which a sweep marks the paid hold EXPIRED and the conversion then sells its seat and writes CONVERTED |
| HoldRuns.ExpiredThenReleased | booking/purchase.go:382-394 | for any hold, user and key, a run in which a sweep marks the hold EXPIRED and a decline then writes RELEASED |
| HoldRuns.ConvertedThenReleased | booking/purchase.go:382-394 | for any hold, user and two keys, a run in which a decline writes RELEASED over the CONVERTED hold, its seat staying sold |
| HoldStatuses.StatusesOnlyRise | docs/system-design.md:94 | between any two states of a run a hold's status only moves up the order ACTIVE, EXPIRED, CONVERTED, RELEASED |
| HoldStatuses.ReleasedIsFinal | docs/system-design.md:94 | RELEASED is final in every run, whoever the clients are |
| HoldStatuses.ConvertedIsFinalIff | booking/purchase.go:382-394 | CONVERTED is final in every run of a set of clients if and only if nobody among them purchases one hold under two non-empty keys |
| HoldStatuses.ExpiredIsFinalIff | booking/purchase.go:291-314 | EXPIRED is final in every run of a set of clients if and only if they begin no purchase |
| HoldStatuses.ExpiredIsLeftIff | booking/reaper.go:66-77 | in every reachable state, a purchase that could finish an ACTIVE or EXPIRED hold now can move it out of EXPIRED, after a sweep, if and only if the clock has reached the hold's expiry |
| Ownership.ConfirmedIsAnnouncedOnce | booking/purchase.go:316-331 | a CONFIRMED booking has exactly one outbox row and that row lists exactly the tickets sold to it |
| Ownership.AnnouncementsAreDisjoint | booking/purchase.go:319-325 | the ticket ids of different outbox rows are disjoint |
| Ownership.OneHoldPerKey | booking/holds.go:167-181 | no run ever has two holds of one user under one non-empty key |
| Timing.PaidWithinBudgetIsSold | booking/purchase.go:224-249 | a purchase prepared at `now` that converts while the clock is below now + 60 s, no step of anybody else having released or finished its hold with an effect, sells all its seats or finds its key booked: it is never compensated |
| Timing.RunLeavesSeats | booking/holds.go:97-109 | while the clock is below the extended expiry no claimant with any stale clock and no reaper takes a leased seat |
| Timing.ClaimLeavesSeat | booking/holds.go:183-191 | a claim, however stale its time, leaves a seat whose lease runs past the real clock untouched |
| Timing.FreshLeaseIntact | booking/purchase.go:188-254 | the lease `prepareLease` returns covers seats all held by its hold, for at least the payment budget |
| Timing.SoldSeats | booking/purchase.go:291-325 | after a successful conversion the booking owns exactly the leased tickets |
| Leases.StepKeepsInv | booking/holds.go:156-191 | every protocol step keeps the lease invariant, the saga leases' coverage of their holds and the unique hold keys, and only moves rows in the permitted direction |
| Leases.RunKeepsInv | booking/purchase.go:146-255 | the same over whole runs |
| Leases.DisplacedHaveLapsed | booking/holds.go:156-165 | a hold displaced by a claim had lapsed by the real clock even when the claim's own time was old |
| Leases.ClaimKeepsLeases | booking/holds.go:101-191 | taking over lapsed seats keeps every ticket consistent with the hold it names |
| Leases.ConvertKeepsLeases | booking/purchase.go:291-314 | marking a hold CONVERTED strands no ticket, because the lease lists every seat the hold still carries |
| Leases.DeclineKeepsLeases | booking/purchase.go:382-394 | an unconditional RELEASED on decline leaves no ticket under the hold |
| Leases.PrepareKeepsLeases | booking/purchase.go:224-249 | extending a hold and its tickets together keeps their expiries equal |
| Leases.FreshLeaseOk | booking/purchase.go:188-215 | a freshly prepared lease covers every ticket of its hold, priced at their sum |
| Money.StepKeepsMoney | booking/purchase.go:259-482 | every step keeps payments, bookings, sagas and refund stamps accounted for, with no assumption on keys |
| Money.RunKeepsMoney | payments/payments.go:62-247 | the same over whole runs |
| Money.RunFollowsOutcomes | payments/payments.go:110-122 | COMPLETED and FAILED payments never change state or reference, a refund stamp is never removed, and a booking changes only from COMPENSATING to COMPENSATED |
| Money.StampRefundKeepsMoney | payments/payments.go:240-246 | stamping a refund leaves it owned by the booking whose purchase is about to close it |
| Money.ConvertKeepsMoney | booking/purchase.go:275-289 | a confirmed booking takes over accounting for its payment from the purchase that paid |
| Money.OweKeepsMoney | booking/purchase.go:435-449 | the debt is on record before the refund is attempted |
| Sales.ConvertKeepsSales | booking/purchase.go:291-331 | a conversion sells exactly the seats of the outbox row it writes, at the row's total |
| Sales.OthersSellNothing | booking/holds.go:185-191 | no step but a conversion changes any ticket's owner, adds a confirmed booking or writes to the outbox |
| Sales.Reachable | booking/purchase.go:259-343 | every state of every run from unclaimed inventory satisfies the lease, money and sale invariants together |
| ClaimLaws.ClaimSucceedsIff | booking/holds.go:55-207 | a request is answered with a hold exactly when its list is valid, its key unused, the event on sale and open, its user below the quota, and every requested id in the event and claimable |
| ClaimLaws.LosersChangeNothing | booking/holds.go:141-154 | any other outcome changes nothing; the lost list is exactly the unclaimable ids, ascending; not-found is reported only for an id outside the event |
| ClaimLaws.WinnersTakeExactly | booking/holds.go:167-191 | a successful claim gives exactly the requested tickets a full lease under one new ACTIVE hold and touches no other ticket, booking, payment or outbox row |
| ClaimLaws.CreatedHoldIsShown | booking/holds.go:290-352 | the owner is shown the new hold ACTIVE until its lease ends, with the time left and exactly the requested seats in order, each with its place and price, and their total |
| Admission.RefusedExactly | booking/holds.go:55-100 | exactly when each of bad request, replay, event not found, not on sale, not yet on sale and quota exceeded is answered, the quota counting the holds that read ACTIVE |
| Admission.SeatsDecide | booking/holds.go:101-154 | for every other request: not found exactly for an id outside the event, unavailable exactly when one is not free, and otherwise a hold |
| Admission.HoldLeaves | booking/holds.go:156-199 | the whole of the tables after a hold: its seats under it for ten minutes, its own row, the ACTIVE holds they were taken from EXPIRED, and nothing else |
| Admission.ReplaysOwnHold | booking/holds.go:72-89 | a replay answers with a hold of the same user under the same key |
| Admission.RetryFindsHold | booking/holds.go:72-89 | the same request sent again is answered with the hold the first one made, and changes nothing |
| Admission.QuotaHolds | booking/holds.go:403-418 | over any requests served one after the other no user ever has more than three holds that read ACTIVE |
| Admission.NothingBeforeTheSale | booking/holds.go:372-401 | over any requests served one after the other every hold and every held seat is of an event on sale and no older than its sale |
| HoldViews.ViewIsExact | booking/holds.go:290-352 | for any hold, user and time: shown exactly to its owner, with its row, the status it reads as, the time left, exactly the tickets that name it in order with their places and prices, and the sum of those prices |
| HoldViews.ShownIsCharged | booking/purchase.go:146-222 | in every reachable state a purchase can be prepared exactly on a hold its caller is shown ACTIVE with a seat and that token, and it is charged for exactly the seats shown at exactly the total shown |
| Pricing.TotalAdds | booking/purchase.go:200-215 | no seats cost nothing, one its price, and two lists the sum of both |
| Pricing.OneSeatCharged | booking/purchase.go:188-215 | a hold on one seat is charged that seat's price |
| Pricing.OneSeatFreed | booking/purchase.go:188-215 | had one of several seats been freed before, the charge would be lower by exactly that seat's price, for the other seats |
| Releases.ReleasedExactly | booking/holds.go:236-266 | exactly when a release is answered not found or not active, and that it then changes nothing |
| Releases.ReleaseLeaves | booking/holds.go:267-287 | the whole of the tables after a release: exactly the seats under the hold nobody's, the hold RELEASED, nothing else changed, and the count that of those seats |
| Releases.ReleasedSeatsAreFree | booking/holds.go:267-273 | every seat it held can be claimed by anybody at any time, and the count is that of the tickets that left HELD |
| Releases.ReleasedIsShown | booking/holds.go:274-287 | the hold reads RELEASED at any time, its owner's ACTIVE holds lose exactly it, and a second release is refused as not active |
| Releases.ReleasedForGood | booking/holds.go:236-288 | in every run the hold stays RELEASED and no seat ever stands under it again, whatever is interleaved |
| PurchaseLaws.PreparedExactly | booking/purchase.go:158-222 | exactly when a preparation is answered not found, invalid token, not active, expired or without seats, and that it succeeds otherwise |
| PurchaseLaws.PreparedLeaves | booking/purchase.go:188-254 | the lease is the seats under the hold at the sum of their prices; hold and seats last a minute from now at least, and nothing is written when they already did |
| PurchaseLaws.FinishedExactly | booking/purchase.go:224-254 | on any tables: the extension is abandoned exactly when it is needed and the number of seats differs, and otherwise moves exactly the hold's seats and the ACTIVE hold |
| PurchaseLaws.SoldExactly | booking/purchase.go:259-314 | a conversion finds the key booked exactly when the user has a booking under it, and otherwise sells exactly when every leased seat is still the lease's; if not it changes nothing |
| PurchaseLaws.SaleLeaves | booking/purchase.go:291-331 | the whole of the tables after a sale: the leased seats sold to the booking, the hold CONVERTED, the CONFIRMED booking and its announcement |
| PurchaseLaws.DebtLeaves | booking/purchase.go:425-449 | the debt is one COMPENSATING booking and nothing else, written exactly when the key has no booking |
| PurchaseLaws.BegunExactly | booking/purchase.go:68-85 | a purchase starts exactly with a token and a key, and is over at once exactly when the key has its booking |
| PurchaseLaws.BookedIsOver | booking/purchase.go:80-85 | a purchase begun under a key that has its booking never changes anything in any run |
| PurchaseLaws.CalledExactly | payments/payments.go:98-108 | each call is logged under its payment key, and one without an answer ends the purchase with the payment untouched |
| PurchaseLaws.RefundedExactly | payments/payments.go:198-238 | a stamped payment counts as refunded without a call, one not COMPLETED or without reference cannot be refunded, any other is called for once, and a refusal leaves the debt |
| PurchaseLaws.LostIsRepaid | booking/purchase.go:425-475 | a charge for seats that are gone can be paid back: one refund call, the payment stamped, the booking COMPENSATED, no ticket or hold moved |
| Retries.ReplayAgrees | payments/payments.go:134-179 | in every reachable state a retry under a charged key is told what the first caller was: paid for COMPLETED, turned down for FAILED, nothing definite for IN_PROGRESS or another amount; no table changes |
| Retries.RecordedAsAnswered | payments/payments.go:110-130 | each answer of the provider with exactly the row it leaves and where the purchase goes on |
| Retries.DeclineIsRetried | booking/purchase.go:104-115 | from every reachable state a retry after a recorded decline can reach the FAILED booking with its reason, the hold RELEASED and exactly its seats free |
| Retries.ChargeIsDelivered | booking/purchase.go:104-132 | from every reachable state a retry after a recorded approval delivers without a second charge: the leased seats are sold to a CONFIRMED booking on the first payment, or, with one gone, the purchase goes on to refund it with no table changed |
| ClaimLaws.UpdateMatchesEveryRow | booking/holds.go:183-199 | the guarded update matches every requested row, so the rows-affected branch is dead |
| ClaimLaws.ReaperIsInvisible | booking/reaper.go:46-121 | a sweep no later than a claim, truncated or not, changes neither its outcome with its lost ids, nor the claimed rows, nor any hold's reported status from then on |
| Reaping.SweepsAreInvisible | booking/reaper.go:90-121 | the same in every reachable state for any number of batches of any number of sweeps run before the claim |
| Reaping.LeftAfterSweep | booking/reaper.go:52-64 | for a sweep with any rows locked elsewhere at each batch: the flag means it released 50,000; without it exactly the lapsed rows its last batch skipped are left; it agrees with "work remains" if and only if, with the flag, the number lapsed was not exactly 50,000 and, without it, the last batch skipped nothing |
| Reaping.AloneSweep | booking/reaper.go:22-27 | a sweep that meets no locked row releases the lowest min(N, 50,000) of N lapsed tickets, leaves nothing without the flag, and its flag agrees with the work left if and only if N is not exactly 50,000 |
| Reaping.ShortBatchLeavesSkipped | booking/reaper.go:100-121 | on any tables, whatever committed before: right after a batch of fewer than 1000, what is lapsed is exactly what it skipped |
| Reaping.SecondSweepIsIdle | booking/reaper.go:35-36 | where nothing has lapsed, every sweep at that time, whatever rows are locked, releases nothing, is not truncated and leaves the tables as they are |
| SweepLimit.TruncatedWithNothingLeft | booking/reaper.go:52-64 | in a run that leaves exactly 50,000 lapsed tickets, a sweep that meets no locked row reports truncation and leaves nothing |
| SweepLimit.SkippedWithoutFlag | booking/reaper.go:90-97 | for every n > 0, a run that leaves n lapsed tickets: a sweep whose first batch finds them all locked releases none, reports no truncation, and leaves all of them |
| Reaping.SweepsShareTheWork | booking/reaper.go:90-97 | however sweeps interleave, the counts they report sum to the number of tickets that left HELD |
| Reaping.AnotherBatch | booking/reaper.go:100-121 | one more batch frees lapsed rows that no earlier batch freed and nobody has locked, as many as there are up to 1000 |
| Audit.AuditFindsOnlyOpenRefunds | booking/integrity.go:58-116 | on any single reachable state duplicates and both orphan counts are zero, Sold equals the tickets in CONFIRMED bookings, and Consistent is true exactly when the event has no COMPENSATING booking |
| Audit.ConsistentExactly | booking/integrity.go:58-116 | on any tables, corrupt ones included: each counter is positive exactly when there is such a row, and Consistent is true exactly when no seat could be sold twice, nothing is sold or held by nobody, no refund is open and Sold equals the tickets of the event's CONFIRMED bookings |
| Audit.SeatCountIsOwned | booking/integrity.go:88-99 | summing tickets booking by booking counts every owned ticket once |
| LockOrder.NoWaitCycle | booking/holds.go:91-109 | for any number of claims with any overlapping ticket sets and skip-locked reapers, no chain of ticket-lock waits leads back to its start |
| LockOrder.SomebodyCanMove | booking/holds.go:439-444 | while a claim is in progress, some claim can take its next lock or finish, or some claim waits for a row of a reaper |
| LockOrder.SomebodyMovesAfterReapers | booking/reaper.go:101-109 | reapers never wait, and once they have dropped their rows some claim can move: no reachable state is stuck |
| LockOrder.EverybodyCanFinish | booking/holds.go:439-444 | wherever a run of locks has got to, it can be continued, without new claims or reapers, until every claim has had all its tickets and has ended |
| LockOrder.RunKeepsExclusive | booking/reaper.go:101-109 | no row is ever locked twice, and claims hold prefixes of ascending lists |
| BookingService.ValidateTicketIds | booking/holds.go:420-445 | accepts exactly 1 to 8 positive ids without repeats, and returns them ascending |
| BookingService.Service.CreateHold | booking/holds.go:55-207 | outcome and tables are those of the claim specification, replay, window and quota included; a created hold is one protocol step, and the hold made or replayed is the one shown |
| BookingService.Service.LoadHold | booking/holds.go:290-352 | the caller's hold with the time left and the seats that carry it, joined with their places and prices, and their total; EXPIRED once lapsed, swept or not; nothing for anybody else's |
| BookingService.Service.ClaimRows | booking/holds.go:101-207 | the locked scan, the two early returns, the read-back of the hold that won the key, and the writes equal the claim transaction |
| BookingService.Service.ScanRows | booking/holds.go:114-135 | one pass collects exactly the unclaimable ids in order and exactly the leases the others still name |
| BookingService.Service.ReleaseHold | booking/holds.go:236-288 | frees the seats still held by an ACTIVE hold of the caller and nothing else |
| BookingService.Service.ExtendLease | booking/purchase.go:146-255 | read and extension one after the other equal the prepare transaction of the protocol |
| BookingService.Service.ReadLease | booking/purchase.go:146-222 | the checks in order, then the seats still held and their price; what is refused here is what the transaction refuses |
| BookingService.Service.FinishLease | booking/purchase.go:224-254 | the extension on whatever the tables have become: skipped when enough time is left, abandoned when the number of rows differs, and otherwise tickets and hold together |
| BookingService.Service.PriceRows | booking/purchase.go:200-215 | the loop's total is the sum of the listed tickets' prices |
| BookingService.Service.ConvertToSold | booking/purchase.go:259-343 | all leased seats sold with booking, hold status and outbox row together, or nothing |
| BookingService.Service.RecordDeclined | booking/purchase.go:346-409 | books the failure with its reason and frees the hold's remaining seats, unless the key already has a booking |
| BookingService.Service.OpenPayment | payments/payments.go:70-89 | inserts an IN_PROGRESS row under a new key, or replays the recorded outcome |
| BookingService.Service.Replay | payments/payments.go:134-179 | on any tables: in flight exactly when no row has the key, and otherwise the outcome of the row, a different amount and IN_PROGRESS both being refused |
| BookingService.Service.RecordPayment | payments/payments.go:110-130 | records a definite answer; an approval without a reference fails the schema check and stays ambiguous |
| BookingService.Service.Charge | payments/payments.go:62-179 | refuses bad arguments, calls the provider exactly when they are good and the key is new, and leaves exactly the row and the stage that its answer, or the record under the key, determines |
| BookingService.Service.Refund | payments/payments.go:198-247 | for every payment id, with a row or without: reports success exactly for a stamped payment or an accepted refund, calls the provider only for an unstamped refundable one, and stamps before reporting |
| BookingService.Service.CallAndStamp | payments/payments.go:227-246 | one call, logged, and the stamp exactly when it was accepted, as two protocol steps |
| BookingService.Service.Compensate | booking/purchase.go:425-482 | records the debt first and ends COMPENSATED exactly when the refund went through, COMPENSATING otherwise, seats untouched |
| BookingService.Service.Purchase | booking/purchase.go:68-133 | runs the saga to its end as protocol steps with the outcome that tables and provider determine; on a reachable state, with nobody interfering, it never compensates |
| BookingService.Service.PayAndDeliver | booking/purchase.go:94-132 | from a prepared lease: the told outcome and the left tables follow the recorded charge |
| BookingService.Service.Deliver | booking/purchase.go:121-132 | converts, or compensates when fewer seats match than were leased |
| BookingService.Service.ReapBatches | booking/reaper.go:52-64 | with any rows locked elsewhere at each batch, the loop is a sweep in the sense of `Reaping.LeftAfterSweep`, and a list of protocol steps |
| BookingService.Service.ReapBatch | booking/reaper.go:100-121 | frees the lowest unlocked lapsed rows, at most 1000, and reports how many, as one protocol step |
| BookingService.Service.Reap | booking/reaper.go:46-88 | the batches with any rows locked elsewhere, then every lapsed ACTIVE hold marked; without the flag exactly the rows skipped by the last batch are left; if none was ever locked, nothing lapsed is left without the flag, a repeat at the same time changes nothing, and the flag agrees with the work left if and only if N was not exactly 50,000; counts are exact and the sweep is a list of protocol steps |
| Catalog.ReadsAreLinearizable | catalog/catalog.go:126-178 | under any interleaving of edits, publishing, evictions, cache failures, shared flights and rebuilds stored under older keys, a returned view is the event's current view at some instant inside the call |
| Catalog.EveryVersionHasItsInstant | organizer/events.go:197-207 | every version between the ones current at the ends of a run was current at some instant of it |
| Catalog.RunKeepsInv | catalog/catalog.go:147-173 | cached views, flights and calls only ever hold genuine versions no older than their key |
| Catalog.ReadTiersKeepsInv | catalog/catalog.go:222-248 | the two statements of a rebuild yield one version's body although edits may fall between them |
| Catalog.RebuildsAreBounded | catalog/cache.go:143-161 | at most 64 rebuilds read the database at once and every slot is given back, failures included |
| Catalog.FlightKeysAreDistinct | catalog/cache.go:168-174 | flight keys are equal only for the same event and version, and never equal an availability key |
| CatalogCalls.MissIsRebuilt | catalog/catalog.go:126-178 | a call that misses while a slot is free gets the current body from its own rebuild, gives the slot back and fills the cache if it can |
| CatalogCalls.StoredIsServed | catalog/catalog.go:147-173 | what such a call stored is what the next call is given, without a rebuild |
| CatalogCalls.NoSlotIsRefused | catalog/cache.go:143-161 | with all 64 slots taken a call that misses is refused, and neither cache nor slots change |
| CatalogCalls.HiddenIsRefused | catalog/catalog.go:182-198 | a call is refused at its first step exactly for an event that is not there or not on sale |
| CatalogCalls.JoinedShare | catalog/catalog.go:147-173 | all callers of one flight are given the one body it found |
| CatalogCalls.EditIsCurrent | organizer/events.go:197-207 | an edit of an event on sale is the next version at once, with the new details, the old tiers and the cache untouched |
| Catalog.EventViews.BuildEventView | catalog/catalog.go:200-250 | the loop assembles the current version's tiers in order and sums their seats |
| Catalog.EventViews.EventView | catalog/catalog.go:126-178 | one call left alone returns the current view on hit and miss alike; not-found, shed load and a failed query, cancellation or build are reported exactly when they happen, and only a view that was built and stored enters the cache |
| Cursor.RoundTrip | internal/cursor/cursor.go:36-77 | a cursor made from a key decodes to it exactly when the key's time is not the zero time |
| Cursor.RisingIsSorted | search/postgres.go:115-115 | a strictly rising list of keys is the sorted list of its members |
| Search.ParseLimit | search/query.go:131-147 | a blank, zero or negative limit gives 20, one above 100 gives 100, one in between itself; refused is exactly a text that is not a 64-bit integer |
| Search.LimitOfNumber | search/query.go:131-147 | the decimal text of any integer is clamped if 64 bits hold it and refused if they do not |
| Text.DecimalRead | search/query.go:135-138 | the decimal text of an integer reads back as it exactly when 64 bits hold it |
| Search.Collect | search/postgres.go:140-177 | reading limit + 1 rows and dropping the probe gives the first page, a cursor exactly when more rows exist, and an error when it cannot be encoded |
| Search.MatchesExactly | search/postgres.go:64-116 | a key passes the query exactly when its event is listed, starts at the key's time and comes after the cursor |
| Search.PageFacts | search/postgres.go:92-116 | a page lists, in order, only keys of events that are listed and start at that time, after its cursor; it misses none of those before its own cursor, and is full unless it is the last |
| Search.WalkOverChanges | search/postgres.go:92-116 | following next_cursor over a changing listing returns strictly increasing keys, none twice, only of listed events, and every key listed throughout |
| Search.WalkInventsNothing | search/postgres.go:140-158 | every hit of a walk is the key of an event that was listed, with that start time, when its page was read |
| Search.WalkOverFixedList | search/postgres.go:140-177 | over a fixed set of n matches the walk is the sorted list, in the number of pages below |
| Search.PagesForIsCeiling | search/postgres.go:164-175 | that number is max(1, ceil(n / limit)) |
| Search.Serve | search/postgres.go:119-177 | one request from its raw limit and cursor to its hits and next cursor, with each refusal |
| Search.NextIsAcceptedIff | search/query.go:111-119 | a next cursor sent back is refused exactly when the last hit of its page has the zero time, and otherwise goes on exactly after that hit |
| Search.ClientWalkOverChanges | search/postgres.go:92-116 | a client that sends each cursor back over a changing listing until there is none collects strictly rising keys, each of an event listed when its page was read, and every event listed throughout |
| Listing.EventsAreTimedIff | organizer/events.go:45-72 | all events of a run have a start time other than the zero time if and only if no request it accepted starts less than a microsecond after that time |
| Listing.AlmostZeroIsStored | organizer/events.go:58-60 | a request that is accepted and whose event is stored with the zero time |
| Listing.CursorsAreAccepted | internal/cursor/cursor.go:51-77 | in a run that accepted no such request, no cursor handed out by any search is refused |
| Listing.FollowingCursors | search/postgres.go:64-116 | the client's walk over the events of one run of organizer steps, committed between its pages: rising keys, none twice; each hit an event that was on sale and passed the filters, with that start time, on a page that shows it; and every event that was so at each page |
| Publishing.TicketsMatchSeats | organizer/events.go:245-330 | in every run the tickets of a published event are in bijection with its venue's seats, each under the unique tier of its section |
| Publishing.InventoryIsFrozen | organizer/venues.go:115-127 | after publication no later organizer or booking step changes the venue's seats, the event's tickets, or any ticket's seat, tier or price |
| Publishing.VersionTellsView | organizer/events.go:332-340 | two states of a run with the same version of a published event agree on its row, its tiers and the tickets counted per tier |
| Publishing.DraftsHaveNoTickets | organizer/events.go:228-232 | an event that is still DRAFT has no tickets |
| Publishing.PublishSucceedsIff | organizer/events.go:245-330 | publishing succeeds exactly for the owner's draft at a venue with seats, all sections priced; it creates one ticket a seat, and the incomplete-inventory branch is dead |
| Publishing.PublishedIsComplete | organizer/events.go:318-345 | on any tables, sound or not: an event goes on sale, at its next version, only with as many tickets created as its venue has seats |
| Publishing.OneTicketEach | organizer/events.go:296-317 | the seats-tiers join inserts exactly one ticket for each priced seat |
| Publishing.NeverTwoForSeat | organizer/events.go:303-317 | whatever tickets exist already, the insert leaves them alone, never gives a seat of an event a second one, and does nothing when each listed seat has its ticket |
| Publishing.RunKeepsInv | store/migrations/2_catalog_and_inventory.up.sql:66-103 | every run keeps the inventory invariant: unique seats, tiers and places, matching foreign keys, published events covered |
| Publishing.RowsPresent | organizer/venues.go:139-151 | after adding seats a row is present exactly if it was before or was asked for |
| Publishing.PaddedVenuesNeverPublish | organizer/events.go:73-80 | in every run, no event of a venue with a section name that has surrounding space is ever published |
| Publishing.CreatedEventPublishesIff | organizer/events.go:97-140 | an event created with a tier for every section can be published if and only if no section name of the venue has surrounding space |
| Publishing.PaddedSectionIsAccepted | organizer/events.go:97-140 | from a venue that two steps build: a request that passes the section check, stores a tier for a section nobody has, and can then not be published |
| Publishing.BookingStepsAreSells | booking/holds.go:185-191 | no booking step changes which seat of which event a ticket is, so all of them are covered by the inventory runs |
| Publishing.PublishedTicketsAreUnclaimed | organizer/events.go:303-317 | the tickets a publish adds are unclaimed and unique per seat, which is where the booking runs start |
| LateTickets.RunLater | booking/holds.go:101-191 | adding unclaimed tickets after a booking run, or having them from the start and dropping the claims that came too early, ends in the same tables |
| JointRuns.JointRunsAreRuns | organizer/events.go:296-317 | every run that interleaves organizer transactions with booking steps is a run of booking from an inventory published beforehand and a run of the organizer with bookings as sales, so all that is proved of either holds of it |
| JointRuns.SeatsAreSoldOnce | store/migrations/2_catalog_and_inventory.up.sql:93-95 | in every joint run two SOLD tickets for one seat of one event are the same ticket, of one CONFIRMED booking |
| JointRuns.BookingsPayTierPrices | booking/purchase.go:188-215 | in every joint run a CONFIRMED booking costs the sum of its seats' prices, each that of the unique tier of the seat's section, for seats of the event's venue |
| JointRuns.BookingsPayPerTier | booking/purchase.go:188-215 | in every joint run a CONFIRMED booking costs the sum over the tiers of the tier's price times the seats sold to it under that tier |
| JointRuns.TicketsAreJoined | booking/holds.go:325-333 | in every joint run each ticket has its seat and price rows, so no seat of a hold is missing from what its owner is shown |
| JointRuns.HoldsAreOnSale | booking/holds.go:372-401 | in every joint run a request is answered with a hold only on seats of the venue of an event its organizer has put on sale, and not before the time the organizer set |
| EventPages.CatalogShowsTables | catalog/catalog.go:200-250 | in every interleaving of organizer and catalog steps the version the catalog would read is the page of the organizer's tables: row, tiers in order and tickets per tier |
| EventPages.ListIsOrdered | catalog/catalog.go:222-230 | the tiers of a page are listed by descending price, then by section |
| EventPages.PagesAreCurrent | catalog/catalog.go:126-178 | however organizers, readers, rebuilds, evictions and failures interleave, a view returned by a call is the page the organizer's tables gave at some instant inside the call |
| PageContents.PageIsExact | catalog/catalog.go:200-250 | in every run an event has a page exactly once published, however much is sold: its row and version, exactly its tiers by falling price and then section, each with the seats of its section, adding up to the event's tickets and the venue's seats |
| PageContents.FirstPageIsRequest | organizer/events.go:45-146 | the first page of an event is the request that created it: texts trimmed, times to the microsecond, and one line for each tier asked for with its price and the seats of its section |
| EventLaws.CreatedExactly | organizer/events.go:45-146 | exactly when a request for an event is answered bad request, venue not found, refused by the schema, or accepted |
| EventLaws.CreatedLeaves | organizer/events.go:97-146 | one new draft of the caller's at version 1 as the request describes it, and one new tier for each asked for, in order; nothing else |
| EventLaws.EditedExactly | organizer/events.go:167-216 | exactly when an edit is answered bad request or not found, and what it leaves: the fields given, the version one higher, nothing else |
| EventLaws.SeatsAnsweredExactly | organizer/venues.go:88-137 | exactly when a request for seats panics or is answered bad request, not found or frozen, the sections being judged first |
| EventLaws.SeatsLeave | organizer/venues.go:139-156 | the venue then has the seats it had and those described, each once, the old rows untouched, and the answer is the number of new rows |
| EventLaws.PublishAnsweredExactly | organizer/events.go:233-330 | in every reachable shop: exactly when a publish is answered not found, already published, unpriced section, no seats or success |
| OrganizerService.CheckTiers | organizer/events.go:73-85 | accepts exactly tiers with non-blank, pairwise different sections as given and non-negative prices |
| OrganizerService.Service.AddSeats | organizer/venues.go:88-156 | generation, the frozen-topology check and the conflict-skipping insert equal the transaction, and the count is exact |
| OrganizerService.Service.CreateEvent | organizer/events.go:45-146 | every check in order, the stored window and the unique sections included, then event and trimmed tiers together or nothing |
| OrganizerService.Service.UpdateEvent | organizer/events.go:167-216 | changes only the given fields of the owner's event, and its version by one in the same step |
| OrganizerService.Service.InsertTickets | organizer/events.go:303-317 | the join loop inserts what the materialisation function says and counts it |
| OrganizerService.Service.PublishEvent | organizer/events.go:233-345 | tickets and ON_SALE together, or nothing and the right error |
| Seatmap.RowLabel | internal/seatmap/seatmap.go:89-102 | the loop ends with the bijective base-26 label, and with the empty string for negative rows |
| Seatmap.IndexOfLabel | internal/seatmap/seatmap.go:83-102 | the decoder returns the row a label was made from |
| Seatmap.LabelOfIndex | internal/seatmap/seatmap.go:83-102 | every non-empty string of capitals is the label of the row it decodes to |
| Seatmap.LabelsKeepOrder | internal/seatmap/seatmap.go:83-102 | labels are ordered by length then alphabetically exactly as their rows, and equal only for equal rows |
| Seatmap.Validate | internal/seatmap/seatmap.go:47-68 | the first complaint in order, or the 64-bit running total |
| Seatmap.FirstComplaint | internal/seatmap/seatmap.go:47-68 | a refusal is the complaint of the first section that has one: no name, a name used before, no rows, no seats in a row, then more than 200,000 seats so far in 64 bits; where no section complains the total is that of all |
| Seatmap.Generate | internal/seatmap/seatmap.go:42-81 | refuses as the validation says, panics on a negative capacity, and otherwise lays seats out section by section, row by row |
| Seatmap.GeneratesIff | internal/seatmap/seatmap.go:42-72 | generation succeeds exactly when there is a section, none has a complaint and the 64-bit total is not negative; it panics exactly when only the last fails |
| Seatmap.TotalSeats | internal/seatmap/seatmap.go:105-111 | the number of described seats, wrapped to 64 bits |
| Seatmap.CapHoldsIff | internal/seatmap/seatmap.go:64-67 | accepted sections describe at most 200,000 seats if and only if no section exceeds the largest int less 200,000 |
| Seatmap.GeneratesExactlyTheSeats | internal/seatmap/seatmap.go:70-80 | under that condition the result has exactly TotalSeats seats, precisely those of the sections, no (section, row, number) twice |
| Seatmap.SeatTellsPosition | internal/seatmap/seatmap.go:70-80 | the closed form of a seat's position gives back the index it was generated at |
| Seatmap.PositionHoldsSeat | internal/seatmap/seatmap.go:70-80 | at the position the closed form computes for a described seat, that seat was generated |
| Seatmap.OutlandishSectionsSlipThrough | internal/seatmap/seatmap.go:64-70 | inputs that wrap: 2^64 seats pass the cap, and a total goes negative |
| DeletionOrder.DeletionOrder | store/store.go:126-212 | ends on every finite foreign-key graph with a permutation of the tables; referencing tables precede referenced ones exactly when there is no reference cycle, and the fallback is taken exactly when there is one |
| DeletionOrder.ReferringFirst | store/store.go:124-136 | an order of the tables respects the references exactly if every table comes before all other listed tables its foreign keys refer to |
| DeletionOrder.CyclicIs | store/store.go:200-208 | there is a cycle exactly if some table is reached again by going from each table to one that refers to it |
| DeletionOrder.WalkCloses | store/store.go:200-208 | a pass without progress means the pending tables contain a cycle |
| DeletionOrder.RespectedMeansAcyclic | store/store.go:179-199 | an order that respects every reference rules cycles out |
| DeletionOrder.CollectChildren | store/store.go:138-177 | the children map holds exactly the references between different application tables |
| DeletionOrder.Pass | store/store.go:184-199 | a pass appends only tables nothing pending references, and if it appends none every pending table is blocked |

## Left out

* Concurrent organizer transactions: each is atomic here. AddSeats racing PublishEvent under READ COMMITTED is not modelled.
* Isolation below whole transactions in booking: row locks are modelled only in `LockOrder`. The protocol's prepare step is atomic; `BookingService.Service.FinishLease` has the abort for a reaper in between, which in the protocol is a purchase that takes no further step.
* Hold quota and on-sale window under concurrency: both are unlocked reads. The protocol's claim step omits them, which only adds runs; `BookingService.Service.CreateHold` has them.
* UUID parsing, caller identity and database errors: ids are values, fresh ids are parameters, and a failed statement is a purchase that takes no further step. Errors a client cannot tell apart by what they leave behind share an outcome.
* Other transactions between the batches of one sweep: `BookingService.Service.Reap` has their locks but not their commits; `Reaping.ShortBatchLeavesSkipped` and the protocol's runs have both.
* Time is in whole microseconds, the resolution of the database, except in the organizer's requests; prices are the join of tickets with tiers, which no statement updates.
* Ticket ids are unique across events, as their one sequence makes them.
* Locks other than ticket rows: releases and purchases lock holds before tickets, so deadlock freedom is claimed only for claims and skip-locked reapers.
* Catalog: venue columns on an event's page, and the collation of sections, taken as code point order; single flight is per process in the code, and the model lets a reader join any flight of its key; the availability snapshot, the seat map, TTLs, counters and HTTP ETags add no agreement property.
* Search filters (text, trigram, distance, dates) are an arbitrary predicate on events, and only the sort key of a hit is kept.
* Reading bookings back (GetBooking, ListBookings): easy members.
* Parsing of the search parameters other than the limit: easy members.
* Cursor encoding: base64 and JSON are taken as exact; start times outside the years 0000 to 9999 are an encoding error.
* Seat numbers as 32-bit columns: only sections beyond the `Seatmap.CapHoldsIff` condition could exceed them.
* Integer widths of prices and totals: amounts are unbounded integers.
* DeletionOrder: reading the catalogue; the names and references it returns are inputs, and names are distinct as the schema makes them.
* Venue details, titles' search vectors, deletion of rows, CLOSED and CANCELLED transitions, the reconcile job, the waiting room and outbox delivery, which are described but not implemented or hold no hard property.
* HTTP wiring, authentication, metrics, logging, cron registration, test support and health endpoints.
