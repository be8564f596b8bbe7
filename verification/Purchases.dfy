/** The transactions of the purchase saga (booking/purchase.go) as functions on the tables. */
module Purchases {
  import opened Common
  import opened Tables

  /** A validated, priced hold ready to be paid for. */
  datatype Lease = Lease(holdId: Uuid, eventId: int, ticketIds: seq<int>, total: int, expiresAt: Time)

  datatype PrepareError = HoldNotFound | BadToken | NotActive | HoldExpired | NoSeats | HoldChanged

  function BookingKeyTaken(bookings: map<Uuid, Booking>, userId: string, key: string): bool {
    exists b :: b in bookings && bookings[b].userId == userId && bookings[b].key == key
  }

  /** The expiry a lease has once it is prepared: extended when less than the payment budget is left. */
  function PreparedExpiry(expiresAt: Time, now: Time): Time {
    if expiresAt - now < PAYMENT_BUDGET then now + PAYMENT_BUDGET else expiresAt
  }

  function PreparedLease(db: DB, h: Uuid, now: Time): Lease
    requires h in db.holds
  {
    var ids := InOrder(HeldBy(db.tickets, h));
    Lease(h, db.holds[h].eventId, ids, Total(db.prices, ids), PreparedExpiry(db.holds[h].expiresAt, now))
  }

  function PrepareTx(db: DB, userId: string, h: Uuid, token: string, now: Time): (DB, Result<Lease, PrepareError>) {
    if h !in db.holds || db.holds[h].userId != userId then (db, Err(HoldNotFound))
    else if db.holds[h].token != token then (db, Err(BadToken))
    else if db.holds[h].status != Active then (db, Err(NotActive))
    else if db.holds[h].expiresAt <= now then (db, Err(HoldExpired))
    else if HeldBy(db.tickets, h) == {} then (db, Err(NoSeats))
    else
      var lease := PreparedLease(db, h, now);
      if db.holds[h].expiresAt - now < PAYMENT_BUDGET then
        (db.(tickets := Extended(db.tickets, HeldBy(db.tickets, h), lease.expiresAt),
             holds := db.holds[h := db.holds[h].(expiresAt := lease.expiresAt)]),
         Ok(lease))
      else (db, Ok(lease))
  }

  /**
   The second half of preparing, on whatever the tables have become since the lease was read: an extension that does not
   match as many tickets as were read is abandoned.
   */
  function FinishTx(db: DB, lease: Lease, now: Time): (DB, Result<Lease, PrepareError>) {
    if lease.expiresAt - now >= PAYMENT_BUDGET then (db, Ok(lease))
    else
      var held, newExpiry := HeldBy(db.tickets, lease.holdId), now + PAYMENT_BUDGET;
      if |held| != |lease.ticketIds| then (db, Err(HoldChanged))
      else
        (db.(tickets := Extended(db.tickets, held, newExpiry),
             holds := if lease.holdId in db.holds && db.holds[lease.holdId].status == Active
                      then db.holds[lease.holdId := db.holds[lease.holdId].(expiresAt := newExpiry)] else db.holds),
         Ok(lease.(expiresAt := newExpiry)))
  }

  datatype ConvertOutcome = AlreadyBooked | SeatsGone | SeatsSold

  /** The leased tickets still HELD by this exact hold. */
  function Convertible(tickets: map<int, Ticket>, lease: Lease): set<int> {
    set t | t in lease.ticketIds && t in tickets &&
            tickets[t].eventId == lease.eventId && HeldUnder(tickets[t], lease.holdId)
  }

  function NewBooking(
    userId: string, lease: Lease, paymentId: Uuid, key: string, status: BookingStatus, reason: string): Booking
  {
    Booking(lease.eventId, lease.holdId, userId, status, lease.total, paymentId, key, reason)
  }

  function ConvertTx(
    db: DB, userId: string, lease: Lease, paymentId: Uuid, key: string, bookingId: Uuid): (DB, ConvertOutcome)
  {
    if BookingKeyTaken(db.bookings, userId, key) then (db, AlreadyBooked)
    else if |Convertible(db.tickets, lease)| != |lease.ticketIds| then (db, SeatsGone)
    else
      (db.(tickets := SoldUnder(db.tickets, Convertible(db.tickets, lease), bookingId),
           holds := WithStatus(db.holds, lease.holdId, Converted),
           bookings := db.bookings[bookingId := NewBooking(userId, lease, paymentId, key, Confirmed, "")],
           outbox := db.outbox + [OutboxRow(bookingId, lease.eventId, userId, lease.ticketIds, lease.total)]),
       SeatsSold)
  }

  function DeclineReason(reason: string): string {
    if reason == "" then "payment_declined" else reason
  }

  /** Records a definite decline; the bool says whether this call wrote the booking. */
  function DeclineTx(
    db: DB, userId: string, lease: Lease, paymentId: Uuid, key: string, reason: string, bookingId: Uuid): (DB, bool)
  {
    if BookingKeyTaken(db.bookings, userId, key) then (db, false)
    else
      (db.(tickets := Freed(db.tickets, HeldBy(db.tickets, lease.holdId)),
           holds := WithStatus(db.holds, lease.holdId, Released),
           bookings :=
             db.bookings[bookingId := NewBooking(userId, lease, paymentId, key, Failed, DeclineReason(reason))]),
       true)
  }

  /** Records the obligation to refund before the refund is attempted. */
  function OweTx(
    db: DB, userId: string, lease: Lease, paymentId: Uuid, key: string, bookingId: Uuid): (DB, bool)
  {
    if BookingKeyTaken(db.bookings, userId, key) then (db, false)
    else
      (db.(bookings := db.bookings[bookingId :=
                         NewBooking(userId, lease, paymentId, key, Compensating, "seats_lost_after_charge")]),
       true)
  }

  function SettleTx(db: DB, bookingId: Uuid): DB {
    if bookingId in db.bookings
    then db.(bookings := db.bookings[bookingId := db.bookings[bookingId].(status := Compensated)])
    else db
  }
}
