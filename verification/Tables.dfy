/** The rows of the booking database and the conditional updates its transactions are made of. */
module Tables {
  import opened Common

  type Uuid = int

  const HOLD_TTL: Time := 600 * SECOND
  const PAYMENT_BUDGET: Time := 60 * SECOND
  const MAX_TICKETS_PER_HOLD: nat := 8
  const MAX_ACTIVE_HOLDS: nat := 3

  datatype EventStatus = Draft | OnSale | Closed | Cancelled

  datatype Event = Event(status: EventStatus, onsaleAt: Time)

  datatype TicketStatus = Available | Held | Sold

  /** One row per (event, seat). The three optional columns are nullable in the schema. */
  datatype Ticket = Ticket(
    eventId: int,
    seatId: int,
    status: TicketStatus,
    holdId: Option<Uuid>,
    holdExpiresAt: Option<Time>,
    bookingId: Option<Uuid>)

  datatype HoldStatus = Active | Converted | Expired | Released

  datatype Hold = Hold(
    eventId: int,
    userId: string,
    token: string,
    status: HoldStatus,
    expiresAt: Time,
    key: Option<string>)

  datatype BookingStatus = Confirmed | Failed | Compensating | Compensated

  datatype Booking = Booking(
    eventId: int,
    holdId: Uuid,
    userId: string,
    status: BookingStatus,
    total: int,
    paymentId: Uuid,
    key: string,
    reason: string)

  datatype OutboxRow = OutboxRow(bookingId: Uuid, eventId: int, userId: string, ticketIds: seq<int>, total: int)

  datatype PaymentState = InProgress | Completed | Refused

  datatype Payment = Payment(
    key: string,
    userId: string,
    amount: int,
    state: PaymentState,
    providerRef: Option<string>,
    reason: string,
    refundedAt: Option<Time>)

  /** `prices` is the join of tickets with price_tiers: neither a ticket's tier nor a tier's price is ever updated. */
  datatype DB = DB(
    events: map<int, Event>,
    prices: map<int, nat>,
    tickets: map<int, Ticket>,
    holds: map<Uuid, Hold>,
    bookings: map<Uuid, Booking>,
    outbox: seq<OutboxRow>,
    payments: map<Uuid, Payment>)

  // ---------- predicates of the WHERE clauses ----------

  /** A HELD row whose lease has lapsed at `now`; a NULL expiry never compares as lapsed. */
  predicate Lapsed(t: Ticket, now: Time) {
    t.status == Held && t.holdExpiresAt.Some? && t.holdExpiresAt.value <= now
  }

  predicate Claimable(t: Ticket, now: Time) {
    t.status == Available || Lapsed(t, now)
  }

  predicate HeldUnder(t: Ticket, h: Uuid) {
    t.status == Held && t.holdId == Some(h)
  }

  function HeldBy(tickets: map<int, Ticket>, h: Uuid): set<int> {
    set t | t in tickets && HeldUnder(tickets[t], h)
  }

  function LapsedTickets(tickets: map<int, Ticket>, now: Time): set<int> {
    set t | t in tickets && Lapsed(tickets[t], now)
  }

  function SoldTo(tickets: map<int, Ticket>, b: Uuid): set<int> {
    set t | t in tickets && tickets[t].bookingId == Some(b)
  }

  // ---------- conditional updates ----------

  /** SET status = 'AVAILABLE', hold_id = NULL, hold_expires_at = NULL for the rows in `ids`. */
  function Freed(tickets: map<int, Ticket>, ids: set<int>): map<int, Ticket> {
    map t | t in tickets ::
      if t in ids then tickets[t].(status := Available, holdId := None, holdExpiresAt := None) else tickets[t]
  }

  function Taken(tickets: map<int, Ticket>, ids: set<int>, h: Uuid, expiresAt: Time): map<int, Ticket> {
    map t | t in tickets ::
      if t in ids then
        tickets[t].(status := Held, holdId := Some(h), holdExpiresAt := Some(expiresAt), bookingId := None)
      else tickets[t]
  }

  function Extended(tickets: map<int, Ticket>, ids: set<int>, expiresAt: Time): map<int, Ticket> {
    map t | t in tickets :: if t in ids then tickets[t].(holdExpiresAt := Some(expiresAt)) else tickets[t]
  }

  function SoldUnder(tickets: map<int, Ticket>, ids: set<int>, b: Uuid): map<int, Ticket> {
    map t | t in tickets ::
      if t in ids then tickets[t].(status := Sold, bookingId := Some(b), holdId := None, holdExpiresAt := None)
      else tickets[t]
  }

  /** SET status = 'EXPIRED' for the rows in `ids` that are ACTIVE. */
  function Displaced(holds: map<Uuid, Hold>, ids: set<Uuid>): map<Uuid, Hold> {
    map h | h in holds :: if h in ids && holds[h].status == Active then holds[h].(status := Expired) else holds[h]
  }

  function LapsedHolds(holds: map<Uuid, Hold>, now: Time): set<Uuid> {
    set h | h in holds && holds[h].status == Active && holds[h].expiresAt <= now
  }

  function WithStatus(holds: map<Uuid, Hold>, h: Uuid, status: HoldStatus): map<Uuid, Hold> {
    if h in holds then holds[h := holds[h].(status := status)] else holds
  }

  // ---------- prices ----------

  function PriceOf(prices: map<int, nat>, t: int): nat {
    if t in prices then prices[t] else 0
  }

  function Total(prices: map<int, nat>, ids: seq<int>): nat {
    if ids == [] then 0 else Total(prices, ids[..|ids| - 1]) + PriceOf(prices, ids[|ids| - 1])
  }
}
