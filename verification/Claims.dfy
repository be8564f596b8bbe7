/** Claiming and releasing seats (booking/holds.go) as functions on the tables. */
module Claims {
  import opened Common
  import opened Tables
  import I = Inventory

  /** What the claiming transaction is given once the request has been validated and looked up. */
  datatype ClaimArgs = ClaimArgs(
    userId: string,
    eventId: int,
    ids: set<int>,
    key: Option<string>,
    now: Time,
    holdId: Uuid,
    token: string)

  datatype ClaimOutcome = UnknownTicket | SomeLost(lost: seq<int>) | KeyTaken | Claimed

  predicate InEvent(db: DB, eventId: int, t: int) {
    t in db.tickets && db.tickets[t].eventId == eventId
  }

  /** The requested tickets that are not free to claim, over rows of the event. */
  function Unclaimable(db: DB, a: ClaimArgs): set<int> {
    set t | t in a.ids && InEvent(db, a.eventId, t) && !Claimable(db.tickets[t], a.now)
  }

  /** The leases the requested tickets still name. */
  function DisplacedBy(db: DB, a: ClaimArgs): set<Uuid> {
    set t | t in a.ids && InEvent(db, a.eventId, t) && db.tickets[t].holdId.Some? :: db.tickets[t].holdId.value
  }

  predicate HoldKeyTaken(holds: map<Uuid, Hold>, userId: string, key: Option<string>) {
    key.Some? && exists h :: h in holds && holds[h].userId == userId && holds[h].key == key
  }

  function NewHold(a: ClaimArgs): Hold {
    Hold(a.eventId, a.userId, a.token, Active, a.now + HOLD_TTL, a.key)
  }

  function ClaimTx(db: DB, a: ClaimArgs): (DB, ClaimOutcome) {
    if exists t :: t in a.ids && !InEvent(db, a.eventId, t) then (db, UnknownTicket)
    else if Unclaimable(db, a) != {} then (db, SomeLost(InOrder(Unclaimable(db, a))))
    else if HoldKeyTaken(db.holds, a.userId, a.key) then (db, KeyTaken)
    else
      (db.(
         tickets := Taken(db.tickets, a.ids, a.holdId, a.now + HOLD_TTL),
         holds := Displaced(db.holds, DisplacedBy(db, a))[a.holdId := NewHold(a)]),
       Claimed)
  }

  /** The unique index on (user_id, idempotency_key). */
  predicate UniqueHoldKeys(holds: map<Uuid, Hold>) {
    forall h, g :: h in holds && g in holds && h != g && holds[h].key.Some?
      ==> holds[h].userId != holds[g].userId || holds[h].key != holds[g].key
  }

  // ---------- the whole of createHold ----------

  datatype HoldRequest = HoldRequest(
    userId: string,
    eventId: int,
    ticketIds: seq<int>,
    key: string,
    now: Time,
    holdId: Uuid,
    token: string)

  datatype HoldOutcome =
    | BadRequest
    | Replayed(holdId: Uuid)
    | EventNotFound
    | NotOnSale
    | NotYetOnSale
    | QuotaExceeded
    | TicketNotFound
    | SeatUnavailable(lostIds: seq<int>)
    | Created(holdId: Uuid)

  predicate NoRepeats(ids: seq<int>) {
    forall i, j :: 0 <= i < j < |ids| ==> ids[i] != ids[j]
  }

  predicate ValidIds(ids: seq<int>) {
    && 0 < |ids| <= MAX_TICKETS_PER_HOLD
    && (forall i :: 0 <= i < |ids| ==> 0 < ids[i])
    && NoRepeats(ids)
  }

  function NullIfEmpty(key: string): Option<string> {
    if key == "" then None else Some(key)
  }

  function Args(r: HoldRequest): ClaimArgs {
    ClaimArgs(r.userId, r.eventId, Elems(r.ticketIds), NullIfEmpty(r.key), r.now, r.holdId, r.token)
  }

  function ActiveHolds(holds: map<Uuid, Hold>, userId: string, now: Time): set<Uuid> {
    set h | h in holds && holds[h].userId == userId && holds[h].status == Active && now < holds[h].expiresAt
  }

  ghost function FindHold(holds: map<Uuid, Hold>, userId: string, key: Option<string>): (h: Uuid)
    requires HoldKeyTaken(holds, userId, key)
    ensures h in holds && holds[h].userId == userId && holds[h].key == key
  {
    var h :| h in holds && holds[h].userId == userId && holds[h].key == key;
    h
  }

  /** The checks made before the claim begins, on rows nobody has locked. */
  function Refusal(db: DB, r: HoldRequest): Option<HoldOutcome> {
    if r.eventId !in db.events then Some(EventNotFound)
    else if db.events[r.eventId].status != OnSale then Some(NotOnSale)
    else if r.now < db.events[r.eventId].onsaleAt then Some(NotYetOnSale)
    else if |ActiveHolds(db.holds, r.userId, r.now)| >= MAX_ACTIVE_HOLDS then Some(QuotaExceeded)
    else None
  }

  ghost function CreateHold(db: DB, r: HoldRequest): (DB, HoldOutcome) {
    var key := NullIfEmpty(r.key);
    if !ValidIds(r.ticketIds) then (db, BadRequest)
    else if HoldKeyTaken(db.holds, r.userId, key) then (db, Replayed(FindHold(db.holds, r.userId, key)))
    else if Refusal(db, r).Some? then (db, Refusal(db, r).value)
    else
      var (db', outcome) := ClaimTx(db, Args(r));
      (db', match outcome
            case UnknownTicket => TicketNotFound
            case SomeLost(lost) => SeatUnavailable(lost)
            case Claimed => Created(r.holdId))
  }

  /** The status a hold is reported with: a lapsed lease is EXPIRED even before the reaper has marked it. */
  function ReportedStatus(h: Hold, now: Time): HoldStatus {
    if h.status == Active && h.expiresAt <= now then Expired else h.status
  }

  datatype HeldSeat = HeldSeat(ticketId: int, section: string, row: string, number: int, price: nat)

  /** A hold as its owner is shown it, with the seats that carry its id. */
  datatype HoldView = HoldView(
    eventId: int,
    token: string,
    status: HoldStatus,
    expiresAt: Time,
    remaining: Time,
    seats: seq<HeldSeat>,
    total: nat)

  /** The ticket's seat and price rows are there, as its foreign keys demand. */
  predicate Joined(db: DB, seats: map<int, I.Seat>, t: int) {
    t in db.tickets && db.tickets[t].seatId in seats && t in db.prices
  }

  function CarriedBy(db: DB, seats: map<int, I.Seat>, h: Uuid): set<int> {
    set t | t in db.tickets && Joined(db, seats, t) && db.tickets[t].holdId == Some(h)
  }

  function SeatShown(db: DB, seats: map<int, I.Seat>, t: int): HeldSeat
    requires Joined(db, seats, t)
  {
    var seat := seats[db.tickets[t].seatId];
    HeldSeat(t, seat.section, seat.row, seat.number, db.prices[t])
  }

  function SeatsShown(db: DB, seats: map<int, I.Seat>, ids: seq<int>): seq<HeldSeat>
    requires forall t :: t in ids ==> Joined(db, seats, t)
  {
    if ids == [] then []
    else SeatsShown(db, seats, ids[..|ids| - 1]) + [SeatShown(db, seats, ids[|ids| - 1])]
  }

  function Remaining(expiresAt: Time, now: Time): Time {
    if expiresAt > now then expiresAt - now else 0
  }

  function ViewOf(db: DB, seats: map<int, I.Seat>, userId: string, h: Uuid, now: Time): Option<HoldView> {
    if h !in db.holds || db.holds[h].userId != userId then None
    else
      var row, ids := db.holds[h], InOrder(CarriedBy(db, seats, h));
      Some(HoldView(row.eventId, row.token, ReportedStatus(row, now), row.expiresAt, Remaining(row.expiresAt, now),
                    SeatsShown(db, seats, ids), Total(db.prices, ids)))
  }

  datatype ReleaseOutcome = HoldNotFound | HoldNotActive | ReleasedSeats(count: nat)

  function ReleaseTx(db: DB, userId: string, h: Uuid): (DB, ReleaseOutcome) {
    if h !in db.holds || db.holds[h].userId != userId then (db, HoldNotFound)
    else if db.holds[h].status != Active then (db, HoldNotActive)
    else
      (db.(tickets := Freed(db.tickets, HeldBy(db.tickets, h)), holds := WithStatus(db.holds, h, Released)),
       ReleasedSeats(|HeldBy(db.tickets, h)|))
  }
}
