/** Venues, seats, events, price tiers and tickets: the organizer's transactions (organizer/events.go, venues.go). */
module Inventory {
  import opened Common
  import opened Text
  import T = Tables
  import Cursor
  import S = Seatmap

  datatype Seat = Seat(venueId: int, section: string, row: string, number: int)

  datatype Event = Event(
    venueId: int,
    organizer: string,
    title: string,
    description: string,
    category: string,
    status: T.EventStatus,
    version: int,
    startsAt: Time,
    endsAt: Time,
    onsaleAt: Time)

  datatype Tier = Tier(eventId: int, section: string, price: int)

  /** The tickets table; tierOf is its price_tier_id column, which no statement updates. */
  datatype Stock = Stock(tickets: map<int, T.Ticket>, tierOf: map<int, int>, next: int)

  /** The counters are the tables' id sequences. */
  datatype Shop = Shop(
    venues: set<int>,
    seats: map<int, Seat>,
    nextSeat: int,
    events: map<int, Event>,
    nextEvent: int,
    tiers: map<int, Tier>,
    nextTier: int,
    stock: Stock)

  // Nanoseconds, the resolution of the times in a request.
  type Nanos = int

  const ZERO_NANOS: Nanos := Cursor.ZERO_TIME * 1000

  /** What the database keeps of a time: whole microseconds, the rest dropped. */
  function Stored(t: Nanos): Time {
    t / 1000
  }

  datatype TierSpec = TierSpec(section: string, price: int)

  datatype EventRequest = EventRequest(
    venueId: int,
    title: string,
    description: string,
    category: string,
    startsAt: Nanos,
    endsAt: Nanos,
    onsaleAt: Nanos,
    tiers: seq<TierSpec>)

  datatype Edit = Edit(title: Option<string>, description: Option<string>, category: Option<string>)

  datatype Error =
    | BadRequest
    | NotFound
    | AlreadyPublished
    | TopologyFrozen
    | UnpricedSection
    | NoSeats
    | Incomplete
    | ConstraintViolated
    | Panicked

  // ---------- rows selected ----------

  function SeatsOf(seats: map<int, Seat>, v: int): set<int> {
    set s | s in seats && seats[s].venueId == v
  }

  lemma SeatsAreRows(seats: map<int, Seat>, v: int)
    ensures forall s :: s in InOrder(SeatsOf(seats, v)) ==> s in seats
  {
  }

  function SectionsOf(seats: map<int, Seat>, v: int): set<string> {
    set s | s in seats && seats[s].venueId == v :: seats[s].section
  }

  function Matching(tiers: map<int, Tier>, e: int, section: string): set<int> {
    set t | t in tiers && tiers[t].eventId == e && tiers[t].section == section
  }

  function TicketsOf(tickets: map<int, T.Ticket>, e: int): set<int> {
    set t | t in tickets && tickets[t].eventId == e
  }

  predicate HasTicket(tickets: map<int, T.Ticket>, e: int, s: int) {
    exists t :: t in tickets && tickets[t].eventId == e && tickets[t].seatId == s
  }

  /** Some event at the venue has left DRAFT. */
  predicate Frozen(events: map<int, Event>, v: int) {
    exists e :: e in events && events[e].venueId == v && events[e].status != T.Draft
  }

  // ---------- inserts ----------

  /** INSERT ... ON CONFLICT (venue_id, section, row_label, seat_number) DO NOTHING, row by row. */
  function SeatsInserted(seats: map<int, Seat>, next: int, rows: seq<Seat>): (map<int, Seat>, int) {
    if rows == [] then (seats, next)
    else
      var (before, n) := SeatsInserted(seats, next, rows[..|rows| - 1]);
      var row := rows[|rows| - 1];
      if row in before.Values then (before, n) else (before[n := row], n + 1)
  }

  function TiersInserted(tiers: map<int, Tier>, next: int, e: int, specs: seq<TierSpec>): map<int, Tier> {
    if specs == [] then tiers
    else
      var front, s := specs[..|specs| - 1], specs[|specs| - 1];
      TiersInserted(tiers, next, e, front)[next + |front| := Tier(e, Trimmed(s.section), s.price)]
  }

  function NewTicket(e: int, s: int): T.Ticket {
    T.Ticket(e, s, T.Available, None, None, None)
  }

  /** One joined row inserted, unless the (event, seat) pair is already there. */
  function TicketInserted(stock: Stock, e: int, s: int, tier: int): Stock {
    if HasTicket(stock.tickets, e, s) then stock
    else Stock(stock.tickets[stock.next := NewTicket(e, s)], stock.tierOf[stock.next := tier], stock.next + 1)
  }

  function SeatTicketsInserted(stock: Stock, e: int, s: int, tierIds: seq<int>): Stock {
    if tierIds == [] then stock
    else TicketInserted(SeatTicketsInserted(stock, e, s, tierIds[..|tierIds| - 1]), e, s, tierIds[|tierIds| - 1])
  }

  /** The join of the listed seats with the event's tiers, inserted in order. */
  function TicketsInserted(stock: Stock, e: int, seats: map<int, Seat>, tiers: map<int, Tier>, ids: seq<int>): Stock
    requires forall s :: s in ids ==> s in seats
  {
    if ids == [] then stock
    else
      var s := ids[|ids| - 1];
      SeatTicketsInserted(TicketsInserted(stock, e, seats, tiers, ids[..|ids| - 1]), e, s,
                     InOrder(Matching(tiers, e, seats[s].section)))
  }

  // ---------- transactions ----------

  function SeatRows(v: int, specs: seq<S.SeatSpec>): seq<Seat> {
    seq(|specs|, i requires 0 <= i < |specs| => Seat(v, specs[i].section, specs[i].row, specs[i].number))
  }

  /** Every refusal is the caller's mistake; a negative capacity is a panic instead. */
  function GenerationError(error: S.SpecError): Error {
    if error == S.NegativeCapacity then Panicked else BadRequest
  }

  function AddSeatsTx(shop: Shop, v: int, specs: seq<S.SectionSpec>): Result<(Shop, int), Error> {
    var generated := S.Generated(specs);
    if generated.Err? then Err(GenerationError(generated.error))
    else if v !in shop.venues then Err(NotFound)
    else if Frozen(shop.events, v) then Err(TopologyFrozen)
    else
      var (seats, next) := SeatsInserted(shop.seats, shop.nextSeat, SeatRows(v, generated.value));
      Ok((shop.(seats := seats, nextSeat := next), next - shop.nextSeat))
  }

  /** The loop over the tiers of a request: it compares the sections as given, not as they will be stored. */
  predicate GoodTiers(specs: seq<TierSpec>) {
    && (forall i :: 0 <= i < |specs| ==> Trimmed(specs[i].section) != "" && specs[i].price >= 0)
    && (forall i, j :: 0 <= i < j < |specs| ==> specs[i].section != specs[j].section)
  }

  /** A tier of the request names the section, as given. */
  predicate SectionAsked(specs: seq<TierSpec>, section: string) {
    exists i :: 0 <= i < |specs| && specs[i].section == section
  }

  predicate GoodRequest(req: EventRequest) {
    && req.venueId > 0
    && Trimmed(req.title) != "" && Trimmed(req.category) != ""
    && req.startsAt != ZERO_NANOS && req.endsAt != ZERO_NANOS && req.onsaleAt != ZERO_NANOS
    && req.endsAt > req.startsAt && req.onsaleAt <= req.startsAt
    && req.tiers != [] && GoodTiers(req.tiers)
  }

  /** UNIQUE (event_id, section) as it meets the trimmed sections of one request. */
  predicate DistinctTrimmed(specs: seq<TierSpec>) {
    forall i, j :: 0 <= i < j < |specs| ==> Trimmed(specs[i].section) != Trimmed(specs[j].section)
  }

  /** CHECK (ends_at > starts_at) as it meets the stored times. */
  predicate StoredWindow(req: EventRequest) {
    Stored(req.endsAt) > Stored(req.startsAt)
  }

  function NewEvent(organizer: string, req: EventRequest): Event {
    Event(req.venueId, organizer, Trimmed(req.title), req.description, Trimmed(req.category),
          T.Draft, 1, Stored(req.startsAt), Stored(req.endsAt), Stored(req.onsaleAt))
  }

  function CreateEventTx(shop: Shop, organizer: string, req: EventRequest): Result<(Shop, int), Error> {
    if !GoodRequest(req) then Err(BadRequest)
    else if req.venueId !in shop.venues then Err(NotFound)
    else if exists i :: 0 <= i < |req.tiers| && req.tiers[i].section !in SectionsOf(shop.seats, req.venueId)
    then Err(BadRequest)
    else if !StoredWindow(req) || !DistinctTrimmed(req.tiers) then Err(ConstraintViolated)
    else
      var e := shop.nextEvent;
      Ok((shop.(events := shop.events[e := NewEvent(organizer, req)],
                nextEvent := e + 1,
                tiers := TiersInserted(shop.tiers, shop.nextTier, e, req.tiers),
                nextTier := shop.nextTier + |req.tiers|), e))
  }

  function Coalesce(o: Option<string>, current: string): string {
    if o.Some? then o.value else current
  }

  predicate GoodEdit(edit: Edit) {
    && (edit.title.Some? || edit.description.Some? || edit.category.Some?)
    && (edit.title.Some? ==> Trimmed(edit.title.value) != "")
    && (edit.category.Some? ==> Trimmed(edit.category.value) != "")
  }

  function TrimmedOption(o: Option<string>): Option<string> {
    if o.Some? then Some(Trimmed(o.value)) else None
  }

  function UpdateEventTx(shop: Shop, organizer: string, e: int, edit: Edit): Result<Shop, Error> {
    if !GoodEdit(edit) then Err(BadRequest)
    else if e !in shop.events || shop.events[e].organizer != organizer then Err(NotFound)
    else
      var row := shop.events[e];
      Ok(shop.(events := shop.events[e := row.(
        title := Coalesce(TrimmedOption(edit.title), row.title),
        description := Coalesce(edit.description, row.description),
        category := Coalesce(TrimmedOption(edit.category), row.category),
        version := row.version + 1)]))
  }

  /** A section of the venue that no tier of the event prices. */
  predicate Unpriced(shop: Shop, e: int, v: int) {
    exists section :: section in SectionsOf(shop.seats, v) && Matching(shop.tiers, e, section) == {}
  }

  function Materialised(shop: Shop, e: int, v: int): Stock {
    TicketsInserted(shop.stock, e, shop.seats, shop.tiers, InOrder(SeatsOf(shop.seats, v)))
  }

  /** The checks made before anything is inserted. */
  function PublishRefusal(shop: Shop, organizer: string, e: int): Option<Error> {
    if e !in shop.events || shop.events[e].organizer != organizer then Some(NotFound)
    else if shop.events[e].status != T.Draft then Some(AlreadyPublished)
    else if Unpriced(shop, e, shop.events[e].venueId) then Some(UnpricedSection)
    else if SeatsOf(shop.seats, shop.events[e].venueId) == {} then Some(NoSeats)
    else None
  }

  function RowAfter(row: Event): Event {
    row.(status := T.OnSale, version := row.version + 1)
  }

  /** Tickets for all seats and the flip to ON_SALE, or nothing. */
  function MaterialiseTx(shop: Shop, e: int): (Shop, Result<int, Error>)
    requires e in shop.events
  {
    var v := shop.events[e].venueId;
    var stock := Materialised(shop, e, v);
    var created := stock.next - shop.stock.next;
    if created != |SeatsOf(shop.seats, v)| then (shop, Err(Incomplete))
    else (shop.(stock := stock, events := shop.events[e := RowAfter(shop.events[e])]), Ok(created))
  }

  function PublishEventTx(shop: Shop, organizer: string, e: int): Result<(Shop, int), Error> {
    var refusal := PublishRefusal(shop, organizer, e);
    if refusal.Some? then Err(refusal.value)
    else
      var (after, r) := MaterialiseTx(shop, e);
      if r.Ok? then Ok((after, r.value)) else Err(r.error)
  }

  // ---------- runs ----------

  /** Sell stands for any booking transaction: it changes ticket rows, never which seat of which event they are. */
  datatype Step =
    | AddVenue(venueId: int)
    | AddSeats(venueId: int, specs: seq<S.SectionSpec>)
    | CreateEvent(organizer: string, req: EventRequest)
    | UpdateEvent(organizer: string, e: int, edit: Edit)
    | PublishEvent(organizer: string, e: int)
    | Sell(tickets: map<int, T.Ticket>)

  ghost predicate SamePlaces(tickets: map<int, T.Ticket>, tickets': map<int, T.Ticket>) {
    && tickets'.Keys == tickets.Keys
    && forall t :: t in tickets ==>
         tickets'[t].eventId == tickets[t].eventId && tickets'[t].seatId == tickets[t].seatId
  }

  function Committed(shop: Shop, r: Result<(Shop, int), Error>): Shop {
    if r.Ok? then r.value.0 else shop
  }

  ghost function Next(shop: Shop, step: Step): Shop {
    match step
    case AddVenue(v) => shop.(venues := shop.venues + {v})
    case AddSeats(v, specs) => Committed(shop, AddSeatsTx(shop, v, specs))
    case CreateEvent(organizer, req) => Committed(shop, CreateEventTx(shop, organizer, req))
    case UpdateEvent(organizer, e, edit) =>
      var r := UpdateEventTx(shop, organizer, e, edit);
      if r.Ok? then r.value else shop
    case PublishEvent(organizer, e) => Committed(shop, PublishEventTx(shop, organizer, e))
    case Sell(tickets) =>
      if SamePlaces(shop.stock.tickets, tickets) then shop.(stock := shop.stock.(tickets := tickets)) else shop
  }

  ghost function Exec(shop: Shop, steps: seq<Step>): Shop
    decreases |steps|
  {
    if steps == [] then shop else Exec(Next(shop, steps[0]), steps[1..])
  }

  const EMPTY: Shop := Shop({}, map[], 1, map[], 1, map[], 1, Stock(map[], map[], 1))
}
