/**
 Organizers publish while clients book: one run of both. Every such run is a run of each part on its own, so all that is
 proved of either holds of it, and together they say what is sold, to whom, and at which price.
 */
module JointRuns {
  import opened Common
  import opened LateTickets
  import A = Admission
  import C = Claims
  import F = Frames
  import I = Inventory
  import L = Leases
  import P = Protocol
  import Pricing
  import Publishing
  import Sales
  import Settlement
  import T = Tables

  datatype Step = Organize(organizing: I.Step) | Book(booking: P.Step)

  datatype Site = Site(shop: I.Shop, world: P.World)

  /** The join of tickets with price tiers. */
  function PricesOf(shop: I.Shop): map<int, nat> {
    map t | t in shop.stock.tierOf && shop.stock.tierOf[t] in shop.tiers :: PriceIn(shop.tiers, shop.stock.tierOf[t])
  }

  /** Never negative, which the schema checks as well. */
  function PriceIn(tiers: map<int, I.Tier>, p: int): nat
    requires p in tiers
  {
    if tiers[p].price < 0 then 0 else tiers[p].price
  }

  function EventsOf(shop: I.Shop): map<int, T.Event> {
    map e | e in shop.events :: T.Event(shop.events[e].status, shop.events[e].onsaleAt)
  }

  /** The booking tables after an organizer's transaction: its tickets, prices and events, all else as it was. */
  function Published(world: P.World, shop: I.Shop): P.World {
    world.(db := world.db.(tickets := shop.stock.tickets, prices := PricesOf(shop), events := EventsOf(shop)))
  }

  function Sold(shop: I.Shop, world: P.World): I.Shop {
    shop.(stock := shop.stock.(tickets := world.db.tickets))
  }

  ghost function Next(s: Site, step: Step): Site {
    match step
    case Organize(organizing) =>
      if organizing.Sell? then s
      else Site(I.Next(s.shop, organizing), Published(s.world, I.Next(s.shop, organizing)))
    case Book(booking) => Site(Sold(s.shop, P.Next(s.world, booking)), P.Next(s.world, booking))
  }

  ghost function Exec(s: Site, steps: seq<Step>): Site
    decreases |steps|
  {
    if steps == [] then s else Exec(Next(s, steps[0]), steps[1..])
  }

  function Start(clock: Time): Site {
    Site(I.EMPTY, P.World(clock, T.DB(map[], map[], map[], map[], map[], [], map[]), map[], [], []))
  }

  // ---------- a joint run as a run of each part ----------

  ghost predicate BookingRun(world: P.World) {
    exists w0, steps :: IsBookingRun(w0, steps, world)
  }

  ghost predicate IsBookingRun(w0: P.World, steps: seq<P.Step>, world: P.World) {
    P.Initial(w0) && P.Exec(w0, steps) == world
  }

  ghost predicate OrganizerRun(shop: I.Shop) {
    exists steps :: I.Exec(I.EMPTY, steps) == shop
  }

  /** The two parts share their tickets, and booking sees the organizer's prices and events. */
  ghost predicate Shared(s: Site) {
    && s.world.db.tickets == s.shop.stock.tickets
    && s.world.db.prices == PricesOf(s.shop) && s.world.db.events == EventsOf(s.shop)
  }

  ghost predicate Joint(s: Site) {
    Shared(s) && OrganizerRun(s.shop) && BookingRun(s.world)
  }

  lemma ShopInv(s: Site)
    requires Joint(s)
    ensures Publishing.Inv(s.shop)
  {
    var steps :| I.Exec(I.EMPTY, steps) == s.shop;
    Publishing.RunKeepsInv(I.EMPTY, steps);
  }

  lemma WorldInv(s: Site)
    requires Joint(s)
    ensures Sales.AllInv(s.world)
  {
    hide P.Next;
    var w0, steps :| IsBookingRun(w0, steps, s.world);
    Sales.Reachable(w0, steps);
  }

  lemma {:induction false} OrganizerAppend(shop: I.Shop, steps: seq<I.Step>, step: I.Step)
    ensures I.Exec(shop, steps + [step]) == I.Next(I.Exec(shop, steps), step)
    decreases |steps|
  {
    hide I.Next;
    if steps == [] {
      assert [step][1..] == [];
    } else {
      assert (steps + [step])[1..] == steps[1..] + [step];
      OrganizerAppend(I.Next(shop, steps[0]), steps[1..], step);
    }
  }

  lemma OneMoreOrganized(shop: I.Shop, step: I.Step)
    requires OrganizerRun(shop)
    ensures OrganizerRun(I.Next(shop, step))
  {
    hide I.Next, I.Exec;
    var steps :| I.Exec(I.EMPTY, steps) == shop;
    OrganizerAppend(I.EMPTY, steps, step);
  }

  lemma OneMoreBooked(world: P.World, step: P.Step)
    requires BookingRun(world)
    ensures BookingRun(P.Next(world, step))
  {
    hide P.Next, P.Exec, P.Initial;
    var w0, steps :| IsBookingRun(w0, steps, world);
    P.ExecOne(w0, steps, step);
    assert IsBookingRun(w0, steps + [step], P.Next(world, step));
  }

  // ---------- a booking step ----------

  lemma BookKeepsJoint(s: Site, step: P.Step)
    requires Joint(s)
    ensures Joint(Next(s, Book(step)))
  {
    WorldInv(s);
    SoldIsSell(s, step);
    PricesStay(s, step);
    hide P.Next, I.Next, OrganizerRun, BookingRun, PricesOf, EventsOf;
    OneMoreOrganized(s.shop, I.Sell(P.Next(s.world, step).db.tickets));
    OneMoreBooked(s.world, step);
  }

  lemma SoldIsSell(s: Site, step: P.Step)
    requires Shared(s) && L.Inv(s.world)
    ensures Sold(s.shop, P.Next(s.world, step)) == I.Next(s.shop, I.Sell(P.Next(s.world, step).db.tickets))
  {
    Publishing.BookingStepsAreSells(s.world, step);
    hide P.Next, L.Inv, PricesOf, EventsOf;
  }

  lemma PricesStay(s: Site, step: P.Step)
    requires Shared(s)
    ensures var s' := Next(s, Book(step)); Shared(s')
  {
    F.StepFrame(s.world, step);
    hide P.Next;
    assert PricesOf(Sold(s.shop, P.Next(s.world, step))) == PricesOf(s.shop);
  }

  // ---------- an organizer's transaction ----------

  function NewTickets(tickets: map<int, T.Ticket>, tickets': map<int, T.Ticket>): map<int, T.Ticket> {
    map t | t in tickets' && t !in tickets :: tickets'[t]
  }

  /** Tickets are only ever added, unclaimed, and those there keep their tiers. */
  ghost predicate StockGrows(stock: I.Stock, stock': I.Stock) {
    && (forall t :: t in stock.tickets ==> t in stock'.tickets && stock'.tickets[t] == stock.tickets[t])
    && (forall t :: t in stock'.tickets && t !in stock.tickets ==> P.Unclaimed(stock'.tickets[t]))
    && forall t :: t in stock.tierOf ==> t in stock'.tierOf && stock'.tierOf[t] == stock.tierOf[t]
  }

  lemma AddedGrows(stock: I.Stock, stock': I.Stock, e: int, seats: map<int, I.Seat>, tiers: map<int, I.Tier>,
      ids: seq<int>)
    requires forall s :: s in ids ==> s in seats
    requires Publishing.Added(stock, stock', e, seats, tiers, ids)
    ensures StockGrows(stock, stock')
  {
    hide I.Matching;
    assert forall t :: t in stock.tierOf.Keys <==> t in stock.tickets.Keys;
    assert forall t :: t in stock'.tierOf.Keys <==> t in stock'.tickets.Keys;
  }

  lemma PublishGrows(shop: I.Shop, organizer: string, e: int)
    requires Publishing.Inv(shop)
    ensures StockGrows(shop.stock, I.Next(shop, I.PublishEvent(organizer, e)).stock)
  {
    hide I.Next, I.PublishEventTx, Publishing.Inv, Publishing.Added, Publishing.HasNone, InOrder, I.SeatsOf;
    Publishing.PublishCommits(shop, organizer, e);
    if I.PublishEventTx(shop, organizer, e).Ok? {
      var ids := InOrder(I.SeatsOf(shop.seats, shop.events[e].venueId));
      I.SeatsAreRows(shop.seats, shop.events[e].venueId);
      Publishing.PublishShape(shop, organizer, e);
      AddedGrows(shop.stock, I.PublishEventTx(shop, organizer, e).value.0.stock, e, shop.seats, shop.tiers, ids);
    }
  }

  lemma OrganizeGrows(shop: I.Shop, step: I.Step)
    requires Publishing.Inv(shop) && !step.Sell?
    ensures StockGrows(shop.stock, I.Next(shop, step).stock)
  {
    hide Publishing.Inv;
    if step.PublishEvent? {
      PublishGrows(shop, step.organizer, step.e);
    } else {
      StockSame(shop, step);
    }
  }

  lemma StockSame(shop: I.Shop, step: I.Step)
    requires !step.Sell? && !step.PublishEvent?
    ensures I.Next(shop, step).stock == shop.stock
  {
  }

  lemma TierStays(shop: I.Shop, step: I.Step, t: int)
    requires Publishing.Inv(shop) && t in shop.stock.tickets
    ensures t in shop.stock.tierOf && shop.stock.tierOf[t] in shop.tiers
    ensures var p := shop.stock.tierOf[t]; p in I.Next(shop, step).tiers && I.Next(shop, step).tiers[p] == shop.tiers[p]
  {
    assert t in shop.stock.tickets.Keys;
    Publishing.StepFollows(shop, step);
    assert Publishing.PlaceOk(shop, shop.stock.tickets[t], shop.stock.tierOf[t]);
    hide I.Next, Publishing.Inv;
    var p, e := shop.stock.tierOf[t], shop.stock.tickets[t].eventId;
    assert p in Publishing.EventTiers(shop.tiers, e).Keys;
    assert p in Publishing.EventTiers(I.Next(shop, step).tiers, e);
  }

  lemma PriceStays(shop: I.Shop, step: I.Step, t: int)
    requires Publishing.Inv(shop) && t in shop.stock.tickets && StockGrows(shop.stock, I.Next(shop, step).stock)
    ensures T.PriceOf(PricesOf(I.Next(shop, step)), t) == T.PriceOf(PricesOf(shop), t)
  {
    TierStays(shop, step, t);
    hide I.Next, Publishing.Inv;
  }

  lemma GrownTickets(stock: I.Stock, stock': I.Stock)
    requires StockGrows(stock, stock')
    ensures var more := NewTickets(stock.tickets, stock'.tickets);
            Fresh(stock.tickets, more) && stock'.tickets == stock.tickets + more
  {
    hide P.Unclaimed;
    var more := NewTickets(stock.tickets, stock'.tickets);
    var all := stock.tickets + more;
    forall t
      ensures t in all.Keys <==> t in stock'.tickets.Keys
      ensures t in stock.tickets.Keys ==> t !in more.Keys
    {
      assert t in more.Keys <==> t in more;
    }
    forall t | t in all
      ensures t in stock'.tickets && all[t] == stock'.tickets[t]
    {
      assert t in all.Keys && t in stock'.tickets.Keys;
    }
    assert all.Keys == stock'.tickets.Keys;
  }

  lemma AddedTickets(s: Site, step: I.Step)
    requires Shared(s) && Publishing.Inv(s.shop) && !step.Sell?
    ensures var shop' := I.Next(s.shop, step);
            var more := NewTickets(s.shop.stock.tickets, shop'.stock.tickets);
            && Addable(s.world.db, more, PricesOf(shop'))
            && Published(s.world, shop') == Later(s.world, more, PricesOf(shop'), EventsOf(shop'))
  {
    hide I.Next, Publishing.Inv, PricesOf, EventsOf, StockGrows, NewTickets, Fresh, T.PriceOf;
    var shop' := I.Next(s.shop, step);
    OrganizeGrows(s.shop, step);
    GrownTickets(s.shop.stock, shop'.stock);
    forall t | t in s.world.db.tickets
      ensures T.PriceOf(PricesOf(shop'), t) == T.PriceOf(s.world.db.prices, t)
    {
      PriceStays(s.shop, step, t);
    }
  }

  /** Had the new tickets been there all along, the booking run would have been the same from then on. */
  lemma PublishedIsBookingRun(world: P.World, more: map<int, T.Ticket>, prices: map<int, nat>,
      events: map<int, T.Event>)
    requires BookingRun(world) && Addable(world.db, more, prices)
    requires P.UniqueSeats(world.db.tickets + more)
    ensures BookingRun(Later(world, more, prices, events))
  {
    hide P.Next, P.Exec;
    var w0, steps :| IsBookingRun(w0, steps, world);
    Sales.Reachable(w0, []);
    assert w0 == P.Exec(w0, []) by {
      P.ExecAppend(w0, [], []);
      NoSteps(w0);
    }
    SamePlacesAfter(w0, steps);
    StartAddable(w0, steps, more, prices);
    RunLater(w0, steps, more, prices, events);
    StartIsInitial(w0, world.db.tickets, more, prices, events);
    assert IsBookingRun(Later(w0, more, prices, events), Without(steps, more.Keys), Later(world, more, prices, events));
  }

  lemma NoSteps(w: P.World)
    ensures P.Exec(w, []) == w
  {
  }

  lemma {:induction false} SamePlacesAfter(w: P.World, steps: seq<P.Step>)
    requires Sales.AllInv(w)
    ensures I.SamePlaces(w.db.tickets, P.Exec(w, steps).db.tickets)
    ensures P.Exec(w, steps).db.prices == w.db.prices
    decreases |steps|
  {
    hide P.Next, Sales.AllInv;
    if steps == [] {
    } else {
      var w1 := P.Next(w, steps[0]);
      LeaseInvOf(w);
      Publishing.BookingStepsAreSells(w, steps[0]);
      F.StepFrame(w, steps[0]);
      Sales.StepKeepsAll(w, steps[0]);
      SamePlacesAfter(w1, steps[1..]);
      PlacesTransitive(w.db.tickets, w1.db.tickets, P.Exec(w1, steps[1..]).db.tickets);
    }
  }

  lemma PlacesTransitive(a: map<int, T.Ticket>, b: map<int, T.Ticket>, c: map<int, T.Ticket>)
    requires I.SamePlaces(a, b) && I.SamePlaces(b, c)
    ensures I.SamePlaces(a, c)
  {
    forall t | t in a
      ensures c[t].eventId == a[t].eventId && c[t].seatId == a[t].seatId
    {
      assert t in b.Keys;
    }
  }

  lemma StartAddable(w0: P.World, steps: seq<P.Step>, more: map<int, T.Ticket>, prices: map<int, nat>)
    requires var w := P.Exec(w0, steps);
             && I.SamePlaces(w0.db.tickets, w.db.tickets) && w.db.prices == w0.db.prices
             && Addable(w.db, more, prices)
    ensures Addable(w0.db, more, prices)
  {
    hide P.Exec, P.Next;
    forall t | t in w0.db.tickets
      ensures T.PriceOf(prices, t) == T.PriceOf(w0.db.prices, t)
    {
      assert t in P.Exec(w0, steps).db.tickets.Keys;
    }
  }

  lemma StartIsInitial(w0: P.World, tickets: map<int, T.Ticket>, more: map<int, T.Ticket>, prices: map<int, nat>,
      events: map<int, T.Event>)
    requires P.Initial(w0) && I.SamePlaces(w0.db.tickets, tickets) && Addable(w0.db, more, prices)
    requires P.UniqueSeats(tickets + more)
    ensures P.Initial(Later(w0, more, prices, events))
  {
    var all, all' := w0.db.tickets + more, tickets + more;
    forall t | t in all
      ensures P.Unclaimed(all[t])
      ensures t in all' && all'[t].eventId == all[t].eventId && all'[t].seatId == all[t].seatId
    {
      OneOf(w0.db.tickets, more, t);
      assert t in w0.db.tickets.Keys <==> t in tickets.Keys;
      assert t in more <==> t in more.Keys;
    }
    hide P.Unclaimed;
    forall t, u | t in all && u in all && t != u
      ensures all[t].eventId != all[u].eventId || all[t].seatId != all[u].seatId
    {
      assert all'[t].eventId != all'[u].eventId || all'[t].seatId != all'[u].seatId;
    }
  }

  lemma OrganizeKeepsJoint(s: Site, step: I.Step)
    requires Joint(s)
    ensures Joint(Next(s, Organize(step)))
  {
    ShopInv(s);
    hide I.Next, P.Next, OrganizerRun, BookingRun, PricesOf, EventsOf, P.UniqueSeats, Addable, Publishing.Inv;
    if !step.Sell? {
      var shop' := I.Next(s.shop, step);
      var more := NewTickets(s.shop.stock.tickets, shop'.stock.tickets);
      OneMoreOrganized(s.shop, step);
      AddedTickets(s, step);
      UniqueAfter(s.shop, step);
      PublishedIsBookingRun(s.world, more, PricesOf(shop'), EventsOf(shop'));
    }
  }

  lemma UniqueAfter(shop: I.Shop, step: I.Step)
    requires Publishing.Inv(shop)
    ensures P.UniqueSeats(I.Next(shop, step).stock.tickets)
  {
    Publishing.StepKeepsInv(shop, step);
    hide I.Next;
    Publishing.UniquePlaces(I.Next(shop, step).stock.tickets);
  }

  lemma StepKeepsJoint(s: Site, step: Step)
    requires Joint(s)
    ensures Joint(Next(s, step))
  {
    hide Joint, Next;
    match step
    case Organize(organizing) => OrganizeKeepsJoint(s, organizing);
    case Book(booking) => BookKeepsJoint(s, booking);
  }

  lemma StartIsJoint(clock: Time)
    ensures Joint(Start(clock))
  {
    var s := Start(clock);
    assert I.Exec(I.EMPTY, []) == I.EMPTY;
    NoSteps(s.world);
    assert IsBookingRun(s.world, [], s.world);
  }

  lemma {:induction false} RunKeepsJoint(s: Site, steps: seq<Step>)
    requires Joint(s)
    ensures Joint(Exec(s, steps))
    decreases |steps|
  {
    hide Joint, Next;
    if steps == [] {
    } else {
      StepKeepsJoint(s, steps[0]);
      RunKeepsJoint(Next(s, steps[0]), steps[1..]);
    }
  }

  /**
   The booking tables of any joint run are those of a run from an inventory published in full beforehand, and the shop
   is that of a run in which bookings are sales: what is proved of the runs of each part holds here.
   */
  lemma JointRunsAreRuns(clock: Time, steps: seq<Step>)
    ensures var s := Exec(Start(clock), steps); Shared(s) && OrganizerRun(s.shop) && BookingRun(s.world)
  {
    StartIsJoint(clock);
    RunKeepsJoint(Start(clock), steps);
  }

  // ---------- what is sold ----------

  /** The ticket is sold under the one tier of its seat's section, the seat being one of the event's venue. */
  ghost predicate SoldAtTier(s: Site, t: int) {
    && t in s.shop.stock.tickets && t in s.shop.stock.tierOf
    && var e, seat, tier := s.shop.stock.tickets[t].eventId, s.shop.stock.tickets[t].seatId, s.shop.stock.tierOf[t];
    && Publishing.Published(s.shop, e) && seat in I.SeatsOf(s.shop.seats, s.shop.events[e].venueId)
    && I.Matching(s.shop.tiers, e, s.shop.seats[seat].section) == {tier}
    && T.PriceOf(s.world.db.prices, t) == s.shop.tiers[tier].price
  }

  /** A seat of an event is sold by at most one confirmed booking, as one ticket. */
  lemma SeatsAreSoldOnce(clock: Time, steps: seq<Step>, s: Site, t: int, u: int)
    requires s == Exec(Start(clock), steps)
    requires t in s.world.db.tickets && u in s.world.db.tickets
    requires s.world.db.tickets[t].status == T.Sold && s.world.db.tickets[u].status == T.Sold
    requires Publishing.SamePlace(s.world.db.tickets[t], s.world.db.tickets[u])
    ensures t == u && s.world.db.tickets[t].bookingId.Some?
    ensures var b := s.world.db.tickets[t].bookingId.value;
            b in s.world.db.bookings && s.world.db.bookings[b].status == T.Confirmed
  {
    hide Exec;
    JointRunsAreRuns(clock, steps);
    ShopInv(s);
    WorldInv(s);
    SoldIsBooked(s.world, t);
    hide Joint;
  }

  lemma SoldIsBooked(w: P.World, t: int)
    requires Sales.AllInv(w) && t in w.db.tickets && w.db.tickets[t].status == T.Sold
    ensures w.db.tickets[t].bookingId.Some?
    ensures var b := w.db.tickets[t].bookingId.value; b in w.db.bookings && w.db.bookings[b].status == T.Confirmed
  {
    assert L.TicketOk(w.db.tickets[t], w.db.holds, w.clock);
    assert Sales.OwnerOk(w.db.tickets[t], w.db.bookings);
  }

  /** A confirmed booking is charged the sum of its seats' prices, each that of the one tier of the seat's section. */
  lemma BookingsPayTierPrices(clock: Time, steps: seq<Step>, s: Site, b: T.Uuid)
    requires s == Exec(Start(clock), steps)
    requires b in s.world.db.bookings && s.world.db.bookings[b].status == T.Confirmed
    ensures var sold := T.SoldTo(s.world.db.tickets, b);
            && sold != {} && (forall t :: t in sold ==> SoldAtTier(s, t))
            && s.world.db.bookings[b].total == T.Total(s.world.db.prices, InOrder(sold))
  {
    hide Exec;
    JointRunsAreRuns(clock, steps);
    ShopInv(s);
    WorldInv(s);
    hide Joint, OrganizerRun, BookingRun;
    Settlement.ConfirmedSeats(s.world, b);
    forall t | t in T.SoldTo(s.world.db.tickets, b)
      ensures SoldAtTier(s, t)
    {
      TicketAtTier(s, t);
    }
  }

  lemma TicketAtTier(s: Site, t: int)
    requires Shared(s) && Publishing.Inv(s.shop) && t in s.world.db.tickets
    ensures SoldAtTier(s, t)
  {
    var e := s.shop.stock.tickets[t].eventId;
    assert t in s.shop.stock.tickets.Keys;
    assert Publishing.PlaceOk(s.shop, s.shop.stock.tickets[t], s.shop.stock.tierOf[t]);
    assert Publishing.TierOk(s.shop, s.shop.stock.tierOf[t]);
    hide Publishing.Inv;
    Publishing.TicketHasItsTier(s.shop, e, t);
  }

  /** Every ticket has its seat and its price, so a hold always shows all the seats that carry it. */
  lemma TicketsAreJoined(clock: Time, steps: seq<Step>, s: Site, t: int)
    requires s == Exec(Start(clock), steps) && t in s.world.db.tickets
    ensures C.Joined(s.world.db, s.shop.seats, t)
  {
    hide Exec;
    JointRunsAreRuns(clock, steps);
    ShopInv(s);
    hide Joint, OrganizerRun, BookingRun;
    TicketIsJoined(s, t);
  }

  lemma TicketIsJoined(s: Site, t: int)
    requires Shared(s) && Publishing.Inv(s.shop) && t in s.world.db.tickets
    ensures C.Joined(s.world.db, s.shop.seats, t)
  {
    assert t in s.shop.stock.tickets.Keys;
    assert Publishing.PlaceOk(s.shop, s.shop.stock.tickets[t], s.shop.stock.tierOf[t]);
  }

  /** The ticket stands for a seat of the event's venue. */
  predicate IsSeatOf(shop: I.Shop, t: int, e: int) {
    && t in shop.stock.tickets && shop.stock.tickets[t].eventId == e
    && e in shop.events && shop.stock.tickets[t].seatId in shop.seats
    && shop.seats[shop.stock.tickets[t].seatId].venueId == shop.events[e].venueId
  }

  /**
   In every joint run a request is answered with a hold only on seats of the venue of an event that its organizer put
   on sale, and not before the time the organizer set.
   */
  lemma HoldsAreOnSale(clock: Time, steps: seq<Step>, s: Site, r: C.HoldRequest)
    requires s == Exec(Start(clock), steps) && C.CreateHold(s.world.db, r).1.Created?
    ensures var e := r.eventId;
            && e in s.shop.events && s.shop.events[e].status == T.OnSale && s.shop.events[e].onsaleAt <= r.now
            && forall t :: t in r.ticketIds ==> IsSeatOf(s.shop, t, e)
  {
    hide Exec;
    JointRunsAreRuns(clock, steps);
    ShopInv(s);
    hide Joint, OrganizerRun, BookingRun;
    A.SeatsDecide(s.world.db, r);
    hide C.CreateHold;
    forall t | t in r.ticketIds
      ensures IsSeatOf(s.shop, t, r.eventId)
    {
      assert A.Wins(s.world.db, r, t);
      TicketIsOfVenue(s, t);
    }
  }

  lemma TicketIsOfVenue(s: Site, t: int)
    requires Shared(s) && Publishing.Inv(s.shop) && t in s.world.db.tickets
    ensures IsSeatOf(s.shop, t, s.world.db.tickets[t].eventId)
  {
    assert t in s.shop.stock.tickets.Keys;
    assert Publishing.PlaceOk(s.shop, s.shop.stock.tickets[t], s.shop.stock.tierOf[t]);
  }

  // ---------- the amount charged, tier by tier ----------

  function UnderTier(tierOf: map<int, int>, sold: set<int>, p: int): set<int> {
    set t | t in sold && t in tierOf && tierOf[t] == p
  }

  /** Over the tiers in ps: the price of a tier times the seats sold under it. */
  function TierSum(tiers: map<int, I.Tier>, tierOf: map<int, int>, sold: set<int>, ps: set<int>): int
    requires ps <= tiers.Keys
    decreases |ps|
  {
    if ps == {} then 0
    else
      var p := Maximum(ps);
      tiers[p].price * |UnderTier(tierOf, sold, p)| + TierSum(tiers, tierOf, sold, ps - {p})
  }

  lemma {:induction false} SameTierSum(tiers: map<int, I.Tier>, tierOf: map<int, int>, a: set<int>, b: set<int>,
      ps: set<int>)
    requires ps <= tiers.Keys && forall p :: p in ps ==> UnderTier(tierOf, a, p) == UnderTier(tierOf, b, p)
    ensures TierSum(tiers, tierOf, a, ps) == TierSum(tiers, tierOf, b, ps)
    decreases |ps|
  {
    hide UnderTier;
    if ps == {} {
    } else {
      SameTierSum(tiers, tierOf, a, b, ps - {Maximum(ps)});
    }
  }

  ghost predicate Priced(prices: map<int, nat>, tiers: map<int, I.Tier>, tierOf: map<int, int>, sold: set<int>,
      ps: set<int>)
  {
    forall t :: t in sold ==>
      && t in tierOf && tierOf[t] in ps && tierOf[t] in tiers
      && t in prices && prices[t] == tiers[tierOf[t]].price
  }

  lemma WithoutTier(tierOf: map<int, int>, sold: set<int>, p: int)
    ensures var under := UnderTier(tierOf, sold, p);
            && under <= sold && sold - under + under == sold
            && forall q :: q != p ==> UnderTier(tierOf, sold - under, q) == UnderTier(tierOf, sold, q)
  {
  }

  lemma PricedWithout(prices: map<int, nat>, tiers: map<int, I.Tier>, tierOf: map<int, int>, sold: set<int>,
      ps: set<int>, p: int)
    requires Priced(prices, tiers, tierOf, sold, ps)
    ensures Priced(prices, tiers, tierOf, sold - UnderTier(tierOf, sold, p), ps - {p})
    ensures forall t :: t in UnderTier(tierOf, sold, p) ==> t in prices && p in tiers && prices[t] == tiers[p].price
  {
  }

  lemma TierTotal(prices: map<int, nat>, tiers: map<int, I.Tier>, under: set<int>, p: int)
    requires p in tiers && forall t :: t in under ==> t in prices && prices[t] == tiers[p].price
    ensures under <= prices.Keys
    ensures T.Total(prices, InOrder(under)) == tiers[p].price * |under|
  {
    hide T.Total, InOrder;
    if under == {} {
      Pricing.NoSeatsCostNothing(prices);
    } else {
      var t := AnyMember(under);
      Pricing.EqualPrices(prices, under, prices[t]);
    }
  }

  lemma OneTier(prices: map<int, nat>, tiers: map<int, I.Tier>, tierOf: map<int, int>, sold: set<int>, ps: set<int>,
      p: int)
    requires Priced(prices, tiers, tierOf, sold, ps) && p in ps && ps <= tiers.Keys
    ensures var under := UnderTier(tierOf, sold, p);
            T.Total(prices, InOrder(sold)) == T.Total(prices, InOrder(sold - under)) + tiers[p].price * |under|
  {
    hide T.Total, InOrder, UnderTier, Priced;
    var under := UnderTier(tierOf, sold, p);
    WithoutTier(tierOf, sold, p);
    PricedWithout(prices, tiers, tierOf, sold, ps, p);
    TierTotal(prices, tiers, under, p);
    Pricing.ApartAdds(prices, sold - under, under);
  }

  lemma {:induction false} SumOfTiers(prices: map<int, nat>, tiers: map<int, I.Tier>, tierOf: map<int, int>,
      sold: set<int>, ps: set<int>)
    requires Priced(prices, tiers, tierOf, sold, ps) && ps <= tiers.Keys
    ensures T.Total(prices, InOrder(sold)) == TierSum(tiers, tierOf, sold, ps)
    decreases |ps|
  {
    hide T.Total, InOrder, UnderTier;
    if ps == {} {
      forall t ensures t !in sold {
      }
      assert sold == {};
      Pricing.NoSeatsCostNothing(prices);
    } else {
      var p := Maximum(ps);
      var under := UnderTier(tierOf, sold, p);
      hide Priced;
      OneTier(prices, tiers, tierOf, sold, ps, p);
      WithoutTier(tierOf, sold, p);
      PricedWithout(prices, tiers, tierOf, sold, ps, p);
      SumOfTiers(prices, tiers, tierOf, sold - under, ps - {p});
      SameTierSum(tiers, tierOf, sold - under, sold, ps - {p});
    }
  }

  /** A confirmed booking costs, over the tiers of its event, the tier's price times the seats it has under the tier. */
  lemma BookingsPayPerTier(clock: Time, steps: seq<Step>, s: Site, b: T.Uuid)
    requires s == Exec(Start(clock), steps)
    requires b in s.world.db.bookings && s.world.db.bookings[b].status == T.Confirmed
    ensures var sold, e := T.SoldTo(s.world.db.tickets, b), s.world.db.bookings[b].eventId;
            s.world.db.bookings[b].total
            == TierSum(s.shop.tiers, s.shop.stock.tierOf, sold, Publishing.EventTiers(s.shop.tiers, e).Keys)
  {
    hide Exec;
    JointRunsAreRuns(clock, steps);
    ShopInv(s);
    WorldInv(s);
    hide Joint, OrganizerRun, BookingRun, T.Total, InOrder, TierSum;
    var sold, ps := T.SoldTo(s.world.db.tickets, b),
                    Publishing.EventTiers(s.shop.tiers, s.world.db.bookings[b].eventId).Keys;
    Settlement.ConfirmedSeats(s.world, b);
    SoldArePriced(s, b);
    SumOfTiers(s.world.db.prices, s.shop.tiers, s.shop.stock.tierOf, sold, ps);
  }

  lemma SoldArePriced(s: Site, b: T.Uuid)
    requires Shared(s) && Publishing.Inv(s.shop) && Sales.AllInv(s.world)
    requires b in s.world.db.bookings
    ensures Priced(s.world.db.prices, s.shop.tiers, s.shop.stock.tierOf, T.SoldTo(s.world.db.tickets, b),
                   Publishing.EventTiers(s.shop.tiers, s.world.db.bookings[b].eventId).Keys)
  {
    forall t | t in T.SoldTo(s.world.db.tickets, b)
      ensures t in s.shop.stock.tierOf && s.shop.stock.tierOf[t] in s.shop.tiers
      ensures s.shop.stock.tierOf[t] in Publishing.EventTiers(s.shop.tiers, s.world.db.bookings[b].eventId)
      ensures t in s.world.db.prices && s.world.db.prices[t] == s.shop.tiers[s.shop.stock.tierOf[t]].price
    {
      SoldIsPriced(s, b, t);
    }
  }

  lemma SoldIsPriced(s: Site, b: T.Uuid, t: int)
    requires Shared(s) && Publishing.Inv(s.shop) && Sales.AllInv(s.world)
    requires b in s.world.db.bookings && t in T.SoldTo(s.world.db.tickets, b)
    ensures t in s.shop.stock.tierOf && s.shop.stock.tierOf[t] in s.shop.tiers
    ensures s.shop.stock.tierOf[t] in Publishing.EventTiers(s.shop.tiers, s.world.db.bookings[b].eventId)
    ensures t in s.world.db.prices && s.world.db.prices[t] == s.shop.tiers[s.shop.stock.tierOf[t]].price
  {
    assert t in s.shop.stock.tickets.Keys;
    assert Publishing.PlaceOk(s.shop, s.shop.stock.tickets[t], s.shop.stock.tierOf[t]);
    assert Publishing.TierOk(s.shop, s.shop.stock.tierOf[t]);
    assert Sales.OwnerOk(s.world.db.tickets[t], s.world.db.bookings);
  }
}
