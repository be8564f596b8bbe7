/** Inventory of published events: one ticket per venue seat, priced by its section's tier, for good. */
module Publishing {
  import opened Common
  import opened Inventory
  import opened Text
  import L = Leases
  import P = Protocol
  import S = Seatmap
  import T = Tables

  // ---------- the invariant ----------

  ghost predicate SeatsOk(shop: Shop) {
    && (forall s :: s in shop.seats ==> s < shop.nextSeat && shop.seats[s].venueId in shop.venues)
    && UniqueSeats(shop.seats)
  }

  ghost predicate UniqueSeats(seats: map<int, Seat>) {
    forall s, r :: s in seats && r in seats && seats[s] == seats[r] ==> s == r
  }

  ghost predicate EventsOk(shop: Shop) {
    && 0 < shop.nextEvent
    && forall e :: e in shop.events ==>
         0 < e < shop.nextEvent && shop.events[e].venueId in shop.venues && shop.events[e].version >= 1
  }

  ghost predicate TiersOk(shop: Shop) {
    && (forall p :: p in shop.tiers ==> TierOk(shop, p))
    && UniqueTiers(shop.tiers)
  }

  predicate TierOk(shop: Shop, p: int)
    requires p in shop.tiers
  {
    && p < shop.nextTier && shop.tiers[p].eventId in shop.events
    && Trimmed(shop.tiers[p].section) == shop.tiers[p].section && shop.tiers[p].price >= 0
  }

  predicate SameSection(p: Tier, q: Tier) {
    p.eventId == q.eventId && p.section == q.section
  }

  predicate SamePlace(t: T.Ticket, u: T.Ticket) {
    t.eventId == u.eventId && t.seatId == u.seatId
  }

  /** UNIQUE (event_id, section). */
  ghost predicate UniqueTiers(tiers: map<int, Tier>) {
    forall p, q :: p in tiers && q in tiers && SameSection(tiers[p], tiers[q]) ==> p == q
  }

  /** A ticket is of a published event, for a seat of its venue, under that event's tier for the seat's section. */
  predicate PlaceOk(shop: Shop, ticket: T.Ticket, tier: int) {
    var e, s := ticket.eventId, ticket.seatId;
    && e in shop.events && shop.events[e].status != T.Draft
    && s in shop.seats && shop.seats[s].venueId == shop.events[e].venueId
    && tier in shop.tiers && shop.tiers[tier].eventId == e && shop.tiers[tier].section == shop.seats[s].section
  }

  ghost predicate StockOk(shop: Shop) {
    && shop.stock.tierOf.Keys == shop.stock.tickets.Keys
    && forall t :: t in shop.stock.tickets ==>
         t < shop.stock.next && PlaceOk(shop, shop.stock.tickets[t], shop.stock.tierOf[t])
  }

  /** UNIQUE (event_id, seat_id). */
  ghost predicate OnePerSeat(tickets: map<int, T.Ticket>) {
    forall t, u :: t in tickets && u in tickets && SamePlace(tickets[t], tickets[u]) ==> t == u
  }

  predicate Published(shop: Shop, e: int) {
    e in shop.events && shop.events[e].status != T.Draft
  }

  ghost predicate Covered(shop: Shop) {
    forall e, s :: Published(shop, e) && s in SeatsOf(shop.seats, shop.events[e].venueId) ==>
                     HasTicket(shop.stock.tickets, e, s)
  }

  ghost predicate Inv(shop: Shop) {
    && SeatsOk(shop) && EventsOk(shop) && TiersOk(shop) && StockOk(shop)
    && OnePerSeat(shop.stock.tickets) && Covered(shop)
  }

  // ---------- adding seats ----------

  lemma {:induction false} SeatsAdded(seats: map<int, Seat>, next: int, rows: seq<Seat>)
    requires UniqueSeats(seats) && forall s :: s in seats ==> s < next
    ensures var (seats', next') := SeatsInserted(seats, next, rows);
            && UniqueSeats(seats')
            && (forall s :: s in seats ==> s in seats' && seats'[s] == seats[s])
            && (forall s :: s in seats' ==> s < next' && (s in seats || (next <= s && seats'[s] in rows)))
            && (forall s :: next <= s < next' ==> s in seats')
            && next <= next'
  {
    if rows != [] {
      SeatsAdded(seats, next, rows[..|rows| - 1]);
      var (before, n) := SeatsInserted(seats, next, rows[..|rows| - 1]);
    }
  }

  /** A row is present afterwards exactly if it was before or was asked for. */
  lemma {:induction false} RowsPresent(seats: map<int, Seat>, next: int, rows: seq<Seat>, row: Seat)
    requires UniqueSeats(seats) && forall s :: s in seats ==> s < next
    ensures row in SeatsInserted(seats, next, rows).0.Values <==> row in seats.Values || row in rows
  {
    if rows != [] {
      var front, last := rows[..|rows| - 1], rows[|rows| - 1];
      RowsPresent(seats, next, front, row);
      SeatsAdded(seats, next, front);
      var (before, n) := SeatsInserted(seats, next, front);
      assert rows == front + [last];
      if last !in before.Values {
        assert before[n := last].Values == before.Values + {last} by {
          assert forall s :: s in before ==> before[n := last][s] == before[s];
          assert before[n := last][n] == last;
        }
      }
    }
  }

  lemma AddSeatsKeepsInv(shop: Shop, v: int, specs: seq<S.SectionSpec>)
    requires Inv(shop)
    ensures Inv(Committed(shop, AddSeatsTx(shop, v, specs)))
  {
    var r := AddSeatsTx(shop, v, specs);
    if r.Ok? {
      var rows := SeatRows(v, S.Generated(specs).value);
      SeatsAdded(shop.seats, shop.nextSeat, rows);
      var shop' := r.value.0;
      forall s | s in shop'.seats
        ensures s < shop'.nextSeat && shop'.seats[s].venueId in shop'.venues
        ensures s !in shop.seats ==> shop'.seats[s].venueId == v
      {
      }
      forall e, s | Published(shop', e) && s in SeatsOf(shop'.seats, shop'.events[e].venueId)
        ensures HasTicket(shop'.stock.tickets, e, s)
      {
        assert Published(shop, e) && s in SeatsOf(shop.seats, shop.events[e].venueId);
      }
    }
  }

  // ---------- creating and editing events ----------

  lemma {:induction false} TiersAdded(tiers: map<int, Tier>, next: int, e: int, specs: seq<TierSpec>)
    ensures var tiers' := TiersInserted(tiers, next, e, specs);
            && (forall p :: p in tiers' <==> p in tiers || next <= p < next + |specs|)
            && (forall p :: p in tiers && p < next ==> tiers'[p] == tiers[p])
            && (forall p :: next <= p < next + |specs| ==>
                  tiers'[p] == Tier(e, Trimmed(specs[p - next].section), specs[p - next].price))
  {
    hide Trimmed;
    if specs != [] {
      var front := specs[..|specs| - 1];
      TiersAdded(tiers, next, e, front);
    }
  }

  /** The state after the insert, with the tiers of earlier events as they were. */
  lemma CreateEventTiers(shop: Shop, organizer: string, req: EventRequest, shop': Shop, p: int)
    requires Inv(shop) && CreateEventTx(shop, organizer, req) == Ok((shop', shop.nextEvent))
    requires p in shop'.tiers
    ensures TierOk(shop', p)
    ensures if p in shop.tiers then shop'.tiers[p] == shop.tiers[p] && shop'.tiers[p].eventId < shop.nextEvent
            else 0 <= p - shop.nextTier < |req.tiers| &&
                 shop'.tiers[p] == Tier(shop.nextEvent, Trimmed(req.tiers[p - shop.nextTier].section),
                                        req.tiers[p - shop.nextTier].price)
  {
    TiersAdded(shop.tiers, shop.nextTier, shop.nextEvent, req.tiers);
    if p in shop.tiers {
      assert TierOk(shop, p);
    } else {
      TrimmedTwice(req.tiers[p - shop.nextTier].section);
    }
  }

  lemma CreateEventKeepsTiers(shop: Shop, organizer: string, req: EventRequest, shop': Shop)
    requires Inv(shop) && CreateEventTx(shop, organizer, req) == Ok((shop', shop.nextEvent))
    ensures TiersOk(shop') && forall p :: p in shop.tiers ==> p in shop'.tiers && shop'.tiers[p] == shop.tiers[p]
  {
    TiersAdded(shop.tiers, shop.nextTier, shop.nextEvent, req.tiers);
    forall p | p in shop'.tiers
      ensures TierOk(shop', p)
    {
      CreateEventTiers(shop, organizer, req, shop', p);
    }
    forall p, q | p in shop'.tiers && q in shop'.tiers && SameSection(shop'.tiers[p], shop'.tiers[q])
      ensures p == q
    {
      CreateEventTiers(shop, organizer, req, shop', p);
      CreateEventTiers(shop, organizer, req, shop', q);
    }
    forall p | p in shop.tiers
      ensures p in shop'.tiers && shop'.tiers[p] == shop.tiers[p]
    {
      CreateEventTiers(shop, organizer, req, shop', p);
    }
  }

  lemma CreateEventKeepsInv(shop: Shop, organizer: string, req: EventRequest)
    requires Inv(shop)
    ensures Inv(Committed(shop, CreateEventTx(shop, organizer, req)))
  {
    var r := CreateEventTx(shop, organizer, req);
    if r.Ok? {
      var shop' := r.value.0;
      CreateEventKeepsTiers(shop, organizer, req, shop');
      forall ticket, tier | PlaceOk(shop, ticket, tier)
        ensures PlaceOk(shop', ticket, tier)
      {
      }
      assert forall f :: Published(shop', f) ==> Published(shop, f);
    }
  }

  lemma UpdateEventKeepsInv(shop: Shop, organizer: string, e: int, edit: Edit)
    requires Inv(shop)
    ensures Inv(Next(shop, UpdateEvent(organizer, e, edit)))
  {
    var shop' := Next(shop, UpdateEvent(organizer, e, edit));
    forall p | p in shop.tiers
      ensures TierOk(shop', p)
    {
      assert TierOk(shop, p);
    }
    forall ticket, tier | PlaceOk(shop, ticket, tier)
      ensures PlaceOk(shop', ticket, tier)
    {
    }
    forall f | Published(shop', f)
      ensures Published(shop, f) && shop'.events[f].venueId == shop.events[f].venueId
    {
    }
  }

  // ---------- publishing ----------

  /** The rows ids[0], ids[1], ... of the seats table have become tickets stock.next, stock.next + 1, ... of e. */
  ghost predicate Added(stock: Stock, stock': Stock, e: int, seats: map<int, Seat>, tiers: map<int, Tier>,
      ids: seq<int>)
    requires forall s :: s in ids ==> s in seats
  {
    && stock'.next == stock.next + |ids|
    && stock.tierOf.Keys == stock.tickets.Keys && stock'.tierOf.Keys == stock'.tickets.Keys
    && (forall t :: t in stock'.tickets <==> t in stock.tickets || stock.next <= t < stock'.next)
    && (forall t :: t in stock.tickets ==>
          stock'.tickets[t] == stock.tickets[t] && stock'.tierOf[t] == stock.tierOf[t])
    && (forall t :: stock.next <= t < stock'.next ==>
          && stock'.tickets[t] == NewTicket(e, ids[t - stock.next])
          && stock'.tierOf[t] in Matching(tiers, e, seats[ids[t - stock.next]].section))
  }

  ghost predicate HasNone(stock: Stock, e: int) {
    && stock.tierOf.Keys == stock.tickets.Keys
    && forall t :: t in stock.tickets ==> t < stock.next && stock.tickets[t].eventId != e
  }

  lemma OnlyTier(tiers: map<int, Tier>, e: int, section: string)
    requires UniqueTiers(tiers) && Matching(tiers, e, section) != {}
    ensures exists p :: Matching(tiers, e, section) == {p} && InOrder({p}) == [p]
  {
    var p := AnyMember(Matching(tiers, e, section));
    forall q
      ensures q in Matching(tiers, e, section) <==> q in {p}
    {
      if q in Matching(tiers, e, section) {
        assert SameSection(tiers[p], tiers[q]);
      }
    }
    assert Matching(tiers, e, section) == {p};
    assert InOrder({p})[0] in InOrder({p});
  }

  lemma AddedStep(stock: Stock, before: Stock, e: int, seats: map<int, Seat>, tiers: map<int, Tier>, ids: seq<int>,
                  s: int, p: int)
    requires (forall r :: r in ids + [s] ==> r in seats) && s in seats && HasNone(stock, e)
    requires Added(stock, before, e, seats, tiers, ids)
    requires p in Matching(tiers, e, seats[s].section) && !HasTicket(before.tickets, e, s)
    ensures Added(stock, TicketInserted(before, e, s, p), e, seats, tiers, ids + [s])
  {
    hide Matching, HasTicket;
    var after := TicketInserted(before, e, s, p);
    assert after.tickets.Keys == before.tickets.Keys + {before.next};
    assert after.tierOf.Keys == before.tierOf.Keys + {before.next};
  }

  lemma NoTicketYet(stock: Stock, before: Stock, e: int, seats: map<int, Seat>, tiers: map<int, Tier>, ids: seq<int>,
      s: int)
    requires (forall r :: r in ids ==> r in seats) && s !in ids && HasNone(stock, e)
    requires Added(stock, before, e, seats, tiers, ids)
    ensures !HasTicket(before.tickets, e, s)
  {
    forall t | t in before.tickets && before.tickets[t].eventId == e
      ensures before.tickets[t].seatId != s
    {
      if stock.next <= t {
        assert ids[t - stock.next] in ids;
      }
    }
  }

  lemma SeatJoined(stock: Stock, before: Stock, e: int, seats: map<int, Seat>, tiers: map<int, Tier>, ids: seq<int>,
      s: int)
    requires (forall r :: r in ids + [s] ==> r in seats) && s in seats && s !in ids && HasNone(stock, e)
    requires Added(stock, before, e, seats, tiers, ids)
    requires UniqueTiers(tiers) && Matching(tiers, e, seats[s].section) != {}
    ensures Added(stock, SeatTicketsInserted(before, e, s, InOrder(Matching(tiers, e, seats[s].section))),
                  e, seats, tiers, ids + [s])
  {
    OnlyTier(tiers, e, seats[s].section);
    var p :| Matching(tiers, e, seats[s].section) == {p} && InOrder({p}) == [p];
    assert [p][..0] == [];
    assert SeatTicketsInserted(before, e, s, [p]) == TicketInserted(before, e, s, p);
    NoTicketYet(stock, before, e, seats, tiers, ids, s);
    AddedStep(stock, before, e, seats, tiers, ids, s, p);
  }

  /** Joining priced seats with the tiers yields exactly one ticket for each. */
  lemma {:induction false} OneTicketEach(stock: Stock, e: int, seats: map<int, Seat>, tiers: map<int, Tier>,
      ids: seq<int>)
    requires (forall s :: s in ids ==> s in seats) && Ascending(ids)
    requires UniqueTiers(tiers) && HasNone(stock, e)
    requires forall s :: s in ids ==> Matching(tiers, e, seats[s].section) != {}
    ensures Added(stock, TicketsInserted(stock, e, seats, tiers, ids), e, seats, tiers, ids)
  {
    if ids != [] {
      var front, s := ids[..|ids| - 1], ids[|ids| - 1];
      OneTicketEach(stock, e, seats, tiers, front);
      assert s in ids && s !in front && front + [s] == ids;
      SeatJoined(stock, TicketsInserted(stock, e, seats, tiers, front), e, seats, tiers, front, s);
    }
  }

  /** No ticket has the id the table will give next. */
  ghost predicate Numbered(stock: Stock) {
    forall t :: t in stock.tickets ==> t < stock.next
  }

  lemma InsertOnce(stock: Stock, e: int, s: int, tier: int)
    requires OnePerSeat(stock.tickets) && Numbered(stock)
    ensures var stock' := TicketInserted(stock, e, s, tier);
            && OnePerSeat(stock'.tickets) && Numbered(stock')
            && (HasTicket(stock.tickets, e, s) ==> stock' == stock)
            && (forall t :: t in stock.tickets ==> t in stock'.tickets && stock'.tickets[t] == stock.tickets[t])
            && stock.next <= stock'.next
  {
  }

  lemma {:induction false} SeatInsertedOnce(stock: Stock, e: int, s: int, tierIds: seq<int>)
    requires OnePerSeat(stock.tickets) && Numbered(stock)
    ensures var stock' := SeatTicketsInserted(stock, e, s, tierIds);
            && OnePerSeat(stock'.tickets) && Numbered(stock')
            && (forall t :: t in stock.tickets ==> t in stock'.tickets && stock'.tickets[t] == stock.tickets[t])
            && (HasTicket(stock.tickets, e, s) ==> stock' == stock)
            && stock.next <= stock'.next
  {
    hide OnePerSeat, Numbered, HasTicket;
    if tierIds != [] {
      var front := tierIds[..|tierIds| - 1];
      SeatInsertedOnce(stock, e, s, front);
      hide TicketInserted;
      InsertOnce(SeatTicketsInserted(stock, e, s, front), e, s, tierIds[|tierIds| - 1]);
    }
  }

  /** Whatever tickets there are already, the insert leaves them alone and never gives a seat a second one. */
  lemma {:induction false} NeverTwoForSeat(stock: Stock, e: int, seats: map<int, Seat>, tiers: map<int, Tier>,
      ids: seq<int>)
    requires (forall s :: s in ids ==> s in seats) && OnePerSeat(stock.tickets) && Numbered(stock)
    ensures var stock' := TicketsInserted(stock, e, seats, tiers, ids);
            && OnePerSeat(stock'.tickets) && Numbered(stock')
            && (forall t :: t in stock.tickets ==> t in stock'.tickets && stock'.tickets[t] == stock.tickets[t])
            && ((forall s :: s in ids ==> HasTicket(stock.tickets, e, s)) ==> stock' == stock)
  {
    hide OnePerSeat, Numbered, HasTicket;
    if ids != [] {
      var front, s := ids[..|ids| - 1], ids[|ids| - 1];
      assert s in ids;
      NeverTwoForSeat(stock, e, seats, tiers, front);
      SeatInsertedOnce(TicketsInserted(stock, e, seats, tiers, front), e, s,
                       InOrder(Matching(tiers, e, seats[s].section)));
      hide SeatTicketsInserted, InOrder, Matching;
    }
  }

  lemma PricedSeat(shop: Shop, e: int, v: int, s: int)
    requires !Unpriced(shop, e, v) && s in SeatsOf(shop.seats, v)
    ensures Matching(shop.tiers, e, shop.seats[s].section) != {}
  {
    assert shop.seats[s].section in SectionsOf(shop.seats, v);
  }

  lemma DraftHasNoTickets(shop: Shop, e: int)
    requires Inv(shop) && e in shop.events && shop.events[e].status == T.Draft
    ensures HasNone(shop.stock, e)
  {
  }

  lemma MaterialisedIsComplete(shop: Shop, e: int, v: int)
    requires Inv(shop) && e in shop.events && shop.events[e].status == T.Draft && !Unpriced(shop, e, v)
    ensures Added(shop.stock, Materialised(shop, e, v), e, shop.seats, shop.tiers, InOrder(SeatsOf(shop.seats, v)))
  {
    DraftHasNoTickets(shop, e);
    forall s | s in SeatsOf(shop.seats, v)
      ensures Matching(shop.tiers, e, shop.seats[s].section) != {}
    {
      PricedSeat(shop, e, v, s);
    }
    OneTicketEach(shop.stock, e, shop.seats, shop.tiers, InOrder(SeatsOf(shop.seats, v)));
  }

  /** A draft of the caller's, at a venue with seats, every section of it priced. */
  ghost predicate Publishable(shop: Shop, organizer: string, e: int) {
    && e in shop.events && shop.events[e].organizer == organizer && shop.events[e].status == T.Draft
    && SeatsOf(shop.seats, shop.events[e].venueId) != {}
    && forall section :: section in SectionsOf(shop.seats, shop.events[e].venueId) ==>
                           Matching(shop.tiers, e, section) != {}
  }

  lemma NothingRefusedIff(shop: Shop, organizer: string, e: int)
    ensures PublishRefusal(shop, organizer, e).None? <==> Publishable(shop, organizer, e)
  {
  }

  lemma MaterialiseSucceeds(shop: Shop, e: int)
    requires Inv(shop) && e in shop.events && shop.events[e].status == T.Draft
    requires !Unpriced(shop, e, shop.events[e].venueId)
    ensures MaterialiseTx(shop, e).1 == Ok(|SeatsOf(shop.seats, shop.events[e].venueId)|)
  {
    var v := shop.events[e].venueId;
    MaterialisedIsComplete(shop, e, v);
    assert Materialised(shop, e, v).next == shop.stock.next + |InOrder(SeatsOf(shop.seats, v))|;
  }

  lemma PublishOutcome(shop: Shop, organizer: string, e: int)
    requires Inv(shop)
    ensures var refusal, r := PublishRefusal(shop, organizer, e), PublishEventTx(shop, organizer, e);
            if refusal.Some? then r == Err(refusal.value) && refusal.value != Incomplete
            else r.Ok? && r.value.1 == |SeatsOf(shop.seats, shop.events[e].venueId)|
  {
    if PublishRefusal(shop, organizer, e).None? {
      MaterialiseSucceeds(shop, e);
    }
  }

  /** Publishing succeeds exactly for what is publishable; the incomplete-inventory branch is dead. */
  lemma PublishSucceedsIff(shop: Shop, organizer: string, e: int)
    requires Inv(shop)
    ensures PublishEventTx(shop, organizer, e).Ok? <==> Publishable(shop, organizer, e)
    ensures PublishEventTx(shop, organizer, e) != Err(Incomplete)
    ensures PublishEventTx(shop, organizer, e).Ok? ==>
              PublishEventTx(shop, organizer, e).value.1 == |SeatsOf(shop.seats, shop.events[e].venueId)|
  {
    NothingRefusedIff(shop, organizer, e);
    PublishOutcome(shop, organizer, e);
  }

  /** On any tables, sound or not: nothing is published short of one ticket created for each seat of the venue. */
  lemma PublishedIsComplete(shop: Shop, organizer: string, e: int)
    ensures var r := PublishEventTx(shop, organizer, e);
            && (r.Ok? ==>
                  && e in shop.events && r.value.1 == |SeatsOf(shop.seats, shop.events[e].venueId)|
                  && r.value.0.stock.next == shop.stock.next + r.value.1
                  && r.value.0.events == shop.events[e := shop.events[e].(status := T.OnSale,
                                                                          version := shop.events[e].version + 1)])
            && (r == Err(Incomplete) ==> e in shop.events && shop.events[e].status == T.Draft)
  {
    hide Materialised, Unpriced, SeatsOf;
  }

  lemma PublishCommits(shop: Shop, organizer: string, e: int)
    ensures var r := PublishEventTx(shop, organizer, e);
            && Next(shop, PublishEvent(organizer, e)) == (if r.Ok? then r.value.0 else shop)
            && (r.Ok? ==> e in shop.events)
  {
  }

  /** What a successful publish leaves behind. */
  ghost predicate PublishedAs(shop: Shop, e: int, shop': Shop, ids: seq<int>)
    requires e in shop.events
  {
    && shop.events[e].status == T.Draft
    && ids == InOrder(SeatsOf(shop.seats, shop.events[e].venueId))
    && Added(shop.stock, shop'.stock, e, shop.seats, shop.tiers, ids)
    && HasNone(shop.stock, e)
    && shop' == shop.(stock := shop'.stock, events := shop.events[e := RowAfter(shop.events[e])])
  }

  lemma PublishShape(shop: Shop, organizer: string, e: int)
    requires Inv(shop) && PublishEventTx(shop, organizer, e).Ok?
    ensures PublishedAs(shop, e, PublishEventTx(shop, organizer, e).value.0,
                        InOrder(SeatsOf(shop.seats, shop.events[e].venueId)))
  {
    MaterialisedIsComplete(shop, e, shop.events[e].venueId);
    DraftHasNoTickets(shop, e);
  }

  lemma PlacesStayOk(shop: Shop, e: int, shop': Shop, ids: seq<int>, ticket: T.Ticket, tier: int)
    requires e in shop.events && PublishedAs(shop, e, shop', ids) && PlaceOk(shop, ticket, tier)
    ensures PlaceOk(shop', ticket, tier)
  {
  }

  lemma NewPlaceOk(shop: Shop, e: int, shop': Shop, ids: seq<int>, t: int)
    requires e in shop.events && PublishedAs(shop, e, shop', ids) && shop.stock.next <= t < shop'.stock.next
    ensures PlaceOk(shop', shop'.stock.tickets[t], shop'.stock.tierOf[t])
    ensures shop'.stock.tickets[t].eventId == e
  {
    assert ids[t - shop.stock.next] in ids;
  }

  lemma PublishKeepsStock(shop: Shop, e: int, shop': Shop, ids: seq<int>)
    requires Inv(shop) && e in shop.events && PublishedAs(shop, e, shop', ids)
    ensures StockOk(shop')
  {
    forall t | t in shop'.stock.tickets
      ensures t < shop'.stock.next && PlaceOk(shop', shop'.stock.tickets[t], shop'.stock.tierOf[t])
    {
      if t in shop.stock.tickets {
        PlacesStayOk(shop, e, shop', ids, shop.stock.tickets[t], shop.stock.tierOf[t]);
      } else {
        NewPlaceOk(shop, e, shop', ids, t);
      }
    }
  }

  lemma AddedKeepsOnePerSeat(stock: Stock, stock': Stock, e: int, seats: map<int, Seat>, tiers: map<int, Tier>,
      ids: seq<int>)
    requires (forall s :: s in ids ==> s in seats) && Ascending(ids)
    requires Added(stock, stock', e, seats, tiers, ids) && HasNone(stock, e) && OnePerSeat(stock.tickets)
    ensures OnePerSeat(stock'.tickets)
  {
    forall t, u | t in stock'.tickets && u in stock'.tickets && SamePlace(stock'.tickets[t], stock'.tickets[u])
      ensures t == u
    {
      if t in stock.tickets && u in stock.tickets {
        assert SamePlace(stock.tickets[t], stock.tickets[u]);
      } else {
        var n := stock.next;
        assert t !in stock.tickets && u !in stock.tickets;
        assert ids[t - n] == ids[u - n];
      }
    }
  }

  lemma AddedCovers(stock: Stock, stock': Stock, e: int, seats: map<int, Seat>, tiers: map<int, Tier>, ids: seq<int>,
      f: int, s: int)
    requires forall s :: s in ids ==> s in seats
    requires Added(stock, stock', e, seats, tiers, ids)
    requires HasTicket(stock.tickets, f, s) || (f == e && s in ids)
    ensures HasTicket(stock'.tickets, f, s)
  {
    if HasTicket(stock.tickets, f, s) {
      var t :| t in stock.tickets && stock.tickets[t].eventId == f && stock.tickets[t].seatId == s;
      assert t in stock'.tickets;
    } else {
      var k :| 0 <= k < |ids| && ids[k] == s;
      var t := stock.next + k;
      assert t in stock'.tickets && stock'.tickets[t] == NewTicket(e, s);
    }
  }

  lemma PublishKeepsInv(shop: Shop, organizer: string, e: int)
    requires Inv(shop)
    ensures Inv(Committed(shop, PublishEventTx(shop, organizer, e)))
  {
    var r := PublishEventTx(shop, organizer, e);
    if r.Ok? {
      var shop' := r.value.0;
      var ids := InOrder(SeatsOf(shop.seats, shop.events[e].venueId));
      PublishShape(shop, organizer, e);
      PublishKeepsStock(shop, e, shop', ids);
      AddedKeepsOnePerSeat(shop.stock, shop'.stock, e, shop.seats, shop.tiers, ids);
      PublishKeepsRest(shop, e, shop', ids);
    }
  }

  lemma PublishKeepsRest(shop: Shop, e: int, shop': Shop, ids: seq<int>)
    requires Inv(shop) && e in shop.events && PublishedAs(shop, e, shop', ids)
    ensures SeatsOk(shop') && EventsOk(shop') && TiersOk(shop') && Covered(shop')
  {
    forall p | p in shop.tiers
      ensures TierOk(shop', p)
    {
      assert TierOk(shop, p);
    }
    forall f, s | Published(shop', f) && s in SeatsOf(shop'.seats, shop'.events[f].venueId)
      ensures HasTicket(shop'.stock.tickets, f, s)
    {
      if f != e {
        assert Published(shop, f) && s in SeatsOf(shop.seats, shop.events[f].venueId);
      }
      AddedCovers(shop.stock, shop'.stock, e, shop.seats, shop.tiers, ids, f, s);
    }
  }

  // ---------- every run ----------

  lemma SellKeepsInv(shop: Shop, tickets: map<int, T.Ticket>)
    requires Inv(shop)
    ensures Inv(Next(shop, Sell(tickets)))
  {
    if SamePlaces(shop.stock.tickets, tickets) {
      var shop' := shop.(stock := shop.stock.(tickets := tickets));
      forall p | p in shop.tiers
        ensures TierOk(shop', p)
      {
        assert TierOk(shop, p);
      }
      forall t | t in tickets
        ensures t in shop.stock.tickets && SamePlace(tickets[t], shop.stock.tickets[t])
        ensures PlaceOk(shop', tickets[t], shop'.stock.tierOf[t])
      {
        assert t in tickets.Keys;
        assert PlaceOk(shop, shop.stock.tickets[t], shop.stock.tierOf[t]);
      }
      forall t, u | t in tickets && u in tickets && SamePlace(tickets[t], tickets[u])
        ensures t == u
      {
        assert SamePlace(shop.stock.tickets[t], shop.stock.tickets[u]);
      }
      forall e, s | HasTicket(shop.stock.tickets, e, s)
        ensures HasTicket(tickets, e, s)
      {
        SoldKeepsPlace(shop.stock.tickets, tickets, e, s);
      }
      assert forall e :: Published(shop', e) <==> Published(shop, e);
    }
  }

  lemma SoldKeepsPlace(tickets: map<int, T.Ticket>, tickets': map<int, T.Ticket>, e: int, s: int)
    requires SamePlaces(tickets, tickets') && HasTicket(tickets, e, s)
    ensures HasTicket(tickets', e, s)
  {
    var t :| t in tickets && tickets[t].eventId == e && tickets[t].seatId == s;
    assert t in tickets.Keys && t in tickets'.Keys;
    assert tickets'[t].eventId == e && tickets'[t].seatId == s;
  }

  lemma AddVenueKeepsInv(shop: Shop, v: int)
    requires Inv(shop)
    ensures Inv(Next(shop, AddVenue(v)))
  {
    var shop' := Next(shop, AddVenue(v));
    forall p | p in shop.tiers
      ensures TierOk(shop', p)
    {
      assert TierOk(shop, p);
    }
    assert forall e :: Published(shop', e) <==> Published(shop, e);
    assert forall t :: t in shop.stock.tickets ==> PlaceOk(shop, shop.stock.tickets[t], shop.stock.tierOf[t]);
  }

  lemma StepKeepsInv(shop: Shop, step: Step)
    requires Inv(shop)
    ensures Inv(Next(shop, step))
  {
    match step
    case AddVenue(v) => AddVenueKeepsInv(shop, v);
    case AddSeats(v, specs) => AddSeatsKeepsInv(shop, v, specs);
    case CreateEvent(organizer, req) => CreateEventKeepsInv(shop, organizer, req);
    case UpdateEvent(organizer, e, edit) => UpdateEventKeepsInv(shop, organizer, e, edit);
    case PublishEvent(organizer, e) => PublishKeepsInv(shop, organizer, e);
    case Sell(tickets) => SellKeepsInv(shop, tickets);
  }

  lemma {:induction false} RunKeepsInv(shop: Shop, steps: seq<Step>)
    requires Inv(shop)
    ensures Inv(Exec(shop, steps))
    decreases |steps|
  {
    if steps == [] {
    } else {
      StepKeepsInv(shop, steps[0]);
      RunKeepsInv(Next(shop, steps[0]), steps[1..]);
    }
  }

  function TicketsForSeat(tickets: map<int, T.Ticket>, e: int, s: int): set<int> {
    set t | t in tickets && tickets[t].eventId == e && tickets[t].seatId == s
  }

  lemma SeatHasOneTicket(shop: Shop, e: int, s: int)
    requires Inv(shop) && Published(shop, e) && s in SeatsOf(shop.seats, shop.events[e].venueId)
    ensures exists t :: TicketsForSeat(shop.stock.tickets, e, s) == {t}
  {
    assert HasTicket(shop.stock.tickets, e, s);
    var t :| t in shop.stock.tickets && shop.stock.tickets[t].eventId == e && shop.stock.tickets[t].seatId == s;
    forall u
      ensures u in TicketsForSeat(shop.stock.tickets, e, s) <==> u in {t}
    {
      if u in TicketsForSeat(shop.stock.tickets, e, s) {
        assert SamePlace(shop.stock.tickets[u], shop.stock.tickets[t]);
      }
    }
    assert TicketsForSeat(shop.stock.tickets, e, s) == {t};
  }

  lemma TicketHasItsTier(shop: Shop, e: int, t: int)
    requires Inv(shop) && e in shop.events && t in TicketsOf(shop.stock.tickets, e)
    ensures t in shop.stock.tierOf
    ensures var s := shop.stock.tickets[t].seatId;
            && s in SeatsOf(shop.seats, shop.events[e].venueId)
            && Matching(shop.tiers, e, shop.seats[s].section) == {shop.stock.tierOf[t]}
  {
    assert t in shop.stock.tickets.Keys;
    assert PlaceOk(shop, shop.stock.tickets[t], shop.stock.tierOf[t]);
    var section := shop.seats[shop.stock.tickets[t].seatId].section;
    assert shop.stock.tierOf[t] in Matching(shop.tiers, e, section);
    OnlyTier(shop.tiers, e, section);
  }

  /** A published event's tickets are in bijection with its venue's seats, each under the one tier of its section. */
  lemma TicketsMatchSeats(steps: seq<Step>, shop: Shop, e: int)
    requires shop == Exec(EMPTY, steps) && Published(shop, e)
    ensures forall s :: s in SeatsOf(shop.seats, shop.events[e].venueId) ==>
              exists t :: TicketsForSeat(shop.stock.tickets, e, s) == {t}
    ensures forall t :: t in TicketsOf(shop.stock.tickets, e) ==>
              && t in shop.stock.tierOf
              && shop.stock.tickets[t].seatId in SeatsOf(shop.seats, shop.events[e].venueId)
              && Matching(shop.tiers, e, shop.seats[shop.stock.tickets[t].seatId].section) == {shop.stock.tierOf[t]}
  {
    RunKeepsInv(EMPTY, steps);
    forall s | s in SeatsOf(shop.seats, shop.events[e].venueId)
      ensures exists t :: TicketsForSeat(shop.stock.tickets, e, s) == {t}
    {
      SeatHasOneTicket(shop, e, s);
    }
    forall t | t in TicketsOf(shop.stock.tickets, e)
      ensures t in shop.stock.tierOf && shop.stock.tickets[t].seatId in SeatsOf(shop.seats, shop.events[e].venueId)
      ensures Matching(shop.tiers, e, shop.seats[shop.stock.tickets[t].seatId].section) == {shop.stock.tierOf[t]}
    {
      TicketHasItsTier(shop, e, t);
    }
  }

  /** A DRAFT event has no tickets, so a failed or pending publish exposes none. */
  lemma DraftsHaveNoTickets(steps: seq<Step>, shop: Shop, e: int)
    requires shop == Exec(EMPTY, steps) && e in shop.events && !Published(shop, e)
    ensures TicketsOf(shop.stock.tickets, e) == {}
  {
    RunKeepsInv(EMPTY, steps);
    DraftHasNoTickets(shop, e);
    forall t
      ensures t !in TicketsOf(shop.stock.tickets, e)
    {
    }
  }

  // ---------- what a run may change ----------

  function EventTiers(tiers: map<int, Tier>, e: int): map<int, Tier> {
    map p | p in tiers && tiers[p].eventId == e :: tiers[p]
  }

  /** What the event view counts for one tier. */
  function TicketsUnder(stock: Stock, e: int, p: int): set<int> {
    set t | t in stock.tickets && t in stock.tierOf && stock.tickets[t].eventId == e && stock.tierOf[t] == p
  }

  predicate RowFollows(row: Event, row': Event) {
    && row'.venueId == row.venueId && row'.organizer == row.organizer
    && row'.startsAt == row.startsAt && row'.endsAt == row.endsAt && row'.onsaleAt == row.onsaleAt
    && (row.status != T.Draft ==> row'.status != T.Draft)
    && row.version <= row'.version && (row.version == row'.version ==> row' == row)
  }

  /** What never changes about a published event's inventory. */
  ghost predicate InventoryFollows(shop: Shop, shop': Shop, e: int)
    requires e in shop.events
  {
    && SeatsOf(shop'.seats, shop.events[e].venueId) == SeatsOf(shop.seats, shop.events[e].venueId)
    && TicketsOf(shop'.stock.tickets, e) == TicketsOf(shop.stock.tickets, e)
    && forall t :: t in TicketsOf(shop.stock.tickets, e) ==>
         && shop'.stock.tickets[t].seatId == shop.stock.tickets[t].seatId
         && t in shop.stock.tierOf && t in shop'.stock.tierOf && shop'.stock.tierOf[t] == shop.stock.tierOf[t]
  }

  ghost predicate Follows(shop: Shop, shop': Shop) {
    && shop.seats.Keys <= shop'.seats.Keys && (forall s :: s in shop.seats ==> shop'.seats[s] == shop.seats[s])
    && shop.events.Keys <= shop'.events.Keys
    && (forall e :: e in shop.events ==> RowFollows(shop.events[e], shop'.events[e]))
    && (forall e :: e in shop.events ==> EventTiers(shop'.tiers, e) == EventTiers(shop.tiers, e))
    && (forall e :: Published(shop, e) ==> InventoryFollows(shop, shop', e))
  }

  lemma FollowsTransitive(a: Shop, b: Shop, c: Shop)
    requires Follows(a, b) && Follows(b, c)
    ensures Follows(a, c)
  {
    forall e | e in a.events
      ensures RowFollows(a.events[e], c.events[e]) && EventTiers(c.tiers, e) == EventTiers(a.tiers, e)
    {
      assert e in b.events.Keys;
    }
    forall e | Published(a, e)
      ensures InventoryFollows(a, c, e)
    {
      assert RowFollows(a.events[e], b.events[e]);
      assert Published(b, e);
    }
  }

  lemma SoldSeats(shop: Shop, tickets: map<int, T.Ticket>)
    requires Inv(shop) && SamePlaces(shop.stock.tickets, tickets)
    ensures Follows(shop, shop.(stock := shop.stock.(tickets := tickets)))
  {
    StockStays(shop);
    forall e
      ensures TicketsOf(tickets, e) == TicketsOf(shop.stock.tickets, e)
    {
      SameTickets(shop.stock.tickets, tickets, e);
    }
    hide TicketsOf, Inv;
    assert forall t :: t in tickets.Keys <==> t in shop.stock.tickets.Keys;
    forall e | Published(shop, e)
      ensures InventoryFollows(shop, shop.(stock := shop.stock.(tickets := tickets)), e)
    {
      OfEvent(shop.stock.tickets, e);
    }
  }

  lemma SameTickets(tickets: map<int, T.Ticket>, tickets': map<int, T.Ticket>, e: int)
    requires SamePlaces(tickets, tickets')
    ensures TicketsOf(tickets', e) == TicketsOf(tickets, e)
  {
    forall t
      ensures t in TicketsOf(tickets', e) <==> t in TicketsOf(tickets, e)
    {
      assert t in tickets'.Keys <==> t in tickets.Keys;
    }
  }

  lemma OfEvent(tickets: map<int, T.Ticket>, e: int)
    ensures forall t :: t in TicketsOf(tickets, e) ==> t in tickets && tickets[t].eventId == e
  {
  }

  lemma SellFollows(shop: Shop, tickets: map<int, T.Ticket>)
    requires Inv(shop)
    ensures Follows(shop, Next(shop, Sell(tickets)))
  {
    if SamePlaces(shop.stock.tickets, tickets) {
      SoldSeats(shop, tickets);
    } else {
      SameFollows(shop);
    }
  }

  lemma AddSeatsFollows(shop: Shop, v: int, specs: seq<S.SectionSpec>)
    requires Inv(shop)
    ensures Follows(shop, Next(shop, AddSeats(v, specs)))
  {
    var r := AddSeatsTx(shop, v, specs);
    if r.Ok? {
      var rows := SeatRows(v, S.Generated(specs).value);
      var seats' := SeatsInserted(shop.seats, shop.nextSeat, rows).0;
      SeatsAdded(shop.seats, shop.nextSeat, rows);
      forall e | Published(shop, e)
        ensures SeatsOf(seats', shop.events[e].venueId) == SeatsOf(shop.seats, shop.events[e].venueId)
      {
        assert shop.events[e].venueId != v;
        assert forall s :: s in seats' && s !in shop.seats ==> seats'[s].venueId == v;
      }
      StockStays(shop);
    }
  }

  lemma StockStays(shop: Shop)
    requires Inv(shop)
    ensures forall e, t :: t in TicketsOf(shop.stock.tickets, e) ==> t in shop.stock.tierOf
  {
    assert forall t :: t in shop.stock.tickets.Keys ==> t in shop.stock.tierOf.Keys;
  }

  lemma CreateEventFollows(shop: Shop, organizer: string, req: EventRequest)
    requires Inv(shop)
    ensures Follows(shop, Next(shop, CreateEvent(organizer, req)))
  {
    StockStays(shop);
    var r := CreateEventTx(shop, organizer, req);
    if r.Ok? {
      var shop' := r.value.0;
      forall e | e in shop.events
        ensures EventTiers(shop'.tiers, e) == EventTiers(shop.tiers, e)
      {
        CreateEventLeavesTiers(shop, organizer, req, shop', e);
      }
    }
  }

  lemma CreateEventLeavesTiers(shop: Shop, organizer: string, req: EventRequest, shop': Shop, e: int)
    requires Inv(shop) && CreateEventTx(shop, organizer, req) == Ok((shop', shop.nextEvent)) && e in shop.events
    ensures EventTiers(shop'.tiers, e) == EventTiers(shop.tiers, e)
  {
    CreateEventKeepsTiers(shop, organizer, req, shop');
    var was, now := EventTiers(shop.tiers, e), EventTiers(shop'.tiers, e);
    forall p
      ensures p in now.Keys <==> p in was.Keys
    {
      if p in shop'.tiers {
        CreateEventTiers(shop, organizer, req, shop', p);
      }
    }
    forall p | p in was
      ensures now[p] == was[p]
    {
      CreateEventTiers(shop, organizer, req, shop', p);
    }
    assert now.Keys == was.Keys;
  }

  lemma PublishFollows(shop: Shop, organizer: string, e: int)
    requires Inv(shop)
    ensures Follows(shop, Committed(shop, PublishEventTx(shop, organizer, e)))
  {
    var r := PublishEventTx(shop, organizer, e);
    if r.Err? {
      SameFollows(shop);
    } else {
      var ids := InOrder(SeatsOf(shop.seats, shop.events[e].venueId));
      var shop' := r.value.0;
      PublishShape(shop, organizer, e);
      PublishedFollows(shop, e, shop', ids);
    }
  }

  lemma PublishedFollows(shop: Shop, e: int, shop': Shop, ids: seq<int>)
    requires Inv(shop) && e in shop.events && PublishedAs(shop, e, shop', ids)
    ensures Follows(shop, shop')
  {
    forall f | Published(shop, f)
      ensures InventoryFollows(shop, shop', f)
    {
      PublishLeavesOthers(shop, e, shop', ids, f);
    }
    assert RowFollows(shop.events[e], RowAfter(shop.events[e]));
  }

  lemma PublishLeavesOthers(shop: Shop, e: int, shop': Shop, ids: seq<int>, f: int)
    requires Inv(shop) && e in shop.events && PublishedAs(shop, e, shop', ids) && Published(shop, f)
    ensures InventoryFollows(shop, shop', f)
  {
    StockStays(shop);
    forall t
      ensures t in TicketsOf(shop'.stock.tickets, f) <==> t in TicketsOf(shop.stock.tickets, f)
    {
      if t in shop'.stock.tickets && t !in shop.stock.tickets {
        NewPlaceOk(shop, e, shop', ids, t);
      }
    }
  }

  lemma SameFollows(shop: Shop)
    requires Inv(shop)
    ensures Follows(shop, shop)
  {
    StockStays(shop);
  }

  lemma AddVenueFollows(shop: Shop, v: int)
    requires Inv(shop)
    ensures Follows(shop, Next(shop, AddVenue(v)))
  {
    StockStays(shop);
  }

  lemma UpdateEventFollows(shop: Shop, organizer: string, e: int, edit: Edit)
    requires Inv(shop)
    ensures Follows(shop, Next(shop, UpdateEvent(organizer, e, edit)))
  {
    StockStays(shop);
  }

  lemma StepFollows(shop: Shop, step: Step)
    requires Inv(shop)
    ensures Follows(shop, Next(shop, step))
  {
    hide Follows, Inv, AddSeatsTx, CreateEventTx, UpdateEventTx, PublishEventTx;
    match step
    case AddVenue(v) => AddVenueFollows(shop, v);
    case AddSeats(v, specs) => AddSeatsFollows(shop, v, specs);
    case CreateEvent(organizer, req) => CreateEventFollows(shop, organizer, req);
    case UpdateEvent(organizer, e, edit) => UpdateEventFollows(shop, organizer, e, edit);
    case PublishEvent(organizer, e) => PublishFollows(shop, organizer, e);
    case Sell(tickets) => SellFollows(shop, tickets);
  }

  lemma {:induction false} RunFollows(shop: Shop, steps: seq<Step>)
    requires Inv(shop)
    ensures Follows(shop, Exec(shop, steps))
    decreases |steps|
  {
    if steps == [] {
      SameFollows(shop);
    } else {
      StepKeepsInv(shop, steps[0]);
      StepFollows(shop, steps[0]);
      RunFollows(Next(shop, steps[0]), steps[1..]);
      FollowsTransitive(shop, Next(shop, steps[0]), Exec(shop, steps));
    }
  }

  /** Once published, an event keeps its seats, its tickets, and each ticket's seat and price, whatever happens next. */
  lemma InventoryIsFrozen(before: seq<Step>, shop: Shop, after: seq<Step>, shop': Shop, e: int)
    requires shop == Exec(EMPTY, before) && shop' == Exec(shop, after) && Published(shop, e)
    ensures Published(shop', e) && InventoryFollows(shop, shop', e)
    ensures forall t :: t in TicketsOf(shop.stock.tickets, e) ==>
              && shop.stock.tierOf[t] in shop.tiers && shop.stock.tierOf[t] in shop'.tiers
              && shop'.tiers[shop'.stock.tierOf[t]] == shop.tiers[shop.stock.tierOf[t]]
  {
    RunKeepsInv(EMPTY, before);
    RunFollows(shop, after);
    assert RowFollows(shop.events[e], shop'.events[e]);
    forall t | t in TicketsOf(shop.stock.tickets, e)
      ensures shop.stock.tierOf[t] in EventTiers(shop.tiers, e)
    {
      assert PlaceOk(shop, shop.stock.tickets[t], shop.stock.tierOf[t]);
    }
    assert EventTiers(shop'.tiers, e) == EventTiers(shop.tiers, e);
  }

  /** A published event's version determines all the event view is built from: row, tiers, and tickets per tier. */
  lemma VersionTellsView(before: seq<Step>, shop: Shop, after: seq<Step>, shop': Shop, e: int, p: int)
    requires shop == Exec(EMPTY, before) && shop' == Exec(shop, after) && Published(shop, e)
    requires e in shop'.events && shop'.events[e].version == shop.events[e].version
    ensures shop'.events[e] == shop.events[e]
    ensures EventTiers(shop'.tiers, e) == EventTiers(shop.tiers, e)
    ensures TicketsUnder(shop'.stock, e, p) == TicketsUnder(shop.stock, e, p)
  {
    RunKeepsInv(EMPTY, before);
    RunFollows(shop, after);
    assert RowFollows(shop.events[e], shop'.events[e]);
    forall t
      ensures t in TicketsUnder(shop'.stock, e, p) <==> t in TicketsUnder(shop.stock, e, p)
    {
      assert t in TicketsOf(shop'.stock.tickets, e) <==> t in TicketsOf(shop.stock.tickets, e);
    }
  }

  lemma PublishedSeatsArePriced(shop: Shop, e: int, s: int)
    requires Inv(shop) && Published(shop, e) && s in SeatsOf(shop.seats, shop.events[e].venueId)
    ensures Matching(shop.tiers, e, shop.seats[s].section) != {}
  {
    assert HasTicket(shop.stock.tickets, e, s);
    var t :| t in shop.stock.tickets && shop.stock.tickets[t].eventId == e && shop.stock.tickets[t].seatId == s;
    assert PlaceOk(shop, shop.stock.tickets[t], shop.stock.tierOf[t]);
    assert shop.stock.tierOf[t] in Matching(shop.tiers, e, shop.seats[s].section);
  }

  // ---------- padded section names ----------

  /** A venue with a section whose name has space around it can never have an event published. */
  lemma PaddedVenuesNeverPublish(steps: seq<Step>, shop: Shop, s: int, organizer: string, e: int)
    requires shop == Exec(EMPTY, steps) && s in shop.seats && Trimmed(shop.seats[s].section) != shop.seats[s].section
    requires e in shop.events && shop.events[e].venueId == shop.seats[s].venueId
    ensures shop.events[e].status == T.Draft
    ensures PublishEventTx(shop, organizer, e).Err?
  {
    RunKeepsInv(EMPTY, steps);
    var section := shop.seats[s].section;
    assert s in SeatsOf(shop.seats, shop.events[e].venueId);
    assert section in SectionsOf(shop.seats, shop.events[e].venueId);
    if Published(shop, e) {
      PublishedSeatsArePriced(shop, e, s);
    }
    PaddedSectionMatchesNothing(shop, e, section);
  }

  /** Every section of the venue has a tier in the request. */
  ghost predicate AllPriced(shop: Shop, req: EventRequest) {
    forall section :: section in SectionsOf(shop.seats, req.venueId) ==> SectionAsked(req.tiers, section)
  }

  /**
   * Creating an event that prices every section is meant to make it publishable. It does exactly when
   * no section name of the venue has space around it.
   */
  lemma CreatedEventPublishesIff(shop: Shop, organizer: string, req: EventRequest, shop': Shop, e: int)
    requires Inv(shop) && CreateEventTx(shop, organizer, req) == Ok((shop', e)) && AllPriced(shop, req)
    ensures PublishEventTx(shop', organizer, e).Ok? <==>
              forall section :: section in SectionsOf(shop.seats, req.venueId) ==> Trimmed(section) == section
  {
    CreateEventKeepsInv(shop, organizer, req);
    PublishSucceedsIff(shop', organizer, e);
    var sections := SectionsOf(shop.seats, req.venueId);
    assert req.tiers[0].section in sections;
    var s :| s in shop.seats && shop.seats[s].venueId == req.venueId;
    assert s in SeatsOf(shop'.seats, req.venueId);
    assert shop'.events[e] == NewEvent(organizer, req) && SectionsOf(shop'.seats, req.venueId) == sections;
    forall section | section in sections
      ensures Matching(shop'.tiers, e, section) != {} <==> Trimmed(section) == section
    {
      SectionMatchesIff(shop, organizer, req, shop', e, section);
    }
  }

  lemma SectionMatchesIff(shop: Shop, organizer: string, req: EventRequest, shop': Shop, e: int, section: string)
    requires Inv(shop) && CreateEventTx(shop, organizer, req) == Ok((shop', e)) && SectionAsked(req.tiers, section)
    ensures Matching(shop'.tiers, e, section) != {} <==> Trimmed(section) == section
  {
    if Trimmed(section) == section {
      TrimmedSectionMatches(shop.tiers, shop.nextTier, e, req.tiers, section);
    } else {
      CreateEventKeepsTiers(shop, organizer, req, shop');
      PaddedSectionMatchesNothing(shop', e, section);
    }
  }

  lemma TrimmedSectionMatches(tiers: map<int, Tier>, next: int, e: int, specs: seq<TierSpec>, section: string)
    requires SectionAsked(specs, section) && Trimmed(section) == section
    ensures Matching(TiersInserted(tiers, next, e, specs), e, section) != {}
  {
    var i :| 0 <= i < |specs| && specs[i].section == section;
    TiersAdded(tiers, next, e, specs);
    assert next + i in Matching(TiersInserted(tiers, next, e, specs), e, section);
  }

  lemma PaddedSectionMatchesNothing(shop: Shop, e: int, section: string)
    requires TiersOk(shop) && Trimmed(section) != section
    ensures Matching(shop.tiers, e, section) == {}
  {
    forall p
      ensures p !in Matching(shop.tiers, e, section)
    {
      if p in shop.tiers {
        assert TierOk(shop, p);
      }
    }
  }

  /** A venue with one seat, in section " A". */
  function PaddedVenue(): seq<Step> {
    [AddVenue(1), AddSeats(1, [S.SectionSpec(" A", 1, 1)])]
  }

  /** The state that run ends in. */
  const PADDED: Shop := EMPTY.(venues := {1}, seats := map[1 := Seat(1, " A", "A", 1)], nextSeat := 2)

  lemma PaddedVenueSeats()
    ensures Exec(EMPTY, PaddedVenue()) == PADDED
  {
    var specs := [S.SectionSpec(" A", 1, 1)];
    assert specs[..0] == [] && S.Verdict(specs) == Ok(1);
    assert S.Seats(specs) == [S.SeatSpec(" A", "A", 1)];
    var rows := SeatRows(1, S.Seats(specs));
    assert rows == [Seat(1, " A", "A", 1)] && rows[..0] == [];
    assert SeatsInserted(map[], 1, rows) == (map[1 := Seat(1, " A", "A", 1)], 2);
    var shop1 := Next(EMPTY, AddVenue(1));
    assert AddSeatsTx(shop1, 1, specs).Ok?;
    assert PaddedVenue()[1..] == [AddSeats(1, specs)] && [AddSeats(1, specs)][1..] == [];
  }

  /** An event there that goes on sale when it starts, and lasts ten microseconds. */
  function PaddedRequest(title: string, category: string, from: Nanos): EventRequest {
    EventRequest(1, title, "", category, from, from + 10_000, from, [TierSpec(" A", 100)])
  }

  /** None of its times is the zero time. */
  predicate Timed(from: Nanos) {
    from != ZERO_NANOS && from + 10_000 != ZERO_NANOS
  }

  /** The event is accepted, and its one tier is for section "A". */
  lemma PaddedTier(organizer: string, title: string, category: string, from: Nanos)
    requires Trimmed(title) != "" && Trimmed(category) != "" && Timed(from)
    ensures var r := CreateEventTx(PADDED, organizer, PaddedRequest(title, category, from));
            && r.Ok? && r.value.1 == 1
            && r.value.0.seats == PADDED.seats
            && r.value.0.events == map[1 := NewEvent(organizer, PaddedRequest(title, category, from))]
            && r.value.0.tiers == map[1 := Tier(1, "A", 100)]
  {
    var specs := [TierSpec(" A", 100)];
    assert Trimmed(" A") == "A" by {
      assert " A"[1..] == "A";
    }
    assert specs[..0] == [] && TiersInserted(map[], 1, 1, specs) == map[1 := Tier(1, "A", 100)];
    assert GoodTiers(specs);
    assert PADDED.seats[1].section in SectionsOf(PADDED.seats, 1);
  }

  /** At that venue an event with a tier for " A" is created, and its tier is for a section nobody has. */
  lemma PaddedSectionIsAccepted(organizer: string, title: string, category: string, from: Nanos)
    requires Trimmed(title) != "" && Trimmed(category) != "" && Timed(from)
    ensures var shop := Exec(EMPTY, PaddedVenue());
            var r := CreateEventTx(shop, organizer, PaddedRequest(title, category, from));
            && r.Ok?
            && r.value.0.tiers[1].section !in SectionsOf(shop.seats, 1)
            && PublishEventTx(r.value.0, organizer, 1) == Err(UnpricedSection)
  {
    PaddedVenueSeats();
    PaddedTier(organizer, title, category, from);
    hide Exec, CreateEventTx, Trimmed;
    var shop' := CreateEventTx(PADDED, organizer, PaddedRequest(title, category, from)).value.0;
    assert "A"[0] != " A"[0];
    assert shop'.seats[1].section in SectionsOf(shop'.seats, 1);
    assert Matching(shop'.tiers, 1, " A") == {};
  }

  // ---------- the tickets handed to booking ----------

  /** No booking transaction makes a ticket another seat or another event's: each is a Sell of the runs above. */
  lemma BookingStepsAreSells(w: P.World, step: P.Step)
    requires L.Inv(w)
    ensures SamePlaces(w.db.tickets, P.Next(w, step).db.tickets)
  {
    L.StepKeepsInv(w, step);
    forall t | t in w.db.tickets
      ensures P.Next(w, step).db.tickets[t].eventId == w.db.tickets[t].eventId
      ensures P.Next(w, step).db.tickets[t].seatId == w.db.tickets[t].seatId
    {
      assert L.TicketFollows(w.db.tickets[t], P.Next(w, step).db.tickets[t], w.db.holds);
    }
  }

  /** What publishing adds is what booking starts from: unclaimed tickets, no two for the same seat. */
  lemma PublishedTicketsAreUnclaimed(steps: seq<Step>, shop: Shop, organizer: string, e: int)
    requires shop == Exec(EMPTY, steps) && PublishEventTx(shop, organizer, e).Ok?
    ensures var tickets := PublishEventTx(shop, organizer, e).value.0.stock.tickets;
            && P.UniqueSeats(tickets)
            && forall t :: t in TicketsOf(tickets, e) ==> P.Unclaimed(tickets[t])
  {
    RunKeepsInv(EMPTY, steps);
    PublishKeepsInv(shop, organizer, e);
    PublishShape(shop, organizer, e);
    var shop' := PublishEventTx(shop, organizer, e).value.0;
    UniquePlaces(shop'.stock.tickets);
    AddedAreUnclaimed(shop, e, shop', InOrder(SeatsOf(shop.seats, shop.events[e].venueId)));
  }

  lemma UniquePlaces(tickets: map<int, T.Ticket>)
    requires OnePerSeat(tickets)
    ensures P.UniqueSeats(tickets)
  {
    forall t, u | t in tickets && u in tickets && t != u
      ensures tickets[t].eventId != tickets[u].eventId || tickets[t].seatId != tickets[u].seatId
    {
      assert !SamePlace(tickets[t], tickets[u]);
    }
  }

  lemma AddedAreUnclaimed(shop: Shop, e: int, shop': Shop, ids: seq<int>)
    requires e in shop.events && PublishedAs(shop, e, shop', ids)
    ensures forall t :: t in TicketsOf(shop'.stock.tickets, e) ==> P.Unclaimed(shop'.stock.tickets[t])
  {
  }
}
