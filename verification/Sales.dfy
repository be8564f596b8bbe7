/** Who owns the sold seats: confirmed bookings, one outbox row each, and nobody else. */
module Sales {
  import opened Common
  import opened Tables
  import opened Protocol
  import opened Leases
  import opened Money
  import C = Claims
  import F = Frames
  import P = Purchases

  /** A ticket that names a booking is a seat of that confirmed booking's event. */
  predicate OwnerOk(t: Ticket, bookings: map<Uuid, Booking>) {
    t.bookingId.Some? ==>
      && t.bookingId.value in bookings
      && bookings[t.bookingId.value].status == Confirmed
      && bookings[t.bookingId.value].eventId == t.eventId
  }

  /** An outbox row announces a confirmed booking: exactly its seats, at exactly their price. */
  predicate RowOk(db: DB, row: OutboxRow) {
    && row.bookingId in db.bookings
    && var b := db.bookings[row.bookingId];
    && b.status == Confirmed && b.eventId == row.eventId && b.userId == row.userId && b.total == row.total
    && Ascending(row.ticketIds) && row.ticketIds != []
    && Elems(row.ticketIds) == SoldTo(db.tickets, row.bookingId)
    && row.total == Total(db.prices, row.ticketIds)
  }

  ghost predicate Announced(db: DB, b: Uuid) {
    exists k :: 0 <= k < |db.outbox| && db.outbox[k].bookingId == b
  }

  ghost predicate SaleInv(db: DB) {
    && (forall t :: t in db.tickets ==> OwnerOk(db.tickets[t], db.bookings))
    && (forall k :: 0 <= k < |db.outbox| ==> RowOk(db, db.outbox[k]))
    && (forall k, l :: 0 <= k < l < |db.outbox| ==> db.outbox[k].bookingId != db.outbox[l].bookingId)
    && (forall b :: b in db.bookings && db.bookings[b].status == Confirmed ==> Announced(db, b))
  }

  // ---------- steps that sell nothing ----------

  ghost predicate SameOwners(db: DB, db': DB) {
    && db'.prices == db.prices && db'.outbox == db.outbox
    && db'.tickets.Keys == db.tickets.Keys
    && (forall t :: t in db.tickets ==>
          db'.tickets[t].bookingId == db.tickets[t].bookingId && db'.tickets[t].eventId == db.tickets[t].eventId)
    && (forall b :: b in db.bookings ==> b in db'.bookings)
    && (forall b :: b in db.bookings ==> BookingFollows(db.bookings[b], db'.bookings[b]))
    && (forall b :: b in db'.bookings && b !in db.bookings ==> db'.bookings[b].status != Confirmed)
  }

  lemma SameOwnersKeepSales(db: DB, db': DB)
    requires SaleInv(db) && SameOwners(db, db')
    ensures SaleInv(db')
  {
    forall t | t in db'.tickets ensures OwnerOk(db'.tickets[t], db'.bookings) {
      assert t in db.tickets.Keys && OwnerOk(db.tickets[t], db.bookings);
      assert db'.tickets[t].bookingId == db.tickets[t].bookingId;
      if db.tickets[t].bookingId.Some? {
        var b := db.tickets[t].bookingId.value;
        assert b in db'.bookings && BookingFollows(db.bookings[b], db'.bookings[b]);
      }
    }
    forall k | 0 <= k < |db.outbox| ensures RowOk(db', db.outbox[k]) {
      var row := db.outbox[k];
      assert RowOk(db, row);
      assert row.bookingId in db'.bookings && BookingFollows(db.bookings[row.bookingId], db'.bookings[row.bookingId]);
      forall t ensures t in SoldTo(db'.tickets, row.bookingId) <==> t in SoldTo(db.tickets, row.bookingId) {
        assert t in db'.tickets.Keys <==> t in db.tickets.Keys;
        assert t in db.tickets ==> db'.tickets[t].bookingId == db.tickets[t].bookingId;
      }
    }
    forall b | b in db'.bookings && db'.bookings[b].status == Confirmed ensures Announced(db', b) {
      assert b in db.bookings && db.bookings[b].status == Confirmed;
      assert Announced(db, b);
    }
  }

  /** No ticket has come to name a booking. */
  ghost predicate NoneNamed(tickets: map<int, Ticket>, tickets': map<int, Ticket>) {
    && tickets'.Keys == tickets.Keys
    && forall t :: t in tickets ==>
         tickets'[t].bookingId == tickets[t].bookingId || tickets'[t].bookingId == None
  }

  lemma FreedNamesNone(tickets: map<int, Ticket>, ids: set<int>)
    ensures NoneNamed(tickets, Freed(tickets, ids))
  {
  }

  lemma TakenNamesNone(tickets: map<int, Ticket>, ids: set<int>, h: Uuid, expiresAt: Time)
    ensures NoneNamed(tickets, Taken(tickets, ids, h, expiresAt))
  {
  }

  lemma ExtendedNamesNone(tickets: map<int, Ticket>, ids: set<int>, expiresAt: Time)
    ensures NoneNamed(tickets, Extended(tickets, ids, expiresAt))
  {
  }

  lemma ClaimNamesNone(w: World, a: C.ClaimArgs)
    ensures NoneNamed(w.db.tickets, Next(w, Claim(a)).db.tickets)
  {
    hide Taken;
    TakenNamesNone(w.db.tickets, a.ids, a.holdId, a.now + HOLD_TTL);
  }

  lemma ReleaseNamesNone(w: World, userId: string, h: Uuid)
    ensures NoneNamed(w.db.tickets, Next(w, Release(userId, h)).db.tickets)
  {
    hide Freed, HeldBy;
    FreedNamesNone(w.db.tickets, HeldBy(w.db.tickets, h));
  }

  lemma PrepareTxNamesNone(db: DB, userId: string, h: Uuid, token: string, now: Time)
    ensures NoneNamed(db.tickets, P.PrepareTx(db, userId, h, token, now).0.tickets)
  {
    hide Extended, HeldBy, InOrder, Total, P.PreparedLease;
    if h in db.holds {
      ExtendedNamesNone(db.tickets, HeldBy(db.tickets, h), P.PreparedLease(db, h, now).expiresAt);
    }
  }

  lemma PrepareNamesNone(w: World, i: nat, now: Time)
    ensures NoneNamed(w.db.tickets, Next(w, Prepare(i, now)).db.tickets)
  {
    hide P.PrepareTx;
    if i in w.sagas {
      PrepareTxNamesNone(w.db, w.sagas[i].userId, w.sagas[i].holdId, w.sagas[i].token, now);
    }
  }

  lemma DeclineNamesNone(w: World, i: nat, b: Uuid)
    ensures NoneNamed(w.db.tickets, Next(w, Decline(i, b)).db.tickets)
  {
    hide Freed, HeldBy;
    if i in w.sagas && w.sagas[i].stage.TurnedDown? {
      FreedNamesNone(w.db.tickets, HeldBy(w.db.tickets, w.sagas[i].stage.lease.holdId));
    }
  }

  lemma ReapNamesNone(w: World, batch: set<int>, now: Time)
    ensures NoneNamed(w.db.tickets, Next(w, ReapTickets(batch, now)).db.tickets)
  {
    hide Freed, LapsedTickets;
    FreedNamesNone(w.db.tickets, batch);
  }

  lemma OthersNameNone(w: World, step: Step)
    requires !step.Convert?
    ensures NoneNamed(w.db.tickets, Next(w, step).db.tickets)
  {
    hide Next;
    match step
    case Claim(a) => ClaimNamesNone(w, a);
    case Release(userId, h) => ReleaseNamesNone(w, userId, h);
    case Prepare(i, now) => PrepareNamesNone(w, i, now);
    case Decline(i, b) => DeclineNamesNone(w, i, b);
    case ReapTickets(batch, now) => ReapNamesNone(w, batch, now);
    case ReapHolds(now) => F.ReapHoldsFrame(w, now);
    case _ => F.StepFrame(w, step);
  }

  lemma TicketsKeepBookings(w: World, step: Step)
    requires Inv(w) && !step.Convert?
    ensures var tickets, tickets' := w.db.tickets, Next(w, step).db.tickets;
            && tickets'.Keys == tickets.Keys
            && forall t :: t in tickets ==>
                 tickets'[t].bookingId == tickets[t].bookingId && tickets'[t].eventId == tickets[t].eventId
  {
    hide Next;
    var w' := Next(w, step);
    StepKeepsLeases(w, step);
    OthersNameNone(w, step);
    forall t | t in w.db.tickets
      ensures w'.db.tickets[t].bookingId == w.db.tickets[t].bookingId
      ensures w'.db.tickets[t].eventId == w.db.tickets[t].eventId
    {
      assert TicketFollows(w.db.tickets[t], w'.db.tickets[t], w.db.holds);
      assert TicketOk(w.db.tickets[t], w.db.holds, w.clock);
    }
  }

  lemma OthersSellNothing(w: World, step: Step)
    requires Inv(w) && MoneyInv(w) && !step.Convert?
    ensures SameOwners(w.db, Next(w, step).db)
  {
    TicketsKeepBookings(w, step);
    StepFollowsBookings(w, step);
    NewBookingsUnconfirmed(w, step);
  }

  lemma NewBookingsUnconfirmed(w: World, step: Step)
    requires !step.Convert?
    ensures Next(w, step).db.prices == w.db.prices && Next(w, step).db.outbox == w.db.outbox
    ensures var bookings := Next(w, step).db.bookings;
            forall b :: b in bookings && b !in w.db.bookings ==> bookings[b].status != Confirmed
  {
    if !step.Decline? && !step.Owe? && !step.Settle? {
      F.StepFrame(w, step);
    }
  }

  // ---------- the step that sells ----------

  /** Every leased seat still carries the hold when all of them convert. */
  lemma AllConvert(tickets: map<int, Ticket>, lease: P.Lease)
    requires Ascending(lease.ticketIds)
    requires |P.Convertible(tickets, lease)| == |lease.ticketIds|
    ensures P.Convertible(tickets, lease) == Elems(lease.ticketIds)
  {
    AscendingSize(lease.ticketIds);
    assert P.Convertible(tickets, lease) <= Elems(lease.ticketIds);
    SubsetSize(P.Convertible(tickets, lease), Elems(lease.ticketIds));
  }

  lemma SellingKeepsSales(db: DB, db': DB, lease: P.Lease, b: Uuid, booking: Booking, row: OutboxRow)
    requires SaleInv(db) && b !in db.bookings
    requires forall t :: t in lease.ticketIds ==>
               t in db.tickets && db.tickets[t].eventId == booking.eventId && db.tickets[t].bookingId == None
    requires booking.status == Confirmed && booking.total == Total(db.prices, lease.ticketIds)
    requires Ascending(lease.ticketIds) && lease.ticketIds != []
    requires row == OutboxRow(b, booking.eventId, booking.userId, lease.ticketIds, booking.total)
    requires db'.tickets == SoldUnder(db.tickets, Elems(lease.ticketIds), b)
    requires db'.bookings == db.bookings[b := booking] && db'.outbox == db.outbox + [row]
    requires db'.prices == db.prices
    ensures SaleInv(db')
  {
    forall t | t in db.tickets ensures OwnerOk(db'.tickets[t], db'.bookings) {
      assert OwnerOk(db.tickets[t], db.bookings);
    }
    assert SoldTo(db'.tickets, b) == Elems(lease.ticketIds) by {
      forall t | t in SoldTo(db'.tickets, b) ensures t in Elems(lease.ticketIds) {
        assert OwnerOk(db.tickets[t], db.bookings);
      }
      forall t | t in Elems(lease.ticketIds) ensures t in SoldTo(db'.tickets, b) {
        assert t in lease.ticketIds;
      }
    }
    forall k | 0 <= k < |db'.outbox| ensures RowOk(db', db'.outbox[k]) {
      if k < |db.outbox| {
        var earlier := db.outbox[k];
        assert RowOk(db, earlier);
        forall t ensures t in SoldTo(db'.tickets, earlier.bookingId) <==> t in SoldTo(db.tickets, earlier.bookingId) {
          assert t in lease.ticketIds <==> t in Elems(lease.ticketIds);
        }
      }
    }
    forall c | c in db'.bookings && db'.bookings[c].status == Confirmed ensures Announced(db', c) {
      if c == b {
        assert db'.outbox[|db.outbox|].bookingId == b;
      } else {
        assert Announced(db, c);
        var k :| 0 <= k < |db.outbox| && db.outbox[k].bookingId == c;
        assert db'.outbox[k].bookingId == c;
      }
    }
  }

  lemma ConvertKeepsSales(w: World, i: nat, b: Uuid)
    requires Inv(w) && SaleInv(w.db)
    ensures SaleInv(Next(w, Convert(i, b)).db)
  {
    var w' := Next(w, Convert(i, b));
    if w'.db != w.db {
      var s, lease := w.sagas[i], w.sagas[i].stage.lease;
      assert SagaOk(w.db, s);
      AllConvert(w.db.tickets, lease);
      forall t | t in lease.ticketIds ensures w.db.tickets[t].bookingId == None {
        assert t in Elems(lease.ticketIds);
        assert TicketOk(w.db.tickets[t], w.db.holds, w.clock);
      }
      SellingKeepsSales(w.db, w'.db, lease, b, w'.db.bookings[b], w'.db.outbox[|w.db.outbox|]);
    }
  }

  // ---------- every run ----------

  ghost predicate AllInv(w: World) {
    Inv(w) && MoneyInv(w) && SaleInv(w.db)
  }

  lemma StepKeepsAll(w: World, step: Step)
    requires AllInv(w)
    ensures AllInv(Next(w, step))
  {
    hide Next, Inv, MoneyInv, SaleInv;
    StepKeepsInv(w, step);
    StepKeepsMoney(w, step);
    match step
    case Convert(i, b) => ConvertKeepsSales(w, i, b);
    case _ =>
      OthersKeepSales(w, step);
  }

  lemma OthersKeepSales(w: World, step: Step)
    requires AllInv(w) && !step.Convert?
    ensures SaleInv(Next(w, step).db)
  {
    OthersSellNothing(w, step);
    SameOwnersKeepSales(w.db, Next(w, step).db);
  }

  lemma {:induction false} RunKeepsAll(w: World, steps: seq<Step>)
    requires AllInv(w)
    ensures AllInv(Exec(w, steps))
    decreases |steps|
  {
    if steps == [] {
    } else {
      StepKeepsAll(w, steps[0]);
      RunKeepsAll(Next(w, steps[0]), steps[1..]);
    }
  }

  lemma Reachable(w0: World, steps: seq<Step>)
    requires Initial(w0)
    ensures AllInv(Exec(w0, steps))
  {
    InitialInv(w0);
    forall t | t in w0.db.tickets ensures OwnerOk(w0.db.tickets[t], w0.db.bookings) {
      assert Unclaimed(w0.db.tickets[t]);
    }
    RunKeepsAll(w0, steps);
  }
}
