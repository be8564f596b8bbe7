/** What a claim promises its caller, and why the reaper never shows through it. */
module ClaimLaws {
  import opened Common
  import opened Tables
  import opened Claims
  import I = Inventory
  import L = Leases

  // ---------- all or nothing ----------

  /** The checks a request must pass before any seat is looked at. */
  ghost predicate Admitted(db: DB, r: HoldRequest) {
    && ValidIds(r.ticketIds)
    && !HoldKeyTaken(db.holds, r.userId, NullIfEmpty(r.key))
    && r.eventId in db.events && db.events[r.eventId].status == OnSale && db.events[r.eventId].onsaleAt <= r.now
    && |ActiveHolds(db.holds, r.userId, r.now)| < MAX_ACTIVE_HOLDS
  }

  predicate SeatFree(db: DB, r: HoldRequest, t: int) {
    InEvent(db, r.eventId, t) && Claimable(db.tickets[t], r.now)
  }

  /** A claim succeeds exactly when it is admitted and every requested seat is in the event and free. */
  lemma ClaimSucceedsIff(db: DB, r: HoldRequest)
    ensures CreateHold(db, r).1.Created? <==> Admitted(db, r) && forall t :: t in r.ticketIds ==> SeatFree(db, r, t)
  {
    var a := Args(r);
    forall t | t in r.ticketIds && InEvent(db, r.eventId, t)
      ensures t in Unclaimable(db, a) <==> !Claimable(db.tickets[t], r.now)
    {
      assert t in a.ids;
    }
    if Unclaimable(db, a) != {} {
      var t := AnyMember(Unclaimable(db, a));
      assert t in r.ticketIds && !SeatFree(db, r, t);
    }
  }

  /** A claim that does not succeed changes nothing; the seats it lost are reported exactly, in ascending order. */
  lemma LosersChangeNothing(db: DB, r: HoldRequest)
    ensures var (db', outcome) := CreateHold(db, r);
            && (!outcome.Created? ==> db' == db)
            && (outcome.SeatUnavailable? ==>
                  && (forall t :: t in r.ticketIds ==> InEvent(db, r.eventId, t))
                  && Ascending(outcome.lostIds) && outcome.lostIds != []
                  && forall t :: t in outcome.lostIds <==> t in r.ticketIds && !SeatFree(db, r, t))
            && (outcome.TicketNotFound? ==> exists t :: t in r.ticketIds && !InEvent(db, r.eventId, t))
  {
    var (db', outcome) := CreateHold(db, r);
    var a := Args(r);
    if outcome.SeatUnavailable? {
      assert forall t :: t in r.ticketIds ==> t in a.ids;
      forall t ensures t in outcome.lostIds <==> t in r.ticketIds && !SeatFree(db, r, t) {
        assert t in outcome.lostIds <==> t in Unclaimable(db, a);
      }
    } else if outcome.TicketNotFound? {
      var t :| t in a.ids && !InEvent(db, r.eventId, t);
      assert t in r.ticketIds;
    }
  }

  /** A claim that succeeds takes exactly the requested seats, under one new hold with the full lease. */
  lemma WinnersTakeExactly(db: DB, r: HoldRequest)
    requires CreateHold(db, r).1.Created? && r.holdId !in db.holds
    ensures var db' := CreateHold(db, r).0;
            && db'.tickets.Keys == db.tickets.Keys
            && HeldBy(db'.tickets, r.holdId) >= Elems(r.ticketIds)
            && (forall t :: t in r.ticketIds ==>
                  t in db.tickets && db'.tickets[t].holdExpiresAt == Some(r.now + HOLD_TTL)
                  && db'.tickets[t].status == Held && db'.tickets[t].bookingId == None)
            && (forall t :: t in db.tickets && t !in r.ticketIds ==> db'.tickets[t] == db.tickets[t])
            && db'.holds.Keys == db.holds.Keys + {r.holdId}
            && db'.holds[r.holdId].status == Active && db'.holds[r.holdId].userId == r.userId
            && db'.bookings == db.bookings && db'.payments == db.payments && db'.outbox == db.outbox
  {
    var a := Args(r);
    forall t | t in r.ticketIds ensures t in db.tickets && t in a.ids {
      assert t in a.ids && InEvent(db, r.eventId, t);
    }
  }

  lemma {:induction false} SameShown(db: DB, db': DB, seats: map<int, I.Seat>, ids: seq<int>)
    requires db'.prices == db.prices
    requires forall t :: t in ids ==>
               Joined(db, seats, t) && Joined(db', seats, t) && db'.tickets[t].seatId == db.tickets[t].seatId
    ensures SeatsShown(db', seats, ids) == SeatsShown(db, seats, ids)
  {
    if ids == [] {
    } else {
      assert ids[|ids| - 1] in ids;
      SameShown(db, db', seats, ids[..|ids| - 1]);
    }
  }

  lemma CreatedCarrier(db: DB, seats: map<int, I.Seat>, clock: Time, r: HoldRequest, t: int)
    requires L.LeaseInv(clock, db.tickets, db.holds) && r.holdId !in db.holds && CreateHold(db, r).1.Created?
    requires t in r.ticketIds && t in db.tickets ==> Joined(db, seats, t)
    ensures var db' := CreateHold(db, r).0;
            && (t in CarriedBy(db', seats, r.holdId) <==> t in Elems(r.ticketIds)) && db'.prices == db.prices
            && (t in Elems(r.ticketIds) ==>
                  Joined(db, seats, t) && Joined(db', seats, t) && db'.tickets[t].seatId == db.tickets[t].seatId)
  {
    if t in db.tickets {
      assert L.TicketOk(db.tickets[t], db.holds, clock);
    }
    assert t in Args(r).ids ==> InEvent(db, r.eventId, t);
  }

  lemma CreatedCarriers(db: DB, seats: map<int, I.Seat>, clock: Time, r: HoldRequest)
    requires L.LeaseInv(clock, db.tickets, db.holds) && r.holdId !in db.holds && CreateHold(db, r).1.Created?
    requires forall t :: t in r.ticketIds && t in db.tickets ==> Joined(db, seats, t)
    ensures var db' := CreateHold(db, r).0;
            && CarriedBy(db', seats, r.holdId) == Elems(r.ticketIds) && db'.prices == db.prices
            && forall t :: t in InOrder(Elems(r.ticketIds)) ==>
                 Joined(db, seats, t) && Joined(db', seats, t) && db'.tickets[t].seatId == db.tickets[t].seatId
  {
    hide CreateHold, CarriedBy, L.LeaseInv;
    var db' := CreateHold(db, r).0;
    CreatedRow(db, r);
    forall t
      ensures t in CarriedBy(db', seats, r.holdId) <==> t in Elems(r.ticketIds)
    {
      CreatedCarrier(db, seats, clock, r, t);
    }
    forall t | t in InOrder(Elems(r.ticketIds))
      ensures Joined(db, seats, t) && Joined(db', seats, t) && db'.tickets[t].seatId == db.tickets[t].seatId
    {
      CreatedCarrier(db, seats, clock, r, t);
    }
  }

  /**
   The hold just made is shown ACTIVE until its lease ends, with the time left and exactly the requested seats in order,
   each with its place and price, and their total. The tickets have their seat and price rows, as the schema demands.
   */
  lemma CreatedHoldIsShown(db: DB, seats: map<int, I.Seat>, clock: Time, r: HoldRequest, at: Time)
    requires L.LeaseInv(clock, db.tickets, db.holds) && r.holdId !in db.holds
    requires CreateHold(db, r).1.Created? && r.now <= at < r.now + HOLD_TTL
    requires forall t :: t in r.ticketIds && t in db.tickets ==> Joined(db, seats, t)
    ensures var ids, expiresAt := InOrder(Elems(r.ticketIds)), r.now + HOLD_TTL;
            && (forall t :: t in ids ==> Joined(db, seats, t))
            && ViewOf(CreateHold(db, r).0, seats, r.userId, r.holdId, at)
               == Some(HoldView(r.eventId, r.token, Active, expiresAt, expiresAt - at, SeatsShown(db, seats, ids),
                                Total(db.prices, ids)))
  {
    hide CreateHold, CarriedBy, SeatsShown, Joined, Total, L.LeaseInv;
    var ids, db' := InOrder(Elems(r.ticketIds)), CreateHold(db, r).0;
    CreatedCarriers(db, seats, clock, r);
    SameShown(db, db', seats, ids);
    CreatedRow(db, r);
  }

  lemma CreatedRow(db: DB, r: HoldRequest)
    requires CreateHold(db, r).1.Created?
    ensures var db' := CreateHold(db, r).0;
            r.holdId in db'.holds && db'.holds[r.holdId] == NewHold(Args(r)) && db'.prices == db.prices
  {
  }

  /** The guarded UPDATE matches every requested row once the locked read has found none lost. */
  lemma UpdateMatchesEveryRow(db: DB, a: ClaimArgs)
    requires forall t :: t in a.ids ==> InEvent(db, a.eventId, t)
    requires Unclaimable(db, a) == {}
    ensures (set t | t in a.ids && InEvent(db, a.eventId, t) && Claimable(db.tickets[t], a.now)) == a.ids
  {
    forall t | t in a.ids ensures Claimable(db.tickets[t], a.now) {
      assert t !in Unclaimable(db, a);
    }
  }

  // ---------- the reaper does not show ----------

  /** The tables after a sweep that freed `freed`, and that may have been cut short before marking the holds. */
  function Reaped(db: DB, freed: set<int>, now: Time, swept: bool): DB {
    db.(tickets := Freed(db.tickets, freed),
        holds := if swept then Displaced(db.holds, LapsedHolds(db.holds, now)) else db.holds)
  }

  /** The two tables a later reader may compare: same holds, reported alike at any later time. */
  ghost predicate ReportedAlike(holds: map<Uuid, Hold>, holds': map<Uuid, Hold>, from: Time) {
    && holds.Keys == holds'.Keys
    && forall h, at :: h in holds && from <= at ==> ReportedStatus(holds[h], at) == ReportedStatus(holds'[h], at)
  }

  predicate SameButStatus(h: Hold, h': Hold, now: Time) {
    && h' == h.(status := h'.status)
    && (h'.status == h.status || (h.status == Active && h'.status == Expired && h.expiresAt <= now))
  }

  lemma ReapedHolds(db: DB, freed: set<int>, now: Time, swept: bool)
    ensures var holds' := Reaped(db, freed, now, swept).holds;
            holds'.Keys == db.holds.Keys && forall h :: h in db.holds ==> SameButStatus(db.holds[h], holds'[h], now)
  {
  }

  lemma ReapedTicket(db: DB, freed: set<int>, now: Time, swept: bool, t: int, at: Time)
    requires freed <= LapsedTickets(db.tickets, now) && now <= at && t in db.tickets
    ensures var row' := Reaped(db, freed, now, swept).tickets[t];
            && row'.eventId == db.tickets[t].eventId
            && Claimable(row', at) == Claimable(db.tickets[t], at)
            && (row' == db.tickets[t] || (t in freed && Lapsed(db.tickets[t], now) && row'.holdId == None
                                          && row' == db.tickets[t].(status := Available, holdId := None,
                                                                    holdExpiresAt := None)))
  {
    assert t in freed ==> t in LapsedTickets(db.tickets, now);
  }

  /** A hold's own row as the claim leaves it, before the new hold is added. */
  function Left(db: DB, a: ClaimArgs, h: Uuid): Hold
    requires h in db.holds
  {
    Displaced(db.holds, DisplacedBy(db, a))[h]
  }

  lemma SameChecks(db: DB, freed: set<int>, now: Time, swept: bool, r: HoldRequest)
    requires UniqueHoldKeys(db.holds)
    requires freed <= LapsedTickets(db.tickets, now) && now <= r.now
    ensures var db' := Reaped(db, freed, now, swept); var key := NullIfEmpty(r.key);
            && (HoldKeyTaken(db'.holds, r.userId, key) <==> HoldKeyTaken(db.holds, r.userId, key))
            && (HoldKeyTaken(db.holds, r.userId, key) ==>
                  FindHold(db'.holds, r.userId, key) == FindHold(db.holds, r.userId, key))
            && ActiveHolds(db'.holds, r.userId, r.now) == ActiveHolds(db.holds, r.userId, r.now)
  {
    var db' := Reaped(db, freed, now, swept);
    ReapedHolds(db, freed, now, swept);
    forall h | h in db.holds
      ensures h in db'.holds && SameButStatus(db.holds[h], db'.holds[h], now)
    {
      assert h in db'.holds.Keys;
    }
    forall h ensures h in ActiveHolds(db'.holds, r.userId, r.now) <==> h in ActiveHolds(db.holds, r.userId, r.now) {
      assert h in db'.holds.Keys <==> h in db.holds.Keys;
    }
    var key := NullIfEmpty(r.key);
    if HoldKeyTaken(db'.holds, r.userId, key) {
      var g := FindHold(db'.holds, r.userId, key);
      assert g in db.holds.Keys && db.holds[g].userId == r.userId && db.holds[g].key == key;
      assert HoldKeyTaken(db.holds, r.userId, key);
    }
    if HoldKeyTaken(db.holds, r.userId, key) {
      var h := FindHold(db.holds, r.userId, key);
      assert h in db'.holds && db'.holds[h].userId == r.userId && db'.holds[h].key == key;
    }
  }

  lemma SameSeats(db: DB, freed: set<int>, now: Time, swept: bool, a: ClaimArgs)
    requires freed <= LapsedTickets(db.tickets, now) && now <= a.now
    ensures var db' := Reaped(db, freed, now, swept);
            && db'.tickets.Keys == db.tickets.Keys
            && Unclaimable(db', a) == Unclaimable(db, a)
            && forall t :: t in a.ids ==> (InEvent(db', a.eventId, t) <==> InEvent(db, a.eventId, t))
  {
    var db' := Reaped(db, freed, now, swept);
    forall t ensures t in Unclaimable(db', a) <==> t in Unclaimable(db, a) {
      if t in db.tickets {
        ReapedTicket(db, freed, now, swept, t, a.now);
      }
    }
    forall t | t in a.ids ensures InEvent(db', a.eventId, t) <==> InEvent(db, a.eventId, t) {
      if t in db.tickets {
        ReapedTicket(db, freed, now, swept, t, a.now);
      }
    }
  }

  /** A lease that only one of the two claims had to displace had lapsed, so both report it EXPIRED. */
  lemma SameReport(db: DB, freed: set<int>, now: Time, swept: bool, a: ClaimArgs, clock: Time, h: Uuid, at: Time)
    requires L.LeaseInv(clock, db.tickets, db.holds)
    requires freed <= LapsedTickets(db.tickets, now) && now <= a.now <= at
    requires Unclaimable(db, a) == {} && h in db.holds
    ensures var db' := Reaped(db, freed, now, swept);
            ReportedStatus(Left(db, a, h), at) == ReportedStatus(Left(db', a, h), at)
  {
    var db' := Reaped(db, freed, now, swept);
    ReapedHolds(db, freed, now, swept);
    if h in DisplacedBy(db, a) {
      var t :| t in a.ids && InEvent(db, a.eventId, t) && db.tickets[t].holdId == Some(h);
      assert L.TicketOk(db.tickets[t], db.holds, clock);
      assert t !in Unclaimable(db, a);
      assert db.holds[h].expiresAt <= a.now;
    }
    if h in DisplacedBy(db', a) {
      var t :| t in a.ids && InEvent(db', a.eventId, t) && db'.tickets[t].holdId == Some(h);
      ReapedTicket(db, freed, now, swept, t, a.now);
      assert t in a.ids && InEvent(db, a.eventId, t) && db.tickets[t].holdId == Some(h);
      assert h in DisplacedBy(db, a);
    }
  }

  lemma SameRows(db: DB, freed: set<int>, now: Time, swept: bool, ids: set<int>, h: Uuid, expiresAt: Time)
    requires freed <= LapsedTickets(db.tickets, now)
    ensures var db' := Reaped(db, freed, now, swept);
            forall t :: t in ids && t in db.tickets ==>
              t in db'.tickets
              && Taken(db'.tickets, ids, h, expiresAt)[t] == Taken(db.tickets, ids, h, expiresAt)[t]
  {
    forall t | t in ids && t in db.tickets
      ensures Taken(Reaped(db, freed, now, swept).tickets, ids, h, expiresAt)[t]
              == Taken(db.tickets, ids, h, expiresAt)[t]
    {
      ReapedTicket(db, freed, now, swept, t, now);
    }
  }

  lemma SameOutcome(db: DB, freed: set<int>, now: Time, swept: bool, r: HoldRequest)
    requires UniqueHoldKeys(db.holds)
    requires freed <= LapsedTickets(db.tickets, now) && now <= r.now
    ensures CreateHold(Reaped(db, freed, now, swept), r).1 == CreateHold(db, r).1
  {
    hide Reaped, ClaimTx, Refusal, HoldKeyTaken, ActiveHolds;
    SameChecks(db, freed, now, swept, r);
    SameRefusal(db, freed, now, swept, r);
    SameClaim(db, freed, now, swept, r);
  }

  lemma SameRefusal(db: DB, freed: set<int>, now: Time, swept: bool, r: HoldRequest)
    requires ActiveHolds(Reaped(db, freed, now, swept).holds, r.userId, r.now) == ActiveHolds(db.holds, r.userId, r.now)
    ensures Refusal(Reaped(db, freed, now, swept), r) == Refusal(db, r)
  {
    hide ActiveHolds;
  }

  lemma SameClaim(db: DB, freed: set<int>, now: Time, swept: bool, r: HoldRequest)
    requires freed <= LapsedTickets(db.tickets, now) && now <= r.now
    requires var key := NullIfEmpty(r.key);
             HoldKeyTaken(Reaped(db, freed, now, swept).holds, r.userId, key) <==> HoldKeyTaken(db.holds, r.userId, key)
    ensures ClaimTx(Reaped(db, freed, now, swept), Args(r)).1 == ClaimTx(db, Args(r)).1
  {
    hide Reaped, HoldKeyTaken, Unclaimable, InEvent, Taken, Displaced, DisplacedBy;
    SameSeats(db, freed, now, swept, Args(r));
  }

  lemma ReportedAfterSweep(db: DB, freed: set<int>, now: Time, swept: bool, from: Time)
    requires now <= from
    ensures ReportedAlike(db.holds, Reaped(db, freed, now, swept).holds, from)
  {
    ReapedHolds(db, freed, now, swept);
  }

  lemma DisplacedKeys(db: DB, a: ClaimArgs)
    ensures Displaced(db.holds, DisplacedBy(db, a)).Keys == db.holds.Keys
  {
  }

  lemma AlikeWithNew(holds: map<Uuid, Hold>, holds': map<Uuid, Hold>, from: Time, h: Uuid, row: Hold)
    requires ReportedAlike(holds, holds', from)
    ensures ReportedAlike(holds[h := row], holds'[h := row], from)
  {
  }

  /** What two successful claims leave, on the tables as they are and on the swept ones. */
  lemma SameAfterClaim(db: DB, clock: Time, freed: set<int>, now: Time, swept: bool, r: HoldRequest)
    requires L.LeaseInv(clock, db.tickets, db.holds)
    requires freed <= LapsedTickets(db.tickets, now) && now <= r.now
    requires Unclaimable(db, Args(r)) == {}
    ensures var db', a := Reaped(db, freed, now, swept), Args(r);
            ReportedAlike(Displaced(db.holds, DisplacedBy(db, a))[a.holdId := NewHold(a)],
                          Displaced(db'.holds, DisplacedBy(db', a))[a.holdId := NewHold(a)], r.now)
  {
    hide Reaped, DisplacedBy, Unclaimable, Displaced, ReportedStatus, SameButStatus;
    var db', a := Reaped(db, freed, now, swept), Args(r);
    ReapedHolds(db, freed, now, swept);
    DisplacedKeys(db, a);
    DisplacedKeys(db', a);
    var holds, holds' := Displaced(db.holds, DisplacedBy(db, a)), Displaced(db'.holds, DisplacedBy(db', a));
    forall h, at | h in holds && r.now <= at
      ensures ReportedStatus(holds[h], at) == ReportedStatus(holds'[h], at)
    {
      SameReport(db, freed, now, swept, a, clock, h, at);
    }
    AlikeWithNew(holds, holds', r.now, a.holdId, NewHold(a));
  }

  /**
   A sweep no later than a claim, complete or cut short, changes nothing the claimant can see: the outcome with its
   lost seats, the rows of the claimed seats, and every hold's reported status from the claim's time on.
   */
  lemma ReaperIsInvisible(db: DB, clock: Time, freed: set<int>, now: Time, swept: bool, r: HoldRequest)
    requires L.LeaseInv(clock, db.tickets, db.holds) && UniqueHoldKeys(db.holds)
    requires freed <= LapsedTickets(db.tickets, now) && now <= r.now
    ensures var (after, outcome) := CreateHold(db, r);
            var (after', outcome') := CreateHold(Reaped(db, freed, now, swept), r);
            && outcome' == outcome
            && (outcome.Created? ==>
                  forall t :: t in r.ticketIds ==>
                    t in after.tickets && t in after'.tickets && after'.tickets[t] == after.tickets[t])
            && ReportedAlike(after.holds, after'.holds, r.now)
  {
    var a := Args(r);
    SameOutcome(db, freed, now, swept, r);
    if CreateHold(db, r).1.Created? {
      SameRows(db, freed, now, swept, a.ids, a.holdId, a.now + HOLD_TTL);
      SameAfterClaim(db, clock, freed, now, swept, r);
      forall t | t in r.ticketIds ensures t in db.tickets && t in a.ids {
        assert t in a.ids && InEvent(db, a.eventId, t);
      }
    } else {
      LosersChangeNothing(db, r);
      LosersChangeNothing(Reaped(db, freed, now, swept), r);
      ReportedAfterSweep(db, freed, now, swept, r.now);
    }
  }
}
