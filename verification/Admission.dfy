/**
 What a request for a hold is answered, by conditions on the tables alone (booking/holds.go:55-207), and what follows
 over any number of requests served one after the other.
 */
module Admission {
  import opened Common
  import opened Tables
  import opened Claims

  // ---------- the answers ----------

  /** One to eight positive ids, none twice. */
  predicate GoodList(ids: seq<int>) {
    && 1 <= |ids| <= 8
    && forall i :: 0 <= i < |ids| ==> ids[i] > 0 && forall j :: 0 <= j < i ==> ids[j] != ids[i]
  }

  ghost predicate KeyUsed(db: DB, r: HoldRequest) {
    r.key != "" && exists h :: h in db.holds && db.holds[h].userId == r.userId && db.holds[h].key == Some(r.key)
  }

  /** A good list under a key not used before: the request is looked at. */
  ghost predicate Considered(db: DB, r: HoldRequest) {
    GoodList(r.ticketIds) && !KeyUsed(db, r)
  }

  predicate SaleOpen(db: DB, e: int, now: Time) {
    e in db.events && db.events[e].status == OnSale && db.events[e].onsaleAt <= now
  }

  /** The user's holds that read ACTIVE. */
  function ShownActive(holds: map<Uuid, Hold>, u: string, at: Time): set<Uuid> {
    set h | h in holds && holds[h].userId == u && ReportedStatus(holds[h], at) == Active
  }

  predicate IsOf(db: DB, t: int, e: int) {
    t in db.tickets && db.tickets[t].eventId == e
  }

  /** Nobody has the seat, or whoever has it has let the lease lapse. */
  predicate Free(row: Ticket, now: Time) {
    || row.status == Available
    || (row.status == Held && row.holdExpiresAt.Some? && row.holdExpiresAt.value <= now)
  }

  lemma SameActive(holds: map<Uuid, Hold>, u: string, now: Time)
    ensures ActiveHolds(holds, u, now) == ShownActive(holds, u, now)
  {
    forall h ensures h in ActiveHolds(holds, u, now) <==> h in ShownActive(holds, u, now) {
    }
  }

  lemma SameChecks(db: DB, r: HoldRequest)
    ensures ValidIds(r.ticketIds) <==> GoodList(r.ticketIds)
    ensures HoldKeyTaken(db.holds, r.userId, NullIfEmpty(r.key)) <==> KeyUsed(db, r)
    ensures ActiveHolds(db.holds, r.userId, r.now) == ShownActive(db.holds, r.userId, r.now)
  {
    SameActive(db.holds, r.userId, r.now);
  }

  /** The answers that no seat decides, each with exactly its condition. */
  lemma RefusedExactly(db: DB, r: HoldRequest)
    ensures var outcome := CreateHold(db, r).1;
            && (outcome == BadRequest <==> !GoodList(r.ticketIds))
            && (outcome.Replayed? <==> GoodList(r.ticketIds) && KeyUsed(db, r))
            && (outcome == EventNotFound <==> Considered(db, r) && r.eventId !in db.events)
            && (outcome == NotOnSale <==>
                Considered(db, r) && r.eventId in db.events && db.events[r.eventId].status != OnSale)
            && (outcome == NotYetOnSale <==>
                Considered(db, r) && r.eventId in db.events && db.events[r.eventId].status == OnSale
                && r.now < db.events[r.eventId].onsaleAt)
            && (outcome == QuotaExceeded <==>
                Considered(db, r) && SaleOpen(db, r.eventId, r.now)
                && |ShownActive(db.holds, r.userId, r.now)| >= 3)
  {
    SameChecks(db, r);
    KeyStaysFree(db, Args(r));
    hide ValidIds, HoldKeyTaken, ActiveHolds, ShownActive, GoodList, KeyUsed, ClaimTx;
  }

  lemma KeyStaysFree(db: DB, a: ClaimArgs)
    ensures ClaimTx(db, a).1 == KeyTaken ==> HoldKeyTaken(db.holds, a.userId, a.key)
  {
  }

  /** A request whose seats decide. */
  ghost predicate UpToSeats(db: DB, r: HoldRequest) {
    && Considered(db, r) && SaleOpen(db, r.eventId, r.now)
    && |ShownActive(db.holds, r.userId, r.now)| < 3
  }

  predicate Wins(db: DB, r: HoldRequest, t: int) {
    IsOf(db, t, r.eventId) && Free(db.tickets[t], r.now)
  }

  lemma SeatsExactly(db: DB, a: ClaimArgs, t: int)
    requires t in a.ids
    ensures InEvent(db, a.eventId, t) <==> IsOf(db, t, a.eventId)
    ensures t in Unclaimable(db, a) <==> IsOf(db, t, a.eventId) && !Free(db.tickets[t], a.now)
  {
  }

  /** The answers that the seats decide: one outside the event, one not free, or a hold on all of them. */
  lemma SeatsDecide(db: DB, r: HoldRequest)
    ensures var outcome := CreateHold(db, r).1;
            && (outcome == TicketNotFound <==>
                UpToSeats(db, r) && exists t :: t in r.ticketIds && !IsOf(db, t, r.eventId))
            && (outcome.SeatUnavailable? <==>
                UpToSeats(db, r) && (forall t :: t in r.ticketIds ==> IsOf(db, t, r.eventId))
                && exists t :: t in r.ticketIds && !Wins(db, r, t))
            && (outcome.Created? <==> UpToSeats(db, r) && forall t :: t in r.ticketIds ==> Wins(db, r, t))
            && (outcome.Created? ==> outcome.holdId == r.holdId)
  {
    SameChecks(db, r);
    KeyStaysFree(db, Args(r));
    ClaimAnswers(db, r);
    hide ValidIds, HoldKeyTaken, ActiveHolds, ShownActive, GoodList, KeyUsed, ClaimTx, Free;
  }

  lemma ClaimAnswers(db: DB, r: HoldRequest)
    ensures var outcome := ClaimTx(db, Args(r)).1;
            && (outcome == UnknownTicket <==> exists t :: t in r.ticketIds && !IsOf(db, t, r.eventId))
            && (outcome.SomeLost? <==>
                (forall t :: t in r.ticketIds ==> IsOf(db, t, r.eventId))
                && exists t :: t in r.ticketIds && !Wins(db, r, t))
  {
    var a := Args(r);
    forall t | t in r.ticketIds
      ensures t in a.ids
      ensures InEvent(db, a.eventId, t) <==> IsOf(db, t, r.eventId)
      ensures t in Unclaimable(db, a) <==> IsOf(db, t, r.eventId) && !Wins(db, r, t)
    {
      SeatsExactly(db, a, t);
    }
    if Unclaimable(db, a) != {} {
      var t := AnyMember(Unclaimable(db, a));
      assert t in r.ticketIds;
    }
  }

  /** The key of a hold that is replayed is the caller's. */
  lemma ReplaysOwnHold(db: DB, r: HoldRequest)
    requires CreateHold(db, r).1.Replayed?
    ensures var h := CreateHold(db, r).1.holdId;
            h in db.holds && db.holds[h].userId == r.userId && db.holds[h].key == Some(r.key)
  {
    KeyStaysFree(db, Args(r));
    hide ClaimTx;
  }

  // ---------- what a hold leaves ----------

  /** Some claimed seat still named this hold. */
  predicate TakenFrom(db: DB, r: HoldRequest, h: Uuid) {
    exists t :: t in r.ticketIds && t in db.tickets && db.tickets[t].holdId == Some(h)
  }

  /**
   The whole of the tables after a hold: the seats under it for ten minutes, its own row, and of the holds the seats
   were taken from those still ACTIVE marked EXPIRED.
   */
  lemma HoldLeaves(db: DB, r: HoldRequest)
    requires CreateHold(db, r).1.Created? && r.holdId !in db.holds
    ensures var db', expiresAt := CreateHold(db, r).0, r.now + 600_000_000;
            && db' == db.(tickets := db'.tickets, holds := db'.holds)
            && db'.tickets.Keys == db.tickets.Keys
            && (forall t :: t in db.tickets ==>
                  db'.tickets[t] == if t in r.ticketIds
                                    then Ticket(db.tickets[t].eventId, db.tickets[t].seatId, Held, Some(r.holdId),
                                                Some(expiresAt), None)
                                    else db.tickets[t])
            && db'.holds.Keys == db.holds.Keys + {r.holdId}
            && db'.holds[r.holdId] == Hold(r.eventId, r.userId, r.token, Active, expiresAt,
                                           if r.key == "" then None else Some(r.key))
            && (forall h :: h in db.holds ==>
                  db'.holds[h] == if TakenFrom(db, r, h) && db.holds[h].status == Active
                                  then db.holds[h].(status := Expired) else db.holds[h])
  {
    CreatedTx(db, r);
    var a := Args(r);
    forall h | h in db.holds
      ensures h in DisplacedBy(db, a) <==> TakenFrom(db, r, h)
    {
      DisplacedIsTaken(db, r, h);
    }
    hide CreateHold, ClaimTx, DisplacedBy, TakenFrom;
    assert forall t :: t in a.ids <==> t in r.ticketIds;
  }

  lemma CreatedTx(db: DB, r: HoldRequest)
    requires CreateHold(db, r).1.Created?
    ensures var a := Args(r);
            && (forall t :: t in a.ids ==> InEvent(db, a.eventId, t))
            && CreateHold(db, r).0
               == db.(tickets := Taken(db.tickets, a.ids, a.holdId, a.now + HOLD_TTL),
                      holds := Displaced(db.holds, DisplacedBy(db, a))[a.holdId := NewHold(a)])
  {
    hide Taken, Displaced, DisplacedBy, Unclaimable;
  }

  lemma DisplacedIsTaken(db: DB, r: HoldRequest, h: Uuid)
    requires forall t :: t in Args(r).ids ==> InEvent(db, r.eventId, t)
    ensures h in DisplacedBy(db, Args(r)) <==> TakenFrom(db, r, h)
  {
    if TakenFrom(db, r, h) {
      var t :| t in r.ticketIds && t in db.tickets && db.tickets[t].holdId == Some(h);
      assert t in Args(r).ids && InEvent(db, r.eventId, t);
    }
  }

  /** The same request again is answered with the hold it made, and changes nothing. */
  lemma RetryFindsHold(db: DB, r: HoldRequest, again: HoldRequest)
    requires UniqueHoldKeys(db.holds) && CreateHold(db, r).1.Created? && r.holdId !in db.holds && r.key != ""
    requires again.userId == r.userId && again.key == r.key && again.ticketIds == r.ticketIds
    ensures CreateHold(CreateHold(db, r).0, again) == (CreateHold(db, r).0, Replayed(r.holdId))
  {
    HoldLeaves(db, r);
    RefusedExactly(db, r);
    SeatsDecide(db, r);
    var db' := CreateHold(db, r).0;
    assert KeyUsed(db', again) by {
      assert r.holdId in db'.holds && db'.holds[r.holdId].userId == again.userId;
    }
    RefusedExactly(db', again);
    ReplaysOwnHold(db', again);
    ReplayChangesNothing(db', again);
    hide CreateHold, ValidIds;
    forall h | h in db.holds
      ensures db'.holds[h].userId != r.userId || db'.holds[h].key != Some(r.key)
    {
      assert !KeyUsed(db, r);
    }
    assert CreateHold(db', again).1.holdId in db'.holds.Keys;
  }

  lemma ReplayChangesNothing(db: DB, r: HoldRequest)
    requires !CreateHold(db, r).1.Created?
    ensures CreateHold(db, r).0 == db
  {
  }

  // ---------- requests one after the other ----------

  /** A fresh id is one that no hold has. */
  ghost function AfterRequest(db: DB, r: HoldRequest): DB {
    if r.holdId in db.holds then db else CreateHold(db, r).0
  }

  ghost function AfterRequests(db: DB, rs: seq<HoldRequest>): DB
    decreases |rs|
  {
    if rs == [] then db else AfterRequests(AfterRequest(db, rs[0]), rs[1..])
  }

  lemma ShownActiveAfter(db: DB, r: HoldRequest, u: string, at: Time)
    requires r.now <= at && CreateHold(db, r).1.Created? && r.holdId !in db.holds
    ensures var before, after := ShownActive(db.holds, u, at), ShownActive(CreateHold(db, r).0.holds, u, at);
            && after <= before + {r.holdId}
            && (u != r.userId ==> after <= before)
            && before <= ShownActive(db.holds, u, r.now)
  {
    HoldLeaves(db, r);
    hide CreateHold, TakenFrom;
    var db' := CreateHold(db, r).0;
    ShownEarlier(db.holds, u, r.now, at);
    forall h | h in ShownActive(db'.holds, u, at)
      ensures if h == r.holdId then u == r.userId else h in ShownActive(db.holds, u, at)
    {
      assert h in db'.holds.Keys;
    }
  }

  lemma ShownEarlier(holds: map<Uuid, Hold>, u: string, from: Time, at: Time)
    requires from <= at
    ensures ShownActive(holds, u, at) <= ShownActive(holds, u, from)
  {
    forall h | h in ShownActive(holds, u, at) ensures h in ShownActive(holds, u, from) {
    }
  }

  lemma RequestKeepsQuota(db: DB, r: HoldRequest, u: string, at: Time)
    requires r.now <= at && |ShownActive(db.holds, u, at)| <= 3
    ensures |ShownActive(AfterRequest(db, r).holds, u, at)| <= 3
  {
    if r.holdId !in db.holds && CreateHold(db, r).1.Created? {
      ShownActiveAfter(db, r, u, at);
      SeatsDecide(db, r);
      hide CreateHold, ShownActive;
      var before, after := ShownActive(db.holds, u, at), ShownActive(CreateHold(db, r).0.holds, u, at);
      if u == r.userId {
        SubsetSize(before, ShownActive(db.holds, u, r.now));
        SubsetSize(after, before + {r.holdId});
      } else {
        SubsetSize(after, before);
      }
    } else if r.holdId !in db.holds {
      ReplayChangesNothing(db, r);
    }
  }

  lemma {:induction false} QuotaKept(db: DB, rs: seq<HoldRequest>, u: string, at: Time)
    requires |ShownActive(db.holds, u, at)| <= 3 && forall k :: 0 <= k < |rs| ==> rs[k].now <= at
    ensures |ShownActive(AfterRequests(db, rs).holds, u, at)| <= 3
    decreases |rs|
  {
    hide ShownActive, AfterRequest;
    if rs == [] {
    } else {
      RequestKeepsQuota(db, rs[0], u, at);
      QuotaKept(AfterRequest(db, rs[0]), rs[1..], u, at);
    }
  }

  /** Served one after the other, no user ever has more than three holds that read ACTIVE. */
  lemma QuotaHolds(db: DB, rs: seq<HoldRequest>, u: string, at: Time)
    requires db.holds == map[] && forall k :: 0 <= k < |rs| ==> rs[k].now <= at
    ensures |ShownActive(AfterRequests(db, rs).holds, u, at)| <= 3
  {
    assert ShownActive(db.holds, u, at) == {};
    QuotaKept(db, rs, u, at);
  }

  /** The lease began no earlier than the sale of its event, which is on. */
  predicate BegunOnSale(events: map<int, Event>, e: int, expiresAt: Time) {
    e in events && events[e].status == OnSale && events[e].onsaleAt + 600_000_000 <= expiresAt
  }

  ghost predicate AllBegunOnSale(db: DB) {
    && (forall h :: h in db.holds ==> BegunOnSale(db.events, db.holds[h].eventId, db.holds[h].expiresAt))
    && forall t :: t in db.tickets && db.tickets[t].status == Held ==>
         db.tickets[t].holdExpiresAt.Some?
         && BegunOnSale(db.events, db.tickets[t].eventId, db.tickets[t].holdExpiresAt.value)
  }

  lemma RequestIsOnSale(db: DB, r: HoldRequest)
    requires AllBegunOnSale(db)
    ensures AllBegunOnSale(AfterRequest(db, r))
  {
    if r.holdId !in db.holds && CreateHold(db, r).1.Created? {
      HoldLeaves(db, r);
      SeatsDecide(db, r);
      hide CreateHold, TakenFrom, ShownActive, Considered;
      var db' := CreateHold(db, r).0;
      forall h | h in db'.holds
        ensures BegunOnSale(db'.events, db'.holds[h].eventId, db'.holds[h].expiresAt)
      {
        assert h in db'.holds.Keys;
      }
      forall t | t in db'.tickets && db'.tickets[t].status == Held
        ensures db'.tickets[t].holdExpiresAt.Some?
        ensures BegunOnSale(db'.events, db'.tickets[t].eventId, db'.tickets[t].holdExpiresAt.value)
      {
        assert t in db'.tickets.Keys;
      }
    } else if r.holdId !in db.holds {
      ReplayChangesNothing(db, r);
    }
  }

  /** No hold and no held seat is ever older than the sale of its event. */
  lemma {:induction false} NothingBeforeTheSale(db: DB, rs: seq<HoldRequest>)
    requires AllBegunOnSale(db)
    ensures AllBegunOnSale(AfterRequests(db, rs))
    decreases |rs|
  {
    hide AllBegunOnSale, AfterRequest;
    if rs == [] {
    } else {
      RequestIsOnSale(db, rs[0]);
      NothingBeforeTheSale(AfterRequest(db, rs[0]), rs[1..]);
    }
  }
}
