/** Each step of a purchase by what it answers and leaves (booking/purchase.go:68-482, payments/payments.go:98-247). */
module PurchaseLaws {
  import opened Common
  import opened Tables
  import opened Protocol
  import opened Releases
  import opened Charges
  import P = Purchases
  import Timing

  // ---------- preparing ----------

  predicate OwnHold(db: DB, userId: string, h: Uuid) {
    h in db.holds && db.holds[h].userId == userId
  }

  /** Every answer of the preparation with exactly its condition; the token is looked at before the state. */
  lemma PreparedExactly(db: DB, userId: string, h: Uuid, token: string, now: Time)
    ensures var r := P.PrepareTx(db, userId, h, token, now).1;
            var own := OwnHold(db, userId, h);
            var named := own && db.holds[h].token == token;
            var active := named && db.holds[h].status == Active;
            var live := active && now < db.holds[h].expiresAt;
            && (r == Err(P.HoldNotFound) <==> !own)
            && (r == Err(P.BadToken) <==> own && !named)
            && (r == Err(P.NotActive) <==> named && !active)
            && (r == Err(P.HoldExpired) <==> active && !live)
            && (r == Err(P.NoSeats) <==> live && SeatsUnder(db.tickets, h) == {})
            && (r.Ok? <==> live && SeatsUnder(db.tickets, h) != {})
  {
    SameSeats(db.tickets, h);
    hide HeldBy, SeatsUnder, P.PreparedLease, Extended;
  }

  function Later(a: Time, b: Time): Time {
    if a < b then b else a
  }

  /**
   A prepared lease is the seats under the hold at the sum of their prices. The hold and its seats last a minute from
   now, longer if they did before; a preparation that does not have to extend the lease writes nothing.
   */
  lemma PreparedLeaves(db: DB, userId: string, h: Uuid, token: string, now: Time)
    ensures var (db', r) := P.PrepareTx(db, userId, h, token, now);
            && (r.Err? ==> db' == db)
            && (r.Ok? ==>
                  var lease, seats := r.value, SeatsUnder(db.tickets, h);
                  var extended := db.holds[h].expiresAt < now + 60_000_000;
                  && lease == P.Lease(h, db.holds[h].eventId, InOrder(seats), Total(db.prices, InOrder(seats)),
                                      Later(db.holds[h].expiresAt, now + 60_000_000))
                  && (!extended ==> db' == db)
                  && db' == db.(tickets := db'.tickets,
                                holds := db.holds[h := db.holds[h].(expiresAt := lease.expiresAt)])
                  && db'.tickets.Keys == db.tickets.Keys
                  && forall t :: t in db.tickets ==>
                       db'.tickets[t] == if extended && t in seats
                                         then db.tickets[t].(holdExpiresAt := Some(lease.expiresAt))
                                         else db.tickets[t])
  {
    SameSeats(db.tickets, h);
    hide HeldBy, SeatsUnder, InOrder, Total;
    if h in db.holds {
      assert db.holds[h := db.holds[h].(expiresAt := db.holds[h].expiresAt)] == db.holds;
    }
  }

  /**
   Finishing on tables that others may have written since the lease was read: a lease that runs a minute is left as it
   is, one whose hold no longer has as many seats is abandoned, and any other lasts a minute from now with its seats.
   */
  lemma FinishedExactly(db: DB, lease: P.Lease, now: Time)
    ensures var (db', r) := P.FinishTx(db, lease, now);
            var h, seats := lease.holdId, SeatsUnder(db.tickets, lease.holdId);
            var extended := lease.expiresAt < now + 60_000_000;
            && (r == Err(P.HoldChanged) <==> extended && |seats| != |lease.ticketIds|)
            && (r.Err? ==> r == Err(P.HoldChanged) && db' == db)
            && (r.Ok? ==> r.value == lease.(expiresAt := Later(lease.expiresAt, now + 60_000_000)))
            && (r.Ok? && !extended ==> db' == db)
            && (r.Ok? && extended ==>
                  && db' == db.(tickets := db'.tickets, holds := db'.holds)
                  && db'.tickets.Keys == db.tickets.Keys && db'.holds.Keys == db.holds.Keys
                  && (forall t :: t in db.tickets ==>
                        db'.tickets[t] == if t in seats then db.tickets[t].(holdExpiresAt := Some(now + 60_000_000))
                                          else db.tickets[t])
                  && forall g :: g in db.holds ==>
                       db'.holds[g] == if g == h && db.holds[g].status == Active
                                       then db.holds[g].(expiresAt := now + 60_000_000) else db.holds[g])
  {
    SameSeats(db.tickets, lease.holdId);
    hide HeldBy, SeatsUnder;
  }

  // ---------- selling ----------

  /** The buyer already has a booking under the key. */
  ghost predicate KeyBooked(db: DB, userId: string, key: string) {
    exists b :: b in db.bookings && db.bookings[b].userId == userId && db.bookings[b].key == key
  }

  /** The seat is still the lease's: held, under its hold, for its event. */
  predicate StillLeased(db: DB, lease: P.Lease, t: int) {
    t in SeatsUnder(db.tickets, lease.holdId) && db.tickets[t].eventId == lease.eventId
  }

  lemma ConvertibleAll(db: DB, lease: P.Lease)
    requires Ascending(lease.ticketIds)
    ensures |P.Convertible(db.tickets, lease)| == |lease.ticketIds|
            <==> forall t :: t in lease.ticketIds ==> StillLeased(db, lease, t)
    ensures |P.Convertible(db.tickets, lease)| == |lease.ticketIds| ==>
              P.Convertible(db.tickets, lease) == Elems(lease.ticketIds)
  {
    var kept, all := P.Convertible(db.tickets, lease), Elems(lease.ticketIds);
    forall t
      ensures t in kept <==> t in lease.ticketIds && StillLeased(db, lease, t)
    {
    }
    AscendingSize(lease.ticketIds);
    SubsetSize(kept, all);
    hide P.Convertible, StillLeased, Ascending;
    if forall t :: t in lease.ticketIds ==> StillLeased(db, lease, t) {
      assert kept == all;
    }
  }

  /** A sale is refused exactly when the key has its booking or a leased seat is gone, and then writes nothing. */
  lemma SoldExactly(db: DB, userId: string, lease: P.Lease, p: Uuid, key: string, b: Uuid)
    requires Ascending(lease.ticketIds)
    ensures var (db', outcome) := P.ConvertTx(db, userId, lease, p, key, b);
            var all := forall t :: t in lease.ticketIds ==> StillLeased(db, lease, t);
            && (outcome == P.AlreadyBooked <==> KeyBooked(db, userId, key))
            && (outcome == P.SeatsGone <==> !KeyBooked(db, userId, key) && !all)
            && (outcome == P.SeatsSold <==> !KeyBooked(db, userId, key) && all)
            && (outcome != P.SeatsSold ==> db' == db)
  {
    ConvertibleAll(db, lease);
    hide P.Convertible, StillLeased, Ascending, SoldUnder, WithStatus;
  }

  /** A sale writes everything together: the seats, the CONVERTED hold, the CONFIRMED booking and its announcement. */
  lemma SaleLeaves(db: DB, userId: string, lease: P.Lease, p: Uuid, key: string, b: Uuid)
    requires Ascending(lease.ticketIds) && P.ConvertTx(db, userId, lease, p, key, b).1 == P.SeatsSold
    ensures var db' := P.ConvertTx(db, userId, lease, p, key, b).0;
            && db' == db.(tickets := db'.tickets, holds := db'.holds, bookings := db'.bookings, outbox := db'.outbox)
            && db'.tickets.Keys == db.tickets.Keys
            && (forall t :: t in db.tickets ==>
                  db'.tickets[t] == if t in lease.ticketIds
                                    then Ticket(db.tickets[t].eventId, db.tickets[t].seatId, Sold, None, None, Some(b))
                                    else db.tickets[t])
            && db'.holds.Keys == db.holds.Keys
            && (forall h :: h in db.holds ==>
                  db'.holds[h] == if h == lease.holdId then db.holds[h].(status := Converted) else db.holds[h])
            && db'.bookings == db.bookings[b :=
                 Booking(lease.eventId, lease.holdId, userId, Confirmed, lease.total, p, key, "")]
            && db'.outbox == db.outbox + [OutboxRow(b, lease.eventId, userId, lease.ticketIds, lease.total)]
  {
    ConvertibleAll(db, lease);
    hide P.Convertible, StillLeased, Ascending;
  }

  // ---------- owing and settling ----------

  /** The debt is one COMPENSATING booking and nothing else, unless the key already has its booking. */
  lemma DebtLeaves(db: DB, userId: string, lease: P.Lease, p: Uuid, key: string, b: Uuid)
    ensures var (db', wrote) := P.OweTx(db, userId, lease, p, key, b);
            && (wrote <==> !KeyBooked(db, userId, key))
            && db' == if wrote
                      then db.(bookings := db.bookings[b :=
                             Booking(lease.eventId, lease.holdId, userId, Compensating, lease.total, p, key,
                                     "seats_lost_after_charge")])
                      else db
  {
  }

  // ---------- step by step ----------

  /** A purchase needs a token and a key, and one whose key already has its booking is over before it starts. */
  lemma BegunExactly(w: World, i: nat, userId: string, h: Uuid, token: string, key: string)
    ensures Next(w, Begin(i, userId, h, token, key))
            == if i in w.sagas || token == "" || key == "" then w
               else w.(sagas := w.sagas[i :=
                         Saga(userId, h, token, key, if KeyBooked(w.db, userId, key) then Done else Looked)])
  {
  }

  /** Nothing that happens later makes it charge, sell or book: every step it could take leaves the world alone. */
  lemma BookedIsOver(w: World, i: nat, userId: string, h: Uuid, token: string, key: string, after: seq<Step>,
      step: Step)
    requires i !in w.sagas && token != "" && key != "" && KeyBooked(w.db, userId, key)
    requires SagaStep(step) && step.saga == i
    ensures var w1 := Exec(Next(w, Begin(i, userId, h, token, key)), after);
            i in w1.sagas && w1.sagas[i].stage == Done && Next(w1, step) == w1
  {
    BegunExactly(w, i, userId, h, token, key);
    hide Next, KeyBooked;
    var w0 := Next(w, Begin(i, userId, h, token, key));
    Timing.RunStaysDone(w0, after, i);
    DoneIsIdle(Exec(w0, after), i, step);
  }

  predicate SagaStep(step: Step) {
    || step.Begin? || step.Prepare? || step.OpenPayment? || step.CallProvider? || step.RecordPayment? || step.Convert?
    || step.Decline? || step.Owe? || step.CallRefund? || step.StampRefund? || step.Settle?
  }

  lemma DoneIsIdle(w: World, i: nat, step: Step)
    requires i in w.sagas && w.sagas[i].stage == Done && SagaStep(step) && step.saga == i
    ensures Next(w, step) == w
  {
  }

  /** Every call to the provider is logged; with no answer the purchase ends and the payment stays IN_PROGRESS. */
  lemma CalledExactly(w: World, i: nat, answer: Answer)
    requires i in w.sagas && w.sagas[i].stage.Charging?
    ensures var s, p := w.sagas[i], w.sagas[i].stage.paymentId;
            Next(w, CallProvider(i, answer))
            == w.(charges := w.charges + ["booking:" + s.key],
                  sagas := w.sagas[i := s.(stage := if answer == TransportError then Done
                                                    else Answered(s.stage.lease, p, answer))])
  {
  }

  /**
   A stamped payment counts as refunded without a call; one that is not COMPLETED or has no reference cannot be
   refunded; any other refund reaches the provider, and a refused one leaves the debt standing.
   */
  lemma RefundedExactly(w: World, i: nat, accepted: bool)
    requires i in w.sagas && w.sagas[i].stage.Owing? && w.sagas[i].stage.paymentId in w.db.payments
    ensures var Owing(lease, p, b) := w.sagas[i].stage;
            var row, w' := w.db.payments[p], Next(w, CallRefund(i, accepted));
            var calls := row.refundedAt == None && row.state == Completed && row.providerRef != None;
            && w'.db == w.db && w'.refunds == (if calls then w.refunds + [row.providerRef.value] else w.refunds)
            && w' == w.(refunds := w'.refunds, sagas := w.sagas[i := w.sagas[i].(stage :=
                                                  if row.refundedAt != None then Refunded(lease, p, b)
                                                  else if calls && accepted then Refunding(lease, p, b)
                                                  else Done)])
  {
  }

  /** The four steps that settle a debt. */
  function Repay(i: nat, b: Uuid, now: Time): seq<Step> {
    [Owe(i, b), CallRefund(i, true), StampRefund(i, now), Settle(i)]
  }

  lemma ExecRepay(w: World, i: nat, b: Uuid, now: Time)
    ensures Exec(w, Repay(i, b, now))
            == Next(Next(Next(Next(w, Owe(i, b)), CallRefund(i, true)), StampRefund(i, now)), Settle(i))
  {
    hide Next;
    var a, c, d, e := Owe(i, b), CallRefund(i, true), StampRefund(i, now), Settle(i);
    assert [a, c, d, e] == [a, c, d] + [e];
    ExecOne(w, [a, c, d], e);
    assert [a, c, d] == [a, c] + [d];
    ExecOne(w, [a, c], d);
    assert [a, c] == [a] + [c];
    ExecOne(w, [a], c);
    ExecSingle(w, a);
  }

  /** Purchase i has paid with p for seats it can no longer have. */
  ghost predicate MustRepay(w: World, i: nat, b: Uuid) {
    && i in w.sagas && w.sagas[i].stage.SeatsLost? && b !in w.db.bookings
    && !KeyBooked(w.db, w.sagas[i].userId, w.sagas[i].key) && w.sagas[i].stage.paymentId in w.db.payments
  }

  /**
   Money taken for seats that are gone can be given back: the refund reaches the provider once, the payment is stamped
   and the booking says COMPENSATED. No ticket and no hold moves.
   */
  lemma LostIsRepaid(w: World, i: nat, b: Uuid, now: Time)
    requires MustRepay(w, i, b) && now <= w.clock && CallsRefund(w.db.payments, w.sagas[i].stage.paymentId)
    ensures var SeatsLost(lease, p) := w.sagas[i].stage; var s, w' := w.sagas[i], Exec(w, Repay(i, b, now));
            && w'.refunds == w.refunds + [w.db.payments[p].providerRef.value]
            && w'.db == w.db.(
                 payments := w.db.payments[p := w.db.payments[p].(refundedAt := Some(now))],
                 bookings := w.db.bookings[b := Booking(lease.eventId, lease.holdId, s.userId, Compensated,
                                                        lease.total, p, s.key, "seats_lost_after_charge")])
            && i in w'.sagas && w'.sagas[i].stage == Done && w'.charges == w.charges
  {
    ExecRepay(w, i, b, now);
    var SeatsLost(lease, p) := w.sagas[i].stage;
    var w1 := Next(w, Owe(i, b));
    OwedWorld(w, i, b);
    hide Next, KeyBooked, P.BookingKeyTaken;
    RefundedExactly(w1, i, true);
    var w2 := Next(w1, CallRefund(i, true));
    StampedExactly(w2, i, now);
    var w3 := Next(w2, StampRefund(i, now));
    SettledExactly(w3, i);
  }

  lemma OwedWorld(w: World, i: nat, b: Uuid)
    requires MustRepay(w, i, b)
    ensures var SeatsLost(lease, p) := w.sagas[i].stage; var s := w.sagas[i];
            Next(w, Owe(i, b))
            == w.(db := w.db.(bookings := w.db.bookings[b :=
                        Booking(lease.eventId, lease.holdId, s.userId, Compensating, lease.total, p, s.key,
                                "seats_lost_after_charge")]),
                  sagas := w.sagas[i := s.(stage := Owing(lease, p, b))])
  {
  }

  /** The stamp is the time of the refund, on the payment and nothing else. */
  lemma StampedExactly(w: World, i: nat, now: Time)
    requires i in w.sagas && w.sagas[i].stage.Refunding? && w.sagas[i].stage.paymentId in w.db.payments
    requires now <= w.clock
    ensures var Refunding(lease, p, b) := w.sagas[i].stage;
            Next(w, StampRefund(i, now))
            == w.(db := w.db.(payments := w.db.payments[p := w.db.payments[p].(refundedAt := Some(now))]),
                  sagas := w.sagas[i := w.sagas[i].(stage := Refunded(lease, p, b))])
  {
  }

  lemma SettledExactly(w: World, i: nat)
    requires i in w.sagas && w.sagas[i].stage.Refunded? && w.sagas[i].stage.bookingId in w.db.bookings
    ensures var b := w.sagas[i].stage.bookingId;
            Next(w, Settle(i))
            == w.(db := w.db.(bookings := w.db.bookings[b := w.db.bookings[b].(status := Compensated)]),
                  sagas := w.sagas[i := w.sagas[i].(stage := Done)])
  {
  }
}
