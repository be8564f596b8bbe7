/** A purchase begun again under a key whose charge is already decided (payments/payments.go:134-180). */
module Retries {
  import opened Common
  import opened Tables
  import opened Charges
  import opened Protocol
  import opened HoldRuns
  import opened Releases
  import L = Leases
  import P = Purchases
  import PL = PurchaseLaws
  import SharedKey
  import Sales

  /** Purchase i, its lease prepared, is about to charge under a key that payment q already has. */
  ghost predicate Retries(w: World, i: nat, q: Uuid) {
    && i in w.sagas && w.sagas[i].stage.Leased? && w.sagas[i].stage.lease.total >= 0
    && q in w.db.payments && w.db.payments[q].key == "booking:" + w.sagas[i].key
  }

  ghost predicate SameAmount(w: World, i: nat, q: Uuid)
    requires Retries(w, i, q)
  {
    w.db.payments[q].amount == w.sagas[i].stage.lease.total
  }

  /**
   The retry is told what the first caller was told: paid if the charge is COMPLETED, turned down if it is FAILED, and
   nothing definite while it is IN_PROGRESS or when the amount differs. No table changes and nobody is charged.
   */
  lemma ReplayAgrees(w0: World, steps: seq<Step>, w: World, i: nat, q: Uuid, p: Uuid)
    requires Initial(w0) && w == Exec(w0, steps) && Retries(w, i, q) && p !in w.db.payments
    ensures var lease := w.sagas[i].stage.lease;
            Next(w, OpenPayment(i, p))
            == w.(sagas := w.sagas[i := w.sagas[i].(stage :=
                                          if !SameAmount(w, i, q) then Done
                                          else
                                            match w.db.payments[q].state
                                            case Completed => Paid(lease, q)
                                            case Refused => TurnedDown(lease, q)
                                            case InProgress => Done)])
  {
    Sales.Reachable(w0, steps);
    UniqueKeys(w);
    hide Exec, Sales.AllInv;
    assert PaymentKeyTaken(w.db.payments, PaymentKey(w.sagas[i].key));
    assert PaymentOf(w.db.payments, PaymentKey(w.sagas[i].key)) == q;
  }

  lemma UniqueKeys(w: World)
    requires Sales.AllInv(w)
    ensures UniquePaymentKeys(w.db.payments)
  {
  }

  /** The provider is asked once: the answer recorded by the first caller, not the one it would give now, decides. */
  lemma RecordedAsAnswered(w: World, i: nat, answer: Answer)
    requires i in w.sagas && w.sagas[i].stage.Answered? && w.sagas[i].stage.answer == answer
    requires w.sagas[i].stage.paymentId in w.db.payments
    ensures var p, w' := w.sagas[i].stage.paymentId, Next(w, RecordPayment(i));
            var row, row' := w.db.payments[p], w'.db.payments[p];
            && w'.db == w.db.(payments := w.db.payments[p := row'])
            && match answer
               case Approved(ref) =>
                 if ref == "" then row' == row && w'.sagas[i].stage == Done
                 else
                   && row' == row.(state := Completed, providerRef := Some(ref))
                   && w'.sagas[i].stage == Paid(w.sagas[i].stage.lease, p)
               case Declined(reason) =>
                 && row' == row.(state := Refused, reason := reason)
                 && w'.sagas[i].stage == TurnedDown(w.sagas[i].stage.lease, p)
               case TransportError => row' == row && w'.sagas[i].stage == Done
  {
  }

  // ---------- carried to the end ----------

  /** What a decline leaves: a FAILED booking, and nothing under the hold. */
  ghost predicate DeclinedFor(w: World, w': World, i: nat, b: Uuid, q: Uuid)
    requires i in w.sagas && w.sagas[i].stage.Leased? && q in w.db.payments
  {
    var s, lease := w.sagas[i], w.sagas[i].stage.lease;
    && w'.db.bookings == w.db.bookings[b :=
         Booking(lease.eventId, lease.holdId, s.userId, Failed, lease.total, q, s.key,
                 if w.db.payments[q].reason == "" then "payment_declined" else w.db.payments[q].reason)]
    && StatusIs(w', lease.holdId, Released) && w'.db.payments == w.db.payments
    && w'.db.tickets.Keys == w.db.tickets.Keys
    && forall t :: t in w.db.tickets ==>
         w'.db.tickets[t] == if t in SeatsUnder(w.db.tickets, lease.holdId)
                             then w.db.tickets[t].(status := Available, holdId := None, holdExpiresAt := None)
                             else w.db.tickets[t]
  }

  /** From any reachable state a retry after a recorded decline can reach the FAILED booking, freeing the seats. */
  lemma DeclineIsRetried(w0: World, steps: seq<Step>, w: World, i: nat, q: Uuid, p: Uuid, b: Uuid)
    requires Initial(w0) && w == Exec(w0, steps) && Retries(w, i, q) && p !in w.db.payments && b !in w.db.bookings
    requires SameAmount(w, i, q) && w.db.payments[q].state == Refused
    requires !P.BookingKeyTaken(w.db.bookings, w.sagas[i].userId, w.sagas[i].key)
    ensures DeclinedFor(w, Exec(w, [OpenPayment(i, p), Decline(i, b)]), i, b, q)
  {
    Sales.Reachable(w0, steps);
    HoldIsThere(w, i);
    ReplayAgrees(w0, steps, w, i, q, p);
    SharedKey.ExecTwo(w, OpenPayment(i, p), Decline(i, b));
    hide Next, Exec, Sales.AllInv;
    var w1 := Next(w, OpenPayment(i, p));
    DeclineLeaves(w1, i, b);
  }

  lemma HoldIsThere(w: World, i: nat)
    requires Sales.AllInv(w) && i in w.sagas && w.sagas[i].stage.Leased?
    ensures w.sagas[i].stage.lease.holdId in w.db.holds
  {
    assert L.SagaOk(w.db, w.sagas[i]);
  }

  lemma DeclineLeaves(w: World, i: nat, b: Uuid)
    requires i in w.sagas && w.sagas[i].stage.TurnedDown? && w.sagas[i].stage.lease.holdId in w.db.holds
    requires w.sagas[i].stage.paymentId in w.db.payments && b !in w.db.bookings
    requires !P.BookingKeyTaken(w.db.bookings, w.sagas[i].userId, w.sagas[i].key)
    ensures var s, lease, q := w.sagas[i], w.sagas[i].stage.lease, w.sagas[i].stage.paymentId;
            var db' := Next(w, Decline(i, b)).db;
            && db' == w.db.(tickets := db'.tickets, holds := db'.holds, bookings := db'.bookings)
            && db'.bookings == w.db.bookings[b :=
                 Booking(lease.eventId, lease.holdId, s.userId, Failed, lease.total, q, s.key,
                         if w.db.payments[q].reason == "" then "payment_declined" else w.db.payments[q].reason)]
            && db'.holds == w.db.holds[lease.holdId := w.db.holds[lease.holdId].(status := Released)]
            && db'.tickets.Keys == w.db.tickets.Keys
            && (forall t :: t in w.db.tickets ==>
                  db'.tickets[t] == if t in SeatsUnder(w.db.tickets, lease.holdId)
                                    then w.db.tickets[t].(status := Available, holdId := None, holdExpiresAt := None)
                                    else w.db.tickets[t])
            && Next(w, Decline(i, b)).sagas[i].stage == Done
  {
    SameSeats(w.db.tickets, w.sagas[i].stage.lease.holdId);
    hide HeldBy;
  }

  lemma LeaseIsOrdered(w: World, i: nat)
    requires Sales.AllInv(w) && i in w.sagas && w.sagas[i].stage.Leased?
    ensures Ascending(w.sagas[i].stage.lease.ticketIds)
  {
    assert L.SagaOk(w.db, w.sagas[i]);
  }

  lemma ConvertIs(w: World, i: nat, b: Uuid)
    requires i in w.sagas && w.sagas[i].stage.Paid? && b !in w.db.bookings
    ensures var s := w.sagas[i];
            var (db, outcome) := P.ConvertTx(w.db, s.userId, s.stage.lease, s.stage.paymentId, s.key, b);
            var w' := Next(w, Convert(i, b));
            && w' == w.(db := db, sagas := w'.sagas)
            && w'.sagas == w.sagas[i := s.(stage := if outcome == P.SeatsGone
                                                    then SeatsLost(s.stage.lease, s.stage.paymentId) else Done)]
  {
    hide P.ConvertTx;
  }

  /** Every seat of the lease is still under its hold. */
  ghost predicate AllThere(db: DB, lease: P.Lease) {
    forall t :: t in lease.ticketIds ==> PL.StillLeased(db, lease, t)
  }

  /**
   From any reachable state a retry after a recorded approval delivers without a second charge: with every seat still
   there they are sold to a CONFIRMED booking on the first payment, and otherwise the purchase goes on to pay it back.
   */
  lemma ChargeIsDelivered(w0: World, steps: seq<Step>, w: World, i: nat, q: Uuid, p: Uuid, b: Uuid)
    requires Initial(w0) && w == Exec(w0, steps) && Retries(w, i, q) && p !in w.db.payments && b !in w.db.bookings
    requires SameAmount(w, i, q) && w.db.payments[q].state == Completed
    requires !P.BookingKeyTaken(w.db.bookings, w.sagas[i].userId, w.sagas[i].key)
    ensures var s, lease, w' := w.sagas[i], w.sagas[i].stage.lease, Exec(w, [OpenPayment(i, p), Convert(i, b)]);
            && w'.charges == w.charges && w'.db.payments == w.db.payments
            && (AllThere(w.db, lease) ==>
                  && w'.db.bookings == w.db.bookings[b :=
                       Booking(lease.eventId, lease.holdId, s.userId, Confirmed, lease.total, q, s.key, "")]
                  && w'.db.tickets.Keys == w.db.tickets.Keys
                  && forall t :: t in lease.ticketIds && t in w.db.tickets ==>
                       w'.db.tickets[t].status == Sold && w'.db.tickets[t].bookingId == Some(b))
            && (!AllThere(w.db, lease) ==>
                  w'.db == w.db && i in w'.sagas && w'.sagas[i].stage == SeatsLost(lease, q))
  {
    Sales.Reachable(w0, steps);
    LeaseIsOrdered(w, i);
    ReplayAgrees(w0, steps, w, i, q, p);
    SharedKey.ExecTwo(w, OpenPayment(i, p), Convert(i, b));
    hide Next, Exec, Sales.AllInv, Ascending;
    var s, lease, w1 := w.sagas[i], w.sagas[i].stage.lease, Next(w, OpenPayment(i, p));
    ConvertIs(w1, i, b);
    hide P.ConvertTx, P.BookingKeyTaken, PL.StillLeased, PL.KeyBooked;
    SameKey(w.db, s.userId, s.key);
    PL.SoldExactly(w.db, s.userId, lease, q, s.key, b);
    if AllThere(w.db, lease) {
      PL.SaleLeaves(w.db, s.userId, lease, q, s.key, b);
    }
  }

  lemma SameKey(db: DB, userId: string, key: string)
    ensures PL.KeyBooked(db, userId, key) <==> P.BookingKeyTaken(db.bookings, userId, key)
  {
  }
}
