/** The reader's theorems about money: what every charge ends in, and when one charge can be booked twice. */
module Settlement {
  import opened Common
  import opened Tables
  import opened Charges
  import opened Protocol
  import opened Leases
  import opened Money
  import opened Sales

  /** No idempotency key is used by two users. */
  ghost predicate NoSharedKeys(sagas: map<nat, Saga>) {
    forall i, j :: i in sagas && j in sagas && sagas[i].key == sagas[j].key ==> sagas[i].userId == sagas[j].userId
  }

  /** No purchase on payment p is between paid and booked, or between its stamped refund and closing its booking. */
  ghost predicate Closed(sagas: map<nat, Saga>, p: Uuid) {
    forall i :: i in sagas ==> !MustDeliver(sagas[i].stage, p) && !MustClose(sagas[i].stage, p)
  }

  predicate MustClose(stage: Stage, p: Uuid) {
    stage.Refunded? && stage.paymentId == p
  }

  /** One booking disposes of one payment: seats sold at exactly its amount, or no seats and a refund or a debt. */
  ghost predicate Disposes(db: DB, b: Uuid, p: Uuid)
    requires p in db.payments
  {
    && b in db.bookings && db.bookings[b].paymentId == p
    && match db.bookings[b].status
       case Confirmed =>
         && db.payments[p].refundedAt == None && SoldTo(db.tickets, b) != {}
         && Total(db.prices, InOrder(SoldTo(db.tickets, b))) == db.payments[p].amount
       case Compensating => db.payments[p].refundedAt == None && SoldTo(db.tickets, b) == {}
       case Compensated => db.payments[p].refundedAt.Some? && SoldTo(db.tickets, b) == {}
       case Failed => false
  }

  /** With keys kept apart, a payment is referred to by at most one booking. */
  lemma OneBookingPerPayment(w: World, b: Uuid, c: Uuid)
    requires MoneyInv(w) && NoSharedKeys(w.sagas)
    requires b in w.db.bookings && c in w.db.bookings && w.db.bookings[b].paymentId == w.db.bookings[c].paymentId
    ensures b == c
  {
    var rb, rc := w.db.bookings[b], w.db.bookings[c];
    assert BookingOk(w.db.payments, rb) && BookingOk(w.db.payments, rc);
    PaymentKeyInjective(rb.key, rc.key);
    var i :| i in w.sagas && Wrote(w.sagas[i], rb);
    var j :| j in w.sagas && Wrote(w.sagas[j], rc);
    assert rb.userId == rc.userId && rb.key == rc.key;
  }

  lemma ConfirmedSeats(w: World, b: Uuid)
    requires AllInv(w) && b in w.db.bookings && w.db.bookings[b].status == Confirmed
    ensures SoldTo(w.db.tickets, b) != {}
    ensures Total(w.db.prices, InOrder(SoldTo(w.db.tickets, b))) == w.db.bookings[b].total
  {
    assert Announced(w.db, b);
    var k :| 0 <= k < |w.db.outbox| && w.db.outbox[k].bookingId == b;
    var row := w.db.outbox[k];
    assert RowOk(w.db, row);
    AscendingIsInOrder(row.ticketIds);
    assert row.ticketIds[0] in Elems(row.ticketIds);
  }

  lemma UnconfirmedOwnsNothing(w: World, b: Uuid)
    requires AllInv(w) && b in w.db.bookings && w.db.bookings[b].status != Confirmed
    ensures SoldTo(w.db.tickets, b) == {}
  {
    forall t | t in w.db.tickets ensures w.db.tickets[t].bookingId != Some(b) {
      assert OwnerOk(w.db.tickets[t], w.db.bookings);
    }
  }

  /** The purchase that still has to close a booking would be one on its payment. */
  lemma ClosedIsCompensated(w: World, c: Uuid, p: Uuid)
    requires MoneyInv(w) && Closed(w.sagas, p)
    requires c in w.db.bookings && Compensates(c, w.db.bookings[c], p, w.sagas)
    ensures w.db.bookings[c].status == Compensated
  {
    forall i | i in w.sagas
      ensures !Closes(w.sagas[i].stage, c)
    {
      assert StageOk(w.db.payments, w.db.bookings, w.charges, w.sagas[i]);
    }
  }

  lemma RefundStamp(w: World, b: Uuid)
    requires AllInv(w) && NoSharedKeys(w.sagas) && b in w.db.bookings && Closed(w.sagas, w.db.bookings[b].paymentId)
    ensures var p := w.db.bookings[b].paymentId;
            p in w.db.payments && (w.db.payments[p].refundedAt.Some? <==> w.db.bookings[b].status == Compensated)
  {
    var p := w.db.bookings[b].paymentId;
    assert BookingOk(w.db.payments, w.db.bookings[b]);
    if w.db.payments[p].refundedAt.Some? {
      var c :| c in w.db.bookings && Compensates(c, w.db.bookings[c], p, w.sagas);
      OneBookingPerPayment(w, b, c);
      ClosedIsCompensated(w, c, p);
    }
  }

  /**
   In every run, whatever crashed elsewhere: once no purchase on a completed charge has yet to act on it, the charge has
   exactly one booking. Either its seats are sold at exactly the amount charged and no refund was made, or it owns no
   seat and the refund is stamped exactly when the booking says COMPENSATED.
   */
  lemma EveryChargeIsDisposedOf(w0: World, steps: seq<Step>, w: World, p: Uuid)
    requires Initial(w0) && w == Exec(w0, steps)
    requires NoSharedKeys(w.sagas) && Closed(w.sagas, p)
    requires p in w.db.payments && w.db.payments[p].state == Completed
    ensures exists b :: Disposes(w.db, b, p)
                        && forall c :: c in w.db.bookings && w.db.bookings[c].paymentId == p ==> c == b
  {
    Reachable(w0, steps);
    var b :| b in w.db.bookings && w.db.bookings[b].paymentId == p;
    assert BookingOk(w.db.payments, w.db.bookings[b]);
    RefundStamp(w, b);
    if w.db.bookings[b].status == Confirmed {
      ConfirmedSeats(w, b);
    } else {
      UnconfirmedOwnsNothing(w, b);
    }
    assert Disposes(w.db, b, p);
    forall c | c in w.db.bookings && w.db.bookings[c].paymentId == p ensures c == b {
      OneBookingPerPayment(w, b, c);
    }
  }

  /** Without any assumption on keys or crashes: money taken is booked, or held by a purchase still to book it. */
  lemma NoChargeIsForgotten(w0: World, steps: seq<Step>, w: World, p: Uuid)
    requires Initial(w0) && w == Exec(w0, steps)
    requires p in w.db.payments && w.db.payments[p].state == Completed
    ensures || (exists b :: b in w.db.bookings && w.db.bookings[b].paymentId == p
                            && w.db.bookings[b].total == w.db.payments[p].amount)
            || (exists i :: i in w.sagas && MustDeliver(w.sagas[i].stage, p))
  {
    Reachable(w0, steps);
    if b :| b in w.db.bookings && w.db.bookings[b].paymentId == p {
      assert BookingOk(w.db.payments, w.db.bookings[b]);
    }
  }

  // ---------- the provider ----------

  /** However calls race and retry, no key reaches the provider's charge operation twice. */
  lemma ChargedAtMostOnce(w0: World, steps: seq<Step>, w: World)
    requires Initial(w0) && w == Exec(w0, steps)
    ensures forall i, j :: 0 <= i < j < |w.charges| ==> w.charges[i] != w.charges[j]
  {
    Reachable(w0, steps);
  }

  /** Seats are only ever sold on a completed charge of their exact price, and declines only follow refused ones. */
  lemma OutcomesMatchCharges(w0: World, steps: seq<Step>, w: World, b: Uuid)
    requires Initial(w0) && w == Exec(w0, steps) && b in w.db.bookings
    ensures var r := w.db.bookings[b];
            && r.paymentId in w.db.payments
            && w.db.payments[r.paymentId].amount == r.total
            && w.db.payments[r.paymentId].state == (if r.status == Failed then Refused else Completed)
  {
    Reachable(w0, steps);
    assert BookingOk(w.db.payments, w.db.bookings[b]);
  }

  /**
   Two refusals of the payment service are dead for purchases: the arguments of a charge always pass its checks, and a
   key once taken keeps its row, so a replay always finds one to read.
   */
  lemma ChargesAreAdmitted(w0: World, before: seq<Step>, w: World, after: seq<Step>, i: nat)
    requires Initial(w0) && w == Exec(w0, before) && i in w.sagas && w.sagas[i].stage.Leased?
    ensures Chargeable(PaymentKey(w.sagas[i].key), w.sagas[i].stage.lease.total)
    ensures var key := PaymentKey(w.sagas[i].key);
            PaymentKeyTaken(w.db.payments, key) ==> PaymentKeyTaken(Exec(w, after).db.payments, key)
  {
    Reachable(w0, before);
    assert SagaOk(w.db, w.sagas[i]);
    hide Next, Exec, AllInv;
    RunFollowsOutcomes(w, after);
    var key := PaymentKey(w.sagas[i].key);
    if PaymentKeyTaken(w.db.payments, key) {
      var p := PaymentOf(w.db.payments, key);
      assert p in w.db.payments.Keys && PaymentFollows(w.db.payments[p], Exec(w, after).db.payments[p]);
    }
  }

  /** A purchase about to charge under a key whose outcome is not known yet. */
  ghost predicate Unresolved(w: World, s: Saga) {
    && s.stage.Leased? && PaymentKeyTaken(w.db.payments, PaymentKey(s.key))
    && w.db.payments[PaymentOf(w.db.payments, PaymentKey(s.key))].state == InProgress
  }

  lemma ConvertNeedsPaid(w: World, i: nat, b: Uuid)
    requires i in w.sagas && Next(w, Convert(i, b)).db != w.db
    ensures w.sagas[i].stage.Paid?
  {
  }

  lemma DeclineNeedsTurnedDown(w: World, i: nat, b: Uuid)
    requires i in w.sagas && Next(w, Decline(i, b)).db != w.db
    ensures w.sagas[i].stage.TurnedDown?
  {
  }

  lemma UnresolvedEnds(w: World, i: nat, p: Uuid)
    requires i in w.sagas && Unresolved(w, w.sagas[i]) && p !in w.db.payments
    ensures Next(w, OpenPayment(i, p)) == At(w, i, Done)
  {
  }

  /** A conversion needs a completed charge, a decline a refused one; an unresolved charge moves nothing. */
  lemma OnlyDefiniteOutcomesMoveSeats(w0: World, steps: seq<Step>, w: World, i: nat, b: Uuid)
    requires Initial(w0) && w == Exec(w0, steps) && i in w.sagas
    ensures var s := w.sagas[i];
            && (Next(w, Convert(i, b)).db != w.db ==>
                  HasLease(s.stage) && !s.stage.Leased?
                  && Pays(w.db.payments, s.stage.paymentId, s.key, s.stage.lease.total, Completed))
            && (Next(w, Decline(i, b)).db != w.db ==>
                  HasLease(s.stage) && !s.stage.Leased?
                  && Pays(w.db.payments, s.stage.paymentId, s.key, s.stage.lease.total, Refused))
            && (Unresolved(w, s) && b !in w.db.payments ==> Next(w, OpenPayment(i, b)) == At(w, i, Done))
  {
    Reachable(w0, steps);
    assert StageOk(w.db.payments, w.db.bookings, w.charges, w.sagas[i]);
    hide Next, Exec, Pays, AllInv;
    if Next(w, Convert(i, b)).db != w.db {
      ConvertNeedsPaid(w, i, b);
    }
    if Next(w, Decline(i, b)).db != w.db {
      DeclineNeedsTurnedDown(w, i, b);
    }
    if Unresolved(w, w.sagas[i]) && b !in w.db.payments {
      UnresolvedEnds(w, i, b);
    }
  }
}
