/** How often one charge reaches the provider's refund operation (payments/payments.go:198-247). */
module Refunds {
  import opened Tables
  import opened Protocol
  import opened Money
  import opened Sales
  import opened Settlement
  import F = Frames
  import L = Leases

  /** The step is a call to the provider to refund payment p. */
  predicate RefundsNow(w: World, step: Step, p: Uuid) {
    && step.CallRefund? && step.saga in w.sagas && OwesOn(w.sagas[step.saga].stage, p)
    && CallsRefund(w.db.payments, p)
  }

  predicate OwesOn(stage: Stage, p: Uuid) {
    stage.Owing? && stage.paymentId == p
  }

  /** The provider's log of refunds grows by these calls and by nothing else. */
  lemma RefundsAreLogged(w: World, step: Step, p: Uuid)
    ensures RefundsNow(w, step, p) ==> Next(w, step).refunds == w.refunds + [w.db.payments[p].providerRef.value]
    ensures Next(w, step).refunds != w.refunds ==>
              step.CallRefund? && step.saga in w.sagas && w.sagas[step.saga].stage.Owing?
              && RefundsNow(w, step, w.sagas[step.saga].stage.paymentId)
  {
    F.StepFrame(w, step);
  }

  ghost function RefundCalls(w: World, steps: seq<Step>, p: Uuid): nat
    decreases |steps|
  {
    if steps == [] then 0
    else (if RefundsNow(w, steps[0], p) then 1 else 0) + RefundCalls(Next(w, steps[0]), steps[1..], p)
  }

  // ---------- keys kept apart ----------

  lemma KeysWereApart(w: World, step: Step)
    requires NoSharedKeys(Next(w, step).sagas)
    ensures NoSharedKeys(w.sagas)
  {
    F.SagaFrame(w, step);
    hide Next;
    forall i, j | i in w.sagas && j in w.sagas && w.sagas[i].key == w.sagas[j].key
      ensures w.sagas[i].userId == w.sagas[j].userId
    {
      assert i in Next(w, step).sagas.Keys && j in Next(w, step).sagas.Keys;
    }
  }

  lemma {:induction false} KeysStayApart(w: World, steps: seq<Step>)
    requires NoSharedKeys(Exec(w, steps).sagas)
    ensures NoSharedKeys(w.sagas)
    decreases |steps|
  {
    if steps == [] {
    } else {
      KeysStayApart(Next(w, steps[0]), steps[1..]);
      KeysWereApart(w, steps[0]);
    }
  }

  /** The payment has its booking and no purchase is left that would call for its refund. */
  ghost predicate Spent(w: World, p: Uuid) {
    && (exists b :: b in w.db.bookings && w.db.bookings[b].paymentId == p)
    && forall i :: i in w.sagas ==> !OwesOn(w.sagas[i].stage, p)
  }

  /** A purchase comes to owe only by writing a booking. */
  lemma OwingWrites(w: World, step: Step, i: nat, p: Uuid)
    requires i in Next(w, step).sagas && OwesOn(Next(w, step).sagas[i].stage, p)
    requires i in w.sagas ==> !OwesOn(w.sagas[i].stage, p)
    ensures step.Owe? && step.bookingId !in w.db.bookings
    ensures step.bookingId in Next(w, step).db.bookings && Next(w, step).db.bookings[step.bookingId].paymentId == p
  {
  }

  lemma SpentStays(w: World, step: Step, p: Uuid)
    requires AllInv(w) && Spent(w, p) && NoSharedKeys(Next(w, step).sagas)
    ensures Spent(Next(w, step), p)
  {
    hide Next, L.Inv, Books, SaleInv;
    var w' := Next(w, step);
    StepKeepsAll(w, step);
    StepFollowsBookings(w, step);
    var b :| b in w.db.bookings && w.db.bookings[b].paymentId == p;
    assert b in w'.db.bookings.Keys && BookingFollows(w.db.bookings[b], w'.db.bookings[b]);
    forall i | i in w'.sagas
      ensures !OwesOn(w'.sagas[i].stage, p)
    {
      if OwesOn(w'.sagas[i].stage, p) {
        OwingWrites(w, step, i, p);
        OneBookingPerPayment(w', b, step.bookingId);
        assert false;
      }
    }
  }

  lemma {:induction false} SpentIsNotRefunded(w: World, steps: seq<Step>, p: Uuid)
    requires AllInv(w) && Spent(w, p) && NoSharedKeys(Exec(w, steps).sagas)
    ensures RefundCalls(w, steps, p) == 0
    decreases |steps|
  {
    hide Next, L.Inv, Books, SaleInv;
    if steps == [] {
    } else {
      KeysStayApart(Next(w, steps[0]), steps[1..]);
      SpentStays(w, steps[0], p);
      StepKeepsAll(w, steps[0]);
      SpentIsNotRefunded(Next(w, steps[0]), steps[1..], p);
    }
  }

  /** Whichever way the provider answers, the call uses up the one purchase that owed the refund. */
  lemma RefundSpends(w: World, step: Step, p: Uuid)
    requires AllInv(w) && NoSharedKeys(w.sagas) && RefundsNow(w, step, p)
    ensures Spent(Next(w, step), p)
  {
    hide Next, L.Inv, Books, SaleInv;
    var w', i := Next(w, step), step.saga;
    CallRefundMoves(w, i, step.accepted);
    var b := w.sagas[i].stage.bookingId;
    StageIsOk(w, i);
    NoneClash(w, i);
    forall j | j in w'.sagas
      ensures !OwesOn(w'.sagas[j].stage, p)
    {
      if j != i && OwesOn(w.sagas[j].stage, p) {
        StageIsOk(w, j);
        OneBookingPerPayment(w, b, w.sagas[j].stage.bookingId);
        assert false;
      }
    }
  }

  lemma {:induction false} RefundedOnceFrom(w: World, steps: seq<Step>, p: Uuid)
    requires AllInv(w) && NoSharedKeys(Exec(w, steps).sagas)
    ensures RefundCalls(w, steps, p) <= 1
    decreases |steps|
  {
    if steps == [] {
    } else {
      var w1 := Next(w, steps[0]);
      KeysStayApart(w, steps);
      StepKeepsAll(w, steps[0]);
      if RefundsNow(w, steps[0], p) {
        RefundSpends(w, steps[0], p);
        SpentIsNotRefunded(w1, steps[1..], p);
      } else {
        RefundedOnceFrom(w1, steps[1..], p);
      }
    }
  }

  /** With keys kept apart no charge reaches the provider's refund operation twice, crashes and refusals included. */
  lemma RefundedAtMostOnce(w0: World, steps: seq<Step>, p: Uuid)
    requires Initial(w0) && NoSharedKeys(Exec(w0, steps).sagas)
    ensures RefundCalls(w0, steps, p) <= 1
  {
    Reachable(w0, []);
    RefundedOnceFrom(w0, steps, p);
  }
}
