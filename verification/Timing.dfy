/** The promise behind extending a lease before charging: seats paid for within the budget are still there. */
module Timing {
  import opened Common
  import opened Tables
  import opened Protocol
  import opened Leases
  import opened Sales
  import C = Claims
  import F = Frames
  import P = Purchases

  /** Every leased seat is still held by the lease's hold, until the lease's expiry at least. */
  ghost predicate Intact(db: DB, lease: P.Lease) {
    && lease.holdId in db.holds
    && (forall t :: t in lease.ticketIds ==> t in db.tickets && SeatIntact(db.tickets[t], lease))
  }

  predicate SeatIntact(row: Ticket, lease: P.Lease) {
    && HeldUnder(row, lease.holdId) && row.eventId == lease.eventId
    && row.holdExpiresAt.Some? && lease.expiresAt <= row.holdExpiresAt.value
  }

  /** A release of the hold that commits, or another purchase on it that commits its outcome. */
  ghost predicate EndsHold(w: World, step: Step, h: Uuid) {
    && Next(w, step).db != w.db
    && (|| (step.Release? && step.holdId == h)
        || ((step.Convert? || step.Decline?) && step.saga in w.sagas && w.sagas[step.saga].holdId == h))
  }

  ghost predicate Undisturbed(w: World, steps: seq<Step>, h: Uuid)
    decreases |steps|
  {
    steps == [] || (!EndsHold(w, steps[0], h) && Undisturbed(Next(w, steps[0]), steps[1..], h))
  }

  lemma ClaimTxLeavesSeat(db: DB, a: C.ClaimArgs, t: int, lease: P.Lease)
    requires t in db.tickets && SeatIntact(db.tickets[t], lease) && a.now < lease.expiresAt
    ensures C.ClaimTx(db, a).0.tickets.Keys == db.tickets.Keys && C.ClaimTx(db, a).0.tickets[t] == db.tickets[t]
  {
    if t in a.ids && C.InEvent(db, a.eventId, t) {
      assert t in C.Unclaimable(db, a);
    }
  }

  /** No claim, however stale its clock, takes a seat whose lease runs past the real one. */
  lemma ClaimLeavesSeat(w: World, a: C.ClaimArgs, t: int, lease: P.Lease)
    requires t in w.db.tickets && SeatIntact(w.db.tickets[t], lease) && w.clock < lease.expiresAt
    ensures Next(w, Claim(a)).db.tickets.Keys == w.db.tickets.Keys
    ensures Next(w, Claim(a)).db.tickets[t] == w.db.tickets[t]
  {
    assert Next(w, Claim(a)).db == if CanClaim(w, a) then C.ClaimTx(w.db, a).0 else w.db;
    hide Next, C.ClaimTx;
    if CanClaim(w, a) {
      ClaimTxLeavesSeat(w.db, a, t, lease);
    }
  }

  lemma ReleaseLeavesSeat(w: World, userId: string, h: Uuid, t: int, lease: P.Lease)
    requires t in w.db.tickets && SeatIntact(w.db.tickets[t], lease)
    requires h != lease.holdId || Next(w, Release(userId, h)).db == w.db
    ensures var tickets := Next(w, Release(userId, h)).db.tickets; t in tickets && SeatIntact(tickets[t], lease)
  {
  }

  /** Another purchase's conversion works on the tickets of another hold. */
  lemma ConvertLeavesSeat(w: World, i: nat, b: Uuid, t: int, lease: P.Lease)
    requires Inv(w) && t in w.db.tickets && SeatIntact(w.db.tickets[t], lease)
    requires !EndsHold(w, Convert(i, b), lease.holdId)
    ensures var tickets := Next(w, Convert(i, b)).db.tickets; t in tickets && SeatIntact(tickets[t], lease)
  {
    if Next(w, Convert(i, b)).db != w.db {
      assert SagaOk(w.db, w.sagas[i]);
    }
  }

  lemma DeclineLeavesSeat(w: World, i: nat, b: Uuid, t: int, lease: P.Lease)
    requires Inv(w) && t in w.db.tickets && SeatIntact(w.db.tickets[t], lease)
    requires !EndsHold(w, Decline(i, b), lease.holdId)
    ensures var tickets := Next(w, Decline(i, b)).db.tickets; t in tickets && SeatIntact(tickets[t], lease)
  {
    if Next(w, Decline(i, b)).db != w.db {
      assert SagaOk(w.db, w.sagas[i]);
    }
  }

  lemma PrepareTxLeavesSeat(
    db: DB, userId: string, h: Uuid, token: string, now: Time, clock: Time, t: int, lease: P.Lease)
    requires t in db.tickets && TicketOk(db.tickets[t], db.holds, clock) && SeatIntact(db.tickets[t], lease)
    ensures var tickets := P.PrepareTx(db, userId, h, token, now).0.tickets;
            t in tickets && SeatIntact(tickets[t], lease)
  {
    hide InOrder, Total;
    assert HeldUnder(db.tickets[t], h) <==> t in HeldBy(db.tickets, h);
    if HeldUnder(db.tickets[t], h) {
      assert db.tickets[t].holdExpiresAt == Some(db.holds[h].expiresAt);
    }
  }

  lemma PrepareLeavesSeat(w: World, i: nat, now: Time, t: int, lease: P.Lease)
    requires Inv(w) && t in w.db.tickets && SeatIntact(w.db.tickets[t], lease)
    ensures var tickets := Next(w, Prepare(i, now)).db.tickets; t in tickets && SeatIntact(tickets[t], lease)
  {
    assert TicketOk(w.db.tickets[t], w.db.holds, w.clock);
    assert Next(w, Prepare(i, now)) == PrepareStep(w, i, now);
    hide Next, P.PrepareTx;
    if i in w.sagas && w.sagas[i].stage.Looked? && now <= w.clock {
      var s := w.sagas[i];
      PrepareTxLeavesSeat(w.db, s.userId, s.holdId, s.token, now, w.clock, t, lease);
    }
  }

  lemma ReaperLeavesSeat(w: World, batch: set<int>, now: Time, t: int, lease: P.Lease)
    requires t in w.db.tickets && SeatIntact(w.db.tickets[t], lease) && w.clock < lease.expiresAt
    ensures var tickets := Next(w, ReapTickets(batch, now)).db.tickets; t in tickets && SeatIntact(tickets[t], lease)
  {
    assert t !in LapsedTickets(w.db.tickets, now) || w.clock < now;
  }

  lemma StepLeavesSeat(w: World, step: Step, t: int, lease: P.Lease)
    requires Inv(w) && t in w.db.tickets && SeatIntact(w.db.tickets[t], lease)
    requires w.clock < lease.expiresAt && !EndsHold(w, step, lease.holdId)
    ensures t in Next(w, step).db.tickets && SeatIntact(Next(w, step).db.tickets[t], lease)
  {
    hide Next, Inv;
    match step
    case Claim(a) => ClaimLeavesSeat(w, a, t, lease);
    case Release(userId, h) => ReleaseLeavesSeat(w, userId, h, t, lease);
    case Prepare(i, now) => PrepareLeavesSeat(w, i, now, t, lease);
    case Convert(i, b) => ConvertLeavesSeat(w, i, b, t, lease);
    case Decline(i, b) => DeclineLeavesSeat(w, i, b, t, lease);
    case ReapTickets(batch, now) => ReaperLeavesSeat(w, batch, now, t, lease);
    case ReapHolds(now) => F.ReapHoldsFrame(w, now);
    case _ => F.StepFrame(w, step);
  }

  lemma {:induction false} RunLeavesSeats(w: World, steps: seq<Step>, lease: P.Lease)
    requires Inv(w) && Intact(w.db, lease)
    requires Undisturbed(w, steps, lease.holdId) && Exec(w, steps).clock < lease.expiresAt
    ensures Intact(Exec(w, steps).db, lease)
    decreases |steps|
  {
    if steps == [] {
    } else {
      var w1 := Next(w, steps[0]);
      StepKeepsInv(w, steps[0]);
      RunKeepsInv(w1, steps[1..]);
      forall t | t in lease.ticketIds ensures t in w1.db.tickets && SeatIntact(w1.db.tickets[t], lease) {
        StepLeavesSeat(w, steps[0], t, lease);
      }
      RunLeavesSeats(w1, steps[1..], lease);
    }
  }

  /** A purchase keeps the lease it prepared, and never goes back. */
  ghost predicate Carries(w: World, i: nat, userId: string, key: string, lease: P.Lease) {
    && i in w.sagas && w.sagas[i].userId == userId && w.sagas[i].key == key && !w.sagas[i].stage.Looked?
    && (HasLease(w.sagas[i].stage) ==> w.sagas[i].stage.lease == lease)
  }

  lemma StepCarries(w: World, step: Step, i: nat, userId: string, key: string, lease: P.Lease)
    requires Carries(w, i, userId, key, lease)
    ensures Carries(Next(w, step), i, userId, key, lease)
  {
    F.SagaFrame(w, step);
    hide Next;
    assert i in Next(w, step).sagas.Keys;
  }

  lemma {:induction false} RunCarries(w: World, steps: seq<Step>, i: nat, userId: string, key: string, lease: P.Lease)
    requires Carries(w, i, userId, key, lease)
    ensures Carries(Exec(w, steps), i, userId, key, lease)
    decreases |steps|
  {
    if steps == [] {
    } else {
      StepCarries(w, steps[0], i, userId, key, lease);
      RunCarries(Next(w, steps[0]), steps[1..], i, userId, key, lease);
    }
  }

  lemma FreshLeaseIntact(w: World, i: nat, now: Time)
    requires Inv(w) && i in w.sagas && w.sagas[i].stage.Looked? && now <= w.clock
    requires Next(w, Prepare(i, now)).sagas[i].stage.Leased?
    ensures var w' := Next(w, Prepare(i, now)); var lease := w'.sagas[i].stage.lease;
            Intact(w'.db, lease) && lease.holdId == w.sagas[i].holdId && now + PAYMENT_BUDGET <= lease.expiresAt
  {
    var w' := Next(w, Prepare(i, now));
    var lease := w'.sagas[i].stage.lease;
    forall t | t in lease.ticketIds ensures t in w'.db.tickets && SeatIntact(w'.db.tickets[t], lease) {
      PreparedSeats(w.db, w.sagas[i].holdId, now, w.clock);
      assert t in HeldBy(w.db.tickets, w.sagas[i].holdId);
      assert TicketOk(w.db.tickets[t], w.db.holds, w.clock);
    }
  }

  lemma IntactConverts(db: DB, lease: P.Lease)
    requires Intact(db, lease) && Ascending(lease.ticketIds)
    ensures P.Convertible(db.tickets, lease) == Elems(lease.ticketIds)
    ensures |P.Convertible(db.tickets, lease)| == |lease.ticketIds|
  {
    AscendingSize(lease.ticketIds);
    forall t ensures t in P.Convertible(db.tickets, lease) <==> t in Elems(lease.ticketIds) {
    }
  }

  /** From the prepared state `w` on, the seats of purchase `i` are intact whenever it comes to convert in time. */
  lemma SeatsWait(w: World, steps: seq<Step>, i: nat, lease: P.Lease)
    requires AllInv(w) && i in w.sagas && w.sagas[i].stage == Leased(lease)
    requires Intact(w.db, lease) && Undisturbed(w, steps, lease.holdId)
    requires Exec(w, steps).clock < lease.expiresAt
    requires i in Exec(w, steps).sagas && Exec(w, steps).sagas[i].stage.Paid?
    ensures var w' := Exec(w, steps);
            && AllInv(w') && w'.sagas[i].stage.lease == lease
            && |P.Convertible(w'.db.tickets, lease)| == |lease.ticketIds|
  {
    var s := w.sagas[i];
    RunCarries(w, steps, i, s.userId, s.key, lease);
    RunLeavesSeats(w, steps, lease);
    RunKeepsAll(w, steps);
    assert SagaOk(Exec(w, steps).db, Exec(w, steps).sagas[i]);
    IntactConverts(Exec(w, steps).db, lease);
  }

  /** What converting purchase `i` achieves: all its seats, or the discovery that its key is already booked. */
  ghost predicate Delivers(w: World, i: nat, b: Uuid)
    requires i in w.sagas && HasLease(w.sagas[i].stage)
  {
    var w', s := Next(w, Convert(i, b)), w.sagas[i];
    && i in w'.sagas && w'.sagas[i].stage.Done?
    && (|| P.BookingKeyTaken(w.db.bookings, s.userId, s.key)
        || (b in w'.db.bookings && w'.db.bookings[b].status == Confirmed
            && SoldTo(w'.db.tickets, b) == Elems(s.stage.lease.ticketIds)))
  }

  /**
   A purchase prepared at `now` that converts before the payment budget is spent is never compensated: unless the hold
   was released or another purchase on it finished, it sells all its seats or finds its key already booked.
   */
  lemma PaidWithinBudgetIsSold(
    w0: World, before: seq<Step>, w: World, i: nat, now: Time, after: seq<Step>, w': World, b: Uuid)
    requires Initial(w0) && w == Exec(w0, before)
    requires i in w.sagas && w.sagas[i].stage.Looked? && now <= w.clock
    requires Undisturbed(Next(w, Prepare(i, now)), after, w.sagas[i].holdId)
    requires w' == Exec(Next(w, Prepare(i, now)), after)
    requires w'.clock < now + PAYMENT_BUDGET
    requires i in w'.sagas && w'.sagas[i].stage.Paid? && b !in w'.db.bookings
    ensures Delivers(w', i, b)
  {
    Sales.Reachable(w0, before);
    StepKeepsAll(w, Prepare(i, now));
    PreparedThenPaid(w, i, now, after);
    SeatsDeliver(w', i, b);
  }

  lemma PreparedSaga(w: World, i: nat, now: Time)
    requires Inv(w) && i in w.sagas && w.sagas[i].stage.Looked? && now <= w.clock
    ensures var w' := Next(w, Prepare(i, now));
            i in w'.sagas && (w'.sagas[i].stage.Leased? || w'.sagas[i].stage.Done?)
            && w'.sagas[i].holdId == w.sagas[i].holdId && w'.clock == w.clock
  {
  }

  lemma PreparedThenPaid(w: World, i: nat, now: Time, after: seq<Step>)
    requires AllInv(w) && AllInv(Next(w, Prepare(i, now)))
    requires i in w.sagas && w.sagas[i].stage.Looked? && now <= w.clock
    requires Undisturbed(Next(w, Prepare(i, now)), after, w.sagas[i].holdId)
    requires var w' := Exec(Next(w, Prepare(i, now)), after);
             w'.clock < now + PAYMENT_BUDGET && i in w'.sagas && w'.sagas[i].stage.Paid?
    ensures var w' := Exec(Next(w, Prepare(i, now)), after);
            var lease := w'.sagas[i].stage.lease;
            AllInv(w') && |P.Convertible(w'.db.tickets, lease)| == |lease.ticketIds|
  {
    PreparedSaga(w, i, now);
    hide Next, AllInv, Intact, Undisturbed;
    var w1 := Next(w, Prepare(i, now));
    if w1.sagas[i].stage.Leased? {
      FreshLeaseIntact(w, i, now);
      SeatsWait(w1, after, i, w1.sagas[i].stage.lease);
    } else {
      RunStaysDone(w1, after, i);
      assert false;
    }
  }

  lemma SeatsDeliver(w: World, i: nat, b: Uuid)
    requires AllInv(w) && i in w.sagas && w.sagas[i].stage.Paid? && b !in w.db.bookings
    requires |P.Convertible(w.db.tickets, w.sagas[i].stage.lease)| == |w.sagas[i].stage.lease.ticketIds|
    ensures Delivers(w, i, b)
  {
    if !P.BookingKeyTaken(w.db.bookings, w.sagas[i].userId, w.sagas[i].key) {
      SoldSeats(w, i, b);
    }
  }

  /** After a successful conversion the booking owns exactly the leased seats. */
  lemma SoldSeats(w: World, i: nat, b: Uuid)
    requires AllInv(w) && i in w.sagas && w.sagas[i].stage.Paid? && b !in w.db.bookings
    requires !P.BookingKeyTaken(w.db.bookings, w.sagas[i].userId, w.sagas[i].key)
    requires |P.Convertible(w.db.tickets, w.sagas[i].stage.lease)| == |w.sagas[i].stage.lease.ticketIds|
    ensures SoldTo(Next(w, Convert(i, b)).db.tickets, b) == Elems(w.sagas[i].stage.lease.ticketIds)
  {
    ConvertKeepsSales(w, i, b);
    var db := Next(w, Convert(i, b)).db;
    assert RowOk(db, db.outbox[|w.db.outbox|]);
  }

  lemma StepStaysDone(w: World, step: Step, i: nat)
    requires i in w.sagas && w.sagas[i].stage.Done?
    ensures i in Next(w, step).sagas && Next(w, step).sagas[i].stage.Done?
  {
    F.SagaFrame(w, step);
    hide Next;
    assert i in Next(w, step).sagas.Keys;
  }

  lemma {:induction false} RunStaysDone(w: World, steps: seq<Step>, i: nat)
    requires i in w.sagas && w.sagas[i].stage.Done?
    ensures i in Exec(w, steps).sagas && Exec(w, steps).sagas[i].stage.Done?
    decreases |steps|
  {
    hide Next;
    if steps == [] {
    } else {
      StepStaysDone(w, steps[0], i);
      RunStaysDone(Next(w, steps[0]), steps[1..], i);
    }
  }
}
