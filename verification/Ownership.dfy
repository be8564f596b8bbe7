/** The reader's theorems about seats: who may own one, for how long, and what can never happen to it again. */
module Ownership {
  import opened Common
  import opened Tables
  import opened Protocol
  import opened Leases
  import opened Sales

  // ---------- leases ----------

  /** In every reachable state, however stale the clocks operations carried. */
  lemma LeasesAgree(w0: World, steps: seq<Step>, w: World)
    requires Initial(w0) && w == Exec(w0, steps)
    ensures forall t :: t in w.db.tickets && w.db.tickets[t].status == Held ==>
              var row := w.db.tickets[t];
              && row.holdId.Some? && row.holdId.value in w.db.holds
              && var h := w.db.holds[row.holdId.value];
              && row.holdExpiresAt == Some(h.expiresAt) && row.eventId == h.eventId
              && (h.status != Active ==> h.expiresAt <= w.clock)
    ensures forall h :: h in w.db.holds && (w.db.holds[h].status == Converted || w.db.holds[h].status == Released)
              ==> HeldBy(w.db.tickets, h) == {}
  {
    Reachable(w0, steps);
    forall h | h in w.db.holds && (w.db.holds[h].status == Converted || w.db.holds[h].status == Released)
      ensures HeldBy(w.db.tickets, h) == {}
    {
      forall t | t in w.db.tickets ensures !HeldUnder(w.db.tickets[t], h) {
        assert TicketOk(w.db.tickets[t], w.db.holds, w.clock);
      }
    }
    forall t | t in w.db.tickets ensures TicketOk(w.db.tickets[t], w.db.holds, w.clock) {
    }
  }

  /** Between any two states of a run: a hold once issued never regains a seat, an expiry or the status ACTIVE. */
  lemma HoldsOnlyShrink(w0: World, before: seq<Step>, w: World, after: seq<Step>, w': World, h: Uuid)
    requires Initial(w0) && w == Exec(w0, before) && w' == Exec(w, after)
    requires h in w.db.holds
    ensures h in w'.db.holds && HoldFollows(w.db.holds[h], w'.db.holds[h])
    ensures HeldBy(w'.db.tickets, h) <= HeldBy(w.db.tickets, h)
  {
    Reachable(w0, before);
    RunKeepsInv(w, after);
    assert h in w'.db.holds.Keys;
    forall t | t in HeldBy(w'.db.tickets, h) ensures t in HeldBy(w.db.tickets, h) {
      assert t in w.db.tickets.Keys;
      assert TicketFollows(w.db.tickets[t], w'.db.tickets[t], w.db.holds);
      assert TicketOk(w.db.tickets[t], w.db.holds, w.clock);
    }
  }

  /** Counting is enough: as many tickets as were read under a hold means the very ones that were read. */
  lemma CountDetectsLoss(w0: World, before: seq<Step>, w: World, after: seq<Step>, w': World, h: Uuid, ids: seq<int>)
    requires Initial(w0) && w == Exec(w0, before) && w' == Exec(w, after)
    requires h in w.db.holds && ids == InOrder(HeldBy(w.db.tickets, h))
    ensures |HeldBy(w'.db.tickets, h)| == |ids| <==> HeldBy(w'.db.tickets, h) == Elems(ids)
  {
    HoldsOnlyShrink(w0, before, w, after, w', h);
    ElemsOfInOrder(HeldBy(w.db.tickets, h));
    SubsetSize(HeldBy(w'.db.tickets, h), HeldBy(w.db.tickets, h));
  }

  // ---------- sales ----------

  /** A sold seat stays sold to the same booking, whatever is interleaved afterwards. */
  lemma SoldStaysSold(w0: World, before: seq<Step>, w: World, after: seq<Step>, w': World, t: int)
    requires Initial(w0) && w == Exec(w0, before) && w' == Exec(w, after)
    requires t in w.db.tickets && w.db.tickets[t].status == Sold
    ensures t in w'.db.tickets && w'.db.tickets[t] == w.db.tickets[t]
    ensures w.db.tickets[t].bookingId.Some? && w.db.tickets[t].bookingId.value in w.db.bookings
    ensures w.db.bookings[w.db.tickets[t].bookingId.value].status == Confirmed
  {
    Reachable(w0, before);
    RunKeepsInv(w, after);
    assert t in w'.db.tickets.Keys;
    assert TicketFollows(w.db.tickets[t], w'.db.tickets[t], w.db.holds);
    assert TicketOk(w.db.tickets[t], w.db.holds, w.clock);
    assert OwnerOk(w.db.tickets[t], w.db.bookings);
  }

  /** A confirmed booking has exactly one outbox row, which lists exactly the seats sold to it. */
  lemma ConfirmedIsAnnouncedOnce(w0: World, steps: seq<Step>, w: World, b: Uuid)
    requires Initial(w0) && w == Exec(w0, steps)
    requires b in w.db.bookings && w.db.bookings[b].status == Confirmed
    ensures exists k :: 0 <= k < |w.db.outbox| && w.db.outbox[k].bookingId == b
                        && Elems(w.db.outbox[k].ticketIds) == SoldTo(w.db.tickets, b)
                        && forall l :: 0 <= l < |w.db.outbox| && w.db.outbox[l].bookingId == b ==> l == k
  {
    Reachable(w0, steps);
    assert Announced(w.db, b);
    var k :| 0 <= k < |w.db.outbox| && w.db.outbox[k].bookingId == b;
    assert RowOk(w.db, w.db.outbox[k]);
    forall l | 0 <= l < |w.db.outbox| && w.db.outbox[l].bookingId == b ensures l == k {
    }
  }

  /** No seat is announced in two outbox rows. */
  lemma AnnouncementsAreDisjoint(w0: World, steps: seq<Step>, w: World, k: nat, l: nat)
    requires Initial(w0) && w == Exec(w0, steps)
    requires k < l < |w.db.outbox|
    ensures Elems(w.db.outbox[k].ticketIds) !! Elems(w.db.outbox[l].ticketIds)
  {
    Reachable(w0, steps);
    var a, c := w.db.outbox[k], w.db.outbox[l];
    assert RowOk(w.db, a) && RowOk(w.db, c) && a.bookingId != c.bookingId;
    forall t | t in Elems(a.ticketIds) ensures t !in Elems(c.ticketIds) {
      assert t in SoldTo(w.db.tickets, a.bookingId);
      assert t !in SoldTo(w.db.tickets, c.bookingId);
    }
  }

  /** At most one hold is ever made under a user's idempotency key. */
  lemma OneHoldPerKey(w0: World, steps: seq<Step>, w: World, h: Uuid, g: Uuid)
    requires Initial(w0) && w == Exec(w0, steps)
    requires h in w.db.holds && g in w.db.holds
    requires w.db.holds[h].key.Some? && w.db.holds[h].key == w.db.holds[g].key
    requires w.db.holds[h].userId == w.db.holds[g].userId
    ensures h == g
  {
    Reachable(w0, steps);
  }
}
