/** What every reachable state says about leases: the fence on hold_id, expiries, and who may still own a seat. */
module Leases {
  import opened Common
  import opened Tables
  import opened Protocol
  import C = Claims
  import F = Frames
  import P = Purchases

  // ---------- the invariant ----------

  /** The columns of one ticket row agree with its status and with the hold it names. */
  predicate TicketOk(t: Ticket, holds: map<Uuid, Hold>, clock: Time) {
    match t.status
    case Available => t.holdId == None && t.holdExpiresAt == None && t.bookingId == None
    case Sold => t.holdId == None && t.holdExpiresAt == None && t.bookingId.Some?
    case Held =>
      && t.bookingId == None
      && t.holdId.Some? && t.holdId.value in holds
      && LeaseOf(t, holds[t.holdId.value], clock)
  }

  /** A HELD ticket carries its hold's event and expiry; if the hold is no longer ACTIVE the lease has lapsed. */
  predicate LeaseOf(t: Ticket, h: Hold, clock: Time) {
    && t.holdExpiresAt == Some(h.expiresAt)
    && t.eventId == h.eventId
    && (h.status == Active || (h.status == Expired && h.expiresAt <= clock))
  }

  ghost predicate LeaseInv(clock: Time, tickets: map<int, Ticket>, holds: map<Uuid, Hold>) {
    forall t :: t in tickets ==> TicketOk(tickets[t], holds, clock)
  }

  // ---------- how a state may follow another ----------

  /** What never changes about a hold, and the directions in which the rest may move. */
  predicate HoldFollows(h: Hold, h': Hold) {
    && h'.eventId == h.eventId && h'.userId == h.userId && h'.token == h.token && h'.key == h.key
    && h.expiresAt <= h'.expiresAt
    && (h'.status == Active ==> h.status == Active)
  }

  /** A ticket keeps its event and seat, a sale is final, and a hold id once lost is never carried again. */
  predicate TicketFollows(t: Ticket, t': Ticket, holds: map<Uuid, Hold>) {
    && t'.eventId == t.eventId && t'.seatId == t.seatId
    && (t.status == Sold ==> t' == t)
    && (t'.holdId.Some? && t'.holdId.value in holds ==> t.holdId == t'.holdId)
  }

  ghost predicate Follows(w: World, w': World) {
    && w.clock <= w'.clock
    && w'.db.events == w.db.events && w'.db.prices == w.db.prices
    && w'.db.tickets.Keys == w.db.tickets.Keys
    && w.db.holds.Keys <= w'.db.holds.Keys
    && (forall h :: h in w.db.holds ==> HoldFollows(w.db.holds[h], w'.db.holds[h]))
    && (forall t :: t in w.db.tickets ==> TicketFollows(w.db.tickets[t], w'.db.tickets[t], w.db.holds))
  }

  lemma FollowsTransitive(a: World, b: World, c: World)
    requires Follows(a, b) && Follows(b, c)
    ensures Follows(a, c)
  {
    forall t | t in a.db.tickets ensures TicketFollows(a.db.tickets[t], c.db.tickets[t], a.db.holds) {
      assert TicketFollows(a.db.tickets[t], b.db.tickets[t], a.db.holds);
      assert TicketFollows(b.db.tickets[t], c.db.tickets[t], b.db.holds);
      var held := c.db.tickets[t].holdId;
      assert held.Some? && held.value in a.db.holds ==> held.value in b.db.holds.Keys;
    }
  }

  // ---------- one transaction at a time ----------

  ghost predicate LeaseStep(w: World, w': World) {
    LeaseInv(w'.clock, w'.db.tickets, w'.db.holds) && Follows(w, w')
  }

  /** Marking lapsed holds EXPIRED leaves every ticket consistent with the hold it names. */
  lemma ExpiringKeepsTicket(t: Ticket, holds: map<Uuid, Hold>, hs: set<Uuid>, clock: Time)
    requires TicketOk(t, holds, clock)
    requires forall h :: h in hs && h in holds ==> holds[h].expiresAt <= clock
    ensures TicketOk(t, Displaced(holds, hs), clock)
  {
    if t.status == Held {
      var h := t.holdId.value;
      assert h in hs ==> holds[h].expiresAt <= clock;
    }
  }

  lemma ClaimKeepsLeases(w: World, a: C.ClaimArgs)
    requires LeaseInv(w.clock, w.db.tickets, w.db.holds)
    ensures LeaseStep(w, Next(w, Claim(a)))
  {
    var w' := Next(w, Claim(a));
    if w' != w {
      DisplacedHaveLapsed(w, a);
      forall t | t in w.db.tickets
        ensures TicketOk(w'.db.tickets[t], w'.db.holds, w.clock)
        ensures TicketFollows(w.db.tickets[t], w'.db.tickets[t], w.db.holds)
      {
        ExpiringKeepsTicket(w.db.tickets[t], w.db.holds, C.DisplacedBy(w.db, a), w.clock);
        assert t in a.ids ==> C.InEvent(w.db, a.eventId, t);
        assert t in a.ids ==> t !in C.Unclaimable(w.db, a);
      }
    }
  }

  /** A lease a claim takes over had lapsed by the clock, however stale the claim's own time was. */
  lemma DisplacedHaveLapsed(w: World, a: C.ClaimArgs)
    requires LeaseInv(w.clock, w.db.tickets, w.db.holds)
    requires a.now <= w.clock && C.Unclaimable(w.db, a) == {}
    ensures forall h :: h in C.DisplacedBy(w.db, a) ==> h in w.db.holds && w.db.holds[h].expiresAt <= w.clock
  {
    forall h | h in C.DisplacedBy(w.db, a)
      ensures h in w.db.holds && w.db.holds[h].expiresAt <= w.clock
    {
      var t :| t in a.ids && C.InEvent(w.db, a.eventId, t) && w.db.tickets[t].holdId == Some(h);
      assert TicketOk(w.db.tickets[t], w.db.holds, w.clock);
      assert t !in C.Unclaimable(w.db, a);
    }
  }

  lemma ReleaseKeepsLeases(w: World, userId: string, h: Uuid)
    requires LeaseInv(w.clock, w.db.tickets, w.db.holds)
    ensures LeaseStep(w, Next(w, Release(userId, h)))
  {
    FreeingKeepsLeases(w, h, Released);
  }

  /** Giving back every seat of a hold, whatever status the hold is then given. */
  lemma FreeingKeepsLeases(w: World, h: Uuid, status: HoldStatus)
    requires LeaseInv(w.clock, w.db.tickets, w.db.holds) && status != Active
    ensures var tickets := Freed(w.db.tickets, HeldBy(w.db.tickets, h));
            LeaseStep(w, w.(db := w.db.(tickets := tickets, holds := WithStatus(w.db.holds, h, status))))
  {
    var tickets := Freed(w.db.tickets, HeldBy(w.db.tickets, h));
    var holds := WithStatus(w.db.holds, h, status);
    forall t | t in w.db.tickets
      ensures TicketOk(tickets[t], holds, w.clock)
      ensures TicketFollows(w.db.tickets[t], tickets[t], w.db.holds)
    {
      assert TicketOk(w.db.tickets[t], w.db.holds, w.clock);
      assert HeldUnder(w.db.tickets[t], h) ==> t in HeldBy(w.db.tickets, h);
    }
  }

  lemma PrepareKeepsLeases(w: World, i: nat, now: Time)
    requires LeaseInv(w.clock, w.db.tickets, w.db.holds)
    ensures LeaseStep(w, Next(w, Prepare(i, now)))
  {
    var w' := Next(w, Prepare(i, now));
    if w'.db != w.db {
      var h := w.sagas[i].holdId;
      var expiresAt := w'.db.holds[h].expiresAt;
      assert w'.db.tickets == Extended(w.db.tickets, HeldBy(w.db.tickets, h), expiresAt);
      ExtendingKeepsLeases(w, h, expiresAt);
    }
  }

  lemma ExtendingKeepsLeases(w: World, h: Uuid, expiresAt: Time)
    requires LeaseInv(w.clock, w.db.tickets, w.db.holds)
    requires h in w.db.holds && w.db.holds[h].status == Active && w.db.holds[h].expiresAt <= expiresAt
    ensures var tickets := Extended(w.db.tickets, HeldBy(w.db.tickets, h), expiresAt);
            var holds := w.db.holds[h := w.db.holds[h].(expiresAt := expiresAt)];
            LeaseStep(w, w.(db := w.db.(tickets := tickets, holds := holds)))
  {
    var tickets := Extended(w.db.tickets, HeldBy(w.db.tickets, h), expiresAt);
    var holds := w.db.holds[h := w.db.holds[h].(expiresAt := expiresAt)];
    forall t | t in w.db.tickets
      ensures TicketOk(tickets[t], holds, w.clock)
      ensures TicketFollows(w.db.tickets[t], tickets[t], w.db.holds)
    {
      assert TicketOk(w.db.tickets[t], w.db.holds, w.clock);
      assert HeldUnder(w.db.tickets[t], h) <==> t in HeldBy(w.db.tickets, h);
    }
  }

  /** Conversion needs to know that the lease lists every seat its hold still carries. */
  lemma ConvertKeepsLeases(w: World, i: nat, b: Uuid)
    requires LeaseInv(w.clock, w.db.tickets, w.db.holds)
    requires i in w.sagas && w.sagas[i].stage.Paid?
             ==> CoversHold(w.db.tickets, w.db.holds, w.sagas[i].stage.lease)
    ensures LeaseStep(w, Next(w, Convert(i, b)))
  {
    var w' := Next(w, Convert(i, b));
    if w'.db != w.db {
      var lease := w.sagas[i].stage.lease;
      forall t | t in w.db.tickets
        ensures TicketOk(w'.db.tickets[t], w'.db.holds, w.clock)
        ensures TicketFollows(w.db.tickets[t], w'.db.tickets[t], w.db.holds)
      {
        assert TicketOk(w.db.tickets[t], w.db.holds, w.clock);
        if HeldUnder(w.db.tickets[t], lease.holdId) {
          assert t in HeldBy(w.db.tickets, lease.holdId);
          assert t in Elems(lease.ticketIds);
          assert t in P.Convertible(w.db.tickets, lease);
        }
      }
    }
  }

  /** The fence without ABA: a lease's list holds every ticket that still names its hold. */
  ghost predicate CoversHold(tickets: map<int, Ticket>, holds: map<Uuid, Hold>, lease: P.Lease) {
    && lease.holdId in holds && holds[lease.holdId].eventId == lease.eventId
    && lease.expiresAt <= holds[lease.holdId].expiresAt
    && HeldBy(tickets, lease.holdId) <= Elems(lease.ticketIds)
    && Ascending(lease.ticketIds) && lease.ticketIds != []
    && (forall t :: t in lease.ticketIds ==> t in tickets && tickets[t].eventId == lease.eventId)
  }

  lemma DeclineKeepsLeases(w: World, i: nat, b: Uuid)
    requires LeaseInv(w.clock, w.db.tickets, w.db.holds)
    ensures LeaseStep(w, Next(w, Decline(i, b)))
  {
    DeclineFrees(w, i, b);
    F.DeclineFrame(w, i, b);
    hide Next;
    if i in w.sagas && w.sagas[i].stage.TurnedDown? {
      FreeingKeepsLeases(w, w.sagas[i].stage.lease.holdId, Released);
    }
  }

  lemma DeclineFrees(w: World, i: nat, b: Uuid)
    ensures var db' := Next(w, Decline(i, b)).db;
            || (db'.tickets == w.db.tickets && db'.holds == w.db.holds)
            || (&& i in w.sagas && w.sagas[i].stage.TurnedDown?
                && var h := w.sagas[i].stage.lease.holdId;
                db'.tickets == Freed(w.db.tickets, HeldBy(w.db.tickets, h))
                && db'.holds == WithStatus(w.db.holds, h, Released))
  {
  }

  lemma ReapTicketsKeepsLeases(w: World, batch: set<int>, now: Time)
    requires LeaseInv(w.clock, w.db.tickets, w.db.holds)
    ensures LeaseStep(w, Next(w, ReapTickets(batch, now)))
  {
    var w' := Next(w, ReapTickets(batch, now));
    if w'.db.tickets != w.db.tickets {
      forall t | t in w.db.tickets
        ensures TicketOk(w'.db.tickets[t], w'.db.holds, w.clock)
        ensures TicketFollows(w.db.tickets[t], w'.db.tickets[t], w.db.holds)
      {
        assert TicketOk(w.db.tickets[t], w.db.holds, w.clock);
        assert t in batch ==> t in LapsedTickets(w.db.tickets, now);
      }
    }
  }

  lemma ReapHoldsKeepsLeases(w: World, now: Time)
    requires LeaseInv(w.clock, w.db.tickets, w.db.holds)
    ensures LeaseStep(w, Next(w, ReapHolds(now)))
  {
    var lapsed := LapsedHolds(w.db.holds, now);
    if now <= w.clock {
      forall t | t in w.db.tickets
        ensures TicketOk(w.db.tickets[t], Displaced(w.db.holds, lapsed), w.clock)
      {
        ExpiringKeepsTicket(w.db.tickets[t], w.db.holds, lapsed, w.clock);
      }
    }
  }

  lemma TickKeepsLeases(w: World, to: Time)
    requires LeaseInv(w.clock, w.db.tickets, w.db.holds)
    ensures LeaseStep(w, Next(w, Tick(to)))
  {
    var w' := Next(w, Tick(to));
    forall t | t in w.db.tickets
      ensures TicketOk(w'.db.tickets[t], w'.db.holds, w'.clock)
    {
      assert TicketOk(w.db.tickets[t], w.db.holds, w.clock);
    }
  }

  // ---------- the leases purchases are holding ----------

  /** A purchase in flight prices exactly the seats it was leased, and nobody else carries that lease. */
  ghost predicate SagaOk(db: DB, s: Saga) {
    HasLease(s.stage) ==>
      && CoversHold(db.tickets, db.holds, s.stage.lease)
      && s.stage.lease.holdId == s.holdId
      && db.holds[s.holdId].userId == s.userId
      && s.stage.lease.total == Total(db.prices, s.stage.lease.ticketIds)
  }

  ghost predicate SagaInv(w: World) {
    forall i :: i in w.sagas ==> SagaOk(w.db, w.sagas[i])
  }

  /** Nothing a later state may do makes a lease miss a seat its hold carries. */
  lemma CoverPersists(w: World, w': World, lease: P.Lease)
    requires LeaseInv(w.clock, w.db.tickets, w.db.holds) && LeaseStep(w, w')
    requires CoversHold(w.db.tickets, w.db.holds, lease)
    ensures CoversHold(w'.db.tickets, w'.db.holds, lease)
  {
    var h := lease.holdId;
    assert HoldFollows(w.db.holds[h], w'.db.holds[h]);
    forall t | t in HeldBy(w'.db.tickets, h) ensures t in Elems(lease.ticketIds) {
      assert TicketFollows(w.db.tickets[t], w'.db.tickets[t], w.db.holds);
      assert TicketOk(w.db.tickets[t], w.db.holds, w.clock);
      assert t in HeldBy(w.db.tickets, h);
    }
    forall t | t in lease.ticketIds ensures t in w'.db.tickets && w'.db.tickets[t].eventId == lease.eventId {
      assert t in w.db.tickets.Keys;
      assert TicketFollows(w.db.tickets[t], w'.db.tickets[t], w.db.holds);
    }
  }

  /** A saga as it stands stays consistent; so does one that moves on with the same lease. */
  lemma SagaPersists(w: World, w': World, s: Saga, s': Saga)
    requires LeaseInv(w.clock, w.db.tickets, w.db.holds) && LeaseStep(w, w')
    requires SagaOk(w.db, s)
    requires s'.userId == s.userId && s'.holdId == s.holdId
    requires HasLease(s'.stage) ==> HasLease(s.stage) && s'.stage.lease == s.stage.lease
    ensures SagaOk(w'.db, s')
  {
    if HasLease(s'.stage) {
      CoverPersists(w, w', s.stage.lease);
      assert HoldFollows(w.db.holds[s.holdId], w'.db.holds[s.holdId]);
    }
  }

  /** The seats a prepared lease lists are those its hold carries, all of the hold's event. */
  lemma PreparedSeats(db: DB, h: Uuid, now: Time, clock: Time)
    requires LeaseInv(clock, db.tickets, db.holds)
    requires h in db.holds && HeldBy(db.tickets, h) != {}
    ensures var ids := P.PreparedLease(db, h, now).ticketIds;
            && Elems(ids) == HeldBy(db.tickets, h) && Ascending(ids) && ids != []
            && (forall t :: t in ids ==> t in db.tickets && db.tickets[t].eventId == db.holds[h].eventId)
  {
    var held := HeldBy(db.tickets, h);
    ElemsOfInOrder(held);
    var t0 := AnyMember(held);
    assert t0 in InOrder(held);
    forall t | t in InOrder(held) ensures t in db.tickets && db.tickets[t].eventId == db.holds[h].eventId {
      assert t in held;
      assert TicketOk(db.tickets[t], db.holds, clock);
    }
  }

  lemma ExtendingKeepsCarriers(tickets: map<int, Ticket>, ids: set<int>, expiresAt: Time, h: Uuid)
    ensures HeldBy(Extended(tickets, ids, expiresAt), h) == HeldBy(tickets, h)
  {
    var tickets' := Extended(tickets, ids, expiresAt);
    forall t ensures t in HeldBy(tickets', h) <==> t in HeldBy(tickets, h) {
      if t in tickets {
        assert HeldUnder(tickets'[t], h) == HeldUnder(tickets[t], h);
      }
    }
  }

  lemma FreshLeaseOk(w: World, i: nat, now: Time)
    requires LeaseInv(w.clock, w.db.tickets, w.db.holds)
    requires i in w.sagas && w.sagas[i].stage.Looked? && now <= w.clock
    ensures var w' := Next(w, Prepare(i, now)); SagaOk(w'.db, w'.sagas[i])
  {
    var s := w.sagas[i];
    var (db, r) := P.PrepareTx(w.db, s.userId, s.holdId, s.token, now);
    if r.Ok? {
      PreparedSeats(w.db, s.holdId, now, w.clock);
      ExtendingKeepsCarriers(w.db.tickets, HeldBy(w.db.tickets, s.holdId), r.value.expiresAt, s.holdId);
      assert CoversHold(db.tickets, db.holds, r.value);
    }
  }

  ghost predicate Inv(w: World) {
    LeaseInv(w.clock, w.db.tickets, w.db.holds) && SagaInv(w) && C.UniqueHoldKeys(w.db.holds)
  }

  lemma ClaimAddsItsHold(w: World, a: C.ClaimArgs)
    ensures var holds' := Next(w, Claim(a)).db.holds;
            || holds'.Keys == w.db.holds.Keys
            || (&& holds'.Keys == w.db.holds.Keys + {a.holdId} && !C.HoldKeyTaken(w.db.holds, a.userId, a.key)
                && holds'[a.holdId].userId == a.userId && holds'[a.holdId].key == a.key)
  {
  }

  /** Only a claim adds a hold, and only under a key its user has not used. */
  lemma StepKeepsHoldKeys(w: World, step: Step)
    requires LeaseStep(w, Next(w, step)) && C.UniqueHoldKeys(w.db.holds)
    ensures C.UniqueHoldKeys(Next(w, step).db.holds)
  {
    var holds, holds' := w.db.holds, Next(w, step).db.holds;
    if step.Claim? {
      ClaimAddsItsHold(w, step.args);
    } else {
      F.StepFrame(w, step);
    }
    assert forall h :: h in holds'.Keys <==>
                         h in holds.Keys || (step.Claim? && h == step.args.holdId && h in holds'.Keys);
    forall h, g | h in holds' && g in holds' && h != g && holds'[h].key.Some?
      ensures holds'[h].userId != holds'[g].userId || holds'[h].key != holds'[g].key
    {
      assert h in holds ==> HoldFollows(holds[h], holds'[h]);
      assert g in holds ==> HoldFollows(holds[g], holds'[g]);
    }
  }

  lemma OthersKeepLeases(w: World, step: Step)
    requires Inv(w) && !F.TouchesLeases(step) && !step.Tick?
    ensures LeaseStep(w, Next(w, step))
  {
    hide Next;
    F.StepFrame(w, step);
  }

  /** The tables after any one step. */
  lemma StepKeepsLeases(w: World, step: Step)
    requires Inv(w)
    ensures LeaseStep(w, Next(w, step))
  {
    hide Next, LeaseInv, Follows;
    match step
    case Tick(to) => TickKeepsLeases(w, to);
    case Claim(a) => ClaimKeepsLeases(w, a);
    case Release(userId, h) => ReleaseKeepsLeases(w, userId, h);
    case Prepare(i, now) => PrepareKeepsLeases(w, i, now);
    case Convert(i, b) =>
      assert i in w.sagas ==> SagaOk(w.db, w.sagas[i]);
      ConvertKeepsLeases(w, i, b);
    case Decline(i, b) => DeclineKeepsLeases(w, i, b);
    case ReapTickets(batch, now) => ReapTicketsKeepsLeases(w, batch, now);
    case ReapHolds(now) => ReapHoldsKeepsLeases(w, now);
    case _ => OthersKeepLeases(w, step);
  }

  /** A saga's identity never changes; a lease it carries on with is the one it had, unless this step prepared it. */
  lemma SagasFollow(w: World, step: Step, j: nat)
    requires j in Next(w, step).sagas
    ensures var s' := Next(w, step).sagas[j];
            && (j in w.sagas ==> s'.userId == w.sagas[j].userId && s'.holdId == w.sagas[j].holdId
                                 && s'.token == w.sagas[j].token && s'.key == w.sagas[j].key)
            && (HasLease(s'.stage) ==>
                  || (j in w.sagas && HasLease(w.sagas[j].stage) && s'.stage.lease == w.sagas[j].stage.lease)
                  || (step.Prepare? && step.saga == j && j in w.sagas && w.sagas[j].stage.Looked?
                      && step.now <= w.clock))
  {
    F.SagaFrame(w, step);
  }

  lemma StepKeepsInv(w: World, step: Step)
    requires Inv(w)
    ensures Inv(Next(w, step)) && Follows(w, Next(w, step))
  {
    var w' := Next(w, step);
    StepKeepsLeases(w, step);
    StepKeepsHoldKeys(w, step);
    forall j | j in w'.sagas ensures SagaOk(w'.db, w'.sagas[j]) {
      SagasFollow(w, step, j);
      if HasLease(w'.sagas[j].stage) {
        if j in w.sagas && HasLease(w.sagas[j].stage) && w'.sagas[j].stage.lease == w.sagas[j].stage.lease {
          SagaPersists(w, w', w.sagas[j], w'.sagas[j]);
        } else {
          FreshLeaseOk(w, j, step.now);
        }
      }
    }
  }

  // ---------- every run ----------

  lemma InitialInv(w: World)
    requires Initial(w)
    ensures Inv(w)
  {
    forall t | t in w.db.tickets ensures TicketOk(w.db.tickets[t], w.db.holds, w.clock) {
      assert Unclaimed(w.db.tickets[t]);
    }
  }

  lemma {:induction false} RunKeepsInv(w: World, steps: seq<Step>)
    requires Inv(w)
    ensures Inv(Exec(w, steps)) && Follows(w, Exec(w, steps))
    decreases |steps|
  {
    if steps == [] {
    } else {
      StepKeepsInv(w, steps[0]);
      RunKeepsInv(Next(w, steps[0]), steps[1..]);
      FollowsTransitive(w, Next(w, steps[0]), Exec(w, steps));
    }
  }
}
