/**
 Tickets that are added while booking is under way might as well have been there from the start: no step looks at a
 ticket it does not name, and a claim that names one too early fails.
 */
module LateTickets {
  import opened Common
  import opened Tables
  import opened Protocol
  import C = Claims
  import Charges
  import F = Frames
  import L = Leases
  import P = Purchases
  import Publishing
  import Sales

  /** The tables with more tickets, and with the price list and the events that go with them. */
  function With(db: DB, more: map<int, Ticket>, prices: map<int, nat>, events: map<int, Event>): DB {
    db.(tickets := db.tickets + more, prices := prices, events := events)
  }

  function Later(w: World, more: map<int, Ticket>, prices: map<int, nat>, events: map<int, Event>): World {
    w.(db := With(w.db, more, prices, events))
  }

  /** The tickets are new and unclaimed, and the prices of those already there are as before. */
  ghost predicate Addable(db: DB, more: map<int, Ticket>, prices: map<int, nat>) {
    && Fresh(db.tickets, more)
    && forall t :: t in db.tickets ==> PriceOf(prices, t) == PriceOf(db.prices, t)
  }

  // ---------- what the WHERE clauses select ----------

  ghost predicate Fresh(tickets: map<int, Ticket>, more: map<int, Ticket>) {
    tickets.Keys !! more.Keys && forall t :: t in more ==> Unclaimed(more[t])
  }

  lemma OneOf(tickets: map<int, Ticket>, more: map<int, Ticket>, t: int)
    requires Fresh(tickets, more) && t in tickets + more
    ensures t in tickets ==> t !in more && (tickets + more)[t] == tickets[t]
    ensures t !in tickets ==> t in more && (tickets + more)[t] == more[t] && Unclaimed(more[t])
  {
    assert t in more ==> t in more.Keys;
  }

  lemma NoneHeld(tickets: map<int, Ticket>, more: map<int, Ticket>, h: Uuid)
    requires Fresh(tickets, more)
    ensures HeldBy(tickets + more, h) == HeldBy(tickets, h)
  {
    forall t ensures t in HeldBy(tickets + more, h) <==> t in HeldBy(tickets, h) {
      if t in tickets + more {
        OneOf(tickets, more, t);
      }
    }
  }

  lemma NoneLapsed(tickets: map<int, Ticket>, more: map<int, Ticket>, now: Time)
    requires Fresh(tickets, more)
    ensures LapsedTickets(tickets + more, now) == LapsedTickets(tickets, now)
  {
    forall t ensures t in LapsedTickets(tickets + more, now) <==> t in LapsedTickets(tickets, now) {
      if t in tickets + more {
        OneOf(tickets, more, t);
      }
    }
  }

  lemma NoneConvertible(tickets: map<int, Ticket>, more: map<int, Ticket>, lease: P.Lease)
    requires Fresh(tickets, more)
    ensures P.Convertible(tickets + more, lease) == P.Convertible(tickets, lease)
  {
    forall t ensures t in P.Convertible(tickets + more, lease) <==> t in P.Convertible(tickets, lease) {
      if t in tickets + more {
        OneOf(tickets, more, t);
      }
    }
  }

  lemma HeldAreRows(tickets: map<int, Ticket>, h: Uuid)
    ensures HeldBy(tickets, h) <= tickets.Keys
  {
  }

  lemma FreshApart(tickets: map<int, Ticket>, more: map<int, Ticket>)
    requires Fresh(tickets, more)
    ensures tickets.Keys !! more.Keys
  {
  }

  // ---------- what the updates write ----------

  lemma FreedAside(tickets: map<int, Ticket>, more: map<int, Ticket>, ids: set<int>)
    requires ids <= tickets.Keys && tickets.Keys !! more.Keys
    ensures Freed(tickets + more, ids) == Freed(tickets, ids) + more
  {
  }

  lemma TakenAside(tickets: map<int, Ticket>, more: map<int, Ticket>, ids: set<int>, h: Uuid, expiresAt: Time)
    requires ids !! more.Keys && tickets.Keys !! more.Keys
    ensures Taken(tickets + more, ids, h, expiresAt) == Taken(tickets, ids, h, expiresAt) + more
  {
  }

  lemma ExtendedAside(tickets: map<int, Ticket>, more: map<int, Ticket>, ids: set<int>, expiresAt: Time)
    requires ids <= tickets.Keys && tickets.Keys !! more.Keys
    ensures Extended(tickets + more, ids, expiresAt) == Extended(tickets, ids, expiresAt) + more
  {
  }

  lemma SoldAside(tickets: map<int, Ticket>, more: map<int, Ticket>, ids: set<int>, b: Uuid)
    requires ids <= tickets.Keys && tickets.Keys !! more.Keys
    ensures SoldUnder(tickets + more, ids, b) == SoldUnder(tickets, ids, b) + more
  {
  }

  lemma {:induction false} SameTotal(prices: map<int, nat>, prices': map<int, nat>, ids: seq<int>)
    requires forall t :: t in ids ==> PriceOf(prices', t) == PriceOf(prices, t)
    ensures Total(prices', ids) == Total(prices, ids)
  {
    hide PriceOf;
    if ids == [] {
    } else {
      assert ids[|ids| - 1] in ids;
      SameTotal(prices, prices', ids[..|ids| - 1]);
    }
  }

  // ---------- the transactions ----------

  /** The claim names one of the tickets. */
  predicate Names(step: Step, ids: set<int>) {
    step.Claim? && step.args.ids * ids != {}
  }

  lemma SameRows(db: DB, a: C.ClaimArgs, more: map<int, Ticket>, prices: map<int, nat>, events: map<int, Event>,
      t: int)
    requires a.ids !! more.Keys && t in a.ids
    ensures var db' := With(db, more, prices, events);
            && (C.InEvent(db', a.eventId, t) <==> C.InEvent(db, a.eventId, t))
            && (t in db.tickets ==> t in db'.tickets && db'.tickets[t] == db.tickets[t])
  {
    assert t !in more.Keys;
  }

  lemma SameSelections(db: DB, a: C.ClaimArgs, more: map<int, Ticket>, prices: map<int, nat>, events: map<int, Event>)
    requires a.ids !! more.Keys
    ensures var db' := With(db, more, prices, events);
            && (forall t :: t in a.ids ==> (C.InEvent(db', a.eventId, t) <==> C.InEvent(db, a.eventId, t)))
            && C.Unclaimable(db', a) == C.Unclaimable(db, a) && C.DisplacedBy(db', a) == C.DisplacedBy(db, a)
  {
    var db' := With(db, more, prices, events);
    forall t | t in a.ids
      ensures C.InEvent(db', a.eventId, t) <==> C.InEvent(db, a.eventId, t)
      ensures t in db.tickets ==> t in db'.tickets && db'.tickets[t] == db.tickets[t]
    {
      SameRows(db, a, more, prices, events, t);
    }
    SameDisplaced(db, db', a);
  }

  lemma ClaimAside(db: DB, a: C.ClaimArgs, more: map<int, Ticket>, prices: map<int, nat>, events: map<int, Event>)
    requires Addable(db, more, prices) && a.ids !! more.Keys
    ensures C.ClaimTx(With(db, more, prices, events), a).0 == With(C.ClaimTx(db, a).0, more, prices, events)
  {
    hide Taken, Displaced, C.Unclaimable, C.DisplacedBy, C.InEvent, InOrder, C.HoldKeyTaken;
    SameSelections(db, a, more, prices, events);
    TakenAside(db.tickets, more, a.ids, a.holdId, a.now + HOLD_TTL);
  }

  lemma SameDisplaced(db: DB, db': DB, a: C.ClaimArgs)
    requires forall t :: t in a.ids ==> (C.InEvent(db', a.eventId, t) <==> C.InEvent(db, a.eventId, t))
    requires forall t :: t in a.ids && t in db.tickets ==> t in db'.tickets && db'.tickets[t] == db.tickets[t]
    ensures C.DisplacedBy(db', a) == C.DisplacedBy(db, a)
  {
  }

  /** A claim of a ticket that is not there yet fails. */
  lemma EarlyClaimFails(w: World, a: C.ClaimArgs, more: map<int, Ticket>)
    requires w.db.tickets.Keys !! more.Keys && a.ids * more.Keys != {}
    ensures Next(w, Claim(a)) == w
  {
    var t := AnyMember(a.ids * more.Keys);
    assert t in a.ids && !C.InEvent(w.db, a.eventId, t);
    assert C.ClaimTx(w.db, a).0 == w.db;
  }

  lemma ReleaseAside(db: DB, userId: string, h: Uuid, more: map<int, Ticket>, prices: map<int, nat>,
      events: map<int, Event>)
    requires Addable(db, more, prices)
    ensures C.ReleaseTx(With(db, more, prices, events), userId, h).0
            == With(C.ReleaseTx(db, userId, h).0, more, prices, events)
  {
    NoneHeld(db.tickets, more, h);
    FreedAside(db.tickets, more, HeldBy(db.tickets, h));
    hide HeldBy, Freed;
  }

  lemma LeaseAside(db: DB, h: Uuid, now: Time, more: map<int, Ticket>, prices: map<int, nat>,
      events: map<int, Event>)
    requires Addable(db, more, prices) && h in db.holds
    ensures P.PreparedLease(With(db, more, prices, events), h, now) == P.PreparedLease(db, h, now)
  {
    NoneHeld(db.tickets, more, h);
    SameTotal(db.prices, prices, InOrder(HeldBy(db.tickets, h)));
  }

  lemma PrepareAside(db: DB, userId: string, h: Uuid, token: string, now: Time, more: map<int, Ticket>,
      prices: map<int, nat>, events: map<int, Event>)
    requires Addable(db, more, prices)
    ensures var (db', r) := P.PrepareTx(db, userId, h, token, now);
            P.PrepareTx(With(db, more, prices, events), userId, h, token, now) == (With(db', more, prices, events), r)
  {
    hide HeldBy, Extended, P.PreparedLease, Fresh;
    if h in db.holds {
      LeaseAside(db, h, now, more, prices, events);
      NoneHeld(db.tickets, more, h);
      HeldAreRows(db.tickets, h);
      FreshApart(db.tickets, more);
      ExtendedAside(db.tickets, more, HeldBy(db.tickets, h), P.PreparedLease(db, h, now).expiresAt);
    }
  }

  lemma ConvertAside(db: DB, userId: string, lease: P.Lease, p: Uuid, key: string, b: Uuid, more: map<int, Ticket>,
      prices: map<int, nat>, events: map<int, Event>)
    requires Addable(db, more, prices)
    ensures var (db', outcome) := P.ConvertTx(db, userId, lease, p, key, b);
            P.ConvertTx(With(db, more, prices, events), userId, lease, p, key, b)
            == (With(db', more, prices, events), outcome)
  {
    NoneConvertible(db.tickets, more, lease);
    SoldAside(db.tickets, more, P.Convertible(db.tickets, lease), b);
    hide P.Convertible, SoldUnder, P.BookingKeyTaken;
  }

  lemma DeclineAside(db: DB, userId: string, lease: P.Lease, p: Uuid, key: string, reason: string, b: Uuid,
      more: map<int, Ticket>, prices: map<int, nat>, events: map<int, Event>)
    requires Addable(db, more, prices)
    ensures P.DeclineTx(With(db, more, prices, events), userId, lease, p, key, reason, b).0
            == With(P.DeclineTx(db, userId, lease, p, key, reason, b).0, more, prices, events)
  {
    NoneHeld(db.tickets, more, lease.holdId);
    FreedAside(db.tickets, more, HeldBy(db.tickets, lease.holdId));
    hide HeldBy, Freed, P.BookingKeyTaken;
  }

  // ---------- the steps ----------

  lemma NoneShared(a: set<int>, b: set<int>)
    requires a * b == {}
    ensures a !! b
  {
    forall x | x in a ensures x !in b {
      assert x in a * b <==> x in b;
    }
  }

  lemma ClaimLater(w: World, a: C.ClaimArgs, more: map<int, Ticket>, prices: map<int, nat>, events: map<int, Event>)
    requires Addable(w.db, more, prices) && !Names(Claim(a), more.Keys)
    ensures Next(Later(w, more, prices, events), Claim(a)) == Later(Next(w, Claim(a)), more, prices, events)
  {
    hide C.ClaimTx;
    NoneShared(a.ids, more.Keys);
    ClaimAside(w.db, a, more, prices, events);
  }

  lemma ReleaseLater(w: World, userId: string, h: Uuid, more: map<int, Ticket>, prices: map<int, nat>,
      events: map<int, Event>)
    requires Addable(w.db, more, prices)
    ensures Next(Later(w, more, prices, events), Release(userId, h))
            == Later(Next(w, Release(userId, h)), more, prices, events)
  {
    hide C.ReleaseTx;
    ReleaseAside(w.db, userId, h, more, prices, events);
  }

  lemma PrepareLater(w: World, i: nat, now: Time, more: map<int, Ticket>, prices: map<int, nat>,
      events: map<int, Event>)
    requires Addable(w.db, more, prices)
    ensures Next(Later(w, more, prices, events), Prepare(i, now))
            == Later(Next(w, Prepare(i, now)), more, prices, events)
  {
    hide P.PrepareTx, Addable;
    if i in w.sagas {
      var s := w.sagas[i];
      PrepareAside(w.db, s.userId, s.holdId, s.token, now, more, prices, events);
    }
  }

  lemma ConvertLater(w: World, i: nat, b: Uuid, more: map<int, Ticket>, prices: map<int, nat>,
      events: map<int, Event>)
    requires Addable(w.db, more, prices)
    ensures Next(Later(w, more, prices, events), Convert(i, b))
            == Later(Next(w, Convert(i, b)), more, prices, events)
  {
    hide P.ConvertTx, Addable;
    if i in w.sagas && w.sagas[i].stage.Paid? {
      var s := w.sagas[i];
      ConvertAside(w.db, s.userId, s.stage.lease, s.stage.paymentId, s.key, b, more, prices, events);
    }
  }

  lemma DeclineLater(w: World, i: nat, b: Uuid, more: map<int, Ticket>, prices: map<int, nat>,
      events: map<int, Event>)
    requires Addable(w.db, more, prices)
    ensures Next(Later(w, more, prices, events), Decline(i, b))
            == Later(Next(w, Decline(i, b)), more, prices, events)
  {
    hide P.DeclineTx, Addable;
    if i in w.sagas && w.sagas[i].stage.TurnedDown? && w.sagas[i].stage.paymentId in w.db.payments {
      var s := w.sagas[i];
      var reason := w.db.payments[s.stage.paymentId].reason;
      DeclineAside(w.db, s.userId, s.stage.lease, s.stage.paymentId, s.key, reason, b, more, prices, events);
    }
  }

  lemma LapsedAreRows(tickets: map<int, Ticket>, now: Time)
    ensures LapsedTickets(tickets, now) <= tickets.Keys
  {
  }

  lemma ReapIs(w: World, batch: set<int>, now: Time)
    ensures Next(w, ReapTickets(batch, now))
            == if w.clock < now || |batch| > REAP_BATCH_SIZE || !(batch <= LapsedTickets(w.db.tickets, now)) then w
               else w.(db := w.db.(tickets := Freed(w.db.tickets, batch)))
  {
    hide LapsedTickets, Freed;
  }

  lemma ReapLater(w: World, batch: set<int>, now: Time, more: map<int, Ticket>, prices: map<int, nat>,
      events: map<int, Event>)
    requires Addable(w.db, more, prices)
    ensures Next(Later(w, more, prices, events), ReapTickets(batch, now))
            == Later(Next(w, ReapTickets(batch, now)), more, prices, events)
  {
    hide Next, LapsedTickets, Freed, Fresh;
    ReapIs(w, batch, now);
    ReapIs(Later(w, more, prices, events), batch, now);
    NoneLapsed(w.db.tickets, more, now);
    if batch <= LapsedTickets(w.db.tickets, now) {
      LapsedAreRows(w.db.tickets, now);
      FreshApart(w.db.tickets, more);
      FreedAside(w.db.tickets, more, batch);
    }
  }

  /** The steps that read and write neither tickets, nor prices, nor events. */
  lemma OtherLater(w: World, step: Step, more: map<int, Ticket>, prices: map<int, nat>, events: map<int, Event>)
    requires !F.TouchesLeases(step) || step.ReapHolds?
    ensures Next(Later(w, more, prices, events), step) == Later(Next(w, step), more, prices, events)
  {
    hide Next;
    if step.OpenPayment? {
      OpenPaymentLater(w, step, more, prices, events);
    } else if step.CallProvider? {
      CallProviderLater(w, step, more, prices, events);
    } else if step.RecordPayment? {
      RecordPaymentLater(w, step, more, prices, events);
    } else if step.Owe? || step.CallRefund? {
      RefundLater(w, step, more, prices, events);
    } else if step.StampRefund? || step.Settle? {
      SettleLater(w, step, more, prices, events);
    } else {
      RestLater(w, step, more, prices, events);
    }
  }

  lemma OpenPaymentLater(w: World, step: Step, more: map<int, Ticket>, prices: map<int, nat>, events: map<int, Event>)
    requires step.OpenPayment?
    ensures Next(Later(w, more, prices, events), step) == Later(Next(w, step), more, prices, events)
  {
  }

  lemma CallProviderLater(w: World, step: Step, more: map<int, Ticket>, prices: map<int, nat>, events: map<int, Event>)
    requires step.CallProvider?
    ensures Next(Later(w, more, prices, events), step) == Later(Next(w, step), more, prices, events)
  {
  }

  lemma AnswerAside(db: DB, p: Uuid, answer: Charges.Answer, more: map<int, Ticket>, prices: map<int, nat>,
      events: map<int, Event>)
    requires p in db.payments
    ensures Charges.RecordAnswer(With(db, more, prices, events), p, answer)
            == With(Charges.RecordAnswer(db, p, answer), more, prices, events)
  {
  }

  lemma RecordPaymentLater(w: World, step: Step, more: map<int, Ticket>, prices: map<int, nat>, events: map<int, Event>)
    requires step.RecordPayment?
    ensures Next(Later(w, more, prices, events), step) == Later(Next(w, step), more, prices, events)
  {
    hide Charges.RecordAnswer;
    var i := step.saga;
    if i in w.sagas && w.sagas[i].stage.Answered? && w.sagas[i].stage.paymentId in w.db.payments {
      AnswerAside(w.db, w.sagas[i].stage.paymentId, w.sagas[i].stage.answer, more, prices, events);
    }
  }

  lemma RefundLater(w: World, step: Step, more: map<int, Ticket>, prices: map<int, nat>, events: map<int, Event>)
    requires step.Owe? || step.CallRefund?
    ensures Next(Later(w, more, prices, events), step) == Later(Next(w, step), more, prices, events)
  {
  }

  lemma SettleLater(w: World, step: Step, more: map<int, Ticket>, prices: map<int, nat>, events: map<int, Event>)
    requires step.StampRefund? || step.Settle?
    ensures Next(Later(w, more, prices, events), step) == Later(Next(w, step), more, prices, events)
  {
  }

  lemma RestLater(w: World, step: Step, more: map<int, Ticket>, prices: map<int, nat>, events: map<int, Event>)
    requires step.Tick? || step.Begin? || step.ReapHolds?
    ensures Next(Later(w, more, prices, events), step) == Later(Next(w, step), more, prices, events)
  {
  }

  lemma StepLater(w: World, step: Step, more: map<int, Ticket>, prices: map<int, nat>, events: map<int, Event>)
    requires Addable(w.db, more, prices) && !Names(step, more.Keys)
    ensures Next(Later(w, more, prices, events), step) == Later(Next(w, step), more, prices, events)
  {
    hide Next, Addable, Later;
    match step
    case Claim(a) => ClaimLater(w, a, more, prices, events);
    case Release(userId, h) => ReleaseLater(w, userId, h, more, prices, events);
    case Prepare(i, now) => PrepareLater(w, i, now, more, prices, events);
    case Convert(i, b) => ConvertLater(w, i, b, more, prices, events);
    case Decline(i, b) => DeclineLater(w, i, b, more, prices, events);
    case ReapTickets(batch, now) => ReapLater(w, batch, now, more, prices, events);
    case _ => OtherLater(w, step, more, prices, events);
  }

  // ---------- runs ----------

  /** The steps less the claims that name one of the tickets. */
  function Without(steps: seq<Step>, ids: set<int>): seq<Step> {
    if steps == [] then []
    else (if Names(steps[0], ids) then [] else [steps[0]]) + Without(steps[1..], ids)
  }

  lemma StillAddable(w: World, step: Step, more: map<int, Ticket>, prices: map<int, nat>)
    requires L.Inv(w) && Addable(w.db, more, prices)
    ensures Addable(Next(w, step).db, more, prices)
  {
    Publishing.BookingStepsAreSells(w, step);
    F.StepFrame(w, step);
    hide Next, L.Inv;
    assert Next(w, step).db.tickets.Keys == w.db.tickets.Keys;
    forall t | t in Next(w, step).db.tickets
      ensures t in w.db.tickets
    {
      assert t in Next(w, step).db.tickets.Keys;
    }
  }

  /** The same run with the tickets there from the start, its premature claims left out, ends with them added. */
  lemma {:induction false} RunLater(w: World, steps: seq<Step>, more: map<int, Ticket>, prices: map<int, nat>,
      events: map<int, Event>)
    requires Sales.AllInv(w) && Addable(w.db, more, prices)
    ensures Exec(Later(w, more, prices, events), Without(steps, more.Keys))
            == Later(Exec(w, steps), more, prices, events)
    decreases |steps|
  {
    hide Next, Later, Addable, Names, Sales.AllInv;
    if steps == [] {
    } else {
      var rest := Without(steps[1..], more.Keys);
      var w1 := Next(w, steps[0]);
      Sales.StepKeepsAll(w, steps[0]);
      LeaseInvOf(w);
      StillAddable(w, steps[0], more, prices);
      RunLater(w1, steps[1..], more, prices, events);
      if Names(steps[0], more.Keys) {
        NamedFails(w, steps[0], more, prices);
        assert Without(steps, more.Keys) == rest;
      } else {
        StepLater(w, steps[0], more, prices, events);
        assert Without(steps, more.Keys) == [steps[0]] + rest;
        assert ([steps[0]] + rest)[1..] == rest;
      }
    }
  }

  lemma LeaseInvOf(w: World)
    requires Sales.AllInv(w)
    ensures L.Inv(w)
  {
  }

  lemma NamedFails(w: World, step: Step, more: map<int, Ticket>, prices: map<int, nat>)
    requires Names(step, more.Keys) && Addable(w.db, more, prices)
    ensures Next(w, step) == w
  {
    EarlyClaimFails(w, step.args, more);
  }
}
