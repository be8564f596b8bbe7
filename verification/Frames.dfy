/** What each step leaves alone, table by table. */
module Frames {
  import opened Common
  import opened Tables
  import opened Protocol
  import C = Claims
  import P = Purchases
  import Charges

  /** A purchase keeps who it is for, and the lease it has, if it still needs one. */
  predicate Advances(s: Saga, s': Saga) {
    && s' == s.(stage := s'.stage) && !s.stage.Done? && !s'.stage.Looked?
    && (HasLease(s'.stage) ==> HasLease(s.stage) && s'.stage.lease == s.stage.lease)
  }

  /** At most purchase i has moved. */
  predicate OneMoves(w: World, w': World, i: nat) {
    || w'.sagas == w.sagas
    || (&& i in w.sagas && i in w'.sagas && w'.sagas == w.sagas[i := w'.sagas[i]] && Advances(w.sagas[i], w'.sagas[i]))
  }

  // ---------- step by step ----------

  /** The world with other sagas, and other tables where the step may write them. */
  lemma TickFrame(w: World, to: Time)
    ensures var w' := Next(w, Tick(to)); w' == w.(clock := w'.clock)
  {
  }

  lemma ClaimFrame(w: World, a: C.ClaimArgs)
    ensures var w' := Next(w, Claim(a)); w' == w.(db := w.db.(tickets := w'.db.tickets, holds := w'.db.holds))
  {
  }

  lemma ReleaseFrame(w: World, userId: string, h: Uuid)
    ensures var w' := Next(w, Release(userId, h));
            && w' == w.(db := w.db.(tickets := w'.db.tickets, holds := w'.db.holds))
            && w'.db.holds.Keys == w.db.holds.Keys
  {
  }

  lemma BeginFrame(w: World, i: nat, userId: string, h: Uuid, token: string, key: string)
    ensures var w' := Next(w, Begin(i, userId, h, token, key));
            && w' == w.(sagas := w'.sagas)
            && (w'.sagas == w.sagas
                || (&& i !in w.sagas && i in w'.sagas && w'.sagas == w.sagas[i := w'.sagas[i]] && key != ""
                    && w'.sagas[i] == Saga(userId, h, token, key, w'.sagas[i].stage) && !HasLease(w'.sagas[i].stage)))
  {
  }

  lemma PrepareTxFrame(db: DB, userId: string, h: Uuid, token: string, now: Time)
    ensures var db' := P.PrepareTx(db, userId, h, token, now).0;
            db' == db.(tickets := db'.tickets, holds := db'.holds) && db'.holds.Keys == db.holds.Keys
  {
  }

  lemma PrepareFrame(w: World, i: nat, now: Time)
    ensures var w' := Next(w, Prepare(i, now));
            && w' == w.(db := w.db.(tickets := w'.db.tickets, holds := w'.db.holds), sagas := w'.sagas)
            && w'.db.holds.Keys == w.db.holds.Keys
            && (w'.sagas == w.sagas
                || (&& i in w.sagas && w.sagas[i].stage.Looked? && now <= w.clock && i in w'.sagas
                    && w'.sagas == w.sagas[i := w'.sagas[i]]
                    && (w'.sagas[i].stage.Leased? || w'.sagas[i].stage.Done?)
                    && w'.sagas[i] == w.sagas[i].(stage := w'.sagas[i].stage)))
  {
    if i in w.sagas && w.sagas[i].stage.Looked? {
      PrepareTxFrame(w.db, w.sagas[i].userId, w.sagas[i].holdId, w.sagas[i].token, now);
    }
  }

  lemma OpenPaymentFrame(w: World, i: nat, p: Uuid)
    ensures var w' := Next(w, OpenPayment(i, p));
            && w' == w.(db := w.db.(payments := w'.db.payments), sagas := w'.sagas)
            && OneMoves(w, w', i)
  {
    hide Charges.PaymentKeyTaken, Charges.Chargeable, Replayed;
    if i in w.sagas && w.sagas[i].stage.Leased? && Charges.PaymentKeyTaken(w.db.payments, PaymentKey(w.sagas[i].key)) {
      var q := Charges.PaymentOf(w.db.payments, PaymentKey(w.sagas[i].key));
      ReplayKeepsLease(w.db.payments[q], q, w.sagas[i].stage.lease);
    }
  }

  lemma ReplayKeepsLease(payment: Payment, q: Uuid, lease: P.Lease)
    ensures var stage := Replayed(payment, q, lease); !stage.Looked? && (HasLease(stage) ==> stage.lease == lease)
  {
  }

  lemma CallProviderFrame(w: World, i: nat, answer: Charges.Answer)
    ensures var w' := Next(w, CallProvider(i, answer));
            && w' == w.(sagas := w'.sagas, charges := w'.charges)
            && OneMoves(w, w', i)
  {
  }

  lemma AnswerFrame(db: DB, p: Uuid, answer: Charges.Answer)
    requires p in db.payments
    ensures var db' := Charges.RecordAnswer(db, p, answer); db' == db.(payments := db'.payments)
  {
  }

  lemma RecordPaymentFrame(w: World, i: nat)
    ensures var w' := Next(w, RecordPayment(i));
            && w' == w.(db := w.db.(payments := w'.db.payments), sagas := w'.sagas)
            && OneMoves(w, w', i)
  {
    if i in w.sagas && w.sagas[i].stage.Answered? && w.sagas[i].stage.paymentId in w.db.payments {
      AnswerFrame(w.db, w.sagas[i].stage.paymentId, w.sagas[i].stage.answer);
    }
  }

  lemma ConvertFrame(w: World, i: nat, b: Uuid)
    ensures var w' := Next(w, Convert(i, b));
            && w' == w.(db := w.db.(tickets := w'.db.tickets, holds := w'.db.holds, bookings := w'.db.bookings,
                                    outbox := w'.db.outbox),
                        sagas := w'.sagas)
            && w'.db.holds.Keys == w.db.holds.Keys
            && OneMoves(w, w', i)
  {
  }

  lemma DeclineFrame(w: World, i: nat, b: Uuid)
    ensures var w' := Next(w, Decline(i, b));
            && w' == w.(db := w.db.(tickets := w'.db.tickets, holds := w'.db.holds, bookings := w'.db.bookings),
                        sagas := w'.sagas)
            && w'.db.holds.Keys == w.db.holds.Keys
            && OneMoves(w, w', i)
  {
  }

  lemma OweTxFrame(db: DB, userId: string, lease: P.Lease, p: Uuid, key: string, b: Uuid)
    ensures var db' := P.OweTx(db, userId, lease, p, key, b).0; db' == db.(bookings := db'.bookings)
  {
  }

  lemma OweFrame(w: World, i: nat, b: Uuid)
    ensures var w' := Next(w, Owe(i, b));
            && w' == w.(db := w.db.(bookings := w'.db.bookings), sagas := w'.sagas)
            && OneMoves(w, w', i)
  {
    if i in w.sagas && w.sagas[i].stage.SeatsLost? && b !in w.db.bookings {
      var s := w.sagas[i];
      OweTxFrame(w.db, s.userId, s.stage.lease, s.stage.paymentId, s.key, b);
    }
  }

  lemma CallRefundFrame(w: World, i: nat, accepted: bool)
    ensures var w' := Next(w, CallRefund(i, accepted));
            && w' == w.(sagas := w'.sagas, refunds := w'.refunds)
            && OneMoves(w, w', i)
  {
  }

  lemma StampRefundFrame(w: World, i: nat, now: Time)
    ensures var w' := Next(w, StampRefund(i, now));
            && w' == w.(db := w.db.(payments := w'.db.payments), sagas := w'.sagas)
            && OneMoves(w, w', i)
  {
  }

  lemma SettleFrame(w: World, i: nat)
    ensures var w' := Next(w, Settle(i));
            && w' == w.(db := w.db.(bookings := w'.db.bookings), sagas := w'.sagas)
            && OneMoves(w, w', i)
  {
  }

  lemma ReapTicketsFrame(w: World, batch: set<int>, now: Time)
    ensures var w' := Next(w, ReapTickets(batch, now)); w' == w.(db := w.db.(tickets := w'.db.tickets))
  {
  }

  lemma ReapHoldsFrame(w: World, now: Time)
    ensures var w' := Next(w, ReapHolds(now));
            w' == w.(db := w.db.(holds := w'.db.holds)) && w'.db.holds.Keys == w.db.holds.Keys
  {
    assert Displaced(w.db.holds, LapsedHolds(w.db.holds, now)).Keys == w.db.holds.Keys;
  }

  predicate TouchesPayments(step: Step) {
    step.OpenPayment? || step.RecordPayment? || step.StampRefund?
  }

  predicate TouchesBookings(step: Step) {
    step.Convert? || step.Decline? || step.Owe? || step.Settle?
  }

  predicate TouchesLeases(step: Step) {
    || step.Claim? || step.Release? || step.Prepare? || step.Convert? || step.Decline?
    || step.ReapTickets? || step.ReapHolds?
  }

  /** Each table is written by the steps named for it and by no other; prices and events by none. */
  lemma StepFrame(w: World, step: Step)
    ensures var w' := Next(w, step);
            && w'.db.events == w.db.events && w'.db.prices == w.db.prices
            && (!TouchesPayments(step) ==> w'.db.payments == w.db.payments)
            && (!TouchesBookings(step) ==> w'.db.bookings == w.db.bookings)
            && (!TouchesLeases(step) ==> w'.db.tickets == w.db.tickets && w'.db.holds == w.db.holds)
            && (!step.Claim? ==> w'.db.holds.Keys == w.db.holds.Keys)
            && (!step.Convert? ==> w'.db.outbox == w.db.outbox)
            && (!step.CallProvider? ==> w'.charges == w.charges)
            && (!step.CallRefund? ==> w'.refunds == w.refunds)
            && (!step.Tick? ==> w'.clock == w.clock)
  {
    match step
    case Tick(to) => TickFrame(w, to);
    case Claim(a) => ClaimFrame(w, a);
    case Release(userId, h) => ReleaseFrame(w, userId, h);
    case Begin(i, userId, h, token, key) => BeginFrame(w, i, userId, h, token, key);
    case Prepare(i, now) => PrepareFrame(w, i, now);
    case OpenPayment(i, p) => OpenPaymentFrame(w, i, p);
    case CallProvider(i, answer) => CallProviderFrame(w, i, answer);
    case RecordPayment(i) => RecordPaymentFrame(w, i);
    case Convert(i, b) => ConvertFrame(w, i, b);
    case Decline(i, b) => DeclineFrame(w, i, b);
    case Owe(i, b) => OweFrame(w, i, b);
    case CallRefund(i, accepted) => CallRefundFrame(w, i, accepted);
    case StampRefund(i, now) => StampRefundFrame(w, i, now);
    case Settle(i) => SettleFrame(w, i);
    case ReapTickets(batch, now) => ReapTicketsFrame(w, batch, now);
    case ReapHolds(now) => ReapHoldsFrame(w, now);
  }

  /** Purchase s' came from s by preparing its lease. */
  predicate Prepares(w: World, step: Step, j: nat, s: Saga, s': Saga) {
    && step.Prepare? && step.saga == j && s.stage.Looked? && step.now <= w.clock
    && s' == s.(stage := s'.stage) && !s'.stage.Looked?
  }

  predicate Begins(step: Step, j: nat, s': Saga) {
    && step.Begin? && step.saga == j && step.key != ""
    && s' == Saga(step.userId, step.holdId, step.token, step.key, s'.stage) && !HasLease(s'.stage)
  }

  /** Purchases are never forgotten; each is as it was, has advanced, has just been prepared or has just begun. */
  lemma SagaFrame(w: World, step: Step)
    ensures w.sagas.Keys <= Next(w, step).sagas.Keys
    ensures forall j :: j in Next(w, step).sagas ==>
              var s' := Next(w, step).sagas[j];
              if j in w.sagas then
                s' == w.sagas[j] || Advances(w.sagas[j], s') || Prepares(w, step, j, w.sagas[j], s')
              else Begins(step, j, s')
  {
    match step
    case Tick(to) => TickFrame(w, to);
    case Claim(a) => ClaimFrame(w, a);
    case Release(userId, h) => ReleaseFrame(w, userId, h);
    case Begin(i, userId, h, token, key) => BeginFrame(w, i, userId, h, token, key);
    case Prepare(i, now) => PrepareFrame(w, i, now);
    case OpenPayment(i, p) => OpenPaymentFrame(w, i, p);
    case CallProvider(i, answer) => CallProviderFrame(w, i, answer);
    case RecordPayment(i) => RecordPaymentFrame(w, i);
    case Convert(i, b) => ConvertFrame(w, i, b);
    case Decline(i, b) => DeclineFrame(w, i, b);
    case Owe(i, b) => OweFrame(w, i, b);
    case CallRefund(i, accepted) => CallRefundFrame(w, i, accepted);
    case StampRefund(i, now) => StampRefundFrame(w, i, now);
    case Settle(i) => SettleFrame(w, i);
    case ReapTickets(batch, now) => ReapTicketsFrame(w, batch, now);
    case ReapHolds(now) => ReapHoldsFrame(w, now);
  }
}
