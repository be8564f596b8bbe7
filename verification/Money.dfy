/** What every reachable state says about payments, bookings and refund obligations. */
module Money {
  import opened Common
  import opened Tables
  import opened Charges
  import opened Protocol
  import F = Frames
  import P = Purchases

  // ---------- the invariant, table by table ----------

  /** A refund is stamped only on money that was taken, and money taken has a reference to refund by. */
  ghost predicate PaymentsOk(payments: map<Uuid, Payment>) {
    && UniquePaymentKeys(payments)
    && (forall p :: p in payments ==>
          && (payments[p].refundedAt.Some? ==> payments[p].state == Completed)
          && (payments[p].state == Completed ==> payments[p].providerRef.Some?))
  }

  /** The provider is only ever called under a recorded key, and never twice under the same one. */
  ghost predicate ChargesOk(payments: map<Uuid, Payment>, charges: seq<string>) {
    && (forall i, j :: 0 <= i < j < |charges| ==> charges[i] != charges[j])
    && (forall i :: 0 <= i < |charges| ==> PaymentKeyTaken(payments, charges[i]))
  }

  predicate Pays(payments: map<Uuid, Payment>, p: Uuid, key: string, amount: int, state: PaymentState) {
    p in payments && payments[p].key == PaymentKey(key) && payments[p].amount == amount && payments[p].state == state
  }

  function PaymentStateOf(status: BookingStatus): PaymentState {
    if status == Failed then Refused else Completed
  }

  predicate BookingOk(payments: map<Uuid, Payment>, b: Booking) {
    Pays(payments, b.paymentId, b.key, b.total, PaymentStateOf(b.status))
  }

  ghost predicate BookingsOk(payments: map<Uuid, Payment>, bookings: map<Uuid, Booking>) {
    && (forall b :: b in bookings ==> BookingOk(payments, bookings[b]))
    && (forall b, c :: b in bookings && c in bookings && b != c
          ==> bookings[b].userId != bookings[c].userId || bookings[b].key != bookings[c].key)
  }

  /** Every booking was written by a purchase of its user under its key. */
  ghost predicate Traced(bookings: map<Uuid, Booking>, sagas: map<nat, Saga>) {
    forall b :: b in bookings ==>
      exists i :: i in sagas && Wrote(sagas[i], bookings[b])
  }

  predicate Wrote(s: Saga, b: Booking) {
    s.userId == b.userId && s.key == b.key
  }

  predicate Debt(bookings: map<Uuid, Booking>, s: Saga, p: Uuid, b: Uuid) {
    && b in bookings && bookings[b].status == Compensating && bookings[b].paymentId == p
    && bookings[b].userId == s.userId && bookings[b].key == s.key
  }

  predicate StageOk(payments: map<Uuid, Payment>, bookings: map<Uuid, Booking>, charges: seq<string>, s: Saga) {
    match s.stage
    case Looked => true
    case Leased(_) => true
    case Charging(l, p) => Pays(payments, p, s.key, l.total, InProgress) && PaymentKey(s.key) !in charges
    case Answered(l, p, _) => Pays(payments, p, s.key, l.total, InProgress)
    case Paid(l, p) => Pays(payments, p, s.key, l.total, Completed)
    case TurnedDown(l, p) => Pays(payments, p, s.key, l.total, Refused)
    case SeatsLost(l, p) => Pays(payments, p, s.key, l.total, Completed)
    case Owing(l, p, b) => Pays(payments, p, s.key, l.total, Completed) && Debt(bookings, s, p, b)
    case Refunding(l, p, b) => Pays(payments, p, s.key, l.total, Completed) && Debt(bookings, s, p, b)
    case Refunded(l, p, b) =>
      && Pays(payments, p, s.key, l.total, Completed) && Debt(bookings, s, p, b)
      && payments[p].refundedAt.Some?
    case Done => true
  }

  ghost predicate StagesOk(
    payments: map<Uuid, Payment>, bookings: map<Uuid, Booking>, charges: seq<string>, sagas: map<nat, Saga>)
  {
    forall i :: i in sagas ==> StageOk(payments, bookings, charges, sagas[i])
  }

  predicate AwaitsAnswer(stage: Stage) {
    stage.Charging? || stage.Answered?
  }

  predicate OwesRefund(stage: Stage) {
    stage.Owing? || stage.Refunding? || stage.Refunded?
  }

  /** Two purchases never wait on the same charge, nor work off the same debt. */
  ghost predicate Exclusive(sagas: map<nat, Saga>) {
    forall i, j :: i in sagas && j in sagas && i != j ==> !Clash(sagas[i].stage, sagas[j].stage)
  }

  predicate Clash(a: Stage, b: Stage) {
    || (AwaitsAnswer(a) && AwaitsAnswer(b) && a.paymentId == b.paymentId)
    || (OwesRefund(a) && OwesRefund(b) && a.bookingId == b.bookingId)
  }

  predicate MustDeliver(stage: Stage, p: Uuid) {
    (stage.Paid? || stage.SeatsLost?) && stage.paymentId == p
  }

  /** Money taken is accounted for by a booking, or by a purchase that has still to write one. */
  ghost predicate Accounted(payments: map<Uuid, Payment>, bookings: map<Uuid, Booking>, sagas: map<nat, Saga>) {
    forall p :: p in payments && payments[p].state == Completed ==>
      || (exists b :: b in bookings && bookings[b].paymentId == p)
      || (exists i :: i in sagas && MustDeliver(sagas[i].stage, p))
  }

  predicate Compensates(b: Uuid, booking: Booking, p: Uuid, sagas: map<nat, Saga>) {
    && booking.paymentId == p
    && (|| booking.status == Compensated
        || (booking.status == Compensating
            && exists i :: i in sagas && Closes(sagas[i].stage, b)))
  }

  predicate Closes(stage: Stage, b: Uuid) {
    stage.Refunded? && stage.bookingId == b
  }

  /** A stamped refund belongs to a compensated booking, or to one whose purchase is about to close it. */
  ghost predicate RefundsOk(payments: map<Uuid, Payment>, bookings: map<Uuid, Booking>, sagas: map<nat, Saga>) {
    && (forall p :: p in payments && payments[p].refundedAt.Some? ==>
          exists b :: b in bookings && Compensates(b, bookings[b], p, sagas))
    && (forall b :: b in bookings && bookings[b].status == Compensated ==>
          bookings[b].paymentId in payments && payments[bookings[b].paymentId].refundedAt.Some?)
  }

  /** The books balance: payments, bookings, the calls made and the purchases in flight agree. */
  ghost predicate Books(
    payments: map<Uuid, Payment>, bookings: map<Uuid, Booking>, charges: seq<string>, sagas: map<nat, Saga>)
  {
    && PaymentsOk(payments)
    && ChargesOk(payments, charges)
    && BookingsOk(payments, bookings)
    && Traced(bookings, sagas)
    && StagesOk(payments, bookings, charges, sagas)
    && Exclusive(sagas)
    && Accounted(payments, bookings, sagas)
    && RefundsOk(payments, bookings, sagas)
  }

  ghost predicate MoneyInv(w: World) {
    Books(w.db.payments, w.db.bookings, w.charges, w.sagas)
  }

  lemma StageIsOk(w: World, i: nat)
    requires MoneyInv(w) && i in w.sagas
    ensures StageOk(w.db.payments, w.db.bookings, w.charges, w.sagas[i])
  {
  }

  lemma NoneClash(w: World, i: nat)
    requires MoneyInv(w) && i in w.sagas
    ensures forall j :: j in w.sagas && j != i ==> !Clash(w.sagas[i].stage, w.sagas[j].stage)
  {
  }

  lemma NewKeyNotCharged(w: World, key: string)
    requires MoneyInv(w) && !PaymentKeyTaken(w.db.payments, key)
    ensures key !in w.charges
  {
    assert forall k :: 0 <= k < |w.charges| ==> PaymentKeyTaken(w.db.payments, w.charges[k]);
  }

  lemma PaymentKeyInjective(a: string, b: string)
    ensures PaymentKey(a) == PaymentKey(b) ==> a == b
  {
    assert PaymentKey(a)[8..] == a && PaymentKey(b)[8..] == b;
  }

  // ---------- one purchase moves on ----------

  lemma TracedAt(bookings: map<Uuid, Booking>, sagas: map<nat, Saga>, i: nat, s: Saga)
    requires Traced(bookings, sagas)
    requires i in sagas ==> s.userId == sagas[i].userId && s.key == sagas[i].key
    ensures Traced(bookings, sagas[i := s])
  {
    var sagas' := sagas[i := s];
    forall b | b in bookings ensures exists j :: j in sagas' && Wrote(sagas'[j], bookings[b]) {
      var j :| j in sagas && Wrote(sagas[j], bookings[b]);
      assert Wrote(sagas'[j], bookings[b]);
    }
  }

  lemma StagesAt(
    payments: map<Uuid, Payment>, bookings: map<Uuid, Booking>, charges: seq<string>, sagas: map<nat, Saga>, i: nat,
    s: Saga)
    requires StagesOk(payments, bookings, charges, sagas) && StageOk(payments, bookings, charges, s)
    ensures StagesOk(payments, bookings, charges, sagas[i := s])
  {
  }

  lemma ExclusiveAt(sagas: map<nat, Saga>, i: nat, s: Saga)
    requires Exclusive(sagas)
    requires forall j :: j in sagas && j != i ==> !Clash(s.stage, sagas[j].stage)
    ensures Exclusive(sagas[i := s])
  {
  }

  lemma AccountedAt(
    payments: map<Uuid, Payment>, bookings: map<Uuid, Booking>, sagas: map<nat, Saga>, i: nat, s: Saga)
    requires Accounted(payments, bookings, sagas)
    requires forall p :: i in sagas && MustDeliver(sagas[i].stage, p)
               ==> MustDeliver(s.stage, p) || exists b :: b in bookings && bookings[b].paymentId == p
    ensures Accounted(payments, bookings, sagas[i := s])
  {
    var sagas' := sagas[i := s];
    forall p | p in payments && payments[p].state == Completed
      ensures (exists b :: b in bookings && bookings[b].paymentId == p)
              || exists j :: j in sagas' && MustDeliver(sagas'[j].stage, p)
    {
      if j :| j in sagas && MustDeliver(sagas[j].stage, p) {
        assert j in sagas' && (j != i ==> MustDeliver(sagas'[j].stage, p));
      }
    }
  }

  lemma CompensatesAt(b: Uuid, booking: Booking, p: Uuid, sagas: map<nat, Saga>, i: nat, s: Saga)
    requires Compensates(b, booking, p, sagas)
    requires i in sagas && Closes(sagas[i].stage, b) ==> Closes(s.stage, b)
    ensures Compensates(b, booking, p, sagas[i := s])
  {
    if j :| j in sagas && Closes(sagas[j].stage, b) {
      assert j in sagas[i := s] && Closes(sagas[i := s][j].stage, b);
    }
  }

  lemma RefundsAt(
    payments: map<Uuid, Payment>, bookings: map<Uuid, Booking>, sagas: map<nat, Saga>, i: nat, s: Saga)
    requires RefundsOk(payments, bookings, sagas)
    requires i in sagas && sagas[i].stage.Refunded? ==> s.stage == sagas[i].stage
    ensures RefundsOk(payments, bookings, sagas[i := s])
  {
    forall p | p in payments && payments[p].refundedAt.Some?
      ensures exists b :: b in bookings && Compensates(b, bookings[b], p, sagas[i := s])
    {
      var b :| b in bookings && Compensates(b, bookings[b], p, sagas);
      CompensatesAt(b, bookings[b], p, sagas, i, s);
    }
  }

  /** Tables and calls unchanged: the new stage must be sound, its own, and must not forget money taken or refunded. */
  lemma MoveKeepsMoney(w: World, i: nat, s: Saga)
    requires MoneyInv(w)
    requires i in w.sagas ==> s.userId == w.sagas[i].userId && s.key == w.sagas[i].key
    requires StageOk(w.db.payments, w.db.bookings, w.charges, s)
    requires forall j :: j in w.sagas && j != i ==> !Clash(s.stage, w.sagas[j].stage)
    requires i in w.sagas && w.sagas[i].stage.Refunded? ==> s.stage == w.sagas[i].stage
    requires forall p :: i in w.sagas && MustDeliver(w.sagas[i].stage, p)
               ==> MustDeliver(s.stage, p) || exists b :: b in w.db.bookings && w.db.bookings[b].paymentId == p
    ensures MoneyInv(w.(sagas := w.sagas[i := s]))
  {
    StagesAt(w.db.payments, w.db.bookings, w.charges, w.sagas, i, s);
    ExclusiveAt(w.sagas, i, s);
    AccountedAt(w.db.payments, w.db.bookings, w.sagas, i, s);
    hide PaymentsOk, ChargesOk, BookingsOk, Traced, StagesOk, Exclusive, Accounted, RefundsOk;
    TracedAt(w.db.bookings, w.sagas, i, s);
    RefundsAt(w.db.payments, w.db.bookings, w.sagas, i, s);
  }

  // ---------- a booking is written ----------

  lemma BookingsGrow(payments: map<Uuid, Payment>, bookings: map<Uuid, Booking>, b: Uuid, booking: Booking)
    requires BookingsOk(payments, bookings) && b !in bookings
    requires BookingOk(payments, booking) && !P.BookingKeyTaken(bookings, booking.userId, booking.key)
    ensures BookingsOk(payments, bookings[b := booking])
  {
  }

  lemma TracedGrow(bookings: map<Uuid, Booking>, b: Uuid, booking: Booking, sagas: map<nat, Saga>, i: nat)
    requires Traced(bookings, sagas) && b !in bookings
    requires i in sagas && Wrote(sagas[i], booking)
    ensures Traced(bookings[b := booking], sagas)
  {
    var bookings' := bookings[b := booking];
    forall c | c in bookings' ensures exists j :: j in sagas && Wrote(sagas[j], bookings'[c]) {
      assert c != b ==> c in bookings;
    }
  }

  lemma StagesGrow(
    payments: map<Uuid, Payment>, bookings: map<Uuid, Booking>, b: Uuid, booking: Booking, charges: seq<string>,
    sagas: map<nat, Saga>)
    requires StagesOk(payments, bookings, charges, sagas) && b !in bookings
    ensures StagesOk(payments, bookings[b := booking], charges, sagas)
  {
    forall j | j in sagas
      ensures StageOk(payments, bookings[b := booking], charges, sagas[j])
    {
      assert StageOk(payments, bookings, charges, sagas[j]);
    }
  }

  lemma AccountedGrow(
    payments: map<Uuid, Payment>, bookings: map<Uuid, Booking>, b: Uuid, booking: Booking, sagas: map<nat, Saga>)
    requires Accounted(payments, bookings, sagas) && b !in bookings
    ensures Accounted(payments, bookings[b := booking], sagas)
  {
    var bookings' := bookings[b := booking];
    forall p | p in payments && payments[p].state == Completed
      ensures (exists c :: c in bookings' && bookings'[c].paymentId == p)
              || exists j :: j in sagas && MustDeliver(sagas[j].stage, p)
    {
      if c :| c in bookings && bookings[c].paymentId == p {
        assert c in bookings' && bookings'[c].paymentId == p;
      }
    }
  }

  lemma RefundsGrow(
    payments: map<Uuid, Payment>, bookings: map<Uuid, Booking>, b: Uuid, booking: Booking, sagas: map<nat, Saga>)
    requires RefundsOk(payments, bookings, sagas) && b !in bookings && booking.status != Compensated
    ensures RefundsOk(payments, bookings[b := booking], sagas)
  {
    var bookings' := bookings[b := booking];
    forall p | p in payments && payments[p].refundedAt.Some?
      ensures exists c :: c in bookings' && Compensates(c, bookings'[c], p, sagas)
    {
      var c :| c in bookings && Compensates(c, bookings[c], p, sagas);
      assert Compensates(c, bookings'[c], p, sagas);
    }
  }

  /** Booking the first outcome under a key, by the purchase of that user and key. */
  lemma BookingKeepsMoney(w: World, w': World, b: Uuid, booking: Booking, i: nat)
    requires MoneyInv(w) && b !in w.db.bookings
    requires BookingOk(w.db.payments, booking) && booking.status != Compensated
    requires !P.BookingKeyTaken(w.db.bookings, booking.userId, booking.key)
    requires i in w.sagas && Wrote(w.sagas[i], booking)
    requires w'.db.payments == w.db.payments && w'.sagas == w.sagas && w'.charges == w.charges
    requires w'.db.bookings == w.db.bookings[b := booking]
    ensures MoneyInv(w')
  {
    StagesGrow(w.db.payments, w.db.bookings, b, booking, w.charges, w.sagas);
    BookingsGrow(w.db.payments, w.db.bookings, b, booking);
    hide PaymentsOk, ChargesOk, BookingsOk, Traced, StagesOk, Exclusive, Accounted, RefundsOk;
    TracedGrow(w.db.bookings, b, booking, w.sagas, i);
    AccountedGrow(w.db.payments, w.db.bookings, b, booking, w.sagas);
    RefundsGrow(w.db.payments, w.db.bookings, b, booking, w.sagas);
  }

  // ---------- the steps ----------

  lemma BeginKeepsMoney(w: World, i: nat, userId: string, h: Uuid, token: string, key: string)
    requires MoneyInv(w)
    ensures MoneyInv(Next(w, Begin(i, userId, h, token, key)))
  {
    F.BeginFrame(w, i, userId, h, token, key);
    hide Next, Books;
    var w' := Next(w, Begin(i, userId, h, token, key));
    if w'.sagas != w.sagas {
      MoveKeepsMoney(w, i, w'.sagas[i]);
    }
  }

  lemma PrepareKeepsMoney(w: World, i: nat, now: Time)
    requires MoneyInv(w)
    ensures MoneyInv(Next(w, Prepare(i, now)))
  {
    F.PrepareFrame(w, i, now);
    hide Next, Books;
    var w' := Next(w, Prepare(i, now));
    if w'.sagas != w.sagas {
      MoveKeepsMoney(w, i, w'.sagas[i]);
    }
  }

  /** The call is on record: its key is that of a payment, and nobody is about to make it again. */
  lemma CallIsLogged(w: World, key: string)
    requires MoneyInv(w) && PaymentKeyTaken(w.db.payments, key) && key !in w.charges
    requires forall j :: j in w.sagas && w.sagas[j].stage.Charging? ==> PaymentKey(w.sagas[j].key) != key
    ensures MoneyInv(w.(charges := w.charges + [key]))
  {
    forall j | j in w.sagas
      ensures StageOk(w.db.payments, w.db.bookings, w.charges + [key], w.sagas[j])
    {
      assert StageOk(w.db.payments, w.db.bookings, w.charges, w.sagas[j]);
    }
  }

  /** Two purchases about to call the provider do so under different keys. */
  lemma OneCallerPerKey(w: World, i: nat, j: nat)
    requires MoneyInv(w) && i in w.sagas && j in w.sagas && i != j
    requires w.sagas[i].stage.Charging? && w.sagas[j].stage.Charging?
    ensures PaymentKey(w.sagas[i].key) != PaymentKey(w.sagas[j].key)
  {
    assert StageOk(w.db.payments, w.db.bookings, w.charges, w.sagas[i]);
    assert StageOk(w.db.payments, w.db.bookings, w.charges, w.sagas[j]);
    assert !Clash(w.sagas[i].stage, w.sagas[j].stage);
  }

  lemma CallProviderKeepsMoney(w: World, i: nat, answer: Answer)
    requires MoneyInv(w)
    ensures MoneyInv(Next(w, CallProvider(i, answer)))
  {
    assert Next(w, CallProvider(i, answer)) == CallProviderStep(w, i, answer);
    hide Next, Books;
    if i in w.sagas && w.sagas[i].stage.Charging? {
      var w', key := CallProviderStep(w, i, answer), PaymentKey(w.sagas[i].key);
      StageIsOk(w, i);
      NoneClash(w, i);
      assert PaymentKeyTaken(w.db.payments, key);
      MoveKeepsMoney(w, i, w'.sagas[i]);
      forall j | j in w'.sagas && w'.sagas[j].stage.Charging?
        ensures PaymentKey(w'.sagas[j].key) != key
      {
        OneCallerPerKey(w, i, j);
      }
      CallIsLogged(w.(sagas := w'.sagas), key);
    }
  }

  // ---------- a payment row is inserted or updated ----------

  lemma ChargesKept(payments: map<Uuid, Payment>, p: Uuid, row: Payment, charges: seq<string>)
    requires ChargesOk(payments, charges)
    requires p in payments ==> row.key == payments[p].key
    ensures ChargesOk(payments[p := row], charges)
  {
    var payments' := payments[p := row];
    forall k | 0 <= k < |charges| ensures PaymentKeyTaken(payments', charges[k]) {
      assert PaymentKeyTaken(payments, charges[k]);
      var q :| q in payments && payments[q].key == charges[k];
      assert q in payments' && payments'[q].key == charges[k];
    }
  }

  /** An update that keeps key and amount, and the state unless no booking can refer to the payment yet. */
  predicate Amends(row: Payment, row': Payment) {
    && row'.key == row.key && row'.amount == row.amount
    && (row'.state == row.state || row.state == InProgress)
  }

  lemma BookingsKept(payments: map<Uuid, Payment>, p: Uuid, row: Payment, bookings: map<Uuid, Booking>)
    requires BookingsOk(payments, bookings) && p in payments && Amends(payments[p], row)
    ensures BookingsOk(payments[p := row], bookings)
  {
    forall c | c in bookings ensures BookingOk(payments[p := row], bookings[c]) {
      assert BookingOk(payments, bookings[c]);
    }
  }

  /** The other purchases' stages, when only the one waiting on the payment sees its state change. */
  lemma StageKept(
    payments: map<Uuid, Payment>, p: Uuid, row: Payment, bookings: map<Uuid, Booking>, charges: seq<string>, s: Saga)
    requires p in payments && Amends(payments[p], row)
    requires payments[p].refundedAt.Some? ==> row.refundedAt.Some?
    requires StageOk(payments, bookings, charges, s)
    requires AwaitsAnswer(s.stage) && s.stage.paymentId == p ==> row.state == payments[p].state
    ensures StageOk(payments[p := row], bookings, charges, s)
  {
  }

  lemma InsertKeepsMoney(w: World, p: Uuid, payment: Payment)
    requires MoneyInv(w) && p !in w.db.payments
    requires payment.state == InProgress && payment.refundedAt.None?
    requires !PaymentKeyTaken(w.db.payments, payment.key)
    ensures MoneyInv(w.(db := w.db.(payments := w.db.payments[p := payment])))
  {
    InsertedPayments(w, p, payment);
    InsertedTables(w.db.payments, w.db.bookings, p, payment, w.sagas);
    InsertedStages(w, p, payment);
    hide PaymentsOk, ChargesOk, BookingsOk, Traced, StagesOk, Exclusive, Accounted, RefundsOk;
    ChargesKept(w.db.payments, p, payment, w.charges);
  }

  lemma InsertedPayments(w: World, p: Uuid, payment: Payment)
    requires MoneyInv(w) && p !in w.db.payments && payment.state == InProgress && payment.refundedAt.None?
    requires !PaymentKeyTaken(w.db.payments, payment.key)
    ensures PaymentsOk(w.db.payments[p := payment])
  {
  }

  lemma InsertedTables(
    payments: map<Uuid, Payment>, bookings: map<Uuid, Booking>, p: Uuid, payment: Payment, sagas: map<nat, Saga>)
    requires p !in payments && payment.state == InProgress && payment.refundedAt.None?
    requires BookingsOk(payments, bookings) && Accounted(payments, bookings, sagas)
    requires RefundsOk(payments, bookings, sagas)
    ensures BookingsOk(payments[p := payment], bookings) && Accounted(payments[p := payment], bookings, sagas)
    ensures RefundsOk(payments[p := payment], bookings, sagas)
  {
  }

  lemma InsertedStages(w: World, p: Uuid, payment: Payment)
    requires MoneyInv(w) && p !in w.db.payments
    ensures StagesOk(w.db.payments[p := payment], w.db.bookings, w.charges, w.sagas)
  {
    forall j | j in w.sagas
      ensures StageOk(w.db.payments[p := payment], w.db.bookings, w.charges, w.sagas[j])
    {
      StageIsOk(w, j);
    }
  }

  /** A purchase whose payment has just been inserted waits for it alone. */
  lemma ChargingIsAlone(w: World, i: nat, p: Uuid, lease: P.Lease)
    requires MoneyInv(w) && p !in w.db.payments
    ensures forall j :: j in w.sagas ==> !Clash(Charging(lease, p), w.sagas[j].stage)
  {
    forall j | j in w.sagas
      ensures !Clash(Charging(lease, p), w.sagas[j].stage)
    {
      assert StageOk(w.db.payments, w.db.bookings, w.charges, w.sagas[j]);
    }
  }

  lemma OpenPaymentKeepsMoney(w: World, i: nat, p: Uuid)
    requires MoneyInv(w)
    ensures MoneyInv(Next(w, OpenPayment(i, p)))
  {
    assert Next(w, OpenPayment(i, p)) == OpenPaymentStep(w, i, p);
    hide Next, Books;
    if i in w.sagas && w.sagas[i].stage.Leased? && p !in w.db.payments {
      var w', s, lease := OpenPaymentStep(w, i, p), w.sagas[i], w.sagas[i].stage.lease;
      var key := PaymentKey(s.key);
      if !Chargeable(key, lease.total) {
        MoveKeepsMoney(w, i, w'.sagas[i]);
      } else if !PaymentKeyTaken(w.db.payments, key) {
        var payment := Payment(key, s.userId, lease.total, InProgress, None, "", None);
        InsertKeepsMoney(w, p, payment);
        ChargingIsAlone(w, i, p, lease);
        NewKeyNotCharged(w, key);
        MoveKeepsMoney(w.(db := w.db.(payments := w.db.payments[p := payment])), i, w'.sagas[i]);
      } else {
        MoveKeepsMoney(w, i, w'.sagas[i]);
      }
    }
  }

  /** The one transition out of IN_PROGRESS. */
  lemma RecordPaymentKeepsMoney(w: World, i: nat)
    requires MoneyInv(w)
    ensures MoneyInv(Next(w, RecordPayment(i)))
  {
    assert Next(w, RecordPayment(i)) == RecordPaymentStep(w, i);
    hide Next, Books;
    if i in w.sagas && w.sagas[i].stage.Answered? && w.sagas[i].stage.paymentId in w.db.payments {
      var w' := RecordPaymentStep(w, i);
      var Answered(lease, p, answer) := w.sagas[i].stage;
      StageIsOk(w, i);
      if Recordable(answer) {
        RecordedRow(w, i, p, RecordAnswer(w.db, p, answer).payments[p], w'.sagas[i]);
      } else {
        MoveKeepsMoney(w, i, w'.sagas[i]);
      }
    }
  }

  /** The stages of all purchases once the one that waited on payment p has its outcome. */
  lemma RecordedStages(w: World, i: nat, p: Uuid, row: Payment, s': Saga)
    requires MoneyInv(w) && i in w.sagas && w.sagas[i].stage.Answered? && w.sagas[i].stage.paymentId == p
    requires p in w.db.payments && Amends(w.db.payments[p], row) && row.refundedAt == w.db.payments[p].refundedAt
    requires StageOk(w.db.payments[p := row], w.db.bookings, w.charges, s')
    ensures StagesOk(w.db.payments[p := row], w.db.bookings, w.charges, w.sagas[i := s'])
  {
    NoneClash(w, i);
    forall j | j in w.sagas && j != i
      ensures StageOk(w.db.payments[p := row], w.db.bookings, w.charges, w.sagas[j])
    {
      StageIsOk(w, j);
      hide Books;
      StageKept(w.db.payments, p, row, w.db.bookings, w.charges, w.sagas[j]);
    }
  }

  lemma RecordedPayments(w: World, p: Uuid, row: Payment)
    requires MoneyInv(w) && p in w.db.payments && Amends(w.db.payments[p], row)
    requires row.refundedAt == w.db.payments[p].refundedAt && w.db.payments[p].state == InProgress
    requires row.state == Completed ==> row.providerRef.Some?
    ensures PaymentsOk(w.db.payments[p := row])
  {
  }

  lemma StampsStay(w: World, p: Uuid, row: Payment)
    requires MoneyInv(w) && p in w.db.payments && row.refundedAt == w.db.payments[p].refundedAt
    ensures RefundsOk(w.db.payments[p := row], w.db.bookings, w.sagas)
  {
  }

  lemma RecordedRow(w: World, i: nat, p: Uuid, row: Payment, s': Saga)
    requires MoneyInv(w) && i in w.sagas && w.sagas[i].stage.Answered? && w.sagas[i].stage.paymentId == p
    requires p in w.db.payments && Amends(w.db.payments[p], row) && row.refundedAt == w.db.payments[p].refundedAt
    requires row.state != InProgress && (row.state == Completed ==> row.providerRef.Some?)
    requires s' == w.sagas[i].(stage := if row.state == Completed then Paid(w.sagas[i].stage.lease, p)
                                        else TurnedDown(w.sagas[i].stage.lease, p))
    ensures MoneyInv(w.(db := w.db.(payments := w.db.payments[p := row]), sagas := w.sagas[i := s']))
  {
    StageIsOk(w, i);
    RecordedStages(w, i, p, row, s');
    BookingsKept(w.db.payments, p, row, w.db.bookings);
    ExclusiveAt(w.sagas, i, s');
    RecordedPayments(w, p, row);
    RecordedIsAccounted(w, i, p, row, s');
    StampsStay(w, p, row);
    hide PaymentsOk, ChargesOk, BookingsOk, Traced, StagesOk, Exclusive, Accounted, RefundsOk;
    ChargesKept(w.db.payments, p, row, w.charges);
    TracedAt(w.db.bookings, w.sagas, i, s');
    RefundsAt(w.db.payments[p := row], w.db.bookings, w.sagas, i, s');
  }

  lemma RecordedIsAccounted(w: World, i: nat, p: Uuid, row: Payment, s': Saga)
    requires Accounted(w.db.payments, w.db.bookings, w.sagas) && i in w.sagas && p in w.db.payments
    requires !w.sagas[i].stage.Paid? && !w.sagas[i].stage.SeatsLost?
    requires row.state == Completed ==> MustDeliver(s'.stage, p)
    ensures Accounted(w.db.payments[p := row], w.db.bookings, w.sagas[i := s'])
  {
    AccountedAt(w.db.payments, w.db.bookings, w.sagas, i, s');
    assert row.state == Completed ==> i in w.sagas[i := s'] && MustDeliver(w.sagas[i := s'][i].stage, p);
  }

  /** A booking found under the key of a purchase is for the payment that purchase made. */
  lemma BookedUnderKey(w: World, i: nat, p: Uuid)
    requires MoneyInv(w) && i in w.sagas
    requires p in w.db.payments && w.db.payments[p].key == PaymentKey(w.sagas[i].key)
    requires P.BookingKeyTaken(w.db.bookings, w.sagas[i].userId, w.sagas[i].key)
    ensures exists b :: b in w.db.bookings && w.db.bookings[b].paymentId == p
  {
    var b :| b in w.db.bookings && Wrote(w.sagas[i], w.db.bookings[b]);
    assert BookingOk(w.db.payments, w.db.bookings[b]);
  }

  /** What writing a booking changes of what the books are kept on. */
  predicate WritesBooking(w: World, w': World, i: nat, b: Uuid, booking: Booking, stage: Stage)
    requires i in w.sagas
  {
    && w'.db.payments == w.db.payments && w'.charges == w.charges
    && w'.db.bookings == w.db.bookings[b := booking] && w'.sagas == w.sagas[i := w.sagas[i].(stage := stage)]
  }

  predicate OnlyMoves(w: World, w': World, i: nat, stage: Stage)
    requires i in w.sagas
  {
    && w'.db.payments == w.db.payments && w'.charges == w.charges && w'.db.bookings == w.db.bookings
    && w'.sagas == w.sagas[i := w.sagas[i].(stage := stage)]
  }

  lemma ConvertWrites(w: World, i: nat, b: Uuid)
    requires i in w.sagas && w.sagas[i].stage.Paid? && b !in w.db.bookings
    ensures var s, lease, p := w.sagas[i], w.sagas[i].stage.lease, w.sagas[i].stage.paymentId;
            var w' := Next(w, Convert(i, b));
            if P.BookingKeyTaken(w.db.bookings, s.userId, s.key) then OnlyMoves(w, w', i, Done)
            else
              || OnlyMoves(w, w', i, SeatsLost(lease, p))
              || WritesBooking(w, w', i, b, P.NewBooking(s.userId, lease, p, s.key, Confirmed, ""), Done)
  {
  }

  lemma DeclineWrites(w: World, i: nat, b: Uuid)
    requires i in w.sagas && w.sagas[i].stage.TurnedDown? && b !in w.db.bookings
    requires w.sagas[i].stage.paymentId in w.db.payments
    ensures var s, lease, p := w.sagas[i], w.sagas[i].stage.lease, w.sagas[i].stage.paymentId;
            var w' := Next(w, Decline(i, b));
            var reason := P.DeclineReason(w.db.payments[p].reason);
            if P.BookingKeyTaken(w.db.bookings, s.userId, s.key) then OnlyMoves(w, w', i, Done)
            else WritesBooking(w, w', i, b, P.NewBooking(s.userId, lease, p, s.key, Failed, reason), Done)
  {
  }

  lemma OweWrites(w: World, i: nat, b: Uuid)
    requires i in w.sagas && w.sagas[i].stage.SeatsLost? && b !in w.db.bookings
    ensures var s, lease, p := w.sagas[i], w.sagas[i].stage.lease, w.sagas[i].stage.paymentId;
            var w' := Next(w, Owe(i, b));
            if P.BookingKeyTaken(w.db.bookings, s.userId, s.key) then OnlyMoves(w, w', i, Done)
            else
              WritesBooking(w, w', i, b,
                            P.NewBooking(s.userId, lease, p, s.key, Compensating, "seats_lost_after_charge"),
                            Owing(lease, p, b))
  {
  }

  /** A purchase that writes the first booking under its key and moves on. */
  lemma WritingKeepsMoney(w: World, w': World, i: nat, b: Uuid, booking: Booking, stage: Stage)
    requires MoneyInv(w) && i in w.sagas && b !in w.db.bookings && WritesBooking(w, w', i, b, booking, stage)
    requires BookingOk(w.db.payments, booking) && booking.status != Compensated && Wrote(w.sagas[i], booking)
    requires !P.BookingKeyTaken(w.db.bookings, booking.userId, booking.key)
    requires !w.sagas[i].stage.Refunded? && HasLease(w.sagas[i].stage) && !w.sagas[i].stage.Leased?
    requires w.sagas[i].stage.paymentId == booking.paymentId
    requires StageOk(w.db.payments, w.db.bookings[b := booking], w.charges, w.sagas[i].(stage := stage))
    requires forall j :: j in w.sagas && j != i ==> !Clash(stage, w.sagas[j].stage)
    ensures MoneyInv(w')
  {
    hide Books;
    var booked := w.(db := w.db.(bookings := w.db.bookings[b := booking]));
    BookingKeepsMoney(w, booked, b, booking, i);
    assert booked.db.bookings[b].paymentId == booking.paymentId;
    MoveKeepsMoney(booked, i, w.sagas[i].(stage := stage));
  }

  lemma FoundKeepsMoney(w: World, w': World, i: nat, p: Uuid)
    requires MoneyInv(w) && i in w.sagas && OnlyMoves(w, w', i, Done) && !w.sagas[i].stage.Refunded?
    requires p in w.db.payments && w.db.payments[p].key == PaymentKey(w.sagas[i].key)
    requires HasLease(w.sagas[i].stage) && !w.sagas[i].stage.Leased? && w.sagas[i].stage.paymentId == p
    requires P.BookingKeyTaken(w.db.bookings, w.sagas[i].userId, w.sagas[i].key)
    ensures MoneyInv(w')
  {
    BookedUnderKey(w, i, p);
    hide Books;
    MoveKeepsMoney(w, i, w.sagas[i].(stage := Done));
  }

  lemma ConvertIdles(w: World, i: nat, b: Uuid)
    requires !(i in w.sagas && w.sagas[i].stage.Paid? && b !in w.db.bookings)
    ensures Next(w, Convert(i, b)) == w
  {
  }

  lemma ConvertKeepsMoney(w: World, i: nat, b: Uuid)
    requires MoneyInv(w)
    ensures MoneyInv(Next(w, Convert(i, b)))
  {
    hide Next, Books;
    if i in w.sagas && w.sagas[i].stage.Paid? && b !in w.db.bookings {
      ConvertWrites(w, i, b);
      var s, lease, p := w.sagas[i], w.sagas[i].stage.lease, w.sagas[i].stage.paymentId;
      StageIsOk(w, i);
      if P.BookingKeyTaken(w.db.bookings, s.userId, s.key) {
        FoundKeepsMoney(w, Next(w, Convert(i, b)), i, p);
      } else if Next(w, Convert(i, b)).sagas[i].stage.SeatsLost? {
        MoveKeepsMoney(w, i, s.(stage := SeatsLost(lease, p)));
      } else {
        var sale := P.NewBooking(s.userId, lease, p, s.key, Confirmed, "");
        WritingKeepsMoney(w, Next(w, Convert(i, b)), i, b, sale, Done);
      }
    } else {
      ConvertIdles(w, i, b);
    }
  }

  lemma DeclineKeepsMoney(w: World, i: nat, b: Uuid)
    requires MoneyInv(w)
    ensures MoneyInv(Next(w, Decline(i, b)))
  {
    if i in w.sagas && w.sagas[i].stage.TurnedDown? && b !in w.db.bookings {
      StageIsOk(w, i);
      DeclineWrites(w, i, b);
      hide Next, Books;
      var s, lease, p := w.sagas[i], w.sagas[i].stage.lease, w.sagas[i].stage.paymentId;
      if P.BookingKeyTaken(w.db.bookings, s.userId, s.key) {
        MoveKeepsMoney(w, i, s.(stage := Done));
      } else {
        var booking := P.NewBooking(s.userId, lease, p, s.key, Failed, P.DeclineReason(w.db.payments[p].reason));
        WritingKeepsMoney(w, Next(w, Decline(i, b)), i, b, booking, Done);
      }
    }
  }

  lemma OwingIsAlone(w: World, b: Uuid, stage: Stage)
    requires MoneyInv(w) && b !in w.db.bookings && stage.Owing? && stage.bookingId == b
    ensures forall j :: j in w.sagas ==> !Clash(stage, w.sagas[j].stage)
  {
    forall j | j in w.sagas
      ensures !Clash(stage, w.sagas[j].stage)
    {
      assert StageOk(w.db.payments, w.db.bookings, w.charges, w.sagas[j]);
    }
  }

  lemma OweIdles(w: World, i: nat, b: Uuid)
    requires !(i in w.sagas && w.sagas[i].stage.SeatsLost? && b !in w.db.bookings)
    ensures Next(w, Owe(i, b)) == w
  {
  }

  lemma OweKeepsMoney(w: World, i: nat, b: Uuid)
    requires MoneyInv(w)
    ensures MoneyInv(Next(w, Owe(i, b)))
  {
    hide Next, Books;
    if i in w.sagas && w.sagas[i].stage.SeatsLost? && b !in w.db.bookings {
      StageIsOk(w, i);
      OweWrites(w, i, b);
      var s, lease, p := w.sagas[i], w.sagas[i].stage.lease, w.sagas[i].stage.paymentId;
      if P.BookingKeyTaken(w.db.bookings, s.userId, s.key) {
        FoundKeepsMoney(w, Next(w, Owe(i, b)), i, p);
      } else {
        var booking := P.NewBooking(s.userId, lease, p, s.key, Compensating, "seats_lost_after_charge");
        OwingIsAlone(w, b, Owing(lease, p, b));
        WritingKeepsMoney(w, Next(w, Owe(i, b)), i, b, booking, Owing(lease, p, b));
      }
    } else {
      OweIdles(w, i, b);
    }
  }

  /** The call to the provider changes nothing but this purchase's stage and the list of refunds. */
  lemma CallRefundMoves(w: World, i: nat, accepted: bool)
    requires i in w.sagas && w.sagas[i].stage.Owing?
    ensures var w' := Next(w, CallRefund(i, accepted));
            var Owing(lease, p, b) := w.sagas[i].stage;
            && i in w'.sagas && w' == w.(sagas := w.sagas[i := w'.sagas[i]], refunds := w'.refunds)
            && w'.sagas[i] == w.sagas[i].(stage := w'.sagas[i].stage)
            && (|| w'.sagas[i].stage == Done || w'.sagas[i].stage == Refunding(lease, p, b)
                || (&& w'.sagas[i].stage == Refunded(lease, p, b)
                    && p in w.db.payments && w.db.payments[p].refundedAt.Some?))
  {
  }

  lemma CallRefundIdles(w: World, i: nat, accepted: bool)
    requires !(i in w.sagas && w.sagas[i].stage.Owing?)
    ensures Next(w, CallRefund(i, accepted)) == w
  {
  }

  lemma CallRefundKeepsMoney(w: World, i: nat, accepted: bool)
    requires MoneyInv(w)
    ensures MoneyInv(Next(w, CallRefund(i, accepted)))
  {
    hide Next, Books;
    if i in w.sagas && w.sagas[i].stage.Owing? {
      CallRefundMoves(w, i, accepted);
      StageIsOk(w, i);
      NoneClash(w, i);
      MoveKeepsMoney(w, i, Next(w, CallRefund(i, accepted)).sagas[i]);
    } else {
      CallRefundIdles(w, i, accepted);
    }
  }

  lemma StampedStages(w: World, i: nat, p: Uuid, row: Payment, s': Saga)
    requires MoneyInv(w) && p in w.db.payments && Amends(w.db.payments[p], row) && row.state == w.db.payments[p].state
    requires row.refundedAt.Some? && StageOk(w.db.payments[p := row], w.db.bookings, w.charges, s')
    ensures StagesOk(w.db.payments[p := row], w.db.bookings, w.charges, w.sagas[i := s'])
  {
    forall j | j in w.sagas && j != i
      ensures StageOk(w.db.payments[p := row], w.db.bookings, w.charges, w.sagas[j])
    {
      StageIsOk(w, j);
      hide Books;
      StageKept(w.db.payments, p, row, w.db.bookings, w.charges, w.sagas[j]);
    }
  }

  lemma StampedRow(w: World, i: nat, p: Uuid, b: Uuid, row: Payment, s': Saga)
    requires MoneyInv(w) && i in w.sagas && w.sagas[i].stage.Refunding? && s' == w.sagas[i].(stage := s'.stage)
    requires w.sagas[i].stage == Refunding(w.sagas[i].stage.lease, p, b)
    requires s'.stage == Refunded(w.sagas[i].stage.lease, p, b)
    requires p in w.db.payments && row == w.db.payments[p].(refundedAt := row.refundedAt) && row.refundedAt.Some?
    ensures MoneyInv(w.(db := w.db.(payments := w.db.payments[p := row]), sagas := w.sagas[i := s']))
  {
    StageIsOk(w, i);
    NoneClash(w, i);
    StampedStages(w, i, p, row, s');
    StampedPayments(w, p, row);
    BookingsKept(w.db.payments, p, row, w.db.bookings);
    ExclusiveAt(w.sagas, i, s');
    StampedIsAccounted(w, i, p, row, s');
    hide PaymentsOk, ChargesOk, BookingsOk, Traced, StagesOk, Exclusive, Accounted, RefundsOk;
    ChargesKept(w.db.payments, p, row, w.charges);
    TracedAt(w.db.bookings, w.sagas, i, s');
    RefundsAt(w.db.payments, w.db.bookings, w.sagas, i, s');
    StampedRefunds(w.db.payments, w.db.bookings, w.sagas[i := s'], i, p, b, row);
  }

  lemma StampedPayments(w: World, p: Uuid, row: Payment)
    requires MoneyInv(w) && p in w.db.payments && w.db.payments[p].state == Completed
    requires row == w.db.payments[p].(refundedAt := row.refundedAt)
    ensures PaymentsOk(w.db.payments[p := row])
  {
  }

  lemma StampedIsAccounted(w: World, i: nat, p: Uuid, row: Payment, s': Saga)
    requires Accounted(w.db.payments, w.db.bookings, w.sagas) && i in w.sagas && w.sagas[i].stage.Refunding?
    requires p in w.db.payments && row.state == w.db.payments[p].state
    ensures Accounted(w.db.payments[p := row], w.db.bookings, w.sagas[i := s'])
  {
    AccountedAt(w.db.payments, w.db.bookings, w.sagas, i, s');
  }

  lemma StampRefundKeepsMoney(w: World, i: nat, now: Time)
    requires MoneyInv(w)
    ensures MoneyInv(Next(w, StampRefund(i, now)))
  {
    assert Next(w, StampRefund(i, now)) == StampRefundStep(w, i, now);
    hide Next, Books;
    if i in w.sagas && w.sagas[i].stage.Refunding? && now <= w.clock {
      var Refunding(lease, p, b) := w.sagas[i].stage;
      StageIsOk(w, i);
      StampedRow(w, i, p, b, w.db.payments[p].(refundedAt := Some(now)),
                 w.sagas[i].(stage := Refunded(lease, p, b)));
    }
  }

  lemma StampedRefunds(
    payments: map<Uuid, Payment>, bookings: map<Uuid, Booking>, sagas: map<nat, Saga>, i: nat, p: Uuid, b: Uuid,
    row: Payment)
    requires RefundsOk(payments, bookings, sagas) && p in payments && row.refundedAt.Some?
    requires i in sagas && Closes(sagas[i].stage, b) && Debt(bookings, sagas[i], p, b)
    ensures RefundsOk(payments[p := row], bookings, sagas)
  {
    var payments' := payments[p := row];
    forall q | q in payments' && payments'[q].refundedAt.Some?
      ensures exists c :: c in bookings && Compensates(c, bookings[c], q, sagas)
    {
      if q == p {
        assert Compensates(b, bookings[b], q, sagas);
      } else {
        assert q in payments;
      }
    }
  }

  lemma SettleKeepsMoney(w: World, i: nat)
    requires MoneyInv(w)
    ensures MoneyInv(Next(w, Settle(i)))
  {
    assert Next(w, Settle(i)) == SettleStep(w, i);
    hide Next, Books;
    if i in w.sagas && w.sagas[i].stage.Refunded? {
      StageIsOk(w, i);
      SettledRow(w, Next(w, Settle(i)), i, w.sagas[i].stage.paymentId, w.sagas[i].stage.bookingId);
    }
  }

  lemma SettledRow(w: World, w': World, i: nat, p: Uuid, b: Uuid)
    requires MoneyInv(w) && i in w.sagas && Closes(w.sagas[i].stage, b) && Debt(w.db.bookings, w.sagas[i], p, b)
    requires p in w.db.payments && w.db.payments[p].refundedAt.Some?
    requires w'.db.payments == w.db.payments && w'.charges == w.charges
    requires w'.sagas == w.sagas[i := w.sagas[i].(stage := Done)]
    requires w'.db.bookings == w.db.bookings[b := w.db.bookings[b].(status := Compensated)]
    ensures MoneyInv(w')
  {
    var s' := w.sagas[i].(stage := Done);
    SettledStages(w, i, b, w'.db.bookings);
    SettledBookings(w, b, w'.db.bookings);
    DoneIsExclusive(w, i);
    hide PaymentsOk, ChargesOk, BookingsOk, Traced, StagesOk, Exclusive, Accounted, RefundsOk;
    SettledTraces(w.db.payments, w.db.bookings, w.sagas, b, w'.db.bookings[b]);
    TracedAt(w'.db.bookings, w.sagas, i, s');
    AccountedAt(w.db.payments, w'.db.bookings, w.sagas, i, s');
    SettledRefunds(w, w', i, p, b);
  }

  lemma DoneIsExclusive(w: World, i: nat)
    requires MoneyInv(w) && i in w.sagas
    ensures Exclusive(w.sagas[i := w.sagas[i].(stage := Done)])
  {
  }

  lemma SettledStages(w: World, i: nat, b: Uuid, bookings: map<Uuid, Booking>)
    requires MoneyInv(w) && i in w.sagas && Closes(w.sagas[i].stage, b) && b in w.db.bookings
    requires bookings == w.db.bookings[b := w.db.bookings[b].(status := Compensated)]
    ensures StagesOk(w.db.payments, bookings, w.charges, w.sagas[i := w.sagas[i].(stage := Done)])
  {
    NoneClash(w, i);
    forall j | j in w.sagas && j != i
      ensures StageOk(w.db.payments, bookings, w.charges, w.sagas[j])
    {
      StageIsOk(w, j);
    }
  }

  lemma SettledBookings(w: World, b: Uuid, bookings: map<Uuid, Booking>)
    requires MoneyInv(w) && b in w.db.bookings && w.db.bookings[b].status == Compensating
    requires bookings == w.db.bookings[b := w.db.bookings[b].(status := Compensated)]
    ensures BookingsOk(w.db.payments, bookings)
  {
    forall c | c in bookings ensures BookingOk(w.db.payments, bookings[c]) {
      assert BookingOk(w.db.payments, w.db.bookings[c]);
    }
  }

  lemma SettledTraces(
    payments: map<Uuid, Payment>, bookings: map<Uuid, Booking>, sagas: map<nat, Saga>, b: Uuid, row: Booking)
    requires Traced(bookings, sagas) && Accounted(payments, bookings, sagas) && b in bookings
    requires row == bookings[b].(status := row.status)
    ensures Traced(bookings[b := row], sagas) && Accounted(payments, bookings[b := row], sagas)
  {
    var bookings' := bookings[b := row];
    forall c | c in bookings ensures exists j :: j in sagas && Wrote(sagas[j], bookings'[c]) {
      var j :| j in sagas && Wrote(sagas[j], bookings[c]);
      assert Wrote(sagas[j], bookings'[c]);
    }
    forall q | q in payments && payments[q].state == Completed
      ensures (exists c :: c in bookings' && bookings'[c].paymentId == q)
              || exists j :: j in sagas && MustDeliver(sagas[j].stage, q)
    {
      if c :| c in bookings && bookings[c].paymentId == q {
        assert c in bookings' && bookings'[c].paymentId == q;
      }
    }
  }

  lemma SettledRefunds(w: World, w': World, i: nat, p: Uuid, b: Uuid)
    requires RefundsOk(w.db.payments, w.db.bookings, w.sagas)
    requires i in w.sagas && Closes(w.sagas[i].stage, b) && Debt(w.db.bookings, w.sagas[i], p, b)
    requires p in w.db.payments && w.db.payments[p].refundedAt.Some?
    requires w'.db.payments == w.db.payments && w'.sagas == w.sagas[i := w.sagas[i].(stage := Done)]
    requires w'.db.bookings == w.db.bookings[b := w.db.bookings[b].(status := Compensated)]
    ensures RefundsOk(w'.db.payments, w'.db.bookings, w'.sagas)
  {
    forall q | q in w.db.payments && w.db.payments[q].refundedAt.Some?
      ensures exists c :: c in w'.db.bookings && Compensates(c, w'.db.bookings[c], q, w'.sagas)
    {
      var c :| c in w.db.bookings && Compensates(c, w.db.bookings[c], q, w.sagas);
      if c != b {
        CompensatesAt(c, w.db.bookings[c], q, w.sagas, i, w'.sagas[i]);
      }
      assert Compensates(c, w'.db.bookings[c], q, w'.sagas);
    }
  }

  // ---------- every step, every run ----------

  lemma StepKeepsMoney(w: World, step: Step)
    requires MoneyInv(w)
    ensures MoneyInv(Next(w, step))
  {
    hide Next, Books;
    match step
    case Begin(i, userId, h, token, key) => BeginKeepsMoney(w, i, userId, h, token, key);
    case Prepare(i, now) => PrepareKeepsMoney(w, i, now);
    case OpenPayment(i, p) => OpenPaymentKeepsMoney(w, i, p);
    case CallProvider(i, answer) => CallProviderKeepsMoney(w, i, answer);
    case RecordPayment(i) => RecordPaymentKeepsMoney(w, i);
    case Convert(i, b) => ConvertKeepsMoney(w, i, b);
    case Decline(i, b) => DeclineKeepsMoney(w, i, b);
    case Owe(i, b) => OweKeepsMoney(w, i, b);
    case CallRefund(i, accepted) => CallRefundKeepsMoney(w, i, accepted);
    case StampRefund(i, now) => StampRefundKeepsMoney(w, i, now);
    case Settle(i) => SettleKeepsMoney(w, i);
    case Tick(to) => F.TickFrame(w, to);
    case Claim(a) => F.ClaimFrame(w, a);
    case Release(userId, h) => F.ReleaseFrame(w, userId, h);
    case ReapTickets(batch, now) => F.ReapTicketsFrame(w, batch, now);
    case ReapHolds(now) => F.ReapHoldsFrame(w, now);
  }

  lemma {:induction false} RunKeepsMoney(w: World, steps: seq<Step>)
    requires MoneyInv(w)
    ensures MoneyInv(Exec(w, steps))
    decreases |steps|
  {
    if steps == [] {
    } else {
      StepKeepsMoney(w, steps[0]);
      RunKeepsMoney(Next(w, steps[0]), steps[1..]);
    }
  }

  // ---------- recorded outcomes are final ----------

  /** A payment keeps its key and amount, a definite outcome is never rewritten, and a refund stamp stays. */
  predicate PaymentFollows(row: Payment, row': Payment) {
    && row'.key == row.key && row'.amount == row.amount
    && (row.state != InProgress ==> row'.state == row.state && row'.providerRef == row.providerRef)
    && (row.refundedAt.Some? ==> row'.refundedAt.Some?)
  }

  /** A booking keeps everything but its status, which only moves from COMPENSATING to COMPENSATED. */
  predicate BookingFollows(b: Booking, b': Booking) {
    b' == b || (b.status == Compensating && b' == b.(status := Compensated))
  }

  ghost predicate OutcomesFollow(w: World, w': World) {
    && w.db.payments.Keys <= w'.db.payments.Keys
    && w.db.bookings.Keys <= w'.db.bookings.Keys
    && (forall p :: p in w.db.payments ==> PaymentFollows(w.db.payments[p], w'.db.payments[p]))
    && (forall b :: b in w.db.bookings ==> BookingFollows(w.db.bookings[b], w'.db.bookings[b]))
  }

  ghost predicate PaymentsFollow(payments: map<Uuid, Payment>, payments': map<Uuid, Payment>) {
    && payments.Keys <= payments'.Keys
    && forall p :: p in payments ==> PaymentFollows(payments[p], payments'[p])
  }

  lemma RecordPaymentFollows(w: World, i: nat)
    requires MoneyInv(w)
    ensures PaymentsFollow(w.db.payments, Next(w, RecordPayment(i)).db.payments)
  {
    if i in w.sagas && w.sagas[i].stage.Answered? && w.sagas[i].stage.paymentId in w.db.payments {
      var Answered(lease, p, answer) := w.sagas[i].stage;
      assert StageOk(w.db.payments, w.db.bookings, w.charges, w.sagas[i]);
      assert Next(w, RecordPayment(i)).db == RecordAnswer(w.db, p, answer);
      assert w.db.payments[p].state == InProgress;
      AnswerFollows(w.db, p, answer);
    }
  }

  lemma AnswerFollows(db: DB, p: Uuid, answer: Answer)
    requires p in db.payments && db.payments[p].state == InProgress
    ensures PaymentsFollow(db.payments, RecordAnswer(db, p, answer).payments)
  {
  }

  lemma InsertFollows(payments: map<Uuid, Payment>, p: Uuid, payment: Payment)
    requires p !in payments
    ensures PaymentsFollow(payments, payments[p := payment])
  {
  }

  lemma OpenPaymentFollows(w: World, i: nat, p: Uuid)
    ensures PaymentsFollow(w.db.payments, Next(w, OpenPayment(i, p)).db.payments)
  {
    var w' := Next(w, OpenPayment(i, p));
    if w'.db.payments != w.db.payments {
      InsertFollows(w.db.payments, p, w'.db.payments[p]);
    }
  }

  lemma StampRefundFollows(w: World, i: nat, now: Time)
    ensures PaymentsFollow(w.db.payments, Next(w, StampRefund(i, now)).db.payments)
  {
  }

  lemma StepFollowsPayments(w: World, step: Step)
    requires MoneyInv(w)
    ensures PaymentsFollow(w.db.payments, Next(w, step).db.payments)
  {
    hide Next, MoneyInv;
    match step
    case OpenPayment(i, p) => OpenPaymentFollows(w, i, p);
    case RecordPayment(i) => RecordPaymentFollows(w, i);
    case StampRefund(i, now) => StampRefundFollows(w, i, now);
    case _ => F.StepFrame(w, step);
  }

  ghost predicate BookingsFollow(bookings: map<Uuid, Booking>, bookings': map<Uuid, Booking>) {
    && bookings.Keys <= bookings'.Keys
    && forall b :: b in bookings ==> BookingFollows(bookings[b], bookings'[b])
  }

  lemma ConvertFollows(w: World, i: nat, b: Uuid)
    ensures BookingsFollow(w.db.bookings, Next(w, Convert(i, b)).db.bookings)
  {
  }

  lemma DeclineFollows(w: World, i: nat, b: Uuid)
    ensures BookingsFollow(w.db.bookings, Next(w, Decline(i, b)).db.bookings)
  {
  }

  lemma OweFollows(w: World, i: nat, b: Uuid)
    ensures BookingsFollow(w.db.bookings, Next(w, Owe(i, b)).db.bookings)
  {
  }

  lemma SettleFollows(w: World, i: nat)
    requires MoneyInv(w)
    ensures BookingsFollow(w.db.bookings, Next(w, Settle(i)).db.bookings)
  {
    if i in w.sagas && w.sagas[i].stage.Refunded? {
      assert StageOk(w.db.payments, w.db.bookings, w.charges, w.sagas[i]);
    }
  }

  lemma StepFollowsBookings(w: World, step: Step)
    requires MoneyInv(w)
    ensures BookingsFollow(w.db.bookings, Next(w, step).db.bookings)
  {
    hide Next;
    match step
    case Convert(i, b) => ConvertFollows(w, i, b);
    case Decline(i, b) => DeclineFollows(w, i, b);
    case Owe(i, b) => OweFollows(w, i, b);
    case Settle(i) => SettleFollows(w, i);
    case _ => F.StepFrame(w, step);
  }

  lemma {:induction false} RunFollowsOutcomes(w: World, steps: seq<Step>)
    requires MoneyInv(w)
    ensures OutcomesFollow(w, Exec(w, steps))
    decreases |steps|
  {
    if steps == [] {
    } else {
      var w1 := Next(w, steps[0]);
      StepKeepsMoney(w, steps[0]);
      StepFollowsPayments(w, steps[0]);
      StepFollowsBookings(w, steps[0]);
      RunFollowsOutcomes(w1, steps[1..]);
      var w2 := Exec(w1, steps[1..]);
      forall p | p in w.db.payments ensures PaymentFollows(w.db.payments[p], w2.db.payments[p]) {
        assert p in w1.db.payments.Keys;
        assert PaymentFollows(w.db.payments[p], w1.db.payments[p]);
      }
      forall b | b in w.db.bookings ensures BookingFollows(w.db.bookings[b], w2.db.bookings[b]) {
        assert b in w1.db.bookings.Keys;
        assert BookingFollows(w.db.bookings[b], w1.db.bookings[b]);
      }
    }
  }
}
