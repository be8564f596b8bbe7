/**
 Everything that can happen to the booking tables, one committed transaction (or external call) a step.

 Any number of purchases run at once, each a saga advancing through its stages; a saga that is never scheduled again
 is a crashed one. A step carries the time its operation read from the clock, which may be long past when it commits.
 A step whose guard fails changes nothing, so every list of steps is a run.
 */
module Protocol {
  import opened Common
  import opened Tables
  import opened Charges
  import C = Claims
  import P = Purchases

  datatype Stage =
    | Looked
    | Leased(lease: P.Lease)
    | Charging(lease: P.Lease, paymentId: Uuid)
    | Answered(lease: P.Lease, paymentId: Uuid, answer: Answer)
    | Paid(lease: P.Lease, paymentId: Uuid)
    | TurnedDown(lease: P.Lease, paymentId: Uuid)
    | SeatsLost(lease: P.Lease, paymentId: Uuid)
    | Owing(lease: P.Lease, paymentId: Uuid, bookingId: Uuid)
    | Refunding(lease: P.Lease, paymentId: Uuid, bookingId: Uuid)
    | Refunded(lease: P.Lease, paymentId: Uuid, bookingId: Uuid)
    | Done

  predicate HasLease(stage: Stage) {
    !stage.Looked? && !stage.Done?
  }

  datatype Saga = Saga(userId: string, holdId: Uuid, token: string, key: string, stage: Stage)

  /** `charges` lists the keys of the calls to the provider's charge operation, `refunds` the refunded references. */
  datatype World = World(clock: Time, db: DB, sagas: map<nat, Saga>, charges: seq<string>, refunds: seq<string>)

  datatype Step =
    | Tick(to: Time)
    | Claim(args: C.ClaimArgs)
    | Release(userId: string, holdId: Uuid)
    | Begin(saga: nat, userId: string, holdId: Uuid, token: string, key: string)
    | Prepare(saga: nat, now: Time)
    | OpenPayment(saga: nat, paymentId: Uuid)
    | CallProvider(saga: nat, answer: Answer)
    | RecordPayment(saga: nat)
    | Convert(saga: nat, bookingId: Uuid)
    | Decline(saga: nat, bookingId: Uuid)
    | Owe(saga: nat, bookingId: Uuid)
    | CallRefund(saga: nat, accepted: bool)
    | StampRefund(saga: nat, now: Time)
    | Settle(saga: nat)
    | ReapTickets(batch: set<int>, now: Time)
    | ReapHolds(now: Time)

  const REAP_BATCH_SIZE: nat := 1000

  function PaymentKey(key: string): string {
    "booking:" + key
  }

  function At(w: World, i: nat, stage: Stage): World
    requires i in w.sagas
  {
    w.(sagas := w.sagas[i := w.sagas[i].(stage := stage)])
  }

  // ---------- the guards ----------

  predicate CanClaim(w: World, a: C.ClaimArgs) {
    && a.now <= w.clock
    && a.holdId !in w.db.holds
    && 0 < |a.ids| <= MAX_TICKETS_PER_HOLD
  }

  // ---------- the steps ----------

  function BeginStep(w: World, i: nat, userId: string, holdId: Uuid, token: string, key: string): World {
    if i in w.sagas || token == "" || key == "" then w
    else
      var stage := if P.BookingKeyTaken(w.db.bookings, userId, key) then Done else Looked;
      w.(sagas := w.sagas[i := Saga(userId, holdId, token, key, stage)])
  }

  function PrepareStep(w: World, i: nat, now: Time): World {
    if i !in w.sagas || !w.sagas[i].stage.Looked? || w.clock < now then w
    else
      var s := w.sagas[i];
      var (db, r) := P.PrepareTx(w.db, s.userId, s.holdId, s.token, now);
      At(w.(db := db), i, if r.Ok? then Leased(r.value) else Done)
  }

  /** Inserts the payment row, or replays the outcome recorded under the key; bad arguments end the purchase. */
  ghost function OpenPaymentStep(w: World, i: nat, p: Uuid): World {
    if i !in w.sagas || !w.sagas[i].stage.Leased? || p in w.db.payments then w
    else
      var s, lease := w.sagas[i], w.sagas[i].stage.lease;
      if !Chargeable(PaymentKey(s.key), lease.total) then At(w, i, Done)
      else if !PaymentKeyTaken(w.db.payments, PaymentKey(s.key)) then
        At(w.(db := InsertPayment(w.db, p, PaymentKey(s.key), s.userId, lease.total)), i, Charging(lease, p))
      else
        var q := PaymentOf(w.db.payments, PaymentKey(s.key));
        At(w, i, Replayed(w.db.payments[q], q, lease))
  }

  function Replayed(payment: Payment, q: Uuid, lease: P.Lease): Stage {
    if payment.amount != lease.total then Done
    else
      match payment.state
      case InProgress => Done
      case Completed => Paid(lease, q)
      case Refused => TurnedDown(lease, q)
  }

  function CallProviderStep(w: World, i: nat, answer: Answer): World {
    if i !in w.sagas || !w.sagas[i].stage.Charging? then w
    else
      var Charging(lease, p) := w.sagas[i].stage;
      At(w.(charges := w.charges + [PaymentKey(w.sagas[i].key)]), i,
         if answer.TransportError? then Done else Answered(lease, p, answer))
  }

  function RecordPaymentStep(w: World, i: nat): World {
    if i !in w.sagas || !w.sagas[i].stage.Answered? || w.sagas[i].stage.paymentId !in w.db.payments then w
    else
      var Answered(lease, p, answer) := w.sagas[i].stage;
      At(w.(db := RecordAnswer(w.db, p, answer)), i,
         if !Recordable(answer) then Done
         else if answer.Approved? then Paid(lease, p)
         else TurnedDown(lease, p))
  }

  function ConvertStep(w: World, i: nat, b: Uuid): World {
    if i !in w.sagas || !w.sagas[i].stage.Paid? || b in w.db.bookings then w
    else
      var s := w.sagas[i];
      var (db, outcome) := P.ConvertTx(w.db, s.userId, s.stage.lease, s.stage.paymentId, s.key, b);
      At(w.(db := db), i, if outcome.SeatsGone? then SeatsLost(s.stage.lease, s.stage.paymentId) else Done)
  }

  function DeclineStep(w: World, i: nat, b: Uuid): World {
    if i !in w.sagas || !w.sagas[i].stage.TurnedDown? || b in w.db.bookings then w
    else if w.sagas[i].stage.paymentId !in w.db.payments then w
    else
      var s := w.sagas[i];
      var reason := w.db.payments[s.stage.paymentId].reason;
      At(w.(db := P.DeclineTx(w.db, s.userId, s.stage.lease, s.stage.paymentId, s.key, reason, b).0), i, Done)
  }

  function OweStep(w: World, i: nat, b: Uuid): World {
    if i !in w.sagas || !w.sagas[i].stage.SeatsLost? || b in w.db.bookings then w
    else
      var s := w.sagas[i];
      var (db, wrote) := P.OweTx(w.db, s.userId, s.stage.lease, s.stage.paymentId, s.key, b);
      At(w.(db := db), i, if wrote then Owing(s.stage.lease, s.stage.paymentId, b) else Done)
  }

  /** Only a completed payment that has a reference can be refunded. */
  predicate Refundable(payment: Payment) {
    payment.state == Completed && payment.providerRef.Some?
  }

  /** Whether a refund of the payment reaches the provider. */
  predicate CallsRefund(payments: map<Uuid, Payment>, p: Uuid) {
    p in payments && payments[p].refundedAt.None? && Refundable(payments[p])
  }

  /** A payment already stamped reports success without a second refund; a refused refund leaves the booking open. */
  function CallRefundStep(w: World, i: nat, accepted: bool): World {
    if i !in w.sagas || !w.sagas[i].stage.Owing? then w
    else
      var Owing(lease, p, b) := w.sagas[i].stage;
      if p !in w.db.payments then At(w, i, Done)
      else if w.db.payments[p].refundedAt.Some? then At(w, i, Refunded(lease, p, b))
      else if !Refundable(w.db.payments[p]) then At(w, i, Done)
      else
        At(w.(refunds := w.refunds + [w.db.payments[p].providerRef.value]), i,
           if accepted then Refunding(lease, p, b) else Done)
  }

  function StampRefundStep(w: World, i: nat, now: Time): World {
    if i !in w.sagas || !w.sagas[i].stage.Refunding? || w.clock < now then w
    else
      var Refunding(lease, p, b) := w.sagas[i].stage;
      At(w.(db := Charges.StampRefund(w.db, p, now)), i, Refunded(lease, p, b))
  }

  function SettleStep(w: World, i: nat): World {
    if i !in w.sagas || !w.sagas[i].stage.Refunded? then w
    else At(w.(db := P.SettleTx(w.db, w.sagas[i].stage.bookingId)), i, Done)
  }

  /** One batch: at most 1000 lapsed tickets, whichever ones no other transaction has locked. */
  function ReapTicketsStep(w: World, batch: set<int>, now: Time): World {
    if w.clock < now || |batch| > REAP_BATCH_SIZE || !(batch <= LapsedTickets(w.db.tickets, now)) then w
    else w.(db := w.db.(tickets := Freed(w.db.tickets, batch)))
  }

  function ReapHoldsStep(w: World, now: Time): World {
    if w.clock < now then w
    else w.(db := w.db.(holds := Displaced(w.db.holds, LapsedHolds(w.db.holds, now))))
  }

  ghost function Next(w: World, step: Step): World {
    match step
    case Tick(to) => if to < w.clock then w else w.(clock := to)
    case Claim(a) => if CanClaim(w, a) then w.(db := C.ClaimTx(w.db, a).0) else w
    case Release(userId, h) => w.(db := C.ReleaseTx(w.db, userId, h).0)
    case Begin(i, userId, h, token, key) => BeginStep(w, i, userId, h, token, key)
    case Prepare(i, now) => PrepareStep(w, i, now)
    case OpenPayment(i, p) => OpenPaymentStep(w, i, p)
    case CallProvider(i, answer) => CallProviderStep(w, i, answer)
    case RecordPayment(i) => RecordPaymentStep(w, i)
    case Convert(i, b) => ConvertStep(w, i, b)
    case Decline(i, b) => DeclineStep(w, i, b)
    case Owe(i, b) => OweStep(w, i, b)
    case CallRefund(i, accepted) => CallRefundStep(w, i, accepted)
    case StampRefund(i, now) => StampRefundStep(w, i, now)
    case Settle(i) => SettleStep(w, i)
    case ReapTickets(batch, now) => ReapTicketsStep(w, batch, now)
    case ReapHolds(now) => ReapHoldsStep(w, now)
  }

  ghost function Exec(w: World, steps: seq<Step>): World
    decreases |steps|
  {
    if steps == [] then w else Exec(Next(w, steps[0]), steps[1..])
  }

  lemma {:induction false} ExecAppend(w: World, a: seq<Step>, b: seq<Step>)
    ensures Exec(w, a + b) == Exec(Exec(w, a), b)
    decreases |a|
  {
    if a == [] {
      assert a + b == b;
    } else {
      assert (a + b)[1..] == a[1..] + b;
      ExecAppend(Next(w, a[0]), a[1..], b);
    }
  }

  lemma ExecOne(w: World, a: seq<Step>, step: Step)
    ensures Exec(w, a + [step]) == Next(Exec(w, a), step)
  {
    ExecAppend(w, a, [step]);
    assert [step][1..] == [];
  }

  lemma ExecSingle(w: World, step: Step)
    ensures Exec(w, [step]) == Next(w, step)
  {
    hide Next;
    assert [step][1..] == [];
  }

  predicate Unclaimed(t: Ticket) {
    t.status == Available && t.holdId == None && t.holdExpiresAt == None && t.bookingId == None
  }

  /** The unique index on (event_id, seat_id). */
  predicate UniqueSeats(tickets: map<int, Ticket>) {
    forall t, u :: t in tickets && u in tickets && t != u
      ==> tickets[t].eventId != tickets[u].eventId || tickets[t].seatId != tickets[u].seatId
  }

  /** The inventory of all events before the first claim; publishing while clients book is the subject of JointRuns. */
  ghost predicate Initial(w: World) {
    && (forall t :: t in w.db.tickets ==> Unclaimed(w.db.tickets[t]))
    && UniqueSeats(w.db.tickets)
    && w.db.holds == map[] && w.db.bookings == map[] && w.db.outbox == [] && w.db.payments == map[]
    && w.sagas == map[] && w.charges == [] && w.refunds == []
  }
}
