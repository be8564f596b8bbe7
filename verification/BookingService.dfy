/**
 The booking and payment services as they are written: methods that read and update the tables. Each method is tied to
 the transaction it performs, and a whole purchase to the list of protocol steps it takes.
 */
module BookingService {
  import opened Common
  import opened Tables
  import opened Charges
  import opened Protocol
  import C = Claims
  import I = Inventory
  import P = Purchases
  import L = ClaimLaws
  import opened Provider
  import Sales
  import Timing
  import R = Reaping

  lemma LongerPrefix(ids: seq<int>, i: nat)
    requires i < |ids|
    ensures ids[..i + 1] == ids[..i] + [ids[i]]
    ensures Elems(ids[..i + 1]) == Elems(ids[..i]) + {ids[i]}
  {
    assert ids[..i + 1] == ids[..i] + [ids[i]];
  }

  lemma RepeatOfPrefix(ids: seq<int>, i: nat)
    requires i < |ids| && ids[i] in ids[..i]
    ensures !C.NoRepeats(ids)
  {
    var k :| 0 <= k < i && ids[..i][k] == ids[i];
    assert ids[k] == ids[i];
  }

  lemma NoRepeatsInPrefix(ids: seq<int>, i: nat)
    requires i < |ids| && C.NoRepeats(ids[..i]) && ids[i] !in ids[..i]
    ensures C.NoRepeats(ids[..i + 1])
  {
    forall k | 0 <= k < i ensures ids[k] != ids[i] {
      assert ids[..i][k] == ids[k];
    }
    forall k, l | 0 <= k < l < i ensures ids[k] != ids[l] {
      assert ids[..i][k] == ids[k] && ids[..i][l] == ids[l];
    }
  }

  /** The request's ids in ascending order, or None for an empty, oversized, non-positive or repeating list. */
  method ValidateTicketIds(ids: seq<int>) returns (sorted: Option<seq<int>>)
    ensures sorted.Some? <==> C.ValidIds(ids)
    ensures sorted.Some? ==> Ascending(sorted.value) && Elems(sorted.value) == Elems(ids)
  {
    if |ids| == 0 || |ids| > MAX_TICKETS_PER_HOLD {
      return None;
    }
    var seen: set<int> := {};
    for i := 0 to |ids|
      invariant seen == Elems(ids[..i])
      invariant C.NoRepeats(ids[..i])
      invariant forall k :: 0 <= k < i ==> 0 < ids[k]
    {
      if ids[i] <= 0 {
        return None;
      }
      if ids[i] in seen {
        RepeatOfPrefix(ids, i);
        return None;
      }
      LongerPrefix(ids, i);
      NoRepeatsInPrefix(ids, i);
      seen := seen + {ids[i]};
    }
    assert ids[..|ids|] == ids;
    ElemsOfInOrder(seen);
    sorted := Some(InOrder(seen));
  }

  lemma {:induction false} NoMoreMembers(ids: seq<int>)
    ensures |Elems(ids)| <= |ids|
  {
    if ids == [] {
    } else {
      NoMoreMembers(ids[..|ids| - 1]);
      LongerPrefix(ids, |ids| - 1);
      assert ids[..|ids|] == ids;
    }
  }

  lemma ValidSize(ids: seq<int>)
    requires C.ValidIds(ids)
    ensures 0 < |Elems(ids)| <= MAX_TICKETS_PER_HOLD
  {
    NoMoreMembers(ids);
    assert ids[0] in Elems(ids);
  }

  /** Of a lease that passes the checks, only its seats decide. */
  lemma PreparedIffSeats(db: DB, userId: string, h: Uuid, token: string, now: Time)
    requires h in db.holds && db.holds[h].userId == userId && db.holds[h].token == token
    requires db.holds[h].status == Active && now < db.holds[h].expiresAt
    ensures if HeldBy(db.tickets, h) == {} then P.PrepareTx(db, userId, h, token, now) == (db, Err(P.NoSeats))
            else P.PrepareTx(db, userId, h, token, now).1 == Ok(P.PreparedLease(db, h, now))
  {
    hide HeldBy, P.PreparedLease, Extended;
  }

  lemma PreparedWorld(w: World, i: nat, now: Time, db: DB, r: Result<P.Lease, P.PrepareError>)
    requires i in w.sagas && w.sagas[i].stage.Looked? && now <= w.clock
    requires var s := w.sagas[i]; (db, r) == P.PrepareTx(w.db, s.userId, s.holdId, s.token, now)
    ensures Next(w, Prepare(i, now)) == At(w.(db := db), i, if r.Ok? then Leased(r.value) else Done)
  {
  }

  lemma ConvertedWorld(w: World, i: nat, b: Uuid, db: DB, outcome: P.ConvertOutcome)
    requires b !in w.db.bookings && i in w.sagas && w.sagas[i].stage.Paid?
    requires var s := w.sagas[i];
             (db, outcome) == P.ConvertTx(w.db, s.userId, s.stage.lease, s.stage.paymentId, s.key, b)
    ensures var stage := w.sagas[i].stage;
            Next(w, Convert(i, b))
            == At(w.(db := db), i, if outcome.SeatsGone? then SeatsLost(stage.lease, stage.paymentId) else Done)
  {
    hide P.ConvertTx;
  }

  lemma DeclinedWorld(w: World, i: nat, b: Uuid, db: DB, wrote: bool)
    requires b !in w.db.bookings && i in w.sagas && w.sagas[i].stage.TurnedDown?
    requires w.sagas[i].stage.paymentId in w.db.payments
    requires var s := w.sagas[i];
             (db, wrote) == P.DeclineTx(w.db, s.userId, s.stage.lease, s.stage.paymentId, s.key,
                                        w.db.payments[s.stage.paymentId].reason, b)
    ensures Next(w, Decline(i, b)) == At(w.(db := db), i, Done)
  {
    hide P.DeclineTx;
  }

  lemma RefusedWorld(w: World, i: nat, p: Uuid)
    requires i in w.sagas && w.sagas[i].stage.Leased? && p !in w.db.payments
    requires !Chargeable(PaymentKey(w.sagas[i].key), w.sagas[i].stage.lease.total)
    ensures Next(w, Step.OpenPayment(i, p)) == At(w, i, Done)
  {
  }

  lemma RecordedWorld(w: World, i: nat, lease: P.Lease, p: Uuid, answer: Answer)
    requires i in w.sagas && w.sagas[i].stage == Answered(lease, p, answer) && p in w.db.payments
    ensures Next(w, Step.RecordPayment(i))
            == At(w.(db := RecordAnswer(w.db, p, answer)), i, StageAfter(answer, lease, p))
  {
    hide RecordAnswer;
  }

  lemma RefundCalledWorld(w: World, i: nat, lease: P.Lease, p: Uuid, b: Uuid, accepted: bool)
    requires i in w.sagas && w.sagas[i].stage == Owing(lease, p, b) && CallsRefund(w.db.payments, p)
    ensures Next(w, CallRefund(i, accepted))
            == At(w.(refunds := w.refunds + [w.db.payments[p].providerRef.value]), i,
                  if accepted then Refunding(lease, p, b) else Done)
  {
  }

  lemma StampedWorld(w: World, i: nat, lease: P.Lease, p: Uuid, b: Uuid)
    requires i in w.sagas && w.sagas[i].stage == Refunding(lease, p, b) && p in w.db.payments
    ensures Next(w, StampRefund(i, w.clock))
            == At(w.(db := w.db.(payments := w.db.payments[p := w.db.payments[p].(refundedAt := Some(w.clock))])), i,
                  Refunded(lease, p, b))
  {
  }

  lemma SweptWorld(w: World, batch: set<int>, now: Time)
    requires now <= w.clock && |batch| <= REAP_BATCH_SIZE && batch <= LapsedTickets(w.db.tickets, now)
    ensures Next(w, ReapTickets(batch, now)) == w.(db := w.db.(tickets := Freed(w.db.tickets, batch)))
  {
    hide Freed, LapsedTickets;
  }

  lemma ExpiredWorld(w: World, now: Time)
    requires now <= w.clock
    ensures Next(w, ReapHolds(now))
            == w.(db := w.db.(holds := Displaced(w.db.holds, LapsedHolds(w.db.holds, now))))
  {
    hide Displaced, LapsedHolds;
  }

  lemma ClaimedWorld(w: World, a: C.ClaimArgs)
    requires CanClaim(w, a)
    ensures Next(w, Claim(a)) == w.(db := C.ClaimTx(w.db, a).0)
  {
    hide C.ClaimTx;
  }

  /** Where a purchase stands once the provider has answered and the answer has been recorded. */
  function StageAfter(answer: Answer, lease: P.Lease, p: Uuid): Stage {
    if !Recordable(answer) then Done
    else if answer.Approved? then Paid(lease, p)
    else TurnedDown(lease, p)
  }

  /** Where charging leads: the outcome recorded under the key, or the provider's answer to a key not seen before. */
  ghost function ChargeStage(db: DB, answer: Answer, key: string, lease: P.Lease, p: Uuid): Stage {
    if !Chargeable(PaymentKey(key), lease.total) then Done
    else if PaymentKeyTaken(db.payments, PaymentKey(key)) then
      var q := PaymentOf(db.payments, PaymentKey(key));
      Replayed(db.payments[q], q, lease)
    else StageAfter(answer, lease, p)
  }

  /** The charge goes to the provider: its arguments are good and its key has not been seen. */
  predicate NewCharge(payments: map<Uuid, Payment>, key: string, amount: int) {
    Chargeable(key, amount) && !PaymentKeyTaken(payments, key)
  }

  datatype PurchaseOutcome =
    | BadRequest
    | Existing
    | NotReady(error: P.PrepareError)
    | Unresolved
    | TurnedAway
    | Booked
    | SeatsGone(refunded: bool)

  /** What a client that holds `lease` on the tables `db` is told, up to whether a refund went through. */
  ghost predicate Tells(outcome: PurchaseOutcome, db: DB, lease: P.Lease, stage: Stage) {
    match stage
    case Paid(_, _) =>
      if |P.Convertible(db.tickets, lease)| == |lease.ticketIds| then outcome == Booked else outcome.SeatsGone?
    case TurnedDown(_, _) => outcome == TurnedAway
    case _ => outcome == Unresolved
  }

  /** The tables with one booking more, on the payment it names. */
  predicate OneBooking(db: DB, db': DB, userId: string, lease: P.Lease, key: string, b: Uuid, status: BookingStatus,
      reason: string)
  {
    && b in db'.bookings
    && db'.bookings == db.bookings[b :=
         P.NewBooking(userId, lease, db'.bookings[b].paymentId, key, status, reason)]
    && db' == db.(tickets := db'.tickets, holds := db'.holds, bookings := db'.bookings, outbox := db'.outbox,
                  payments := db'.payments)
  }

  /** What each outcome leaves in the tables. */
  predicate Leaves(outcome: PurchaseOutcome, db: DB, db': DB, userId: string, lease: P.Lease, key: string, b: Uuid) {
    match outcome
    case Booked =>
      && OneBooking(db, db', userId, lease, key, b, Confirmed, "")
      && db'.tickets == SoldUnder(db.tickets, P.Convertible(db.tickets, lease), b)
      && db'.holds == WithStatus(db.holds, lease.holdId, Converted)
      && db'.outbox == db.outbox + [OutboxRow(b, lease.eventId, userId, lease.ticketIds, lease.total)]
    case TurnedAway =>
      && b in db'.bookings && OneBooking(db, db', userId, lease, key, b, Failed, db'.bookings[b].reason)
      && db'.bookings[b].paymentId in db'.payments
      && db'.bookings[b].reason == P.DeclineReason(db'.payments[db'.bookings[b].paymentId].reason)
      && db'.tickets == Freed(db.tickets, HeldBy(db.tickets, lease.holdId))
      && db'.holds == WithStatus(db.holds, lease.holdId, Released) && db'.outbox == db.outbox
    case SeatsGone(refunded) =>
      && OneBooking(db, db', userId, lease, key, b, if refunded then Compensated else Compensating,
                    "seats_lost_after_charge")
      && db'.tickets == db.tickets && db'.holds == db.holds && db'.outbox == db.outbox
      && db'.bookings[b].paymentId in db'.payments
      && (refunded ==> db'.payments[db'.bookings[b].paymentId].refundedAt.Some?)
    case _ => db' == db.(payments := db'.payments)
  }

  lemma DebtLeft(db: DB, db': DB, userId: string, lease: P.Lease, key: string, b: Uuid, p: Uuid, refunded: bool)
    requires db' == db.(bookings := db'.bookings, payments := db'.payments) && p in db'.payments
    requires var status := if refunded then Compensated else Compensating;
             db'.bookings
             == db.bookings[b := P.NewBooking(userId, lease, p, key, status, "seats_lost_after_charge")]
    requires refunded ==> db'.payments[p].refundedAt.Some?
    ensures Leaves(SeatsGone(refunded), db, db', userId, lease, key, b) && db'.bookings[b].paymentId == p
  {
  }

  predicate RefundSucceeds(payments: map<Uuid, Payment>, p: Uuid, mode: Mode) {
    p in payments && (payments[p].refundedAt.Some? || (CallsRefund(payments, p) && mode != RefundFails))
  }

  /** Charging changes nothing but payments, which neither the conversion nor its account depends on. */
  lemma ChargingAside(outcome: PurchaseOutcome, db: DB, paid: DB, db': DB, userId: string, lease: P.Lease,
      key: string, b: Uuid, stage: Stage)
    requires paid == db.(payments := paid.payments)
    requires Tells(outcome, paid, lease, stage) && Leaves(outcome, paid, db', userId, lease, key, b)
    ensures Tells(outcome, db, lease, stage) && Leaves(outcome, db, db', userId, lease, key, b)
  {
  }

  lemma ChargeTouchesPayments(db: DB, userId: string, key: string, lease: P.Lease, p: Uuid, answer: Answer, paid: DB)
    requires paid == if !NewCharge(db.payments, PaymentKey(key), lease.total) then db
                     else RecordAnswer(InsertPayment(db, p, PaymentKey(key), userId, lease.total), p, answer)
    ensures paid == db.(payments := paid.payments)
  {
  }

  lemma SeatsAreThere(outcome: PurchaseOutcome, db: DB, lease: P.Lease, stage: Stage)
    requires Tells(outcome, db, lease, stage)
    requires stage.Paid? ==> |P.Convertible(db.tickets, lease)| == |lease.ticketIds|
    ensures !outcome.SeatsGone?
  {
  }

  lemma PaidSeatsWait(w: World, steps: seq<Step>, i: nat, lease: P.Lease, q: Uuid)
    requires Sales.AllInv(w) && Timing.Intact(w.db, lease) && w.clock < lease.expiresAt
    requires i in w.sagas && w.sagas[i].stage == Leased(lease)
    requires forall k :: 0 <= k < |steps| ==> ChargeStep(steps[k])
    requires var w' := Exec(w, steps); w'.clock == w.clock && i in w'.sagas && w'.sagas[i].stage == Paid(lease, q)
    ensures |P.Convertible(Exec(w, steps).db.tickets, lease)| == |lease.ticketIds|
  {
    PayingDisturbsNothing(w, steps, lease.holdId);
    Timing.SeatsWait(w, steps, i, lease);
  }

  /** A lease just prepared leaves the invariants standing, and time to pay. */
  lemma FreshLease(w: World, i: nat, now: Time)
    requires Sales.AllInv(w) && i in w.sagas && w.sagas[i].stage.Looked? && now <= w.clock
    requires Next(w, Prepare(i, now)).sagas[i].stage.Leased?
    ensures var w' := Next(w, Prepare(i, now)); var lease := w'.sagas[i].stage.lease;
            Sales.AllInv(w') && Timing.Intact(w'.db, lease) && now < lease.expiresAt
  {
    Sales.StepKeepsAll(w, Prepare(i, now));
    Timing.FreshLeaseIntact(w, i, now);
  }

  lemma {:induction false} PayingDisturbsNothing(w: World, steps: seq<Step>, h: Uuid)
    requires forall k :: 0 <= k < |steps| ==> ChargeStep(steps[k])
    ensures Timing.Undisturbed(w, steps, h)
    decreases |steps|
  {
    if steps == [] {
    } else {
      PayingDisturbsNothing(Next(w, steps[0]), steps[1..], h);
    }
  }

  predicate ChargeStep(step: Step) {
    step.OpenPayment? || step.CallProvider? || step.RecordPayment?
  }

  class Service {
    const events: map<int, Event>
    const prices: map<int, nat>
    const seats: map<int, I.Seat>
    var tickets: map<int, Ticket>
    var holds: map<Uuid, Hold>
    var bookings: map<Uuid, Booking>
    var outbox: seq<OutboxRow>
    var payments: map<Uuid, Payment>
    var clock: Time
    const provider: MockProvider
    ghost var sagas: map<nat, Saga>

    constructor (db: DB, seats: map<int, I.Seat>, clock: Time, provider: MockProvider)
      ensures Tables() == db && this.seats == seats && this.clock == clock && this.provider == provider
      ensures sagas == map[]
    {
      events, prices, this.seats := db.events, db.prices, seats;
      tickets, holds, bookings, outbox, payments := db.tickets, db.holds, db.bookings, db.outbox, db.payments;
      this.clock, this.provider, sagas := clock, provider, map[];
    }

    /** The state of the protocol this service is in. */
    ghost function Now(): World
      reads this, provider
    {
      World(clock, Tables(), sagas, provider.calls, provider.refundCalls)
    }

    function Tables(): DB
      reads this
    {
      DB(events, prices, tickets, holds, bookings, outbox, payments)
    }

    method FindHoldByKey(userId: string, key: string) returns (h: Option<Uuid>)
      requires C.UniqueHoldKeys(holds)
      ensures h.Some? <==> C.HoldKeyTaken(holds, userId, Some(key))
      ensures h.Some? ==> h.value == C.FindHold(holds, userId, Some(key))
    {
      if g :| g in holds && holds[g].userId == userId && holds[g].key == Some(key) {
        h := Some(g);
      } else {
        h := None;
      }
    }

    /** Whether the event is on sale and the caller below the hold quota. */
    method CheckAdmission(r: C.HoldRequest) returns (refusal: Option<C.HoldOutcome>)
      ensures refusal == C.Refusal(Tables(), r) && (refusal.Some? ==> !refusal.value.Created?)
    {
      if r.eventId !in events {
        return Some(C.EventNotFound);
      } else if events[r.eventId].status != OnSale {
        return Some(C.NotOnSale);
      } else if r.now < events[r.eventId].onsaleAt {
        return Some(C.NotYetOnSale);
      }
      if |C.ActiveHolds(holds, r.userId, r.now)| >= MAX_ACTIVE_HOLDS {
        return Some(C.QuotaExceeded);
      }
      return None;
    }

    /** A hold with the seats that carry it, placed and priced; it reads EXPIRED once it has lapsed, swept or not. */
    method LoadHold(userId: string, h: Uuid, now: Time) returns (view: Option<C.HoldView>)
      ensures view == C.ViewOf(Tables(), seats, userId, h, now)
    {
      hide C.CarriedBy, C.SeatsShown, C.Joined, InOrder, Total;
      if h !in holds || holds[h].userId != userId {
        return None;
      }
      var row := holds[h];
      CarriersAreJoined(Tables(), seats, h);
      var status := row.status;
      if status == Active && row.expiresAt <= now {
        status := Expired;
      }
      var remaining := 0;
      if row.expiresAt - now > 0 {
        remaining := row.expiresAt - now;
      }
      var shown, total := ReadSeats(InOrder(C.CarriedBy(Tables(), seats, h)));
      return Some(C.HoldView(row.eventId, row.token, status, row.expiresAt, remaining, shown, total));
    }

    /** The loop over the joined rows of a hold. */
    method ReadSeats(ids: seq<int>) returns (shown: seq<C.HeldSeat>, total: nat)
      requires forall t :: t in ids ==> C.Joined(Tables(), seats, t)
      ensures shown == C.SeatsShown(Tables(), seats, ids) && total == Total(prices, ids)
    {
      hide C.Joined;
      shown, total := [], 0;
      for k := 0 to |ids|
        invariant forall t :: t in ids[..k] ==> C.Joined(Tables(), seats, t)
        invariant shown == C.SeatsShown(Tables(), seats, ids[..k]) && total == Total(prices, ids[..k])
      {
        assert ids[..k + 1][..k] == ids[..k] && ids[k] in ids;
        var seat := C.SeatShown(Tables(), seats, ids[k]);
        RowPrice(Tables(), seats, ids[k]);
        total := total + seat.price;
        shown := shown + [seat];
      }
      assert ids[..|ids|] == ids;
    }

    /** Claims all the requested seats or none, and shows the hold that was made or is replayed. */
    method CreateHold(r: C.HoldRequest) returns (outcome: C.HoldOutcome, view: Option<C.HoldView>)
      requires C.UniqueHoldKeys(holds) && r.holdId !in holds
      modifies this`tickets, this`holds
      ensures (Tables(), outcome) == C.CreateHold(old(Tables()), r)
      ensures outcome.Created? && r.now <= clock ==> Now() == Next(old(Now()), Claim(C.Args(r)))
      ensures view == if outcome.Created? || outcome.Replayed?
                      then C.ViewOf(Tables(), seats, r.userId, outcome.holdId, clock) else None
    {
      outcome := ClaimOrReplay(r);
      view := None;
      if outcome.Created? || outcome.Replayed? {
        view := LoadHold(r.userId, outcome.holdId, clock);
      }
    }

    method ClaimOrReplay(r: C.HoldRequest) returns (outcome: C.HoldOutcome)
      requires C.UniqueHoldKeys(holds) && r.holdId !in holds
      modifies this`tickets, this`holds
      ensures (Tables(), outcome) == C.CreateHold(old(Tables()), r)
      ensures outcome.Created? && r.now <= clock ==> Now() == Next(old(Now()), Claim(C.Args(r)))
    {
      hide Next, C.ClaimTx, C.ValidIds, C.Refusal, C.UniqueHoldKeys;
      ghost var w := Now();
      var valid := ValidateTicketIds(r.ticketIds);
      if valid.None? {
        return C.BadRequest;
      }
      if r.key != "" {
        var existing := FindHoldByKey(r.userId, r.key);
        if existing.Some? {
          return C.Replayed(existing.value);
        }
      }
      var refusal := CheckAdmission(r);
      if refusal.Some? {
        return refusal.value;
      }
      ValidSize(r.ticketIds);
      KeyIsFree(w.db, C.Args(r));
      outcome := ClaimRows(r, valid.value);
      if r.now <= clock {
        ClaimedWorld(w, C.Args(r));
      }
    }

    /**
     The claim itself, on the rows it has locked; a claim that fails leaves the tables as they were. Should another
     claim have used the key since it was looked up, its hold is read back.
     */
    method ClaimRows(r: C.HoldRequest, ids: seq<int>) returns (outcome: C.HoldOutcome)
      requires Ascending(ids) && Elems(ids) == Elems(r.ticketIds)
      requires C.UniqueHoldKeys(holds) && r.holdId !in holds
      modifies this`tickets, this`holds
      ensures Tables() == C.ClaimTx(old(Tables()), C.Args(r)).0
      ensures match C.ClaimTx(old(Tables()), C.Args(r)).1
              case UnknownTicket => outcome == C.TicketNotFound
              case SomeLost(lost) => outcome == C.SeatUnavailable(lost)
              case KeyTaken => outcome == C.Replayed(C.FindHold(old(holds), r.userId, C.NullIfEmpty(r.key)))
              case Claimed => outcome == C.Created(r.holdId)
    {
      var db := Tables();
      ghost var a := C.Args(r);
      var rows := InOrder(set t | t in ids && C.InEvent(db, r.eventId, t));
      RowsOfEvent(db, a, ids, rows);
      var lost, displaced := ScanRows(rows, r.now);
      if |rows| != |ids| {
        MissingRow(rows, ids);
        assert C.ClaimTx(db, a) == (db, C.UnknownTicket);
        return C.TicketNotFound;
      }
      AllRows(rows, ids);
      ScannedRows(db, a, rows, lost, displaced);
      if |lost| > 0 {
        assert C.ClaimTx(db, a) == (db, C.SomeLost(lost));
        return C.SeatUnavailable(lost);
      }
      if r.key != "" {
        var winner := FindHoldByKey(r.userId, r.key);
        if winner.Some? {
          assert C.ClaimTx(db, a) == (db, C.KeyTaken);
          return C.Replayed(winner.value);
        }
      }
      TakeSeats(r, ids, Elems(displaced));
      return C.Created(r.holdId);
    }

    /** Displaces the lapsed leases, inserts the hold and runs the guarded update; it matches every requested row. */
    method TakeSeats(r: C.HoldRequest, ids: seq<int>, displaced: set<Uuid>)
      requires var a := C.Args(r);
               && Elems(ids) == a.ids && (forall t :: t in a.ids ==> C.InEvent(Tables(), a.eventId, t))
               && C.Unclaimable(Tables(), a) == {} && displaced == C.DisplacedBy(Tables(), a)
               && !C.HoldKeyTaken(holds, a.userId, a.key)
      modifies this`tickets, this`holds
      ensures C.ClaimTx(old(Tables()), C.Args(r)) == (Tables(), C.Claimed)
    {
      var db := Tables();
      var expiresAt := r.now + HOLD_TTL;
      var affected := set t | t in Elems(ids) && C.InEvent(db, r.eventId, t) && Claimable(db.tickets[t], r.now);
      L.UpdateMatchesEveryRow(db, C.Args(r));
      ClaimWins(db, C.Args(r), affected, displaced);
      holds := Displaced(holds, displaced)[
                 r.holdId := Hold(r.eventId, r.userId, r.token, Active, expiresAt, C.NullIfEmpty(r.key))];
      tickets := Taken(tickets, affected, r.holdId, expiresAt);
    }

    /** One pass over the locked rows: the ids that are not free, and the leases the free ones still name. */
    method ScanRows(rows: seq<int>, now: Time) returns (lost: seq<int>, displaced: seq<Uuid>)
      requires Ascending(rows) && forall k :: 0 <= k < |rows| ==> rows[k] in tickets
      ensures Ascending(lost) && Elems(lost) == LostOf(tickets, rows, now)
      ensures Elems(displaced) == DisplacedOf(tickets, rows, now)
    {
      lost, displaced := [], [];
      for i := 0 to |rows|
        invariant Ascending(lost) && forall k :: 0 <= k < |lost| ==> i > 0 && lost[k] <= rows[i - 1]
        invariant Elems(lost) == LostOf(tickets, rows[..i], now)
        invariant Elems(displaced) == DisplacedOf(tickets, rows[..i], now)
      {
        ScanOne(tickets, rows, i, now);
        if !Claimable(tickets[rows[i]], now) {
          Pushed(lost, rows[i]);
          lost := lost + [rows[i]];
        } else if tickets[rows[i]].holdId.Some? {
          Pushed(displaced, tickets[rows[i]].holdId.value);
          displaced := displaced + [tickets[rows[i]].holdId.value];
        }
      }
      assert rows[..|rows|] == rows;
    }

    method ReleaseHold(userId: string, h: Uuid) returns (outcome: C.ReleaseOutcome)
      modifies this`tickets, this`holds
      ensures (Tables(), outcome) == C.ReleaseTx(old(Tables()), userId, h)
      ensures Now() == Next(old(Now()), Release(userId, h))
    {
      if h !in holds || holds[h].userId != userId {
        return C.HoldNotFound;
      }
      if holds[h].status != Active {
        return C.HoldNotActive;
      }
      var freed := HeldBy(tickets, h);
      tickets := Freed(tickets, freed);
      holds := WithStatus(holds, h, Released);
      return C.ReleasedSeats(|freed|);
    }

    // ---------- a purchase, transaction by transaction ----------

    /** Verifies ownership and the fence, prices the seats still held, and extends a lease too short to pay in. */
    method PrepareLease(userId: string, h: Uuid, token: string, ghost i: nat)
      returns (r: Result<P.Lease, P.PrepareError>)
      requires i in sagas && sagas[i].stage.Looked?
      requires sagas[i].userId == userId && sagas[i].holdId == h && sagas[i].token == token
      modifies this`tickets, this`holds, this`sagas
      ensures Now() == Next(old(Now()), Prepare(i, clock))
      ensures (Tables(), r) == P.PrepareTx(old(Tables()), userId, h, token, clock)
      ensures i in sagas && sagas[i] == old(sagas[i]).(stage := if r.Ok? then Leased(r.value) else Done)
    {
      ghost var w := Now();
      r := ExtendLease(userId, h, token, clock);
      PreparedWorld(w, i, clock, Tables(), r);
      sagas := sagas[i := sagas[i].(stage := if r.Ok? then Leased(r.value) else Done)];
    }

    /** The whole transaction, nothing else committing between its statements. */
    method ExtendLease(userId: string, h: Uuid, token: string, now: Time) returns (r: Result<P.Lease, P.PrepareError>)
      modifies this`tickets, this`holds
      ensures (Tables(), r) == P.PrepareTx(old(Tables()), userId, h, token, now)
    {
      r := ReadLease(userId, h, token, now);
      if r.Ok? {
        r := FinishLease(r.value, now);
      }
    }

    /** The checks, and the rows still held with their price. */
    method ReadLease(userId: string, h: Uuid, token: string, now: Time) returns (r: Result<P.Lease, P.PrepareError>)
      ensures r.Err? ==> P.PrepareTx(Tables(), userId, h, token, now) == (Tables(), r)
      ensures r.Ok? ==>
                && h in holds && holds[h].status == Active && HeldBy(tickets, h) != {}
                && r.value == P.PreparedLease(Tables(), h, now).(expiresAt := holds[h].expiresAt)
                && P.PrepareTx(Tables(), userId, h, token, now).1 == Ok(P.PreparedLease(Tables(), h, now))
    {
      var refused := CheckLease(userId, h, token, now);
      if refused.Some? {
        return Err(refused.value);
      }
      var held := HeldBy(tickets, h);
      var ids, total := PriceRows(InOrder(held));
      PreparedIffSeats(Tables(), userId, h, token, now);
      hide P.PrepareTx, HeldBy, InOrder, Total;
      if |ids| == 0 {
        return Err(P.NoSeats);
      }
      return Ok(P.Lease(h, holds[h].eventId, ids, total, holds[h].expiresAt));
    }

    /** The extension, in whatever state it finds the tables. */
    method FinishLease(lease: P.Lease, now: Time) returns (r: Result<P.Lease, P.PrepareError>)
      modifies this`tickets, this`holds
      ensures (Tables(), r) == P.FinishTx(old(Tables()), lease, now)
    {
      if lease.expiresAt - now >= PAYMENT_BUDGET {
        return Ok(lease);
      }
      var h, newExpiry := lease.holdId, now + PAYMENT_BUDGET;
      var affected := HeldBy(tickets, h);
      if |affected| != |lease.ticketIds| {
        return Err(P.HoldChanged);
      }
      tickets := Extended(tickets, affected, newExpiry);
      if h in holds && holds[h].status == Active {
        holds := holds[h := holds[h].(expiresAt := newExpiry)];
      }
      return Ok(lease.(expiresAt := newExpiry));
    }

    method CheckLease(userId: string, h: Uuid, token: string, now: Time) returns (refused: Option<P.PrepareError>)
      ensures refused.Some? ==> P.PrepareTx(Tables(), userId, h, token, now) == (Tables(), Err(refused.value))
      ensures refused.None? ==>
                h in holds && holds[h].userId == userId && holds[h].token == token
                && holds[h].status == Active && now < holds[h].expiresAt
    {
      if h !in holds || holds[h].userId != userId {
        return Some(P.HoldNotFound);
      }
      if holds[h].token != token {
        return Some(P.BadToken);
      }
      if holds[h].status != Active {
        return Some(P.NotActive);
      }
      if holds[h].expiresAt <= now {
        return Some(P.HoldExpired);
      }
      return None;
    }

    /** The pricing loop over the rows of a lease. */
    method PriceRows(rows: seq<int>) returns (ids: seq<int>, total: nat)
      ensures ids == rows && total == Total(prices, rows)
    {
      ids, total := [], 0;
      for k := 0 to |rows|
        invariant ids == rows[..k] && total == Total(prices, rows[..k])
      {
        assert rows[..k + 1][..k] == rows[..k];
        ids := ids + [rows[k]];
        total := total + PriceOf(prices, rows[k]);
      }
      assert rows[..|rows|] == rows;
    }

    /** The fenced conversion; a partial match rolls everything back. */
    method ConvertToSold(userId: string, lease: P.Lease, p: Uuid, key: string, b: Uuid, ghost i: nat)
      returns (outcome: P.ConvertOutcome)
      requires b !in bookings && i in sagas && sagas[i].stage == Paid(lease, p)
      requires sagas[i].userId == userId && sagas[i].key == key
      modifies this`tickets, this`holds, this`bookings, this`outbox, this`sagas
      ensures (Tables(), outcome) == P.ConvertTx(old(Tables()), userId, lease, p, key, b)
      ensures Now() == Next(old(Now()), Convert(i, b))
    {
      hide Next, P.BookingKeyTaken, P.Convertible, SoldUnder, WithStatus;
      ghost var w := Now();
      if P.BookingKeyTaken(bookings, userId, key) {
        outcome := P.AlreadyBooked;
      } else {
        var affected := P.Convertible(tickets, lease);
        if |affected| != |lease.ticketIds| {
          outcome := P.SeatsGone;
        } else {
          bookings := bookings[b := P.NewBooking(userId, lease, p, key, Confirmed, "")];
          tickets := SoldUnder(tickets, affected, b);
          holds := WithStatus(holds, lease.holdId, Converted);
          outbox := outbox + [OutboxRow(b, lease.eventId, userId, lease.ticketIds, lease.total)];
          outcome := P.SeatsSold;
        }
      }
      ConvertedWorld(w, i, b, Tables(), outcome);
      sagas := sagas[i := sagas[i].(stage := if outcome.SeatsGone? then SeatsLost(lease, p) else Done)];
    }

    method RecordDeclined(userId: string, lease: P.Lease, p: Uuid, key: string, b: Uuid, ghost i: nat)
      returns (wrote: bool)
      requires b !in bookings && p in payments && i in sagas && sagas[i].stage == TurnedDown(lease, p)
      requires sagas[i].userId == userId && sagas[i].key == key
      modifies this`tickets, this`holds, this`bookings, this`sagas
      ensures (Tables(), wrote) == P.DeclineTx(old(Tables()), userId, lease, p, key, payments[p].reason, b)
      ensures Now() == Next(old(Now()), Decline(i, b))
    {
      hide Next, P.BookingKeyTaken, HeldBy, Freed, WithStatus;
      ghost var w := Now();
      wrote := !P.BookingKeyTaken(bookings, userId, key);
      if wrote {
        var reason := P.DeclineReason(payments[p].reason);
        bookings := bookings[b := P.NewBooking(userId, lease, p, key, Failed, reason)];
        tickets := Freed(tickets, HeldBy(tickets, lease.holdId));
        holds := WithStatus(holds, lease.holdId, Released);
      }
      DeclinedWorld(w, i, b, Tables(), wrote);
      sagas := sagas[i := sagas[i].(stage := Done)];
    }

    /** The outcome recorded under the key, on any tables: None is a key still in flight, whose row cannot be read. */
    method Replay(paymentKey: string, lease: P.Lease) returns (stage: Option<Stage>)
      requires UniquePaymentKeys(payments)
      ensures stage.Some? <==> PaymentKeyTaken(payments, paymentKey)
      ensures stage.Some? ==>
                var q := PaymentOf(payments, paymentKey); stage.value == Replayed(payments[q], q, lease)
    {
      if q :| q in payments && payments[q].key == paymentKey {
        assert PaymentOf(payments, paymentKey) == q;
        var payment := payments[q];
        if payment.amount != lease.total {
          return Some(Done);
        }
        match payment.state {
          case InProgress => return Some(Done);
          case Completed => return Some(Paid(lease, q));
          case Refused => return Some(TurnedDown(lease, q));
        }
      }
      return None;
    }

    /** Claims the key by inserting the payment, or replays what is recorded under it. */
    method OpenPayment(userId: string, key: string, lease: P.Lease, p: Uuid, ghost i: nat)
      returns (replayed: Option<Stage>)
      requires UniquePaymentKeys(payments) && p !in payments
      requires i in sagas && sagas[i].stage == Leased(lease) && sagas[i].userId == userId && sagas[i].key == key
      requires Chargeable(PaymentKey(key), lease.total)
      modifies this`payments, this`sagas
      ensures Now() == Next(old(Now()), Step.OpenPayment(i, p))
      ensures replayed.None? ==>
                Tables() == InsertPayment(old(Tables()), p, PaymentKey(key), userId, lease.total)
                && sagas[i].stage == Charging(lease, p)
      ensures replayed.Some? ==> forall answer :: replayed.value == ChargeStage(old(Tables()), answer, key, lease, p)
      ensures replayed.Some? ==> sagas[i].stage == replayed.value && payments == old(payments)
      ensures replayed.Some? <==> PaymentKeyTaken(old(payments), PaymentKey(key))
      ensures sagas.Keys == old(sagas).Keys && sagas[i] == old(sagas[i]).(stage := sagas[i].stage)
      ensures replayed.Some? ==>
                var stage := replayed.value;
                || stage == Done
                || ((stage.Paid? || stage.TurnedDown?) && stage.lease == lease && stage.paymentId in payments)
    {
      var paymentKey := PaymentKey(key);
      if PaymentKeyTaken(payments, paymentKey) {
        var recorded := Replay(paymentKey, lease);
        var stage := if recorded.Some? then recorded.value else Done;
        sagas := sagas[i := sagas[i].(stage := stage)];
        return Some(stage);
      }
      payments := payments[p := Payment(paymentKey, userId, lease.total, InProgress, None, "", None)];
      sagas := sagas[i := sagas[i].(stage := Charging(lease, p))];
      return None;
    }

    method CallProvider(key: string, ref: string, ghost lease: P.Lease, ghost p: Uuid, ghost i: nat)
      returns (answer: Answer)
      requires i in sagas && sagas[i].stage == Charging(lease, p) && sagas[i].key == key
      modifies this`sagas, provider
      ensures Now() == Next(old(Now()), Step.CallProvider(i, answer))
      ensures answer == Settled(old(provider.chargedKeys), old(provider.mode), PaymentKey(key), ref)
      ensures sagas[i].stage == if answer.TransportError? then Done else Answered(lease, p, answer)
      ensures sagas.Keys == old(sagas).Keys && sagas[i] == old(sagas[i]).(stage := sagas[i].stage)
      ensures payments == old(payments) && provider.calls == old(provider.calls) + [PaymentKey(key)]
    {
      answer := provider.Charge(PaymentKey(key), ref);
      sagas := sagas[i := sagas[i].(stage := if answer.TransportError? then Done else Answered(lease, p, answer))];
    }

    /** Records a definite answer; an approval without a reference is rejected by the schema and stays ambiguous. */
    method RecordPayment(lease: P.Lease, p: Uuid, answer: Answer, ghost i: nat) returns (stage: Stage)
      requires p in payments && i in sagas && sagas[i].stage == Answered(lease, p, answer)
      modifies this`payments, this`sagas
      ensures Now() == Next(old(Now()), Step.RecordPayment(i)) && sagas[i].stage == stage
      ensures stage == StageAfter(answer, lease, p) && Tables() == RecordAnswer(old(Tables()), p, answer)
      ensures sagas.Keys == old(sagas).Keys && sagas[i] == old(sagas[i]).(stage := stage) && p in payments
    {
      hide Next;
      RecordedWorld(Now(), i, lease, p, answer);
      match answer {
        case Approved(ref) =>
          if ref == "" {
            stage := Done;
          } else {
            payments := payments[p := payments[p].(state := Completed, providerRef := Some(ref))];
            stage := Paid(lease, p);
          }
        case Declined(reason) =>
          payments := payments[p := payments[p].(state := Refused, reason := reason)];
          stage := TurnedDown(lease, p);
        case TransportError =>
          stage := Done;
      }
      sagas := sagas[i := sagas[i].(stage := stage)];
    }

    /** At most one call to the provider a key: only the insert that wins the unique index goes on to charge. */
    method Charge(userId: string, key: string, lease: P.Lease, p: Uuid, ref: string, ghost i: nat)
      returns (stage: Stage, ghost steps: seq<Step>)
      requires UniquePaymentKeys(payments) && p !in payments
      requires i in sagas && sagas[i].stage == Leased(lease) && sagas[i].userId == userId && sagas[i].key == key
      modifies this`payments, this`sagas, provider
      ensures Now() == Exec(old(Now()), steps) && forall k :: 0 <= k < |steps| ==> ChargeStep(steps[k])
      ensures i in sagas && sagas[i] == old(sagas[i]).(stage := stage)
      ensures var answer := Settled(old(provider.chargedKeys), old(provider.mode), PaymentKey(key), ref);
              && stage == ChargeStage(old(Tables()), answer, key, lease, p)
              && Tables() == if !NewCharge(old(payments), PaymentKey(key), lease.total) then old(Tables())
                             else RecordAnswer(InsertPayment(old(Tables()), p, PaymentKey(key), userId, lease.total),
                                               p, answer)
      ensures stage == Done
              || ((stage.Paid? || stage.TurnedDown?) && stage.lease == lease && stage.paymentId in payments)
      ensures var calls := old(provider.calls);
              provider.calls == if NewCharge(old(payments), PaymentKey(key), lease.total) then calls + [PaymentKey(key)]
                                else calls
    {
      hide Next, Exec, UniquePaymentKeys, Settled, RecordAnswer, PaymentKeyTaken;
      ghost var w := Now();
      if PaymentKey(key) == "" || lease.total < 0 {
        RefusedWorld(w, i, p);
        ExecSingle(w, Step.OpenPayment(i, p));
        sagas := sagas[i := sagas[i].(stage := Done)];
        return Done, [Step.OpenPayment(i, p)];
      }
      var replayed := OpenPayment(userId, key, lease, p, i);
      steps := [Step.OpenPayment(i, p)];
      ExecSingle(w, Step.OpenPayment(i, p));
      if replayed.Some? {
        return replayed.value, steps;
      }
      ghost var calling;
      stage, calling := CallAndRecord(key, lease, p, ref, i);
      ExecAppend(w, steps, calling);
      steps := steps + calling;
    }

    /** The provider first, then its answer, in two steps; an answer that never came leaves the payment as it is. */
    method CallAndRecord(key: string, lease: P.Lease, p: Uuid, ref: string, ghost i: nat)
      returns (stage: Stage, ghost steps: seq<Step>)
      requires p in payments && i in sagas && sagas[i].stage == Charging(lease, p) && sagas[i].key == key
      modifies this`payments, this`sagas, provider
      ensures Now() == Exec(old(Now()), steps) && forall k :: 0 <= k < |steps| ==> ChargeStep(steps[k])
      ensures i in sagas && sagas[i] == old(sagas[i]).(stage := stage)
      ensures var answer := Settled(old(provider.chargedKeys), old(provider.mode), PaymentKey(key), ref);
              stage == StageAfter(answer, lease, p) && Tables() == RecordAnswer(old(Tables()), p, answer)
      ensures p in payments && provider.calls == old(provider.calls) + [PaymentKey(key)]
    {
      hide Next, Exec, Settled;
      ghost var w := Now();
      var answer := CallProvider(key, ref, lease, p, i);
      steps := [Step.CallProvider(i, answer)];
      ExecSingle(w, Step.CallProvider(i, answer));
      if answer.TransportError? {
        return Done, steps;
      }
      stage := RecordPayment(lease, p, answer, i);
      ExecOne(w, steps, Step.RecordPayment(i));
      steps := steps + [Step.RecordPayment(i)];
    }

    /** Writes the debt down before any attempt to refund it; None when the key already has a booking. */
    method RecordDebt(userId: string, lease: P.Lease, p: Uuid, key: string, b: Uuid, ghost i: nat)
      returns (wrote: bool)
      requires b !in bookings && i in sagas && sagas[i].stage == SeatsLost(lease, p)
      requires sagas[i].userId == userId && sagas[i].key == key
      modifies this`bookings, this`sagas
      ensures Now() == Next(old(Now()), Owe(i, b))
      ensures wrote <==> !P.BookingKeyTaken(old(bookings), userId, key)
      ensures i in sagas && sagas[i] == old(sagas[i]).(stage := if wrote then Owing(lease, p, b) else Done)
      ensures var debt := P.NewBooking(userId, lease, p, key, Compensating, "seats_lost_after_charge");
              bookings == if wrote then old(bookings)[b := debt] else old(bookings)
    {
      wrote := !P.BookingKeyTaken(bookings, userId, key);
      if wrote {
        bookings :=
          bookings[b := P.NewBooking(userId, lease, p, key, Compensating, "seats_lost_after_charge")];
      }
      sagas := sagas[i := sagas[i].(stage := if wrote then Owing(lease, p, b) else Done)];
    }

    /** Success is a stamped payment or an accepted refund; a payment without a row is refused like an unpaid one. */
    method Refund(lease: P.Lease, p: Uuid, b: Uuid, ghost i: nat) returns (refunded: bool, ghost steps: seq<Step>)
      requires i in sagas && sagas[i].stage == Owing(lease, p, b)
      modifies this`payments, this`sagas, provider
      ensures Now() == Exec(old(Now()), steps)
      ensures i in sagas && sagas[i] == old(sagas[i]).(stage := if refunded then Refunded(lease, p, b) else Done)
      ensures refunded <==> RefundSucceeds(old(payments), p, provider.mode)
      ensures provider.refundCalls == if CallsRefund(old(payments), p)
                                      then old(provider.refundCalls) + [old(payments[p]).providerRef.value]
                                      else old(provider.refundCalls)
      ensures payments.Keys == old(payments).Keys && (refunded ==> payments[p].refundedAt.Some?)
    {
      ghost var w := Now();
      steps := [CallRefund(i, true)];
      ExecSingle(w, CallRefund(i, true));
      if p !in payments {
        sagas := sagas[i := sagas[i].(stage := Done)];
        return false, steps;
      }
      if payments[p].refundedAt.Some? {
        sagas := sagas[i := sagas[i].(stage := Refunded(lease, p, b))];
        return true, steps;
      }
      if payments[p].state != Completed || payments[p].providerRef.None? {
        sagas := sagas[i := sagas[i].(stage := Done)];
        return false, steps;
      }
      refunded, steps := CallAndStamp(lease, p, b, i);
    }

    /** The provider first, then the stamp, in two steps. */
    method CallAndStamp(lease: P.Lease, p: Uuid, b: Uuid, ghost i: nat) returns (accepted: bool, ghost steps: seq<Step>)
      requires CallsRefund(payments, p) && i in sagas && sagas[i].stage == Owing(lease, p, b)
      modifies this`payments, this`sagas, provider
      ensures Now() == Exec(old(Now()), steps)
      ensures i in sagas && sagas[i] == old(sagas[i]).(stage := if accepted then Refunded(lease, p, b) else Done)
      ensures provider.mode == old(provider.mode) && (accepted <==> provider.mode != RefundFails)
      ensures provider.refundCalls == old(provider.refundCalls) + [old(payments[p]).providerRef.value]
      ensures payments == if accepted then old(payments)[p := old(payments[p]).(refundedAt := Some(clock))]
                          else old(payments)
    {
      hide Next, Exec;
      ghost var w := Now();
      accepted := provider.Refund(payments[p].providerRef.value);
      RefundCalledWorld(w, i, lease, p, b, accepted);
      steps := [CallRefund(i, accepted)];
      ExecSingle(w, CallRefund(i, accepted));
      if !accepted {
        sagas := sagas[i := sagas[i].(stage := Done)];
        return false, steps;
      }
      sagas := sagas[i := sagas[i].(stage := Refunding(lease, p, b))];
      StampedWorld(Now(), i, lease, p, b);
      ExecOne(w, steps, StampRefund(i, clock));
      steps := steps + [StampRefund(i, clock)];
      payments := payments[p := payments[p].(refundedAt := Some(clock))];
      sagas := sagas[i := sagas[i].(stage := Refunded(lease, p, b))];
    }

    /** Money was taken for seats that are gone: owe, refund, and only then call the debt settled. */
    method Compensate(userId: string, lease: P.Lease, p: Uuid, key: string, b: Uuid, ghost i: nat)
      returns (outcome: PurchaseOutcome, ghost steps: seq<Step>)
      requires p in payments && b !in bookings && i in sagas && sagas[i].stage == SeatsLost(lease, p)
      requires sagas[i].userId == userId && sagas[i].key == key
      modifies this`payments, this`bookings, this`sagas, provider
      ensures Now() == Exec(old(Now()), steps)
      ensures i in sagas && sagas[i].stage == Done
      ensures P.BookingKeyTaken(old(bookings), userId, key) ==> outcome == Existing && Tables() == old(Tables())
      ensures !P.BookingKeyTaken(old(bookings), userId, key) ==>
                && outcome.SeatsGone? && Leaves(outcome, old(Tables()), Tables(), userId, lease, key, b)
                && bookings[b].paymentId == p
                && (outcome.refunded <==> RefundSucceeds(old(payments), p, provider.mode))
    {
      hide Next, Exec, Leaves;
      ghost var w := Now();
      var wrote := RecordDebt(userId, lease, p, key, b, i);
      steps := [Owe(i, b)];
      ExecSingle(w, Owe(i, b));
      if !wrote {
        return Existing, steps;
      }
      var refunded, refunding := Refund(lease, p, b, i);
      ExecAppend(w, steps, refunding);
      steps := steps + refunding;
      if refunded {
        SettleBooking(lease, p, b, i);
        ExecOne(w, steps, Settle(i));
        steps := steps + [Settle(i)];
      }
      DebtLeft(w.db, Tables(), userId, lease, key, b, p, refunded);
      return SeatsGone(refunded), steps;
    }

    /** Only after the refund is stamped does the booking say so. */
    method SettleBooking(lease: P.Lease, p: Uuid, b: Uuid, ghost i: nat)
      requires b in bookings && i in sagas && sagas[i].stage == Refunded(lease, p, b)
      modifies this`bookings, this`sagas
      ensures Now() == Next(old(Now()), Settle(i))
      ensures bookings == old(bookings)[b := old(bookings[b]).(status := Compensated)]
      ensures i in sagas && sagas[i].stage == Done
    {
      bookings := bookings[b := bookings[b].(status := Compensated)];
      sagas := sagas[i := sagas[i].(stage := Done)];
    }

    /** Validates the headers and looks for a booking already made under the key. */
    method BeginPurchase(userId: string, h: Uuid, token: string, key: string, ghost i: nat) returns (admitted: bool)
      requires i !in sagas
      modifies this`sagas
      ensures Now() == Next(old(Now()), Begin(i, userId, h, token, key))
      ensures admitted <==> token != "" && key != "" && !P.BookingKeyTaken(bookings, userId, key)
      ensures admitted ==> i in sagas && sagas[i] == Saga(userId, h, token, key, Looked)
    {
      if token == "" || key == "" {
        return false;
      }
      admitted := !P.BookingKeyTaken(bookings, userId, key);
      sagas := sagas[i := Saga(userId, h, token, key, if admitted then Looked else Done)];
    }

    /**
     The whole saga, run by one client: every effect it has is a list of protocol steps in this order, it runs to the
     end, and its outcome is the one the tables and the provider determine. On a reachable state, with nobody else
     interfering, a purchase that was charged always gets its seats.
     */
    method Purchase(
      userId: string, h: Uuid, token: string, key: string, p: Uuid, ref: string, b: Uuid, ghost i: nat)
      returns (outcome: PurchaseOutcome, ghost steps: seq<Step>)
      requires UniquePaymentKeys(payments) && p !in payments && b !in bookings && i !in sagas
      modifies this, provider
      ensures Now() == Exec(old(Now()), steps)
      ensures token == "" || key == "" ==> outcome == BadRequest && Now() == old(Now())
      ensures token != "" && key != "" ==> i in sagas && sagas[i].stage == Done
      ensures token != "" && key != "" && P.BookingKeyTaken(old(bookings), userId, key) ==>
                outcome == Existing && Tables() == old(Tables()) && provider.calls == old(provider.calls)
      ensures token != "" && key != "" && !P.BookingKeyTaken(old(bookings), userId, key) ==>
                var (db, r) := P.PrepareTx(old(Tables()), userId, h, token, old(clock));
                match r
                case Err(error) => outcome == NotReady(error) && Tables() == db && provider.calls == old(provider.calls)
                case Ok(lease) =>
                  var answer := Settled(old(provider.chargedKeys), old(provider.mode), PaymentKey(key), ref);
                  && Tells(outcome, db, lease, ChargeStage(db, answer, key, lease, p))
                  && Leaves(outcome, db, Tables(), userId, lease, key, b)
      ensures Sales.AllInv(old(Now())) ==> !outcome.SeatsGone?
    {
      ghost var w := Now();
      var admitted := BeginPurchase(userId, h, token, key, i);
      if token == "" || key == "" {
        return BadRequest, [];
      }
      steps := [Begin(i, userId, h, token, key)];
      ExecSingle(w, Begin(i, userId, h, token, key));
      if !admitted {
        return Existing, steps;
      }
      if Sales.AllInv(w) {
        Sales.StepKeepsAll(w, steps[0]);
      }
      ghost var rest;
      outcome, rest := LeaseAndPay(userId, h, token, key, p, ref, b, i);
      ExecAppend(w, steps, rest);
      steps := steps + rest;
    }

    /** Prepares the lease, charges for it and delivers. */
    method LeaseAndPay(
      userId: string, h: Uuid, token: string, key: string, p: Uuid, ref: string, b: Uuid, ghost i: nat)
      returns (outcome: PurchaseOutcome, ghost steps: seq<Step>)
      requires UniquePaymentKeys(payments) && p !in payments && b !in bookings
      requires i in sagas && sagas[i] == Saga(userId, h, token, key, Looked)
      requires !P.BookingKeyTaken(bookings, userId, key)
      modifies this`tickets, this`holds, this`bookings, this`outbox, this`payments, this`sagas, provider
      ensures Now() == Exec(old(Now()), steps) && i in sagas && sagas[i].stage == Done
      ensures var (db, r) := P.PrepareTx(old(Tables()), userId, h, token, clock);
              match r
              case Err(error) => outcome == NotReady(error) && Tables() == db && provider.calls == old(provider.calls)
              case Ok(lease) =>
                var answer := Settled(old(provider.chargedKeys), old(provider.mode), PaymentKey(key), ref);
                && Tells(outcome, db, lease, ChargeStage(db, answer, key, lease, p))
                && Leaves(outcome, db, Tables(), userId, lease, key, b)
      ensures Sales.AllInv(old(Now())) ==> !outcome.SeatsGone?
    {
      hide Next, Exec, Tells, Leaves, Sales.AllInv, Timing.Intact, P.BookingKeyTaken, UniquePaymentKeys;
      ghost var w := Now();
      var lease := PrepareLease(userId, h, token, i);
      steps := [Prepare(i, clock)];
      ExecSingle(w, Prepare(i, clock));
      if lease.Err? {
        return NotReady(lease.error), steps;
      }
      if Sales.AllInv(w) {
        FreshLease(w, i, clock);
      }
      ghost var rest;
      outcome, rest := PayAndDeliver(userId, lease.value, key, p, ref, b, i);
      ExecAppend(w, steps, rest);
      steps := steps + rest;
    }

    method PayAndDeliver(
      userId: string, lease: P.Lease, key: string, p: Uuid, ref: string, b: Uuid, ghost i: nat)
      returns (outcome: PurchaseOutcome, ghost steps: seq<Step>)
      requires UniquePaymentKeys(payments) && p !in payments && b !in bookings
      requires !P.BookingKeyTaken(bookings, userId, key)
      requires i in sagas && sagas[i].stage == Leased(lease) && sagas[i].userId == userId && sagas[i].key == key
      modifies this`tickets, this`holds, this`bookings, this`outbox, this`payments, this`sagas, provider
      ensures Now() == Exec(old(Now()), steps) && i in sagas && sagas[i].stage == Done
      ensures var answer := Settled(old(provider.chargedKeys), old(provider.mode), PaymentKey(key), ref);
              Tells(outcome, old(Tables()), lease, ChargeStage(old(Tables()), answer, key, lease, p))
      ensures Leaves(outcome, old(Tables()), Tables(), userId, lease, key, b)
      ensures Sales.AllInv(old(Now())) && Timing.Intact(old(Tables()), lease) && clock < lease.expiresAt ==>
                !outcome.SeatsGone?
    {
      hide Next, Exec, Tells, Leaves, Sales.AllInv, Timing.Intact, P.Convertible, P.BookingKeyTaken, UniquePaymentKeys;
      hide ChargeStage, RecordAnswer, Settled, NewCharge;
      ghost var w, answer := Now(), Settled(provider.chargedKeys, provider.mode, PaymentKey(key), ref);
      var stage, charging := Charge(userId, key, lease, p, ref, i);
      ghost var paid := Tables();
      ChargeTouchesPayments(w.db, userId, key, lease, p, answer, paid);
      ghost var finishing;
      outcome, finishing := Finish(userId, lease, stage, key, b, i);
      if Sales.AllInv(w) && Timing.Intact(w.db, lease) && w.clock < lease.expiresAt {
        if stage.Paid? {
          PaidSeatsWait(w, charging, i, lease, stage.paymentId);
        }
        SeatsAreThere(outcome, paid, lease, stage);
      }
      ChargingAside(outcome, w.db, paid, Tables(), userId, lease, key, b, stage);
      ExecAppend(w, charging, finishing);
      steps := charging + finishing;
    }

    /** What the recorded outcome of a charge leads to. */
    method Finish(userId: string, lease: P.Lease, stage: Stage, key: string, b: Uuid, ghost i: nat)
      returns (outcome: PurchaseOutcome, ghost steps: seq<Step>)
      requires b !in bookings && !P.BookingKeyTaken(bookings, userId, key)
      requires i in sagas && sagas[i].stage == stage && sagas[i].userId == userId && sagas[i].key == key
      requires stage == Done
               || ((stage.Paid? || stage.TurnedDown?) && stage.lease == lease && stage.paymentId in payments)
      modifies this`tickets, this`holds, this`bookings, this`outbox, this`payments, this`sagas, provider
      ensures Now() == Exec(old(Now()), steps) && i in sagas && sagas[i].stage == Done
      ensures Tells(outcome, old(Tables()), lease, stage)
      ensures Leaves(outcome, old(Tables()), Tables(), userId, lease, key, b)
    {
      ghost var w := Now();
      match stage {
        case TurnedDown(_, q) =>
          var _ := RecordDeclined(userId, lease, q, key, b, i);
          ExecSingle(w, Decline(i, b));
          return TurnedAway, [Decline(i, b)];
        case Paid(_, q) =>
          outcome, steps := Deliver(userId, lease, q, key, b, i);
        case _ =>
          return Unresolved, [];
      }
    }

    /** Converts a paid lease, or compensates for it. */
    method Deliver(userId: string, lease: P.Lease, q: Uuid, key: string, b: Uuid, ghost i: nat)
      returns (outcome: PurchaseOutcome, ghost steps: seq<Step>)
      requires q in payments && b !in bookings && !P.BookingKeyTaken(bookings, userId, key)
      requires i in sagas && sagas[i].stage == Paid(lease, q) && sagas[i].userId == userId && sagas[i].key == key
      modifies this`tickets, this`holds, this`bookings, this`outbox, this`payments, this`sagas, provider
      ensures Now() == Exec(old(Now()), steps) && i in sagas && sagas[i].stage == Done
      ensures Tells(outcome, old(Tables()), lease, Paid(lease, q))
      ensures Leaves(outcome, old(Tables()), Tables(), userId, lease, key, b)
    {
      ghost var w := Now();
      var converted := ConvertToSold(userId, lease, q, key, b, i);
      ExecSingle(w, Convert(i, b));
      steps := [Convert(i, b)];
      if converted.SeatsSold? {
        return Booked, steps;
      }
      ghost var compensating;
      outcome, compensating := Compensate(userId, lease, q, key, b, i);
      ExecAppend(w, steps, compensating);
      steps := steps + compensating;
    }

    // ---------- the expiry sweep ----------

    /** Frees one bounded batch of lapsed tickets, passing over the rows others have locked, lowest ids first. */
    method ReapBatch(now: Time, locked: set<int>) returns (released: nat)
      modifies this`tickets
      ensures tickets == Freed(old(tickets), R.Batch(old(tickets), now, locked))
      ensures released == |R.Batch(old(tickets), now, locked)|
      ensures now <= clock ==> Now() == Next(old(Now()), ReapTickets(R.Batch(old(tickets), now, locked), now))
    {
      hide Next, R.Batch, LapsedTickets, Freed;
      R.BatchIs(tickets, now, locked);
      var batch := R.Batch(tickets, now, locked);
      if now <= clock {
        SweptWorld(Now(), batch, now);
      }
      tickets := Freed(tickets, batch);
      released := |batch|;
    }

    /** One more batch of a sweep that began in w. */
    method NextBatch(now: Time, locked: seq<set<int>>, i: nat, ghost w: World, ghost before: seq<set<int>>,
        ghost steps: seq<Step>)
      returns (count: nat, ghost batches: seq<set<int>>, ghost steps': seq<Step>)
      requires i == |before| < |locked|
      requires R.AreBatches(w.db.tickets, now, locked, before)
      requires R.Union(before) <= LapsedTickets(w.db.tickets, now) && tickets == Freed(w.db.tickets, R.Union(before))
      requires now <= clock ==> Now() == Exec(w, steps)
      modifies this`tickets
      ensures |batches| == i + 1 && batches[..i] == before && count == |batches[i]| <= REAP_BATCH_SIZE
      ensures R.AreBatches(w.db.tickets, now, locked, batches)
      ensures R.Union(batches) <= LapsedTickets(w.db.tickets, now) && tickets == Freed(w.db.tickets, R.Union(batches))
      ensures |R.Union(batches)| == |R.Union(before)| + count
      ensures now <= clock ==> Now() == Exec(w, steps')
    {
      hide Next, Exec, R.Batch, R.AreBatches, LapsedTickets, Freed;
      ghost var batch := R.NextBatch(w.db.tickets, now, locked, before);
      R.AnotherBatch(w.db.tickets, now, locked, before);
      count := ReapBatch(now, locked[i]);
      ExecOne(w, steps, ReapTickets(batch, now));
      batches, steps' := before + [batch], steps + [ReapTickets(batch, now)];
    }

    /**
     The bounded loop over batches; `truncated` says the batch limit was reached. `locked` says, batch by batch, which
     rows other transactions have locked.
     */
    method ReapBatches(now: Time, locked: seq<set<int>>)
      returns (released: nat, truncated: bool, ghost batches: seq<set<int>>, ghost steps: seq<Step>)
      requires |locked| == R.MAX_REAP_BATCHES
      modifies this`tickets
      ensures R.Sweeps(old(tickets), tickets, now, locked, batches, released, truncated)
      ensures now <= clock ==> Now() == Exec(old(Now()), steps)
    {
      hide Next, Exec, R.Batch, R.AreBatches, LapsedTickets, Freed;
      ghost var w := Now();
      released, truncated, batches, steps := 0, false, [], [];
      BeforeAnyBatch(w, now, locked);
      for i := 0 to R.MAX_REAP_BATCHES
        invariant |batches| == i && R.AreBatches(w.db.tickets, now, locked, batches) && R.AllFull(batches)
        invariant R.Union(batches) <= LapsedTickets(w.db.tickets, now)
        invariant tickets == Freed(w.db.tickets, R.Union(batches)) && released == |R.Union(batches)|
        invariant truncated <==> i == R.MAX_REAP_BATCHES
        invariant now <= clock ==> Now() == Exec(w, steps)
      {
        var count;
        count, batches, steps := NextBatch(now, locked, i, w, batches, steps);
        released := released + count;
        if count < REAP_BATCH_SIZE {
          break;
        }
        if i == R.MAX_REAP_BATCHES - 1 {
          truncated := true;
        }
      }
    }

    /** A whole sweep: the batches, then the holds that have lapsed. */
    method Reap(now: Time, locked: seq<set<int>>)
      returns (released: nat, expired: nat, truncated: bool, ghost batches: seq<set<int>>, ghost steps: seq<Step>)
      requires |locked| == R.MAX_REAP_BATCHES
      modifies this`tickets, this`holds
      ensures R.Sweeps(old(tickets), tickets, now, locked, batches, released, truncated)
      ensures Tables() == L.Reaped(old(Tables()), R.Union(batches), now, true)
      ensures expired == |LapsedHolds(old(holds), now)| && LapsedHolds(holds, now) == {}
      ensures truncated <==> released == R.SWEEP_LIMIT
      ensures !truncated ==> LapsedTickets(tickets, now) == R.SkippedAtEnd(old(tickets), now, locked, batches)
      ensures R.NoneLocked(locked) ==>
                && released == R.Least(|LapsedTickets(old(tickets), now)|, R.SWEEP_LIMIT)
                && (!truncated ==> LapsedTickets(tickets, now) == {} && L.Reaped(Tables(), {}, now, true) == Tables())
                && ((truncated <==> LapsedTickets(tickets, now) != {}) <==>
                    |LapsedTickets(old(tickets), now)| != R.SWEEP_LIMIT)
      ensures now <= clock ==> Now() == Exec(old(Now()), steps)
    {
      hide Next, Exec, R.AreBatches, R.AllFull, R.SkippedAtEnd, LapsedTickets, LapsedHolds, Freed, Displaced;
      ghost var w := Now();
      released, truncated, batches, steps := ReapBatches(now, locked);
      if now <= clock {
        ExpiredWorld(Now(), now);
      }
      ExecOne(w, steps, ReapHolds(now));
      steps := steps + [ReapHolds(now)];
      var lapsed := LapsedHolds(holds, now);
      R.NoHoldLeft(holds, now);
      R.LeftAfterSweep(old(tickets), tickets, now, locked, batches, released, truncated);
      holds := Displaced(holds, lapsed);
      expired := |lapsed|;
      if R.NoneLocked(locked) {
        R.AloneSweep(old(tickets), tickets, now, locked, batches, released, truncated);
        if !truncated {
          R.NothingToSweep(Tables(), now);
        }
      }
    }
  }

  lemma BeforeAnyBatch(w: World, now: Time, locked: seq<set<int>>)
    ensures R.AreBatches(w.db.tickets, now, locked, []) && R.Union([]) == {}
    ensures w.db.tickets == Freed(w.db.tickets, {}) && Exec(w, []) == w
  {
  }

  function LostOf(tickets: map<int, Ticket>, rows: seq<int>, now: Time): set<int> {
    set t | t in rows && t in tickets && !Claimable(tickets[t], now)
  }

  function DisplacedOf(tickets: map<int, Ticket>, rows: seq<int>, now: Time): set<Uuid> {
    set t | t in rows && t in tickets && Claimable(tickets[t], now) && tickets[t].holdId.Some? ::
      tickets[t].holdId.value
  }

  lemma Pushed<T>(s: seq<T>, x: T)
    ensures Elems(s + [x]) == Elems(s) + {x}
  {
  }

  lemma NamesLease(tickets: map<int, Ticket>, rows: seq<int>, now: Time, t: int)
    requires t in rows && t in tickets && Claimable(tickets[t], now) && tickets[t].holdId.Some?
    ensures tickets[t].holdId.value in DisplacedOf(tickets, rows, now)
  {
  }

  lemma ScanOne(tickets: map<int, Ticket>, rows: seq<int>, i: nat, now: Time)
    requires i < |rows| && rows[i] in tickets
    ensures var row := tickets[rows[i]];
            && LostOf(tickets, rows[..i + 1], now)
               == LostOf(tickets, rows[..i], now) + (if Claimable(row, now) then {} else {rows[i]})
            && DisplacedOf(tickets, rows[..i + 1], now)
               == DisplacedOf(tickets, rows[..i], now)
                  + (if Claimable(row, now) && row.holdId.Some? then {row.holdId.value} else {})
  {
    LongerPrefix(rows, i);
    var row := tickets[rows[i]];
    var before, after := DisplacedOf(tickets, rows[..i], now), DisplacedOf(tickets, rows[..i + 1], now);
    forall h | h in after ensures h in before || (Claimable(row, now) && row.holdId == Some(h)) {
      var t :| t in rows[..i + 1] && t in tickets && Claimable(tickets[t], now) && tickets[t].holdId == Some(h);
      assert t in rows[..i] || t == rows[i];
    }
    forall h | h in before || (Claimable(row, now) && row.holdId == Some(h)) ensures h in after {
      if h in before {
        var t :| t in rows[..i] && t in tickets && Claimable(tickets[t], now) && tickets[t].holdId == Some(h);
        assert t in rows[..i + 1];
        NamesLease(tickets, rows[..i + 1], now, t);
      } else {
        assert rows[i] in rows[..i + 1];
        NamesLease(tickets, rows[..i + 1], now, rows[i]);
      }
    }
  }

  lemma RowsOfEvent(db: DB, a: C.ClaimArgs, ids: seq<int>, rows: seq<int>)
    requires Elems(ids) == a.ids
    requires rows == InOrder(set t | t in ids && C.InEvent(db, a.eventId, t))
    ensures Elems(rows) <= Elems(ids) && forall t :: t in rows <==> t in a.ids && C.InEvent(db, a.eventId, t)
    ensures forall k :: 0 <= k < |rows| ==> rows[k] in db.tickets
  {
    forall t ensures t in rows <==> t in a.ids && C.InEvent(db, a.eventId, t) {
      assert t in ids <==> t in Elems(ids);
    }
    forall k | 0 <= k < |rows| ensures rows[k] in db.tickets {
      assert rows[k] in rows;
    }
  }

  /** When every requested id has a row, the scan's lists are the claim's own sets. */
  lemma ScannedRows(db: DB, a: C.ClaimArgs, rows: seq<int>, lost: seq<int>, displaced: seq<Uuid>)
    requires forall t :: t in rows <==> t in a.ids && C.InEvent(db, a.eventId, t)
    requires Elems(rows) == a.ids
    requires Ascending(lost) && Elems(lost) == LostOf(db.tickets, rows, a.now)
    requires Elems(displaced) == DisplacedOf(db.tickets, rows, a.now)
    ensures lost == InOrder(C.Unclaimable(db, a))
    ensures forall t :: t in a.ids ==> C.InEvent(db, a.eventId, t)
    ensures lost != [] ==> C.Unclaimable(db, a) != {}
    ensures lost == [] ==> C.Unclaimable(db, a) == {} && Elems(displaced) == C.DisplacedBy(db, a)
  {
    assert forall t :: t in a.ids ==> t in rows;
    assert LostOf(db.tickets, rows, a.now) == C.Unclaimable(db, a);
    AscendingIsInOrder(lost);
    if lost != [] {
      assert lost[0] in Elems(lost);
    }
    if lost == [] {
      assert C.Unclaimable(db, a) == Elems(lost) == {};
      forall h ensures h in DisplacedOf(db.tickets, rows, a.now) <==> h in C.DisplacedBy(db, a) {
        if t :| t in a.ids && C.InEvent(db, a.eventId, t) && db.tickets[t].holdId == Some(h) {
          assert t in rows && t !in C.Unclaimable(db, a);
          assert h in DisplacedOf(db.tickets, rows, a.now);
        }
      }
    }
  }

  lemma ClaimWins(db: DB, a: C.ClaimArgs, affected: set<int>, displaced: set<Uuid>)
    requires forall t :: t in a.ids ==> C.InEvent(db, a.eventId, t)
    requires C.Unclaimable(db, a) == {} && displaced == C.DisplacedBy(db, a) && affected == a.ids
    requires !C.HoldKeyTaken(db.holds, a.userId, a.key)
    ensures C.ClaimTx(db, a)
            == (db.(tickets := Taken(db.tickets, affected, a.holdId, a.now + HOLD_TTL),
                    holds := Displaced(db.holds, displaced)[a.holdId := C.NewHold(a)]),
                C.Claimed)
  {
  }

  lemma CarriersAreJoined(db: DB, seats: map<int, I.Seat>, h: Uuid)
    ensures forall t :: t in InOrder(C.CarriedBy(db, seats, h)) ==> C.Joined(db, seats, t)
  {
  }

  lemma RowPrice(db: DB, seats: map<int, I.Seat>, t: int)
    requires C.Joined(db, seats, t)
    ensures C.SeatShown(db, seats, t).price == PriceOf(db.prices, t)
  {
  }

  lemma KeyIsFree(db: DB, a: C.ClaimArgs)
    requires !C.HoldKeyTaken(db.holds, a.userId, a.key)
    ensures C.ClaimTx(db, a).1 != C.KeyTaken
  {
  }

  lemma MissingRow(rows: seq<int>, ids: seq<int>)
    requires Ascending(rows) && Ascending(ids) && Elems(rows) <= Elems(ids) && |rows| != |ids|
    ensures exists t :: t in ids && t !in rows
  {
    AscendingSize(rows);
    AscendingSize(ids);
    assert Elems(ids) != Elems(rows);
    var t :| t in Elems(ids) && t !in Elems(rows);
    assert t in ids && t !in rows;
  }

  lemma AllRows(rows: seq<int>, ids: seq<int>)
    requires Ascending(rows) && Ascending(ids) && Elems(rows) <= Elems(ids) && |rows| == |ids|
    ensures Elems(rows) == Elems(ids)
  {
    AscendingSize(rows);
    AscendingSize(ids);
    SubsetSize(Elems(rows), Elems(ids));
  }
}
