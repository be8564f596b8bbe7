/**
 Runs in which a hold leaves a final status, for any hold id, user and keys. Conversion rechecks neither status nor
 expiry (booking/purchase.go:311-312), and a decline writes RELEASED over whatever is there
 (booking/purchase.go:391-392).
 */
module HoldRuns {
  import opened Common
  import opened Tables
  import opened Charges
  import opened Protocol
  import opened SharedKey
  import Money
  import P = Purchases

  predicate StatusIs(w: World, h: Uuid, status: HoldStatus) {
    h in w.db.holds && w.db.holds[h].status == status
  }

  ghost predicate OneLeased(w: World, h: Uuid, u: string, key: string) {
    && w.sagas == map[1 := Saga(u, h, "token", key, Leased(LeaseOn(1, h)))] && w.clock == 0
    && w.db.payments == map[] && w.db.bookings == map[] && w.db.holds == map[h := HoldOf(u)]
    && w.db.tickets == map[1 := SeatUnder(1, h), 2 := Seat(2)]
    && w.db.prices == Start().db.prices
  }

  lemma FirstLeases(h: Uuid, u: string, key: string)
    requires key != ""
    ensures OneLeased(Exec(Start(), Opening(1, h, u, key)), h, u, key)
  {
    hide Next, Exec;
    OpenOne(Start(), 1, h, u, key);
  }

  function Declining(i: nat, p: Uuid): seq<Step> {
    [OpenPayment(i, p), CallProvider(i, Answer.Declined("no")), RecordPayment(i)]
  }

  /** The purchase is declined, which so far only its payment says. */
  lemma DeclineOne(w: World, i: nat, p: Uuid)
    requires i in w.sagas && w.sagas[i].stage.Leased? && w.sagas[i].stage.lease.total >= 0 && p !in w.db.payments
    requires !PaymentKeyTaken(w.db.payments, PaymentKey(w.sagas[i].key))
    ensures var w' := Exec(w, Declining(i, p));
            && w'.sagas == w.sagas[i := w.sagas[i].(stage := TurnedDown(w.sagas[i].stage.lease, p))]
            && w'.db == w.db.(payments := w'.db.payments) && w'.db.payments.Keys == w.db.payments.Keys + {p}
            && w'.clock == w.clock
  {
    hide Next, Exec;
    PaymentRuns(w, i, p, Answer.Declined("no"));
  }

  // ---------- the lease runs out ----------

  /** A sweep marks the hold before it has freed the seat. */
  function Lapse(): seq<Step> {
    [Tick(HOLD_TTL), ReapHolds(HOLD_TTL)]
  }

  ghost predicate Swept(w: World, w': World, h: Uuid) {
    && w'.sagas == w.sagas && w'.db == w.db.(holds := w'.db.holds) && StatusIs(w', h, Expired)
  }

  lemma LapseMarks(w: World, h: Uuid, u: string)
    requires w.clock == 0 && h in w.db.holds && w.db.holds[h] == HoldOf(u)
    ensures Swept(w, Exec(w, Lapse()), h)
  {
    assert h in LapsedHolds(w.db.holds, HOLD_TTL);
    ExecTwo(w, Tick(HOLD_TTL), ReapHolds(HOLD_TTL));
  }

  lemma ConvertsHold(w: World, i: nat, b: Uuid)
    requires i in w.sagas && w.sagas[i].stage.Paid? && b !in w.db.bookings
    requires !P.BookingKeyTaken(w.db.bookings, w.sagas[i].userId, w.sagas[i].key)
    requires |P.Convertible(w.db.tickets, w.sagas[i].stage.lease)| == |w.sagas[i].stage.lease.ticketIds|
    ensures var lease, db' := w.sagas[i].stage.lease, Next(w, Convert(i, b)).db;
            && db'.tickets == SoldUnder(w.db.tickets, P.Convertible(w.db.tickets, lease), b)
            && db'.holds == WithStatus(w.db.holds, lease.holdId, Converted)
            && db'.payments == w.db.payments
            && Next(w, Convert(i, b)).sagas == w.sagas[i := w.sagas[i].(stage := Done)]
            && db'.bookings
               == w.db.bookings[b := P.NewBooking(w.sagas[i].userId, lease, w.sagas[i].stage.paymentId, w.sagas[i].key,
                                                  Confirmed, "")]
  {
  }

  lemma DeclinesHold(w: World, i: nat, b: Uuid)
    requires i in w.sagas && w.sagas[i].stage.TurnedDown? && b !in w.db.bookings
    requires w.sagas[i].stage.paymentId in w.db.payments
    requires !P.BookingKeyTaken(w.db.bookings, w.sagas[i].userId, w.sagas[i].key)
    ensures var h, db' := w.sagas[i].stage.lease.holdId, Next(w, Decline(i, b)).db;
            && db'.tickets == Freed(w.db.tickets, HeldBy(w.db.tickets, h))
            && db'.holds == WithStatus(w.db.holds, h, Released)
  {
  }

  // ---------- EXPIRED to CONVERTED ----------

  function Expiring(h: Uuid, u: string, key: string): seq<Step> {
    Opening(1, h, u, key) + Pay() + Lapse()
  }

  /** The seat is still held when the conversion looks for it, and it is sold. */
  lemma ExpiredThenConverted(h: Uuid, u: string, key: string)
    requires key != ""
    ensures var w := Exec(Start(), Expiring(h, u, key)); var w' := Next(w, Convert(1, 101));
            && Initial(Start()) && StatusIs(w, h, Expired) && StatusIs(w', h, Converted)
            && 1 in w'.db.tickets && w'.db.tickets[1].bookingId == Some(101)
  {
    hide Next, Exec;
    var w := Exec(Exec(Start(), Opening(1, h, u, key)), Pay());
    FirstLeases(h, u, key);
    PayOne(Exec(Start(), Opening(1, h, u, key)), h, u, key);
    LapseMarks(w, h, u);
    LateConversion(Exec(w, Lapse()), h, u, key);
    ExecAppend(Start(), Opening(1, h, u, key), Pay());
    ExecAppend(Start(), Opening(1, h, u, key) + Pay(), Lapse());
  }

  lemma LateConversion(w: World, h: Uuid, u: string, key: string)
    requires 1 in w.sagas && w.sagas[1] == Saga(u, h, "token", key, Paid(LeaseOn(1, h), 10)) && w.db.bookings == map[]
    requires w.db.tickets == map[1 := SeatUnder(1, h), 2 := Seat(2)] && h in w.db.holds
    ensures var w' := Next(w, Convert(1, 101));
            StatusIs(w', h, Converted) && 1 in w'.db.tickets && w'.db.tickets[1].bookingId == Some(101)
  {
    hide Next;
    assert P.Convertible(w.db.tickets, LeaseOn(1, h)) == {1};
    ConvertsHold(w, 1, 101);
  }

  // ---------- EXPIRED to RELEASED ----------

  function Refusing(h: Uuid, u: string, key: string): seq<Step> {
    Opening(1, h, u, key) + Declining(1, 10) + Lapse()
  }

  lemma ExpiredThenReleased(h: Uuid, u: string, key: string)
    requires key != ""
    ensures var w := Exec(Start(), Refusing(h, u, key)); var w' := Next(w, Decline(1, 101));
            && Initial(Start()) && StatusIs(w, h, Expired) && StatusIs(w', h, Released)
  {
    hide Next, Exec;
    var w0 := Exec(Start(), Opening(1, h, u, key));
    var w := Exec(w0, Declining(1, 10));
    FirstLeases(h, u, key);
    DeclineOne(w0, 1, 10);
    LapseMarks(w, h, u);
    DeclinesHold(Exec(w, Lapse()), 1, 101);
    ExecAppend(Start(), Opening(1, h, u, key), Declining(1, 10));
    ExecAppend(Start(), Opening(1, h, u, key) + Declining(1, 10), Lapse());
  }

  // ---------- CONVERTED to RELEASED ----------

  /** A second purchase of the same hold under another key. */
  function Joining(h: Uuid, u: string, key: string): seq<Step> {
    [Begin(2, u, h, "token", key), Prepare(2, 0)]
  }

  lemma PrepareAgain(w: World, h: Uuid, u: string, key: string)
    requires 2 in w.sagas && w.sagas[2] == Saga(u, h, "token", key, Looked) && w.clock == 0
    requires w.db.holds == map[h := HoldOf(u)] && 1 in w.db.prices && w.db.prices[1] == PRICE
    requires HeldBy(w.db.tickets, h) == {1}
    ensures Next(w, Prepare(2, 0)) == At(w, 2, Leased(LeaseOn(1, h)))
  {
    OneSeat(w.db.prices, 1);
    assert P.PrepareTx(w.db, u, h, "token", 0) == (w.db, Ok(LeaseOn(1, h)));
  }

  ghost predicate BothLeased(w: World, h: Uuid, u: string, k1: string, k2: string) {
    && w.sagas == map[1 := Saga(u, h, "token", k1, Leased(LeaseOn(1, h))),
                      2 := Saga(u, h, "token", k2, Leased(LeaseOn(1, h)))]
    && w.db.payments == map[] && w.db.bookings == map[] && w.db.holds == map[h := HoldOf(u)]
    && w.db.tickets == map[1 := SeatUnder(1, h), 2 := Seat(2)]
  }

  lemma SecondJoins(w: World, h: Uuid, u: string, k1: string, k2: string)
    requires OneLeased(w, h, u, k1) && k2 != "" && k1 != k2
    ensures BothLeased(Exec(w, Joining(h, u, k2)), h, u, k1, k2)
  {
    hide Next, Exec;
    var w1 := Next(w, Begin(2, u, h, "token", k2));
    BeginOne(w, 2, h, u, k2);
    assert HeldBy(w1.db.tickets, h) == {1};
    PrepareAgain(w1, h, u, k2);
    ExecTwo(w, Begin(2, u, h, "token", k2), Prepare(2, 0));
  }

  ghost predicate OnePaidOneDeclined(w: World, h: Uuid, u: string, k1: string, k2: string) {
    && w.sagas == map[1 := Saga(u, h, "token", k1, Paid(LeaseOn(1, h), 10)),
                      2 := Saga(u, h, "token", k2, TurnedDown(LeaseOn(1, h), 20))]
    && w.db.payments.Keys == {10, 20} && w.db.bookings == map[] && w.db.holds == map[h := HoldOf(u)]
    && w.db.tickets == map[1 := SeatUnder(1, h), 2 := Seat(2)]
  }

  lemma PayBoth(w: World, h: Uuid, u: string, k1: string, k2: string)
    requires BothLeased(w, h, u, k1, k2) && k1 != k2
    ensures OnePaidOneDeclined(Exec(Exec(w, Pay()), Declining(2, 20)), h, u, k1, k2)
  {
    hide Next, Exec;
    PayOne(w, h, u, k1);
    var w1 := Exec(w, Pay());
    if PaymentKey(k1) == PaymentKey(k2) {
      Money.PaymentKeyInjective(k1, k2);
    }
    assert !PaymentKeyTaken(w1.db.payments, PaymentKey(k2));
    DeclineOne(w1, 2, 20);
  }

  ghost predicate SoldWhileDeclined(w: World, h: Uuid, u: string, k1: string, k2: string) {
    && 2 in w.sagas && w.sagas[2] == Saga(u, h, "token", k2, TurnedDown(LeaseOn(1, h), 20)) && 20 in w.db.payments
    && w.db.bookings.Keys == {101} && w.db.bookings[101].userId == u && w.db.bookings[101].key == k1
    && w.db.holds == map[h := HoldOf(u).(status := Converted)]
    && w.db.tickets == map[1 := Ticket(1, 1, Sold, None, None, Some(101)), 2 := Seat(2)]
  }

  lemma SeatSells(tickets: map<int, Ticket>, h: Uuid)
    requires tickets == map[1 := SeatUnder(1, h), 2 := Seat(2)]
    ensures P.Convertible(tickets, LeaseOn(1, h)) == {1}
    ensures SoldUnder(tickets, {1}, 101) == map[1 := Ticket(1, 1, Sold, None, None, Some(101)), 2 := Seat(2)]
  {
  }

  lemma ConvertFirst(w: World, h: Uuid, u: string, k1: string, k2: string)
    requires OnePaidOneDeclined(w, h, u, k1, k2)
    ensures SoldWhileDeclined(Next(w, Convert(1, 101)), h, u, k1, k2)
  {
    hide Next;
    SeatSells(w.db.tickets, h);
    ConvertsHold(w, 1, 101);
    hide SoldUnder, P.Convertible;
  }

  lemma DeclineSecond(w: World, h: Uuid, u: string, k1: string, k2: string)
    requires SoldWhileDeclined(w, h, u, k1, k2) && k1 != k2
    ensures var w' := Next(w, Decline(2, 102)); StatusIs(w', h, Released) && w'.db.tickets == w.db.tickets
  {
    hide Next;
    assert !P.BookingKeyTaken(w.db.bookings, u, k2);
    DeclinesHold(w, 2, 102);
    assert HeldBy(w.db.tickets, h) == {};
    assert Freed(w.db.tickets, {}) == w.db.tickets;
  }

  function Overtaken(h: Uuid, u: string, k1: string, k2: string): seq<Step> {
    Opening(1, h, u, k1) + Joining(h, u, k2) + Pay() + Declining(2, 20) + [Convert(1, 101)]
  }

  /** The hold of a sold seat ends RELEASED; the seat itself stays sold. */
  lemma ConvertedThenReleased(h: Uuid, u: string, k1: string, k2: string)
    requires k1 != "" && k2 != "" && k1 != k2
    ensures var w := Exec(Start(), Overtaken(h, u, k1, k2)); var w' := Next(w, Decline(2, 102));
            && Initial(Start()) && StatusIs(w, h, Converted) && StatusIs(w', h, Released)
            && w'.db.tickets == w.db.tickets && 1 in w'.db.tickets && w'.db.tickets[1].bookingId == Some(101)
  {
    hide Next, Exec;
    var a, b := Opening(1, h, u, k1), Joining(h, u, k2);
    var w := Exec(Exec(Exec(Exec(Start(), a), b), Pay()), Declining(2, 20));
    PaidAndDeclined(h, u, k1, k2);
    ConvertFirst(w, h, u, k1, k2);
    DeclineSecond(Next(w, Convert(1, 101)), h, u, k1, k2);
    ExecAppend(Start(), a, b);
    ExecAppend(Start(), a + b, Pay());
    ExecAppend(Start(), a + b + Pay(), Declining(2, 20));
    ExecOne(Start(), a + b + Pay() + Declining(2, 20), Convert(1, 101));
  }

  lemma PaidAndDeclined(h: Uuid, u: string, k1: string, k2: string)
    requires k1 != "" && k2 != "" && k1 != k2
    ensures OnePaidOneDeclined(
              Exec(Exec(Exec(Exec(Start(), Opening(1, h, u, k1)), Joining(h, u, k2)), Pay()), Declining(2, 20)),
              h, u, k1, k2)
  {
    hide Next, Exec;
    var w := Exec(Start(), Opening(1, h, u, k1));
    FirstLeases(h, u, k1);
    SecondJoins(w, h, u, k1, k2);
    PayBoth(Exec(w, Joining(h, u, k2)), h, u, k1, k2);
  }
}
