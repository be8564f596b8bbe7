/**
 Checking for a refund and stamping it are separate statements (payments/payments.go:218-246), so two purchases that owe
 the refund of one charge can both make it. They exist only when two users share a key: for any two, this is the run.
 */
module SharedRefund {
  import opened Common
  import opened Tables
  import opened Protocol
  import opened Refunds
  import opened SharedKey
  import P = Purchases

  /** The paid seat is released, so converting it fails and the refund is owed. */
  function Losing(n: nat, u: string, b: Uuid): seq<Step> {
    [Release(u, n), Convert(n, b), Owe(n, b)]
  }

  function DebtTo(n: nat, u: string, key: string): Booking {
    Booking(1, n, u, Compensating, PRICE, 10, key, "seats_lost_after_charge")
  }

  /** User u's purchase n has paid for seat n, held by nothing else. */
  ghost predicate PaidFor(w: World, n: nat, u: string, key: string) {
    && n in w.sagas && w.sagas[n] == Saga(u, n, "token", key, Paid(LeaseOn(n, n), 10))
    && n in w.db.holds && w.db.holds[n] == HoldOf(u) && HeldBy(w.db.tickets, n) == {n}
    && !P.BookingKeyTaken(w.db.bookings, u, key)
  }

  ghost predicate Lost(w: World, w': World, n: nat, u: string, key: string, b: Uuid) {
    && w'.db.bookings == w.db.bookings[b := DebtTo(n, u, key)] && w'.db.payments == w.db.payments
    && n in w.sagas && w'.sagas == w.sagas[n := w.sagas[n].(stage := Owing(LeaseOn(n, n), 10, b))]
    && w'.db.tickets == Freed(w.db.tickets, {n}) && w'.db.prices == w.db.prices
    && w'.db.holds.Keys == w.db.holds.Keys && w'.clock == w.clock
  }

  lemma ReleasedIsGone(w: World, n: nat, u: string, key: string, b: Uuid)
    requires PaidFor(w, n, u, key) && b !in w.db.bookings
    ensures var w1 := Next(w, Release(u, n));
            && w1 == w.(db := w.db.(tickets := Freed(w.db.tickets, {n}), holds := w1.db.holds))
            && w1.db.holds.Keys == w.db.holds.Keys
            && Next(w1, Convert(n, b)) == At(w1, n, SeatsLost(LeaseOn(n, n), 10))
  {
    var w1 := Next(w, Release(u, n));
    assert P.Convertible(w1.db.tickets, LeaseOn(n, n)) == {};
    assert P.ConvertTx(w1.db, u, LeaseOn(n, n), 10, key, b) == (w1.db, P.SeatsGone);
  }

  lemma OwedIsBooked(w: World, i: nat, b: Uuid)
    requires i in w.sagas && w.sagas[i].stage.SeatsLost? && b !in w.db.bookings
    requires !P.BookingKeyTaken(w.db.bookings, w.sagas[i].userId, w.sagas[i].key)
    ensures var s, lease, p := w.sagas[i], w.sagas[i].stage.lease, w.sagas[i].stage.paymentId;
            var debt := P.NewBooking(s.userId, lease, p, s.key, Compensating, "seats_lost_after_charge");
            Next(w, Owe(i, b)) == At(w.(db := w.db.(bookings := w.db.bookings[b := debt])), i, Owing(lease, p, b))
  {
  }

  lemma LoseOne(w: World, n: nat, u: string, key: string, b: Uuid)
    requires PaidFor(w, n, u, key) && b !in w.db.bookings
    ensures Lost(w, Exec(w, Losing(n, u, b)), n, u, key, b)
  {
    hide Next, Exec;
    var w1 := Next(w, Release(u, n));
    ReleasedIsGone(w, n, u, key, b);
    OwedIsBooked(Next(w1, Convert(n, b)), n, b);
    ExecThree(w, Release(u, n), Convert(n, b), Owe(n, b));
  }

  // ---------- the run ----------

  function FirstPart(u: string, key: string): seq<Step> {
    Opening(1, 1, u, key) + Pay() + Losing(1, u, 101)
  }

  function SecondPart(u: string, key: string): seq<Step> {
    Opening(2, 2, u, key) + [OpenPayment(2, 20)] + Losing(2, u, 102)
  }

  function BothRefund(): seq<Step> {
    [CallRefund(1, true), CallRefund(2, true)]
  }

  ghost predicate FirstOwes(w: World, u: string, key: string) {
    && w.db.bookings == map[101 := DebtTo(1, u, key)] && w.db.payments == map[10 := FirstPayment(u, key)]
    && w.sagas.Keys == {1} && w.sagas[1].stage == Owing(LeaseOn(1, 1), 10, 101)
    && 2 in w.db.tickets && w.db.tickets[2] == Seat(2) && w.db.prices == Start().db.prices
    && w.db.holds.Keys == {1} && w.clock == 0
    && forall t :: t in w.db.tickets ==> w.db.tickets[t].holdId == None
  }

  ghost predicate FirstPaid(w: World, u: string, key: string) {
    && PaidFor(w, 1, u, key) && w.db.bookings == map[] && w.db.payments == map[10 := FirstPayment(u, key)]
    && w.sagas.Keys == {1} && w.db.holds.Keys == {1} && w.clock == 0 && w.db.prices == Start().db.prices
    && w.db.tickets == map[1 := SeatUnder(1, 1), 2 := Seat(2)]
  }

  lemma FirstPays(u: string, key: string)
    requires key != ""
    ensures FirstPaid(Exec(Exec(Start(), Opening(1, 1, u, key)), Pay()), u, key)
  {
    hide Next, Exec;
    var w0 := Start();
    OpenOne(w0, 1, 1, u, key);
    var w1 := Exec(w0, Opening(1, 1, u, key));
    PayOne(w1, 1, u, key);
    assert w1.db.tickets == map[1 := SeatUnder(1, 1), 2 := Seat(2)];
    OneHeld(w0.db.tickets, 1, 1);
  }

  lemma LostIsOwed(w: World, w': World, u: string, key: string)
    requires FirstPaid(w, u, key) && Lost(w, w', 1, u, key, 101)
    ensures FirstOwes(w', u, key)
  {
  }

  lemma FirstLoses(u: string, key: string)
    requires key != ""
    ensures FirstOwes(Exec(Start(), FirstPart(u, key)), u, key)
  {
    hide Next, Exec;
    var w0, opening := Start(), Opening(1, 1, u, key);
    var w2 := Exec(Exec(w0, opening), Pay());
    FirstPays(u, key);
    LoseOne(w2, 1, u, key, 101);
    LostIsOwed(w2, Exec(w2, Losing(1, u, 101)), u, key);
    ExecAppend(w0, opening, Pay());
    ExecAppend(w0, opening + Pay(), Losing(1, u, 101));
  }

  /** Two purchases owe the refund of the one charge, which is not stamped. */
  ghost predicate BothOwe(w: World, payer: string, key: string) {
    && w.db.payments == map[10 := FirstPayment(payer, key)]
    && 1 in w.sagas && w.sagas[1].stage == Owing(LeaseOn(1, 1), 10, 101)
    && 2 in w.sagas && w.sagas[2].stage == Owing(LeaseOn(2, 2), 10, 102)
  }

  lemma SecondLoses(w: World, payer: string, u: string, key: string)
    requires FirstOwes(w, payer, key) && u != payer && key != ""
    ensures BothOwe(Exec(w, SecondPart(u, key)), payer, key)
  {
    hide Next, Exec;
    OpenOne(w, 2, 2, u, key);
    var w1 := Exec(w, Opening(2, 2, u, key));
    ReplayOne(w1, payer, u, key);
    var w2 := Next(w1, OpenPayment(2, 20));
    forall t ensures t in HeldBy(w2.db.tickets, 2) <==> t == 2 {
    }
    LoseOne(w2, 2, u, key, 102);
    ExecOne(w, Opening(2, 2, u, key), OpenPayment(2, 20));
    ExecAppend(w, Opening(2, 2, u, key) + [OpenPayment(2, 20)], Losing(2, u, 102));
  }

  lemma BothAreMade(w: World, payer: string, key: string)
    requires BothOwe(w, payer, key)
    ensures RefundCalls(w, BothRefund(), 10) == 2
    ensures Exec(w, BothRefund()).refunds == w.refunds + ["ch_1", "ch_1"]
  {
    var a, b := CallRefund(1, true), CallRefund(2, true);
    var w1 := Next(w, a);
    assert RefundsNow(w, a, 10) && w1.sagas[2] == w.sagas[2] && w1.db == w.db;
    assert RefundsNow(w1, b, 10);
    assert [a, b][1..] == [b] && [b][1..] == [];
    ExecTwo(w, a, b);
  }

  lemma {:induction false} RefundCallsAppend(w: World, a: seq<Step>, b: seq<Step>, p: Uuid)
    ensures RefundCalls(w, a + b, p) == RefundCalls(w, a, p) + RefundCalls(Exec(w, a), b, p)
    decreases |a|
  {
    if a == [] {
      assert a + b == b;
    } else {
      assert (a + b)[1..] == a[1..] + b;
      RefundCallsAppend(Next(w, a[0]), a[1..], b, p);
    }
  }

  function RefundRun(u1: string, u2: string, key: string): seq<Step> {
    FirstPart(u1, key) + SecondPart(u2, key) + BothRefund()
  }

  /** For any two users and any key: a run from a fresh inventory that refunds one charge twice. */
  lemma SharedKeyRefundsTwice(u1: string, u2: string, key: string)
    requires u1 != u2 && key != ""
    ensures Initial(Start()) && RefundCalls(Start(), RefundRun(u1, u2, key), 10) >= 2
  {
    hide Next, Exec;
    var a, b := FirstPart(u1, key), SecondPart(u2, key);
    FirstLoses(u1, key);
    SecondLoses(Exec(Start(), a), u1, u2, key);
    ExecAppend(Start(), a, b);
    BothAreMade(Exec(Start(), a + b), u1, key);
    RefundCallsAppend(Start(), a + b, BothRefund(), 10);
  }

  // ---------- exactly when ----------

  ghost predicate RefundsOnceFor(clients: set<(string, string)>) {
    forall w0, steps, p :: Initial(w0) && BegunBy(steps, clients) ==> RefundCalls(w0, steps, p) <= 1
  }

  lemma RunIsTheirs(u1: string, u2: string, key: string, clients: set<(string, string)>)
    requires (u1, key) in clients && (u2, key) in clients
    ensures BegunBy(RefundRun(u1, u2, key), clients)
  {
  }

  /** In every run of these clients each charge is refunded at most once exactly if no two of the users share a key. */
  lemma RefundedOnceIff(clients: set<(string, string)>)
    ensures RefundsOnceFor(clients) <==> KeysApart(clients)
  {
    hide Next, Exec;
    if KeysApart(clients) {
      forall w0, steps, p | Initial(w0) && BegunBy(steps, clients)
        ensures RefundCalls(w0, steps, p) <= 1
      {
        ApartClientsShareNoKey(w0, steps, clients);
        RefundedAtMostOnce(w0, steps, p);
      }
    } else {
      var a, c :| a in clients && c in clients && a.1 == c.1 && a.1 != "" && a.0 != c.0;
      SharedKeyRefundsTwice(a.0, c.0, a.1);
      RunIsTheirs(a.0, c.0, a.1, clients);
    }
  }
}
