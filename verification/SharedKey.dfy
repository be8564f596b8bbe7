/**
 The payment key does not name the user (booking/purchase.go:97) while bookings are unique per user and key, so one
 charge is one booking only when no two users share a key. For any two users and any key, this is the run that fails.
 */
module SharedKey {
  import opened Common
  import opened Tables
  import opened Charges
  import opened Protocol
  import C = Claims
  import P = Purchases
  import F = Frames
  import Sales
  import Settlement

  const PRICE: nat := 5000

  function Seat(n: int): Ticket {
    Ticket(1, n, Available, None, None, None)
  }

  function Start(): World {
    World(0,
          DB(map[1 := Event(OnSale, 0)], map[1 := PRICE, 2 := PRICE], map[1 := Seat(1), 2 := Seat(2)],
             map[], map[], [], map[]),
          map[], [], [])
  }

  function SeatUnder(n: int, h: Uuid): Ticket {
    Ticket(1, n, Held, Some(h), Some(HOLD_TTL), None)
  }

  /** User `u` claims seat `n` under hold `h` and asks to buy it as purchase `n`. */
  function Opening(n: nat, h: Uuid, u: string, key: string): seq<Step> {
    [Claim(C.ClaimArgs(u, 1, {n}, None, 0, h, "token")), Begin(n, u, h, "token", key), Prepare(n, 0)]
  }

  function LeaseOn(n: nat, h: Uuid): P.Lease {
    P.Lease(h, 1, [n], PRICE, HOLD_TTL)
  }

  function HoldOf(u: string): Hold {
    Hold(1, u, "token", Active, HOLD_TTL, None)
  }

  predicate Fresh(w: World, n: nat, h: Uuid, u: string, key: string) {
    && n in w.db.tickets && w.db.tickets[n] == Seat(n) && n in w.db.prices && w.db.prices[n] == PRICE
    && h !in w.db.holds && n !in w.sagas && w.clock == 0
    && key != "" && !P.BookingKeyTaken(w.db.bookings, u, key)
  }

  /** The seat after the claim, and the purchase once prepared. */
  ghost predicate Opened(w: World, w': World, n: nat, h: Uuid, u: string, key: string) {
    && w'.db == w.db.(tickets := w.db.tickets[n := SeatUnder(n, h)],
                      holds := w.db.holds[h := HoldOf(u)])
    && w'.sagas == w.sagas[n := Saga(u, h, "token", key, Leased(LeaseOn(n, h)))]
    && w'.clock == w.clock && w'.charges == w.charges && w'.refunds == w.refunds
  }

  lemma ClaimOne(w: World, n: nat, h: Uuid, u: string, key: string)
    requires Fresh(w, n, h, u, key)
    ensures var w1 := Next(w, Opening(n, h, u, key)[0]);
            w1 == w.(db := w.db.(tickets := w.db.tickets[n := SeatUnder(n, h)],
                                 holds := w.db.holds[h := HoldOf(u)]))
  {
    var a := C.ClaimArgs(u, 1, {n}, None, 0, h, "token");
    assert C.Unclaimable(w.db, a) == {};
    assert C.DisplacedBy(w.db, a) == {};
    var db := C.ClaimTx(w.db, a).0;
    assert db.tickets == w.db.tickets[n := SeatUnder(n, h)];
    assert db.holds == w.db.holds[h := HoldOf(u)];
  }

  lemma OneSeat(prices: map<int, nat>, n: nat)
    requires n in prices && prices[n] == PRICE
    ensures InOrder({n}) == [n] && Total(prices, [n]) == PRICE
  {
    AscendingIsInOrder([n]);
    assert Elems([n]) == {n};
    assert [n][..0] == [];
  }

  lemma PrepareOne(w: World, n: nat, h: Uuid, u: string, key: string)
    requires n in w.sagas && w.sagas[n] == Saga(u, h, "token", key, Looked) && w.clock == 0
    requires h in w.db.holds && w.db.holds[h] == HoldOf(u) && n in w.db.prices && w.db.prices[n] == PRICE
    requires HeldBy(w.db.tickets, h) == {n}
    ensures Next(w, Prepare(n, 0)) == At(w, n, Leased(LeaseOn(n, h)))
  {
    OneSeat(w.db.prices, n);
    var (db, r) := P.PrepareTx(w.db, u, h, "token", 0);
    assert r == Ok(LeaseOn(n, h)) && db == w.db;
  }

  lemma ExecTwo(w: World, a: Step, b: Step)
    ensures Exec(w, [a, b]) == Next(Next(w, a), b)
  {
    ExecOne(w, [a], b);
    assert [a][1..] == [];
    assert [a] + [b] == [a, b];
  }

  lemma ExecThree(w: World, a: Step, b: Step, c: Step)
    ensures Exec(w, [a, b, c]) == Next(Next(Next(w, a), b), c)
  {
    hide Next;
    ExecTwo(w, a, b);
    ExecOne(w, [a, b], c);
    assert [a, b] + [c] == [a, b, c];
  }

  lemma BeginOne(w: World, n: nat, h: Uuid, u: string, key: string)
    requires n !in w.sagas && key != "" && !P.BookingKeyTaken(w.db.bookings, u, key)
    ensures Next(w, Begin(n, u, h, "token", key))
            == w.(sagas := w.sagas[n := Saga(u, h, "token", key, Looked)])
  {
  }

  lemma OneHeld(tickets: map<int, Ticket>, n: int, h: Uuid)
    requires forall t :: t in tickets ==> tickets[t].holdId != Some(h)
    ensures HeldBy(tickets[n := SeatUnder(n, h)], h) == {n}
  {
    var tickets' := tickets[n := SeatUnder(n, h)];
    forall t
      ensures t in HeldBy(tickets', h) <==> t == n
    {
      assert t in tickets' && t != n ==> tickets'[t] == tickets[t];
    }
  }

  lemma OpenOne(w: World, n: nat, h: Uuid, u: string, key: string)
    requires Fresh(w, n, h, u, key)
    requires forall t :: t in w.db.tickets ==> w.db.tickets[t].holdId != Some(h)
    ensures Opened(w, Exec(w, Opening(n, h, u, key)), n, h, u, key)
  {
    var steps := Opening(n, h, u, key);
    hide Next, Exec, P.BookingKeyTaken;
    ClaimOne(w, n, h, u, key);
    var w1 := Next(w, steps[0]);
    var w2 := Next(w1, steps[1]);
    BeginOne(w1, n, h, u, key);
    OneHeld(w.db.tickets, n, h);
    hide HeldBy;
    PrepareOne(w2, n, h, u, key);
    ExecThree(w, steps[0], steps[1], steps[2]);
    assert steps == [steps[0], steps[1], steps[2]];
  }

  // ---------- one payment, step by step ----------

  lemma PaymentOpens(w: World, i: nat, p: Uuid)
    requires i in w.sagas && w.sagas[i].stage.Leased? && w.sagas[i].stage.lease.total >= 0 && p !in w.db.payments
    requires !PaymentKeyTaken(w.db.payments, PaymentKey(w.sagas[i].key))
    ensures var s, lease := w.sagas[i], w.sagas[i].stage.lease;
            Next(w, OpenPayment(i, p))
            == At(w.(db := InsertPayment(w.db, p, PaymentKey(s.key), s.userId, lease.total)), i, Charging(lease, p))
  {
  }

  lemma ProviderAnswers(w: World, i: nat, answer: Answer)
    requires i in w.sagas && w.sagas[i].stage.Charging? && !answer.TransportError?
    ensures Next(w, CallProvider(i, answer))
            == At(w.(charges := w.charges + [PaymentKey(w.sagas[i].key)]), i,
                  Answered(w.sagas[i].stage.lease, w.sagas[i].stage.paymentId, answer))
  {
  }

  lemma AnswerRecorded(w: World, i: nat)
    requires i in w.sagas && w.sagas[i].stage.Answered? && Recordable(w.sagas[i].stage.answer)
    requires w.sagas[i].stage.paymentId in w.db.payments
    ensures var Answered(lease, p, answer) := w.sagas[i].stage;
            Next(w, RecordPayment(i))
            == At(w.(db := RecordAnswer(w.db, p, answer)), i,
                  if answer.Approved? then Paid(lease, p) else TurnedDown(lease, p))
  {
  }

  /** The three steps of a payment under a key not seen before. */
  lemma PaymentRuns(w: World, i: nat, p: Uuid, answer: Answer)
    requires i in w.sagas && w.sagas[i].stage.Leased? && w.sagas[i].stage.lease.total >= 0
    requires p !in w.db.payments && Recordable(answer)
    requires !PaymentKeyTaken(w.db.payments, PaymentKey(w.sagas[i].key))
    ensures var s, lease := w.sagas[i], w.sagas[i].stage.lease;
            var inserted := InsertPayment(w.db, p, PaymentKey(s.key), s.userId, lease.total);
            Exec(w, [OpenPayment(i, p), CallProvider(i, answer), RecordPayment(i)])
            == At(w.(db := RecordAnswer(inserted, p, answer), charges := w.charges + [PaymentKey(s.key)]), i,
                  if answer.Approved? then Paid(lease, p) else TurnedDown(lease, p))
  {
    hide Next, RecordAnswer;
    var w1 := Next(w, OpenPayment(i, p));
    PaymentOpens(w, i, p);
    var w2 := Next(w1, CallProvider(i, answer));
    ProviderAnswers(w1, i, answer);
    AnswerRecorded(w2, i);
    ExecThree(w, OpenPayment(i, p), CallProvider(i, answer), RecordPayment(i));
  }

  // ---------- the first user pays, the second is handed the same payment ----------

  function FirstPayment(u: string, key: string): Payment {
    Payment(PaymentKey(key), u, PRICE, Completed, Some("ch_1"), "", None)
  }

  function SaleOf(n: nat, u: string, key: string): Booking {
    Booking(1, n, u, Confirmed, PRICE, 10, key, "")
  }

  lemma PayOne(w: World, h: Uuid, u: string, key: string)
    requires 1 in w.sagas && w.sagas[1] == Saga(u, h, "token", key, Leased(LeaseOn(1, h)))
    requires w.db.payments == map[]
    ensures Exec(w, [OpenPayment(1, 10), CallProvider(1, Approved("ch_1")), RecordPayment(1)])
            == At(w.(db := w.db.(payments := map[10 := FirstPayment(u, key)]),
                     charges := w.charges + [PaymentKey(key)]), 1, Paid(LeaseOn(1, h), 10))
  {
    hide Next, Exec;
    assert !PaymentKeyTaken(w.db.payments, PaymentKey(key));
    PaymentRuns(w, 1, 10, Approved("ch_1"));
  }

  lemma ReplayOne(w: World, u1: string, u: string, key: string)
    requires 2 in w.sagas && w.sagas[2] == Saga(u, 2, "token", key, Leased(LeaseOn(2, 2)))
    requires w.db.payments == map[10 := FirstPayment(u1, key)]
    ensures Next(w, OpenPayment(2, 20)) == At(w, 2, Paid(LeaseOn(2, 2), 10))
  {
    assert 10 in w.db.payments && w.db.payments[10].key == PaymentKey(key);
    assert PaymentKeyTaken(w.db.payments, PaymentKey(key));
    assert PaymentOf(w.db.payments, PaymentKey(key)) == 10;
  }

  lemma SellOne(w: World, n: nat, u: string, key: string, b: Uuid)
    requires n in w.sagas && w.sagas[n] == Saga(u, n, "token", key, Paid(LeaseOn(n, n), 10))
    requires n in w.db.tickets && w.db.tickets[n] == SeatUnder(n, n)
    requires b !in w.db.bookings && !P.BookingKeyTaken(w.db.bookings, u, key)
    ensures var w' := Next(w, Convert(n, b));
            && w'.db.bookings == w.db.bookings[b := SaleOf(n, u, key)]
            && w'.db.payments == w.db.payments && w'.charges == w.charges && w'.clock == w.clock
            && w'.db.prices == w.db.prices
            && w'.sagas == w.sagas[n := w.sagas[n].(stage := Done)]
            && w'.db.holds.Keys == w.db.holds.Keys
            && w'.db.tickets.Keys == w.db.tickets.Keys
            && w'.db.tickets[n].holdId == None
            && (forall t :: t in w.db.tickets && t != n ==> w'.db.tickets[t] == w.db.tickets[t])
  {
    assert P.Convertible(w.db.tickets, LeaseOn(n, n)) == {n};
  }

  function FailingRun(u1: string, u2: string, key: string): seq<Step> {
    Opening(1, 1, u1, key)
    + Pay()
    + [Convert(1, 101)]
    + Opening(2, 2, u2, key)
    + [OpenPayment(2, 20)]
    + [Convert(2, 102)]
  }

  /** One charge, two confirmed bookings of different seats by different users. */
  ghost predicate SoldTwice(w: World, u1: string, u2: string, key: string) {
    && w.charges == [PaymentKey(key)]
    && 10 in w.db.payments && w.db.payments[10].state == Completed && w.db.payments[10].amount == PRICE
    && 101 in w.db.bookings && w.db.bookings[101] == SaleOf(1, u1, key)
    && 102 in w.db.bookings && w.db.bookings[102] == SaleOf(2, u2, key)
  }

  function Pay(): seq<Step> {
    [OpenPayment(1, 10), CallProvider(1, Approved("ch_1")), RecordPayment(1)]
  }

  ghost function AfterFirst(u: string, key: string): World {
    Next(Exec(Exec(Start(), Opening(1, 1, u, key)), Pay()), Convert(1, 101))
  }

  lemma FirstSale(u: string, key: string)
    requires key != ""
    ensures var w := AfterFirst(u, key);
            && w.db.bookings == map[101 := SaleOf(1, u, key)]
            && w.db.payments == map[10 := FirstPayment(u, key)] && w.charges == [PaymentKey(key)]
            && w.clock == 0 && 2 in w.db.tickets && w.db.tickets[2] == Seat(2) && w.db.prices == Start().db.prices
            && 2 !in w.db.holds && 2 !in w.sagas
            && (forall t :: t in w.db.tickets ==> w.db.tickets[t].holdId == None)
  {
    var w0 := Start();
    OpenOne(w0, 1, 1, u, key);
    var w1 := Exec(w0, Opening(1, 1, u, key));
    PayOne(w1, 1, u, key);
    SellOne(Exec(w1, Pay()), 1, u, key, 101);
  }

  lemma SecondSale(w: World, u1: string, u2: string, key: string)
    requires Fresh(w, 2, 2, u2, key) && w.db.payments == map[10 := FirstPayment(u1, key)]
    requires forall t :: t in w.db.tickets ==> w.db.tickets[t].holdId == None
    requires 102 !in w.db.bookings
    ensures var w' := Next(Next(Exec(w, Opening(2, 2, u2, key)), OpenPayment(2, 20)), Convert(2, 102));
            && w'.charges == w.charges && w'.db.payments == w.db.payments
            && w'.db.bookings == w.db.bookings[102 := SaleOf(2, u2, key)]
  {
    OpenOne(w, 2, 2, u2, key);
    var w1 := Exec(w, Opening(2, 2, u2, key));
    ReplayOne(w1, u1, u2, key);
    SellOne(Next(w1, OpenPayment(2, 20)), 2, u2, key, 102);
  }

  /** For any two users and any key: a run that starts from a fresh inventory and ends sold twice on one charge. */
  lemma SharedKeySellsTwice(u1: string, u2: string, key: string)
    requires u1 != u2 && key != ""
    ensures Initial(Start())
    ensures SoldTwice(Exec(Start(), FailingRun(u1, u2, key)), u1, u2, key)
  {
    hide Next, Exec;
    FirstSale(u1, key);
    SecondSale(AfterFirst(u1, key), u1, u2, key);
    Chain(Start(), u1, u2, key);
  }

  lemma Chain(w: World, u1: string, u2: string, key: string)
    ensures var w3 := Next(Exec(Exec(w, Opening(1, 1, u1, key)), Pay()), Convert(1, 101));
            Exec(w, FailingRun(u1, u2, key))
            == Next(Next(Exec(w3, Opening(2, 2, u2, key)), OpenPayment(2, 20)), Convert(2, 102))
  {
    var a := Opening(1, 1, u1, key);
    ExecAppend(w, a, Pay());
    ExecOne(w, a + Pay(), Convert(1, 101));
    var b := a + Pay() + [Convert(1, 101)];
    ExecAppend(w, b, Opening(2, 2, u2, key));
    ExecOne(w, b + Opening(2, 2, u2, key), OpenPayment(2, 20));
    ExecOne(w, b + Opening(2, 2, u2, key) + [OpenPayment(2, 20)], Convert(2, 102));
  }

  // ---------- exactly when one charge is one booking ----------

  /** Purchases are begun only under these pairs of user and key. */
  ghost predicate BegunBy(steps: seq<Step>, clients: set<(string, string)>) {
    forall k :: 0 <= k < |steps| && steps[k].Begin? ==> (steps[k].userId, steps[k].key) in clients
  }

  ghost predicate OneBookingPerCharge(bookings: map<Uuid, Booking>) {
    forall b, c :: b in bookings && c in bookings && bookings[b].paymentId == bookings[c].paymentId ==> b == c
  }

  ghost predicate SafeFor(clients: set<(string, string)>) {
    forall w0, steps :: Initial(w0) && BegunBy(steps, clients) ==> OneBookingPerCharge(Exec(w0, steps).db.bookings)
  }

  /** No key is used by two users. */
  ghost predicate KeysApart(clients: set<(string, string)>) {
    forall a, c :: a in clients && c in clients && a.1 == c.1 && a.1 != "" ==> a.0 == c.0
  }

  ghost predicate SagasOf(sagas: map<nat, Saga>, clients: set<(string, string)>) {
    forall i :: i in sagas ==> sagas[i].key != "" && (sagas[i].userId, sagas[i].key) in clients
  }

  lemma StepKeepsClients(w: World, step: Step, clients: set<(string, string)>)
    requires SagasOf(w.sagas, clients) && (step.Begin? ==> (step.userId, step.key) in clients)
    ensures SagasOf(Next(w, step).sagas, clients)
  {
    F.SagaFrame(w, step);
    hide Next;
  }

  lemma {:induction false} RunKeepsClients(w: World, steps: seq<Step>, clients: set<(string, string)>)
    requires SagasOf(w.sagas, clients) && BegunBy(steps, clients)
    ensures SagasOf(Exec(w, steps).sagas, clients)
    decreases |steps|
  {
    if steps == [] {
    } else {
      StepKeepsClients(w, steps[0], clients);
      RunKeepsClients(Next(w, steps[0]), steps[1..], clients);
    }
  }

  /** Every run of these clients books each charge once exactly if no two of the users share a key. */
  lemma OneBookingPerChargeIff(clients: set<(string, string)>)
    ensures SafeFor(clients) <==> KeysApart(clients)
  {
    hide Next, Exec;
    if KeysApart(clients) {
      forall w0, steps | Initial(w0) && BegunBy(steps, clients)
        ensures OneBookingPerCharge(Exec(w0, steps).db.bookings)
      {
        ApartIsSafe(w0, steps, clients);
      }
    } else {
      var a, c :| a in clients && c in clients && a.1 == c.1 && a.1 != "" && a.0 != c.0;
      SharedKeySellsTwice(a.0, c.0, a.1);
      var run := FailingRun(a.0, c.0, a.1);
      assert BegunBy(run, clients);
      assert !OneBookingPerCharge(Exec(Start(), run).db.bookings);
    }
  }

  lemma ApartClientsShareNoKey(w0: World, steps: seq<Step>, clients: set<(string, string)>)
    requires Initial(w0) && BegunBy(steps, clients) && KeysApart(clients)
    ensures Settlement.NoSharedKeys(Exec(w0, steps).sagas)
  {
    var w := Exec(w0, steps);
    RunKeepsClients(w0, steps, clients);
    forall i, j | i in w.sagas && j in w.sagas && w.sagas[i].key == w.sagas[j].key
      ensures w.sagas[i].userId == w.sagas[j].userId
    {
      var a, c := (w.sagas[i].userId, w.sagas[i].key), (w.sagas[j].userId, w.sagas[j].key);
      assert a in clients && c in clients;
    }
  }

  lemma ApartIsSafe(w0: World, steps: seq<Step>, clients: set<(string, string)>)
    requires Initial(w0) && BegunBy(steps, clients) && KeysApart(clients)
    ensures OneBookingPerCharge(Exec(w0, steps).db.bookings)
  {
    var w := Exec(w0, steps);
    Sales.Reachable(w0, steps);
    ApartClientsShareNoKey(w0, steps, clients);
    forall b, c | b in w.db.bookings && c in w.db.bookings && w.db.bookings[b].paymentId == w.db.bookings[c].paymentId
      ensures b == c
    {
      Settlement.OneBookingPerPayment(w, b, c);
    }
  }
}
