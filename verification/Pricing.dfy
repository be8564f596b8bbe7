/** What a price is the sum of (booking/purchase.go:200-215, booking/holds.go:325-346). */
module Pricing {
  import opened Common
  import opened Tables
  import P = Purchases

  /** No seats cost nothing, one seat its price, and two lists together the sum of both: only a sum does that. */
  lemma {:induction false} TotalAdds(prices: map<int, nat>, a: seq<int>, b: seq<int>)
    ensures Total(prices, []) == 0
    ensures forall t :: t in prices ==> Total(prices, [t]) == prices[t]
    ensures Total(prices, a + b) == Total(prices, a) + Total(prices, b)
    decreases |b|
  {
    forall t | t in prices
      ensures Total(prices, [t]) == prices[t]
    {
      assert [t][..0] == [];
    }
    if b == [] {
      assert a + b == a;
    } else {
      var front, last := b[..|b| - 1], b[|b| - 1];
      TotalAdds(prices, a, front);
      assert (a + b)[..|a + b| - 1] == a + front;
    }
  }

  // ---------- sets of seats ----------

  lemma InOrderAround(s: set<int>, t: int) returns (low: seq<int>, high: seq<int>)
    requires t in s
    ensures InOrder(s) == low + [t] + high && InOrder(s - {t}) == low + high
  {
    ElemsOfInOrder(s);
    low, high := Around(InOrder(s), t);
    hide InOrder, Ascending, Elems;
    AllButOne(low, t, high);
    AscendingIsInOrder(low + high);
  }

  lemma Around(r: seq<int>, t: int) returns (low: seq<int>, high: seq<int>)
    requires t in r
    ensures r == low + [t] + high
  {
    var i :| 0 <= i < |r| && r[i] == t;
    low, high := r[..i], r[i + 1..];
  }

  lemma AllButOne(low: seq<int>, t: int, high: seq<int>)
    requires Ascending(low + [t] + high)
    ensures Ascending(low + high) && Elems(low + high) == Elems(low + [t] + high) - {t}
  {
    var r, rest := low + [t] + high, low + high;
    forall i, j | 0 <= i < j < |rest|
      ensures rest[i] < rest[j]
    {
      assert rest[i] == r[if i < |low| then i else i + 1] && rest[j] == r[if j < |low| then j else j + 1];
    }
    hide Ascending;
    forall x
      ensures x in Elems(rest) <==> x in Elems(r) - {t}
    {
      InOneOf(low, t, high, x);
    }
  }

  lemma InOneOf(low: seq<int>, t: int, high: seq<int>, x: int)
    requires Ascending(low + [t] + high)
    ensures x in low + high <==> x in low + [t] + high && x != t
  {
    var r := low + [t] + high;
    assert r[|low|] == t;
    if x in low {
      var i :| 0 <= i < |low| && low[i] == x;
      assert r[i] == x;
    }
    if x in high {
      var i :| 0 <= i < |high| && high[i] == x;
      assert r[|low| + 1 + i] == x;
    }
  }

  /** One seat less costs that seat's price less. */
  lemma OneSeatLess(prices: map<int, nat>, s: set<int>, t: int)
    requires t in s && t in prices
    ensures Total(prices, InOrder(s)) == Total(prices, InOrder(s - {t})) + prices[t]
  {
    var low, high := InOrderAround(s, t);
    hide InOrder, Total;
    TotalAdds(prices, low + [t], high);
    TotalAdds(prices, low, [t]);
    TotalAdds(prices, low, high);
  }

  /** Two sets of seats without a common one cost the sum of both. */
  lemma {:induction false} ApartAdds(prices: map<int, nat>, a: set<int>, b: set<int>)
    requires a !! b && b <= prices.Keys
    ensures Total(prices, InOrder(a + b)) == Total(prices, InOrder(a)) + Total(prices, InOrder(b))
    decreases |b|
  {
    if b == {} {
      assert a + b == a;
      assert Total(prices, InOrder(b)) == 0;
    } else {
      hide InOrder, Total;
      var t := AnyMember(b);
      ApartAdds(prices, a, b - {t});
      assert a + b - {t} == a + (b - {t});
      OneSeatLess(prices, a + b, t);
      OneSeatLess(prices, b, t);
    }
  }

  lemma NoSeatsCostNothing(prices: map<int, nat>)
    ensures Total(prices, InOrder({})) == 0
  {
  }

  /** Seats of one price cost that price as many times as there are seats. */
  lemma {:induction false} EqualPrices(prices: map<int, nat>, s: set<int>, price: nat)
    requires forall t :: t in s ==> t in prices && prices[t] == price
    ensures Total(prices, InOrder(s)) == price * |s|
    decreases |s|
  {
    hide InOrder, Total;
    if s == {} {
      NoSeatsCostNothing(prices);
    } else {
      var t := AnyMember(s);
      EqualPrices(prices, s - {t}, price);
      OneSeatLess(prices, s, t);
      OneMoreTime(price, |s - {t}|, |s|);
    }
  }

  lemma OneMoreTime(price: nat, m: nat, n: nat)
    requires n == m + 1
    ensures price * n == price * m + price
  {
  }

  // ---------- the charge ----------

  lemma PreparedCost(db: DB, userId: string, h: Uuid, token: string, now: Time)
    requires P.PrepareTx(db, userId, h, token, now).1.Ok?
    ensures var lease := P.PrepareTx(db, userId, h, token, now).1.value;
            && HeldBy(db.tickets, h) != {} && lease.ticketIds == InOrder(HeldBy(db.tickets, h))
            && lease.total == Total(db.prices, InOrder(HeldBy(db.tickets, h)))
  {
    hide HeldBy, InOrder, Total, Extended;
  }

  /** Nothing but its seats can make a preparation fail that was possible with others. */
  lemma PreparableStill(db: DB, tickets: map<int, Ticket>, userId: string, h: Uuid, token: string, now: Time)
    requires P.PrepareTx(db, userId, h, token, now).1.Ok? && HeldBy(tickets, h) != {}
    ensures P.PrepareTx(db.(tickets := tickets), userId, h, token, now).1.Ok?
  {
    hide HeldBy, InOrder, Total, Extended;
  }

  /** A hold on one seat is charged that seat's price. */
  lemma OneSeatCharged(db: DB, userId: string, h: Uuid, token: string, now: Time, t: int)
    requires P.PrepareTx(db, userId, h, token, now).1.Ok? && HeldBy(db.tickets, h) == {t} && t in db.prices
    ensures P.PrepareTx(db, userId, h, token, now).1.value.total == db.prices[t]
  {
    hide P.PrepareTx, InOrder, Total;
    PreparedCost(db, userId, h, token, now);
    OneSeatLess(db.prices, {t}, t);
    assert {t} - {t} == {};
    NoSeatsCostNothing(db.prices);
  }

  lemma HeldWithout(tickets: map<int, Ticket>, t: int, h: Uuid)
    ensures HeldBy(Freed(tickets, {t}), h) == HeldBy(tickets, h) - {t}
  {
  }

  /** Had one of several seats been freed before, the charge would be for the others and lower by exactly its price. */
  lemma OneSeatFreed(db: DB, userId: string, h: Uuid, token: string, now: Time, t: int)
    requires P.PrepareTx(db, userId, h, token, now).1.Ok? && t in HeldBy(db.tickets, h) && t in db.prices
    requires HeldBy(db.tickets, h) - {t} != {}
    ensures var r := P.PrepareTx(db.(tickets := Freed(db.tickets, {t})), userId, h, token, now).1;
            var lease := P.PrepareTx(db, userId, h, token, now).1.value;
            && r.Ok? && r.value.total == lease.total - db.prices[t]
            && Elems(r.value.ticketIds) == Elems(lease.ticketIds) - {t}
  {
    hide P.PrepareTx, HeldBy, Freed, InOrder, Total;
    var held, db' := HeldBy(db.tickets, h), db.(tickets := Freed(db.tickets, {t}));
    HeldWithout(db.tickets, t, h);
    PreparableStill(db, db'.tickets, userId, h, token, now);
    PreparedCost(db, userId, h, token, now);
    PreparedCost(db', userId, h, token, now);
    OneSeatLess(db.prices, held, t);
    ElemsOfInOrder(held);
    ElemsOfInOrder(held - {t});
  }
}
