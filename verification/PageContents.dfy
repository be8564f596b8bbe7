/** What an event's page says: the tiers of the request that created it, each with the seats of its section. */
module PageContents {
  import opened Common
  import opened Text
  import opened EventLaws
  import C = Catalog
  import EP = EventPages
  import I = Inventory
  import P = Publishing
  import T = Tables

  // ---------- the seats add up ----------

  lemma {:induction false} SeatSumAdds(a: seq<C.TierPrice>, b: seq<C.TierPrice>)
    ensures C.SeatSum(a + b) == C.SeatSum(a) + C.SeatSum(b)
    decreases |b|
  {
    if b == [] {
      assert a + b == a;
    } else {
      SeatSumAdds(a, b[..|b| - 1]);
      assert (a + b)[..|a + b| - 1] == a + b[..|b| - 1];
    }
  }

  lemma OneTier(x: C.TierPrice)
    ensures C.SeatSum([x]) == x.seats
  {
    assert [x][..0] == [];
  }

  /** The tickets of the event under the tiers listed. */
  function TicketsListed(stock: I.Stock, e: int, s: set<C.TierPrice>): set<int> {
    set t, x | t in stock.tickets && t in stock.tierOf && stock.tickets[t].eventId == e
               && x in s && x.tierId == stock.tierOf[t] :: t
  }

  lemma {:induction false} ListedSum(shop: I.Shop, e: int, s: set<C.TierPrice>)
    requires s <= EP.TiersOf(shop, e)
    ensures C.SeatSum(EP.InListOrder(s)) == |TicketsListed(shop.stock, e, s)|
    decreases |s|
  {
    if s == {} {
      assert TicketsListed(shop.stock, e, s) == {};
    } else {
      var list := EP.InListOrder(s);
      var first := list[0];
      EP.ListIsOrdered(s);
      ListTail(s);
      ListedSum(shop, e, s - {first});
      SeatSumAdds([first], list[1..]);
      OneTier(first);
      assert list == [first] + list[1..];
      ListedOneMore(shop, e, s, first);
    }
  }

  lemma ListTail(s: set<C.TierPrice>)
    requires s != {}
    ensures EP.InListOrder(s)[0] in s
    ensures EP.InListOrder(s)[1..] == EP.InListOrder(s - {EP.InListOrder(s)[0]})
  {
    var m := EP.InListOrder(s)[0];
    assert EP.InListOrder(s) == [m] + EP.InListOrder(s - {m});
  }

  lemma ListedOneMore(shop: I.Shop, e: int, s: set<C.TierPrice>, x: C.TierPrice)
    requires s <= EP.TiersOf(shop, e) && x in s
    ensures |TicketsListed(shop.stock, e, s)| == x.seats + |TicketsListed(shop.stock, e, s - {x})|
  {
    var all, rest, own :=
      TicketsListed(shop.stock, e, s), TicketsListed(shop.stock, e, s - {x}), P.TicketsUnder(shop.stock, e, x.tierId);
    forall t
      ensures t in all <==> t in own + rest
      ensures !(t in own && t in rest)
    {
    }
    assert all == own + rest && own !! rest;
    assert x.seats == |own|;
  }

  // ---------- tickets and seats ----------

  /** The map takes the members of one set to those of the other, one to one. */
  ghost predicate Matches(a: set<int>, b: set<int>, f: map<int, int>) {
    && f.Keys == a
    && (forall x :: x in a ==> f[x] in b)
    && (forall y :: y in b ==> exists x :: x in a && f[x] == y)
    && (forall x, y :: x in a && y in a && f[x] == f[y] ==> x == y)
  }

  lemma {:induction false} SameSize(a: set<int>, b: set<int>, f: map<int, int>)
    requires Matches(a, b, f)
    ensures |a| == |b|
    decreases |a|
  {
    if a == {} {
      assert forall y :: y !in b;
    } else {
      var x := AnyMember(a);
      MatchesRest(a, b, f, x);
      SameSize(a - {x}, b - {f[x]}, f - {x});
    }
  }

  lemma MatchesRest(a: set<int>, b: set<int>, f: map<int, int>, x: int)
    requires Matches(a, b, f) && x in a
    ensures f[x] in b && Matches(a - {x}, b - {f[x]}, f - {x})
  {
    var rest := f - {x};
    assert rest.Keys == a - {x};
    forall y | y in b - {f[x]}
      ensures exists z :: z in a - {x} && rest[z] == y
    {
      var z :| z in a && f[z] == y;
      assert z in a - {x} && rest[z] == y;
    }
  }

  function SeatsIn(seats: map<int, I.Seat>, v: int, section: string): set<int> {
    set s | s in seats && seats[s].venueId == v && seats[s].section == section
  }

  lemma TicketPlace(shop: I.Shop, e: int, t: int)
    requires P.Inv(shop) && t in shop.stock.tickets && shop.stock.tickets[t].eventId == e
    ensures t in shop.stock.tierOf && e in shop.events && shop.stock.tickets[t].seatId in shop.seats
    ensures shop.seats[shop.stock.tickets[t].seatId].venueId == shop.events[e].venueId
    ensures shop.stock.tierOf[t] in shop.tiers && shop.tiers[shop.stock.tierOf[t]].eventId == e
    ensures shop.tiers[shop.stock.tierOf[t]].section == shop.seats[shop.stock.tickets[t].seatId].section
  {
    assert P.PlaceOk(shop, shop.stock.tickets[t], shop.stock.tierOf[t]);
  }

  lemma TicketOfSeat(shop: I.Shop, e: int, s: int) returns (t: int)
    requires P.Inv(shop) && P.Published(shop, e) && s in I.SeatsOf(shop.seats, shop.events[e].venueId)
    ensures t in shop.stock.tickets && shop.stock.tickets[t].eventId == e && shop.stock.tickets[t].seatId == s
  {
    t :| t in shop.stock.tickets && shop.stock.tickets[t].eventId == e && shop.stock.tickets[t].seatId == s;
  }

  lemma SeatsApart(shop: I.Shop, e: int, t: int, u: int)
    requires P.Inv(shop) && t in I.TicketsOf(shop.stock.tickets, e) && u in I.TicketsOf(shop.stock.tickets, e)
    requires shop.stock.tickets[t].seatId == shop.stock.tickets[u].seatId
    ensures t == u
  {
    assert P.SamePlace(shop.stock.tickets[t], shop.stock.tickets[u]);
  }

  lemma TiersApart(shop: I.Shop, p: int, q: int)
    requires P.Inv(shop) && p in shop.tiers && q in shop.tiers
    requires shop.tiers[p].eventId == shop.tiers[q].eventId && shop.tiers[p].section == shop.tiers[q].section
    ensures p == q
  {
    assert P.SameSection(shop.tiers[p], shop.tiers[q]);
  }

  /** A published event has as many tickets as its venue has seats, and under each tier as many as its section has. */
  lemma AsManyAsSeats(shop: I.Shop, e: int)
    requires P.Inv(shop) && P.Published(shop, e)
    ensures |I.TicketsOf(shop.stock.tickets, e)| == |I.SeatsOf(shop.seats, shop.events[e].venueId)|
    ensures forall p :: p in shop.tiers && shop.tiers[p].eventId == e ==>
              |P.TicketsUnder(shop.stock, e, p)|
              == |SeatsIn(shop.seats, shop.events[e].venueId, shop.tiers[p].section)|
  {
    var v, tickets := shop.events[e].venueId, shop.stock.tickets;
    var all, seats := I.TicketsOf(tickets, e), I.SeatsOf(shop.seats, v);
    TicketsMatch(shop, e, all, seats);
    forall p | p in shop.tiers && shop.tiers[p].eventId == e
      ensures |P.TicketsUnder(shop.stock, e, p)| == |SeatsIn(shop.seats, v, shop.tiers[p].section)|
    {
      UnderTierMatch(shop, e, p);
    }
  }

  lemma TicketsMatch(shop: I.Shop, e: int, all: set<int>, seats: set<int>)
    requires P.Inv(shop) && P.Published(shop, e)
    requires all == I.TicketsOf(shop.stock.tickets, e) && seats == I.SeatsOf(shop.seats, shop.events[e].venueId)
    ensures |all| == |seats|
  {
    var f := map t | t in all :: shop.stock.tickets[t].seatId;
    forall t | t in all ensures f[t] in seats {
      TicketPlace(shop, e, t);
    }
    forall s | s in seats ensures exists t :: t in all && f[t] == s {
      var t := TicketOfSeat(shop, e, s);
      assert t in all && f[t] == s;
    }
    Injective(shop, e, all, f);
    SameSize(all, seats, f);
  }

  lemma Injective(shop: I.Shop, e: int, some: set<int>, f: map<int, int>)
    requires P.Inv(shop) && some <= I.TicketsOf(shop.stock.tickets, e)
    requires f == map t | t in some :: shop.stock.tickets[t].seatId
    ensures forall t, u :: t in some && u in some && f[t] == f[u] ==> t == u
  {
    forall t, u | t in some && u in some && f[t] == f[u]
      ensures t == u
    {
      SeatsApart(shop, e, t, u);
    }
  }

  lemma UnderTierMatch(shop: I.Shop, e: int, p: int)
    requires P.Inv(shop) && P.Published(shop, e) && p in shop.tiers && shop.tiers[p].eventId == e
    ensures |P.TicketsUnder(shop.stock, e, p)|
            == |SeatsIn(shop.seats, shop.events[e].venueId, shop.tiers[p].section)|
  {
    var under := P.TicketsUnder(shop.stock, e, p);
    var seats := SeatsIn(shop.seats, shop.events[e].venueId, shop.tiers[p].section);
    var f := map t | t in under :: shop.stock.tickets[t].seatId;
    forall t | t in under ensures f[t] in seats {
      TicketPlace(shop, e, t);
    }
    forall s | s in seats ensures exists t :: t in under && f[t] == s {
      var t := TicketOfSeat(shop, e, s);
      TicketPlace(shop, e, t);
      TiersApart(shop, p, shop.stock.tierOf[t]);
      assert t in under && f[t] == s;
    }
    Injective(shop, e, under, f);
    SameSize(under, seats, f);
  }

  // ---------- the page ----------

  /** One tier of a page: its id, section and price, and how many seats of the venue are in that section. */
  predicate TierLine(shop: I.Shop, v: int, p: int, tier: I.Tier, line: C.TierPrice) {
    line == C.TierPrice(p, tier.section, tier.price, |SeatsIn(shop.seats, v, tier.section)|)
  }

  predicate IsTierLine(shop: I.Shop, v: int, e: int, line: C.TierPrice) {
    exists p :: p in shop.tiers && shop.tiers[p].eventId == e && TierLine(shop, v, p, shop.tiers[p], line)
  }

  /** The first character that differs decides; a text comes before what it is a beginning of. */
  predicate Earlier(a: string, b: string) {
    exists k :: 0 <= k <= |a| && k < |b| && a[..k] == b[..k] && (k == |a| || a[k] < b[k])
  }

  lemma {:induction false} EarlierIs(a: string, b: string)
    requires EP.TextBefore(a, b)
    ensures Earlier(a, b) && a != b
  {
    if a == "" || a[0] < b[0] {
      assert a[..0] == b[..0];
    } else {
      EarlierIs(a[1..], b[1..]);
      var x, y := a[1..], b[1..];
      var k :| 0 <= k <= |x| && k < |y| && x[..k] == y[..k] && (k == |x| || x[k] < y[k]);
      assert a[..k + 1] == [a[0]] + x[..k] && b[..k + 1] == [b[0]] + y[..k];
    }
  }

  /** Dearer tiers come first, and tiers of one price by section. */
  predicate DearerFirst(lines: seq<C.TierPrice>) {
    forall i, j :: 0 <= i < j < |lines| ==>
      || lines[i].price > lines[j].price
      || (lines[i].price == lines[j].price && Earlier(lines[i].section, lines[j].section))
  }

  lemma LinesInOrder(shop: I.Shop, e: int)
    requires P.Inv(shop)
    ensures DearerFirst(EP.InListOrder(EP.TiersOf(shop, e)))
  {
    var lines := EP.InListOrder(EP.TiersOf(shop, e));
    EP.ListIsOrdered(EP.TiersOf(shop, e));
    hide EP.InListOrder, P.Inv, Earlier;
    forall i, j | 0 <= i < j < |lines|
      ensures lines[i].price > lines[j].price
              || (lines[i].price == lines[j].price && Earlier(lines[i].section, lines[j].section))
    {
      assert lines[i] in lines && lines[j] in lines;
      OneBeforeOther(shop, e, lines[i], lines[j]);
    }
  }

  lemma OneBeforeOther(shop: I.Shop, e: int, x: C.TierPrice, y: C.TierPrice)
    requires P.Inv(shop) && x in EP.TiersOf(shop, e) && y in EP.TiersOf(shop, e) && EP.ListedBefore(x, y)
    ensures x.price > y.price || (x.price == y.price && Earlier(x.section, y.section))
  {
    if x.section == y.section {
      TiersApart(shop, x.tierId, y.tierId);
    }
    if EP.TextBefore(x.section, y.section) {
      EarlierIs(x.section, y.section);
    }
  }

  /**
   An event has a page exactly once it is published, however much of it has been sold: its row and version, and a line
   for each of its tiers and no other, the dearest first. The seats of the lines add up to the event's tickets and to
   the venue's seats.
   */
  lemma PageIsExact(steps: seq<I.Step>, shop: I.Shop, e: int)
    requires shop == I.Exec(I.EMPTY, steps)
    ensures var page := EP.PageOf(shop, e);
            && (page.Some? <==> e in shop.events && shop.events[e].status != T.Draft)
            && (page.Some? ==>
                  var view, row := page.value, shop.events[e];
                  && view.eventId == e && view.version == row.version
                  && view.details == C.Details(row.venueId, row.title, row.description, row.category, row.startsAt,
                                               row.endsAt, row.onsaleAt)
                  && (forall line :: line in view.tiers <==> IsTierLine(shop, row.venueId, e, line))
                  && DearerFirst(view.tiers)
                  && C.SeatSum(view.tiers) == |I.TicketsOf(shop.stock.tickets, e)|
                  && C.SeatSum(view.tiers) == |I.SeatsOf(shop.seats, row.venueId)|)
  {
    P.RunKeepsInv(I.EMPTY, steps);
    hide I.Exec;
    PageOfShop(shop, e);
  }

  lemma PageOfShop(shop: I.Shop, e: int)
    requires P.Inv(shop)
    ensures var page := EP.PageOf(shop, e);
            && (page.Some? <==> e in shop.events && shop.events[e].status != T.Draft)
            && (page.Some? ==>
                  var view, row := page.value, shop.events[e];
                  && view.eventId == e && view.version == row.version
                  && view.details == C.Details(row.venueId, row.title, row.description, row.category, row.startsAt,
                                               row.endsAt, row.onsaleAt)
                  && (forall line :: line in view.tiers <==> IsTierLine(shop, row.venueId, e, line))
                  && DearerFirst(view.tiers)
                  && C.SeatSum(view.tiers) == |I.TicketsOf(shop.stock.tickets, e)|
                  && C.SeatSum(view.tiers) == |I.SeatsOf(shop.seats, row.venueId)|)
  {
    assert e in shop.events ==> shop.events[e].version >= 1;
    if P.Published(shop, e) {
      AsManyAsSeats(shop, e);
      SeatsAddUp(shop, e);
      LinesAreTiers(shop, e);
      LinesInOrder(shop, e);
      hide P.Inv, I.TicketsOf, I.SeatsOf, EP.TiersOf, EP.InListOrder, C.SeatSum;
      hide IsTierLine, DearerFirst;
    }
  }

  lemma LinesAreTiers(shop: I.Shop, e: int)
    requires P.Inv(shop) && P.Published(shop, e)
    ensures forall line :: line in EP.TiersOf(shop, e) <==> IsTierLine(shop, shop.events[e].venueId, e, line)
  {
    AsManyAsSeats(shop, e);
    hide P.Inv, SeatsIn, P.TicketsUnder;
    forall p | p in shop.tiers && shop.tiers[p].eventId == e
      ensures TierLine(shop, shop.events[e].venueId, p, shop.tiers[p], EP.TierShown(shop, p))
    {
    }
  }

  lemma SeatsAddUp(shop: I.Shop, e: int)
    requires P.Inv(shop) && P.Published(shop, e)
    ensures C.SeatSum(EP.InListOrder(EP.TiersOf(shop, e))) == |I.TicketsOf(shop.stock.tickets, e)|
  {
    var listed, all := TicketsListed(shop.stock, e, EP.TiersOf(shop, e)), I.TicketsOf(shop.stock.tickets, e);
    ListedSum(shop, e, EP.TiersOf(shop, e));
    hide C.SeatSum, EP.InListOrder;
    forall t
      ensures t in listed <==> t in all
    {
      if t in all {
        TicketPlace(shop, e, t);
        assert EP.TierShown(shop, shop.stock.tierOf[t]) in EP.TiersOf(shop, e);
      }
    }
    assert listed == all;
  }

  // ---------- from the request to the page ----------

  /** A line for the i-th tier asked for, counting the seats its section had when the event was created. */
  predicate AskedLine(shop: I.Shop, req: I.EventRequest, i: nat, line: C.TierPrice)
    requires i < |req.tiers|
  {
    var section := Trimmed(req.tiers[i].section);
    line == C.TierPrice(shop.nextTier + i, section, req.tiers[i].price, |SeatsIn(shop.seats, req.venueId, section)|)
  }

  predicate IsAskedLine(shop: I.Shop, req: I.EventRequest, line: C.TierPrice) {
    exists i :: 0 <= i < |req.tiers| && AskedLine(shop, req, i, line)
  }

  /**
   Created and published, an event's first page is the request: its texts without the space around names, its times to
   the microsecond, and for each tier asked for one line with its price and the seats of its section.
   */
  lemma FirstPageIsRequest(steps: seq<I.Step>, shop: I.Shop, organizer: string, req: I.EventRequest)
    requires shop == I.Exec(I.EMPTY, steps) && I.CreateEventTx(shop, organizer, req).Ok?
    requires var (shop1, e) := I.CreateEventTx(shop, organizer, req).value;
             I.PublishEventTx(shop1, organizer, e).Ok?
    ensures var (shop1, e) := I.CreateEventTx(shop, organizer, req).value;
            var page := EP.PageOf(I.PublishEventTx(shop1, organizer, e).value.0, e);
            && page.Some? && page.value.eventId == e && page.value.version == 2
            && page.value.details == C.Details(req.venueId, Trimmed(req.title), req.description,
                                               Trimmed(req.category), req.startsAt / 1000, req.endsAt / 1000,
                                               req.onsaleAt / 1000)
            && (forall line :: line in page.value.tiers <==> IsAskedLine(shop, req, line))
            && C.SeatSum(page.value.tiers) == |I.SeatsOf(shop.seats, req.venueId)|
  {
    P.RunKeepsInv(I.EMPTY, steps);
    hide I.Exec;
    var (shop1, e) := I.CreateEventTx(shop, organizer, req).value;
    P.CreateEventKeepsInv(shop, organizer, req);
    P.PublishKeepsInv(shop1, organizer, e);
    P.PublishShape(shop1, organizer, e);
    var shop2 := I.PublishEventTx(shop1, organizer, e).value.0;
    PageOfShop(shop2, e);
    AllBelow(shop);
    CreatedLeaves(shop, organizer, req);
    hide P.Inv, I.CreateEventTx, I.PublishEventTx, I.TicketsOf, I.SeatsOf, EP.PageOf, C.SeatSum, DearerFirst;
    hide IsTierLine, IsAskedLine;
    forall line
      ensures IsTierLine(shop2, req.venueId, e, line) <==> IsAskedLine(shop, req, line)
    {
      LinesAsked(shop, req, shop2, e, line);
    }
  }

  lemma AllBelow(shop: I.Shop)
    requires P.Inv(shop)
    ensures forall p :: p in shop.tiers ==> p < shop.nextTier && shop.tiers[p].eventId < shop.nextEvent
  {
    forall p | p in shop.tiers ensures p < shop.nextTier && shop.tiers[p].eventId < shop.nextEvent {
      assert P.TierOk(shop, p);
    }
  }

  lemma LinesAsked(shop: I.Shop, req: I.EventRequest, shop': I.Shop, e: int, line: C.TierPrice)
    requires e == shop.nextEvent && shop'.seats == shop.seats
    requires forall p :: p in shop.tiers ==> p < shop.nextTier && shop.tiers[p].eventId < shop.nextEvent
    requires forall p :: p in shop'.tiers <==> p in shop.tiers || shop.nextTier <= p < shop.nextTier + |req.tiers|
    requires forall p :: p in shop.tiers ==> shop'.tiers[p] == shop.tiers[p]
    requires forall i :: 0 <= i < |req.tiers| ==>
               shop'.tiers[shop.nextTier + i] == I.Tier(e, Trimmed(req.tiers[i].section), req.tiers[i].price)
    ensures IsTierLine(shop', req.venueId, e, line) <==> IsAskedLine(shop, req, line)
  {
    hide SeatsIn, Trimmed;
    if i: nat :| i < |req.tiers| && AskedLine(shop, req, i, line) {
      var p := shop.nextTier + i;
      assert p in shop'.tiers && shop'.tiers[p].eventId == e;
      assert TierLine(shop', req.venueId, p, shop'.tiers[p], line);
    }
    if p :| p in shop'.tiers && shop'.tiers[p].eventId == e && TierLine(shop', req.venueId, p, shop'.tiers[p], line) {
      var i := p - shop.nextTier;
      assert shop.nextTier + i == p;
      assert 0 <= i < |req.tiers| && AskedLine(shop, req, i, line);
    }
  }
}
