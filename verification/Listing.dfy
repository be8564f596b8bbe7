/** The listing a search reads is that of the organizer's events: what this gives a client that follows its cursors. */
module Listing {
  import opened Common
  import opened Cursor
  import opened Search
  import opened Text
  import I = Inventory
  import P = Publishing
  import T = Tables

  /** Events on sale that pass the filters of the search, whatever they are. */
  function ListingOf(shop: I.Shop, matches: set<int>): Table {
    map e | e in shop.events :: Row(shop.events[e].startsAt, shop.events[e].status == T.OnSale && e in matches)
  }

  // ---------- start times that read as missing ----------

  /** Less than a microsecond after the zero time: not missing in the request, but stored as the zero time. */
  predicate AlmostZero(t: I.Nanos) {
    0 < t - I.ZERO_NANOS < 1000
  }

  ghost predicate AllTimed(shop: I.Shop) {
    forall e :: e in shop.events ==> shop.events[e].startsAt != ZERO_TIME
  }

  /** No event accepted along the run starts in that microsecond. */
  ghost predicate AcceptedTimed(shop: I.Shop, steps: seq<I.Step>)
    decreases |steps|
  {
    steps != [] ==> TimedStep(shop, steps[0]) && AcceptedTimed(I.Next(shop, steps[0]), steps[1..])
  }

  ghost predicate TimedStep(shop: I.Shop, step: I.Step) {
    step.CreateEvent? && I.CreateEventTx(shop, step.organizer, step.req).Ok? ==> !AlmostZero(step.req.startsAt)
  }

  lemma StartIsKept(shop: I.Shop, step: I.Step)
    requires P.Inv(shop)
    ensures AllTimed(I.Next(shop, step)) <==> AllTimed(shop) && TimedStep(shop, step)
  {
    P.StepFollows(shop, step);
    if step.CreateEvent? {
      CreatedStart(shop, step.organizer, step.req);
    } else {
      NoNewEvents(shop, step);
    }
    hide I.Next, I.CreateEventTx, P.Inv;
    forall e | e in shop.events
      ensures e in I.Next(shop, step).events && I.Next(shop, step).events[e].startsAt == shop.events[e].startsAt
    {
      assert e in I.Next(shop, step).events.Keys && P.RowFollows(shop.events[e], I.Next(shop, step).events[e]);
    }
  }

  lemma NoNewEvents(shop: I.Shop, step: I.Step)
    requires !step.CreateEvent?
    ensures I.Next(shop, step).events.Keys == shop.events.Keys
  {
  }

  lemma CreatedStart(shop: I.Shop, organizer: string, req: I.EventRequest)
    requires P.Inv(shop)
    ensures var r, shop' := I.CreateEventTx(shop, organizer, req), I.Next(shop, I.CreateEvent(organizer, req));
            if r.Ok? then
              && shop'.events.Keys == shop.events.Keys + {shop.nextEvent}
              && (shop'.events[shop.nextEvent].startsAt == ZERO_TIME <==> AlmostZero(req.startsAt))
            else shop' == shop
  {
  }

  /** All events of a run have start times other than the zero time exactly if it accepted none in that microsecond. */
  lemma {:induction false} EventsAreTimedIff(shop: I.Shop, steps: seq<I.Step>)
    requires P.Inv(shop)
    ensures AllTimed(I.Exec(shop, steps)) <==> AllTimed(shop) && AcceptedTimed(shop, steps)
    decreases |steps|
  {
    hide I.Next, AllTimed, TimedStep;
    if steps == [] {
    } else {
      StartIsKept(shop, steps[0]);
      P.StepKeepsInv(shop, steps[0]);
      EventsAreTimedIff(I.Next(shop, steps[0]), steps[1..]);
    }
  }

  /** A request that is accepted and whose event is stored with the zero time: one nanosecond after it. */
  lemma AlmostZeroIsStored(organizer: string, title: string, category: string)
    requires Trimmed(title) != "" && Trimmed(category) != ""
    ensures var shop := I.Exec(I.EMPTY, P.PaddedVenue());
            var r := I.CreateEventTx(shop, organizer, P.PaddedRequest(title, category, I.ZERO_NANOS + 1));
            && r.Ok? && r.value.1 == 1 && 1 in r.value.0.events && r.value.0.events[1].startsAt == ZERO_TIME
  {
    P.PaddedVenueSeats();
    P.PaddedTier(organizer, title, category, I.ZERO_NANOS + 1);
    hide I.Exec, I.CreateEventTx, Trimmed;
  }

  /** Over the events of such a run no cursor that was handed out is refused. */
  lemma CursorsAreAccepted(steps: seq<I.Step>, matches: set<int>, limit: string, cursor: Option<Wire>)
    requires AcceptedTimed(I.EMPTY, steps)
    requires Respond(ListingOf(I.Exec(I.EMPTY, steps), matches), limit, cursor).Ok?
    ensures ParseCursor(Respond(ListingOf(I.Exec(I.EMPTY, steps), matches), limit, cursor).value.next).Ok?
  {
    hide I.Next, I.Exec, ParseLimit;
    EventsAreTimedIff(I.EMPTY, steps);
    var table := ListingOf(I.Exec(I.EMPTY, steps), matches);
    NextIsAcceptedIff(table, limit, cursor);
    var page := PageOf(table, ParseCursor(cursor).value, ParseLimit(limit).value);
    if page.next.Some? {
      PageFacts(table, ParseCursor(cursor).value, ParseLimit(limit).value);
      assert page.next.value in page.hits && Lists(table, page.next.value);
    }
  }

  // ---------- a client's walk ----------

  /** The states in which the pages of one walk were read, with what was committed before each. */
  ghost predicate History(shops: seq<I.Shop>, runs: seq<seq<I.Step>>) {
    && |runs| == |shops|
    && forall i :: 0 <= i < |shops| ==> shops[i] == I.Exec(StateBefore(shops, i), runs[i])
  }

  function StateBefore(shops: seq<I.Shop>, i: nat): I.Shop
    requires i <= |shops|
  {
    if i == 0 then I.EMPTY else shops[i - 1]
  }

  lemma {:induction false} HistoryIsSound(shops: seq<I.Shop>, runs: seq<seq<I.Step>>, i: nat)
    requires History(shops, runs) && i < |shops|
    ensures P.Inv(shops[i])
  {
    if i > 0 {
      HistoryIsSound(shops, runs, i - 1);
      P.RunKeepsInv(shops[i - 1], runs[i]);
    } else {
      assert StateBefore(shops, 0) == I.EMPTY;
      P.RunKeepsInv(I.EMPTY, runs[0]);
    }
  }

  lemma StartStays(shop: I.Shop, run: seq<I.Step>, e: int)
    requires P.Inv(shop) && e in shop.events
    ensures var shop' := I.Exec(shop, run); e in shop'.events && shop'.events[e].startsAt == shop.events[e].startsAt
  {
    P.RunFollows(shop, run);
    hide P.Inv, I.Exec;
    assert P.RowFollows(shop.events[e], I.Exec(shop, run).events[e]);
  }

  /** An event's sort key is the same in every state of a history that has it. */
  lemma {:induction false} KeysStay(shops: seq<I.Shop>, runs: seq<seq<I.Step>>, e: int, i: nat)
    requires History(shops, runs) && i < |shops| && e in shops[0].events
    ensures e in shops[i].events && shops[i].events[e].startsAt == shops[0].events[e].startsAt
  {
    hide P.Inv, I.Exec;
    if i > 0 {
      KeysStay(shops, runs, e, i - 1);
      HistoryIsSound(shops, runs, i - 1);
      StartStays(shops[i - 1], runs[i], e);
    }
  }

  function Listings(shops: seq<I.Shop>, filters: seq<set<int>>): seq<Table>
    requires |filters| == |shops|
  {
    seq(|shops|, i requires 0 <= i < |shops| => ListingOf(shops[i], filters[i]))
  }

  predicate Shown(shop: I.Shop, matches: set<int>, e: int) {
    e in shop.events && shop.events[e].status == T.OnSale && e in matches
  }

  lemma ShownIsListed(shop: I.Shop, matches: set<int>, k: Key)
    ensures Lists(ListingOf(shop, matches), k) <==>
            Shown(shop, matches, k.eventId) && shop.events[k.eventId].startsAt == k.startsAt
  {
  }

  /** Page i of the walk shows the hit, an event then on sale that passed the filters, under its own start time. */
  ghost predicate ShownOn(
    shops: seq<I.Shop>, filters: seq<set<int>>, responses: seq<Response>, i: nat, k: Key)
    requires |shops| == |filters| == |responses|
  {
    && i < |responses| && k in responses[i].hits
    && Shown(shops[i], filters[i], k.eventId) && shops[i].events[k.eventId].startsAt == k.startsAt
  }

  /**
   A client that follows its cursors while events are created, edited, published and sold collects strictly rising keys,
   none twice: every event that was on sale and passed the filters whenever a page was read, and only events that were
   and did when the page that shows them was.
   */
  lemma FollowingCursors(
    shops: seq<I.Shop>, runs: seq<seq<I.Step>>, filters: seq<set<int>>, responses: seq<Response>, limit: string)
    requires History(shops, runs) && |filters| == |shops|
    requires IsClientWalk(Listings(shops, filters), responses, limit, None)
    ensures Rising(ResponseHits(responses))
    ensures forall e :: (forall i :: 0 <= i < |shops| ==> Shown(shops[i], filters[i], e)) ==>
              Key(shops[0].events[e].startsAt, e) in ResponseHits(responses)
    ensures |responses| == |shops|
    ensures forall k :: k in ResponseHits(responses) ==> exists i :: ShownOn(shops, filters, responses, i, k)
  {
    var tables := Listings(shops, filters);
    ClientWalkOverChanges(tables, responses, limit);
    hide IsClientWalk;
    forall e | forall i :: 0 <= i < |shops| ==> Shown(shops[i], filters[i], e)
      ensures Key(shops[0].events[e].startsAt, e) in ResponseHits(responses)
    {
      assert Shown(shops[0], filters[0], e);
      var k := Key(shops[0].events[e].startsAt, e);
      forall i | 0 <= i < |tables|
        ensures Lists(tables[i], k)
      {
        KeysStay(shops, runs, e, i);
        ShownIsListed(shops[i], filters[i], k);
      }
    }
    forall k | k in ResponseHits(responses)
      ensures exists i :: ShownOn(shops, filters, responses, i, k)
    {
      var i :| 0 <= i < |responses| && k in responses[i].hits && Lists(tables[i], k);
      ShownIsListed(shops[i], filters[i], k);
      assert ShownOn(shops, filters, responses, i, k);
    }
  }
}
