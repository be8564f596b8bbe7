/**
 The event page of the catalog over the organizer's own tables: organizer transactions and catalog steps interleave, and
 the versions the catalog reads are the rows, tiers and ticket counts the organizer has committed.
 */
module EventPages {
  import opened Common
  import C = Catalog
  import I = Inventory
  import P = Publishing

  // ---------- the order of the tiers: highest price first, then by section ----------

  /** Code point order. */
  predicate TextBefore(a: string, b: string) {
    b != "" && (a == "" || a[0] < b[0] || (a[0] == b[0] && TextBefore(a[1..], b[1..])))
  }

  lemma {:induction false} TextTotal(a: string, b: string)
    requires a != b
    ensures TextBefore(a, b) || TextBefore(b, a)
  {
    if a != "" && b != "" && a[0] == b[0] {
      assert a == [a[0]] + a[1..] && b == [b[0]] + b[1..];
      TextTotal(a[1..], b[1..]);
    }
  }

  lemma {:induction false} TextTransitive(a: string, b: string, c: string)
    requires TextBefore(a, b) && TextBefore(b, c)
    ensures TextBefore(a, c)
  {
    if a != "" && a[0] == b[0] == c[0] {
      TextTransitive(a[1..], b[1..], c[1..]);
    }
  }

  /** Sections of an event differ, so ids and counts never decide. */
  predicate ListedBefore(a: C.TierPrice, b: C.TierPrice) {
    || a.price > b.price
    || (a.price == b.price && TextBefore(a.section, b.section))
    || (a.price == b.price && a.section == b.section && a.tierId < b.tierId)
    || (a.price == b.price && a.section == b.section && a.tierId == b.tierId && a.seats < b.seats)
  }

  lemma ListedTotal(a: C.TierPrice, b: C.TierPrice)
    requires a != b
    ensures ListedBefore(a, b) || ListedBefore(b, a)
  {
    if a.section != b.section {
      TextTotal(a.section, b.section);
    }
  }

  lemma ListedTransitive(a: C.TierPrice, b: C.TierPrice, c: C.TierPrice)
    requires ListedBefore(a, b) && ListedBefore(b, c)
    ensures ListedBefore(a, c)
  {
    if a.price == b.price == c.price && a.section != b.section && b.section != c.section {
      TextTransitive(a.section, b.section, c.section);
    }
  }

  ghost predicate IsFirst(s: set<C.TierPrice>, m: C.TierPrice) {
    m in s && forall x :: x in s && x != m ==> ListedBefore(m, x)
  }

  lemma {:induction false} FirstExists(s: set<C.TierPrice>)
    requires s != {}
    ensures exists m :: IsFirst(s, m)
  {
    var y := AnyMember(s);
    var rest := s - {y};
    if rest == {} {
      assert forall x :: x in s ==> x == y || x in rest;
      assert IsFirst(s, y);
    } else {
      FirstExists(rest);
      var m :| IsFirst(rest, m);
      ListedTotal(m, y);
      var first := if ListedBefore(m, y) then m else y;
      forall x | x in s && x != first
        ensures ListedBefore(first, x)
      {
        if first == y && x != m {
          assert x in rest;
          ListedTransitive(y, m, x);
        }
      }
      assert IsFirst(s, first);
    }
  }

  ghost function InListOrder(s: set<C.TierPrice>): (r: seq<C.TierPrice>)
    ensures |r| == |s| && forall x :: x in r <==> x in s
  {
    if s == {} then []
    else
      FirstExists(s);
      var m :| IsFirst(s, m);
      [m] + InListOrder(s - {m})
  }

  /** The list a page shows is in that order. */
  lemma {:induction false} ListIsOrdered(s: set<C.TierPrice>)
    ensures forall i, j :: 0 <= i < j < |InListOrder(s)| ==> ListedBefore(InListOrder(s)[i], InListOrder(s)[j])
  {
    if s == {} {
    } else {
      var r := InListOrder(s);
      var m := r[0];
      assert r[1..] == InListOrder(s - {m}) && IsFirst(s, m);
      ListIsOrdered(s - {m});
      forall i, j | 0 <= i < j < |r|
        ensures ListedBefore(r[i], r[j])
      {
        assert r[j] == r[1..][j - 1] && r[j] in r[1..];
        if i > 0 {
          assert r[i] == r[1..][i - 1];
        }
      }
    }
  }

  // ---------- the page of an event ----------

  function DetailsOf(row: I.Event): C.Details {
    C.Details(row.venueId, row.title, row.description, row.category, row.startsAt, row.endsAt, row.onsaleAt)
  }

  /** A tier with the tickets sold or to be sold under it. */
  function TierShown(shop: I.Shop, p: int): C.TierPrice
    requires p in shop.tiers
  {
    var tier := shop.tiers[p];
    C.TierPrice(p, tier.section, tier.price, |P.TicketsUnder(shop.stock, tier.eventId, p)|)
  }

  function TiersOf(shop: I.Shop, e: int): set<C.TierPrice> {
    set p | p in shop.tiers && shop.tiers[p].eventId == e :: TierShown(shop, p)
  }

  ghost function SnapshotOf(shop: I.Shop, e: int): C.Snapshot
    requires e in shop.events
  {
    C.Snapshot(P.Published(shop, e), DetailsOf(shop.events[e]), InListOrder(TiersOf(shop, e)))
  }

  /** What the page of an event says right now, if it may be shown at all. */
  ghost function PageOf(shop: I.Shop, e: int): Option<C.View> {
    if !P.Published(shop, e) || shop.events[e].version < 0 then None
    else
      var snapshot := SnapshotOf(shop, e);
      Some(C.View(e, shop.events[e].version, snapshot.details, snapshot.tiers))
  }

  /** As many versions as the event's row counts, the last one saying what the tables say. */
  ghost predicate Tracks(shop: I.Shop, events: C.Events) {
    && events.Keys == shop.events.Keys
    && forall e :: e in shop.events ==> TracksEvent(shop, events, e)
  }

  ghost predicate TracksEvent(shop: I.Shop, events: C.Events, e: int)
    requires e in shop.events
  {
    && e in events && |events[e]| == shop.events[e].version > 0
    && events[e][|events[e]| - 1] == SnapshotOf(shop, e)
  }

  // ---------- joint runs ----------

  datatype Step = Organize(organizing: I.Step) | Serve(serving: C.Step)

  datatype Site = Site(shop: I.Shop, catalog: C.State)

  predicate Writes(step: C.Step) {
    step.CreateEvent? || step.EditEvent? || step.PublishEvent?
  }

  /** An edit of event 0, which no table ever has: nothing happens. */
  const IDLE: C.Step := C.EditEvent(0, C.Details(0, "", "", "", 0, 0, 0))

  /** The version, if any, that an organizer transaction commits. */
  ghost function VersionOf(shop: I.Shop, step: I.Step): C.Step {
    var shop' := I.Next(shop, step);
    match step
    case CreateEvent(organizer, req) =>
      if I.CreateEventTx(shop, organizer, req).Ok? && shop.nextEvent in shop'.events
      then C.CreateEvent(shop.nextEvent, DetailsOf(shop'.events[shop.nextEvent]),
                         InListOrder(TiersOf(shop', shop.nextEvent)))
      else IDLE
    case UpdateEvent(organizer, e, edit) =>
      if I.UpdateEventTx(shop, organizer, e, edit).Ok? && e in shop'.events
      then C.EditEvent(e, DetailsOf(shop'.events[e])) else IDLE
    case PublishEvent(organizer, e) =>
      if I.PublishEventTx(shop, organizer, e).Ok? then C.PublishEvent(e, InListOrder(TiersOf(shop', e))) else IDLE
    case _ => IDLE
  }

  ghost function CatalogStep(s: Site, step: Step): C.Step {
    match step
    case Organize(organizing) => VersionOf(s.shop, organizing)
    case Serve(serving) => if Writes(serving) then IDLE else serving
  }

  ghost function ShopAfter(s: Site, step: Step): I.Shop {
    match step
    case Organize(organizing) => I.Next(s.shop, organizing)
    case Serve(_) => s.shop
  }

  ghost function Next(s: Site, step: Step): Site {
    Site(ShopAfter(s, step), C.Next(s.catalog, CatalogStep(s, step)))
  }

  ghost function Exec(s: Site, steps: seq<Step>): Site
    decreases |steps|
  {
    if steps == [] then s else Exec(Next(s, steps[0]), steps[1..])
  }

  const START: Site := Site(I.EMPTY, C.EMPTY)

  // ---------- the catalog's versions are the organizer's ----------

  ghost predicate Inv(s: Site) {
    P.Inv(s.shop) && Tracks(s.shop, s.catalog.events)
  }

  /** The tiers shown change only when the event is published. */
  lemma TiersStay(shop: I.Shop, step: I.Step, e: int)
    requires P.Inv(shop) && e in shop.events && e in I.Next(shop, step).events
    requires P.Published(I.Next(shop, step), e) ==> P.Published(shop, e)
    ensures TiersOf(I.Next(shop, step), e) == TiersOf(shop, e)
  {
    P.StepFollows(shop, step);
    P.StepKeepsInv(shop, step);
    hide I.Next;
    var shop' := I.Next(shop, step);
    assert P.RowFollows(shop.events[e], shop'.events[e]);
    forall p
      ensures P.TicketsUnder(shop'.stock, e, p) == P.TicketsUnder(shop.stock, e, p)
    {
      CountsStay(shop, shop', e, p);
    }
    TiersStayOver(shop, shop', e);
  }

  lemma CountsStay(shop: I.Shop, shop': I.Shop, e: int, p: int)
    requires P.Inv(shop) && P.Inv(shop') && e in shop.events && e in shop'.events
    requires P.Published(shop', e) ==> P.Published(shop, e) && P.InventoryFollows(shop, shop', e)
    requires P.Published(shop, e) ==> P.Published(shop', e)
    ensures P.TicketsUnder(shop'.stock, e, p) == P.TicketsUnder(shop.stock, e, p)
  {
    if P.Published(shop, e) {
      forall t
        ensures t in P.TicketsUnder(shop'.stock, e, p) <==> t in P.TicketsUnder(shop.stock, e, p)
      {
        assert t in I.TicketsOf(shop'.stock.tickets, e) <==> t in I.TicketsOf(shop.stock.tickets, e);
      }
    } else {
      P.DraftHasNoTickets(shop, e);
      P.DraftHasNoTickets(shop', e);
      forall t
        ensures t !in P.TicketsUnder(shop'.stock, e, p) && t !in P.TicketsUnder(shop.stock, e, p)
      {
      }
    }
  }

  lemma TiersStayOver(shop: I.Shop, shop': I.Shop, e: int)
    requires P.EventTiers(shop'.tiers, e) == P.EventTiers(shop.tiers, e)
    requires forall p :: P.TicketsUnder(shop'.stock, e, p) == P.TicketsUnder(shop.stock, e, p)
    ensures TiersOf(shop', e) == TiersOf(shop, e)
  {
    forall p
      ensures p in shop'.tiers && shop'.tiers[p].eventId == e <==> p in shop.tiers && shop.tiers[p].eventId == e
      ensures p in shop.tiers && shop.tiers[p].eventId == e ==> shop'.tiers[p] == shop.tiers[p]
    {
      assert p in P.EventTiers(shop'.tiers, e) <==> p in P.EventTiers(shop.tiers, e);
    }
    hide P.TicketsUnder;
    forall x
      ensures x in TiersOf(shop', e) <==> x in TiersOf(shop, e)
    {
    }
  }

  /** A transaction that changes neither row nor status of an event leaves its page alone. */
  lemma SnapshotStays(shop: I.Shop, step: I.Step, events: C.Events, e: int)
    requires P.Inv(shop) && e in shop.events && TracksEvent(shop, events, e)
    requires e in I.Next(shop, step).events && I.Next(shop, step).events[e] == shop.events[e]
    ensures TracksEvent(I.Next(shop, step), events, e)
  {
    TiersStay(shop, step, e);
  }

  lemma IdleTracks(shop: I.Shop, step: I.Step, catalog: C.State)
    requires P.Inv(shop) && Tracks(shop, catalog.events)
    requires I.Next(shop, step).events == shop.events
    ensures Tracks(I.Next(shop, step), C.Next(catalog, IDLE).events)
  {
    assert 0 !in shop.events;
    assert C.Next(catalog, IDLE) == catalog;
    hide I.Next, P.Inv, C.Next;
    forall e | e in shop.events
      ensures TracksEvent(I.Next(shop, step), catalog.events, e)
    {
      SnapshotStays(shop, step, catalog.events, e);
    }
  }

  /** What a transaction writes to one event, and the version that goes with it. */
  ghost predicate WritesOne(shop: I.Shop, step: I.Step, e: int, events: C.Events, events': C.Events) {
    var shop' := I.Next(shop, step);
    && e in shop'.events && shop'.events == shop.events[e := shop'.events[e]]
    && shop'.events[e].version == (if e in shop.events then shop.events[e].version else 0) + 1
    && events' == events[e := (if e in events then events[e] else []) + [SnapshotOf(shop', e)]]
  }

  lemma WriteTracks(shop: I.Shop, step: I.Step, e: int, events: C.Events, events': C.Events)
    requires P.Inv(shop) && Tracks(shop, events) && WritesOne(shop, step, e, events, events')
    ensures Tracks(I.Next(shop, step), events')
  {
    hide I.Next, P.Inv, SnapshotOf;
    var shop' := I.Next(shop, step);
    forall f | f in shop'.events
      ensures TracksEvent(shop', events', f)
    {
      if f != e {
        assert TracksEvent(shop, events, f);
        SnapshotStays(shop, step, events', f);
      }
    }
  }

  lemma CreateTracks(shop: I.Shop, organizer: string, req: I.EventRequest, catalog: C.State)
    requires P.Inv(shop) && Tracks(shop, catalog.events) && I.CreateEventTx(shop, organizer, req).Ok?
    ensures var step := I.CreateEvent(organizer, req);
            Tracks(I.Next(shop, step), C.Next(catalog, VersionOf(shop, step)).events)
  {
    var step, n := I.CreateEvent(organizer, req), shop.nextEvent;
    CreatedRow(shop, organizer, req);
    hide I.Next, I.CreateEventTx, P.Inv, C.Next, TiersOf, InListOrder;
    var snapshot := SnapshotOf(I.Next(shop, step), n);
    CreateAppends(catalog, n, snapshot.details, snapshot.tiers);
    assert [] + [snapshot] == [snapshot];
    WriteTracks(shop, step, n, catalog.events, C.Next(catalog, VersionOf(shop, step)).events);
  }

  lemma CreatedRow(shop: I.Shop, organizer: string, req: I.EventRequest)
    requires P.Inv(shop) && I.CreateEventTx(shop, organizer, req).Ok?
    ensures var shop' := I.Next(shop, I.CreateEvent(organizer, req)); var n := shop.nextEvent;
            && n !in shop.events && n in shop'.events && shop'.events == shop.events[n := shop'.events[n]]
            && shop'.events[n].version == 1 && !P.Published(shop', n)
  {
  }

  lemma UpdatedRow(shop: I.Shop, organizer: string, e: int, edit: I.Edit)
    requires P.Inv(shop) && I.UpdateEventTx(shop, organizer, e, edit).Ok?
    ensures var shop' := I.Next(shop, I.UpdateEvent(organizer, e, edit));
            && e in shop.events && e in shop'.events && shop'.events == shop.events[e := shop'.events[e]]
            && shop'.events[e].version == shop.events[e].version + 1
            && shop'.events[e].status == shop.events[e].status
  {
  }

  lemma EditedSnapshot(shop: I.Shop, step: I.Step, e: int)
    requires P.Inv(shop) && e in shop.events && e in I.Next(shop, step).events
    requires P.Published(I.Next(shop, step), e) <==> P.Published(shop, e)
    ensures SnapshotOf(I.Next(shop, step), e)
            == SnapshotOf(shop, e).(details := DetailsOf(I.Next(shop, step).events[e]))
  {
    TiersStay(shop, step, e);
    hide I.Next;
  }

  lemma CreateAppends(catalog: C.State, e: int, details: C.Details, tiers: seq<C.TierPrice>)
    requires e !in catalog.events
    ensures C.Next(catalog, C.CreateEvent(e, details, tiers)).events
            == catalog.events[e := [C.Snapshot(false, details, tiers)]]
  {
  }

  lemma EditAppends(catalog: C.State, e: int, details: C.Details)
    requires e in catalog.events && catalog.events[e] != []
    ensures C.Next(catalog, C.EditEvent(e, details)).events
            == catalog.events[e := catalog.events[e] + [C.Latest(catalog, e).(details := details)]]
  {
  }

  lemma PublishAppends(catalog: C.State, e: int, tiers: seq<C.TierPrice>)
    requires e in catalog.events && catalog.events[e] != [] && !C.Latest(catalog, e).onSale
    ensures C.Next(catalog, C.PublishEvent(e, tiers)).events
            == catalog.events[e := catalog.events[e] + [C.Latest(catalog, e).(onSale := true, tiers := tiers)]]
  {
  }

  lemma UpdateTracks(shop: I.Shop, organizer: string, e: int, edit: I.Edit, catalog: C.State)
    requires P.Inv(shop) && Tracks(shop, catalog.events) && I.UpdateEventTx(shop, organizer, e, edit).Ok?
    ensures var step := I.UpdateEvent(organizer, e, edit);
            Tracks(I.Next(shop, step), C.Next(catalog, VersionOf(shop, step)).events)
  {
    var step := I.UpdateEvent(organizer, e, edit);
    UpdatedRow(shop, organizer, e, edit);
    hide I.Next, I.UpdateEventTx, P.Inv, C.Next, SnapshotOf;
    assert TracksEvent(shop, catalog.events, e);
    EditedSnapshot(shop, step, e);
    EditAppends(catalog, e, DetailsOf(I.Next(shop, step).events[e]));
    WriteTracks(shop, step, e, catalog.events, C.Next(catalog, VersionOf(shop, step)).events);
  }

  lemma PublishedRow(shop: I.Shop, organizer: string, e: int)
    requires P.Inv(shop) && I.PublishEventTx(shop, organizer, e).Ok?
    ensures var shop' := I.Next(shop, I.PublishEvent(organizer, e));
            && e in shop.events && !P.Published(shop, e) && P.Published(shop', e)
            && shop'.events == shop.events[e := shop'.events[e]]
            && shop'.events[e] == I.RowAfter(shop.events[e])
  {
    hide I.Next, I.PublishEventTx, P.Inv, P.Added, P.HasNone, InOrder, I.SeatsOf;
    P.PublishCommits(shop, organizer, e);
    P.PublishShape(shop, organizer, e);
  }

  lemma PublishedSnapshot(shop: I.Shop, organizer: string, e: int)
    requires P.Inv(shop) && I.PublishEventTx(shop, organizer, e).Ok?
    ensures var shop' := I.Next(shop, I.PublishEvent(organizer, e));
            && e in shop.events && e in shop'.events && !SnapshotOf(shop, e).onSale
            && SnapshotOf(shop', e)
               == SnapshotOf(shop, e).(onSale := true, tiers := InListOrder(TiersOf(shop', e)))
  {
    hide I.Next, I.PublishEventTx, P.Inv, TiersOf, InListOrder;
    PublishedRow(shop, organizer, e);
  }

  lemma PublishWrites(shop: I.Shop, step: I.Step, e: int, tiers: seq<C.TierPrice>, catalog: C.State)
    requires P.Inv(shop) && Tracks(shop, catalog.events) && e in shop.events
    requires var shop' := I.Next(shop, step);
             && e in shop'.events && shop'.events == shop.events[e := shop'.events[e]]
             && shop'.events[e] == I.RowAfter(shop.events[e]) && !SnapshotOf(shop, e).onSale
             && SnapshotOf(shop', e) == SnapshotOf(shop, e).(onSale := true, tiers := tiers)
    ensures Tracks(I.Next(shop, step), C.Next(catalog, C.PublishEvent(e, tiers)).events)
  {
    hide I.Next, P.Inv, C.Next, SnapshotOf;
    assert TracksEvent(shop, catalog.events, e);
    PublishAppends(catalog, e, tiers);
    WriteTracks(shop, step, e, catalog.events, C.Next(catalog, C.PublishEvent(e, tiers)).events);
  }

  lemma PublishTracks(shop: I.Shop, organizer: string, e: int, catalog: C.State)
    requires P.Inv(shop) && Tracks(shop, catalog.events) && I.PublishEventTx(shop, organizer, e).Ok?
    ensures var step := I.PublishEvent(organizer, e);
            Tracks(I.Next(shop, step), C.Next(catalog, VersionOf(shop, step)).events)
  {
    var step := I.PublishEvent(organizer, e);
    hide I.Next, I.PublishEventTx, P.Inv, P.Published, Tracks, C.Next, SnapshotOf, TiersOf, InListOrder;
    PublishedRow(shop, organizer, e);
    PublishedSnapshot(shop, organizer, e);
    PublishWrites(shop, step, e, InListOrder(TiersOf(I.Next(shop, step), e)), catalog);
  }

  lemma OrganizeTracks(shop: I.Shop, step: I.Step, catalog: C.State)
    requires P.Inv(shop) && Tracks(shop, catalog.events)
    ensures Tracks(I.Next(shop, step), C.Next(catalog, VersionOf(shop, step)).events)
  {
    hide P.Inv, Tracks, I.CreateEventTx, I.UpdateEventTx, I.PublishEventTx, C.Next, I.AddSeatsTx;
    match step
    case CreateEvent(organizer, req) =>
      if I.CreateEventTx(shop, organizer, req).Ok? {
        CreateTracks(shop, organizer, req, catalog);
      } else {
        IdleTracks(shop, step, catalog);
      }
    case UpdateEvent(organizer, e, edit) =>
      if I.UpdateEventTx(shop, organizer, e, edit).Ok? {
        UpdateTracks(shop, organizer, e, edit, catalog);
      } else {
        IdleTracks(shop, step, catalog);
      }
    case PublishEvent(organizer, e) =>
      if I.PublishEventTx(shop, organizer, e).Ok? {
        PublishTracks(shop, organizer, e, catalog);
      } else {
        IdleTracks(shop, step, catalog);
      }
    case AddSeats(v, specs) =>
      SeatsLeaveEvents(shop, v, specs);
      IdleTracks(shop, step, catalog);
    case _ => IdleTracks(shop, step, catalog);
  }

  lemma SeatsLeaveEvents(shop: I.Shop, v: int, specs: seq<I.S.SectionSpec>)
    ensures I.Next(shop, I.AddSeats(v, specs)).events == shop.events
  {
  }

  lemma ReadsLeaveEvents(catalog: C.State, step: C.Step)
    requires !Writes(step)
    ensures C.Next(catalog, step).events == catalog.events
  {
  }

  lemma ServeTracks(shop: I.Shop, step: C.Step, catalog: C.State)
    requires P.Inv(shop) && Tracks(shop, catalog.events)
    ensures C.Next(catalog, if Writes(step) then IDLE else step).events == catalog.events
  {
    if Writes(step) {
      assert 0 !in shop.events;
    } else {
      hide C.Next;
      ReadsLeaveEvents(catalog, step);
    }
  }

  lemma StepKeepsInv(s: Site, step: Step)
    requires Inv(s)
    ensures Inv(Next(s, step))
  {
    hide P.Inv, Tracks, C.Next, I.Next, VersionOf;
    match step
    case Organize(organizing) =>
      P.StepKeepsInv(s.shop, organizing);
      OrganizeTracks(s.shop, organizing, s.catalog);
    case Serve(serving) =>
      ServeTracks(s.shop, serving, s.catalog);
  }

  lemma {:induction false} RunKeepsInv(s: Site, steps: seq<Step>)
    requires Inv(s)
    ensures Inv(Exec(s, steps))
    decreases |steps|
  {
    hide Inv, Next;
    if steps == [] {
    } else {
      StepKeepsInv(s, steps[0]);
      RunKeepsInv(Next(s, steps[0]), steps[1..]);
    }
  }

  /** In every joint run the body a rebuild would read is the page of the organizer's tables. */
  lemma CatalogShowsTables(steps: seq<Step>, s: Site, e: int)
    requires s == Exec(START, steps)
    ensures C.CurrentView(s.catalog, e) == PageOf(s.shop, e)
  {
    RunKeepsInv(START, steps);
    PageIsTracked(s, e);
  }

  lemma PageIsTracked(s: Site, e: int)
    requires Inv(s)
    ensures C.CurrentView(s.catalog, e) == PageOf(s.shop, e)
  {
    if e in s.shop.events {
      assert TracksEvent(s.shop, s.catalog.events, e);
    }
  }

  // ---------- a page read is current at some instant of the call ----------

  ghost function CatalogSteps(s: Site, steps: seq<Step>): (r: seq<C.Step>)
    ensures |r| == |steps|
    decreases |steps|
  {
    if steps == [] then [] else [CatalogStep(s, steps[0])] + CatalogSteps(Next(s, steps[0]), steps[1..])
  }

  lemma {:induction false} CatalogRun(s: Site, steps: seq<Step>)
    ensures C.Exec(s.catalog, CatalogSteps(s, steps)) == Exec(s, steps).catalog
    decreases |steps|
  {
    hide C.Next, CatalogStep, ShopAfter;
    if steps == [] {
    } else {
      CatalogRun(Next(s, steps[0]), steps[1..]);
    }
  }

  lemma {:induction false} CatalogPrefix(s: Site, steps: seq<Step>, m: nat)
    requires m <= |steps|
    ensures CatalogSteps(s, steps)[..m] == CatalogSteps(s, steps[..m])
    decreases m
  {
    hide Next, CatalogStep;
    if m == 0 {
    } else {
      var first, rest := steps[0], steps[1..];
      CatalogPrefix(Next(s, first), rest, m - 1);
      assert steps[..m][1..] == rest[..m - 1];
      assert CatalogSteps(s, steps)[1..] == CatalogSteps(Next(s, first), rest);
    }
  }

  /** A run is the catalog's own run with the organizer's commits in it, state by state. */
  lemma CatalogInstant(s: Site, steps: seq<Step>, m: nat)
    requires m <= |steps|
    ensures C.Exec(s.catalog, CatalogSteps(s, steps)[..m]) == Exec(s, steps[..m]).catalog
  {
    hide Next, C.Exec, Exec, CatalogSteps;
    CatalogPrefix(s, steps, m);
    CatalogRun(s, steps[..m]);
  }

  lemma {:induction false} ExecAppend(s: Site, a: seq<Step>, b: seq<Step>)
    ensures Exec(s, a + b) == Exec(Exec(s, a), b)
    decreases |a|
  {
    hide Next;
    if a == [] {
      assert a + b == b;
    } else {
      assert (a + b)[1..] == a[1..] + b;
      ExecAppend(Next(s, a[0]), a[1..], b);
    }
  }

  /**
   However organizers, readers, rebuilds, evictions and failures interleave: a call that begins and returns within
   `during` returns the page that the organizer's tables gave at some instant of it.
   */
  lemma PagesAreCurrent(before: seq<Step>, s: Site, during: seq<Step>, s': Site, r: nat)
    requires s == Exec(START, before) && s' == Exec(s, during)
    requires r !in s.catalog.calls && r in s'.catalog.calls && s'.catalog.calls[r].Returned?
    ensures exists m :: 0 <= m <= |during|
                        && PageOf(Exec(s, during[..m]).shop, s'.catalog.calls[r].eventId)
                           == Some(s'.catalog.calls[r].view)
  {
    hide Next, Exec, C.Exec, C.Next, CatalogSteps, PageOf, C.CurrentView;
    CatalogRun(START, before);
    CatalogRun(s, during);
    var steps := CatalogSteps(s, during);
    C.ReadsAreLinearizable(CatalogSteps(START, before), s.catalog, steps, s'.catalog, r);
    var e, view := s'.catalog.calls[r].eventId, s'.catalog.calls[r].view;
    var m :| 0 <= m <= |steps| && C.CurrentView(C.Exec(s.catalog, steps[..m]), e) == Some(view);
    CatalogInstant(s, during, m);
    ExecAppend(START, before, during[..m]);
    CatalogShowsTables(before + during[..m], Exec(s, during[..m]), e);
  }
}
