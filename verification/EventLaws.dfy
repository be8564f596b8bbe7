/**
 What the organizer's requests are answered and what they leave, by conditions on the request and the tables alone
 (organizer/events.go, organizer/venues.go).
 */
module EventLaws {
  import opened Common
  import opened Text
  import opened Inventory
  import P = Publishing
  import S = Seatmap
  import T = Tables

  // ---------- creating an event ----------

  /** Nothing but space. */
  predicate Blank(s: string) {
    forall i :: 0 <= i < |s| ==> IsSpace(s[i])
  }

  lemma {:induction false} LeftBlank(s: string)
    ensures TrimLeft(s) == "" <==> Blank(s)
  {
    if s != "" && IsSpace(s[0]) {
      LeftBlank(s[1..]);
      assert s == [s[0]] + s[1..];
    }
  }

  lemma {:induction false} RightBlank(s: string)
    ensures TrimRight(s) == "" <==> Blank(s)
  {
    if s != "" && IsSpace(s[|s| - 1]) {
      RightBlank(s[..|s| - 1]);
      assert s == s[..|s| - 1] + [s[|s| - 1]];
    }
  }

  lemma TrimmedBlank(s: string)
    ensures Trimmed(s) == "" <==> Blank(s)
  {
    LeftBlank(s);
    RightBlank(TrimLeft(s));
    TrimLeftEnds(s);
  }

  predicate GoodTier(tier: TierSpec) {
    !Blank(tier.section) && tier.price >= 0
  }

  /** The request can be judged good without looking at any table. */
  predicate Sound(req: EventRequest) {
    && req.venueId >= 1 && !Blank(req.title) && !Blank(req.category)
    && ZERO_NANOS !in {req.startsAt, req.endsAt, req.onsaleAt}
    && req.onsaleAt <= req.startsAt < req.endsAt
    && |req.tiers| >= 1 && (forall tier :: tier in req.tiers ==> GoodTier(tier))
    && forall i, j :: 0 <= i < |req.tiers| && 0 <= j < |req.tiers| && i != j
         ==> req.tiers[i].section != req.tiers[j].section
  }

  lemma SoundIsGood(req: EventRequest)
    ensures GoodRequest(req) <==> Sound(req)
  {
    TrimmedBlank(req.title);
    TrimmedBlank(req.category);
    forall tier | tier in req.tiers
      ensures Trimmed(tier.section) != "" && tier.price >= 0 <==> GoodTier(tier)
    {
      TrimmedBlank(tier.section);
    }
    hide Trimmed, Blank, GoodTier;
    if GoodRequest(req) {
      forall tier | tier in req.tiers ensures GoodTier(tier) {
        var i :| 0 <= i < |req.tiers| && req.tiers[i] == tier;
      }
    }
    if Sound(req) {
      forall i | 0 <= i < |req.tiers|
        ensures Trimmed(req.tiers[i].section) != "" && req.tiers[i].price >= 0
      {
        assert req.tiers[i] in req.tiers;
      }
    }
  }

  /** The venue has a seat in the section. */
  predicate HasSection(shop: Shop, v: int, section: string) {
    exists s :: s in shop.seats && shop.seats[s].venueId == v && shop.seats[s].section == section
  }

  /** Every section priced exists. */
  ghost predicate AllThere(shop: Shop, req: EventRequest) {
    forall tier :: tier in req.tiers ==> HasSection(shop, req.venueId, tier.section)
  }

  /** Stored, the event still ends after it starts, and no two of its tiers are for one section. */
  ghost predicate Storable(req: EventRequest) {
    && req.startsAt / 1000 < req.endsAt / 1000
    && forall i, j :: 0 <= i < j < |req.tiers| ==> Trimmed(req.tiers[i].section) != Trimmed(req.tiers[j].section)
  }

  lemma SectionsThere(shop: Shop, req: EventRequest)
    ensures AllThere(shop, req)
            <==> forall i :: 0 <= i < |req.tiers| ==> req.tiers[i].section in SectionsOf(shop.seats, req.venueId)
  {
    forall section
      ensures section in SectionsOf(shop.seats, req.venueId) <==> HasSection(shop, req.venueId, section)
    {
    }
    hide SectionsOf, HasSection;
    forall i | 0 <= i < |req.tiers| ensures req.tiers[i] in req.tiers {
    }
  }

  /** Every answer to a request for an event, with exactly its condition. */
  lemma CreatedExactly(shop: Shop, organizer: string, req: EventRequest)
    ensures var r := CreateEventTx(shop, organizer, req);
            var known := Sound(req) && req.venueId in shop.venues;
            && (r == Err(BadRequest) <==> !Sound(req) || (known && !AllThere(shop, req)))
            && (r == Err(NotFound) <==> Sound(req) && req.venueId !in shop.venues)
            && (r == Err(ConstraintViolated) <==> known && AllThere(shop, req) && !Storable(req))
            && (r.Ok? <==> known && AllThere(shop, req) && Storable(req))
  {
    SoundIsGood(req);
    SectionsThere(shop, req);
    hide Sound, GoodRequest, AllThere, SectionsOf, TiersInserted, Trimmed;
  }

  /**
   What an accepted request leaves: one new draft of the caller's, at version 1, as the request describes it with the
   space around names dropped and times cut to the microsecond, and one new tier for each of those asked for, in order.
   */
  lemma CreatedLeaves(shop: Shop, organizer: string, req: EventRequest)
    requires CreateEventTx(shop, organizer, req).Ok?
    requires forall p :: p in shop.tiers ==> p < shop.nextTier
    ensures var (shop', e) := CreateEventTx(shop, organizer, req).value; var first := shop.nextTier;
            && e == shop.nextEvent
            && shop' == shop.(
                 events := shop.events[e := Event(req.venueId, organizer, Trimmed(req.title), req.description,
                                                  Trimmed(req.category), T.Draft, 1, req.startsAt / 1000,
                                                  req.endsAt / 1000, req.onsaleAt / 1000)],
                 nextEvent := e + 1, tiers := shop'.tiers, nextTier := first + |req.tiers|)
            && (forall p :: p in shop'.tiers <==> p in shop.tiers || first <= p < first + |req.tiers|)
            && (forall p :: p in shop.tiers ==> shop'.tiers[p] == shop.tiers[p])
            && (forall i :: 0 <= i < |req.tiers| ==>
                  shop'.tiers[first + i] == Tier(e, Trimmed(req.tiers[i].section), req.tiers[i].price))
  {
    P.TiersAdded(shop.tiers, shop.nextTier, shop.nextEvent, req.tiers);
    hide TiersInserted, Trimmed, GoodRequest, SectionsOf;
  }

  // ---------- editing an event ----------

  predicate OwnEvent(shop: Shop, organizer: string, e: int) {
    e in shop.events && shop.events[e].organizer == organizer
  }

  /** The edit names a field, and none that must not be blank is. */
  predicate SoundEdit(edit: Edit) {
    && !(edit.title.None? && edit.description.None? && edit.category.None?)
    && (edit.title.Some? ==> !Blank(edit.title.value))
    && (edit.category.Some? ==> !Blank(edit.category.value))
  }

  /**
   Only its organizer edits an event, published or not. The fields given are replaced, the others stay, and the version
   goes up by one; nothing else changes.
   */
  lemma EditedExactly(shop: Shop, organizer: string, e: int, edit: Edit)
    ensures var r := UpdateEventTx(shop, organizer, e, edit);
            && (r == Err(BadRequest) <==> !SoundEdit(edit))
            && (r == Err(NotFound) <==> SoundEdit(edit) && !OwnEvent(shop, organizer, e))
            && (r.Ok? <==> SoundEdit(edit) && OwnEvent(shop, organizer, e))
            && (r.Ok? ==>
                  && e in r.value.events
                  && var row, row' := shop.events[e], r.value.events[e];
                  && r.value == shop.(events := shop.events[e := row'])
                  && row' == row.(title := row'.title, description := row'.description, category := row'.category,
                                  version := row.version + 1)
                  && row'.title == (if edit.title.Some? then Trimmed(edit.title.value) else row.title)
                  && row'.description == (if edit.description.Some? then edit.description.value else row.description)
                  && row'.category == (if edit.category.Some? then Trimmed(edit.category.value) else row.category))
  {
    if edit.title.Some? {
      TrimmedBlank(edit.title.value);
    }
    if edit.category.Some? {
      TrimmedBlank(edit.category.value);
    }
    hide Trimmed, Blank;
  }

  // ---------- adding seats ----------

  /** Some event at the venue has been published. */
  predicate Announced(shop: Shop, v: int) {
    exists e :: e in shop.events && shop.events[e].venueId == v && shop.events[e].status != T.Draft
  }

  /** Every answer to a request for seats, with exactly its condition: the sections are judged first. */
  lemma SeatsAnsweredExactly(shop: Shop, v: int, specs: seq<S.SectionSpec>)
    ensures var r, laid := AddSeatsTx(shop, v, specs), S.Generated(specs);
            && (r == Err(Panicked) <==> laid == Err(S.NegativeCapacity))
            && (r == Err(BadRequest) <==> laid.Err? && laid.error != S.NegativeCapacity)
            && (r == Err(NotFound) <==> laid.Ok? && v !in shop.venues)
            && (r == Err(TopologyFrozen) <==> laid.Ok? && v in shop.venues && Announced(shop, v))
            && (r.Ok? <==> laid.Ok? && v in shop.venues && !Announced(shop, v))
  {
    hide S.Generated, SeatsInserted;
  }

  predicate IsSeat(row: Seat, v: int, spec: S.SeatSpec) {
    row == Seat(v, spec.section, spec.row, spec.number)
  }

  /**
   The venue then has the seats it had and those described, each once; the rows there before are untouched, nothing but
   the seats changes, and the answer is how many rows are new.
   */
  lemma SeatsLeave(shop: Shop, v: int, specs: seq<S.SectionSpec>)
    requires P.SeatsOk(shop) && AddSeatsTx(shop, v, specs).Ok?
    ensures var (shop', added) := AddSeatsTx(shop, v, specs).value; var laid := S.Generated(specs).value;
            && shop' == shop.(seats := shop'.seats, nextSeat := shop.nextSeat + added)
            && (forall s :: s in shop'.seats <==> s in shop.seats || shop.nextSeat <= s < shop.nextSeat + added)
            && (forall s :: s in shop.seats ==> shop'.seats[s] == shop.seats[s])
            && P.UniqueSeats(shop'.seats)
            && forall row :: row in shop'.seats.Values
                 <==> row in shop.seats.Values || exists k :: 0 <= k < |laid| && IsSeat(row, v, laid[k])
  {
    var laid := S.Generated(specs).value;
    var rows := SeatRows(v, laid);
    P.SeatsAdded(shop.seats, shop.nextSeat, rows);
    hide S.Generated, SeatsInserted;
    forall row
      ensures row in SeatsInserted(shop.seats, shop.nextSeat, rows).0.Values
              <==> row in shop.seats.Values || exists k :: 0 <= k < |laid| && IsSeat(row, v, laid[k])
    {
      P.RowsPresent(shop.seats, shop.nextSeat, rows, row);
      RowIsLaid(v, laid, row);
    }
  }

  lemma RowIsLaid(v: int, laid: seq<S.SeatSpec>, row: Seat)
    ensures row in SeatRows(v, laid) <==> exists k :: 0 <= k < |laid| && IsSeat(row, v, laid[k])
  {
    var rows := SeatRows(v, laid);
    if row in rows {
      var k :| 0 <= k < |rows| && rows[k] == row;
      assert IsSeat(row, v, laid[k]);
    }
    if exists k :: 0 <= k < |laid| && IsSeat(row, v, laid[k]) {
      var k :| 0 <= k < |laid| && IsSeat(row, v, laid[k]);
      assert rows[k] == row;
    }
  }

  // ---------- publishing ----------

  /** Some seat of the venue is in a section the event has no tier for. */
  predicate SeatWithoutTier(shop: Shop, e: int) {
    exists s :: s in shop.seats && e in shop.events && shop.seats[s].venueId == shop.events[e].venueId
                && !HasTier(shop, e, shop.seats[s].section)
  }

  predicate HasTier(shop: Shop, e: int, section: string) {
    exists p :: p in shop.tiers && shop.tiers[p].eventId == e && shop.tiers[p].section == section
  }

  predicate NoSeatAt(shop: Shop, v: int) {
    forall s :: s in shop.seats ==> shop.seats[s].venueId != v
  }

  lemma UnpricedIs(shop: Shop, e: int)
    requires e in shop.events
    ensures Unpriced(shop, e, shop.events[e].venueId) <==> SeatWithoutTier(shop, e)
    ensures SeatsOf(shop.seats, shop.events[e].venueId) == {} <==> NoSeatAt(shop, shop.events[e].venueId)
  {
    var v := shop.events[e].venueId;
    forall section
      ensures Matching(shop.tiers, e, section) == {} <==> !HasTier(shop, e, section)
    {
      if Matching(shop.tiers, e, section) != {} {
        var p := AnyMember(Matching(shop.tiers, e, section));
      }
      if HasTier(shop, e, section) {
        var p :| p in shop.tiers && shop.tiers[p].eventId == e && shop.tiers[p].section == section;
        assert p in Matching(shop.tiers, e, section);
      }
    }
    hide Matching, HasTier;
    if Unpriced(shop, e, v) {
      var section :| section in SectionsOf(shop.seats, v) && Matching(shop.tiers, e, section) == {};
      var s :| s in shop.seats && shop.seats[s].venueId == v && shop.seats[s].section == section;
    }
    if SeatWithoutTier(shop, e) {
      var s :| s in shop.seats && shop.seats[s].venueId == v && !HasTier(shop, e, shop.seats[s].section);
      assert shop.seats[s].section in SectionsOf(shop.seats, v);
    }
    if !NoSeatAt(shop, v) {
      var s :| s in shop.seats && shop.seats[s].venueId == v;
      assert s in SeatsOf(shop.seats, v);
    }
    if SeatsOf(shop.seats, v) != {} {
      var s := AnyMember(SeatsOf(shop.seats, v));
    }
  }

  /** Every answer to a publish, with exactly its condition; a venue without seats has no unpriced one. */
  lemma PublishAnsweredExactly(shop: Shop, organizer: string, e: int)
    requires P.Inv(shop)
    ensures var r := PublishEventTx(shop, organizer, e);
            var own := OwnEvent(shop, organizer, e);
            var draft := own && shop.events[e].status == T.Draft;
            && (r == Err(NotFound) <==> !own)
            && (r == Err(AlreadyPublished) <==> own && shop.events[e].status != T.Draft)
            && (r == Err(UnpricedSection) <==> draft && SeatWithoutTier(shop, e))
            && (r == Err(Error.NoSeats) <==> draft && NoSeatAt(shop, shop.events[e].venueId))
            && (r.Ok? <==> draft && !SeatWithoutTier(shop, e) && !NoSeatAt(shop, shop.events[e].venueId))
  {
    P.PublishOutcome(shop, organizer, e);
    hide P.Inv, PublishEventTx, Unpriced, SeatsOf, SeatWithoutTier, NoSeatAt;
    if e in shop.events {
      UnpricedIs(shop, e);
      if NoSeatAt(shop, shop.events[e].venueId) {
        NoSeatIsPriced(shop, e);
      }
    }
  }

  lemma NoSeatIsPriced(shop: Shop, e: int)
    requires e in shop.events && NoSeatAt(shop, shop.events[e].venueId)
    ensures !SeatWithoutTier(shop, e)
  {
  }
}
