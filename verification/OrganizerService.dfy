/** The organizer service, its transactions statement by statement (organizer/events.go, organizer/venues.go). */
module OrganizerService {
  import opened Common
  import opened Inventory
  import opened Text
  import S = Seatmap
  import T = Tables

  /** The loop over a request's tiers: the sections seen, as given, or nothing on the first complaint. */
  method CheckTiers(specs: seq<TierSpec>) returns (seen: Option<set<string>>)
    ensures seen.Some? <==> GoodTiers(specs)
    ensures seen.Some? ==> forall section :: section in seen.value <==> SectionAsked(specs, section)
  {
    var sections: set<string> := {};
    for i := 0 to |specs|
      invariant GoodTiers(specs[..i])
      invariant forall section :: section in sections <==> exists k :: 0 <= k < i && specs[k].section == section
    {
      var tier := specs[i];
      assert specs[..i + 1] == specs[..i] + [tier];
      if Trimmed(tier.section) == "" || tier.price < 0 {
        return None;
      }
      if tier.section in sections {
        return None;
      }
      sections := sections + {tier.section};
    }
    assert specs[..|specs|] == specs;
    return Some(sections);
  }

  /** The checks that need no table: the sections seen, or nothing. */
  method CheckRequest(req: EventRequest) returns (seen: Option<set<string>>)
    ensures seen.Some? <==> GoodRequest(req)
    ensures seen.Some? ==> forall section :: section in seen.value <==> SectionAsked(req.tiers, section)
  {
    if req.venueId <= 0 || Trimmed(req.title) == "" || Trimmed(req.category) == "" {
      return None;
    }
    if req.startsAt == ZERO_NANOS || req.endsAt == ZERO_NANOS || req.onsaleAt == ZERO_NANOS {
      return None;
    }
    if !(req.endsAt > req.startsAt) || req.onsaleAt > req.startsAt || |req.tiers| == 0 {
      return None;
    }
    seen := CheckTiers(req.tiers);
  }

  /** One more section differs from those before it exactly when its trimmed text does. */
  lemma AnotherDistinct(specs: seq<TierSpec>, sections: seq<string>, i: nat)
    requires i < |specs| == |sections| && DistinctTrimmed(specs[..i])
    requires forall k :: 0 <= k < |specs| ==> sections[k] == Trimmed(specs[k].section)
    ensures DistinctTrimmed(specs[..i + 1]) <==> sections[i] !in sections[..i]
    ensures DistinctTrimmed(specs) ==> DistinctTrimmed(specs[..i + 1])
  {
    hide Trimmed;
    var longer := specs[..i + 1];
    forall k, l | 0 <= k < l < i
      ensures Trimmed(longer[k].section) != Trimmed(longer[l].section)
    {
      assert specs[..i][k] == longer[k] && specs[..i][l] == longer[l];
    }
    assert forall k :: 0 <= k < i ==> sections[..i][k] == Trimmed(longer[k].section);
  }

  /** Whether every section asked for exists among those of the venue, asked one at a time in any order. */
  method AllExist(asked: set<string>, sections: set<string>) returns (ok: bool)
    ensures ok <==> asked <= sections
  {
    var rest := asked;
    while rest != {}
      invariant rest <= asked && asked - rest <= sections
      decreases |rest|
    {
      var section :| section in rest;
      if section !in sections {
        return false;
      }
      rest := rest - {section};
    }
    return true;
  }

  /** The rows of three parallel arrays. */
  function Unnest(v: int, sections: seq<string>, rowLabels: seq<string>, numbers: seq<int>): seq<Seat>
    requires |sections| == |rowLabels| == |numbers|
  {
    seq(|sections|, i requires 0 <= i < |sections| => Seat(v, sections[i], rowLabels[i], numbers[i]))
  }

  /** The loop that fills the parallel arrays. */
  method Columns(rows: seq<S.SeatSpec>) returns (sections: seq<string>, rowLabels: seq<string>, numbers: seq<int>)
    ensures |sections| == |rowLabels| == |numbers| == |rows|
    ensures forall k :: 0 <= k < |rows| ==> rows[k] == S.SeatSpec(sections[k], rowLabels[k], numbers[k])
  {
    var ss, rs, ns := new string[|rows|], new string[|rows|], new int[|rows|];
    for i := 0 to |rows|
      invariant forall k :: 0 <= k < i ==> rows[k] == S.SeatSpec(ss[k], rs[k], ns[k])
    {
      ss[i], rs[i], ns[i] := rows[i].section, rows[i].row, rows[i].number;
    }
    return ss[..], rs[..], ns[..];
  }

  class Service {
    var venues: set<int>
    var seats: map<int, Seat>
    var nextSeat: int
    var events: map<int, Event>
    var nextEvent: int
    var tiers: map<int, Tier>
    var nextTier: int
    var stock: Stock

    ghost function Rows(): Shop
      reads this
    {
      Shop(venues, seats, nextSeat, events, nextEvent, tiers, nextTier, stock)
    }

    constructor ()
      ensures Rows() == EMPTY
    {
      venues, seats, nextSeat, events, nextEvent, tiers, nextTier, stock :=
        {}, map[], 1, map[], 1, map[], 1, Stock(map[], map[], 1);
    }

    /** INSERT ... SELECT FROM unnest(...) ON CONFLICT DO NOTHING. */
    method InsertSeats(v: int, sections: seq<string>, rowLabels: seq<string>, numbers: seq<int>)
      requires |sections| == |rowLabels| == |numbers|
      modifies this`seats, this`nextSeat
      ensures (seats, nextSeat) == SeatsInserted(old(seats), old(nextSeat), Unnest(v, sections, rowLabels, numbers))
    {
      ghost var rows := Unnest(v, sections, rowLabels, numbers);
      for i := 0 to |sections|
        invariant (seats, nextSeat) == SeatsInserted(old(seats), old(nextSeat), rows[..i])
      {
        assert rows[..i + 1][..i] == rows[..i];
        var row := Seat(v, sections[i], rowLabels[i], numbers[i]);
        if row !in seats.Values {
          seats := seats[nextSeat := row];
          nextSeat := nextSeat + 1;
        }
      }
      assert rows[..|rows|] == rows;
    }

    /** Whether any event at the venue has left DRAFT. */
    method IsFrozen(v: int) returns (frozen: bool)
      ensures frozen <==> Frozen(events, v)
    {
      var published := set e | e in events && events[e].venueId == v && events[e].status != T.Draft;
      frozen := |published| > 0;
      if frozen {
        var e := AnyMember(published);
      } else {
        assert forall e :: e in events && events[e].venueId == v && events[e].status != T.Draft ==> e in published;
      }
    }

    method AddSeats(v: int, specs: seq<S.SectionSpec>) returns (r: Result<int, Error>)
      modifies this
      ensures Rows() == Committed(old(Rows()), AddSeatsTx(old(Rows()), v, specs))
      ensures r == (var tx := AddSeatsTx(old(Rows()), v, specs); if tx.Ok? then Ok(tx.value.1) else Err(tx.error))
    {
      var generated := S.Generate(specs);
      if generated.Err? {
        return Err(GenerationError(generated.error));
      }
      if v !in venues {
        return Err(NotFound);
      }
      var frozen := IsFrozen(v);
      if frozen {
        return Err(TopologyFrozen);
      }
      var rows := generated.value;
      var sections, rowLabels, numbers := Columns(rows);
      var first := nextSeat;
      assert SeatRows(v, rows) == Unnest(v, sections, rowLabels, numbers);
      InsertSeats(v, sections, rowLabels, numbers);
      return Ok(nextSeat - first);
    }

    /** INSERT INTO price_tiers, refused as a whole by UNIQUE (event_id, section). */
    method InsertTiers(e: int, sections: seq<string>, prices: seq<int>, ghost specs: seq<TierSpec>) returns (ok: bool)
      requires |sections| == |prices| == |specs|
      requires forall i :: 0 <= i < |specs| ==> sections[i] == Trimmed(specs[i].section) && prices[i] == specs[i].price
      modifies this`tiers, this`nextTier
      ensures ok <==> DistinctTrimmed(specs)
      ensures ok ==> tiers == TiersInserted(old(tiers), old(nextTier), e, specs) && nextTier == old(nextTier) + |specs|
      ensures !ok ==> tiers == old(tiers) && nextTier == old(nextTier)
    {
      assert DistinctTrimmed(specs[..0]);
      hide Trimmed, DistinctTrimmed;
      var added := tiers;
      for i := 0 to |sections|
        invariant added == TiersInserted(old(tiers), old(nextTier), e, specs[..i])
        invariant DistinctTrimmed(specs[..i])
        invariant tiers == old(tiers) && nextTier == old(nextTier)
      {
        assert specs[..i + 1][..i] == specs[..i];
        AnotherDistinct(specs, sections, i);
        if sections[i] in sections[..i] {
          return false;
        }
        added := added[nextTier + i := Tier(e, sections[i], prices[i])];
      }
      assert specs[..|specs|] == specs;
      tiers, nextTier := added, nextTier + |sections|;
      return true;
    }

    method CreateEvent(organizer: string, req: EventRequest) returns (r: Result<int, Error>)
      modifies this
      ensures Rows() == Committed(old(Rows()), CreateEventTx(old(Rows()), organizer, req))
      ensures var tx := CreateEventTx(old(Rows()), organizer, req);
              r == if tx.Ok? then Ok(tx.value.1) else Err(tx.error)
    {
      hide Trimmed, GoodRequest, SectionsOf, TiersInserted, DistinctTrimmed;
      var seen := CheckRequest(req);
      if seen.None? {
        return Err(BadRequest);
      }
      if req.venueId !in venues {
        return Err(NotFound);
      }
      var exist := AllExist(seen.value, SectionsOf(seats, req.venueId));
      assert exist <==> !exists i :: 0 <= i < |req.tiers| && req.tiers[i].section !in SectionsOf(seats, req.venueId);
      if !exist {
        return Err(BadRequest);
      }
      if !StoredWindow(req) {
        return Err(ConstraintViolated);
      }
      var sections, prices := [], [];
      for i := 0 to |req.tiers|
        invariant |sections| == |prices| == i
        invariant forall k :: 0 <= k < i ==>
                    sections[k] == Trimmed(req.tiers[k].section) && prices[k] == req.tiers[k].price
      {
        sections, prices := sections + [Trimmed(req.tiers[i].section)], prices + [req.tiers[i].price];
      }
      var ok := InsertTiers(nextEvent, sections, prices, req.tiers);
      if !ok {
        return Err(ConstraintViolated);
      }
      events := events[nextEvent := NewEvent(organizer, req)];
      nextEvent := nextEvent + 1;
      return Ok(nextEvent - 1);
    }

    method UpdateEvent(organizer: string, e: int, edit: Edit) returns (r: Result<Event, Error>)
      modifies this`events
      ensures Rows() == Next(old(Rows()), Step.UpdateEvent(organizer, e, edit))
      ensures r.Ok? <==> UpdateEventTx(old(Rows()), organizer, e, edit).Ok?
      ensures r.Ok? ==> e in events && r.value == events[e]
      ensures r.Err? ==> r.error == UpdateEventTx(old(Rows()), organizer, e, edit).error
    {
      if edit.title.None? && edit.description.None? && edit.category.None? {
        return Err(BadRequest);
      }
      if edit.title.Some? && Trimmed(edit.title.value) == "" {
        return Err(BadRequest);
      }
      if edit.category.Some? && Trimmed(edit.category.value) == "" {
        return Err(BadRequest);
      }
      if e !in events || events[e].organizer != organizer {
        return Err(NotFound);
      }
      var row := events[e];
      if edit.title.Some? {
        row := row.(title := Trimmed(edit.title.value));
      }
      if edit.description.Some? {
        row := row.(description := edit.description.value);
      }
      if edit.category.Some? {
        row := row.(category := Trimmed(edit.category.value));
      }
      events := events[e := row.(version := row.version + 1)];
      return Ok(events[e]);
    }

    method InsertSeatTickets(e: int, s: int, joined: seq<int>) returns (created: int)
      modifies this`stock
      ensures stock == SeatTicketsInserted(old(stock), e, s, joined) && created == stock.next - old(stock.next)
    {
      created := 0;
      for k := 0 to |joined|
        invariant stock == SeatTicketsInserted(old(stock), e, s, joined[..k])
        invariant created == stock.next - old(stock.next)
      {
        assert joined[..k + 1][..k] == joined[..k];
        if !HasTicket(stock.tickets, e, s) {
          var n := stock.next;
          stock := Stock(stock.tickets[n := NewTicket(e, s)], stock.tierOf[n := joined[k]], n + 1);
          created := created + 1;
        }
      }
      assert joined[..|joined|] == joined;
    }

    /** INSERT INTO tickets ... SELECT FROM seats JOIN price_tiers ... ON CONFLICT DO NOTHING; returns how many. */
    method InsertTickets(e: int, v: int) returns (created: int)
      modifies this`stock
      ensures stock == Materialised(old(Rows()), e, v) && created == stock.next - old(stock.next)
    {
      hide Matching, SeatsOf, SeatTicketsInserted, InOrder;
      created := 0;
      var ids := InOrder(SeatsOf(seats, v));
      assert forall s :: s in ids ==> s in seats by {
        SeatsAreRows(seats, v);
      }
      for i := 0 to |ids|
        invariant forall s :: s in ids[..i] ==> s in seats
        invariant stock == TicketsInserted(old(stock), e, seats, tiers, ids[..i])
        invariant created == stock.next - old(stock.next)
      {
        var s := ids[i];
        assert s in ids && ids[..i + 1][..i] == ids[..i] && ids[..i + 1] == ids[..i] + [s];
        var n := InsertSeatTickets(e, s, InOrder(Matching(tiers, e, seats[s].section)));
        created := created + n;
      }
      assert ids[..|ids|] == ids;
    }

    /** The query for a section of the venue without a tier. */
    method AnyUnpriced(e: int, v: int) returns (found: bool)
      ensures found <==> Unpriced(Rows(), e, v)
    {
      var unpriced := set section | section in SectionsOf(seats, v) && Matching(tiers, e, section) == {};
      found := unpriced != {};
      if found {
        var section := AnyMember(unpriced);
      } else {
        assert forall section ::
            section in SectionsOf(seats, v) && Matching(tiers, e, section) == {} ==> section in unpriced;
      }
    }

    /** The checks before the insert, in the order they are made. */
    method CheckPublish(organizer: string, e: int) returns (refusal: Option<Error>)
      ensures refusal == PublishRefusal(Rows(), organizer, e)
    {
      if e !in events || events[e].organizer != organizer {
        return Some(NotFound);
      }
      if events[e].status != T.Draft {
        return Some(AlreadyPublished);
      }
      var unpriced := AnyUnpriced(e, events[e].venueId);
      if unpriced {
        return Some(UnpricedSection);
      }
      var seatCount := |SeatsOf(seats, events[e].venueId)|;
      if seatCount == 0 {
        return Some(NoSeats);
      }
      return None;
    }

    method PublishEvent(organizer: string, e: int) returns (r: Result<int, Error>)
      modifies this`events, this`stock
      ensures Rows() == Committed(old(Rows()), PublishEventTx(old(Rows()), organizer, e))
      ensures var tx := PublishEventTx(old(Rows()), organizer, e);
              r == if tx.Ok? then Ok(tx.value.1) else Err(tx.error)
    {
      var refusal := CheckPublish(organizer, e);
      if refusal.Some? {
        return Err(refusal.value);
      }
      r := Materialise(e);
    }

    /** The insert and the flip to ON_SALE; a count that does not match the seats rolls both back. */
    method Materialise(e: int) returns (r: Result<int, Error>)
      requires e in events
      modifies this`events, this`stock
      ensures (Rows(), r) == MaterialiseTx(old(Rows()), e)
    {
      ghost var shop := Rows();
      var row := events[e];
      var seatCount := |SeatsOf(seats, row.venueId)|;
      var before := stock;
      var created := InsertTickets(e, row.venueId);
      if created != seatCount {
        stock := before;
        assert Rows() == shop;
        return Err(Incomplete);
      }
      events := events[e := row.(status := T.OnSale, version := row.version + 1)];
      assert Rows() == shop.(stock := stock, events := shop.events[e := RowAfter(row)]);
      return Ok(created);
    }
  }
}
