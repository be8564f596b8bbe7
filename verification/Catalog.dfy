/**
 The versioned event-view cache (catalog/catalog.go, catalog/cache.go) under any interleaving of reads, rebuilds shared
 by several readers, edits, evictions and cache failures.
 */
module Catalog {
  import opened Common
  import opened Text

  datatype TierPrice = TierPrice(tierId: int, section: string, price: int, seats: nat)

  /** The columns of an event's row that its page shows. */
  datatype Details = Details(
    venueId: int,
    title: string,
    description: string,
    category: string,
    startsAt: Time,
    endsAt: Time,
    onsaleAt: Time)

  /** What an event's row and its tiers say while one version is current. */
  datatype Snapshot = Snapshot(onSale: bool, details: Details, tiers: seq<TierPrice>)

  datatype View = View(eventId: int, version: nat, details: Details, tiers: seq<TierPrice>)

  datatype Key = Key(eventId: int, version: nat)

  /** A rebuild: waiting for a slot, holding one, having read the event row, built, or over. */
  datatype Flight =
    | Queued(key: Key)
    | Building(key: Key)
    | RowRead(key: Key, version: nat, details: Details)
    | Built(key: Key, view: View)
    | Landed(key: Key, view: View)
    | Failed(key: Key)

  datatype Read =
    | Versioned(eventId: int, version: nat)
    | Missed(eventId: int, version: nat)
    | Joined(eventId: int, version: nat, flight: nat)
    | Returned(eventId: int, version: nat, view: View)
    | Errored(eventId: int)

  /** `events` keeps every version an event has had, the last one current; version n is at index n - 1. */
  datatype State = State(
    events: map<int, seq<Snapshot>>,
    cache: map<Key, View>,
    flights: map<nat, Flight>,
    calls: map<nat, Read>,
    slots: nat)

  datatype Step =
    | CreateEvent(eventId: int, details: Details, tiers: seq<TierPrice>)
    | EditEvent(eventId: int, details: Details)
    | PublishEvent(eventId: int, tiers: seq<TierPrice>)
    | ReadVersion(read: nat, eventId: int)
    | GetCached(read: nat, reachable: bool)
    | StartFlight(read: nat, flight: nat)
    | JoinFlight(read: nat, flight: nat)
    | TakeSlot(flight: nat)
    | ReadRow(flight: nat)
    | ReadTiers(flight: nat)
    | BreakDown(flight: nat)
    | FillCache(flight: nat, stored: bool)
    | ReceiveView(read: nat)
    | Evict(key: Key)

  const DB_FALLBACK_LIMIT: nat := 64

  function Current(s: State, e: int): nat {
    if e in s.events then |s.events[e]| else 0
  }

  function VersionOf(versions: seq<Snapshot>, e: int, n: nat): View
    requires 0 < n <= |versions|
  {
    View(e, n, versions[n - 1].details, versions[n - 1].tiers)
  }

  predicate Visible(s: State, e: int) {
    e in s.events && s.events[e] != [] && s.events[e][|s.events[e]| - 1].onSale
  }

  /** The body a reader of the database would be given at this instant. */
  function CurrentView(s: State, e: int): Option<View> {
    if Visible(s, e) then Some(VersionOf(s.events[e], e, |s.events[e]|)) else None
  }

  function Latest(s: State, e: int): Snapshot
    requires e in s.events && s.events[e] != []
  {
    s.events[e][|s.events[e]| - 1]
  }

  predicate Busy(f: Flight) {
    f.Building? || f.RowRead?
  }

  predicate InFlight(f: Flight) {
    f.Queued? || f.Building? || f.RowRead? || f.Built?
  }

  // ---------- the steps; a step whose guard fails changes nothing ----------

  /** Any change to an event appends a version in the same transaction. */
  function Write(s: State, e: int, snapshot: Snapshot): State
    requires e in s.events
  {
    s.(events := s.events[e := s.events[e] + [snapshot]])
  }

  function EditStep(s: State, e: int, details: Details): State {
    if e !in s.events || s.events[e] == [] then s
    else Write(s, e, Latest(s, e).(details := details))
  }

  function PublishStep(s: State, e: int, tiers: seq<TierPrice>): State {
    if e !in s.events || s.events[e] == [] || Latest(s, e).onSale then s
    else Write(s, e, Latest(s, e).(onSale := true, tiers := tiers))
  }

  function ReadVersionStep(s: State, r: nat, e: int): State {
    if r in s.calls then s
    else s.(calls := s.calls[r := if Visible(s, e) then Versioned(e, |s.events[e]|) else Errored(e)])
  }

  function GetCachedStep(s: State, r: nat, reachable: bool): State {
    if r !in s.calls || !s.calls[r].Versioned? then s
    else
      var Versioned(e, v) := s.calls[r];
      s.(calls := s.calls[r := if reachable && Key(e, v) in s.cache then Returned(e, v, s.cache[Key(e, v)])
                               else Missed(e, v)])
  }

  function StartFlightStep(s: State, r: nat, f: nat): State {
    if r !in s.calls || !s.calls[r].Missed? || f in s.flights then s
    else
      var Missed(e, v) := s.calls[r];
      s.(flights := s.flights[f := Queued(Key(e, v))], calls := s.calls[r := Joined(e, v, f)])
  }

  function JoinFlightStep(s: State, r: nat, f: nat): State {
    if r !in s.calls || !s.calls[r].Missed? || f !in s.flights || !InFlight(s.flights[f]) then s
    else
      var Missed(e, v) := s.calls[r];
      if s.flights[f].key == Key(e, v) then s.(calls := s.calls[r := Joined(e, v, f)]) else s
  }

  /** A rebuild beyond the limit is shed, not queued. */
  function TakeSlotStep(s: State, f: nat): State {
    if f !in s.flights || !s.flights[f].Queued? then s
    else if s.slots < DB_FALLBACK_LIMIT
    then s.(flights := s.flights[f := Building(s.flights[f].key)], slots := s.slots + 1)
    else s.(flights := s.flights[f := Failed(s.flights[f].key)])
  }

  function GiveBack(slots: nat): nat {
    if slots > 0 then slots - 1 else 0
  }

  function ReadRowStep(s: State, f: nat): State {
    if f !in s.flights || !s.flights[f].Building? then s
    else
      var key := s.flights[f].key;
      if Visible(s, key.eventId)
      then s.(flights := s.flights[f := RowRead(key, Current(s, key.eventId), Latest(s, key.eventId).details)])
      else s.(flights := s.flights[f := Failed(key)], slots := GiveBack(s.slots))
  }

  /** A second statement: the tiers as they are now, not as they were when the row was read. */
  function ReadTiersStep(s: State, f: nat): State {
    if f !in s.flights || !s.flights[f].RowRead? then s
    else
      var RowRead(key, version, details) := s.flights[f];
      if key.eventId !in s.events || s.events[key.eventId] == [] then s
      else
        s.(flights := s.flights[f := Built(key, View(key.eventId, version, details, Latest(s, key.eventId).tiers))],
           slots := GiveBack(s.slots))
  }

  /** Cancelled before it had a slot, or failed while it had one. */
  function BreakDownStep(s: State, f: nat): State {
    if f !in s.flights || !(s.flights[f].Queued? || Busy(s.flights[f])) then s
    else if s.flights[f].Queued? then s.(flights := s.flights[f := Failed(s.flights[f].key)])
    else s.(flights := s.flights[f := Failed(s.flights[f].key)], slots := GiveBack(s.slots))
  }

  /** Stored under the key the reader asked for, whatever version the rebuild found. */
  function FillCacheStep(s: State, f: nat, stored: bool): State {
    if f !in s.flights || !s.flights[f].Built? then s
    else
      var Built(key, view) := s.flights[f];
      s.(flights := s.flights[f := Landed(key, view)], cache := if stored then s.cache[key := view] else s.cache)
  }

  function ReceiveStep(s: State, r: nat): State {
    if r !in s.calls || !s.calls[r].Joined? || s.calls[r].flight !in s.flights then s
    else
      var Joined(e, v, f) := s.calls[r];
      match s.flights[f]
      case Landed(_, view) => s.(calls := s.calls[r := Returned(e, v, view)])
      case Failed(_) => s.(calls := s.calls[r := Errored(e)])
      case _ => s
  }

  function Next(s: State, step: Step): State {
    match step
    case CreateEvent(e, details, tiers) =>
      if e in s.events then s else s.(events := s.events[e := [Snapshot(false, details, tiers)]])
    case EditEvent(e, details) => EditStep(s, e, details)
    case PublishEvent(e, tiers) => PublishStep(s, e, tiers)
    case ReadVersion(r, e) => ReadVersionStep(s, r, e)
    case GetCached(r, reachable) => GetCachedStep(s, r, reachable)
    case StartFlight(r, f) => StartFlightStep(s, r, f)
    case JoinFlight(r, f) => JoinFlightStep(s, r, f)
    case TakeSlot(f) => TakeSlotStep(s, f)
    case ReadRow(f) => ReadRowStep(s, f)
    case ReadTiers(f) => ReadTiersStep(s, f)
    case BreakDown(f) => BreakDownStep(s, f)
    case FillCache(f, stored) => FillCacheStep(s, f, stored)
    case ReceiveView(r) => ReceiveStep(s, r)
    case Evict(key) => s.(cache := s.cache - {key})
  }

  function Exec(s: State, steps: seq<Step>): State
    decreases |steps|
  {
    if steps == [] then s else Exec(Next(s, steps[0]), steps[1..])
  }

  const EMPTY: State := State(map[], map[], map[], map[], 0)

  // ---------- the invariant ----------

  type Events = map<int, seq<Snapshot>>

  predicate IsVersion(events: Events, e: int, n: nat) {
    e in events && 0 < n <= |events[e]|
  }

  /** A body no older than the key it is filed under, and really the event's body at its version. */
  predicate Genuine(events: Events, key: Key, view: View) {
    && IsVersion(events, key.eventId, view.version) && key.version <= view.version
    && events[key.eventId][view.version - 1].onSale
    && view == VersionOf(events[key.eventId], key.eventId, view.version)
  }

  /** Once on sale an event stays on sale, with the tiers it was published with. */
  predicate EventOk(versions: seq<Snapshot>) {
    && versions != []
    && forall m, n :: 0 <= m < n < |versions| && versions[m].onSale
         ==> versions[n].onSale && versions[n].tiers == versions[m].tiers
  }

  /** The row a rebuild has read was the event's row at some version no older than its key. */
  predicate FlightOk(events: Events, f: Flight) {
    && IsVersion(events, f.key.eventId, f.key.version)
    && match f
       case RowRead(key, version, details) =>
         && key.version <= version && IsVersion(events, key.eventId, version)
         && events[key.eventId][version - 1].onSale && events[key.eventId][version - 1].details == details
       case Built(key, view) => Genuine(events, key, view)
       case Landed(key, view) => Genuine(events, key, view)
       case _ => true
  }

  predicate ReadOk(events: Events, flights: map<nat, Flight>, read: Read) {
    match read
    case Versioned(e, v) => IsVersion(events, e, v)
    case Missed(e, v) => IsVersion(events, e, v)
    case Joined(e, v, f) => IsVersion(events, e, v) && f in flights && flights[f].key == Key(e, v)
    case Returned(e, v, view) => IsVersion(events, e, v) && Genuine(events, Key(e, v), view)
    case Errored(e) => true
  }

  ghost predicate EventsOk(events: Events) {
    forall e :: e in events ==> EventOk(events[e])
  }

  ghost predicate CacheOk(events: Events, cache: map<Key, View>) {
    forall key :: key in cache ==> Genuine(events, key, cache[key])
  }

  ghost predicate FlightsOk(events: Events, flights: map<nat, Flight>) {
    forall f :: f in flights ==> FlightOk(events, flights[f])
  }

  ghost predicate CallsOk(events: Events, flights: map<nat, Flight>, calls: map<nat, Read>) {
    forall r :: r in calls ==> ReadOk(events, flights, calls[r])
  }

  ghost predicate Inv(s: State) {
    && EventsOk(s.events) && CacheOk(s.events, s.cache)
    && FlightsOk(s.events, s.flights) && CallsOk(s.events, s.flights, s.calls)
  }

  /** Events only ever gain versions. */
  ghost predicate Grows(events: Events, events': Events) {
    && events.Keys <= events'.Keys
    && forall e :: e in events ==> events[e] <= events'[e]
  }

  lemma StaysVersion(events: Events, events': Events, e: int, n: nat)
    requires Grows(events, events') && IsVersion(events, e, n)
    ensures IsVersion(events', e, n) && events'[e][n - 1] == events[e][n - 1]
  {
    assert e in events'.Keys;
    assert events[e] <= events'[e];
  }

  lemma StaysGenuine(events: Events, events': Events, key: Key, view: View)
    requires Grows(events, events') && Genuine(events, key, view)
    ensures Genuine(events', key, view)
  {
    StaysVersion(events, events', key.eventId, view.version);
  }

  lemma FlightStaysOk(events: Events, events': Events, f: Flight)
    requires Grows(events, events') && FlightOk(events, f)
    ensures FlightOk(events', f)
  {
    StaysVersion(events, events', f.key.eventId, f.key.version);
    match f
    case RowRead(key, version, _) => StaysVersion(events, events', key.eventId, version);
    case Built(key, view) => StaysGenuine(events, events', key, view);
    case Landed(key, view) => StaysGenuine(events, events', key, view);
    case _ =>
  }

  lemma ReadStaysOk(events: Events, events': Events, flights: map<nat, Flight>, read: Read)
    requires Grows(events, events') && ReadOk(events, flights, read)
    ensures ReadOk(events', flights, read)
  {
    if !read.Errored? {
      StaysVersion(events, events', read.eventId, read.version);
    }
    if read.Returned? {
      StaysGenuine(events, events', Key(read.eventId, read.version), read.view);
    }
  }

  /** A write to an event invalidates nothing anyone holds. */
  lemma WriteKeepsInv(s: State, events: Events)
    requires Inv(s) && Grows(s.events, events) && EventsOk(events)
    ensures Inv(s.(events := events))
  {
    forall key | key in s.cache ensures Genuine(events, key, s.cache[key]) {
      StaysGenuine(s.events, events, key, s.cache[key]);
    }
    forall f | f in s.flights ensures FlightOk(events, s.flights[f]) {
      FlightStaysOk(s.events, events, s.flights[f]);
    }
    forall r | r in s.calls ensures ReadOk(events, s.flights, s.calls[r]) {
      ReadStaysOk(s.events, events, s.flights, s.calls[r]);
    }
  }

  lemma AppendKeepsEvents(events: Events, e: int, next: Snapshot)
    requires EventsOk(events) && e in events
    requires var last := events[e][|events[e]| - 1]; last.onSale ==> next.onSale && next.tiers == last.tiers
    ensures EventsOk(events[e := events[e] + [next]]) && Grows(events, events[e := events[e] + [next]])
  {
    var versions := events[e];
    var after := versions + [next];
    assert EventOk(versions);
    forall m, n | 0 <= m < n < |after| && after[m].onSale
      ensures after[n].onSale && after[n].tiers == after[m].tiers
    {
      if n == |versions| && m < |versions| - 1 {
        assert versions[|versions| - 1].onSale && versions[|versions| - 1].tiers == versions[m].tiers;
      }
    }
    assert EventOk(after);
  }

  lemma CreateKeepsInv(s: State, e: int, details: Details, tiers: seq<TierPrice>)
    requires Inv(s) && e !in s.events
    ensures var events := s.events[e := [Snapshot(false, details, tiers)]];
            Inv(s.(events := events)) && Grows(s.events, events)
  {
    WriteKeepsInv(s, s.events[e := [Snapshot(false, details, tiers)]]);
  }

  lemma WriteStepKeepsInv(s: State, e: int, next: Snapshot)
    requires Inv(s) && e in s.events && s.events[e] != []
    requires Latest(s, e).onSale ==> next.onSale && next.tiers == Latest(s, e).tiers
    ensures Inv(Write(s, e, next)) && Grows(s.events, Write(s, e, next).events)
  {
    AppendKeepsEvents(s.events, e, next);
    WriteKeepsInv(s, s.events[e := s.events[e] + [next]]);
  }

  /** What the row read at `version` and the tiers read now amount to: the event's body at that version. */
  lemma BuiltIsGenuine(events: Events, f: Flight)
    requires EventsOk(events) && FlightOk(events, f) && f.RowRead?
    ensures var e := f.key.eventId;
            && e in events && events[e] != []
            && Genuine(events, f.key, View(e, f.version, f.details, events[e][|events[e]| - 1].tiers))
  {
    var versions := events[f.key.eventId];
    assert EventOk(versions);
    assert f.version - 1 < |versions| - 1 ==> versions[|versions| - 1].tiers == versions[f.version - 1].tiers;
  }

  lemma FlightMoves(s: State, f: nat, flight: Flight)
    requires Inv(s) && FlightOk(s.events, flight)
    requires f in s.flights ==> flight.key == s.flights[f].key
    ensures FlightsOk(s.events, s.flights[f := flight]) && CallsOk(s.events, s.flights[f := flight], s.calls)
  {
    forall r | r in s.calls ensures ReadOk(s.events, s.flights[f := flight], s.calls[r]) {
      assert ReadOk(s.events, s.flights, s.calls[r]);
    }
  }

  lemma TakeSlotKeepsInv(s: State, f: nat)
    requires Inv(s)
    ensures Inv(TakeSlotStep(s, f)) && TakeSlotStep(s, f).events == s.events
  {
    if f in s.flights && s.flights[f].Queued? {
      assert FlightOk(s.events, s.flights[f]);
      FlightMoves(s, f, TakeSlotStep(s, f).flights[f]);
    }
  }

  lemma ReadRowKeepsInv(s: State, f: nat)
    requires Inv(s)
    ensures Inv(ReadRowStep(s, f)) && ReadRowStep(s, f).events == s.events
  {
    if f in s.flights && s.flights[f].Building? {
      assert FlightOk(s.events, s.flights[f]);
      FlightMoves(s, f, ReadRowStep(s, f).flights[f]);
    }
  }

  lemma ReadTiersKeepsInv(s: State, f: nat)
    requires Inv(s)
    ensures Inv(ReadTiersStep(s, f)) && ReadTiersStep(s, f).events == s.events
  {
    if f in s.flights && s.flights[f].RowRead? {
      BuiltIsGenuine(s.events, s.flights[f]);
      FlightMoves(s, f, ReadTiersStep(s, f).flights[f]);
    }
  }

  lemma BreakDownKeepsInv(s: State, f: nat)
    requires Inv(s)
    ensures Inv(BreakDownStep(s, f)) && BreakDownStep(s, f).events == s.events
  {
    if f in s.flights && (s.flights[f].Queued? || Busy(s.flights[f])) {
      assert FlightOk(s.events, s.flights[f]);
      FlightMoves(s, f, BreakDownStep(s, f).flights[f]);
    }
  }

  lemma FillStepKeepsInv(s: State, f: nat, stored: bool)
    requires Inv(s)
    ensures Inv(FillCacheStep(s, f, stored)) && FillCacheStep(s, f, stored).events == s.events
  {
    var s' := FillCacheStep(s, f, stored);
    if s'.flights != s.flights {
      assert FlightOk(s.events, s.flights[f]);
      FlightMoves(s, f, s'.flights[f]);
    }
  }

  lemma ReadVersionKeepsInv(s: State, r: nat, e: int)
    requires Inv(s)
    ensures Inv(ReadVersionStep(s, r, e)) && ReadVersionStep(s, r, e).events == s.events
  {
  }

  lemma GetCachedKeepsInv(s: State, r: nat, reachable: bool)
    requires Inv(s)
    ensures Inv(GetCachedStep(s, r, reachable)) && GetCachedStep(s, r, reachable).events == s.events
  {
    assert r in s.calls ==> ReadOk(s.events, s.flights, s.calls[r]);
  }

  lemma StartFlightKeepsInv(s: State, r: nat, f: nat)
    requires Inv(s)
    ensures Inv(StartFlightStep(s, r, f)) && StartFlightStep(s, r, f).events == s.events
  {
    var s' := StartFlightStep(s, r, f);
    if s'.calls != s.calls {
      assert ReadOk(s.events, s.flights, s.calls[r]);
      FlightMoves(s, f, s'.flights[f]);
    }
  }

  lemma JoinFlightKeepsInv(s: State, r: nat, f: nat)
    requires Inv(s)
    ensures Inv(JoinFlightStep(s, r, f)) && JoinFlightStep(s, r, f).events == s.events
  {
    assert r in s.calls ==> ReadOk(s.events, s.flights, s.calls[r]);
  }

  lemma ReceiveKeepsInv(s: State, r: nat)
    requires Inv(s)
    ensures Inv(ReceiveStep(s, r)) && ReceiveStep(s, r).events == s.events
  {
    if r in s.calls && s.calls[r].Joined? && s.calls[r].flight in s.flights {
      assert ReadOk(s.events, s.flights, s.calls[r]);
      assert FlightOk(s.events, s.flights[s.calls[r].flight]);
    }
  }

  lemma StepKeepsInv(s: State, step: Step)
    requires Inv(s)
    ensures Inv(Next(s, step)) && Grows(s.events, Next(s, step).events)
  {
    match step
    case CreateEvent(e, details, tiers) =>
      if e !in s.events {
        CreateKeepsInv(s, e, details, tiers);
      }
    case EditEvent(e, details) =>
      if e in s.events && s.events[e] != [] {
        WriteStepKeepsInv(s, e, Latest(s, e).(details := details));
      }
    case PublishEvent(e, tiers) =>
      if e in s.events && s.events[e] != [] && !Latest(s, e).onSale {
        WriteStepKeepsInv(s, e, Latest(s, e).(onSale := true, tiers := tiers));
      }
    case FillCache(f, stored) => FillStepKeepsInv(s, f, stored);
    case TakeSlot(f) => TakeSlotKeepsInv(s, f);
    case ReadRow(f) => ReadRowKeepsInv(s, f);
    case ReadTiers(f) => ReadTiersKeepsInv(s, f);
    case BreakDown(f) => BreakDownKeepsInv(s, f);
    case Evict(key) =>
    case ReadVersion(r, e) => ReadVersionKeepsInv(s, r, e);
    case GetCached(r, reachable) => GetCachedKeepsInv(s, r, reachable);
    case StartFlight(r, f) => StartFlightKeepsInv(s, r, f);
    case JoinFlight(r, f) => JoinFlightKeepsInv(s, r, f);
    case ReceiveView(r) => ReceiveKeepsInv(s, r);
  }

  lemma GrowsTransitive(a: Events, b: Events, c: Events)
    requires Grows(a, b) && Grows(b, c)
    ensures Grows(a, c)
  {
    forall e | e in a ensures a[e] <= c[e] {
      assert e in b.Keys;
      assert a[e] <= b[e] && b[e] <= c[e];
    }
  }

  lemma {:induction false} RunKeepsInv(s: State, steps: seq<Step>)
    requires Inv(s)
    ensures Inv(Exec(s, steps)) && Grows(s.events, Exec(s, steps).events)
    decreases |steps|
  {
    if steps == [] {
    } else {
      StepKeepsInv(s, steps[0]);
      RunKeepsInv(Next(s, steps[0]), steps[1..]);
      GrowsTransitive(s.events, Next(s, steps[0]).events, Exec(s, steps).events);
    }
  }

  // ---------- every read returns a body that was current while it ran ----------

  lemma OneVersionAStep(s: State, step: Step, e: int)
    ensures Current(Next(s, step), e) <= Current(s, e) + 1
  {
  }

  /** Versions are not skipped: every one between the ends of a run was current at some instant of it. */
  lemma {:induction false} EveryVersionHasItsInstant(s: State, steps: seq<Step>, e: int, n: nat)
    requires Current(s, e) <= n <= Current(Exec(s, steps), e)
    ensures exists m :: 0 <= m <= |steps| && Current(Exec(s, steps[..m]), e) == n
    decreases |steps|
  {
    if Current(s, e) == n {
      assert Exec(s, steps[..0]) == s;
    } else {
      assert steps != [];
      var s1, rest := Next(s, steps[0]), steps[1..];
      OneVersionAStep(s, steps[0], e);
      EveryVersionHasItsInstant(s1, rest, e, n);
      var m :| 0 <= m <= |rest| && Current(Exec(s1, rest[..m]), e) == n;
      assert steps[..m + 1][1..] == rest[..m] && steps[..m + 1][0] == steps[0];
      assert Exec(s, steps[..m + 1]) == Exec(s1, rest[..m]);
    }
  }

  /** The version a call that had not begun at `s` carries is no older than the event was at `s`. */
  predicate NotOlder(s: State, now: State, r: nat) {
    r in now.calls && !now.calls[r].Errored? ==>
      Current(s, now.calls[r].eventId) <= now.calls[r].version
  }

  lemma VersionReadIsNotOlder(s: State, now: State, r: nat, read: nat, e: int)
    requires NotOlder(s, now, r) && Grows(s.events, now.events)
    ensures NotOlder(s, ReadVersionStep(now, read, e), r)
  {
    if read == r && e in s.events {
      assert e in now.events.Keys;
      assert s.events[e] <= now.events[e];
    }
  }

  /** A call that has begun keeps its event and its key's version until it fails. */
  lemma CallsKeepTheirKey(now: State, step: Step, r: nat)
    requires !step.ReadVersion? && r in Next(now, step).calls
    ensures r in now.calls
    ensures var call, call' := now.calls[r], Next(now, step).calls[r];
            call'.Errored? || (!call.Errored? && call'.eventId == call.eventId && call'.version == call.version)
  {
  }

  lemma StepStaysNotOlder(s: State, now: State, step: Step, r: nat)
    requires NotOlder(s, now, r) && Grows(s.events, now.events)
    ensures NotOlder(s, Next(now, step), r)
  {
    if step.ReadVersion? {
      VersionReadIsNotOlder(s, now, r, step.read, step.eventId);
    } else if r in Next(now, step).calls {
      CallsKeepTheirKey(now, step, r);
    }
  }

  lemma {:induction false} RunStaysNotOlder(s: State, now: State, steps: seq<Step>, r: nat)
    requires Inv(now) && NotOlder(s, now, r) && Grows(s.events, now.events)
    ensures NotOlder(s, Exec(now, steps), r)
    decreases |steps|
  {
    if steps == [] {
    } else {
      StepStaysNotOlder(s, now, steps[0], r);
      StepKeepsInv(now, steps[0]);
      GrowsTransitive(s.events, now.events, Next(now, steps[0]).events);
      RunStaysNotOlder(s, Next(now, steps[0]), steps[1..], r);
    }
  }

  lemma InitialInv()
    ensures Inv(EMPTY)
  {
  }

  /**
   Linearizability: whatever was evicted, failed, shared or stored under an older key meanwhile, a call that had not
   begun when `during` started and has returned a view at its end returned the body of its event at an instant between.
   */
  lemma ReadsAreLinearizable(before: seq<Step>, s: State, during: seq<Step>, s': State, r: nat)
    requires s == Exec(EMPTY, before) && s' == Exec(s, during)
    requires r !in s.calls && r in s'.calls && s'.calls[r].Returned?
    ensures exists m :: 0 <= m <= |during|
                        && CurrentView(Exec(s, during[..m]), s'.calls[r].eventId) == Some(s'.calls[r].view)
  {
    InitialInv();
    RunKeepsInv(EMPTY, before);
    RunKeepsInv(s, during);
    RunStaysNotOlder(s, s, during, r);
    assert ReadOk(s'.events, s'.flights, s'.calls[r]);
    var Returned(e, v, view) := s'.calls[r];
    EveryVersionHasItsInstant(s, during, e, view.version);
    var m :| 0 <= m <= |during| && Current(Exec(s, during[..m]), e) == view.version;
    SameBodyThen(s, during, m, e, view);
  }

  lemma SameBodyThen(s: State, steps: seq<Step>, m: nat, e: int, view: View)
    requires Inv(s) && m <= |steps| && Current(Exec(s, steps[..m]), e) == view.version
    requires view.eventId == e && Genuine(Exec(s, steps).events, Key(e, 1), view)
    ensures CurrentView(Exec(s, steps[..m]), e) == Some(view)
  {
    var mid := Exec(s, steps[..m]);
    RunKeepsInv(s, steps[..m]);
    ExecSplit(s, steps, m);
    RunKeepsInv(mid, steps[m..]);
    assert IsVersion(mid.events, e, view.version);
    StaysVersion(mid.events, Exec(s, steps).events, e, view.version);
  }

  lemma {:induction false} ExecSplit(s: State, steps: seq<Step>, m: nat)
    requires m <= |steps|
    ensures Exec(s, steps) == Exec(Exec(s, steps[..m]), steps[m..])
    decreases m
  {
    if m == 0 {
      assert steps[0..] == steps;
    } else {
      assert steps[..m][1..] == steps[1..][..m - 1];
      assert steps[m..] == steps[1..][m - 1..];
      ExecSplit(Next(s, steps[0]), steps[1..], m - 1);
    }
  }

  // ---------- bounded rebuilds ----------

  function BusyFlights(flights: map<nat, Flight>): set<nat> {
    set f | f in flights && Busy(flights[f])
  }

  ghost predicate SlotsOk(s: State) {
    s.slots == |BusyFlights(s.flights)| <= DB_FALLBACK_LIMIT
  }

  lemma BusyAfter(flights: map<nat, Flight>, f: nat, flight: Flight)
    ensures BusyFlights(flights[f := flight])
            == if Busy(flight) then BusyFlights(flights) + {f} else BusyFlights(flights) - {f}
  {
    var flights' := flights[f := flight];
    forall g | g != f ensures g in BusyFlights(flights') <==> g in BusyFlights(flights) {
    }
  }

  function Counted(flights: map<nat, Flight>, f: nat): nat {
    if f in flights && Busy(flights[f]) then 1 else 0
  }

  lemma SlotIsHeld(s: State, f: nat)
    requires SlotsOk(s)
    ensures Counted(s.flights, f) <= s.slots
  {
    if Counted(s.flights, f) == 1 {
      SubsetSize({f}, BusyFlights(s.flights));
    }
  }

  lemma FlightKeepsSlots(s: State, s': State, f: nat)
    requires SlotsOk(s) && f in s'.flights && s'.flights == s.flights[f := s'.flights[f]]
    requires s'.slots + Counted(s.flights, f) == s.slots + Counted(s'.flights, f) && s'.slots <= DB_FALLBACK_LIMIT
    ensures SlotsOk(s')
  {
    BusyAfter(s.flights, f, s'.flights[f]);
    assert f in BusyFlights(s.flights) <==> f in s.flights && Busy(s.flights[f]);
  }

  predicate MovesFlight(step: Step) {
    step.StartFlight? || step.TakeSlot? || step.ReadRow? || step.ReadTiers? || step.BreakDown? || step.FillCache?
  }

  lemma OthersMoveNoFlight(s: State, step: Step)
    requires !MovesFlight(step)
    ensures Next(s, step).flights == s.flights && Next(s, step).slots == s.slots
  {
  }

  lemma StepKeepsSlots(s: State, step: Step)
    requires SlotsOk(s)
    ensures SlotsOk(Next(s, step))
  {
    if MovesFlight(step) {
      var s', f := Next(s, step), step.flight;
      SlotIsHeld(s, f);
      hide BusyFlights;
      if s'.flights != s.flights {
        FlightKeepsSlots(s, s', f);
      }
    } else {
      OthersMoveNoFlight(s, step);
    }
  }

  /** Never more than 64 rebuilds read the database at once, and every slot taken is given back. */
  lemma {:induction false} RebuildsAreBounded(s: State, steps: seq<Step>)
    requires SlotsOk(s)
    ensures SlotsOk(Exec(s, steps))
    decreases |steps|
  {
    if steps == [] {
    } else {
      StepKeepsSlots(s, steps[0]);
      RebuildsAreBounded(Next(s, steps[0]), steps[1..]);
    }
  }

  // ---------- single-flight keys ----------

  function CacheKeyString(key: Key): string {
    "event-view/" + Decimal(key.eventId) + "/v/" + Decimal(key.version)
  }

  function AvailabilityKeyString(eventId: int): string {
    "availability/" + Decimal(eventId)
  }

  lemma DecimalShape(n: int)
    ensures Decimal(n) != [] && forall i :: 0 <= i < |Decimal(n)| ==> Decimal(n)[i] != '/'
  {
    hide Digits;
    var digits := Digits(if n < 0 then -n else n);
    assert forall i :: 0 <= i < |digits| ==> IsDigit(digits[i]);
  }

  /** Cutting at the first slash is unambiguous when neither head has one. */
  lemma SplitAtSlash(a: string, b: string, x: string, y: string)
    requires a + "/" + x == b + "/" + y
    requires (forall i :: 0 <= i < |a| ==> a[i] != '/') && forall i :: 0 <= i < |b| ==> b[i] != '/'
    ensures a == b && x == y
  {
    var s := a + "/" + x;
    assert s[|a|] == '/' && s[|b|] == '/';
    assert forall i :: 0 <= i < |a| ==> s[i] == a[i];
    assert forall i :: 0 <= i < |b| ==> s[i] == b[i];
    assert a == s[..|a|] && b == s[..|b|];
    assert x == s[|a| + 1..] && y == s[|b| + 1..];
  }

  /** The key string without its constant head. */
  function KeyTail(key: Key): string {
    Decimal(key.eventId) + "/" + ("v/" + Decimal(key.version))
  }

  lemma KeyStringTail(key: Key)
    ensures CacheKeyString(key) == "event-view/" + KeyTail(key)
  {
    var e, v := Decimal(key.eventId), Decimal(key.version);
    assert "event-view/" + e + "/v/" + v == "event-view/" + (e + "/v/" + v);
    assert "/v/" == "/" + "v/";
    assert e + "/v/" + v == e + "/" + ("v/" + v);
  }

  lemma SameTail(head: string, a: string, b: string)
    requires head + a == head + b
    ensures a == b
  {
    assert (head + a)[|head|..] == a && (head + b)[|head|..] == b;
  }

  lemma KeyTailInjective(k: Key, l: Key)
    requires KeyTail(k) == KeyTail(l)
    ensures k == l
  {
    DecimalShape(k.eventId);
    DecimalShape(l.eventId);
    SplitAtSlash(Decimal(k.eventId), Decimal(l.eventId), "v/" + Decimal(k.version), "v/" + Decimal(l.version));
    DecimalInjective(k.eventId, l.eventId);
    SameTail("v/", Decimal(k.version), Decimal(l.version));
    DecimalInjective(k.version, l.version);
  }

  /** Rebuilds share a result only for the same event and version, never across an edit, nor with availability. */
  lemma FlightKeysAreDistinct(k: Key, l: Key, e: int)
    ensures CacheKeyString(k) == CacheKeyString(l) ==> k == l
    ensures CacheKeyString(k) != AvailabilityKeyString(e)
  {
    KeyStringTail(k);
    KeyStringTail(l);
    assert CacheKeyString(k)[0] == 'e' && AvailabilityKeyString(e)[0] == 'a';
    if CacheKeyString(k) == CacheKeyString(l) {
      SameTail("event-view/", KeyTail(k), KeyTail(l));
      KeyTailInjective(k, l);
    }
  }

  // ---------- one call, undisturbed ----------

  datatype ViewResult = NotFound | Unavailable | Broken | Found(view: View)

  /** What the request for a rebuild slot meets: a free one, a cancelled request, or none left. */
  datatype Slot = Free | Cancelled | Full

  function SeatSum(tiers: seq<TierPrice>): nat {
    if tiers == [] then 0 else SeatSum(tiers[..|tiers| - 1]) + tiers[|tiers| - 1].seats
  }

  class EventViews {
    var events: Events
    var cache: map<Key, View>

    constructor (events: Events)
      ensures this.events == events && cache == map[]
    {
      this.events, cache := events, map[];
    }

    ghost predicate Valid()
      reads this
    {
      EventsOk(events) && CacheOk(events, cache)
    }

    /** Reads the row, then appends the tiers one by one and sums their seats. */
    method BuildEventView(e: int) returns (view: View, totalSeats: nat)
      requires e in events && events[e] != []
      ensures view == VersionOf(events[e], e, |events[e]|)
      ensures totalSeats == SeatSum(view.tiers)
    {
      var row := events[e][|events[e]| - 1];
      var tiers: seq<TierPrice> := [];
      totalSeats := 0;
      for i := 0 to |row.tiers|
        invariant tiers == row.tiers[..i] && totalSeats == SeatSum(tiers)
      {
        assert (tiers + [row.tiers[i]])[..|tiers|] == tiers;
        totalSeats := totalSeats + row.tiers[i].seats;
        tiers := tiers + [row.tiers[i]];
      }
      view := View(e, |events[e]|, row.details, tiers);
    }

    ghost predicate Hits(e: int, reachable: bool)
      reads this
    {
      reachable && e in events && Key(e, |events[e]|) in cache
    }

    /**
     The version first, then the cache, then a rebuild: left alone, a call returns the current body or none, whether it
     hit or missed and whatever older bodies the cache still holds. It reports a missing event, shed load and a failed
     query or cancelled request apart, each exactly when that happened. `connected` and `builds` say whether the
     version query and the rebuild succeed.
     */
    method EventView(e: int, connected: bool, reachable: bool, slot: Slot, builds: bool, stored: bool)
      returns (r: ViewResult)
      requires Valid()
      modifies this`cache
      ensures Valid()
      ensures var s := State(events, old(cache), map[], map[], 0);
              var missed := Visible(s, e) && !old(Hits(e, reachable));
              && (r.NotFound? <==> connected && !Visible(s, e))
              && (r.Unavailable? <==> connected && missed && slot == Full)
              && (r.Broken? <==> !connected || (missed && (slot == Cancelled || (slot == Free && !builds))))
              && (r.Found? ==> CurrentView(s, e) == Some(r.view))
      ensures cache == if r.Found? && stored && !old(Hits(e, reachable))
                       then old(cache)[Key(e, r.view.version) := r.view] else old(cache)
    {
      if !connected {
        return Broken;
      }
      if e !in events || events[e] == [] || !events[e][|events[e]| - 1].onSale {
        return NotFound;
      }
      var key := Key(e, |events[e]|);
      if reachable && key in cache {
        assert Genuine(events, key, cache[key]);
        return Found(cache[key]);
      }
      match slot {
        case Cancelled => return Broken;
        case Full => return Unavailable;
        case Free =>
      }
      if !builds {
        return Broken;
      }
      var view, _ := BuildEventView(e);
      if stored {
        cache := cache[key := view];
      }
      return Found(view);
    }
  }
}
