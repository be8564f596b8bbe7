/** How one call for an event's page ends, hit, missed, shared or shed (catalog/catalog.go, catalog/cache.go). */
module CatalogCalls {
  import opened Common
  import opened Catalog

  // ---------- the steps of a call ----------

  /** From the version to the answer, with a rebuild of its own. */
  function OwnRebuild(r: nat, e: int, f: nat, reachable: bool, stored: bool): seq<Step> {
    UpToSlot(r, e, f, reachable) + UpToAnswer(r, f, stored)
  }

  function UpToSlot(r: nat, e: int, f: nat, reachable: bool): seq<Step> {
    [ReadVersion(r, e), GetCached(r, reachable), StartFlight(r, f), TakeSlot(f)]
  }

  function UpToAnswer(r: nat, f: nat, stored: bool): seq<Step> {
    [ReadRow(f), ReadTiers(f), FillCache(f, stored), ReceiveView(r)]
  }

  lemma ExecFour(s: State, a: Step, b: Step, c: Step, d: Step)
    ensures Exec(s, [a, b, c, d]) == Next(Next(Next(Next(s, a), b), c), d)
  {
    hide Next;
    assert [a, b, c, d][1..] == [b, c, d] && [b, c, d][1..] == [c, d] && [c, d][1..] == [d] && [d][1..] == [];
    assert Exec(Next(s, a), [b, c, d]) == Exec(Next(Next(s, a), b), [c, d]);
    assert Exec(Next(Next(Next(s, a), b), c), [d]) == Next(Next(Next(Next(s, a), b), c), d);
  }

  lemma ExecEight(s: State, first: seq<Step>, second: seq<Step>)
    requires |first| == 4 && |second| == 4
    ensures Exec(s, first + second) == Exec(Exec(s, first), second)
  {
    hide Next;
    assert (first + second)[..4] == first && (first + second)[4..] == second;
    ExecSplit(s, first + second, 4);
  }

  /** Nothing is known of the call or of the rebuild it may start. */
  predicate New(s: State, r: nat, f: nat) {
    r !in s.calls && f !in s.flights
  }

  /** The event's current version is in the cache and the cache can be reached. */
  predicate Hit(s: State, e: int, reachable: bool) {
    reachable && Key(e, Current(s, e)) in s.cache
  }

  // ---------- step by step ----------

  lemma VersionIsRead(s: State, r: nat, e: int)
    requires r !in s.calls && Visible(s, e)
    ensures Next(s, ReadVersion(r, e)) == s.(calls := s.calls[r := Versioned(e, Current(s, e))])
  {
  }

  lemma CacheMisses(s: State, r: nat, reachable: bool)
    requires r in s.calls && s.calls[r].Versioned?
    requires !(reachable && Key(s.calls[r].eventId, s.calls[r].version) in s.cache)
    ensures Next(s, GetCached(r, reachable))
            == s.(calls := s.calls[r := Missed(s.calls[r].eventId, s.calls[r].version)])
  {
  }

  lemma FlightStarts(s: State, r: nat, f: nat)
    requires r in s.calls && s.calls[r].Missed? && f !in s.flights
    ensures var Missed(e, v) := s.calls[r];
            Next(s, StartFlight(r, f))
            == s.(flights := s.flights[f := Queued(Key(e, v))], calls := s.calls[r := Joined(e, v, f)])
  {
  }

  /** The first three steps of a call that misses. */
  lemma MissedUpToFlight(s: State, r: nat, e: int, f: nat, reachable: bool)
    requires New(s, r, f) && Visible(s, e) && !Hit(s, e, reachable)
    ensures var v := Current(s, e);
            Next(Next(Next(s, ReadVersion(r, e)), GetCached(r, reachable)), StartFlight(r, f))
            == s.(calls := s.calls[r := Joined(e, v, f)], flights := s.flights[f := Queued(Key(e, v))])
  {
    VersionIsRead(s, r, e);
    hide Next, Visible;
    var s1 := Next(s, ReadVersion(r, e));
    CacheMisses(s1, r, reachable);
    var s2 := Next(s1, GetCached(r, reachable));
    FlightStarts(s2, r, f);
    assert s2.calls == s.calls[r := Missed(e, Current(s, e))];
  }

  lemma SlotIsTaken(s: State, f: nat)
    requires f in s.flights && s.flights[f].Queued?
    ensures Next(s, TakeSlot(f))
            == if s.slots < 64
               then s.(flights := s.flights[f := Building(s.flights[f].key)], slots := s.slots + 1)
               else s.(flights := s.flights[f := Failed(s.flights[f].key)])
  {
  }

  lemma MissedUpToSlot(s: State, r: nat, e: int, f: nat, reachable: bool)
    requires New(s, r, f) && Visible(s, e) && !Hit(s, e, reachable)
    ensures var key := Key(e, Current(s, e));
            Exec(s, UpToSlot(r, e, f, reachable))
            == if s.slots < 64
               then s.(calls := s.calls[r := Joined(e, key.version, f)], flights := s.flights[f := Building(key)],
                       slots := s.slots + 1)
               else s.(calls := s.calls[r := Joined(e, key.version, f)], flights := s.flights[f := Failed(key)])
  {
    ExecFour(s, ReadVersion(r, e), GetCached(r, reachable), StartFlight(r, f), TakeSlot(f));
    MissedUpToFlight(s, r, e, f, reachable);
    hide Next, Exec, Visible;
    var s3 := Next(Next(Next(s, ReadVersion(r, e)), GetCached(r, reachable)), StartFlight(r, f));
    SlotIsTaken(s3, f);
    var key := Key(e, Current(s, e));
    assert s3.flights[f := Building(key)] == s.flights[f := Building(key)];
    assert s3.flights[f := Failed(key)] == s.flights[f := Failed(key)];
  }

  lemma RowIsRead(s: State, f: nat, key: Key)
    requires f in s.flights && s.flights[f] == Building(key) && Visible(s, key.eventId)
    ensures Next(s, ReadRow(f))
            == s.(flights := s.flights[f := RowRead(key, Current(s, key.eventId), Latest(s, key.eventId).details)])
  {
  }

  lemma TiersAreRead(s: State, f: nat)
    requires f in s.flights && s.flights[f].RowRead? && s.slots > 0 && Visible(s, s.flights[f].key.eventId)
    ensures var RowRead(key, version, details) := s.flights[f];
            Next(s, ReadTiers(f))
            == s.(flights := s.flights[f := Built(key, View(key.eventId, version, details,
                                                            Latest(s, key.eventId).tiers))],
                  slots := s.slots - 1)
  {
  }

  lemma CacheIsFilled(s: State, f: nat, stored: bool)
    requires f in s.flights && s.flights[f].Built?
    ensures var Built(key, view) := s.flights[f];
            Next(s, FillCache(f, stored))
            == s.(flights := s.flights[f := Landed(key, view)],
                  cache := if stored then s.cache[key := view] else s.cache)
  {
  }

  lemma ViewIsReceived(s: State, r: nat)
    requires r in s.calls && s.calls[r].Joined? && s.calls[r].flight in s.flights
    requires s.flights[s.calls[r].flight].Landed? || s.flights[s.calls[r].flight].Failed?
    ensures var Joined(e, v, f) := s.calls[r];
            Next(s, ReceiveView(r))
            == s.(calls := s.calls[r := if s.flights[f].Landed? then Returned(e, v, s.flights[f].view)
                                        else Errored(e)])
  {
  }

  lemma SlotUpToView(s: State, e: int, f: nat, stored: bool)
    requires Visible(s, e) && s.slots > 0
    requires f in s.flights && s.flights[f] == Building(Key(e, Current(s, e)))
    ensures var key, view := Key(e, Current(s, e)), CurrentView(s, e).value;
            Next(Next(Next(s, ReadRow(f)), ReadTiers(f)), FillCache(f, stored))
            == s.(flights := s.flights[f := Landed(key, view)], slots := s.slots - 1,
                  cache := if stored then s.cache[key := view] else s.cache)
  {
    var key, view := Key(e, Current(s, e)), CurrentView(s, e).value;
    RowIsRead(s, f, key);
    hide Next;
    var s1 := Next(s, ReadRow(f));
    TiersAreRead(s1, f);
    var s2 := Next(s1, ReadTiers(f));
    assert s2.flights == s.flights[f := Built(key, view)];
    CacheIsFilled(s2, f, stored);
    assert s2.flights[f := Landed(key, view)] == s.flights[f := Landed(key, view)];
  }

  lemma SlotUpToAnswer(s: State, r: nat, e: int, f: nat, stored: bool)
    requires Visible(s, e) && s.slots > 0
    requires f in s.flights && s.flights[f] == Building(Key(e, Current(s, e)))
    requires r in s.calls && s.calls[r] == Joined(e, Current(s, e), f)
    ensures var key, view := Key(e, Current(s, e)), CurrentView(s, e).value;
            Exec(s, UpToAnswer(r, f, stored))
            == s.(calls := s.calls[r := Returned(e, key.version, view)], flights := s.flights[f := Landed(key, view)],
                  slots := s.slots - 1, cache := if stored then s.cache[key := view] else s.cache)
  {
    ExecFour(s, ReadRow(f), ReadTiers(f), FillCache(f, stored), ReceiveView(r));
    SlotUpToView(s, e, f, stored);
    hide Next, Exec, Visible, CurrentView;
    ViewIsReceived(Next(Next(Next(s, ReadRow(f)), ReadTiers(f)), FillCache(f, stored)), r);
  }

  // ---------- how a call ends ----------

  /**
   A call that misses the cache while a slot is free gets the event's current body from a rebuild of its own, gives the
   slot back, and leaves the body in the cache if it can be stored.
   */
  lemma MissIsRebuilt(s: State, r: nat, e: int, f: nat, reachable: bool, stored: bool)
    requires New(s, r, f) && Visible(s, e) && !Hit(s, e, reachable) && s.slots < DB_FALLBACK_LIMIT
    ensures var s', key := Exec(s, OwnRebuild(r, e, f, reachable, stored)), Key(e, Current(s, e));
            var view := CurrentView(s, e).value;
            && r in s'.calls && s'.calls[r] == Returned(e, key.version, view)
            && s'.events == s.events && s'.slots == s.slots
            && s'.cache == if stored then s.cache[key := view] else s.cache
  {
    var first := UpToSlot(r, e, f, reachable);
    ExecEight(s, first, UpToAnswer(r, f, stored));
    MissedUpToSlot(s, r, e, f, reachable);
    hide Next, Exec;
    SlotUpToAnswer(Exec(s, first), r, e, f, stored);
  }

  /** A call that hits the cache is answered from it, at no cost to the database. */
  lemma HitIsServed(s: State, r: nat, e: int)
    requires r !in s.calls && Visible(s, e) && Hit(s, e, true)
    ensures var s', v := Exec(s, [ReadVersion(r, e), GetCached(r, true)]), Current(s, e);
            s' == s.(calls := s.calls[r := Returned(e, v, s.cache[Key(e, v)])])
  {
    var a, b := ReadVersion(r, e), GetCached(r, true);
    assert [a, b][1..] == [b] && [b][1..] == [];
    assert Next(s, a) == s.(calls := s.calls[r := Versioned(e, Current(s, e))]);
    assert Exec(Next(s, a), [b]) == Next(Next(s, a), b);
  }

  /** The body a call leaves in the cache is what the next call for the event is given, until the event is edited. */
  lemma StoredIsServed(s: State, r: nat, e: int, f: nat, reachable: bool, again: nat)
    requires New(s, r, f) && Visible(s, e) && !Hit(s, e, reachable) && s.slots < DB_FALLBACK_LIMIT
    requires again !in s.calls && again != r
    ensures var s' := Exec(s, OwnRebuild(r, e, f, reachable, true));
            var s'' := Exec(s', [ReadVersion(again, e), GetCached(again, true)]);
            again in s''.calls && s''.calls[again] == Returned(e, Current(s, e), CurrentView(s, e).value)
  {
    var first := UpToSlot(r, e, f, reachable);
    ExecEight(s, first, UpToAnswer(r, f, true));
    MissedUpToSlot(s, r, e, f, reachable);
    hide Next, Exec;
    SlotUpToAnswer(Exec(s, first), r, e, f, true);
    HitIsServed(Exec(s, OwnRebuild(r, e, f, reachable, true)), again, e);
  }

  /** With every slot taken a call that misses is refused, and the slots stay taken. */
  lemma NoSlotIsRefused(s: State, r: nat, e: int, f: nat, reachable: bool)
    requires New(s, r, f) && Visible(s, e) && !Hit(s, e, reachable) && s.slots >= 64
    ensures var s' := Next(Exec(s, UpToSlot(r, e, f, reachable)), ReceiveView(r));
            && r in s'.calls && s'.calls[r] == Errored(e)
            && s'.events == s.events && s'.cache == s.cache && s'.slots == s.slots
  {
    MissedUpToSlot(s, r, e, f, reachable);
    hide Next, Exec;
    ViewIsReceived(Exec(s, UpToSlot(r, e, f, reachable)), r);
  }

  /** An event that is not there or not on sale is refused before the cache is asked. */
  lemma HiddenIsRefused(s: State, r: nat, e: int)
    requires r !in s.calls
    ensures var s' := Next(s, ReadVersion(r, e));
            && s' == s.(calls := s'.calls) && r in s'.calls
            && (s'.calls[r] == Errored(e) <==>
                e !in s.events || s.events[e] == [] || !s.events[e][|s.events[e]| - 1].onSale)
  {
  }

  /** Whoever joins a rebuild of the version it read is given what the rebuild found, whoever started it. */
  lemma JoinedShare(s: State, r: nat, other: nat, f: nat, view: View)
    requires r in s.calls && s.calls[r].Joined? && s.calls[r].flight == f
    requires other in s.calls && s.calls[other].Joined? && s.calls[other].flight == f
    requires f in s.flights && s.flights[f].Landed? && s.flights[f].view == view && r != other
    ensures var s' := Next(Next(s, ReceiveView(r)), ReceiveView(other));
            && r in s'.calls && s'.calls[r].Returned? && s'.calls[r].view == view
            && other in s'.calls && s'.calls[other].Returned? && s'.calls[other].view == view
  {
  }

  /** An edit shows at once: the next version is current, with the new details and everything else as it was. */
  lemma EditIsCurrent(s: State, e: int, details: Details)
    requires Visible(s, e)
    ensures var s' := Next(s, EditEvent(e, details));
            && Current(s', e) == Current(s, e) + 1
            && CurrentView(s', e) == Some(View(e, Current(s, e) + 1, details, CurrentView(s, e).value.tiers))
            && s'.cache == s.cache
  {
  }

  /** Publishing puts a draft's next version on sale with the tiers it is published with. */
  lemma PublishIsCurrent(s: State, e: int, tiers: seq<TierPrice>)
    requires e in s.events && s.events[e] != [] && !Visible(s, e)
    ensures var s' := Next(s, PublishEvent(e, tiers));
            CurrentView(s', e) == Some(View(e, Current(s, e) + 1, Latest(s, e).details, tiers))
  {
  }
}
