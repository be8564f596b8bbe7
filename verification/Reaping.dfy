/** Laws of the expiry sweep (booking/reaper.go): what a batch, a whole sweep and any mix of sweeps release. */
module Reaping {
  import opened Common
  import opened Tables
  import opened Protocol
  import C = Claims
  import L = ClaimLaws
  import Leases
  import Sales

  lemma LapsedAfterFreeing(tickets: map<int, Ticket>, freed: set<int>, now: Time)
    ensures LapsedTickets(Freed(tickets, freed), now) == LapsedTickets(tickets, now) - freed
  {
    var tickets' := Freed(tickets, freed);
    forall t ensures t in LapsedTickets(tickets', now) <==> t in LapsedTickets(tickets, now) && t !in freed {
      assert t in tickets' <==> t in tickets;
    }
  }

  lemma FreedTwice(tickets: map<int, Ticket>, a: set<int>, b: set<int>)
    ensures Freed(Freed(tickets, a), b) == Freed(tickets, a + b)
  {
  }

  predicate Below(a: set<int>, b: set<int>) {
    forall x, y :: x in a && y in b ==> x < y
  }

  lemma PrefixMembers(rows: seq<int>, k: nat)
    requires Ascending(rows) && k <= |rows|
    ensures |Elems(rows[..k])| == k && Elems(rows[..k]) <= Elems(rows)
    ensures Below(Elems(rows[..k]), Elems(rows) - Elems(rows[..k]))
  {
    AscendingSize(rows[..k]);
    forall x | x in rows[..k] ensures x in rows {
    }
    assert forall j :: 0 <= j < k ==> rows[j] in rows[..k];
    forall x, y | x in rows[..k] && y in rows && y !in rows[..k] ensures x < y {
      var i :| 0 <= i < k && rows[..k][i] == x;
      var j :| 0 <= j < |rows| && rows[j] == y;
    }
  }

  // ---------- one batch ----------

  function Least(a: int, b: int): int {
    if a < b then a else b
  }

  /** What FOR UPDATE SKIP LOCKED selects while others have the rows in `locked`: the lowest ids left, at most 1000. */
  function Batch(tickets: map<int, Ticket>, now: Time, locked: set<int>): set<int> {
    var rows := InOrder(LapsedTickets(tickets, now) - locked);
    Elems(rows[..Least(|rows|, REAP_BATCH_SIZE)])
  }

  lemma BatchIs(tickets: map<int, Ticket>, now: Time, locked: set<int>)
    ensures var open, batch := LapsedTickets(tickets, now) - locked, Batch(tickets, now, locked);
            && batch <= open && |batch| == Least(|open|, REAP_BATCH_SIZE) && Below(batch, open - batch)
            && (|batch| < REAP_BATCH_SIZE ==> batch == open)
  {
    var open := LapsedTickets(tickets, now) - locked;
    var rows := InOrder(open);
    ElemsOfInOrder(open);
    PrefixMembers(rows, Least(|rows|, REAP_BATCH_SIZE));
    assert rows[..|rows|] == rows;
  }

  /** Right after a batch that came up short, whatever the tables were: what is lapsed is what it had to skip. */
  lemma ShortBatchLeavesSkipped(tickets: map<int, Ticket>, now: Time, locked: set<int>)
    requires |Batch(tickets, now, locked)| < REAP_BATCH_SIZE
    ensures LapsedTickets(Freed(tickets, Batch(tickets, now, locked)), now) == LapsedTickets(tickets, now) * locked
  {
    BatchIs(tickets, now, locked);
    hide Batch, LapsedTickets, Freed;
    LapsedAfterFreeing(tickets, Batch(tickets, now, locked), now);
  }

  // ---------- one sweep ----------

  const MAX_REAP_BATCHES: nat := 50
  const SWEEP_LIMIT: nat := MAX_REAP_BATCHES * REAP_BATCH_SIZE

  function Union(batches: seq<set<int>>): set<int> {
    if batches == [] then {} else Union(batches[..|batches| - 1]) + batches[|batches| - 1]
  }

  /** The batches of a sweep so far, batch i taken while others had the rows in locked[i]. */
  ghost predicate AreBatches(start: map<int, Ticket>, now: Time, locked: seq<set<int>>, batches: seq<set<int>>) {
    batches != [] ==>
      && |batches| <= |locked|
      && AreBatches(start, now, locked, batches[..|batches| - 1])
      && batches[|batches| - 1] == NextBatch(start, now, locked, batches[..|batches| - 1])
  }

  function NextBatch(start: map<int, Ticket>, now: Time, locked: seq<set<int>>, batches: seq<set<int>>): set<int>
    requires |batches| < |locked|
  {
    Batch(Freed(start, Union(batches)), now, locked[|batches|])
  }

  ghost predicate AllFull(batches: seq<set<int>>) {
    forall i :: 0 <= i < |batches| ==> |batches[i]| == REAP_BATCH_SIZE
  }

  lemma OneMoreBatch(start: map<int, Ticket>, now: Time, locked: seq<set<int>>, batches: seq<set<int>>,
      batch: set<int>)
    requires |batches| < |locked| && AreBatches(start, now, locked, batches)
    requires batch == NextBatch(start, now, locked, batches)
    ensures AreBatches(start, now, locked, batches + [batch]) && Union(batches + [batch]) == Union(batches) + batch
  {
    hide NextBatch;
    assert (batches + [batch])[..|batches|] == batches;
  }

  /** One more batch: new rows only, lapsed ones only, none of those skipped, and as many as there are up to 1000. */
  lemma AnotherBatch(start: map<int, Ticket>, now: Time, locked: seq<set<int>>, batches: seq<set<int>>)
    requires AreBatches(start, now, locked, batches) && |batches| < |locked|
    requires Union(batches) <= LapsedTickets(start, now)
    ensures var batch, lapsed := NextBatch(start, now, locked, batches), LapsedTickets(start, now);
            var open := lapsed - Union(batches) - locked[|batches|];
            && AreBatches(start, now, locked, batches + [batch])
            && Union(batches + [batch]) == Union(batches) + batch <= lapsed
            && |Union(batches + [batch])| == |Union(batches)| + |batch|
            && batch <= open && |batch| == Least(|open|, 1000)
            && Freed(start, Union(batches + [batch])) == Freed(Freed(start, Union(batches)), batch)
  {
    var freed, batch := Union(batches), NextBatch(start, now, locked, batches);
    OneMoreBatch(start, now, locked, batches, batch);
    LapsedAfterFreeing(start, freed, now);
    BatchIs(Freed(start, freed), now, locked[|batches|]);
    FreedTwice(start, freed, batch);
    hide LapsedTickets, Freed, Batch, Below, Union, AreBatches;
    BatchSizes(freed, batch, LapsedTickets(start, now));
  }

  lemma BatchSizes(freed: set<int>, batch: set<int>, lapsed: set<int>)
    requires freed <= lapsed && batch <= lapsed - freed
    ensures |freed + batch| == |freed| + |batch| && |lapsed - freed| == |lapsed| - |freed| && freed + batch <= lapsed
  {
    assert freed + (lapsed - freed) == lapsed;
  }

  /** What the bounded loop does to the tickets and reports about it. */
  ghost predicate Sweeps(
    start: map<int, Ticket>, tickets: map<int, Ticket>, now: Time, locked: seq<set<int>>, batches: seq<set<int>>,
    released: nat, truncated: bool)
  {
    && |locked| == MAX_REAP_BATCHES && batches != [] && AreBatches(start, now, locked, batches)
    && tickets == Freed(start, Union(batches)) && released == |Union(batches)|
    && AllFull(batches[..|batches| - 1])
    && (truncated <==> |batches| == MAX_REAP_BATCHES && |batches[|batches| - 1]| == REAP_BATCH_SIZE)
    && (!truncated ==> |batches[|batches| - 1]| < REAP_BATCH_SIZE)
  }

  /** A list of batches as its last one and those before it. */
  lemma LastBatch(start: map<int, Ticket>, now: Time, locked: seq<set<int>>, batches: seq<set<int>>)
    returns (front: seq<set<int>>, last: set<int>)
    requires AreBatches(start, now, locked, batches) && batches != []
    ensures batches == front + [last] && |front| < |locked| && front == batches[..|batches| - 1]
    ensures AreBatches(start, now, locked, front) && last == NextBatch(start, now, locked, front)
  {
    front, last := batches[..|batches| - 1], batches[|batches| - 1];
  }

  lemma {:induction false} FirstBatchIs(start: map<int, Ticket>, now: Time, locked: seq<set<int>>,
      batches: seq<set<int>>)
    requires AreBatches(start, now, locked, batches) && batches != []
    ensures batches[0] == Batch(start, now, locked[0])
    decreases |batches|
  {
    var front, last := LastBatch(start, now, locked, batches);
    if front == [] {
      assert Freed(start, {}) == start;
    } else {
      hide NextBatch, Batch, Freed;
      FirstBatchIs(start, now, locked, front);
    }
  }

  lemma FullFront(front: seq<set<int>>, last: set<int>)
    requires AllFull(front + [last])
    ensures AllFull(front) && |last| == REAP_BATCH_SIZE
  {
    assert (front + [last])[|front|] == last;
    assert forall i :: 0 <= i < |front| ==> (front + [last])[i] == front[i];
  }

  lemma {:induction false} BatchesAreLapsed(start: map<int, Ticket>, now: Time, locked: seq<set<int>>,
      batches: seq<set<int>>)
    requires AreBatches(start, now, locked, batches)
    ensures Union(batches) <= LapsedTickets(start, now)
    ensures AllFull(batches) ==> |Union(batches)| == |batches| * REAP_BATCH_SIZE
    decreases |batches|
  {
    if batches == [] {
    } else {
      hide LapsedTickets, NextBatch, Freed, AllFull;
      var front, last := LastBatch(start, now, locked, batches);
      hide AreBatches, Union;
      BatchesAreLapsed(start, now, locked, front);
      AnotherBatch(start, now, locked, front);
      if AllFull(batches) {
        FullFront(front, last);
      }
    }
  }

  /** The rows a sweep without the flag leaves lapsed: those locked elsewhere when it took its last batch. */
  function SkippedAtEnd(
    start: map<int, Ticket>, now: Time, locked: seq<set<int>>, batches: seq<set<int>>): set<int>
    requires 0 < |batches| <= |locked|
  {
    (LapsedTickets(start, now) - Union(batches[..|batches| - 1])) * locked[|batches| - 1]
  }

  /**
   The flag against the work left, for any rows locked elsewhere. It is set exactly when the sweep released all it may.
   Without it exactly the rows that the last batch skipped are left. So it agrees with "work remains" exactly when, with
   the flag, more had lapsed than a sweep may release, and without it, the last batch skipped nothing.
   */
  lemma LeftAfterSweep(
    start: map<int, Ticket>, tickets: map<int, Ticket>, now: Time, locked: seq<set<int>>, batches: seq<set<int>>,
    released: nat, truncated: bool)
    requires Sweeps(start, tickets, now, locked, batches, released, truncated)
    ensures var lapsed, left := LapsedTickets(start, now), LapsedTickets(tickets, now);
            && left <= lapsed && |left| == |lapsed| - released
            && released <= SWEEP_LIMIT && (truncated <==> released == SWEEP_LIMIT)
            && (!truncated ==> left == SkippedAtEnd(start, now, locked, batches))
            && ((truncated <==> left != {}) <==>
                if truncated then |lapsed| != SWEEP_LIMIT else SkippedAtEnd(start, now, locked, batches) == {})
  {
    hide LapsedTickets, NextBatch, Freed, AllFull;
    var lapsed := LapsedTickets(start, now);
    var front, last := LastBatch(start, now, locked, batches);
    hide AreBatches, Union;
    BatchesAreLapsed(start, now, locked, front);
    AnotherBatch(start, now, locked, front);
    LapsedAfterFreeing(start, Union(front), now);
    LapsedAfterFreeing(start, Union(batches), now);
    SizeLeft(lapsed, Union(batches));
    if !truncated {
      ShortNextBatch(start, now, locked, front);
    }
  }

  lemma SizeLeft(lapsed: set<int>, freed: set<int>)
    requires freed <= lapsed
    ensures |lapsed - freed| == |lapsed| - |freed|
  {
    assert freed + (lapsed - freed) == lapsed;
  }

  lemma ShortNextBatch(start: map<int, Ticket>, now: Time, locked: seq<set<int>>, batches: seq<set<int>>)
    requires |batches| < |locked| && |NextBatch(start, now, locked, batches)| < REAP_BATCH_SIZE
    ensures LapsedTickets(Freed(Freed(start, Union(batches)), NextBatch(start, now, locked, batches)), now)
            == (LapsedTickets(start, now) - Union(batches)) * locked[|batches|]
  {
    ShortBatchLeavesSkipped(Freed(start, Union(batches)), now, locked[|batches|]);
    LapsedAfterFreeing(start, Union(batches), now);
  }

  // ---------- a sweep that meets no locked row ----------

  ghost predicate NoneLocked(locked: seq<set<int>>) {
    forall i :: 0 <= i < |locked| ==> locked[i] == {}
  }

  /** Alone it frees the lowest ids, as many as it may, and its flag is wrong only at exactly the limit. */
  lemma AloneSweep(
    start: map<int, Ticket>, tickets: map<int, Ticket>, now: Time, locked: seq<set<int>>, batches: seq<set<int>>,
    released: nat, truncated: bool)
    requires Sweeps(start, tickets, now, locked, batches, released, truncated) && NoneLocked(locked)
    ensures var lapsed, left := LapsedTickets(start, now), LapsedTickets(tickets, now);
            && released == Least(|lapsed|, 50_000) && Below(Union(batches), left)
            && (truncated <==> |lapsed| >= 50_000) && (!truncated ==> left == {})
            && ((truncated <==> left != {}) <==> |lapsed| != 50_000)
  {
    LeftAfterSweep(start, tickets, now, locked, batches, released, truncated);
    LowestFirst(start, now, locked, batches);
    LapsedAfterFreeing(start, Union(batches), now);
    hide LapsedTickets, Freed, Below, Union, AreBatches, AllFull;
    SubsetSize(LapsedTickets(tickets, now), LapsedTickets(start, now));
    assert SkippedAtEnd(start, now, locked, batches) == {};
  }

  lemma {:induction false} LowestFirst(start: map<int, Ticket>, now: Time, locked: seq<set<int>>,
      batches: seq<set<int>>)
    requires AreBatches(start, now, locked, batches) && NoneLocked(locked)
    ensures Below(Union(batches), LapsedTickets(start, now) - Union(batches))
    decreases |batches|
  {
    if batches == [] {
    } else {
      hide LapsedTickets, NextBatch, Freed, Below;
      var front, last := LastBatch(start, now, locked, batches);
      hide AreBatches, Union;
      LowestFirst(start, now, locked, front);
      BatchesAreLapsed(start, now, locked, front);
      AnotherBatch(start, now, locked, front);
      LowestNext(start, now, locked, front);
      BelowBoth(Union(front), last, LapsedTickets(start, now));
    }
  }

  lemma LowestNext(start: map<int, Ticket>, now: Time, locked: seq<set<int>>, batches: seq<set<int>>)
    requires |batches| < |locked| && locked[|batches|] == {}
    ensures var rest, batch := LapsedTickets(start, now) - Union(batches), NextBatch(start, now, locked, batches);
            batch <= rest && Below(batch, rest - batch)
  {
    LapsedAfterFreeing(start, Union(batches), now);
    BatchIs(Freed(start, Union(batches)), now, {});
    hide LapsedTickets, Union, Below, Batch, Freed;
    var rest := LapsedTickets(start, now) - Union(batches);
    assert rest - {} == rest;
  }

  lemma BelowBoth(freed: set<int>, batch: set<int>, lapsed: set<int>)
    requires batch <= lapsed - freed
    requires Below(freed, lapsed - freed) && Below(batch, (lapsed - freed) - batch)
    ensures Below(freed + batch, lapsed - (freed + batch))
  {
    forall x, y | x in freed + batch && y in lapsed - (freed + batch)
      ensures x < y
    {
      assert y in lapsed - freed && y in (lapsed - freed) - batch;
    }
  }

  // ---------- the whole of a sweep ----------

  lemma NothingToSweep(db: DB, now: Time)
    requires LapsedTickets(db.tickets, now) == {} && LapsedHolds(db.holds, now) == {}
    ensures L.Reaped(db, {}, now, true) == db
  {
    assert Freed(db.tickets, {}) == db.tickets;
    assert Displaced(db.holds, {}) == db.holds;
  }

  lemma NoHoldLeft(holds: map<Uuid, Hold>, now: Time)
    ensures LapsedHolds(Displaced(holds, LapsedHolds(holds, now)), now) == {}
  {
    forall h ensures h !in LapsedHolds(Displaced(holds, LapsedHolds(holds, now)), now) {
      if h in holds && holds[h].status == Active && holds[h].expiresAt <= now {
        assert h in LapsedHolds(holds, now);
      }
    }
  }

  /** Where nothing has lapsed, a sweep at that time releases nothing, is not truncated, and leaves the tables alone. */
  lemma SecondSweepIsIdle(db: DB, tickets: map<int, Ticket>, now: Time, locked: seq<set<int>>,
      batches: seq<set<int>>, released: nat, truncated: bool)
    requires LapsedTickets(db.tickets, now) == {} && LapsedHolds(db.holds, now) == {}
    requires Sweeps(db.tickets, tickets, now, locked, batches, released, truncated)
    ensures released == 0 && !truncated && L.Reaped(db, Union(batches), now, true) == db
  {
    LeftAfterSweep(db.tickets, tickets, now, locked, batches, released, truncated);
    BatchesAreLapsed(db.tickets, now, locked, batches);
    hide LapsedTickets, LapsedHolds;
    assert Union(batches) == {};
    NothingToSweep(db, now);
  }

  // ---------- many sweeps at once ----------

  predicate Sweeping(step: Step) {
    step.ReapTickets? || step.ReapHolds? || step.Tick?
  }

  function HeldTickets(tickets: map<int, Ticket>): set<int> {
    set t | t in tickets && tickets[t].status == Held
  }

  predicate Reaps(w: World, step: Step) {
    && step.ReapTickets? && step.now <= w.clock && |step.batch| <= REAP_BATCH_SIZE
    && step.batch <= LapsedTickets(w.db.tickets, step.now)
  }

  /** The count a step reports: the rows its batch matched. */
  function ReleasedBy(w: World, step: Step): nat {
    if Reaps(w, step) then |step.batch| else 0
  }

  ghost function ReleasedIn(w: World, steps: seq<Step>): nat
    decreases |steps|
  {
    if steps == [] then 0 else ReleasedBy(w, steps[0]) + ReleasedIn(Next(w, steps[0]), steps[1..])
  }

  lemma StepReleases(w: World, step: Step)
    requires Sweeping(step)
    ensures var held, held' := HeldTickets(w.db.tickets), HeldTickets(Next(w, step).db.tickets);
            held' <= held && |held| == |held'| + ReleasedBy(w, step)
  {
    if Reaps(w, step) {
      BatchLeavesHeld(w.db.tickets, step.batch, step.now);
    } else {
      assert Next(w, step).db.tickets == w.db.tickets;
    }
  }

  lemma BatchLeavesHeld(tickets: map<int, Ticket>, batch: set<int>, now: Time)
    requires batch <= LapsedTickets(tickets, now)
    ensures batch <= HeldTickets(tickets)
    ensures HeldTickets(Freed(tickets, batch)) == HeldTickets(tickets) - batch
  {
    forall t | t in batch ensures t in HeldTickets(tickets) {
      assert t in LapsedTickets(tickets, now);
    }
  }

  /** However sweeps interleave, the counts they report add up to the tickets that left HELD: none is released twice. */
  lemma {:induction false} SweepsShareTheWork(w: World, steps: seq<Step>)
    requires forall k :: 0 <= k < |steps| ==> Sweeping(steps[k])
    ensures var held, held' := HeldTickets(w.db.tickets), HeldTickets(Exec(w, steps).db.tickets);
            held' <= held && |held| == |held'| + ReleasedIn(w, steps)
    decreases |steps|
  {
    if steps == [] {
    } else {
      StepReleases(w, steps[0]);
      SweepsShareTheWork(Next(w, steps[0]), steps[1..]);
    }
  }

  // ---------- sweeps before a claim ----------

  /** The two look the same to a claim: its outcome, the claimed rows, and every hold's reported status from then on. */
  ghost predicate AlikeToClaim(db: DB, db': DB, r: C.HoldRequest) {
    var (after, outcome) := C.CreateHold(db, r);
    var (after', outcome') := C.CreateHold(db', r);
    && outcome' == outcome
    && (outcome.Created? ==> SameRowsOf(after.tickets, after'.tickets, r.ticketIds))
    && L.ReportedAlike(after.holds, after'.holds, r.now)
  }

  predicate SameRowsOf(tickets: map<int, Ticket>, tickets': map<int, Ticket>, ids: seq<int>) {
    forall t :: t in ids ==> t in tickets && t in tickets' && tickets'[t] == tickets[t]
  }

  lemma ReportedAlikeTransitive(a: map<Uuid, Hold>, b: map<Uuid, Hold>, c: map<Uuid, Hold>, from: Time)
    requires L.ReportedAlike(a, b, from) && L.ReportedAlike(b, c, from)
    ensures L.ReportedAlike(a, c, from)
  {
    forall h, at | h in a && from <= at
      ensures C.ReportedStatus(a[h], at) == C.ReportedStatus(c[h], at)
    {
      assert h in b.Keys;
    }
  }

  lemma AlikeToItself(db: DB, r: C.HoldRequest)
    ensures AlikeToClaim(db, db, r)
  {
    if C.CreateHold(db, r).1.Created? {
      forall t | t in r.ticketIds ensures t in C.CreateHold(db, r).0.tickets {
        assert t in C.Args(r).ids && C.InEvent(db, r.eventId, t);
      }
    }
  }

  lemma AlikeTransitive(a: DB, b: DB, c: DB, r: C.HoldRequest)
    requires AlikeToClaim(a, b, r) && AlikeToClaim(b, c, r)
    ensures AlikeToClaim(a, c, r)
  {
    ReportedAlikeTransitive(C.CreateHold(a, r).0.holds, C.CreateHold(b, r).0.holds, C.CreateHold(c, r).0.holds, r.now);
  }

  /** One step of some sweep, at a time no later than the claim's. */
  predicate SweepsBy(step: Step, until: Time) {
    (step.ReapTickets? || step.ReapHolds?) && step.now <= until
  }

  lemma SweepStepIsInvisible(w: World, step: Step, r: C.HoldRequest)
    requires Sales.AllInv(w) && SweepsBy(step, r.now)
    ensures AlikeToClaim(w.db, Next(w, step).db, r)
  {
    SweepStepIs(w, step);
    AllInvHere(w);
    hide Next, C.CreateHold, L.Reaped, Sales.AllInv;
    if Reaps(w, step) {
      L.ReaperIsInvisible(w.db, w.clock, step.batch, step.now, false, r);
    } else if step.ReapHolds? && step.now <= w.clock {
      L.ReaperIsInvisible(w.db, w.clock, {}, step.now, true, r);
    } else {
      L.ReaperIsInvisible(w.db, w.clock, {}, r.now, false, r);
    }
  }

  lemma AllInvHere(w: World)
    requires Sales.AllInv(w)
    ensures Leases.LeaseInv(w.clock, w.db.tickets, w.db.holds) && C.UniqueHoldKeys(w.db.holds)
  {
  }

  /** What a step of a sweep does, as the partial sweep it is. */
  lemma SweepStepIs(w: World, step: Step)
    requires step.ReapTickets? || step.ReapHolds?
    ensures Reaps(w, step) ==> Next(w, step).db == L.Reaped(w.db, step.batch, step.now, false)
    ensures step.ReapHolds? && step.now <= w.clock ==> Next(w, step).db == L.Reaped(w.db, {}, step.now, true)
    ensures !Reaps(w, step) && !(step.ReapHolds? && step.now <= w.clock) ==>
              forall now :: Next(w, step).db == L.Reaped(w.db, {}, now, false)
  {
    assert Freed(w.db.tickets, {}) == w.db.tickets;
  }

  /** In any reachable state, any batches of any number of sweeps may run or not before a claim: it cannot tell. */
  lemma {:induction false} SweepsAreInvisible(w0: World, before: seq<Step>, w: World, sweeps: seq<Step>,
      r: C.HoldRequest)
    requires Initial(w0) && w == Exec(w0, before)
    requires forall k :: 0 <= k < |sweeps| ==> SweepsBy(sweeps[k], r.now)
    ensures AlikeToClaim(w.db, Exec(w, sweeps).db, r)
    decreases |sweeps|
  {
    Sales.Reachable(w0, before);
    hide Next, AlikeToClaim, Sales.AllInv;
    if sweeps == [] {
      AlikeToItself(w.db, r);
    } else {
      SweepStepIsInvisible(w, sweeps[0], r);
      ExecOne(w0, before, sweeps[0]);
      SweepsAreInvisible(w0, before + [sweeps[0]], Next(w, sweeps[0]), sweeps[1..], r);
      AlikeTransitive(w.db, Next(w, sweeps[0]).db, Exec(w, sweeps).db, r);
    }
  }
}
