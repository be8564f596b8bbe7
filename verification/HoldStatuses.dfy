/** Which statuses of a hold are final: for every set of clients, exactly when (docs/system-design.md:94). */
module HoldStatuses {
  import opened Common
  import opened Tables
  import opened Protocol
  import opened Sales
  import opened HoldRuns
  import C = Claims
  import F = Frames
  import L = Leases
  import M = Money
  import P = Purchases
  import S = SharedKey

  // ---------- one step ----------

  /** Statuses in the only order a hold can run through them, with any of them left out. */
  function Rank(status: HoldStatus): nat {
    match status
    case Active => 0
    case Expired => 1
    case Converted => 2
    case Released => 3
  }

  ghost predicate ExpiredHaveLapsed(holds: map<Uuid, Hold>, clock: Time) {
    forall h :: h in holds && holds[h].status == Expired ==> holds[h].expiresAt <= clock
  }

  /** What one step may do to a hold: its status rises or stays, and becomes EXPIRED only once the lease is over. */
  predicate Rises(step: Step, row: Hold, row': Hold, clock: Time) {
    && Rank(row.status) <= Rank(row'.status)
    && (row'.status == Expired ==> row'.expiresAt == row.expiresAt && (row.status == Expired || row.expiresAt <= clock))
    && (row'.status == Converted ==> row.status == Converted || step.Convert?)
    && (row'.status == Released ==> row.status != Converted || step.Decline?)
  }

  ghost predicate HoldsRise(step: Step, holds: map<Uuid, Hold>, holds': map<Uuid, Hold>, clock: Time) {
    && holds.Keys <= holds'.Keys
    && (forall h :: h in holds ==> Rises(step, holds[h], holds'[h], clock))
    && (forall h :: h in holds' && h !in holds ==> holds'[h].status == Active)
  }

  lemma NoneRises(step: Step, holds: map<Uuid, Hold>, clock: Time)
    ensures HoldsRise(step, holds, holds, clock)
  {
  }

  lemma ClaimRaises(w: World, a: C.ClaimArgs)
    requires L.Inv(w)
    ensures HoldsRise(Claim(a), w.db.holds, Next(w, Claim(a)).db.holds, w.clock)
  {
    assert Next(w, Claim(a)).db == if CanClaim(w, a) then C.ClaimTx(w.db, a).0 else w.db;
    hide Next;
    if CanClaim(w, a) && C.ClaimTx(w.db, a).1 == C.Claimed {
      L.DisplacedHaveLapsed(w, a);
    }
  }

  lemma WithStatusRaises(step: Step, holds: map<Uuid, Hold>, h: Uuid, status: HoldStatus, clock: Time)
    requires (status == Released && step.Decline?) || (status == Converted && step.Convert?)
             || (status == Released && h in holds && holds[h].status == Active)
    requires status == Converted && h in holds ==> Rank(holds[h].status) <= 1
    ensures HoldsRise(step, holds, WithStatus(holds, h, status), clock)
  {
  }

  lemma ReleaseRaises(w: World, userId: string, h: Uuid)
    ensures HoldsRise(Release(userId, h), w.db.holds, Next(w, Release(userId, h)).db.holds, w.clock)
  {
    assert Next(w, Release(userId, h)).db == C.ReleaseTx(w.db, userId, h).0;
    hide Next, HoldsRise, WithStatus;
    NoneRises(Release(userId, h), w.db.holds, w.clock);
    if h in w.db.holds && w.db.holds[h].status == Active {
      WithStatusRaises(Release(userId, h), w.db.holds, h, Released, w.clock);
    }
  }

  lemma ExtensionRises(step: Step, holds: map<Uuid, Hold>, h: Uuid, expiresAt: Time, clock: Time)
    requires h in holds && holds[h].status == Active
    ensures HoldsRise(step, holds, holds[h := holds[h].(expiresAt := expiresAt)], clock)
  {
  }

  lemma PrepareTxRaises(step: Step, db: DB, userId: string, h: Uuid, token: string, now: Time, clock: Time)
    ensures HoldsRise(step, db.holds, P.PrepareTx(db, userId, h, token, now).0.holds, clock)
  {
    hide HeldBy, Extended, HoldsRise;
    NoneRises(step, db.holds, clock);
    if h in db.holds && db.holds[h].status == Active {
      ExtensionRises(step, db.holds, h, P.PreparedLease(db, h, now).expiresAt, clock);
    }
  }

  lemma PrepareRaises(w: World, i: nat, now: Time)
    ensures HoldsRise(Prepare(i, now), w.db.holds, Next(w, Prepare(i, now)).db.holds, w.clock)
  {
    hide HoldsRise, P.PrepareTx;
    NoneRises(Prepare(i, now), w.db.holds, w.clock);
    if i in w.sagas {
      var s := w.sagas[i];
      PrepareTxRaises(Prepare(i, now), w.db, s.userId, s.holdId, s.token, now, w.clock);
    }
  }

  /** Seats still held under a hold mean that no purchase has finished it. */
  lemma HeldMeansUnfinished(w: World, lease: P.Lease)
    requires L.Inv(w) && L.CoversHold(w.db.tickets, w.db.holds, lease)
    requires |P.Convertible(w.db.tickets, lease)| == |lease.ticketIds|
    ensures Rank(w.db.holds[lease.holdId].status) <= 1
  {
    assert lease.ticketIds[0] in lease.ticketIds;
    assert P.Convertible(w.db.tickets, lease) != {};
    var t := AnyMember(P.Convertible(w.db.tickets, lease));
    assert L.TicketOk(w.db.tickets[t], w.db.holds, w.clock);
  }

  lemma ConvertRaises(w: World, i: nat, b: Uuid)
    requires L.Inv(w)
    ensures HoldsRise(Convert(i, b), w.db.holds, Next(w, Convert(i, b)).db.holds, w.clock)
  {
    hide HoldsRise, WithStatus, P.Convertible, SoldUnder;
    NoneRises(Convert(i, b), w.db.holds, w.clock);
    if i in w.sagas && w.sagas[i].stage.Paid? {
      assert L.SagaOk(w.db, w.sagas[i]);
      var lease := w.sagas[i].stage.lease;
      if |P.Convertible(w.db.tickets, lease)| == |lease.ticketIds| {
        HeldMeansUnfinished(w, lease);
        WithStatusRaises(Convert(i, b), w.db.holds, lease.holdId, Converted, w.clock);
      }
    }
  }

  lemma DeclineRaises(w: World, i: nat, b: Uuid)
    ensures HoldsRise(Decline(i, b), w.db.holds, Next(w, Decline(i, b)).db.holds, w.clock)
  {
    hide HoldsRise, WithStatus, Freed, HeldBy;
    NoneRises(Decline(i, b), w.db.holds, w.clock);
    if i in w.sagas && w.sagas[i].stage.TurnedDown? {
      WithStatusRaises(Decline(i, b), w.db.holds, w.sagas[i].stage.lease.holdId, Released, w.clock);
    }
  }

  lemma DisplacedRises(step: Step, holds: map<Uuid, Hold>, now: Time, clock: Time)
    requires now <= clock
    ensures HoldsRise(step, holds, Displaced(holds, LapsedHolds(holds, now)), clock)
  {
    assert forall h :: h in LapsedHolds(holds, now) ==> holds[h].expiresAt <= now;
  }

  lemma ReapRaises(w: World, now: Time)
    ensures HoldsRise(ReapHolds(now), w.db.holds, Next(w, ReapHolds(now)).db.holds, w.clock)
  {
    hide HoldsRise, Displaced, LapsedHolds;
    NoneRises(ReapHolds(now), w.db.holds, w.clock);
    if now <= w.clock {
      DisplacedRises(ReapHolds(now), w.db.holds, now, w.clock);
    }
  }

  lemma OthersRaise(w: World, step: Step)
    requires !F.TouchesLeases(step) || step.ReapTickets?
    ensures HoldsRise(step, w.db.holds, Next(w, step).db.holds, w.clock)
  {
    NoneRises(step, w.db.holds, w.clock);
    if step.ReapTickets? {
      F.ReapTicketsFrame(w, step.batch, step.now);
    } else {
      F.StepFrame(w, step);
    }
    hide Next;
  }

  lemma StepRaises(w: World, step: Step)
    requires L.Inv(w)
    ensures HoldsRise(step, w.db.holds, Next(w, step).db.holds, w.clock)
  {
    hide Next, L.Inv, HoldsRise;
    match step
    case Claim(a) => ClaimRaises(w, a);
    case Release(userId, h) => ReleaseRaises(w, userId, h);
    case Prepare(i, now) => PrepareRaises(w, i, now);
    case Convert(i, b) => ConvertRaises(w, i, b);
    case Decline(i, b) => DeclineRaises(w, i, b);
    case ReapHolds(now) => ReapRaises(w, now);
    case _ => OthersRaise(w, step);
  }

  // ---------- every run ----------

  ghost predicate StatusInv(w: World) {
    AllInv(w) && ExpiredHaveLapsed(w.db.holds, w.clock)
  }

  lemma StepKeepsStatusInv(w: World, step: Step)
    requires StatusInv(w)
    ensures StatusInv(Next(w, step))
  {
    StepKeepsAll(w, step);
    StepRaises(w, step);
    ClockRises(w, step);
    hide Next, AllInv;
    forall h | h in Next(w, step).db.holds && Next(w, step).db.holds[h].status == Expired
      ensures Next(w, step).db.holds[h].expiresAt <= Next(w, step).clock
    {
      assert h in w.db.holds;
      assert Rises(step, w.db.holds[h], Next(w, step).db.holds[h], w.clock);
    }
  }

  lemma ClockRises(w: World, step: Step)
    ensures w.clock <= Next(w, step).clock
  {
    if !step.Tick? {
      F.StepFrame(w, step);
    }
  }

  lemma {:induction false} RunRaises(w: World, steps: seq<Step>, h: Uuid)
    requires StatusInv(w) && h in w.db.holds
    ensures StatusInv(Exec(w, steps))
    ensures h in Exec(w, steps).db.holds && Rank(w.db.holds[h].status) <= Rank(Exec(w, steps).db.holds[h].status)
    decreases |steps|
  {
    hide Next, StatusInv;
    if steps == [] {
    } else {
      StepKeepsStatusInv(w, steps[0]);
      InvOf(w);
      StepRaises(w, steps[0]);
      assert h in Next(w, steps[0]).db.holds.Keys;
      RunRaises(Next(w, steps[0]), steps[1..], h);
    }
  }

  lemma InvOf(w: World)
    requires StatusInv(w)
    ensures L.Inv(w)
  {
  }

  lemma {:induction false} RunKeepsStatusInv(w: World, steps: seq<Step>)
    requires StatusInv(w)
    ensures StatusInv(Exec(w, steps))
    decreases |steps|
  {
    hide Next, StatusInv;
    if steps == [] {
    } else {
      StepKeepsStatusInv(w, steps[0]);
      RunKeepsStatusInv(Next(w, steps[0]), steps[1..]);
    }
  }

  lemma ReachableStatuses(w0: World, steps: seq<Step>)
    requires Initial(w0)
    ensures StatusInv(Exec(w0, steps))
  {
    Reachable(w0, []);
    RunKeepsStatusInv(w0, steps);
  }

  /** Between any two states of a run a hold only moves up: ACTIVE, EXPIRED, CONVERTED, RELEASED. */
  lemma StatusesOnlyRise(w0: World, before: seq<Step>, w: World, after: seq<Step>, h: Uuid)
    requires Initial(w0) && w == Exec(w0, before) && h in w.db.holds
    ensures var w' := Exec(w, after); h in w'.db.holds && Rank(w.db.holds[h].status) <= Rank(w'.db.holds[h].status)
  {
    ReachableStatuses(w0, before);
    RunRaises(w, after, h);
  }

  // ---------- for a set of clients ----------

  /** Purchases are begun only for these triples of user, hold and key. */
  ghost predicate AskedBy(steps: seq<Step>, asks: set<(string, Uuid, string)>) {
    forall k :: 0 <= k < |steps| && steps[k].Begin? ==> (steps[k].userId, steps[k].holdId, steps[k].key) in asks
  }

  /** A hold that has the status keeps it, in every run of these clients. */
  ghost predicate FinalFor(status: HoldStatus, asks: set<(string, Uuid, string)>) {
    forall w0, before, after, h ::
      Initial(w0) && AskedBy(before, asks) && AskedBy(after, asks) && StatusIs(Exec(w0, before), h, status) ==>
        StatusIs(Exec(Exec(w0, before), after), h, status)
  }

  /** Nobody purchases one hold under two keys. */
  ghost predicate OneKeyPerHold(asks: set<(string, Uuid, string)>) {
    forall a, c :: a in asks && c in asks && a.0 == c.0 && a.1 == c.1 && a.2 != "" && c.2 != "" ==> a.2 == c.2
  }

  ghost predicate SagasAsked(sagas: map<nat, Saga>, asks: set<(string, Uuid, string)>) {
    forall i :: i in sagas ==> sagas[i].key != "" && (sagas[i].userId, sagas[i].holdId, sagas[i].key) in asks
  }

  lemma StepKeepsAsks(w: World, step: Step, asks: set<(string, Uuid, string)>)
    requires SagasAsked(w.sagas, asks) && AskedBy([step], asks)
    ensures SagasAsked(Next(w, step).sagas, asks)
  {
    F.SagaFrame(w, step);
    hide Next;
    assert step == [step][0];
  }

  // ---------- RELEASED ----------

  /** RELEASED is final, whoever the clients are. */
  lemma ReleasedIsFinal(asks: set<(string, Uuid, string)>)
    ensures FinalFor(Released, asks)
  {
    hide Next, Exec;
    forall w0, before, after, h | Initial(w0) && StatusIs(Exec(w0, before), h, Released)
      ensures StatusIs(Exec(Exec(w0, before), after), h, Released)
    {
      StatusesOnlyRise(w0, before, Exec(w0, before), after, h);
    }
  }

  // ---------- CONVERTED ----------

  /** A purchase of the hold's owner on this hold has a booking. */
  ghost predicate SoldBySaga(w: World, h: Uuid) {
    h in w.db.holds && exists i :: i in w.sagas && BookedOn(w, i, h)
  }

  ghost predicate BookedOn(w: World, i: nat, h: Uuid)
    requires i in w.sagas && h in w.db.holds
  {
    && w.sagas[i].holdId == h && w.sagas[i].userId == w.db.holds[h].userId
    && P.BookingKeyTaken(w.db.bookings, w.sagas[i].userId, w.sagas[i].key)
  }

  ghost predicate ConvertedInv(w: World) {
    forall h :: StatusIs(w, h, Converted) ==> SoldBySaga(w, h)
  }

  lemma KeyStaysTaken(bookings: map<Uuid, Booking>, bookings': map<Uuid, Booking>, userId: string, key: string)
    requires M.BookingsFollow(bookings, bookings') && P.BookingKeyTaken(bookings, userId, key)
    ensures P.BookingKeyTaken(bookings', userId, key)
  {
    var b :| b in bookings && bookings[b].userId == userId && bookings[b].key == key;
    assert b in bookings.Keys && M.BookingFollows(bookings[b], bookings'[b]);
  }

  lemma HoldAndSagaStay(w: World, step: Step, i: nat, h: Uuid)
    requires L.Inv(w) && i in w.sagas && h in w.db.holds
    ensures var w' := Next(w, step);
            && i in w'.sagas && h in w'.db.holds && w'.db.holds[h].userId == w.db.holds[h].userId
            && w'.sagas[i].holdId == w.sagas[i].holdId && w'.sagas[i].userId == w.sagas[i].userId
            && w'.sagas[i].key == w.sagas[i].key
  {
    L.StepKeepsInv(w, step);
    F.SagaFrame(w, step);
    hide Next, L.Inv;
    assert i in Next(w, step).sagas.Keys && h in Next(w, step).db.holds.Keys;
    assert L.HoldFollows(w.db.holds[h], Next(w, step).db.holds[h]);
  }

  lemma SoldBySagaStays(w: World, step: Step, h: Uuid)
    requires AllInv(w) && SoldBySaga(w, h)
    ensures SoldBySaga(Next(w, step), h)
  {
    var i :| i in w.sagas && BookedOn(w, i, h);
    HoldAndSagaStay(w, step, i, h);
    M.StepFollowsBookings(w, step);
    hide Next, P.BookingKeyTaken, AllInv, M.BookingsFollow;
    KeyStaysTaken(w.db.bookings, Next(w, step).db.bookings, w.sagas[i].userId, w.sagas[i].key);
    assert BookedOn(Next(w, step), i, h);
  }

  /** Only a conversion makes a hold CONVERTED, and it books the key it runs under. */
  lemma ConvertingBooks(w: World, step: Step, h: Uuid)
    requires L.Inv(w) && !StatusIs(w, h, Converted) && StatusIs(Next(w, step), h, Converted)
    ensures SoldBySaga(Next(w, step), h)
  {
    StepRaises(w, step);
    hide Next, SoldBySaga;
    assert h in w.db.holds && Rises(step, w.db.holds[h], Next(w, step).db.holds[h], w.clock);
    ConvertBooks(w, step.saga, step.bookingId, h);
  }

  lemma ConvertBooks(w: World, i: nat, b: Uuid, h: Uuid)
    requires L.Inv(w) && !StatusIs(w, h, Converted) && StatusIs(Next(w, Convert(i, b)), h, Converted)
    ensures SoldBySaga(Next(w, Convert(i, b)), h)
  {
    var w' := Next(w, Convert(i, b));
    assert L.SagaOk(w.db, w.sagas[i]);
    assert b in w'.db.bookings && w'.db.bookings[b].userId == w.sagas[i].userId
           && w'.db.bookings[b].key == w.sagas[i].key;
    assert BookedOn(w', i, h);
  }

  lemma StepKeepsConverted(w: World, step: Step)
    requires AllInv(w) && ConvertedInv(w)
    ensures ConvertedInv(Next(w, step))
  {
    assert L.Inv(w);
    hide Next, AllInv, L.Inv, SoldBySaga;
    forall h | StatusIs(Next(w, step), h, Converted)
      ensures SoldBySaga(Next(w, step), h)
    {
      if StatusIs(w, h, Converted) {
        SoldBySagaStays(w, step, h);
      } else {
        ConvertingBooks(w, step, h);
      }
    }
  }

  /** A decline of a CONVERTED hold is by its owner, whose key for it is booked, and so writes nothing. */
  lemma ConvertedIsNotDeclined(w: World, i: nat, b: Uuid, h: Uuid, asks: set<(string, Uuid, string)>)
    requires L.Inv(w) && ConvertedInv(w) && SagasAsked(w.sagas, asks) && OneKeyPerHold(asks)
    requires StatusIs(w, h, Converted)
    ensures StatusIs(Next(w, Decline(i, b)), h, Converted)
  {
    if i in w.sagas && w.sagas[i].stage.TurnedDown? && w.sagas[i].stage.lease.holdId == h {
      assert L.SagaOk(w.db, w.sagas[i]);
      var j :| j in w.sagas && BookedOn(w, j, h);
      var a, c := (w.sagas[i].userId, w.sagas[i].holdId, w.sagas[i].key),
                  (w.sagas[j].userId, w.sagas[j].holdId, w.sagas[j].key);
      assert a in asks && c in asks;
      assert P.BookingKeyTaken(w.db.bookings, w.sagas[i].userId, w.sagas[i].key);
    }
  }

  lemma OnlyDeclineReleasesConverted(w: World, step: Step, h: Uuid)
    requires L.Inv(w) && StatusIs(w, h, Converted) && !step.Decline?
    ensures StatusIs(Next(w, step), h, Converted)
  {
    StepRaises(w, step);
    hide Next;
    assert h in Next(w, step).db.holds.Keys && Rises(step, w.db.holds[h], Next(w, step).db.holds[h], w.clock);
  }

  ghost predicate ConvertedStays(w: World, asks: set<(string, Uuid, string)>) {
    StatusInv(w) && ConvertedInv(w) && SagasAsked(w.sagas, asks)
  }

  lemma StepKeepsConvertedStays(w: World, step: Step, asks: set<(string, Uuid, string)>)
    requires ConvertedStays(w, asks) && AskedBy([step], asks)
    ensures ConvertedStays(Next(w, step), asks)
  {
    assert AllInv(w);
    hide Next, AllInv, StatusInv, ConvertedInv, SagasAsked;
    StepKeepsStatusInv(w, step);
    StepKeepsConverted(w, step);
    StepKeepsAsks(w, step, asks);
  }

  lemma {:induction false} RunKeepsConvertedStays(w: World, steps: seq<Step>, asks: set<(string, Uuid, string)>)
    requires ConvertedStays(w, asks) && AskedBy(steps, asks)
    ensures ConvertedStays(Exec(w, steps), asks)
    decreases |steps|
  {
    hide Next, ConvertedStays;
    if steps == [] {
    } else {
      StepKeepsConvertedStays(w, steps[0], asks);
      RunKeepsConvertedStays(Next(w, steps[0]), steps[1..], asks);
    }
  }

  lemma {:induction false} ConvertedRun(w: World, steps: seq<Step>, h: Uuid, asks: set<(string, Uuid, string)>)
    requires ConvertedStays(w, asks) && AskedBy(steps, asks) && OneKeyPerHold(asks) && StatusIs(w, h, Converted)
    ensures StatusIs(Exec(w, steps), h, Converted)
    decreases |steps|
  {
    hide Next, StatusInv;
    if steps == [] {
    } else {
      InvOf(w);
      if steps[0].Decline? {
        ConvertedIsNotDeclined(w, steps[0].saga, steps[0].bookingId, h, asks);
      } else {
        OnlyDeclineReleasesConverted(w, steps[0], h);
      }
      StepKeepsConvertedStays(w, steps[0], asks);
      ConvertedRun(Next(w, steps[0]), steps[1..], h, asks);
    }
  }

  lemma OneKeyKeepsConverted(w0: World, before: seq<Step>, after: seq<Step>, h: Uuid,
      asks: set<(string, Uuid, string)>)
    requires Initial(w0) && AskedBy(before, asks) && AskedBy(after, asks) && OneKeyPerHold(asks)
    requires StatusIs(Exec(w0, before), h, Converted)
    ensures StatusIs(Exec(Exec(w0, before), after), h, Converted)
  {
    ReachableStatuses(w0, []);
    RunKeepsConvertedStays(w0, before, asks);
    ConvertedRun(Exec(w0, before), after, h, asks);
  }

  lemma TwoKeysLoseConverted(u: string, h: Uuid, k1: string, k2: string, asks: set<(string, Uuid, string)>)
    requires (u, h, k1) in asks && (u, h, k2) in asks && k1 != "" && k2 != "" && k1 != k2
    ensures !FinalFor(Converted, asks)
  {
    hide Next, Exec;
    var run, last := Overtaken(h, u, k1, k2), [Decline(2, 102)];
    ConvertedThenReleased(h, u, k1, k2);
    ExecSingle(Exec(S.Start(), run), last[0]);
    assert AskedBy(run, asks) && AskedBy(last, asks);
    assert StatusIs(Exec(S.Start(), run), h, Converted);
    assert !StatusIs(Exec(Exec(S.Start(), run), last), h, Converted);
  }

  /** CONVERTED is final in every run of these clients exactly if nobody purchases one hold under two keys. */
  lemma ConvertedIsFinalIff(asks: set<(string, Uuid, string)>)
    ensures FinalFor(Converted, asks) <==> OneKeyPerHold(asks)
  {
    hide Next, Exec;
    if OneKeyPerHold(asks) {
      forall w0, before, after, h |
        Initial(w0) && AskedBy(before, asks) && AskedBy(after, asks) && StatusIs(Exec(w0, before), h, Converted)
        ensures StatusIs(Exec(Exec(w0, before), after), h, Converted)
      {
        OneKeyKeepsConverted(w0, before, after, h, asks);
      }
    } else {
      var a, c :| a in asks && c in asks && a.0 == c.0 && a.1 == c.1 && a.2 != "" && c.2 != "" && a.2 != c.2;
      TwoKeysLoseConverted(a.0, a.1, a.2, c.2, asks);
    }
  }

  // ---------- EXPIRED ----------

  ghost predicate NothingAsked(asks: set<(string, Uuid, string)>) {
    forall a :: a in asks ==> a.2 == ""
  }

  /** Without purchases nothing ever leaves EXPIRED; with any at all there is a run that does. */
  lemma ExpiredIsFinalIff(asks: set<(string, Uuid, string)>)
    ensures FinalFor(Expired, asks) <==> NothingAsked(asks)
  {
    hide Next, Exec;
    if NothingAsked(asks) {
      forall w0, before, after, h |
        Initial(w0) && AskedBy(before, asks) && AskedBy(after, asks) && StatusIs(Exec(w0, before), h, Expired)
        ensures StatusIs(Exec(Exec(w0, before), after), h, Expired)
      {
        ReachableStatuses(w0, before);
        NoSagas(w0, before, asks);
        ExpiredRun(Exec(w0, before), after, h, asks);
      }
    } else {
      var a :| a in asks && a.2 != "";
      AnyKeyLeavesExpired(a.0, a.1, a.2, asks);
    }
  }

  lemma {:induction false} NoSagas(w: World, steps: seq<Step>, asks: set<(string, Uuid, string)>)
    requires w.sagas == map[] && AskedBy(steps, asks) && NothingAsked(asks)
    ensures Exec(w, steps).sagas == map[]
    decreases |steps|
  {
    hide Next;
    if steps == [] {
    } else {
      NoSagaBegins(w, steps[0], asks);
      NoSagas(Next(w, steps[0]), steps[1..], asks);
    }
  }

  lemma NoSagaBegins(w: World, step: Step, asks: set<(string, Uuid, string)>)
    requires w.sagas == map[] && AskedBy([step], asks) && NothingAsked(asks)
    ensures Next(w, step).sagas == map[]
  {
    F.SagaFrame(w, step);
    hide Next;
    assert step == [step][0];
    assert forall j :: j !in Next(w, step).sagas;
  }

  lemma ExpiredStep(w: World, step: Step, h: Uuid)
    requires L.Inv(w) && w.sagas == map[] && StatusIs(w, h, Expired)
    ensures StatusIs(Next(w, step), h, Expired)
  {
  }

  lemma {:induction false} ExpiredRun(w: World, steps: seq<Step>, h: Uuid, asks: set<(string, Uuid, string)>)
    requires StatusInv(w) && w.sagas == map[] && StatusIs(w, h, Expired)
    requires AskedBy(steps, asks) && NothingAsked(asks)
    ensures StatusIs(Exec(w, steps), h, Expired)
    decreases |steps|
  {
    hide Next, StatusInv;
    if steps == [] {
    } else {
      InvOf(w);
      ExpiredStep(w, steps[0], h);
      NoSagaBegins(w, steps[0], asks);
      StepKeepsStatusInv(w, steps[0]);
      ExpiredRun(Next(w, steps[0]), steps[1..], h, asks);
    }
  }

  lemma AnyKeyLeavesExpired(u: string, h: Uuid, key: string, asks: set<(string, Uuid, string)>)
    requires (u, h, key) in asks && key != ""
    ensures !FinalFor(Expired, asks)
  {
    hide Next, Exec;
    var run, last := Expiring(h, u, key), [Convert(1, 101)];
    ExpiredThenConverted(h, u, key);
    ExecSingle(Exec(S.Start(), run), last[0]);
    assert AskedBy(run, asks) && AskedBy(last, asks);
    assert StatusIs(Exec(S.Start(), run), h, Expired);
    assert !StatusIs(Exec(Exec(S.Start(), run), last), h, Expired);
  }

  // ---------- EXPIRED against the clock ----------

  /** A purchase could commit its outcome on the hold now, changing its status. */
  ghost predicate Finishes(w: World, step: Step, h: Uuid) {
    && (step.Convert? || step.Decline?)
    && h in w.db.holds && h in Next(w, step).db.holds
    && Next(w, step).db.holds[h].status != w.db.holds[h].status
  }

  /** Some sweep at this instant marks the hold, and the purchase then moves it on. */
  ghost predicate LeavesExpired(w: World, step: Step, h: Uuid) {
    exists now :: StatusIs(Next(w, ReapHolds(now)), h, Expired)
                  && !StatusIs(Next(Next(w, ReapHolds(now)), step), h, Expired)
  }

  /**
   Of a hold that is ACTIVE or EXPIRED and that a purchase could now finish: the purchase can move it out of EXPIRED
   exactly if the clock has reached its expiry.
   */
  lemma ExpiredIsLeftIff(w0: World, steps: seq<Step>, w: World, step: Step, h: Uuid)
    requires Initial(w0) && w == Exec(w0, steps)
    requires Finishes(w, step, h) && Rank(w.db.holds[h].status) <= 1
    ensures LeavesExpired(w, step, h) <==> w.db.holds[h].expiresAt <= w.clock
  {
    ReachableStatuses(w0, steps);
    if LeavesExpired(w, step, h) {
      var now :| StatusIs(Next(w, ReapHolds(now)), h, Expired);
      ReapMarks(w, now, h);
    }
    if w.db.holds[h].expiresAt <= w.clock {
      ReapMarks(w, w.clock, h);
      FinishAfterReap(w, w.clock, step, h);
    }
  }

  lemma ReapMarks(w: World, now: Time, h: Uuid)
    requires h in w.db.holds && Rank(w.db.holds[h].status) <= 1 && ExpiredHaveLapsed(w.db.holds, w.clock)
    ensures StatusIs(Next(w, ReapHolds(now)), h, Expired) ==> w.db.holds[h].expiresAt <= w.clock
    ensures now == w.clock && w.db.holds[h].expiresAt <= now ==> StatusIs(Next(w, ReapHolds(now)), h, Expired)
  {
  }

  /** What a purchase does to a hold does not depend on the hold's status. */
  lemma FinishAfterReap(w: World, now: Time, step: Step, h: Uuid)
    requires Finishes(w, step, h)
    ensures !StatusIs(Next(Next(w, ReapHolds(now)), step), h, Expired)
  {
    F.ReapHoldsFrame(w, now);
    var w1 := Next(w, ReapHolds(now));
    if step.Convert? {
      ConvertIgnoresHolds(w, w1, step.saga, step.bookingId, h);
    } else {
      DeclineIgnoresHolds(w, w1, step.saga, step.bookingId, h);
    }
  }

  ghost predicate SameButHolds(w: World, w1: World) {
    w1 == w.(db := w.db.(holds := w1.db.holds)) && w1.db.holds.Keys == w.db.holds.Keys
  }

  lemma ConvertIgnoresHolds(w: World, w1: World, i: nat, b: Uuid, h: Uuid)
    requires SameButHolds(w, w1) && Finishes(w, Convert(i, b), h)
    ensures StatusIs(Next(w1, Convert(i, b)), h, Converted)
  {
  }

  lemma DeclineIgnoresHolds(w: World, w1: World, i: nat, b: Uuid, h: Uuid)
    requires SameButHolds(w, w1) && Finishes(w, Decline(i, b), h)
    ensures StatusIs(Next(w1, Decline(i, b)), h, Released)
  {
  }
}
