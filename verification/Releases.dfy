/** What giving a hold back leaves, and for how long (booking/holds.go:236-288). */
module Releases {
  import opened Common
  import opened Tables
  import opened Protocol
  import opened Admission
  import opened HoldRuns
  import C = Claims
  import HoldStatuses
  import L = Leases
  import Sales

  /** Only the owner's ACTIVE hold is released; a hold that is not the owner's or not there is not told apart. */
  lemma ReleasedExactly(db: DB, userId: string, h: Uuid)
    ensures var (db', outcome) := C.ReleaseTx(db, userId, h);
            && (outcome == C.HoldNotFound <==> h !in db.holds || db.holds[h].userId != userId)
            && (outcome == C.HoldNotActive <==>
                h in db.holds && db.holds[h].userId == userId && db.holds[h].status != Active)
            && (!outcome.ReleasedSeats? ==> db' == db)
  {
  }

  /** The seats that stood under the hold. */
  function SeatsUnder(tickets: map<int, Ticket>, h: Uuid): set<int> {
    set t | t in tickets && tickets[t].status == Held && tickets[t].holdId == Some(h)
  }

  lemma SameSeats(tickets: map<int, Ticket>, h: Uuid)
    ensures SeatsUnder(tickets, h) == HeldBy(tickets, h)
  {
    forall t ensures t in SeatsUnder(tickets, h) <==> t in HeldBy(tickets, h) {
    }
  }

  /** Everything a release changes: the seats are nobody's, the hold is RELEASED, and the count is of those seats. */
  lemma ReleaseLeaves(db: DB, userId: string, h: Uuid)
    requires C.ReleaseTx(db, userId, h).1.ReleasedSeats?
    ensures var (db', outcome) := C.ReleaseTx(db, userId, h); var seats := SeatsUnder(db.tickets, h);
            && outcome.count == |seats|
            && db' == db.(tickets := db'.tickets, holds := db.holds[h := db.holds[h].(status := Released)])
            && db'.tickets.Keys == db.tickets.Keys
            && (forall t :: t in db.tickets ==>
                  db'.tickets[t] == if t in seats
                                    then db.tickets[t].(status := Available, holdId := None, holdExpiresAt := None)
                                    else db.tickets[t])
  {
    SameSeats(db.tickets, h);
  }

  function NoLongerHeld(tickets: map<int, Ticket>, tickets': map<int, Ticket>): set<int> {
    set t | t in tickets && tickets[t].status == Held && t in tickets' && tickets'[t].status != Held
  }

  /** Every seat it held may be claimed by anybody at any time, and they are all the tickets that left HELD. */
  lemma ReleasedSeatsAreFree(db: DB, userId: string, h: Uuid, now: Time)
    requires C.ReleaseTx(db, userId, h).1.ReleasedSeats?
    ensures var (db', outcome) := C.ReleaseTx(db, userId, h);
            && (forall t :: t in SeatsUnder(db.tickets, h) ==> t in db'.tickets && Free(db'.tickets[t], now))
            && SeatsUnder(db'.tickets, h) == {}
            && outcome.count == |NoLongerHeld(db.tickets, db'.tickets)|
  {
    ReleaseLeaves(db, userId, h);
    hide C.ReleaseTx;
    var db' := C.ReleaseTx(db, userId, h).0;
    assert forall t :: t in db'.tickets.Keys <==> t in db.tickets.Keys;
    forall t ensures t in SeatsUnder(db.tickets, h) <==> t in NoLongerHeld(db.tickets, db'.tickets) {
    }
    assert SeatsUnder(db.tickets, h) == NoLongerHeld(db.tickets, db'.tickets);
  }

  /** The hold reads RELEASED at any time, and of the holds its owner is shown as ACTIVE exactly this one is gone. */
  lemma ReleasedIsShown(db: DB, userId: string, h: Uuid, at: Time)
    requires C.ReleaseTx(db, userId, h).1.ReleasedSeats?
    ensures var db' := C.ReleaseTx(db, userId, h).0;
            && h in db'.holds && C.ReportedStatus(db'.holds[h], at) == Released
            && ShownActive(db'.holds, userId, at) == ShownActive(db.holds, userId, at) - {h}
            && (at < db.holds[h].expiresAt ==> h in ShownActive(db.holds, userId, at))
            && C.ReleaseTx(db', userId, h) == (db', C.HoldNotActive)
  {
    ReleaseLeaves(db, userId, h);
    ReleasedExactly(db, userId, h);
    ReleasedExactly(C.ReleaseTx(db, userId, h).0, userId, h);
    hide C.ReleaseTx;
    var holds, holds' := db.holds, C.ReleaseTx(db, userId, h).0.holds;
    forall g ensures g in ShownActive(holds', userId, at) <==> g in ShownActive(holds, userId, at) - {h} {
      assert g in holds'.Keys <==> g in holds.Keys;
    }
  }

  /** In every run the hold stays RELEASED, whatever is interleaved, and no seat ever stands under it again. */
  lemma ReleasedForGood(w0: World, before: seq<Step>, w: World, userId: string, h: Uuid, after: seq<Step>)
    requires Initial(w0) && w == Exec(w0, before) && C.ReleaseTx(w.db, userId, h).1.ReleasedSeats?
    ensures var w' := Exec(Next(w, Release(userId, h)), after);
            StatusIs(w', h, Released) && SeatsUnder(w'.db.tickets, h) == {}
  {
    var w1 := Next(w, Release(userId, h));
    assert w1.db == C.ReleaseTx(w.db, userId, h).0;
    ReleaseLeaves(w.db, userId, h);
    ExecOne(w0, before, Release(userId, h));
    hide Next, Exec, C.ReleaseTx;
    HoldStatuses.StatusesOnlyRise(w0, before + [Release(userId, h)], w1, after, h);
    ExecAppend(w0, before + [Release(userId, h)], after);
    Sales.Reachable(w0, before + [Release(userId, h)] + after);
    NoSeatUnder(Exec(w1, after), h);
  }

  lemma NoSeatUnder(w: World, h: Uuid)
    requires Sales.AllInv(w) && StatusIs(w, h, Released)
    ensures SeatsUnder(w.db.tickets, h) == {}
  {
    forall t ensures t !in SeatsUnder(w.db.tickets, h) {
      if t in w.db.tickets {
        assert L.TicketOk(w.db.tickets[t], w.db.holds, w.clock);
      }
    }
  }
}
