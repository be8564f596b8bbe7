/** What the owner of a hold is shown (booking/holds.go:207-236, 290-372), and that it is what a purchase charges. */
module HoldViews {
  import opened Common
  import opened Tables
  import C = Claims
  import I = Inventory
  import L = Leases
  import P = Purchases
  import opened Protocol
  import opened Releases
  import PL = PurchaseLaws
  import Sales

  /** One line of the view: a ticket that names the hold, the place of its seat and its price. */
  predicate Shows(db: DB, seats: map<int, I.Seat>, h: Uuid, line: C.HeldSeat) {
    && line.ticketId in db.tickets && db.tickets[line.ticketId].holdId == Some(h)
    && line.ticketId in db.prices && db.prices[line.ticketId] == line.price
    && db.tickets[line.ticketId].seatId in seats
    && var seat := seats[db.tickets[line.ticketId].seatId];
       line.section == seat.section && line.row == seat.row && line.number == seat.number
  }

  /** The lines are in ascending order of their tickets. */
  predicate ByTicket(lines: seq<C.HeldSeat>) {
    forall i, j :: 0 <= i < j < |lines| ==> lines[i].ticketId < lines[j].ticketId
  }

  function Sum(lines: seq<C.HeldSeat>): nat {
    if lines == [] then 0 else lines[0].price + Sum(lines[1..])
  }

  lemma {:induction false} SumAdds(lines: seq<C.HeldSeat>, last: C.HeldSeat)
    ensures Sum(lines + [last]) == Sum(lines) + last.price
  {
    if lines == [] {
      assert lines + [last] == [last];
    } else {
      assert (lines + [last])[1..] == lines[1..] + [last];
      SumAdds(lines[1..], last);
    }
  }

  lemma {:induction false} LinesOf(db: DB, seats: map<int, I.Seat>, ids: seq<int>)
    requires forall t :: t in ids ==> C.Joined(db, seats, t)
    ensures var lines := C.SeatsShown(db, seats, ids);
            && |lines| == |ids|
            && (forall i :: 0 <= i < |ids| ==> ids[i] in ids && lines[i] == C.SeatShown(db, seats, ids[i]))
            && Sum(lines) == Total(db.prices, ids)
  {
    if ids == [] {
    } else {
      var front, last := ids[..|ids| - 1], ids[|ids| - 1];
      assert last in ids;
      LinesOf(db, seats, front);
      SumAdds(C.SeatsShown(db, seats, front), C.SeatShown(db, seats, last));
      forall i | 0 <= i < |ids|
        ensures ids[i] in ids && C.SeatsShown(db, seats, ids)[i] == C.SeatShown(db, seats, ids[i])
      {
        assert i < |front| ==> front[i] == ids[i];
      }
    }
  }

  /**
   Only the owner is shown a hold. The view has the hold's row, the status it reads as, the time left until it lapses,
   every ticket that names it with its place and price, each once and in order, and the sum of those prices.
   */
  lemma ViewIsExact(db: DB, seats: map<int, I.Seat>, userId: string, h: Uuid, now: Time)
    ensures var view := C.ViewOf(db, seats, userId, h, now);
            && (view.Some? <==> h in db.holds && db.holds[h].userId == userId)
            && (view.Some? ==>
                  var v, row := view.value, db.holds[h];
                  && v.eventId == row.eventId && v.token == row.token && v.expiresAt == row.expiresAt
                  && (v.status == Active <==> row.status == Active && now < row.expiresAt)
                  && (v.status == Expired <==>
                      row.status == Expired || (row.status == Active && row.expiresAt <= now))
                  && (v.status == Released <==> row.status == Released)
                  && v.remaining >= 0 && (now < row.expiresAt ==> now + v.remaining == row.expiresAt)
                  && (row.expiresAt <= now ==> v.remaining == 0)
                  && ByTicket(v.seats) && (forall line :: line in v.seats <==> Shows(db, seats, h, line))
                  && v.total == Sum(v.seats))
  {
    if h in db.holds && db.holds[h].userId == userId {
      var ids, v := InOrder(C.CarriedBy(db, seats, h)), C.ViewOf(db, seats, userId, h, now).value;
      LinesOf(db, seats, ids);
      hide C.SeatsShown, InOrder, Sum, Total;
      forall line
        ensures line in v.seats <==> Shows(db, seats, h, line)
      {
        LineIsShown(db, seats, h, ids, v.seats, line);
      }
    }
  }

  lemma LineIsShown(db: DB, seats: map<int, I.Seat>, h: Uuid, ids: seq<int>, lines: seq<C.HeldSeat>, line: C.HeldSeat)
    requires (forall t :: t in ids <==> t in C.CarriedBy(db, seats, h)) && |lines| == |ids|
    requires forall i :: 0 <= i < |ids| ==>
               C.Joined(db, seats, ids[i]) && lines[i] == C.SeatShown(db, seats, ids[i])
    ensures line in lines <==> Shows(db, seats, h, line)
  {
    if line in lines {
      var i :| 0 <= i < |lines| && lines[i] == line;
      assert ids[i] in ids;
    }
    if Shows(db, seats, h, line) {
      assert line.ticketId in ids;
      var i :| 0 <= i < |ids| && ids[i] == line.ticketId;
      assert lines[i] == line;
    }
  }

  // ---------- shown and charged ----------

  /** Every ticket has its seat and price rows. */
  ghost predicate AllJoined(db: DB, seats: map<int, I.Seat>) {
    forall t :: t in db.tickets ==> db.tickets[t].seatId in seats && t in db.prices
  }

  lemma CarriedIsHeld(w: World, seats: map<int, I.Seat>, h: Uuid)
    requires Sales.AllInv(w) && AllJoined(w.db, seats)
    ensures C.CarriedBy(w.db, seats, h) == HeldBy(w.db.tickets, h)
  {
    forall t
      ensures t in C.CarriedBy(w.db, seats, h) <==> t in HeldBy(w.db.tickets, h)
    {
      if t in w.db.tickets {
        assert L.TicketOk(w.db.tickets[t], w.db.holds, w.clock);
      }
    }
  }

  function Tickets(lines: seq<C.HeldSeat>): seq<int> {
    seq(|lines|, i requires 0 <= i < |lines| => lines[i].ticketId)
  }

  /**
   In every reachable state a purchase can be started exactly on a hold its caller is shown ACTIVE with a seat, with the
   token shown; and it will charge for exactly the seats shown, in that order, at exactly the total shown.
   */
  lemma ShownIsCharged(w0: World, steps: seq<Step>, w: World, seats: map<int, I.Seat>,
      userId: string, h: Uuid, token: string, now: Time)
    requires Initial(w0) && w == Exec(w0, steps) && AllJoined(w.db, seats)
    ensures var view := C.ViewOf(w.db, seats, userId, h, now);
            var prepared := P.PrepareTx(w.db, userId, h, token, now).1;
            && (prepared.Ok? <==>
                view.Some? && view.value.token == token && view.value.status == Active && view.value.seats != [])
            && (prepared.Ok? ==>
                  && prepared.value.ticketIds == Tickets(view.value.seats)
                  && prepared.value.total == view.value.total)
  {
    Sales.Reachable(w0, steps);
    CarriedIsHeld(w, seats, h);
    hide Sales.AllInv, Exec, C.CarriedBy, HeldBy;
    ShownAsHeld(w.db, seats, userId, h, token, now);
  }

  /** The view lists the tickets under the hold in order, and none when there are none. */
  lemma ViewListsHeld(db: DB, seats: map<int, I.Seat>, userId: string, h: Uuid, now: Time)
    requires C.CarriedBy(db, seats, h) == HeldBy(db.tickets, h)
    requires h in db.holds && db.holds[h].userId == userId
    ensures var v, held := C.ViewOf(db, seats, userId, h, now).value, SeatsUnder(db.tickets, h);
            && Tickets(v.seats) == InOrder(held) && v.total == Total(db.prices, InOrder(held))
            && (v.seats == [] <==> held == {})
  {
    SameSeats(db.tickets, h);
    var ids := InOrder(C.CarriedBy(db, seats, h));
    TicketsOfLines(db, seats, ids);
    hide C.CarriedBy, HeldBy, SeatsUnder, C.SeatsShown, Total, InOrder, Tickets, C.Joined, C.ReportedStatus;
  }

  lemma TicketsOfLines(db: DB, seats: map<int, I.Seat>, ids: seq<int>)
    requires forall t :: t in ids ==> C.Joined(db, seats, t)
    ensures Tickets(C.SeatsShown(db, seats, ids)) == ids && |C.SeatsShown(db, seats, ids)| == |ids|
  {
    LinesOf(db, seats, ids);
    hide C.SeatsShown, C.Joined;
    assert Tickets(C.SeatsShown(db, seats, ids)) == ids;
  }

  lemma ShownAsHeld(db: DB, seats: map<int, I.Seat>, userId: string, h: Uuid, token: string, now: Time)
    requires C.CarriedBy(db, seats, h) == HeldBy(db.tickets, h)
    ensures var view := C.ViewOf(db, seats, userId, h, now);
            var prepared := P.PrepareTx(db, userId, h, token, now).1;
            && (prepared.Ok? <==>
                view.Some? && view.value.token == token && view.value.status == Active && view.value.seats != [])
            && (prepared.Ok? ==>
                  && prepared.value.ticketIds == Tickets(view.value.seats)
                  && prepared.value.total == view.value.total)
  {
    PL.PreparedExactly(db, userId, h, token, now);
    PL.PreparedLeaves(db, userId, h, token, now);
    ViewIsExact(db, seats, userId, h, now);
    hide C.CarriedBy, HeldBy, SeatsUnder, InOrder, Total, Tickets, C.ViewOf, P.PrepareTx, ByTicket, Shows, Sum;
    if h in db.holds && db.holds[h].userId == userId {
      ViewListsHeld(db, seats, userId, h, now);
    }
  }
}
