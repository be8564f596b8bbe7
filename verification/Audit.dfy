/** The inventory audit (booking/integrity.go), and why on a reachable state it can only find unresolved refunds. */
module Audit {
  import opened Common
  import opened Tables
  import opened Protocol
  import opened Leases
  import opened Sales

  datatype Integrity = Integrity(
    total: nat,
    available: nat,
    held: nat,
    sold: nat,
    duplicateSeats: nat,
    soldWithoutBooking: nat,
    heldWithoutHold: nat,
    confirmedBookings: nat,
    ticketsInConfirmedBookings: nat,
    unresolvedCompensations: nat,
    consistent: bool)

  function EventTickets(tickets: map<int, Ticket>, e: int): set<int> {
    set t | t in tickets && tickets[t].eventId == e
  }

  function TicketsWith(tickets: map<int, Ticket>, e: int, status: TicketStatus): set<int> {
    set t | t in tickets && tickets[t].eventId == e && tickets[t].status == status
  }

  function Orphans(tickets: map<int, Ticket>, e: int, status: TicketStatus): set<int> {
    set t | t in TicketsWith(tickets, e, status) && (if status == Sold then tickets[t].bookingId.None?
                                                   else tickets[t].holdId.None?)
  }

  /** The seats that more than one ticket of the event stands for. */
  function Duplicated(tickets: map<int, Ticket>, e: int): set<int> {
    set t | t in EventTickets(tickets, e)
            && exists u :: u in EventTickets(tickets, e) && u != t && tickets[u].seatId == tickets[t].seatId
      :: tickets[t].seatId
  }

  function BookingsOf(bookings: map<Uuid, Booking>, e: int, status: BookingStatus): set<Uuid> {
    set b | b in bookings && bookings[b].eventId == e && bookings[b].status == status
  }

  /** The sum over bookings of the tickets that name them, whatever event the ticket belongs to. */
  function SeatCount(tickets: map<int, Ticket>, bookings: seq<Uuid>): nat {
    if bookings == [] then 0
    else SeatCount(tickets, bookings[..|bookings| - 1]) + |SoldTo(tickets, bookings[|bookings| - 1])|
  }

  function CheckIntegrity(db: DB, e: int): Integrity {
    var total := |EventTickets(db.tickets, e)|;
    var available := |TicketsWith(db.tickets, e, Available)|;
    var held := |TicketsWith(db.tickets, e, Held)|;
    var sold := |TicketsWith(db.tickets, e, Sold)|;
    var duplicates := |Duplicated(db.tickets, e)|;
    var soldWithoutBooking := |Orphans(db.tickets, e, Sold)|;
    var heldWithoutHold := |Orphans(db.tickets, e, Held)|;
    var confirmed := BookingsOf(db.bookings, e, Confirmed);
    var inConfirmed := SeatCount(db.tickets, InOrder(confirmed));
    var unresolved := |BookingsOf(db.bookings, e, Compensating)|;
    Integrity(total, available, held, sold, duplicates, soldWithoutBooking, heldWithoutHold,
              |confirmed|, inConfirmed, unresolved,
              duplicates == 0 && soldWithoutBooking == 0 && heldWithoutHold == 0 && unresolved == 0
              && sold == inConfirmed && total == available + held + sold)
  }

  lemma StatusesPartition(tickets: map<int, Ticket>, e: int)
    ensures |EventTickets(tickets, e)|
            == |TicketsWith(tickets, e, Available)| + |TicketsWith(tickets, e, Held)| + |TicketsWith(tickets, e, Sold)|
  {
    var a, h, s := TicketsWith(tickets, e, Available), TicketsWith(tickets, e, Held), TicketsWith(tickets, e, Sold);
    forall t ensures t in EventTickets(tickets, e) <==> t in a + h + s {
      if t in tickets {
        var status := tickets[t].status;
        assert status == Available || status == Held || status == Sold;
      }
    }
    assert EventTickets(tickets, e) == a + h + s;
    assert a !! h && a + h !! s;
  }

  function Owned(tickets: map<int, Ticket>, bookings: set<Uuid>): set<int> {
    set t | t in tickets && tickets[t].bookingId.Some? && tickets[t].bookingId.value in bookings
  }

  /** A ticket names one booking, so counting booking by booking counts every owned ticket once. */
  lemma {:induction false} SeatCountIsOwned(tickets: map<int, Ticket>, bookings: seq<Uuid>)
    requires Ascending(bookings)
    ensures SeatCount(tickets, bookings) == |Owned(tickets, Elems(bookings))|
  {
    if bookings == [] {
      assert Owned(tickets, Elems(bookings)) == {};
    } else {
      var front, last := bookings[..|bookings| - 1], bookings[|bookings| - 1];
      assert bookings == front + [last];
      LastOfAscending(front, last);
      SeatCountIsOwned(tickets, front);
      hide Ascending, Elems;
      OwnedByOneMore(tickets, Elems(front), last);
    }
  }

  lemma OwnedByOneMore(tickets: map<int, Ticket>, bookings: set<Uuid>, b: Uuid)
    requires b !in bookings
    ensures |Owned(tickets, bookings + {b})| == |Owned(tickets, bookings)| + |SoldTo(tickets, b)|
  {
    assert Owned(tickets, bookings + {b}) == Owned(tickets, bookings) + SoldTo(tickets, b);
    assert Owned(tickets, bookings) !! SoldTo(tickets, b);
  }

  // ---------- what the audit would find ----------

  predicate IsOf(tickets: map<int, Ticket>, e: int, t: int) {
    t in tickets && tickets[t].eventId == e
  }

  /** Two tickets of the event stand for one seat. */
  ghost predicate Oversellable(tickets: map<int, Ticket>, e: int) {
    exists t, u :: IsOf(tickets, e, t) && IsOf(tickets, e, u) && t != u && tickets[t].seatId == tickets[u].seatId
  }

  /** Some SOLD ticket of the event names no booking. */
  ghost predicate SoldToNobody(tickets: map<int, Ticket>, e: int) {
    exists t :: IsOf(tickets, e, t) && tickets[t].status == Sold && tickets[t].bookingId == None
  }

  /** Some HELD ticket of the event names no hold. */
  ghost predicate HeldByNobody(tickets: map<int, Ticket>, e: int) {
    exists t :: IsOf(tickets, e, t) && tickets[t].status == Held && tickets[t].holdId == None
  }

  ghost predicate OpenRefund(bookings: map<Uuid, Booking>, e: int) {
    exists b :: b in bookings && bookings[b].eventId == e && bookings[b].status == Compensating
  }

  /** The tickets that name a CONFIRMED booking of the event. */
  function ConfirmedSeats(db: DB, e: int): set<int> {
    set t | t in db.tickets && db.tickets[t].bookingId.Some? && db.tickets[t].bookingId.value in db.bookings
            && db.bookings[db.tickets[t].bookingId.value].eventId == e
            && db.bookings[db.tickets[t].bookingId.value].status == Confirmed
  }

  /**
   On any tables at all, corrupt ones included: the audit passes exactly when no seat could be sold twice, nothing is
   sold or held without an owner, no refund is open, and as many tickets are SOLD as the event's confirmed bookings own.
   */
  lemma ConsistentExactly(db: DB, e: int)
    ensures var r := CheckIntegrity(db, e);
            && (r.consistent <==>
                && !Oversellable(db.tickets, e) && !SoldToNobody(db.tickets, e) && !HeldByNobody(db.tickets, e)
                && !OpenRefund(db.bookings, e) && |TicketsWith(db.tickets, e, Sold)| == |ConfirmedSeats(db, e)|)
            && (r.duplicateSeats > 0 <==> Oversellable(db.tickets, e))
            && (r.soldWithoutBooking > 0 <==> SoldToNobody(db.tickets, e))
            && (r.heldWithoutHold > 0 <==> HeldByNobody(db.tickets, e))
            && (r.unresolvedCompensations > 0 <==> OpenRefund(db.bookings, e))
            && r.ticketsInConfirmedBookings == |ConfirmedSeats(db, e)|
            && r.total == r.available + r.held + r.sold
  {
    StatusesPartition(db.tickets, e);
    SeatCountIsOwned(db.tickets, InOrder(BookingsOf(db.bookings, e, Confirmed)));
    ElemsOfInOrder(BookingsOf(db.bookings, e, Confirmed));
    OwnedIsConfirmed(db, e);
    DuplicatesFound(db.tickets, e);
    OrphansFound(db.tickets, e);
    OpenRefunds(db.bookings, e);
    hide Duplicated, Orphans, BookingsOf, ConfirmedSeats, EventTickets, TicketsWith;
  }

  lemma OwnedIsConfirmed(db: DB, e: int)
    ensures Owned(db.tickets, BookingsOf(db.bookings, e, Confirmed)) == ConfirmedSeats(db, e)
  {
  }

  lemma DuplicatesFound(tickets: map<int, Ticket>, e: int)
    ensures |Duplicated(tickets, e)| > 0 <==> Oversellable(tickets, e)
  {
    if Duplicated(tickets, e) != {} {
      var seat: int :| seat in Duplicated(tickets, e);
      var t :| t in EventTickets(tickets, e) && tickets[t].seatId == seat
               && exists u :: u in EventTickets(tickets, e) && u != t && tickets[u].seatId == tickets[t].seatId;
      var u :| u in EventTickets(tickets, e) && u != t && tickets[u].seatId == tickets[t].seatId;
      assert IsOf(tickets, e, t) && IsOf(tickets, e, u);
    }
    if Oversellable(tickets, e) {
      var t, u :|
        IsOf(tickets, e, t) && IsOf(tickets, e, u) && t != u && tickets[t].seatId == tickets[u].seatId;
      assert t in EventTickets(tickets, e) && u in EventTickets(tickets, e);
      assert tickets[t].seatId in Duplicated(tickets, e);
    }
  }

  lemma OrphansFound(tickets: map<int, Ticket>, e: int)
    ensures |Orphans(tickets, e, Sold)| > 0 <==> SoldToNobody(tickets, e)
    ensures |Orphans(tickets, e, Held)| > 0 <==> HeldByNobody(tickets, e)
  {
    if Orphans(tickets, e, Sold) != {} {
      var t := AnyMember(Orphans(tickets, e, Sold));
      assert IsOf(tickets, e, t);
    }
    if Orphans(tickets, e, Held) != {} {
      var t := AnyMember(Orphans(tickets, e, Held));
      assert IsOf(tickets, e, t);
    }
    if SoldToNobody(tickets, e) {
      var t :| IsOf(tickets, e, t) && tickets[t].status == Sold && tickets[t].bookingId == None;
      assert t in Orphans(tickets, e, Sold);
    }
    if HeldByNobody(tickets, e) {
      var t :| IsOf(tickets, e, t) && tickets[t].status == Held && tickets[t].holdId == None;
      assert t in Orphans(tickets, e, Held);
    }
  }

  // ---------- what it finds on a reachable state ----------

  lemma SoldIsOwned(w: World, e: int)
    requires AllInv(w)
    ensures Owned(w.db.tickets, BookingsOf(w.db.bookings, e, Confirmed)) == TicketsWith(w.db.tickets, e, Sold)
  {
    forall t | t in w.db.tickets
      ensures t in Owned(w.db.tickets, BookingsOf(w.db.bookings, e, Confirmed))
              <==> t in TicketsWith(w.db.tickets, e, Sold)
    {
      assert TicketOk(w.db.tickets[t], w.db.holds, w.clock);
      assert OwnerOk(w.db.tickets[t], w.db.bookings);
    }
  }

  lemma NoOrphans(w: World, e: int)
    requires AllInv(w)
    ensures Orphans(w.db.tickets, e, Sold) == {} && Orphans(w.db.tickets, e, Held) == {}
  {
    forall t ensures t !in Orphans(w.db.tickets, e, Sold) && t !in Orphans(w.db.tickets, e, Held) {
      assert t in w.db.tickets ==> TicketOk(w.db.tickets[t], w.db.holds, w.clock);
    }
  }

  lemma SeatsStayUnique(w: World, w': World)
    requires UniqueSeats(w.db.tickets) && Follows(w, w')
    ensures UniqueSeats(w'.db.tickets)
  {
    forall t, u | t in w'.db.tickets && u in w'.db.tickets && t != u
      ensures w'.db.tickets[t].eventId != w'.db.tickets[u].eventId
              || w'.db.tickets[t].seatId != w'.db.tickets[u].seatId
    {
      assert t in w.db.tickets.Keys && u in w.db.tickets.Keys;
      assert TicketFollows(w.db.tickets[t], w'.db.tickets[t], w.db.holds);
      assert TicketFollows(w.db.tickets[u], w'.db.tickets[u], w.db.holds);
    }
  }

  lemma NoDuplicates(tickets: map<int, Ticket>, e: int)
    requires UniqueSeats(tickets)
    ensures Duplicated(tickets, e) == {}
  {
  }

  /**
   On every reachable state the audit finds no duplicate seat, no orphan, and as many sold tickets as confirmed bookings
   own; it reports the event inconsistent exactly when some booking of the event is still COMPENSATING.
   */
  lemma AuditFindsOnlyOpenRefunds(w0: World, steps: seq<Step>, w: World, e: int)
    requires Initial(w0) && w == Exec(w0, steps)
    ensures var r := CheckIntegrity(w.db, e);
            && r.duplicateSeats == 0 && r.soldWithoutBooking == 0 && r.heldWithoutHold == 0
            && r.sold == r.ticketsInConfirmedBookings && r.total == r.available + r.held + r.sold
            && (r.consistent <==> !OpenRefund(w.db.bookings, e))
  {
    Reachable(w0, steps);
    InitialInv(w0);
    RunKeepsInv(w0, steps);
    SeatsStayUnique(w0, w);
    NoDuplicates(w.db.tickets, e);
    NoOrphans(w, e);
    StatusesPartition(w.db.tickets, e);
    var confirmed := BookingsOf(w.db.bookings, e, Confirmed);
    SeatCountIsOwned(w.db.tickets, InOrder(confirmed));
    ElemsOfInOrder(confirmed);
    SoldIsOwned(w, e);
    OpenRefunds(w.db.bookings, e);
  }

  lemma OpenRefunds(bookings: map<Uuid, Booking>, e: int)
    ensures |BookingsOf(bookings, e, Compensating)| > 0 <==> OpenRefund(bookings, e)
  {
    if b :| b in bookings && bookings[b].eventId == e && bookings[b].status == Compensating {
      assert b in BookingsOf(bookings, e, Compensating);
    } else {
      forall b ensures b !in BookingsOf(bookings, e, Compensating) {
      }
    }
  }
}
