/** A run that leaves a sweep exactly as much as it may release (booking/reaper.go:52-64). */
module SweepLimit {
  import opened Common
  import opened Tables
  import opened Protocol
  import C = Claims
  import R = Reaping

  function UpTo(n: nat): (s: set<int>)
    ensures |s| == n && forall t :: t in s <==> 1 <= t <= n
  {
    if n == 0 then {} else UpTo(n - 1) + {n}
  }

  function Row(t: int, held: bool): Ticket {
    if held then Ticket(1, t, Held, Some(t), Some(HOLD_TTL), None) else Ticket(1, t, Available, None, None, None)
  }

  /** Tickets 1 to n, the first k of them claimed at time 0. */
  function Rows(n: nat, k: nat): map<int, Ticket> {
    map t | t in UpTo(n) :: Row(t, t <= k)
  }

  function Start(n: nat): World {
    World(0, DB(map[1 := Event(OnSale, 0)], map[], Rows(n, 0), map[], map[], [], map[]), map[], [], [])
  }

  /** Ticket k under hold k. */
  function ClaimOf(k: int): Step {
    Claim(C.ClaimArgs("user", 1, {k}, None, 0, k, "token"))
  }

  function ClaimsTo(k: nat): seq<Step> {
    if k == 0 then [] else ClaimsTo(k - 1) + [ClaimOf(k)]
  }

  ghost predicate Claimed(w: World, n: nat, k: nat) {
    && w.clock == 0 && w.db.tickets == Rows(n, k)
    && forall h :: h in w.db.holds ==> h <= k
  }

  lemma ClaimNext(w: World, n: nat, k: nat)
    requires 1 <= k <= n && Claimed(w, n, k - 1)
    ensures Claimed(Next(w, ClaimOf(k)), n, k)
  {
    var a := ClaimOf(k).args;
    assert CanClaim(w, a);
    assert C.InEvent(w.db, 1, k) && Claimable(w.db.tickets[k], 0);
    assert C.Unclaimable(w.db, a) == {} && C.ClaimTx(w.db, a).1 == C.Claimed;
    OneMoreRow(n, k);
    hide Rows;
  }

  lemma OneMoreRow(n: nat, k: nat)
    requires 1 <= k
    ensures Taken(Rows(n, k - 1), {k}, k, HOLD_TTL) == Rows(n, k)
  {
  }

  lemma {:induction false} ClaimsTake(n: nat, k: nat)
    requires k <= n
    ensures Claimed(Exec(Start(n), ClaimsTo(k)), n, k)
  {
    if k > 0 {
      ClaimsTake(n, k - 1);
      ExecOne(Start(n), ClaimsTo(k - 1), ClaimOf(k));
      ClaimNext(Exec(Start(n), ClaimsTo(k - 1)), n, k);
    }
  }

  /** All n claimed, and then the clock reaches their expiry. */
  function Lapsing(n: nat): seq<Step> {
    ClaimsTo(n) + [Tick(HOLD_TTL)]
  }

  lemma AllLapse(n: nat)
    ensures Initial(Start(n))
    ensures var w := Exec(Start(n), Lapsing(n));
            w.clock == HOLD_TTL && LapsedTickets(w.db.tickets, w.clock) == UpTo(n)
  {
    ClaimsTake(n, n);
    ExecOne(Start(n), ClaimsTo(n), Tick(HOLD_TTL));
    assert LapsedTickets(Rows(n, n), HOLD_TTL) == UpTo(n);
  }

  /** With exactly 50,000 tickets lapsed a sweep that meets no locked row reports truncation and leaves nothing. */
  lemma TruncatedWithNothingLeft(tickets: map<int, Ticket>, locked: seq<set<int>>, batches: seq<set<int>>,
      released: nat, truncated: bool)
    requires var w := Exec(Start(R.SWEEP_LIMIT), Lapsing(R.SWEEP_LIMIT));
             R.Sweeps(w.db.tickets, tickets, w.clock, locked, batches, released, truncated)
    requires R.NoneLocked(locked)
    ensures Initial(Start(R.SWEEP_LIMIT))
    ensures truncated && released == R.SWEEP_LIMIT && LapsedTickets(tickets, HOLD_TTL) == {}
  {
    AllLapse(R.SWEEP_LIMIT);
    var w := Exec(Start(R.SWEEP_LIMIT), Lapsing(R.SWEEP_LIMIT));
    R.AloneSweep(w.db.tickets, tickets, w.clock, locked, batches, released, truncated);
  }

  /** Any number of lapsed rows, all locked elsewhere when the first batch is taken: no flag, and all stay lapsed. */
  lemma SkippedWithoutFlag(n: nat, tickets: map<int, Ticket>, locked: seq<set<int>>, batches: seq<set<int>>,
      released: nat, truncated: bool)
    requires n > 0
    requires var w := Exec(Start(n), Lapsing(n));
             R.Sweeps(w.db.tickets, tickets, w.clock, locked, batches, released, truncated)
    requires UpTo(n) <= locked[0]
    ensures Initial(Start(n))
    ensures !truncated && released == 0 && LapsedTickets(tickets, HOLD_TTL) == UpTo(n) && 1 in UpTo(n)
  {
    AllLapse(n);
    var w := Exec(Start(n), Lapsing(n));
    NoneOpen(w.db.tickets, w.clock, locked[0]);
    AllSkipped(w.db.tickets, tickets, w.clock, locked, batches, released, truncated);
  }

  lemma FullStart(batches: seq<set<int>>)
    requires |batches| > 1 && R.AllFull(batches[..|batches| - 1])
    ensures |batches[0]| == REAP_BATCH_SIZE
  {
    assert batches[..|batches| - 1][0] == batches[0];
  }

  lemma AllSkipped(start: map<int, Ticket>, tickets: map<int, Ticket>, now: Time, locked: seq<set<int>>,
      batches: seq<set<int>>, released: nat, truncated: bool)
    requires R.Sweeps(start, tickets, now, locked, batches, released, truncated)
    requires R.Batch(start, now, locked[0]) == {}
    ensures !truncated && released == 0 && tickets == start
  {
    R.FirstBatchIs(start, now, locked, batches);
    hide R.AreBatches, R.Batch;
    if |batches| > 1 {
      FullStart(batches);
      assert false;
    }
    assert batches == [{}] && batches[..0] == [];
    assert Freed(start, {}) == start;
  }

  lemma NoneOpen(tickets: map<int, Ticket>, now: Time, locked: set<int>)
    requires LapsedTickets(tickets, now) <= locked
    ensures R.Batch(tickets, now, locked) == {}
  {
    R.BatchIs(tickets, now, locked);
    assert LapsedTickets(tickets, now) - locked == {};
  }
}
