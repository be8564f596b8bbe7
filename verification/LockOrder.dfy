/**
 Row locks among concurrent claims and reapers (booking/holds.go:91-109, booking/reaper.go:101-109). A claim locks its
 tickets one at a time in ascending order and keeps them until it ends; a reaper skips locked rows and never waits.
 */
module LockOrder {
  import opened Common

  /** A claim's tickets in the order it locks them, and how many of them it has. */
  datatype Locker = Locker(wants: seq<int>, has: nat)

  datatype Locks = Locks(claims: map<nat, Locker>, reapers: map<nat, set<int>>)

  datatype Move =
    | Arrive(claim: nat, wants: seq<int>)
    | Acquire(claim: nat)
    | Finish(claim: nat)
    | Grab(reaper: nat, rows: set<int>)
    | Drop(reaper: nat)

  function LockedBy(l: Locker): set<int> {
    set k | 0 <= k < |l.wants| && k < l.has :: l.wants[k]
  }

  predicate Waiting(l: Locker) {
    l.has < |l.wants|
  }

  predicate LockedByClaim(s: Locks, t: int) {
    exists c :: c in s.claims && t in LockedBy(s.claims[c])
  }

  predicate LockedByReaper(s: Locks, t: int) {
    exists r :: r in s.reapers && t in s.reapers[r]
  }

  predicate Free(s: Locks, t: int) {
    !LockedByClaim(s, t) && !LockedByReaper(s, t)
  }

  /** A claim can take its next lock, or has them all and can end. */
  predicate CanMove(s: Locks, c: nat) {
    c in s.claims && (Waiting(s.claims[c]) ==> Free(s, s.claims[c].wants[s.claims[c].has]))
  }

  function Next(s: Locks, m: Move): Locks {
    match m
    case Arrive(c, wants) =>
      if c in s.claims || !Ascending(wants) then s else s.(claims := s.claims[c := Locker(wants, 0)])
    case Acquire(c) =>
      if c in s.claims && Waiting(s.claims[c]) && Free(s, s.claims[c].wants[s.claims[c].has])
      then s.(claims := s.claims[c := s.claims[c].(has := s.claims[c].has + 1)])
      else s
    case Finish(c) => if c in s.claims && !Waiting(s.claims[c]) then s.(claims := s.claims - {c}) else s
    case Grab(r, rows) =>
      if r in s.reapers || exists t :: t in rows && !Free(s, t) then s else s.(reapers := s.reapers[r := rows])
    case Drop(r) => s.(reapers := s.reapers - {r})
  }

  function Run(s: Locks, moves: seq<Move>): Locks
    decreases |moves|
  {
    if moves == [] then s else Run(Next(s, moves[0]), moves[1..])
  }

  const NONE: Locks := Locks(map[], map[])

  // ---------- locks are exclusive ----------

  ghost predicate Exclusive(s: Locks) {
    && (forall c :: c in s.claims ==> Ascending(s.claims[c].wants) && s.claims[c].has <= |s.claims[c].wants|)
    && (forall c, d :: c in s.claims && d in s.claims && c != d ==> LockedBy(s.claims[c]) !! LockedBy(s.claims[d]))
    && (forall c, r :: c in s.claims && r in s.reapers ==> LockedBy(s.claims[c]) !! s.reapers[r])
    && (forall r, q :: r in s.reapers && q in s.reapers && r != q ==> s.reapers[r] !! s.reapers[q])
  }

  lemma AcquireAdds(l: Locker)
    requires Waiting(l)
    ensures LockedBy(l.(has := l.has + 1)) == LockedBy(l) + {l.wants[l.has]}
  {
    var l' := l.(has := l.has + 1);
    forall t | t in LockedBy(l) + {l.wants[l.has]} ensures t in LockedBy(l') {
      if t in LockedBy(l) {
        var k :| 0 <= k < |l.wants| && k < l.has && l.wants[k] == t;
        assert l'.wants[k] == t && k < l'.has;
      } else {
        assert l'.wants[l.has] == t;
      }
    }
  }

  lemma ArriveKeepsExclusive(s: Locks, c: nat, wants: seq<int>)
    requires Exclusive(s)
    ensures Exclusive(Next(s, Arrive(c, wants)))
  {
    assert LockedBy(Locker(wants, 0)) == {};
  }

  lemma AcquireKeepsExclusive(s: Locks, c: nat)
    requires Exclusive(s) && c in s.claims && Waiting(s.claims[c])
    requires Free(s, s.claims[c].wants[s.claims[c].has])
    ensures Exclusive(s.(claims := s.claims[c := s.claims[c].(has := s.claims[c].has + 1)]))
  {
    var l, t := s.claims[c].(has := s.claims[c].has + 1), s.claims[c].wants[s.claims[c].has];
    AcquireAdds(s.claims[c]);
    forall d | d in s.claims && d != c ensures LockedBy(l) !! LockedBy(s.claims[d]) {
      assert t !in LockedBy(s.claims[d]);
    }
    forall r | r in s.reapers ensures LockedBy(l) !! s.reapers[r] {
      assert t !in s.reapers[r];
    }
    hide LockedBy;
  }

  lemma GrabKeepsExclusive(s: Locks, r: nat, rows: set<int>)
    requires Exclusive(s) && r !in s.reapers && forall t :: t in rows ==> Free(s, t)
    ensures Exclusive(s.(reapers := s.reapers[r := rows]))
  {
    forall c | c in s.claims ensures LockedBy(s.claims[c]) !! rows {
      forall t | t in rows ensures t !in LockedBy(s.claims[c]) {
        assert Free(s, t);
      }
    }
    forall q | q in s.reapers ensures s.reapers[q] !! rows {
      forall t | t in rows ensures t !in s.reapers[q] {
        assert Free(s, t);
      }
    }
  }

  lemma MoveKeepsExclusive(s: Locks, m: Move)
    requires Exclusive(s)
    ensures Exclusive(Next(s, m))
  {
    hide LockedBy;
    match m
    case Arrive(c, wants) => ArriveKeepsExclusive(s, c, wants);
    case Acquire(c) =>
      if c in s.claims && Waiting(s.claims[c]) && Free(s, s.claims[c].wants[s.claims[c].has]) {
        AcquireKeepsExclusive(s, c);
      }
    case Finish(c) =>
    case Grab(r, rows) =>
      if r !in s.reapers && forall t :: t in rows ==> Free(s, t) {
        GrabKeepsExclusive(s, r, rows);
      }
    case Drop(r) =>
  }

  lemma {:induction false} RunKeepsExclusive(s: Locks, moves: seq<Move>)
    requires Exclusive(s)
    ensures Exclusive(Run(s, moves))
    decreases |moves|
  {
    if moves == [] {
    } else {
      MoveKeepsExclusive(s, moves[0]);
      RunKeepsExclusive(Next(s, moves[0]), moves[1..]);
    }
  }

  // ---------- nobody waits in a circle ----------

  /** Claim `c` waits for a row that claim `d` has. */
  predicate WaitsFor(s: Locks, c: nat, d: nat) {
    && c in s.claims && d in s.claims && Waiting(s.claims[c])
    && s.claims[c].wants[s.claims[c].has] in LockedBy(s.claims[d])
  }

  predicate WaitPath(s: Locks, path: seq<nat>) {
    forall k :: 0 <= k < |path| - 1 ==> WaitsFor(s, path[k], path[k + 1])
  }

  function Wanted(l: Locker): int
    requires Waiting(l)
  {
    l.wants[l.has]
  }

  /** Whoever holds the row a claim waits for, and waits in turn, waits for a higher row. */
  lemma WaitsUpwards(s: Locks, c: nat, d: nat)
    requires Exclusive(s) && WaitsFor(s, c, d) && Waiting(s.claims[d])
    ensures Wanted(s.claims[c]) < Wanted(s.claims[d])
  {
    var l := s.claims[d];
    var k :| 0 <= k < |l.wants| && k < l.has && l.wants[k] == Wanted(s.claims[c]);
  }

  lemma {:induction false} PathRises(s: Locks, path: seq<nat>)
    requires Exclusive(s) && |path| >= 2 && WaitPath(s, path)
    requires path[|path| - 1] in s.claims && Waiting(s.claims[path[|path| - 1]])
    ensures path[0] in s.claims && Waiting(s.claims[path[0]])
    ensures Wanted(s.claims[path[0]]) < Wanted(s.claims[path[|path| - 1]])
  {
    assert WaitsFor(s, path[0], path[1]);
    if |path| == 2 {
      WaitsUpwards(s, path[0], path[1]);
    } else {
      forall k | 0 <= k < |path[1..]| - 1 ensures WaitsFor(s, path[1..][k], path[1..][k + 1]) {
        assert WaitsFor(s, path[k + 1], path[k + 2]);
      }
      PathRises(s, path[1..]);
      WaitsUpwards(s, path[0], path[1]);
    }
  }

  /** In no reachable state does a chain of waiting claims lead back to its start. */
  lemma NoWaitCycle(moves: seq<Move>, path: seq<nat>)
    requires |path| >= 2 && WaitPath(Run(NONE, moves), path)
    ensures path[0] != path[|path| - 1]
  {
    var s := Run(NONE, moves);
    RunKeepsExclusive(NONE, moves);
    assert WaitsFor(s, path[0], path[1]);
    if path[0] == path[|path| - 1] {
      PathRises(s, path);
      assert false;
    }
  }

  // ---------- somebody can always move ----------

  /** Of the waiting claims, one wants the highest row. */
  lemma {:induction false} Highest(s: Locks, cs: set<nat>) returns (c: nat)
    requires cs != {} && forall d :: d in cs ==> d in s.claims && Waiting(s.claims[d])
    ensures c in cs && forall d :: d in cs ==> Wanted(s.claims[d]) <= Wanted(s.claims[c])
  {
    c := AnyMember(cs);
    if cs != {c} {
      assert cs - {c} != {} by {
        assert cs == (cs - {c}) + {c};
      }
      var e := Highest(s, cs - {c});
      if Wanted(s.claims[c]) < Wanted(s.claims[e]) {
        c := e;
      }
    }
  }

  /** While a claim is in progress some claim can take its next lock or end, or some claim waits for a reaper. */
  lemma SomebodyCanMove(moves: seq<Move>, c0: nat)
    requires c0 in Run(NONE, moves).claims
    ensures var s := Run(NONE, moves);
            || (exists c :: CanMove(s, c))
            || (exists c :: c in s.claims && Waiting(s.claims[c]) && LockedByReaper(s, Wanted(s.claims[c])))
  {
    var s := Run(NONE, moves);
    RunKeepsExclusive(NONE, moves);
    var waiting := set c | c in s.claims && Waiting(s.claims[c]);
    if c0 in waiting {
      var c := Highest(s, waiting);
      if LockedByClaim(s, Wanted(s.claims[c])) {
        var d :| d in s.claims && Wanted(s.claims[c]) in LockedBy(s.claims[d]);
        if Waiting(s.claims[d]) {
          WaitsUpwards(s, c, d);
          assert false;
        }
        assert CanMove(s, d);
      } else if !LockedByReaper(s, Wanted(s.claims[c])) {
        assert CanMove(s, c);
      }
    } else {
      assert CanMove(s, c0);
    }
  }

  lemma {:induction false} RunOne(s: Locks, moves: seq<Move>, m: Move)
    ensures Run(s, moves + [m]) == Next(Run(s, moves), m)
    decreases |moves|
  {
    if moves == [] {
      assert moves + [m] == [m] && [m][1..] == [];
    } else {
      assert (moves + [m])[1..] == moves[1..] + [m];
      RunOne(Next(s, moves[0]), moves[1..], m);
    }
  }

  ghost predicate ReapersEnd(drops: seq<Move>) {
    forall k :: 0 <= k < |drops| ==> drops[k].Drop?
  }

  /** A reaper never waits, so all of them may end; once they have, some claim can move. */
  lemma {:induction false} SomebodyMovesAfterReapers(moves: seq<Move>, c0: nat) returns (drops: seq<Move>, c: nat)
    requires c0 in Run(NONE, moves).claims
    ensures ReapersEnd(drops) && Run(NONE, moves + drops).claims == Run(NONE, moves).claims
    ensures CanMove(Run(NONE, moves + drops), c)
    decreases |Run(NONE, moves).reapers|
  {
    var s := Run(NONE, moves);
    if s.reapers.Keys == {} {
      SomebodyCanMove(moves, c0);
      drops := [];
      assert moves + drops == moves;
      c :| CanMove(s, c);
    } else {
      var r := AnyMember(s.reapers.Keys);
      RunOne(NONE, moves, Drop(r));
      DropShrinks(s, r);
      drops, c := SomebodyMovesAfterReapers(moves + [Drop(r)], c0);
      assert moves + [Drop(r)] + drops == moves + ([Drop(r)] + drops);
      drops := [Drop(r)] + drops;
    }
  }

  lemma DropShrinks(s: Locks, r: nat)
    requires r in s.reapers
    ensures |Next(s, Drop(r)).reapers| < |s.reapers| && Next(s, Drop(r)).claims == s.claims
  {
    assert (s.reapers - {r}).Keys == s.reapers.Keys - {r};
    assert |s.reapers| == |s.reapers.Keys| && |s.reapers - {r}| == |(s.reapers - {r}).Keys|;
  }

  // ---------- everybody can finish ----------

  /** A reaper gets the rows it wants at once exactly when nobody has any of them, and never waits for the others. */
  lemma ReaperTakesOrSkips(s: Locks, r: nat, rows: set<int>)
    requires r !in s.reapers
    ensures var s' := Next(s, Grab(r, rows));
            && s'.claims == s.claims
            && (r in s'.reapers <==> forall t :: t in rows ==> !LockedByClaim(s, t) && !LockedByReaper(s, t))
            && (r in s'.reapers ==> s'.reapers == s.reapers[r := rows])
            && (r !in s'.reapers ==> s' == s)
  {
    hide LockedByClaim, LockedByReaper;
  }

  /** The locks a claim still has to take, and its end. */
  function Rest(l: Locker): nat {
    if Waiting(l) then |l.wants| - l.has + 1 else 1
  }

  ghost function Work(claims: map<nat, Locker>, cs: set<nat>): nat
    requires cs <= claims.Keys
    decreases |cs|
  {
    if cs == {} then 0
    else
      var c :| c in cs;
      Rest(claims[c]) + Work(claims, cs - {c})
  }

  lemma {:induction false} WorkWithout(claims: map<nat, Locker>, cs: set<nat>, c: nat)
    requires cs <= claims.Keys && c in cs
    ensures Work(claims, cs) == Rest(claims[c]) + Work(claims, cs - {c})
    decreases |cs|
  {
    var d :| d in cs && Work(claims, cs) == Rest(claims[d]) + Work(claims, cs - {d});
    if d != c {
      WorkWithout(claims, cs - {d}, c);
      WorkWithout(claims, cs - {c}, d);
      assert cs - {d} - {c} == cs - {c} - {d};
    }
  }

  lemma {:induction false} SameWork(a: map<nat, Locker>, b: map<nat, Locker>, cs: set<nat>)
    requires cs <= a.Keys && cs <= b.Keys && forall c :: c in cs ==> a[c] == b[c]
    ensures Work(a, cs) == Work(b, cs)
    decreases |cs|
  {
    if cs != {} {
      var c := AnyMember(cs);
      WorkWithout(a, cs, c);
      WorkWithout(b, cs, c);
      SameWork(a, b, cs - {c});
    }
  }

  /** What the claim that can move does next. */
  function NextOf(s: Locks, c: nat): Move
    requires c in s.claims
  {
    if Waiting(s.claims[c]) then Acquire(c) else Finish(c)
  }

  lemma MovingIsProgress(s: Locks, c: nat)
    requires CanMove(s, c)
    ensures var s' := Next(s, NextOf(s, c));
            Work(s'.claims, s'.claims.Keys) < Work(s.claims, s.claims.Keys)
  {
    var s', keys := Next(s, NextOf(s, c)), s.claims.Keys;
    WorkWithout(s.claims, keys, c);
    SameWork(s.claims, s'.claims, keys - {c});
    if Waiting(s.claims[c]) {
      assert s'.claims.Keys == keys;
      WorkWithout(s'.claims, keys, c);
    } else {
      assert s'.claims.Keys == keys - {c};
    }
  }

  /** Wherever a run of locks has got to, it can be continued until every claim has all its tickets and has ended. */
  lemma {:induction false} EverybodyCanFinish(moves: seq<Move>) returns (more: seq<Move>)
    ensures Run(NONE, moves + more).claims == map[]
    ensures forall k :: 0 <= k < |more| ==> !more[k].Arrive? && !more[k].Grab?
    decreases Work(Run(NONE, moves).claims, Run(NONE, moves).claims.Keys)
  {
    var s := Run(NONE, moves);
    if s.claims == map[] {
      assert moves + [] == moves;
      more := [];
    } else {
      var c0 := AnyMember(s.claims.Keys);
      var drops, c := SomebodyMovesAfterReapers(moves, c0);
      var s1 := Run(NONE, moves + drops);
      var m := NextOf(s1, c);
      RunOne(NONE, moves + drops, m);
      MovingIsProgress(s1, c);
      var rest := EverybodyCanFinish(moves + drops + [m]);
      assert moves + drops + [m] + rest == moves + (drops + [m] + rest);
      more := drops + [m] + rest;
    }
  }
}
