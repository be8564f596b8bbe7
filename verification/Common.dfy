/** Values every component shares: optional values, results, and finite sets listed in ascending order. */
module Common {

  datatype Option<+T> = None | Some(value: T)

  datatype Result<+T, +E> = Ok(value: T) | Err(error: E)

  // Microseconds, the resolution of the database's timestamps.
  type Time = int

  const SECOND: Time := 1_000_000

  // The largest 64-bit int.
  const MAX_INT: int := 0x7FFF_FFFF_FFFF_FFFF

  function Elems<T(==)>(s: seq<T>): set<T> {
    set x | x in s
  }

  predicate Ascending(s: seq<int>) {
    forall i, j :: 0 <= i < j < |s| ==> s[i] < s[j]
  }

  lemma AnyMember<T>(s: set<T>) returns (x: T)
    requires s != {}
    ensures x in s
  {
    x :| x in s;
  }

  lemma {:induction false} MaximumExists(s: set<int>)
    requires s != {}
    ensures exists m :: m in s && forall x :: x in s ==> x <= m
  {
    var y := AnyMember(s);
    if s - {y} != {} {
      MaximumExists(s - {y});
      var m :| m in s - {y} && forall x :: x in s - {y} ==> x <= m;
      var top := if m < y then y else m;
      assert forall x :: x in s ==> x == y || x in s - {y};
      assert top in s && forall x :: x in s ==> x <= top;
    } else {
      assert forall x :: x in s ==> x == y || x in s - {y};
      assert y in s && forall x :: x in s ==> x <= y;
    }
  }

  function Maximum(s: set<int>): (m: int)
    requires s != {}
    ensures m in s && forall x :: x in s ==> x <= m
  {
    MaximumExists(s);
    var m :| m in s && forall x :: x in s ==> x <= m;
    m
  }

  /** The members of a set in ascending order: what a query with ORDER BY on a unique key returns. */
  function InOrder(s: set<int>): (r: seq<int>)
    ensures Ascending(r) && |r| == |s|
    ensures forall x :: x in r <==> x in s
  {
    if s == {} then []
    else
      var m := Maximum(s);
      InOrder(s - {m}) + [m]
  }

  lemma ElemsOfInOrder(s: set<int>)
    ensures Elems(InOrder(s)) == s
  {
  }

  lemma LastOfAscending(front: seq<int>, last: int)
    requires Ascending(front + [last])
    ensures Ascending(front) && Elems(front + [last]) == Elems(front) + {last}
    ensures forall x :: x in Elems(front) ==> x < last
  {
    var r := front + [last];
    forall i, j | 0 <= i < j < |front| ensures front[i] < front[j] {
      assert r[i] == front[i] && r[j] == front[j];
    }
    forall x | x in front ensures x < last {
      var i :| 0 <= i < |front| && front[i] == x;
      assert r[i] == x && r[|front|] == last;
    }
  }

  lemma InOrderEndsIn(s: set<int>, last: int)
    requires last in s && forall x :: x in s ==> x <= last
    ensures InOrder(s) == InOrder(s - {last}) + [last]
  {
    assert Maximum(s) == last;
  }

  lemma InOrderExtended(s: set<int>, last: int)
    requires forall x :: x in s ==> x < last
    ensures InOrder(s + {last}) == InOrder(s) + [last]
  {
    InOrderEndsIn(s + {last}, last);
    assert s + {last} - {last} == s;
  }

  lemma InOrderEndsInLast(front: seq<int>, last: int)
    requires Ascending(front + [last])
    ensures Ascending(front) && InOrder(Elems(front + [last])) == InOrder(Elems(front)) + [last]
  {
    hide Ascending, Elems;
    LastOfAscending(front, last);
    InOrderExtended(Elems(front), last);
  }

  /** An ascending list is determined by its members. */
  lemma {:induction false} AscendingIsInOrder(r: seq<int>)
    requires Ascending(r)
    ensures r == InOrder(Elems(r))
  {
    if r == [] {
      assert Elems(r) == {};
    } else {
      var front, last := r[..|r| - 1], r[|r| - 1];
      assert r == front + [last];
      InOrderEndsInLast(front, last);
      AscendingIsInOrder(front);
    }
  }

  /** An ascending list is as long as its set of members. */
  lemma {:induction false} AscendingSize(r: seq<int>)
    requires Ascending(r)
    ensures |Elems(r)| == |r|
  {
    AscendingIsInOrder(r);
  }

  lemma {:induction false} SubsetSize<T>(a: set<T>, b: set<T>)
    requires a <= b
    ensures |a| <= |b|
    ensures |a| == |b| ==> a == b
  {
    if a == {} {
    } else {
      var x :| x in a;
      SubsetSize(a - {x}, b - {x});
    }
  }
}
