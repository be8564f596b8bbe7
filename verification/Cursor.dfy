/** Pagination cursors (internal/cursor/cursor.go): a sort key, checked on the way out and on the way back in. */
module Cursor {
  import opened Common

  datatype Key = Key(startsAt: Time, eventId: int)

  // The zero timestamp, and the years 0000 to 9999 that a JSON timestamp can carry.
  const ZERO_TIME: Time := -62_135_596_800 * SECOND
  const FIRST_YEAR: Time := -62_167_219_200 * SECOND
  const YEAR_10000: Time := 253_402_300_800 * SECOND

  /** The opaque string of a cursor, or one that does not decode to a key at all. */
  datatype Wire = Wire(key: Key) | Garbage

  datatype Error = Malformed | NotJson

  function Encode(k: Key): Result<Wire, Error> {
    if k.eventId <= 0 then Err(Malformed)
    else if k.startsAt < FIRST_YEAR || YEAR_10000 <= k.startsAt then Err(NotJson)
    else Ok(Wire(k))
  }

  function Decode(w: Wire): Result<Key, Error> {
    match w
    case Garbage => Err(Malformed)
    case Wire(k) => if k.eventId <= 0 || k.startsAt == ZERO_TIME then Err(Malformed) else Ok(k)
  }

  /** A cursor that was handed out comes back as its key exactly when the key's time is not the zero time. */
  lemma RoundTrip(k: Key)
    requires Encode(k).Ok?
    ensures Decode(Encode(k).value) == Ok(k) <==> k.startsAt != ZERO_TIME
  {
  }

  /** Handed out is exactly a cursor for a positive id and a time that JSON can carry, in the years 0000 to 9999. */
  lemma HandedOutIff(k: Key)
    ensures Encode(k) == Ok(Wire(k)) <==>
              k.eventId >= 1 && -62_167_219_200 * SECOND <= k.startsAt < 253_402_300_800 * SECOND
    ensures Encode(k).Ok? ==> Encode(k).value == Wire(k)
    ensures Encode(k) == Err(Malformed) <==> k.eventId < 1
  {
  }

  /** Accepted is exactly the cursor of a positive id and a non-zero time, whether or not it was ever handed out. */
  lemma AcceptedIff(w: Wire)
    ensures Decode(w).Ok? <==> w.Wire? && w.key.eventId >= 1 && w.key.startsAt != -62_135_596_800 * SECOND
    ensures Decode(w).Ok? ==> w == Wire(Decode(w).value)
    ensures Decode(w).Err? ==> Decode(w) == Err(Malformed)
  {
  }

  predicate Before(a: Key, b: Key) {
    a.startsAt < b.startsAt || (a.startsAt == b.startsAt && a.eventId < b.eventId)
  }

  predicate Rising(s: seq<Key>) {
    forall i, j :: 0 <= i < j < |s| ==> Before(s[i], s[j])
  }

  /** Earlier events first, and events that start together by id. */
  lemma RisingIs(s: seq<Key>)
    ensures Rising(s) <==>
              forall i, j :: 0 <= i < j < |s| ==>
                s[i].startsAt <= s[j].startsAt && (s[i].startsAt == s[j].startsAt ==> s[i].eventId < s[j].eventId)
  {
  }

  lemma {:induction false} LastKeyExists(s: set<Key>)
    requires s != {}
    ensures exists m :: m in s && forall k :: k in s && k != m ==> Before(k, m)
  {
    var y := AnyMember(s);
    if s - {y} != {} {
      LastKeyExists(s - {y});
      var m :| m in s - {y} && forall k :: k in s - {y} && k != m ==> Before(k, m);
      var top := if Before(m, y) then y else m;
      assert top in s && forall k :: k in s && k != top ==> Before(k, top) by {
        forall k | k in s && k != top ensures Before(k, top) {
          assert k != y ==> k in s - {y};
        }
      }
    } else {
      assert forall k :: k in s && k != y ==> k in s - {y};
    }
  }

  function LastKey(s: set<Key>): (m: Key)
    requires s != {}
    ensures m in s && forall k :: k in s && k != m ==> Before(k, m)
  {
    LastKeyExists(s);
    var m :| m in s && forall k :: k in s && k != m ==> Before(k, m);
    m
  }

  /** ORDER BY starts_at, event_id. */
  function Sorted(s: set<Key>): (r: seq<Key>)
    ensures Rising(r) && |r| == |s|
    ensures forall k :: k in r <==> k in s
  {
    if s == {} then []
    else
      var m := LastKey(s);
      Sorted(s - {m}) + [m]
  }

  lemma LastOfRising(r: seq<Key>)
    requires Rising(r) && r != []
    ensures var last := r[|r| - 1];
            && last in Elems(r) && (forall k :: k in Elems(r) && k != last ==> Before(k, last))
            && Elems(r[..|r| - 1]) == Elems(r) - {last}
  {
    var front, last := r[..|r| - 1], r[|r| - 1];
    assert last in r;
    forall k | k in r && k != last ensures k in front {
      var i :| 0 <= i < |r| && r[i] == k;
      assert front[i] == k;
    }
    forall k | k in front ensures k in r && Before(k, last) {
      var i :| 0 <= i < |front| && front[i] == k;
      assert r[i] == k;
    }
  }

  lemma OneLast(s: set<Key>, last: Key)
    requires last in s && forall k :: k in s && k != last ==> Before(k, last)
    ensures Sorted(s) == Sorted(s - {last}) + [last]
  {
    assert LastKey(s) == last;
  }

  lemma SortedEndsInLast(r: seq<Key>, front: seq<Key>, last: Key)
    requires Rising(r) && r == front + [last]
    ensures Rising(front) && Sorted(Elems(r)) == Sorted(Elems(front)) + [last]
  {
    assert r[..|r| - 1] == front;
    LastOfRising(r);
    OneLast(Elems(r), last);
  }

  lemma {:induction false} RisingIsSorted(r: seq<Key>)
    requires Rising(r)
    ensures r == Sorted(Elems(r))
  {
    if r == [] {
      assert Elems(r) == {};
    } else {
      var front, last := r[..|r| - 1], r[|r| - 1];
      assert r == front + [last];
      SortedEndsInLast(r, front, last);
      RisingIsSorted(front);
    }
  }
}
