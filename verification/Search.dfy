/** Keyset pagination (search/postgres.go, search/query.go): pages over a changing listing, and the walk along them. */
module Search {
  import opened Common
  import opened Cursor
  import opened Text

  /** One event as the query sees it: listed when it is on sale and passes every filter. */
  datatype Row = Row(startsAt: Time, listed: bool)

  // The events at the instant one page is read. An event's start time is never edited.
  type Table = map<int, Row>

  datatype Page = Page(hits: seq<Key>, next: Option<Key>)

  const DEFAULT_LIMIT: nat := 20
  const MAX_LIMIT: nat := 100

  datatype SearchError = BadLimit | BadCursor(error: Cursor.Error) | Unencodable(error: Cursor.Error)

  /** Clamped rather than rejected: too much gets the maximum, zero or less the default; only a bad text is an error. */
  function ParseLimit(raw: string): (r: Result<nat, SearchError>)
    ensures var text := Trimmed(raw); var n := Atoi(text);
            && (r.Err? <==> text != "" && n.None?)
            && (text == "" || (n.Some? && n.value <= 0) ==> r == Ok(DEFAULT_LIMIT))
            && (n.Some? && 1 <= n.value <= MAX_LIMIT ==> r == Ok(n.value))
            && (n.Some? && n.value > MAX_LIMIT ==> r == Ok(MAX_LIMIT))
  {
    var text := Trimmed(raw);
    if text == "" then Ok(DEFAULT_LIMIT)
    else
      match Atoi(text)
      case None => Err(BadLimit)
      case Some(n) => if n <= 0 then Ok(DEFAULT_LIMIT) else if n > MAX_LIMIT then Ok(MAX_LIMIT) else Ok(n)
  }

  /** A client that sends a number gets that number, clamped, exactly if 64 bits hold it. */
  lemma LimitOfNumber(n: int)
    ensures ParseLimit(Decimal(n))
            == if !IsInt(n) then Err(BadLimit)
               else Ok(if n <= 0 then DEFAULT_LIMIT else if n > MAX_LIMIT then MAX_LIMIT else n)
  {
    DecimalRead(n);
    DecimalIsTrimmed(n);
  }

  predicate After(after: Option<Key>, k: Key) {
    after.None? || Before(after.value, k)
  }

  /** The keys the predicate of the query lets through. */
  function Matches(table: Table, after: Option<Key>): set<Key> {
    set e | e in table && table[e].listed && After(after, Key(table[e].startsAt, e)) :: Key(table[e].startsAt, e)
  }

  function Cut(rows: seq<Key>, limit: nat): Page
    requires limit > 0
  {
    if |rows| > limit then Page(rows[..limit], Some(rows[limit - 1])) else Page(rows, None)
  }

  function PageOf(table: Table, after: Option<Key>, limit: nat): Page
    requires limit > 0
  {
    Cut(Sorted(Matches(table, after)), limit)
  }

  /** A page whose cursor cannot be encoded is refused. */
  function Checked(p: Page): Result<Page, Cursor.Error> {
    if p.next.Some? && Encode(p.next.value).Err? then Err(Encode(p.next.value).error) else Ok(p)
  }

  /** Reads one row more than a page holds, drops that probe, and encodes the last row kept as the cursor. */
  method Collect(sorted: seq<Key>, limit: nat) returns (page: Result<Page, Cursor.Error>)
    requires limit > 0
    ensures page == Checked(Cut(sorted, limit))
  {
    var rows := sorted[..if |sorted| < limit + 1 then |sorted| else limit + 1];
    var hits: seq<Key> := [];
    for i := 0 to |rows|
      invariant hits == rows[..i]
    {
      hits := hits + [rows[i]];
    }
    if |hits| > limit {
      hits := hits[..limit];
      assert hits == sorted[..limit];
      var next := Encode(hits[|hits| - 1]);
      if next.Err? {
        return Err(next.error);
      }
      return Ok(Page(hits, Some(hits[|hits| - 1])));
    }
    assert rows == sorted;
    return Ok(Page(hits, None));
  }

  // ---------- one page ----------

  /** The key is that of a listed row. */
  predicate Lists(table: Table, k: Key) {
    k.eventId in table && table[k.eventId].listed && table[k.eventId].startsAt == k.startsAt
  }

  lemma MatchesExactly(table: Table, after: Option<Key>, k: Key)
    ensures k in Matches(table, after) <==> Lists(table, k) && (after.Some? ==> Before(after.value, k))
  {
    if Lists(table, k) {
      assert k == Key(table[k.eventId].startsAt, k.eventId);
    }
  }

  /**
   A page lists, in order, the keys of listed rows after its cursor and nothing else. One that is not the last is full
   and points at its end, before which it misses none.
   */
  lemma PageFacts(table: Table, after: Option<Key>, limit: nat)
    requires limit > 0
    ensures var p := PageOf(table, after, limit);
            && Rising(p.hits)
            && (forall k :: k in p.hits ==> Lists(table, k) && (after.Some? ==> Before(after.value, k)))
            && |p.hits| <= limit && (p.next.Some? ==> |p.hits| == limit && p.next.value == p.hits[limit - 1])
            && (forall k :: Lists(table, k) && (after.Some? ==> Before(after.value, k)) ==>
                  k in p.hits || (p.next.Some? && Before(p.next.value, k)))
  {
    PageMatches(table, after, limit);
    hide PageOf, Matches;
    var p := PageOf(table, after, limit);
    forall k
      ensures k in Matches(table, after) <==> Lists(table, k) && (after.Some? ==> Before(after.value, k))
    {
      MatchesExactly(table, after, k);
    }
  }

  lemma PageMatches(table: Table, after: Option<Key>, limit: nat)
    requires limit > 0
    ensures var p := PageOf(table, after, limit);
            && Rising(p.hits)
            && (forall k :: k in p.hits ==> k in Matches(table, after))
            && |p.hits| <= limit && (p.next.Some? ==> |p.hits| == limit && p.next.value == p.hits[limit - 1])
            && (forall k :: k in Matches(table, after) ==> k in p.hits || (p.next.Some? && Before(p.next.value, k)))
  {
    var rows := Sorted(Matches(table, after));
    var p := PageOf(table, after, limit);
    forall k | k in Matches(table, after) ensures k in p.hits || (p.next.Some? && Before(p.next.value, k)) {
      var i :| 0 <= i < |rows| && rows[i] == k;
      if i < |p.hits| {
        assert p.hits[i] == k;
      }
    }
  }

  // ---------- the walk ----------

  /** Following next_cursor from `after` to the end, each page read from the table as it then is. */
  ghost predicate IsWalk(tables: seq<Table>, pages: seq<Page>, after: Option<Key>, limit: nat)
    requires limit > 0
    decreases |pages|
  {
    && |tables| == |pages| > 0
    && pages[0] == PageOf(tables[0], after, limit)
    && (if pages[0].next.Some? then IsWalk(tables[1..], pages[1..], pages[0].next, limit) else |pages| == 1)
  }

  function AllHits(pages: seq<Page>): seq<Key> {
    if pages == [] then [] else pages[0].hits + AllHits(pages[1..])
  }

  lemma RisingJoin(a: seq<Key>, b: seq<Key>)
    requires a != [] && Rising(a) && Rising(b)
    requires forall k :: k in b ==> Before(a[|a| - 1], k)
    ensures Rising(a + b)
  {
    forall i, j | 0 <= i < j < |a + b| ensures Before((a + b)[i], (a + b)[j]) {
      if i < |a| <= j {
        assert b[j - |a|] in b;
        assert a[i] == a[|a| - 1] || Before(a[i], a[|a| - 1]);
      }
    }
  }

  lemma {:induction false} WalkRises(tables: seq<Table>, pages: seq<Page>, after: Option<Key>, limit: nat)
    requires limit > 0 && IsWalk(tables, pages, after, limit)
    ensures Rising(AllHits(pages))
    ensures forall k :: k in AllHits(pages) ==> After(after, k)
    decreases |pages|
  {
    hide PageOf, Lists;
    PageFacts(tables[0], after, limit);
    var hits, rest := pages[0].hits, AllHits(pages[1..]);
    if pages[0].next.Some? {
      WalkRises(tables[1..], pages[1..], pages[0].next, limit);
      RisingJoin(hits, rest);
      forall k | k in rest ensures After(after, k) {
        assert hits[limit - 1] in hits;
      }
    } else {
      assert pages[1..] == [];
      assert hits + [] == hits;
    }
  }

  /** An event listed under the same key while every page is read is among the hits. */
  lemma {:induction false} WalkMissesNothing(
    tables: seq<Table>, pages: seq<Page>, after: Option<Key>, limit: nat, k: Key)
    requires limit > 0 && IsWalk(tables, pages, after, limit)
    requires After(after, k)
    requires forall i :: 0 <= i < |tables| ==> Lists(tables[i], k)
    ensures k in AllHits(pages)
    decreases |pages|
  {
    PageFacts(tables[0], after, limit);
    if k !in pages[0].hits {
      forall i | 0 <= i < |tables[1..]| ensures Lists(tables[1..][i], k) {
        assert tables[1..][i] == tables[i + 1];
      }
      WalkMissesNothing(tables[1..], pages[1..], pages[0].next, limit, k);
    }
  }

  /** Every hit was listed when its page was read. */
  lemma {:induction false} WalkInventsNothing(
    tables: seq<Table>, pages: seq<Page>, after: Option<Key>, limit: nat, k: Key)
    requires limit > 0 && IsWalk(tables, pages, after, limit) && k in AllHits(pages)
    ensures exists i :: 0 <= i < |tables| && k in pages[i].hits && Lists(tables[i], k)
    decreases |pages|
  {
    PageFacts(tables[0], after, limit);
    if k in pages[0].hits {
      assert Lists(tables[0], k);
    } else {
      assert k in AllHits(pages[1..]);
      WalkInventsNothing(tables[1..], pages[1..], pages[0].next, limit, k);
      var i :| 0 <= i < |tables[1..]| && k in pages[1..][i].hits && Lists(tables[1..][i], k);
      assert pages[i + 1] == pages[1..][i] && tables[i + 1] == tables[1..][i];
    }
  }

  /** The walk over a listing that changes between pages: in strict order, nothing twice, nothing steady missed. */
  lemma WalkOverChanges(tables: seq<Table>, pages: seq<Page>, limit: nat)
    requires limit > 0 && IsWalk(tables, pages, None, limit)
    ensures Rising(AllHits(pages))
    ensures forall i, j :: 0 <= i < j < |AllHits(pages)| ==> AllHits(pages)[i] != AllHits(pages)[j]
    ensures forall k :: (forall i :: 0 <= i < |tables| ==> Lists(tables[i], k)) ==> k in AllHits(pages)
  {
    WalkRises(tables, pages, None, limit);
    forall k | forall i :: 0 <= i < |tables| ==> Lists(tables[i], k) ensures k in AllHits(pages) {
      WalkMissesNothing(tables, pages, None, limit, k);
    }
  }

  // ---------- a listing that does not change ----------

  function PagesFor(n: nat, limit: nat): nat
    requires limit > 0
  {
    if n <= limit then 1 else 1 + PagesFor(n - limit, limit)
  }

  /** max(1, ceil(n / limit)): the least number of pages, one at least, that n matches fit on. */
  lemma {:induction false} PagesForIsCeiling(n: nat, limit: nat)
    requires limit > 0
    ensures PagesFor(n, limit) >= 1 && n <= PagesFor(n, limit) * limit
    ensures n > 0 ==> (PagesFor(n, limit) - 1) * limit < n
    ensures n == 0 ==> PagesFor(n, limit) == 1
  {
    if n > limit {
      PagesForIsCeiling(n - limit, limit);
    }
  }

  /** What lies beyond a full page is the rest of the sorted list. */
  lemma RestOfList(table: Table, after: Option<Key>, limit: nat)
    requires limit > 0 && PageOf(table, after, limit).next.Some?
    ensures Sorted(Matches(table, PageOf(table, after, limit).next)) == Sorted(Matches(table, after))[limit..]
  {
    var rows := Sorted(Matches(table, after));
    var next := PageOf(table, after, limit).next;
    var rest := rows[limit..];
    forall k | k in Matches(table, next) ensures k in rest {
      assert rows[limit - 1] in rows && rows[limit - 1] in Matches(table, after);
      assert k in Matches(table, after);
      var i :| 0 <= i < |rows| && rows[i] == k;
      assert i >= limit;
      assert rest[i - limit] == k;
    }
    forall k | k in rest ensures k in Matches(table, next) {
      var i :| 0 <= i < |rest| && rest[i] == k;
      assert rows[limit + i] == k && k in rows && k in Matches(table, after);
    }
    assert Elems(rest) == Matches(table, next);
    RisingIsSorted(rest);
  }

  /** Over a fixed set of n matches: the sorted list itself, in max(1, ceil(n / limit)) pages. */
  lemma {:induction false} WalkOverFixedList(
    table: Table, tables: seq<Table>, pages: seq<Page>, after: Option<Key>, limit: nat)
    requires limit > 0 && IsWalk(tables, pages, after, limit)
    requires forall i :: 0 <= i < |tables| ==> tables[i] == table
    ensures AllHits(pages) == Sorted(Matches(table, after))
    ensures |pages| == PagesFor(|Matches(table, after)|, limit)
    decreases |pages|
  {
    hide PageOf, Sorted, Matches;
    if pages[0].next.Some? {
      WalkOverFixedList(table, tables[1..], pages[1..], pages[0].next, limit);
      RestOfList(table, after, limit);
      FirstPageAndRest(table, after, limit);
    } else {
      assert pages[1..] == [];
      assert pages[0].hits + [] == pages[0].hits;
      OnlyPage(table, after, limit);
    }
  }

  lemma OnlyPage(table: Table, after: Option<Key>, limit: nat)
    requires limit > 0 && PageOf(table, after, limit).next.None?
    ensures PageOf(table, after, limit).hits == Sorted(Matches(table, after))
    ensures PagesFor(|Matches(table, after)|, limit) == 1
  {
    hide Matches;
  }

  lemma FirstPageAndRest(table: Table, after: Option<Key>, limit: nat)
    requires limit > 0 && PageOf(table, after, limit).next.Some?
    ensures var p, rows := PageOf(table, after, limit), Sorted(Matches(table, after));
            && |rows| > limit && p.hits + rows[limit..] == rows
            && PagesFor(|rows|, limit) == 1 + PagesFor(|rows[limit..]|, limit)
  {
    CutAndJoin(Sorted(Matches(table, after)), limit);
  }

  lemma CutAndJoin(rows: seq<Key>, limit: nat)
    requires 0 < limit < |rows|
    ensures rows[..limit] + rows[limit..] == rows
    ensures PagesFor(|rows|, limit) == 1 + PagesFor(|rows[limit..]|, limit)
  {
  }

  // ---------- what a client sees ----------

  /** One answer: the hits, and the opaque cursor to send next. */
  datatype Response = Response(hits: seq<Key>, next: Option<Wire>)

  function ParseCursor(cursor: Option<Wire>): Result<Option<Key>, SearchError> {
    if cursor.None? then Ok(None)
    else
      var key := Decode(cursor.value);
      if key.Err? then Err(BadCursor(key.error)) else Ok(Some(key.value))
  }

  function Respond(table: Table, limit: string, cursor: Option<Wire>): Result<Response, SearchError> {
    var n, after := ParseLimit(limit), ParseCursor(cursor);
    if n.Err? then Err(n.error)
    else if after.Err? then Err(after.error)
    else
      var page := Checked(PageOf(table, after.value, n.value));
      if page.Err? then Err(Unencodable(page.error)) else Ok(ResponseOf(page.value))
  }

  function ResponseOf(page: Page): Response {
    Response(page.hits, if page.next.Some? then Some(Wire(page.next.value)) else None)
  }

  /** One request: the parameters, the query, and the cursor for the next one. */
  method Serve(table: Table, limit: string, cursor: Option<Wire>) returns (r: Result<Response, SearchError>)
    ensures r == Respond(table, limit, cursor)
  {
    var n := ParseLimit(limit);
    if n.Err? {
      return Err(n.error);
    }
    var after: Option<Key> := None;
    if cursor.Some? {
      var key := Decode(cursor.value);
      if key.Err? {
        return Err(BadCursor(key.error));
      }
      after := Some(key.value);
    }
    var page := Collect(Sorted(Matches(table, after)), n.value);
    if page.Err? {
      return Err(Unencodable(page.error));
    }
    return Ok(ResponseOf(page.value));
  }

  /** A cursor that was handed out goes on exactly after the last hit of its page, unless that hit has the zero time. */
  lemma NextIsAcceptedIff(table: Table, limit: string, cursor: Option<Wire>)
    requires Respond(table, limit, cursor).Ok?
    ensures var page := PageOf(table, ParseCursor(cursor).value, ParseLimit(limit).value);
            var next := ParseCursor(Respond(table, limit, cursor).value.next);
            if page.next.Some? && page.next.value.startsAt == ZERO_TIME then next.Err? else next == Ok(page.next)
  {
    hide ParseLimit;
    var page := PageOf(table, ParseCursor(cursor).value, ParseLimit(limit).value);
    if page.next.Some? {
      RoundTrip(page.next.value);
    }
  }

  /** Sending each next cursor back until there is none, every answer read from the listing as it then is. */
  ghost predicate IsClientWalk(tables: seq<Table>, responses: seq<Response>, limit: string, cursor: Option<Wire>)
    decreases |responses|
  {
    && |tables| == |responses| > 0
    && Respond(tables[0], limit, cursor) == Ok(responses[0])
    && (if responses[0].next.Some? then IsClientWalk(tables[1..], responses[1..], limit, responses[0].next)
        else |responses| == 1)
  }

  function ResponseHits(responses: seq<Response>): seq<Key> {
    if responses == [] then [] else responses[0].hits + ResponseHits(responses[1..])
  }

  /** A client's walk is a walk over pages. */
  lemma {:induction false} ClientWalkIsWalk(
    tables: seq<Table>, responses: seq<Response>, limit: string, cursor: Option<Wire>) returns (pages: seq<Page>)
    requires IsClientWalk(tables, responses, limit, cursor)
    ensures ParseLimit(limit).Ok? && ParseCursor(cursor).Ok?
    ensures IsWalk(tables, pages, ParseCursor(cursor).value, ParseLimit(limit).value)
    ensures AllHits(pages) == ResponseHits(responses)
    ensures forall i :: 0 <= i < |pages| ==> pages[i].hits == responses[i].hits
    decreases |responses|
  {
    var page := PageOf(tables[0], ParseCursor(cursor).value, ParseLimit(limit).value);
    NextIsAcceptedIff(tables[0], limit, cursor);
    if responses[0].next.Some? {
      var rest := ClientWalkIsWalk(tables[1..], responses[1..], limit, responses[0].next);
      pages := [page] + rest;
      assert pages[1..] == rest;
      assert forall i :: 0 < i < |pages| ==> pages[i] == rest[i - 1] && responses[i] == responses[1..][i - 1];
    } else {
      pages := [page];
      assert pages[1..] == [] && responses[1..] == [];
    }
  }

  /**
   What a client collects over a changing listing: strictly rising keys, all that are listed throughout, and only keys
   that were listed when the page that shows them was read.
   */
  lemma ClientWalkOverChanges(tables: seq<Table>, responses: seq<Response>, limit: string)
    requires IsClientWalk(tables, responses, limit, None)
    ensures Rising(ResponseHits(responses))
    ensures forall k :: (forall i :: 0 <= i < |tables| ==> Lists(tables[i], k)) ==> k in ResponseHits(responses)
    ensures forall k :: k in ResponseHits(responses) ==>
              exists i :: 0 <= i < |responses| == |tables| && k in responses[i].hits && Lists(tables[i], k)
  {
    var pages := ClientWalkIsWalk(tables, responses, limit, None);
    var n := ParseLimit(limit).value;
    WalkOverChanges(tables, pages, n);
    hide ParseLimit, IsWalk, IsClientWalk;
    forall k | k in ResponseHits(responses)
      ensures exists i :: 0 <= i < |responses| == |tables| && k in responses[i].hits && Lists(tables[i], k)
    {
      WalkInventsNothing(tables, pages, None, n, k);
      WalkLengths(tables, pages, None, n);
    }
  }

  lemma WalkLengths(tables: seq<Table>, pages: seq<Page>, after: Option<Key>, limit: nat)
    requires limit > 0 && IsWalk(tables, pages, after, limit)
    ensures |tables| == |pages|
  {
  }
}
