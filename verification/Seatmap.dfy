/** Row labels and seat generation (internal/seatmap/seatmap.go). */
module Seatmap {
  import opened Common

  // ---------- row labels: bijective base 26 ----------

  function Letter(d: nat): char
    requires d < 26
  {
    'A' + d as char
  }

  /** 0 is A, 25 is Z, 26 is AA: no digit stands for zero. */
  function Label(i: nat): string {
    if i < 26 then [Letter(i)] else Label(i / 26 - 1) + [Letter(i % 26)]
  }

  predicate IsLabel(s: string) {
    s != [] && forall k :: 0 <= k < |s| ==> 'A' <= s[k] <= 'Z'
  }

  function Index(s: string): nat
    requires IsLabel(s)
  {
    var d := (s[|s| - 1] - 'A') as nat;
    if |s| == 1 then d else (Index(s[..|s| - 1]) + 1) * 26 + d
  }

  /** The labelling loop: prepends a letter, then steps to i / 26 - 1. */
  method RowLabel(i: int) returns (text: string)
    ensures text == if i < 0 then "" else Label(i)
  {
    if i < 0 {
      return "";
    }
    var k := i;
    text := "";
    while true
      invariant 0 <= k && Label(i) == Label(k) + text
      decreases k
    {
      text := [Letter(k % 26)] + text;
      if k / 26 - 1 < 0 {
        break;
      }
      assert Label(k) == Label(k / 26 - 1) + [Letter(k % 26)];
      k := k / 26 - 1;
    }
  }

  /** Every index has a label that decodes to it. */
  lemma {:induction false} IndexOfLabel(i: nat)
    ensures IsLabel(Label(i)) && Index(Label(i)) == i
  {
    if i >= 26 {
      var front := Label(i / 26 - 1);
      IndexOfLabel(i / 26 - 1);
      assert Label(i)[..|front|] == front;
    }
  }

  /** Every non-empty string of capitals is the label of exactly the index it decodes to. */
  lemma {:induction false} LabelOfIndex(s: string)
    requires IsLabel(s)
    ensures Label(Index(s)) == s
  {
    var front, d := s[..|s| - 1], (s[|s| - 1] - 'A') as nat;
    assert s == front + [s[|s| - 1]];
    assert Letter(d) == s[|s| - 1];
    if |s| > 1 {
      LabelOfIndex(front);
      var i := Index(s);
      assert i / 26 == Index(front) + 1 && i % 26 == d;
    }
  }

  /** Shorter first, then alphabetically. */
  ghost predicate Precedes(a: string, b: string) {
    || |a| < |b|
    || (|a| == |b| && exists k :: 0 <= k < |a| && a[..k] == b[..k] && a[k] < b[k])
  }

  lemma {:induction false} LabelsRise(i: nat, j: nat)
    requires i < j
    ensures Precedes(Label(i), Label(j))
    decreases j
  {
    var a, b := Label(i), Label(j);
    if j < 26 {
      assert a[..0] == b[..0] && a[0] < b[0];
    } else if i < 26 {
      assert |Label(j / 26 - 1)| >= 1 by {
        IndexOfLabel(j / 26 - 1);
      }
    } else {
      var p, q := i / 26 - 1, j / 26 - 1;
      var fa, fb := Label(p), Label(q);
      if p == q {
        assert a[..|fa|] == fa && b[..|fb|] == fb;
        assert a[|fa|] < b[|fb|];
      } else {
        LabelsRise(p, q);
        if |fa| == |fb| {
          var k :| 0 <= k < |fa| && fa[..k] == fb[..k] && fa[k] < fb[k];
          assert a[..k] == fa[..k] && b[..k] == fb[..k] && a[k] == fa[k] && b[k] == fb[k];
        }
      }
    }
  }

  lemma PrecedesIsStrict(a: string, b: string)
    requires Precedes(a, b)
    ensures !Precedes(b, a) && a != b
  {
    if |a| == |b| {
      var k :| 0 <= k < |a| && a[..k] == b[..k] && a[k] < b[k];
      forall l | 0 <= l < |b|
        ensures !(b[..l] == a[..l] && b[l] < a[l])
      {
        if l < k {
          assert a[..k][l] == a[l] && b[..k][l] == b[l];
        } else if k < l {
          assert a[..l][k] == a[k] && b[..l][k] == b[k];
        }
      }
    }
  }

  /** Labelling is an order isomorphism from the indices onto the labels. */
  lemma LabelsKeepOrder(i: nat, j: nat)
    ensures i < j <==> Precedes(Label(i), Label(j))
    ensures i == j <==> Label(i) == Label(j)
  {
    if i < j {
      LabelsRise(i, j);
      PrecedesIsStrict(Label(i), Label(j));
    } else if j < i {
      LabelsRise(j, i);
      PrecedesIsStrict(Label(j), Label(i));
    }
  }

  // ---------- seats ----------

  const MAX_SEATS: nat := 200_000

  datatype SectionSpec = SectionSpec(name: string, rows: int, perRow: int)

  datatype SeatSpec = SeatSpec(section: string, row: string, number: int)

  /** NegativeCapacity is the runtime panic of allocating with a total that wrapped below zero. */
  datatype SpecError =
    | NoSections
    | BlankName
    | DuplicateName
    | BadRows
    | BadSeatsPerRow
    | TooManySeats
    | NegativeCapacity

  /** A 64-bit int after overflow. */
  function Wrap(x: int): (r: int)
    ensures -MAX_INT - 1 <= r <= MAX_INT
    ensures -MAX_INT - 1 <= x <= MAX_INT ==> r == x
  {
    (x + MAX_INT + 1) % (2 * (MAX_INT + 1)) - MAX_INT - 1
  }

  function Names(specs: seq<SectionSpec>): set<string> {
    set s | s in specs :: s.name
  }

  predicate ValidSection(s: SectionSpec) {
    s.name != "" && s.rows > 0 && s.perRow > 0
  }

  /** Sections that can be laid out: positive, named, and named differently. */
  ghost predicate Valid(specs: seq<SectionSpec>) {
    && (forall k :: 0 <= k < |specs| ==> ValidSection(specs[k]))
    && (forall k, l :: 0 <= k < l < |specs| ==> specs[k].name != specs[l].name)
  }

  /** The validation loop's outcome: the first complaint, or the 64-bit running total. */
  function Verdict(specs: seq<SectionSpec>): Result<int, SpecError> {
    if specs == [] then Ok(0)
    else
      var front, s := specs[..|specs| - 1], specs[|specs| - 1];
      var before := Verdict(front);
      if before.Err? then before
      else if s.name == "" then Err(BlankName)
      else if s.name in Names(front) then Err(DuplicateName)
      else if s.rows <= 0 then Err(BadRows)
      else if s.perRow <= 0 then Err(BadSeatsPerRow)
      else
        var total := Wrap(before.value + Wrap(s.rows * s.perRow));
        if total > MAX_SEATS then Err(TooManySeats) else Ok(total)
  }

  /** Seats of one section by position: the row from the quotient, the number from the remainder. */
  function Block(s: SectionSpec): seq<SeatSpec>
    requires ValidSection(s)
  {
    seq(s.rows * s.perRow, q requires 0 <= q => SeatSpec(s.name, Label(q / s.perRow), q % s.perRow + 1))
  }

  function Seats(specs: seq<SectionSpec>): seq<SeatSpec>
    requires forall k :: 0 <= k < |specs| ==> ValidSection(specs[k])
  {
    if specs == [] then [] else Seats(specs[..|specs| - 1]) + Block(specs[|specs| - 1])
  }

  /** TotalSeats without overflow: how many seats the specs describe. */
  function Described(specs: seq<SectionSpec>): int {
    if specs == [] then 0
    else Described(specs[..|specs| - 1]) + specs[|specs| - 1].rows * specs[|specs| - 1].perRow
  }

  const WORD: int := 2 * (MAX_INT + 1)

  lemma WrapIs(x: int, r: int, k: int)
    requires x == r + k * WORD && -MAX_INT - 1 <= r <= MAX_INT
    ensures Wrap(x) == r
  {
  }

  lemma Turns(x: int) returns (k: int)
    ensures x == Wrap(x) + k * WORD
  {
    k := (x + MAX_INT + 1) / WORD;
  }

  /** Wrapping early or late makes no difference to a sum. */
  lemma WrapAdds(a: int, b: int)
    ensures Wrap(Wrap(a) + Wrap(b)) == Wrap(a + b)
  {
    var ka := Turns(a);
    var kb := Turns(b);
    var k := Turns(a + b);
    WrapIs(Wrap(a) + Wrap(b), Wrap(a + b), k - ka - kb);
  }

  /** The 64-bit sum of the products, without laying anything out. */
  method TotalSeats(specs: seq<SectionSpec>) returns (total: int)
    ensures total == Wrap(Described(specs))
  {
    total := 0;
    for k := 0 to |specs|
      invariant total == Wrap(Described(specs[..k]))
    {
      PrefixSteps(specs, k);
      WrapAdds(Described(specs[..k]), specs[k].rows * specs[k].perRow);
      total := Wrap(total + Wrap(specs[k].rows * specs[k].perRow));
    }
    assert specs[..|specs|] == specs;
  }

  /** What generation returns for these specs. */
  function Generated(specs: seq<SectionSpec>): Result<seq<SeatSpec>, SpecError> {
    if specs == [] then Err(NoSections)
    else
      var verdict := Verdict(specs);
      if verdict.Err? then Err(verdict.error)
      else if verdict.value < 0 then Err(NegativeCapacity)
      else
        AcceptedIsValid(specs);
        Ok(Seats(specs))
  }

  lemma NamesAt(specs: seq<SectionSpec>, k: nat)
    requires k < |specs|
    ensures specs[k].name in Names(specs)
  {
    assert specs[k] in specs;
  }

  lemma {:induction false} AcceptedIsValid(specs: seq<SectionSpec>)
    requires Verdict(specs).Ok?
    ensures Valid(specs)
  {
    if specs != [] {
      var front := specs[..|specs| - 1];
      AcceptedIsValid(front);
      forall k | 0 <= k < |front|
        ensures specs[k].name != specs[|front|].name
      {
        NamesAt(front, k);
      }
    }
  }

  /** What is wrong with section k, the earlier ones being right: its name, its counts, then the seats so far. */
  predicate Complains(specs: seq<SectionSpec>, k: nat, error: SpecError)
    requires k < |specs|
  {
    var s := specs[k];
    var again := exists j :: 0 <= j < k && specs[j].name == s.name;
    match error
    case BlankName => s.name == ""
    case DuplicateName => s.name != "" && again
    case BadRows => s.name != "" && !again && s.rows < 1
    case BadSeatsPerRow => s.name != "" && !again && s.rows >= 1 && s.perRow < 1
    case TooManySeats =>
      s.name != "" && !again && s.rows >= 1 && s.perRow >= 1 && Wrap(Described(specs[..k + 1])) > 200_000
    case _ => false
  }

  lemma SameComplaints(specs: seq<SectionSpec>, k: nat)
    requires k < |specs| - 1
    ensures forall error :: Complains(specs, k, error) <==> Complains(specs[..|specs| - 1], k, error)
  {
    assert specs[..|specs| - 1][..k + 1] == specs[..k + 1];
  }

  lemma NamedBefore(front: seq<SectionSpec>, name: string)
    ensures name in Names(front) <==> exists j :: 0 <= j < |front| && front[j].name == name
  {
    if name in Names(front) {
      var s :| s in front && s.name == name;
      var j :| 0 <= j < |front| && front[j] == s;
    }
    if j :| 0 <= j < |front| && front[j].name == name {
      assert front[j] in front;
    }
  }

  predicate AllRight(front: seq<SectionSpec>) {
    Verdict(front) == Ok(Wrap(Described(front)))
  }

  /** One section more, the earlier ones being right. */
  lemma VerdictAfter(front: seq<SectionSpec>, s: SectionSpec)
    requires AllRight(front)
    ensures var total := Wrap(Described(front + [s]));
            Verdict(front + [s])
            == if s.name == "" then Err(BlankName)
               else if s.name in Names(front) then Err(DuplicateName)
               else if s.rows <= 0 then Err(BadRows)
               else if s.perRow <= 0 then Err(BadSeatsPerRow)
               else if total > MAX_SEATS then Err(TooManySeats)
               else Ok(total)
  {
    assert (front + [s])[..|front|] == front;
    WrapAdds(Described(front), s.rows * s.perRow);
    hide Wrap, Names;
  }

  lemma ComplainsLast(front: seq<SectionSpec>, s: SectionSpec, error: SpecError)
    ensures Complains(front + [s], |front|, error) <==>
              match error
              case BlankName => s.name == ""
              case DuplicateName => s.name != "" && s.name in Names(front)
              case BadRows => s.name != "" && s.name !in Names(front) && s.rows <= 0
              case BadSeatsPerRow => s.name != "" && s.name !in Names(front) && s.rows > 0 && s.perRow <= 0
              case TooManySeats =>
                s.name != "" && s.name !in Names(front) && s.rows > 0 && s.perRow > 0
                && Wrap(Described(front + [s])) > MAX_SEATS
              case _ => false
  {
    NamedBefore(front, s.name);
    assert (front + [s])[..|front| + 1] == front + [s];
    hide Wrap, Described, Names;
    assert forall j :: 0 <= j < |front| ==> (front + [s])[j] == front[j];
  }

  lemma LastComplaint(front: seq<SectionSpec>, s: SectionSpec)
    requires AllRight(front)
    ensures var specs := front + [s];
            && (Verdict(specs).Ok? ==> AllRight(specs) && forall error :: !Complains(specs, |front|, error))
            && (Verdict(specs).Err? ==> Complains(specs, |front|, Verdict(specs).error))
  {
    VerdictAfter(front, s);
    hide Wrap, Verdict, Described, Names, Complains;
    forall error
      ensures Complains(front + [s], |front|, error) ==> Verdict(front + [s]) == Err(error)
      ensures Verdict(front + [s]) == Err(error) ==> Complains(front + [s], |front|, error)
    {
      ComplainsLast(front, s, error);
    }
  }

  /** A refusal is the complaint of the first section that has one; otherwise nobody has, and the total is theirs. */
  lemma {:induction false} FirstComplaint(specs: seq<SectionSpec>)
    ensures Verdict(specs).Ok? ==>
              && AllRight(specs)
              && forall k, error :: 0 <= k < |specs| ==> !Complains(specs, k, error)
    ensures Verdict(specs).Err? ==>
              exists k :: 0 <= k < |specs| && Complains(specs, k, Verdict(specs).error)
                          && forall j, error :: 0 <= j < k ==> !Complains(specs, j, error)
  {
    hide Complains, Wrap;
    if specs != [] {
      var front := specs[..|specs| - 1];
      FirstComplaint(front);
      forall k, error | 0 <= k < |front|
        ensures Complains(specs, k, error) <==> Complains(front, k, error)
      {
        SameComplaints(specs, k);
      }
      if Verdict(front).Ok? {
        assert front + [specs[|front|]] == specs;
        LastComplaint(front, specs[|front|]);
      }
    }
  }

  lemma {:induction false} RefusedStaysRefused(specs: seq<SectionSpec>, k: nat)
    requires k <= |specs| && Verdict(specs[..k]).Err?
    ensures Verdict(specs) == Verdict(specs[..k])
  {
    if k == |specs| {
      assert specs[..k] == specs;
    } else {
      assert specs[..|specs| - 1][..k] == specs[..k];
      RefusedStaysRefused(specs[..|specs| - 1], k);
    }
  }

  lemma RowsApart(a: nat, b: nat, p: nat)
    ensures a < b ==> a * p + p <= b * p
  {
    if a < b {
      assert (a + 1) * p <= b * p;
    }
  }

  lemma QuotientAndRest(r: nat, p: nat, m: nat)
    requires m < p
    ensures (r * p + m) / p == r && (r * p + m) % p == m
  {
    RowsApart((r * p + m) / p, r, p);
    RowsApart(r, (r * p + m) / p, p);
  }

  lemma RowsFit(s: SectionSpec, r: nat)
    requires r < s.rows && s.perRow > 0
    ensures 0 <= r * s.perRow && (r + 1) * s.perRow <= s.rows * s.perRow
    ensures (r + 1) * s.perRow == r * s.perRow + s.perRow
  {
  }

  lemma BlockGrows(s: SectionSpec, r: nat, m: nat)
    requires ValidSection(s) && r < s.rows && m < s.perRow
    ensures 0 <= r * s.perRow + m < |Block(s)|
    ensures Block(s)[..r * s.perRow + m + 1] ==
            Block(s)[..r * s.perRow + m] + [SeatSpec(s.name, Label(r), m + 1)]
  {
    RowsFit(s, r);
    QuotientAndRest(r, s.perRow, m);
  }

  method SeatsOfSection(s: SectionSpec) returns (seats: seq<SeatSpec>)
    requires ValidSection(s)
    ensures seats == Block(s)
  {
    seats := [];
    for r := 0 to s.rows
      invariant 0 <= r * s.perRow <= |Block(s)|
      invariant seats == Block(s)[..r * s.perRow]
    {
      RowsFit(s, r);
      var text := RowLabel(r);
      for n := 1 to s.perRow + 1
        invariant seats == Block(s)[..r * s.perRow + (n - 1)]
      {
        BlockGrows(s, r, n - 1);
        seats := seats + [SeatSpec(s.name, text, n)];
      }
    }
  }

  lemma PrefixSteps(specs: seq<SectionSpec>, k: nat)
    requires k < |specs|
    ensures specs[..k + 1] == specs[..k] + [specs[k]]
    ensures specs[..k + 1][..k] == specs[..k]
  {
  }

  lemma VerdictSteps(specs: seq<SectionSpec>, k: nat)
    requires k < |specs|
    ensures specs[..k + 1][..k] == specs[..k] && specs[..k + 1][k] == specs[k]
    ensures Names(specs[..k + 1]) == Names(specs[..k]) + {specs[k].name}
    ensures Verdict(specs[..k + 1]).Err? ==> Verdict(specs) == Verdict(specs[..k + 1])
  {
    PrefixSteps(specs, k);
    NamesGrow(specs[..k], specs[k]);
    var longer := specs[..k + 1];
    if Verdict(longer).Err? {
      RefusedStaysRefused(specs, k + 1);
    }
  }

  /** The loop over the specs: the first complaint, or the total. */
  method Validate(specs: seq<SectionSpec>) returns (r: Result<int, SpecError>)
    ensures r == Verdict(specs)
  {
    var total := 0;
    var seen: set<string> := {};
    for k := 0 to |specs|
      invariant seen == Names(specs[..k])
      invariant Verdict(specs[..k]) == Ok(total)
    {
      var s := specs[k];
      VerdictSteps(specs, k);
      if s.name == "" {
        return Err(BlankName);
      }
      if s.name in seen {
        return Err(DuplicateName);
      }
      seen := seen + {s.name};
      if s.rows <= 0 {
        return Err(BadRows);
      }
      if s.perRow <= 0 {
        return Err(BadSeatsPerRow);
      }
      total := Wrap(total + Wrap(s.rows * s.perRow));
      if total > MAX_SEATS {
        return Err(TooManySeats);
      }
    }
    assert specs[..|specs|] == specs;
    return Ok(total);
  }

  /** Validates every section, then lays them out row by row. */
  method Generate(specs: seq<SectionSpec>) returns (r: Result<seq<SeatSpec>, SpecError>)
    ensures r == Generated(specs)
  {
    if |specs| == 0 {
      return Err(NoSections);
    }
    var total := Validate(specs);
    if total.Err? {
      return Err(total.error);
    }
    if total.value < 0 {
      return Err(NegativeCapacity);
    }
    AcceptedIsValid(specs);
    var seats := [];
    for k := 0 to |specs|
      invariant seats == Seats(specs[..k])
    {
      assert specs[..k + 1][..k] == specs[..k];
      var block := SeatsOfSection(specs[k]);
      seats := seats + block;
    }
    assert specs[..|specs|] == specs;
    return Ok(seats);
  }

  lemma NamesGrow(specs: seq<SectionSpec>, s: SectionSpec)
    ensures Names(specs + [s]) == Names(specs) + {s.name}
  {
    forall n
      ensures n in Names(specs + [s]) <==> n in Names(specs) + {s.name}
    {
      if n in Names(specs) {
        var t :| t in specs && t.name == n;
        assert t in specs + [s];
      }
      assert (specs + [s])[|specs|] == s;
    }
  }

  // ---------- what is generated ----------

  /** The position of a seat: its section's offset, its row's index times the row length, its number. */
  function Position(specs: seq<SectionSpec>, seat: SeatSpec): int
    requires IsLabel(seat.row)
  {
    if specs == [] then 0
    else
      var front, s := specs[..|specs| - 1], specs[|specs| - 1];
      if s.name == seat.section then Described(front) + Index(seat.row) * s.perRow + seat.number - 1
      else Position(front, seat)
  }

  lemma {:induction false} AsManyAsDescribed(specs: seq<SectionSpec>)
    requires Valid(specs)
    ensures |Seats(specs)| == Described(specs)
  {
    if specs != [] {
      AsManyAsDescribed(specs[..|specs| - 1]);
    }
  }

  ghost predicate SeatOf(specs: seq<SectionSpec>, seat: SeatSpec) {
    exists k :: 0 <= k < |specs| && Inside(specs[k], seat)
  }

  predicate Inside(s: SectionSpec, seat: SeatSpec) {
    && seat.section == s.name
    && IsLabel(seat.row) && Index(seat.row) < s.rows
    && 1 <= seat.number <= s.perRow
  }

  /** Every generated seat belongs to a section, and its position is where it was generated. */
  lemma {:induction false} SeatTellsPosition(specs: seq<SectionSpec>, q: nat)
    requires Valid(specs) && q < |Seats(specs)|
    ensures SeatOf(specs, Seats(specs)[q])
    ensures Position(specs, Seats(specs)[q]) == q
  {
    hide Block, Index, IsLabel;
    var front, s := specs[..|specs| - 1], specs[|specs| - 1];
    AsManyAsDescribed(front);
    if q < |Seats(front)| {
      SeatTellsPosition(front, q);
      var k :| 0 <= k < |front| && Inside(front[k], Seats(front)[q]);
      assert Inside(specs[k], Seats(specs)[q]);
    } else {
      BlockTellsSeat(s, q - |Seats(front)|);
      assert Inside(specs[|specs| - 1], Seats(specs)[q]);
    }
  }

  lemma BlockTellsSeat(s: SectionSpec, m: nat)
    requires ValidSection(s) && m < |Block(s)|
    ensures var seat := Block(s)[m]; Inside(s, seat) && Index(seat.row) * s.perRow + seat.number - 1 == m
  {
    IndexOfLabel(m / s.perRow);
    QuotientInside(m, s);
  }

  lemma QuotientInside(m: nat, s: SectionSpec)
    requires ValidSection(s) && m < s.rows * s.perRow
    ensures m / s.perRow < s.rows
    ensures m / s.perRow * s.perRow + m % s.perRow == m
  {
    var r := m / s.perRow;
    RowsApart(s.rows - 1, r, s.perRow);
    assert (s.rows - 1) * s.perRow + s.perRow == s.rows * s.perRow;
  }

  /** Every seat of every section is generated, at its position. */
  lemma {:induction false} PositionHoldsSeat(specs: seq<SectionSpec>, seat: SeatSpec)
    requires Valid(specs) && SeatOf(specs, seat)
    ensures 0 <= Position(specs, seat) < |Seats(specs)|
    ensures Seats(specs)[Position(specs, seat)] == seat
  {
    var front, s := specs[..|specs| - 1], specs[|specs| - 1];
    var k :| 0 <= k < |specs| && Inside(specs[k], seat);
    AsManyAsDescribed(front);
    if s.name == seat.section {
      BlockHoldsSeat(s, seat);
    } else {
      assert Inside(front[k], seat);
      PositionHoldsSeat(front, seat);
    }
  }

  lemma BlockHoldsSeat(s: SectionSpec, seat: SeatSpec)
    requires ValidSection(s) && Inside(s, seat)
    ensures var q := Index(seat.row) * s.perRow + seat.number - 1; 0 <= q < |Block(s)| && Block(s)[q] == seat
  {
    var r, m := Index(seat.row), seat.number - 1;
    RowsFit(s, r);
    LabelOfIndex(seat.row);
    QuotientAndRest(r, s.perRow, m);
  }

  /** A section small enough that adding it cannot wrap the 64-bit running total. */
  predicate Modest(s: SectionSpec) {
    s.rows * s.perRow <= MAX_INT - MAX_SEATS
  }

  /** Accepted specs never describe more than the maximum exactly when no section is outlandish. */
  lemma {:induction false} CapHoldsIff(specs: seq<SectionSpec>)
    requires Verdict(specs).Ok?
    ensures Described(specs) <= MAX_SEATS <==> forall k :: 0 <= k < |specs| ==> Modest(specs[k])
    ensures Described(specs) <= MAX_SEATS ==> Verdict(specs).value == Described(specs) >= 0
  {
    if specs != [] {
      var front, s := specs[..|specs| - 1], specs[|specs| - 1];
      CapHoldsIff(front);
      AcceptedIsValid(front);
      AsManyAsDescribed(front);
      AcceptedStep(specs);
      hide Verdict;
      assert forall k :: 0 <= k < |front| ==> front[k] == specs[k];
    }
  }

  /** What accepting one section more says about the running total. */
  lemma AcceptedStep(specs: seq<SectionSpec>)
    requires specs != [] && Verdict(specs).Ok?
    ensures var front, s := specs[..|specs| - 1], specs[|specs| - 1];
            && Verdict(front).Ok? && s.rows * s.perRow > 0
            && Verdict(specs).value == Wrap(Verdict(front).value + Wrap(s.rows * s.perRow)) <= MAX_SEATS
  {
    var s := specs[|specs| - 1];
    ProductIsPositive(s.rows, s.perRow);
  }

  lemma ProductIsPositive(a: int, b: int)
    requires a > 0 && b > 0
    ensures a * b > 0
  {
  }

  /** The seats laid out are those of the sections, none twice. */
  lemma SeatsAreExact(specs: seq<SectionSpec>)
    requires Valid(specs)
    ensures forall seat :: seat in Seats(specs) <==> SeatOf(specs, seat)
    ensures forall p, q :: 0 <= p < q < |Seats(specs)| ==> Seats(specs)[p] != Seats(specs)[q]
  {
    var seats := Seats(specs);
    forall seat
      ensures seat in seats <==> SeatOf(specs, seat)
    {
      if seat in seats {
        var q :| 0 <= q < |seats| && seats[q] == seat;
        SeatTellsPosition(specs, q);
      } else if SeatOf(specs, seat) {
        PositionHoldsSeat(specs, seat);
      }
    }
    forall p, q | 0 <= p < q < |seats|
      ensures seats[p] != seats[q]
    {
      SeatTellsPosition(specs, p);
      SeatTellsPosition(specs, q);
    }
  }

  /** Within that condition: at most the maximum, exactly those described, none twice. */
  lemma GeneratesExactlyTheSeats(specs: seq<SectionSpec>)
    requires forall k :: 0 <= k < |specs| ==> Modest(specs[k])
    ensures Generated(specs) != Err(NegativeCapacity)
    ensures Generated(specs).Ok? ==>
              var seats := Generated(specs).value;
              && |seats| == Described(specs) == Wrap(Described(specs)) <= MAX_SEATS
              && (forall seat :: seat in seats <==> SeatOf(specs, seat))
              && (forall p, q :: 0 <= p < q < |seats| ==> seats[p] != seats[q])
  {
    if specs != [] && Verdict(specs).Ok? {
      CapHoldsIff(specs);
      AcceptedIsValid(specs);
      AsManyAsDescribed(specs);
      SeatsAreExact(specs);
    } else {
      RefusalsAreComplaints(specs);
    }
  }

  lemma {:induction false} RefusalsAreComplaints(specs: seq<SectionSpec>)
    ensures Verdict(specs) != Err(NegativeCapacity)
  {
    if specs != [] {
      RefusalsAreComplaints(specs[..|specs| - 1]);
    }
  }

  /** No section has a complaint, and there is one. */
  ghost predicate NothingWrong(specs: seq<SectionSpec>) {
    specs != [] && forall k, error :: 0 <= k < |specs| ==> !Complains(specs, k, error)
  }

  /** Generation fails without sections, on a complaint, or by a panic when the 64-bit total is negative. */
  lemma GeneratesIff(specs: seq<SectionSpec>)
    ensures Generated(specs) == Err(NoSections) <==> specs == []
    ensures Generated(specs) == Err(NegativeCapacity) <==> NothingWrong(specs) && Wrap(Described(specs)) < 0
    ensures Generated(specs).Ok? <==> NothingWrong(specs) && Wrap(Described(specs)) >= 0
  {
    FirstComplaint(specs);
    hide Wrap, Verdict, Described, Seats;
  }

  /** Outside it: one section of 2^32 rows by 2^32 seats passes the cap, and one can wrap below zero. */
  lemma OutlandishSectionsSlipThrough()
    ensures Verdict([SectionSpec("A", 0x1_0000_0000, 0x1_0000_0000)]) == Ok(0)
    ensures Described([SectionSpec("A", 0x1_0000_0000, 0x1_0000_0000)]) > MAX_SEATS
    ensures Generated([SectionSpec("A", 1, 1), SectionSpec("B", 1, MAX_INT)]) == Err(NegativeCapacity)
  {
    var one := [SectionSpec("A", 0x1_0000_0000, 0x1_0000_0000)];
    assert one[..0] == [];
    var a, b := SectionSpec("A", 1, 1), SectionSpec("B", 1, MAX_INT);
    assert [a, b][..1] == [a] && [a][..0] == [];
    assert b.name !in Names([a]) by {
      assert b.name[0] != a.name[0];
    }
    assert Verdict([a]) == Ok(1);
    assert Wrap(1 + Wrap(MAX_INT)) == -MAX_INT - 1;
    assert Verdict([a, b]) == Ok(-MAX_INT - 1);
  }
}
