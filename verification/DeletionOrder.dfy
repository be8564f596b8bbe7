/** The order in which tables are emptied (store/store.go): referencing tables first. */
module DeletionOrder {
  import opened Common

  /** A foreign key: rows of child reference rows of parent. */
  datatype Reference = Reference(child: string, parent: string)

  predicate Blocks(names: seq<string>, refs: seq<Reference>, child: string, parent: string) {
    Reference(child, parent) in refs && child != parent && child in names && parent in names
  }

  predicate Distinct(names: seq<string>) {
    forall i, j :: 0 <= i < j < |names| ==> names[i] != names[j]
  }

  /** Every listed table comes after all tables that reference it. */
  ghost predicate Respects(names: seq<string>, refs: seq<Reference>, order: seq<string>) {
    forall k, child :: 0 <= k < |order| && Blocks(names, refs, child, order[k]) ==> child in order[..k]
  }

  /** Each table of a chain is referenced by the next. */
  ghost predicate Chain(names: seq<string>, refs: seq<Reference>, path: seq<string>) {
    forall i :: 0 <= i < |path| - 1 ==> Blocks(names, refs, path[i + 1], path[i])
  }

  ghost predicate Cycle(names: seq<string>, refs: seq<Reference>, path: seq<string>) {
    |path| > 1 && path[0] == path[|path| - 1] && Chain(names, refs, path)
  }

  ghost predicate Cyclic(names: seq<string>, refs: seq<Reference>) {
    exists path :: Cycle(names, refs, path)
  }

  /** A permutation of the tables. */
  ghost predicate Lists(names: seq<string>, order: seq<string>) {
    Distinct(order) && Elems(order) == Elems(names)
  }

  // ---------- cycles ----------

  /** Following unfinished references inside a finite set must come round to a table already passed. */
  lemma {:induction false} WalkCloses(names: seq<string>, refs: seq<Reference>, pending: set<string>, path: seq<string>)
    requires path != [] && Elems(path) <= pending && Chain(names, refs, path) && Distinct(path)
    requires forall n {:trigger Stuck(names, refs, pending, n)} :: n in pending ==> Stuck(names, refs, pending, n)
    ensures Cyclic(names, refs)
    decreases |pending| - |path|
  {
    var last := path[|path| - 1];
    assert last in Elems(path);
    assert Stuck(names, refs, pending, last);
    var child :| child in pending && Blocks(names, refs, child, last);
    var longer := path + [child];
    ChainGrows(names, refs, path, child);
    if child in path {
      var i :| 0 <= i < |path| && path[i] == child;
      CycleFound(names, refs, longer, i);
    } else {
      SizeOfDistinct(longer);
      assert Elems(longer) == Elems(path) + {child};
      SubsetSize(Elems(longer), pending);
      WalkCloses(names, refs, pending, longer);
    }
  }

  lemma ChainGrows(names: seq<string>, refs: seq<Reference>, path: seq<string>, child: string)
    requires path != [] && Chain(names, refs, path) && Blocks(names, refs, child, path[|path| - 1])
    ensures Chain(names, refs, path + [child])
  {
  }

  lemma CycleFound(names: seq<string>, refs: seq<Reference>, path: seq<string>, i: nat)
    requires i < |path| - 1 && Chain(names, refs, path) && path[i] == path[|path| - 1]
    ensures Cyclic(names, refs)
  {
    var round := path[i..];
    assert forall k :: 0 <= k < |round| ==> round[k] == path[i + k];
    assert Cycle(names, refs, round);
  }

  /** A pending table that a pending table references. */
  ghost predicate Stuck(names: seq<string>, refs: seq<Reference>, pending: set<string>, n: string) {
    exists child :: child in pending && Blocks(names, refs, child, n)
  }

  lemma {:induction false} SizeOfDistinct(s: seq<string>)
    requires Distinct(s)
    ensures |Elems(s)| == |s|
  {
    if s != [] {
      var front, last := s[..|s| - 1], s[|s| - 1];
      SizeOfDistinct(front);
      assert last !in Elems(front);
      assert forall x :: x in s <==> x in front || x == last;
      assert Elems(s) == Elems(front) + {last};
    }
  }

  /** Along a chain the tables of a respecting order are met ever earlier. */
  lemma {:induction false} ChainsClimb(names: seq<string>, refs: seq<Reference>, order: seq<string>,
      path: seq<string>, k: nat)
    requires Respects(names, refs, order) && Chain(names, refs, path) && |path| > 1
    requires k < |order| && order[k] == path[0]
    ensures path[|path| - 1] in order[..k]
    decreases |path|
  {
    assert Blocks(names, refs, path[1], path[0]);
    var j :| 0 <= j < k && order[..k][j] == path[1];
    if |path| > 2 {
      ChainsClimb(names, refs, order, path[1..], j);
      assert path[1..][|path| - 2] == path[|path| - 1];
      var i :| 0 <= i < j && order[..j][i] == path[|path| - 1];
      assert order[..k][i] == path[|path| - 1];
    }
  }

  /** An order that respects every reference rules out cycles. */
  lemma RespectedMeansAcyclic(names: seq<string>, refs: seq<Reference>, order: seq<string>)
    requires Lists(names, order) && Respects(names, refs, order)
    ensures !Cyclic(names, refs)
  {
    forall path | |path| > 1 && Chain(names, refs, path)
      ensures path[0] != path[|path| - 1]
    {
      assert Blocks(names, refs, path[1], path[0]);
      assert path[0] in Elems(order);
      var k :| 0 <= k < |order| && order[k] == path[0];
      ChainsClimb(names, refs, order, path, k);
      assert forall i :: 0 <= i < k ==> order[..k][i] != order[k];
    }
  }

  // ---------- in the words of the foreign keys ----------

  /** Rows of the child really refer to rows of another listed table, the parent. */
  predicate Refers(names: seq<string>, refs: seq<Reference>, child: string, parent: string) {
    child in names && parent in names && child != parent
    && exists i :: 0 <= i < |refs| && refs[i].child == child && refs[i].parent == parent
  }

  lemma RefersIs(names: seq<string>, refs: seq<Reference>, child: string, parent: string)
    ensures Refers(names, refs, child, parent) <==> Blocks(names, refs, child, parent)
  {
    if Blocks(names, refs, child, parent) {
      var i :| 0 <= i < |refs| && refs[i] == Reference(child, parent);
    }
    if Refers(names, refs, child, parent) {
      var i :| 0 <= i < |refs| && refs[i].child == child && refs[i].parent == parent;
      assert refs[i] == Reference(child, parent);
    }
  }

  /** An order respects the references exactly if it empties every table before the tables that it refers to. */
  lemma ReferringFirst(names: seq<string>, refs: seq<Reference>, order: seq<string>)
    requires Lists(names, order)
    ensures Respects(names, refs, order) <==>
              forall i, j :: 0 <= i < |order| && 0 <= j < |order| && Refers(names, refs, order[i], order[j]) ==> i < j
  {
    forall child, parent
      ensures Refers(names, refs, child, parent) <==> Blocks(names, refs, child, parent)
    {
      RefersIs(names, refs, child, parent);
    }
    if Respects(names, refs, order) {
      hide Blocks, Refers;
      forall i, j | 0 <= i < |order| && 0 <= j < |order| && Refers(names, refs, order[i], order[j])
        ensures i < j
      {
        assert order[i] in order[..j];
        var k :| 0 <= k < j && order[..j][k] == order[i];
      }
    } else {
      var k: nat, child :| k < |order| && Blocks(names, refs, child, order[k]) && child !in order[..k];
      assert child in Elems(order);
      forall m | 0 <= m < k ensures order[m] != child {
        assert order[..k][m] == order[m];
      }
      var i :| 0 <= i < |order| && order[i] == child;
      assert Refers(names, refs, order[i], order[k]);
    }
  }

  /** From each table of the path to one that refers to it, and round to the first. */
  ghost predicate Round(names: seq<string>, refs: seq<Reference>, path: seq<string>) {
    && |path| > 1 && path[0] == path[|path| - 1]
    && forall i :: 0 <= i < |path| - 1 ==> Refers(names, refs, path[i + 1], path[i])
  }

  /** There is a cycle exactly if some table is reached again by going from each table to one that refers to it. */
  lemma CyclicIs(names: seq<string>, refs: seq<Reference>)
    ensures Cyclic(names, refs) <==> exists path :: Round(names, refs, path)
  {
    forall child, parent
      ensures Refers(names, refs, child, parent) <==> Blocks(names, refs, child, parent)
    {
      RefersIs(names, refs, child, parent);
    }
    hide Blocks, Refers;
    if Cyclic(names, refs) {
      var path :| Cycle(names, refs, path);
      assert Round(names, refs, path);
    }
    if exists path :: Round(names, refs, path) {
      var path :| Round(names, refs, path);
      assert Cycle(names, refs, path);
    }
  }

  // ---------- the algorithm ----------

  /** children[parent]: the listed tables, other than parent itself, that reference it. */
  ghost predicate Children(names: seq<string>, refs: seq<Reference>, children: map<string, set<string>>) {
    && children.Keys == Elems(names)
    && forall n, child :: n in children ==> (child in children[n] <==> Blocks(names, refs, child, n))
  }

  method CollectChildren(names: seq<string>, refs: seq<Reference>) returns (children: map<string, set<string>>)
    ensures Children(names, refs, children)
  {
    var isApp := Elems(names);
    children := map n | n in isApp :: {};
    for i := 0 to |refs|
      invariant Children(names, refs[..i], children)
    {
      assert refs[..i + 1] == refs[..i] + [refs[i]];
      var child, parent := refs[i].child, refs[i].parent;
      if child == parent || child !in isApp || parent !in isApp {
        continue;
      }
      children := children[parent := children[parent] + {child}];
    }
    assert refs[..|refs|] == refs;
  }

  /** Whether some table that references this one is still to be emptied. */
  method Blocked(children: set<string>, done: set<string>) returns (blocked: bool)
    ensures blocked <==> !(children <= done)
  {
    blocked := false;
    var rest := children;
    while rest != {}
      invariant rest <= children && children - rest <= done
      invariant !blocked
      decreases |rest|
    {
      var child :| child in rest;
      if child !in done {
        return true;
      }
      rest := rest - {child};
    }
  }

  /** What every stage of the algorithm keeps: a list without repeats of tables already emptied. */
  ghost predicate Partial(names: seq<string>, order: seq<string>, done: set<string>) {
    Distinct(order) && Elems(order) == done && done <= Elems(names)
  }

  lemma PartialGrows(names: seq<string>, order: seq<string>, done: set<string>, n: string)
    requires Partial(names, order, done) && n in names && n !in done
    ensures Partial(names, order + [n], done + {n})
  {
    assert forall x :: x in order + [n] <==> x in order || x == n;
    assert n !in Elems(order);
  }

  lemma RespectsGrows(names: seq<string>, refs: seq<Reference>, order: seq<string>, n: string)
    requires Respects(names, refs, order)
    requires forall child :: Blocks(names, refs, child, n) ==> child in order
    ensures Respects(names, refs, order + [n])
  {
    forall k, child | 0 <= k < |order + [n]| && Blocks(names, refs, child, (order + [n])[k])
      ensures child in (order + [n])[..k]
    {
      assert (order + [n])[..k] == order[..k];
    }
  }

  /** One pass over all tables: appends each that nothing pending references. */
  method Pass(names: seq<string>, ghost refs: seq<Reference>, children: map<string, set<string>>,
              order0: seq<string>, done0: set<string>)
    returns (order: seq<string>, done: set<string>)
    requires Children(names, refs, children)
    requires Partial(names, order0, done0) && Respects(names, refs, order0)
    ensures Partial(names, order, done) && Respects(names, refs, order)
    ensures |order0| <= |order| && (|order0| == |order| ==> order == order0 && done == done0)
    ensures order == order0 ==>
              forall n {:trigger Stuck(names, refs, Elems(names) - done0, n)} ::
                n in Elems(names) - done0 ==> Stuck(names, refs, Elems(names) - done0, n)
  {
    order, done := order0, done0;
    ghost var pending := Elems(names) - done0;
    for i := 0 to |names|
      invariant Partial(names, order, done) && Respects(names, refs, order)
      invariant |order0| <= |order| && (|order0| == |order| ==> order == order0 && done == done0)
      invariant order == order0 ==>
                  forall j {:trigger names[j]} ::
                    0 <= j < i && names[j] !in done0 ==> Stuck(names, refs, pending, names[j])
    {
      var n := names[i];
      if n in done {
        continue;
      }
      var blocked := Blocked(children[n], done);
      if !blocked {
        PartialGrows(names, order, done, n);
        RespectsGrows(names, refs, order, n);
        order, done := order + [n], done + {n};
      } else if order == order0 {
        assert Stuck(names, refs, pending, n);
      }
    }
  }

  /**
   * Tables in an order that empties them without violating a foreign key, by repeated passes; when a pass
   * makes no progress, the rest is appended as it comes. Whether that fallback was taken is reported in stuck.
   */
  method DeletionOrder(names: seq<string>, refs: seq<Reference>) returns (order: seq<string>, ghost stuck: bool)
    requires Distinct(names)
    ensures Lists(names, order)
    ensures Respects(names, refs, order) <==> !Cyclic(names, refs)
    ensures stuck <==> Cyclic(names, refs)
  {
    stuck := false;
    var children := CollectChildren(names, refs);
    order := [];
    var done: set<string> := {};
    SizeOfDistinct(names);
    while |order| < |names|
      invariant Partial(names, order, done) && |order| <= |names|
      invariant if stuck then Cyclic(names, refs) && |order| == |names| else Respects(names, refs, order)
      decreases |names| - |order|
    {
      var before := order;
      order, done := Pass(names, refs, children, order, done);
      SizeOfDistinct(order);
      SubsetSize(Elems(order), Elems(names));
      if |order| == |before| {
        stuck := true;
        PendingIsCyclic(names, refs, order, done);
        order, done := Remainder(names, order, done);
        SizeOfDistinct(order);
      }
    }
    SizeOfDistinct(order);
    SubsetSize(Elems(order), Elems(names));
    if Respects(names, refs, order) {
      RespectedMeansAcyclic(names, refs, order);
    }
  }

  lemma PendingIsCyclic(names: seq<string>, refs: seq<Reference>, order: seq<string>, done: set<string>)
    requires Distinct(names) && Partial(names, order, done) && |order| < |names|
    requires forall n {:trigger Stuck(names, refs, Elems(names) - done, n)} ::
               n in Elems(names) - done ==> Stuck(names, refs, Elems(names) - done, n)
    ensures Cyclic(names, refs)
  {
    SizeOfDistinct(names);
    SizeOfDistinct(order);
    if Elems(names) - done == {} {
      forall x | x in Elems(names)
        ensures x in done
      {
        assert x !in Elems(names) - done;
      }
      SubsetSize(Elems(names), done);
      assert false;
    }
    var n := AnyMember(Elems(names) - done);
    WalkCloses(names, refs, Elems(names) - done, [n]);
  }

  /** The fallback for cyclic references: every table not yet listed, in catalogue order. */
  method Remainder(names: seq<string>, order0: seq<string>, done0: set<string>)
    returns (order: seq<string>, done: set<string>)
    requires Partial(names, order0, done0)
    ensures Partial(names, order, done) && Elems(order) == Elems(names)
  {
    order, done := order0, done0;
    for i := 0 to |names|
      invariant Partial(names, order, done) && Elems(names[..i]) <= done
    {
      assert names[..i + 1] == names[..i] + [names[i]];
      if names[i] !in done {
        PartialGrows(names, order, done, names[i]);
        order, done := order + [names[i]], done + {names[i]};
      }
    }
    assert names[..|names|] == names;
  }
}
