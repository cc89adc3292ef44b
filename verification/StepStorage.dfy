/**
 How a step tree is stored: flattened to rows with minted ids, written roots first,
 read back in any order, and nested again.
 */
module StepStorage {
  import opened Domain

  type Id = nat

  datatype Branch = InThen | InElse

  /** The lane a row sits in: the root lane, or one lane of a parent step. */
  type LaneKey = Option<(Id, Branch)>

  datatype Row = Row(id: Id, parent: Option<Id>, branch: Option<Branch>, ord: nat, c: Content) {
    /** A row missing either half of its place reads as a root. */
    function Lane(): LaneKey {
      if parent.Some? && branch.Some? then Some((parent.value, branch.value)) else None
    }
  }

  /** Ids come from `mint`; the k-th row written takes mint(k). */
  type Mint = nat -> Id

  function Weight(s: Step): nat
    decreases s
  {
    1 + Size(s.thn) + Size(s.els)
  }

  function Size(lane: seq<Step>): nat
    decreases lane
  {
    if lane == [] then 0 else Weight(lane[0]) + Size(lane[1..])
  }

  function RowOf(id: Id, key: LaneKey, ord: nat, c: Content): Row {
    match key
    case None => Row(id, None, None, ord, c)
    case Some((parent, branch)) => Row(id, Some(parent), Some(branch), ord, c)
  }

  /** Depth-first rows of one step: itself, its then lane, its else lane. */
  function FlattenStep(s: Step, ord: nat, key: LaneKey, mint: Mint, at: nat): seq<Row>
    decreases s, 2
  {
    [RowOf(mint(at), key, ord, s.c)] + FlattenBelow(s, mint, at)
  }

  function FlattenBelow(s: Step, mint: Mint, at: nat): seq<Row>
    decreases s, 1
  {
    ThenRows(s, mint, at) + ElseRows(s, mint, at)
  }

  function ThenRows(s: Step, mint: Mint, at: nat): seq<Row>
    decreases s, 0
  {
    Flatten(s.thn, 0, Some((mint(at), InThen)), mint, at + 1)
  }

  function ElseRows(s: Step, mint: Mint, at: nat): seq<Row>
    decreases s, 0
  {
    Flatten(s.els, 0, Some((mint(at), InElse)), mint, at + 1 + Size(s.thn))
  }

  /** Depth-first rows of a lane whose first step has position `ord` and takes mint(at). */
  function Flatten(lane: seq<Step>, ord: nat, key: LaneKey, mint: Mint, at: nat): seq<Row>
    decreases lane
  {
    if lane == [] then []
    else FlattenStep(lane[0], ord, key, mint, at) + Flatten(lane[1..], ord + 1, key, mint, at + Weight(lane[0]))
  }

  function FlattenTree(tree: seq<Step>, mint: Mint): seq<Row> {
    Flatten(tree, 0, None, mint, 0)
  }

  lemma Assoc(a: seq<Row>, b: seq<Row>, c: seq<Row>)
    ensures a + (b + c) == (a + b) + c
  {
  }

  /** The source's recursive append. */
  method FlattenLane(rows: seq<Row>, lane: seq<Step>, key: LaneKey, mint: Mint, at: nat)
    returns (rows': seq<Row>, at': nat)
    ensures rows' == rows + Flatten(lane, 0, key, mint, at)
    ensures at' == at + Size(lane)
    decreases lane, 0
  {
    hide Flatten, Size, FlattenStep, Weight;
    rows', at' := rows, at;
    assert lane[0..] == lane;
    for i := 0 to |lane|
      invariant rows' + Flatten(lane[i..], i, key, mint, at') == rows + Flatten(lane, 0, key, mint, at)
      invariant at' + Size(lane[i..]) == at + Size(lane)
    {
      FlattenUnfolds(lane, i, key, mint, at');
      Assoc(rows', FlattenStep(lane[i], i, key, mint, at'),
            Flatten(lane[i + 1..], i + 1, key, mint, at' + Weight(lane[i])));
      rows', at' := AppendStep(rows', lane[i], i, key, mint, at');
    }
    FlattenEnds(lane, key, mint, at');
  }

  lemma FlattenUnfolds(lane: seq<Step>, i: nat, key: LaneKey, mint: Mint, at: nat)
    requires i < |lane|
    ensures Flatten(lane[i..], i, key, mint, at)
         == FlattenStep(lane[i], i, key, mint, at) + Flatten(lane[i + 1..], i + 1, key, mint, at + Weight(lane[i]))
    ensures Size(lane[i..]) == Weight(lane[i]) + Size(lane[i + 1..])
  {
    assert lane[i..][0] == lane[i] && lane[i..][1..] == lane[i + 1..];
  }

  lemma FlattenEnds(lane: seq<Step>, key: LaneKey, mint: Mint, at: nat)
    ensures Flatten(lane[|lane|..], |lane|, key, mint, at) == [] && Size(lane[|lane|..]) == 0
  {
    assert lane[|lane|..] == [];
  }

  method AppendStep(rows: seq<Row>, s: Step, ord: nat, key: LaneKey, mint: Mint, at: nat)
    returns (rows': seq<Row>, at': nat)
    ensures rows' == rows + FlattenStep(s, ord, key, mint, at)
    ensures at' == at + Weight(s)
    decreases s
  {
    ghost var t, e := ThenRows(s, mint, at), ElseRows(s, mint, at);
    var row := RowOf(mint(at), key, ord, s.c);
    var rows1, at1 := FlattenLane(rows + [row], s.thn, Some((mint(at), InThen)), mint, at + 1);
    assert rows1 == (rows + [row]) + t;
    rows', at' := FlattenLane(rows1, s.els, Some((mint(at), InElse)), mint, at1);
    assert rows' == rows1 + e;
    Assoc(rows + [row], t, e);
    Assoc(rows, [row], t + e);
  }

  // ---- Reading back ----

  /** The rows of one lane, in the order read. */
  function InLane(rows: seq<Row>, key: LaneKey): seq<Row> {
    if rows == [] then []
    else (if rows[0].Lane() == key then [rows[0]] else []) + InLane(rows[1..], key)
  }

  /** Places a row after every row of no greater ord. */
  function Insert(sorted: seq<Row>, r: Row): seq<Row> {
    if sorted == [] then [r]
    else if sorted[|sorted| - 1].ord <= r.ord then sorted + [r]
    else Insert(sorted[..|sorted| - 1], r) + [sorted[|sorted| - 1]]
  }

  /** The stable sort by ord. */
  function ByOrd(rows: seq<Row>): seq<Row> {
    if rows == [] then [] else Insert(ByOrd(rows[..|rows| - 1]), rows[|rows| - 1])
  }

  lemma {:induction false} InsertKeepsRows(sorted: seq<Row>, r: Row)
    ensures multiset(Insert(sorted, r)) == multiset(sorted) + multiset{r}
  {
    if sorted != [] && sorted[|sorted| - 1].ord > r.ord {
      InsertKeepsRows(sorted[..|sorted| - 1], r);
      assert sorted == sorted[..|sorted| - 1] + [sorted[|sorted| - 1]];
    }
  }

  lemma {:induction false} ByOrdKeepsMultiset(rows: seq<Row>)
    ensures multiset(ByOrd(rows)) == multiset(rows)
  {
    if rows != [] {
      var front, last := rows[..|rows| - 1], rows[|rows| - 1];
      ByOrdKeepsMultiset(front);
      InsertKeepsRows(ByOrd(front), last);
      assert rows == front + [last];
    }
  }

  lemma ByOrdKeepsRows(rows: seq<Row>)
    ensures forall r :: r in ByOrd(rows) <==> r in rows
  {
    ByOrdKeepsMultiset(rows);
    forall r ensures r in ByOrd(rows) <==> r in rows {
      assert r in multiset(ByOrd(rows)) <==> r in multiset(rows);
    }
  }

  predicate Ascending(rows: seq<Row>) {
    forall i, j | 0 <= i < j < |rows| :: rows[i].ord <= rows[j].ord
  }

  predicate Dense(rows: seq<Row>, from: nat) {
    forall i | 0 <= i < |rows| :: rows[i].ord == from + i
  }

  lemma {:induction false} InsertAscends(sorted: seq<Row>, r: Row)
    requires Ascending(sorted)
    ensures Ascending(Insert(sorted, r))
  {
    if sorted != [] && sorted[|sorted| - 1].ord > r.ord {
      var front, last := sorted[..|sorted| - 1], sorted[|sorted| - 1];
      InsertAscends(front, r);
      InsertKeepsRows(front, r);
      forall i | 0 <= i < |Insert(front, r)| ensures Insert(front, r)[i].ord <= last.ord {
        assert Insert(front, r)[i] in multiset(Insert(front, r));
      }
    }
  }

  lemma {:induction false} ByOrdAscends(rows: seq<Row>)
    ensures Ascending(ByOrd(rows))
  {
    if rows != [] {
      ByOrdAscends(rows[..|rows| - 1]);
      InsertAscends(ByOrd(rows[..|rows| - 1]), rows[|rows| - 1]);
    }
  }

  lemma LeastFirst(a: seq<Row>, b: seq<Row>, from: nat)
    requires multiset(a) == multiset(b) && Ascending(a) && Dense(b, from) && a != [] && b != []
    ensures a[0] == b[0]
  {
    assert b[0] in multiset(b) && a[0] in multiset(a);
    var k :| 0 <= k < |a| && a[k] == b[0];
    var m :| 0 <= m < |b| && b[m] == a[0];
    assert a[0].ord <= a[k].ord;
  }

  lemma SameTails(a: seq<Row>, b: seq<Row>)
    requires multiset(a) == multiset(b) && a != [] && b != [] && a[0] == b[0]
    ensures multiset(a[1..]) == multiset(b[1..])
  {
    assert a == [a[0]] + a[1..] && b == [b[0]] + b[1..];
    assert multiset(a[1..]) == multiset(a) - multiset{a[0]};
    assert multiset(b[1..]) == multiset(b) - multiset{b[0]};
  }

  /** Rows with dense ords have one ascending arrangement. */
  lemma {:induction false} AscendingUnique(a: seq<Row>, b: seq<Row>, from: nat)
    requires multiset(a) == multiset(b) && Ascending(a) && Dense(b, from)
    ensures a == b
    decreases |a|
  {
    assert |a| == |multiset(a)| == |multiset(b)| == |b|;
    if a != [] {
      LeastFirst(a, b, from);
      SameTails(a, b);
      AscendingUnique(a[1..], b[1..], from + 1);
      assert a == [a[0]] + a[1..] && b == [b[0]] + b[1..];
    }
  }

  lemma ByOrdOfPermutation(rows: seq<Row>, dense: seq<Row>, from: nat)
    requires multiset(rows) == multiset(dense) && Dense(dense, from)
    ensures ByOrd(rows) == dense
  {
    ByOrdKeepsMultiset(rows);
    ByOrdAscends(rows);
    AscendingUnique(ByOrd(rows), dense, from);
  }

  predicate UniqueIds(rows: seq<Row>) {
    forall r, q | r in rows && q in rows && r.id == q.id :: r == q
  }

  /** A chain of stored steps from a root down, each the parent of the next. */
  predicate Chain(rows: seq<Row>, path: seq<Row>) {
    && (forall i | 0 <= i < |path| :: path[i] in rows)
    && (path != [] ==> path[0].Lane() == None)
    && (forall i | 0 < i < |path| :: path[i].Lane().Some? && path[i].Lane().value.0 == path[i - 1].id)
  }

  predicate Extends(path: seq<Row>, r: Row) {
    if path == [] then r.Lane() == None
    else r.Lane().Some? && r.Lane().value.0 == path[|path| - 1].id
  }

  /** Going down never meets a step again, so a chain is no longer than the table. */
  lemma {:induction false} ChainDistinct(rows: seq<Row>, path: seq<Row>)
    requires UniqueIds(rows) && Chain(rows, path)
    ensures forall i, j | 0 <= i < j < |path| :: path[i] != path[j]
  {
    forall i, j | 0 <= i < j < |path| ensures path[i] != path[j] {
      NoReturn(rows, path, i, j);
    }
  }

  lemma {:induction false} NoReturn(rows: seq<Row>, path: seq<Row>, i: nat, j: nat)
    requires UniqueIds(rows) && Chain(rows, path) && i < j < |path|
    ensures path[i] != path[j]
    decreases i
  {
    if i > 0 {
      NoReturn(rows, path, i - 1, j - 1);
      assert path[i - 1] in rows && path[j - 1] in rows;
    }
  }

  lemma ChainExtends(rows: seq<Row>, path: seq<Row>, r: Row)
    requires UniqueIds(rows) && Chain(rows, path) && r in rows && Extends(path, r)
    ensures Chain(rows, path + [r]) && |path| + 1 <= |rows|
  {
    var below := path + [r];
    forall i | 0 < i < |below| ensures below[i].Lane().Some? && below[i].Lane().value.0 == below[i - 1].id {
      if i < |path| {
        assert below[i] == path[i] && below[i - 1] == path[i - 1];
      }
    }
    ChainFits(rows, below);
  }

  lemma ChainFits(rows: seq<Row>, path: seq<Row>)
    requires UniqueIds(rows) && Chain(rows, path)
    ensures |path| <= |rows|
  {
    ChainDistinct(rows, path);
    DistinctFits(rows, path);
  }

  lemma {:induction false} DistinctFits(rows: seq<Row>, path: seq<Row>)
    requires forall i | 0 <= i < |path| :: path[i] in rows
    requires forall i, j | 0 <= i < j < |path| :: path[i] != path[j]
    ensures |path| <= |rows|
  {
    if path != [] {
      var last := path[|path| - 1];
      var k :| 0 <= k < |rows| && rows[k] == last;
      var others := rows[..k] + rows[k + 1..];
      var front := path[..|path| - 1];
      forall i | 0 <= i < |front| ensures front[i] in others {
        assert path[i] in rows;
        var m :| 0 <= m < |rows| && rows[m] == path[i];
        assert m != k;
        assert if m < k then others[m] == path[i] else others[m - 1] == path[i];
      }
      DistinctFits(others, front);
    }
  }

  lemma {:induction false} InLaneRows(rows: seq<Row>, key: LaneKey)
    ensures forall r :: r in InLane(rows, key) <==> r in rows && r.Lane() == key
  {
    if rows != [] {
      InLaneRows(rows[1..], key);
      assert rows == [rows[0]] + rows[1..];
    }
  }

  /** A lane in reading order. */
  function Sorted(rows: seq<Row>, key: LaneKey): seq<Row> {
    ByOrd(InLane(rows, key))
  }

  lemma SortedRows(rows: seq<Row>, key: LaneKey)
    ensures forall r :: r in Sorted(rows, key) <==> r in rows && r.Lane() == key
  {
    InLaneRows(rows, key);
    ByOrdKeepsRows(InLane(rows, key));
  }

  ghost predicate Ready(rows: seq<Row>, lane: seq<Row>, path: seq<Row>) {
    UniqueIds(rows) && Chain(rows, path) && forall r | r in lane :: r in rows && Extends(path, r)
  }

  lemma ReadyBelow(rows: seq<Row>, path: seq<Row>, r: Row, branch: Branch)
    requires UniqueIds(rows) && Chain(rows, path) && r in rows && Extends(path, r)
    ensures Ready(rows, Sorted(rows, Some((r.id, branch))), path + [r]) && |path| + 1 <= |rows|
  {
    ChainExtends(rows, path, r);
    SortedRows(rows, Some((r.id, branch)));
  }

  /** Rebuilds the steps of one sorted lane. It ends because ids are unique. */
  function NestLane(rows: seq<Row>, lane: seq<Row>, ghost path: seq<Row>): seq<Step>
    requires Ready(rows, lane, path)
    decreases |rows| - |path|, |lane|
  {
    if lane == [] then [] else
      var r := lane[0];
      ReadyBelow(rows, path, r, InThen);
      ReadyBelow(rows, path, r, InElse);
      [Step(r.c,
            NestLane(rows, Sorted(rows, Some((r.id, InThen))), path + [r]),
            NestLane(rows, Sorted(rows, Some((r.id, InElse))), path + [r]))]
      + NestLane(rows, lane[1..], path)
  }

  function Nest(rows: seq<Row>): seq<Step>
    requires UniqueIds(rows)
  {
    SortedRows(rows, None);
    NestLane(rows, Sorted(rows, None), [])
  }

  function At(kids: map<(Id, Branch), seq<Row>>, id: Id, branch: Branch): seq<Row> {
    if (id, branch) in kids then kids[(id, branch)] else []
  }

  ghost predicate Groups(kids: map<(Id, Branch), seq<Row>>, rows: seq<Row>) {
    forall id, branch :: At(kids, id, branch) == InLane(rows, Some((id, branch)))
  }

  lemma {:induction false} InLaneAppend(a: seq<Row>, b: seq<Row>, key: LaneKey)
    ensures InLane(a + b, key) == InLane(a, key) + InLane(b, key)
  {
    if a == [] {
      assert a + b == b;
    } else {
      assert (a + b)[0] == a[0] && (a + b)[1..] == a[1..] + b;
      InLaneAppend(a[1..], b, key);
    }
  }

  lemma InLaneSnoc(rows: seq<Row>, r: Row, key: LaneKey)
    ensures InLane(rows + [r], key) == InLane(rows, key) + (if r.Lane() == key then [r] else [])
  {
    InLaneAppend(rows, [r], key);
    assert [r][1..] == [];
  }

  /** The source's grouping pass: roots apart, children by parent and branch. */
  method GroupRows(rows: seq<Row>) returns (roots: seq<Row>, kids: map<(Id, Branch), seq<Row>>)
    ensures roots == InLane(rows, None) && Groups(kids, rows)
  {
    roots, kids := [], map[];
    for i := 0 to |rows|
      invariant roots == InLane(rows[..i], None)
      invariant Groups(kids, rows[..i])
    {
      var r := rows[i];
      ghost var before, kids0 := rows[..i], kids;
      assert rows[..i + 1] == before + [r];
      InLaneSnoc(before, r, None);
      if r.parent.None? || r.branch.None? {
        roots := roots + [r];
      } else {
        kids := kids[(r.parent.value, r.branch.value) := At(kids, r.parent.value, r.branch.value) + [r]];
      }
      forall id, branch ensures At(kids, id, branch) == InLane(rows[..i + 1], Some((id, branch))) {
        InLaneSnoc(before, r, Some((id, branch)));
        assert At(kids0, id, branch) == InLane(before, Some((id, branch)));
      }
    }
    assert rows[..|rows|] == rows;
  }

  method NestSteps(rows: seq<Row>) returns (tree: seq<Step>)
    requires UniqueIds(rows)
    ensures tree == Nest(rows)
  {
    var roots, kids := GroupRows(rows);
    SortedRows(rows, None);
    tree := NestLaneInPlace(rows, roots, kids, []);
  }

  method NestLaneInPlace(ghost rows: seq<Row>, unsorted: seq<Row>, kids: map<(Id, Branch), seq<Row>>,
                         ghost path: seq<Row>)
    returns (out: seq<Step>)
    requires Ready(rows, ByOrd(unsorted), path) && Groups(kids, rows)
    ensures out == NestLane(rows, ByOrd(unsorted), path)
    decreases |rows| - |path|, 1
  {
    var lane := ByOrd(unsorted);
    out := [];
    for i := 0 to |lane|
      invariant out + NestLane(rows, lane[i..], path) == NestLane(rows, lane, path)
    {
      var thn, els := NestBelow(rows, lane[i], kids, path);
      NestUnfolds(rows, lane, i, path, thn, els);
      StepAssoc(out, Step(lane[i].c, thn, els), NestLane(rows, lane[i + 1..], path));
      out := out + [Step(lane[i].c, thn, els)];
    }
    assert lane[|lane|..] == [];
  }

  method NestBelow(ghost rows: seq<Row>, r: Row, kids: map<(Id, Branch), seq<Row>>, ghost path: seq<Row>)
    returns (thn: seq<Step>, els: seq<Step>)
    requires UniqueIds(rows) && Chain(rows, path) && Groups(kids, rows)
    requires r in rows && Extends(path, r)
    ensures NestedBelow(rows, r, path, thn, els)
    decreases |rows| - |path|, 0
  {
    ReadyBelow(rows, path, r, InThen);
    ReadyBelow(rows, path, r, InElse);
    assert At(kids, r.id, InThen) == InLane(rows, Some((r.id, InThen)));
    assert At(kids, r.id, InElse) == InLane(rows, Some((r.id, InElse)));
    thn := NestLaneInPlace(rows, At(kids, r.id, InThen), kids, path + [r]);
    els := NestLaneInPlace(rows, At(kids, r.id, InElse), kids, path + [r]);
  }

  ghost predicate NestedBelow(rows: seq<Row>, r: Row, path: seq<Row>, thn: seq<Step>, els: seq<Step>) {
    && Ready(rows, Sorted(rows, Some((r.id, InThen))), path + [r])
    && Ready(rows, Sorted(rows, Some((r.id, InElse))), path + [r])
    && thn == NestLane(rows, Sorted(rows, Some((r.id, InThen))), path + [r])
    && els == NestLane(rows, Sorted(rows, Some((r.id, InElse))), path + [r])
  }

  lemma StepAssoc(a: seq<Step>, s: Step, b: seq<Step>)
    ensures a + ([s] + b) == (a + [s]) + b
  {
  }

  lemma NestUnfolds(rows: seq<Row>, lane: seq<Row>, i: nat, path: seq<Row>, thn: seq<Step>, els: seq<Step>)
    requires Ready(rows, lane, path) && i < |lane| && NestedBelow(rows, lane[i], path, thn, els)
    ensures NestLane(rows, lane[i..], path) == [Step(lane[i].c, thn, els)] + NestLane(rows, lane[i + 1..], path)
  {
    assert lane[i..][0] == lane[i] && lane[i..][1..] == lane[i + 1..];
  }
}
