/**
 The storage round trip keeps the tree: whatever order the rows are read in, nesting them
 gives back the submitted tree, so a run compiled from storage is the run the tree stands for.
 */
module StepRoundTrip {
  import opened Domain
  import opened StepTree
  import opened StepStorage

  /** The minted ids at the positions a tree uses are pairwise distinct. */
  ghost predicate MintsApart(mint: Mint, n: nat) {
    forall i: nat, j: nat {:trigger mint(i), mint(j)} | i < j < n :: mint(i) != mint(j)
  }

  function RestRows(lane: seq<Step>, ord: nat, key: LaneKey, mint: Mint, at: nat): seq<Row>
    requires lane != []
  {
    Flatten(lane[1..], ord + 1, key, mint, at + Weight(lane[0]))
  }

  // ---- Ids and parents of flattened rows ----

  ghost predicate IdsFrom(rows: seq<Row>, mint: Mint, at: nat, end: nat) {
    at + |rows| == end && forall k {:trigger rows[k]} | 0 <= k < |rows| :: rows[k].id == mint(at + k)
  }

  lemma IdsAppend(a: seq<Row>, b: seq<Row>, mint: Mint, at: nat, mid: nat, end: nat)
    requires IdsFrom(a, mint, at, mid) && IdsFrom(b, mint, mid, end)
    ensures IdsFrom(a + b, mint, at, end)
  {
    forall k | 0 <= k < |a + b| ensures (a + b)[k].id == mint(at + k) {
      if k >= |a| {
        assert (a + b)[k] == b[k - |a|];
        assert mid + (k - |a|) == at + k;
      }
    }
  }

  lemma {:induction false} StepIds(s: Step, ord: nat, key: LaneKey, mint: Mint, at: nat)
    ensures IdsFrom(FlattenStep(s, ord, key, mint, at), mint, at, at + Weight(s))
    decreases s
  {
    FlattenIds(s.thn, 0, Some((mint(at), InThen)), mint, at + 1);
    FlattenIds(s.els, 0, Some((mint(at), InElse)), mint, at + 1 + Size(s.thn));
    IdsAppend(ThenRows(s, mint, at), ElseRows(s, mint, at), mint, at + 1, at + 1 + Size(s.thn), at + Weight(s));
    var row := RowOf(mint(at), key, ord, s.c);
    assert row.id == mint(at);
    IdsAppend([row], FlattenBelow(s, mint, at), mint, at, at + 1, at + Weight(s));
  }

  /** The k-th row written takes the k-th id. */
  lemma {:induction false} FlattenIds(lane: seq<Step>, ord: nat, key: LaneKey, mint: Mint, at: nat)
    ensures IdsFrom(Flatten(lane, ord, key, mint, at), mint, at, at + Size(lane))
    decreases lane
  {
    if lane != [] {
      StepIds(lane[0], ord, key, mint, at);
      FlattenIds(lane[1..], ord + 1, key, mint, at + Weight(lane[0]));
      IdsAppend(FlattenStep(lane[0], ord, key, mint, at), RestRows(lane, ord, key, mint, at), mint,
                at, at + Weight(lane[0]), at + Size(lane));
    }
  }

  /** A flattened row sits in the given lane or under a step of the same flattening. */
  ghost predicate PlacedWithin(r: Row, key: LaneKey, mint: Mint, at: nat, end: nat) {
    || r.Lane() == key
    || exists j: nat {:trigger mint(j)} :: at <= j < end && r.Lane().Some? && r.Lane().value.0 == mint(j)
  }

  ghost predicate ParentsWithin(rows: seq<Row>, key: LaneKey, mint: Mint, at: nat, end: nat) {
    forall r | r in rows :: PlacedWithin(r, key, mint, at, end)
  }

  lemma PlacedWiden(rows: seq<Row>, key: LaneKey, mint: Mint, at: nat, end: nat, key': LaneKey, at': nat, end': nat)
    requires ParentsWithin(rows, key, mint, at, end) && at' <= at && end <= end'
    requires key == key' || (key.Some? && at' < end' && key.value.0 == mint(at'))
    ensures ParentsWithin(rows, key', mint, at', end')
  {
    forall r | r in rows ensures PlacedWithin(r, key', mint, at', end') {
      assert PlacedWithin(r, key, mint, at, end);
    }
  }

  lemma RowOfLane(id: Id, key: LaneKey, ord: nat, c: Content)
    ensures RowOf(id, key, ord, c).Lane() == key && RowOf(id, key, ord, c).id == id
  {
  }

  lemma ParentsAppend(a: seq<Row>, b: seq<Row>, key: LaneKey, mint: Mint, at: nat, end: nat)
    requires ParentsWithin(a, key, mint, at, end) && ParentsWithin(b, key, mint, at, end)
    ensures ParentsWithin(a + b, key, mint, at, end)
  {
  }

  lemma {:induction false} StepParents(s: Step, ord: nat, key: LaneKey, mint: Mint, at: nat)
    ensures ParentsWithin(FlattenStep(s, ord, key, mint, at), key, mint, at, at + Weight(s))
    ensures ParentsWithin(ThenRows(s, mint, at), Some((mint(at), InThen)), mint, at + 1, at + 1 + Size(s.thn))
    ensures ParentsWithin(ElseRows(s, mint, at), Some((mint(at), InElse)), mint, at + 1 + Size(s.thn), at + Weight(s))
    decreases s
  {
    var row, t, e := RowOf(mint(at), key, ord, s.c), ThenRows(s, mint, at), ElseRows(s, mint, at);
    FlattenParents(s.thn, 0, Some((mint(at), InThen)), mint, at + 1);
    FlattenParents(s.els, 0, Some((mint(at), InElse)), mint, at + 1 + Size(s.thn));
    PlacedWiden(t, Some((mint(at), InThen)), mint, at + 1, at + 1 + Size(s.thn), key, at, at + Weight(s));
    PlacedWiden(e, Some((mint(at), InElse)), mint, at + 1 + Size(s.thn), at + Weight(s), key, at, at + Weight(s));
    RowOfLane(mint(at), key, ord, s.c);
    ParentsAppend(t, e, key, mint, at, at + Weight(s));
    ParentsAppend([row], t + e, key, mint, at, at + Weight(s));
    assert FlattenStep(s, ord, key, mint, at) == [row] + (t + e);
  }

  lemma {:induction false} FlattenParents(lane: seq<Step>, ord: nat, key: LaneKey, mint: Mint, at: nat)
    ensures ParentsWithin(Flatten(lane, ord, key, mint, at), key, mint, at, at + Size(lane))
    decreases lane
  {
    if lane != [] {
      StepParents(lane[0], ord, key, mint, at);
      FlattenParents(lane[1..], ord + 1, key, mint, at + Weight(lane[0]));
      PlacedWiden(FlattenStep(lane[0], ord, key, mint, at), key, mint, at, at + Weight(lane[0]), key, at,
                  at + Size(lane));
      PlacedWiden(RestRows(lane, ord, key, mint, at), key, mint, at + Weight(lane[0]), at + Size(lane), key, at,
                  at + Size(lane));
    }
  }

  // ---- Lanes of the flattening ----

  /** The rows a lane itself contributes, without what lies below it. */
  function Tops(lane: seq<Step>, ord: nat, key: LaneKey, mint: Mint, at: nat): seq<Row> {
    if lane == [] then []
    else [RowOf(mint(at), key, ord, lane[0].c)] + Tops(lane[1..], ord + 1, key, mint, at + Weight(lane[0]))
  }

  lemma {:induction false} TopsDense(lane: seq<Step>, ord: nat, key: LaneKey, mint: Mint, at: nat)
    ensures Dense(Tops(lane, ord, key, mint, at), ord)
    ensures |Tops(lane, ord, key, mint, at)| == |lane|
  {
    if lane != [] {
      TopsDense(lane[1..], ord + 1, key, mint, at + Weight(lane[0]));
    }
  }

  /** A lane that is neither the given one nor under a step of the range is not found in the rows. */
  lemma Elsewhere(rows: seq<Row>, key: LaneKey, mint: Mint, at: nat, end: nat, other: LaneKey)
    requires ParentsWithin(rows, key, mint, at, end) && other != key
    requires other.Some? ==> forall j: nat {:trigger mint(j)} | at <= j < end :: other.value.0 != mint(j)
    ensures InLane(rows, other) == []
  {
    forall r | r in rows ensures r.Lane() != other {
      assert PlacedWithin(r, key, mint, at, end);
    }
    EmptyLane(rows, other);
  }

  lemma {:induction false} EmptyLane(rows: seq<Row>, key: LaneKey)
    requires forall r | r in rows :: r.Lane() != key
    ensures InLane(rows, key) == []
  {
    if rows != [] {
      EmptyLane(rows[1..], key);
    }
  }

  lemma LaneOfStep(s: Step, ord: nat, key: LaneKey, mint: Mint, at: nat, k: LaneKey)
    ensures InLane(FlattenStep(s, ord, key, mint, at), k)
         == (if key == k then [RowOf(mint(at), key, ord, s.c)] else [])
            + InLane(ThenRows(s, mint, at), k) + InLane(ElseRows(s, mint, at), k)
  {
    var row, t, e := RowOf(mint(at), key, ord, s.c), ThenRows(s, mint, at), ElseRows(s, mint, at);
    RowOfLane(mint(at), key, ord, s.c);
    LaneOfParts(row, t, e, k);
  }

  lemma LaneOfParts(row: Row, t: seq<Row>, e: seq<Row>, k: LaneKey)
    ensures InLane([row] + (t + e), k) == (if row.Lane() == k then [row] else []) + InLane(t, k) + InLane(e, k)
  {
    InLaneAppend([row], t + e, k);
    InLaneAppend(t, e, k);
    assert [row][1..] == [];
    var h := if row.Lane() == k then [row] else [];
    assert h + (InLane(t, k) + InLane(e, k)) == (h + InLane(t, k)) + InLane(e, k);
  }

  /** The rows of a lane's own key are exactly its top rows, in order. */
  lemma {:induction false} OwnLane(lane: seq<Step>, ord: nat, key: LaneKey, mint: Mint, at: nat)
    requires key.Some? ==> forall j: nat {:trigger mint(j)} | at <= j < at + Size(lane) :: key.value.0 != mint(j)
    ensures InLane(Flatten(lane, ord, key, mint, at), key) == Tops(lane, ord, key, mint, at)
    decreases lane
  {
    hide InLane, FlattenStep;
    NoRows(key);
    if lane != [] {
      OwnStep(lane[0], ord, key, mint, at);
      OwnLane(lane[1..], ord + 1, key, mint, at + Weight(lane[0]));
      InLaneAppend(FlattenStep(lane[0], ord, key, mint, at), RestRows(lane, ord, key, mint, at), key);
    }
  }

  lemma NoRows(key: LaneKey)
    ensures InLane([], key) == []
  {
  }

  lemma OwnStep(s: Step, ord: nat, key: LaneKey, mint: Mint, at: nat)
    requires key.Some? ==> forall j: nat {:trigger mint(j)} | at <= j < at + Weight(s) :: key.value.0 != mint(j)
    ensures InLane(FlattenStep(s, ord, key, mint, at), key) == [RowOf(mint(at), key, ord, s.c)]
  {
    StepParents(s, ord, key, mint, at);
    assert key.Some? ==> key.value.0 != mint(at);
    Elsewhere(ThenRows(s, mint, at), Some((mint(at), InThen)), mint, at + 1, at + 1 + Size(s.thn), key);
    Elsewhere(ElseRows(s, mint, at), Some((mint(at), InElse)), mint, at + 1 + Size(s.thn), at + Weight(s), key);
    LaneOfStep(s, ord, key, mint, at, key);
  }

  /** What lies under the steps numbered `at` up to `end` is found in `part` alone. */
  ghost predicate SelfContained(all: seq<Row>, part: seq<Row>, mint: Mint, at: nat, end: nat) {
    forall j: nat, b | at <= j < end :: SameLane(all, part, mint, j, b)
  }

  ghost predicate SameLane(all: seq<Row>, part: seq<Row>, mint: Mint, j: nat, b: Branch) {
    InLane(all, Some((mint(j), b))) == InLane(part, Some((mint(j), b)))
  }

  /** Where a row cannot come from outside the numbered range, its lane is found in the range. */
  ghost predicate FromOutside(key: LaneKey, mint: Mint, at: nat) {
    key.Some? ==> exists p: nat {:trigger mint(p)} :: p < at && key.value.0 == mint(p)
  }

  lemma HeadAndRest(all: seq<Row>, lane: seq<Step>, ord: nat, key: LaneKey, mint: Mint, at: nat, n: nat)
    requires lane != [] && MintsApart(mint, n) && at + Size(lane) <= n && FromOutside(key, mint, at)
    requires SelfContained(all, Flatten(lane, ord, key, mint, at), mint, at, at + Size(lane))
    ensures SelfContained(all, FlattenStep(lane[0], ord, key, mint, at), mint, at, at + Weight(lane[0]))
    ensures at + Weight(lane[0]) <= n
    ensures var mid := at + Weight(lane[0]);
      && mid + Size(lane[1..]) <= n && FromOutside(key, mint, mid)
      && SelfContained(all, Flatten(lane[1..], ord + 1, key, mint, mid), mint, mid, mid + Size(lane[1..]))
  {
    var head, rest := FlattenStep(lane[0], ord, key, mint, at), RestRows(lane, ord, key, mint, at);
    var mid := at + Weight(lane[0]);
    StepParents(lane[0], ord, key, mint, at);
    FlattenParents(lane[1..], ord + 1, key, mint, mid);
    forall j: nat, b | at <= j < at + Size(lane)
      ensures j < mid ==> SameLane(all, head, mint, j, b)
      ensures j >= mid ==> SameLane(all, rest, mint, j, b)
    {
      var k := Some((mint(j), b));
      assert SameLane(all, Flatten(lane, ord, key, mint, at), mint, j, b);
      InLaneAppend(head, rest, k);
      if j < mid {
        Elsewhere(rest, key, mint, mid, at + Size(lane), k);
      } else {
        Elsewhere(head, key, mint, at, mid, k);
      }
    }
  }

  lemma ThenAndElse(all: seq<Row>, s: Step, ord: nat, key: LaneKey, mint: Mint, at: nat, n: nat)
    requires MintsApart(mint, n) && at + Weight(s) <= n && FromOutside(key, mint, at)
    requires SelfContained(all, FlattenStep(s, ord, key, mint, at), mint, at, at + Weight(s))
    ensures at + 1 + Size(s.thn) + Size(s.els) <= n
    ensures var inThen := Some((mint(at), InThen));
      && SameLane(all, Flatten(s.thn, 0, inThen, mint, at + 1), mint, at, InThen)
      && SelfContained(all, Flatten(s.thn, 0, inThen, mint, at + 1), mint, at + 1, at + 1 + Size(s.thn))
    ensures var inElse, mid := Some((mint(at), InElse)), at + 1 + Size(s.thn);
      && SameLane(all, Flatten(s.els, 0, inElse, mint, mid), mint, at, InElse)
      && SelfContained(all, Flatten(s.els, 0, inElse, mint, mid), mint, mid, mid + Size(s.els))
  {
    var t, e, mid := ThenRows(s, mint, at), ElseRows(s, mint, at), at + 1 + Size(s.thn);
    assert mid + Size(s.els) == at + Weight(s);
    forall j: nat, b | at <= j < at + Weight(s)
      ensures (if j == at then b == InThen else j < mid) ==> SameLane(all, t, mint, j, b)
      ensures (if j == at then b == InElse else j >= mid) ==> SameLane(all, e, mint, j, b)
    {
      OneSide(all, s, ord, key, mint, at, n, j, b);
    }
  }

  lemma OneSide(all: seq<Row>, s: Step, ord: nat, key: LaneKey, mint: Mint, at: nat, n: nat, j: nat, b: Branch)
    requires MintsApart(mint, n) && at <= j < at + Weight(s) <= n && FromOutside(key, mint, at)
    requires SelfContained(all, FlattenStep(s, ord, key, mint, at), mint, at, at + Weight(s))
    ensures if (if j == at then b == InThen else j < at + 1 + Size(s.thn))
            then SameLane(all, ThenRows(s, mint, at), mint, j, b)
            else SameLane(all, ElseRows(s, mint, at), mint, j, b)
  {
    var t, e, mid, k := ThenRows(s, mint, at), ElseRows(s, mint, at), at + 1 + Size(s.thn), Some((mint(j), b));
    StepParents(s, ord, key, mint, at);
    assert SameLane(all, FlattenStep(s, ord, key, mint, at), mint, j, b);
    LaneOfStep(s, ord, key, mint, at, k);
    assert key != k;
    if (if j == at then b == InThen else j < mid) {
      Elsewhere(e, Some((mint(at), InElse)), mint, mid, at + Weight(s), k);
    } else {
      Elsewhere(t, Some((mint(at), InThen)), mint, at + 1, mid, k);
    }
  }

  // ---- Nesting any permutation ----

  lemma InLaneOfPermutation(rows: seq<Row>, all: seq<Row>, key: LaneKey)
    requires multiset(rows) == multiset(all)
    ensures multiset(InLane(rows, key)) == multiset(InLane(all, key))
  {
    forall r ensures multiset(InLane(rows, key))[r] == multiset(InLane(all, key))[r] {
      InLaneCounts(rows, key, r);
      InLaneCounts(all, key, r);
    }
  }

  lemma {:induction false} InLaneCounts(rows: seq<Row>, key: LaneKey, r: Row)
    ensures multiset(InLane(rows, key))[r] == if r.Lane() == key then multiset(rows)[r] else 0
  {
    if rows != [] {
      InLaneCounts(rows[1..], key, r);
      assert rows == [rows[0]] + rows[1..];
    }
  }

  lemma SortedIsTops(rows: seq<Row>, all: seq<Row>, lane: seq<Step>, ord: nat, key: LaneKey, mint: Mint, at: nat)
    requires multiset(rows) == multiset(all) && InLane(all, key) == Tops(lane, ord, key, mint, at)
    ensures Sorted(rows, key) == Tops(lane, ord, key, mint, at)
  {
    InLaneOfPermutation(rows, all, key);
    TopsDense(lane, ord, key, mint, at);
    ByOrdOfPermutation(InLane(rows, key), Tops(lane, ord, key, mint, at), ord);
  }

  lemma {:induction false} NestFlattened(rows: seq<Row>, all: seq<Row>, lane: seq<Step>, ord: nat, key: LaneKey,
                                         mint: Mint, at: nat, n: nat, path: seq<Row>)
    requires MintsApart(mint, n) && at + Size(lane) <= n && FromOutside(key, mint, at)
    requires multiset(rows) == multiset(all)
    requires SelfContained(all, Flatten(lane, ord, key, mint, at), mint, at, at + Size(lane))
    requires Ready(rows, Tops(lane, ord, key, mint, at), path)
    ensures NestLane(rows, Tops(lane, ord, key, mint, at), path) == lane
    decreases lane, 1
  {
    hide *;
    if lane == [] {
      NestNothing(rows, ord, key, mint, at, path);
    } else {
      NestHeadAndRest(rows, all, lane, ord, key, mint, at, n, path);
    }
  }

  lemma NestNothing(rows: seq<Row>, ord: nat, key: LaneKey, mint: Mint, at: nat, path: seq<Row>)
    requires Ready(rows, Tops([], ord, key, mint, at), path)
    ensures NestLane(rows, Tops([], ord, key, mint, at), path) == []
  {
  }

  lemma {:induction false} NestHeadAndRest(rows: seq<Row>, all: seq<Row>, lane: seq<Step>, ord: nat, key: LaneKey,
                                           mint: Mint, at: nat, n: nat, path: seq<Row>)
    requires lane != []
    requires MintsApart(mint, n) && at + Size(lane) <= n && FromOutside(key, mint, at)
    requires multiset(rows) == multiset(all)
    requires SelfContained(all, Flatten(lane, ord, key, mint, at), mint, at, at + Size(lane))
    requires Ready(rows, Tops(lane, ord, key, mint, at), path)
    ensures NestLane(rows, Tops(lane, ord, key, mint, at), path) == lane
    decreases lane, 0
  {
    hide *;
    var tops := Tops(lane, ord, key, mint, at);
    TopsParts(lane, ord, key, mint, at);
    ReadyParts(rows, tops, path);
    HeadAndRest(all, lane, ord, key, mint, at, n);
    NestFlattened(rows, all, lane[1..], ord + 1, key, mint, at + Weight(lane[0]), n, path);
    NestFlattenedStep(rows, all, lane[0], ord, key, tops[0], mint, at, n, path);
    Rebuilt(rows, tops, path, lane);
  }

  lemma {:induction false} NestFlattenedStep(rows: seq<Row>, all: seq<Row>, s: Step, ord: nat, key: LaneKey, r: Row,
                                             mint: Mint, at: nat, n: nat, path: seq<Row>)
    requires MintsApart(mint, n) && at + Weight(s) <= n && FromOutside(key, mint, at)
    requires multiset(rows) == multiset(all)
    requires SelfContained(all, FlattenStep(s, ord, key, mint, at), mint, at, at + Weight(s))
    requires UniqueIds(rows) && Chain(rows, path) && r in rows && Extends(path, r) && r.id == mint(at)
    ensures NestedBelow(rows, r, path, s.thn, s.els)
    decreases s
  {
    hide *;
    ThenAndElse(all, s, ord, key, mint, at, n);
    NestOneLane(rows, all, s.thn, r, InThen, mint, at, at + 1, n, path);
    NestOneLane(rows, all, s.els, r, InElse, mint, at, at + 1 + Size(s.thn), n, path);
    BothLanes(rows, r, path, s.thn, s.els);
  }

  lemma BothLanes(rows: seq<Row>, r: Row, path: seq<Row>, thn: seq<Step>, els: seq<Step>)
    requires Ready(rows, Sorted(rows, Some((r.id, InThen))), path + [r])
    requires Ready(rows, Sorted(rows, Some((r.id, InElse))), path + [r])
    requires NestLane(rows, Sorted(rows, Some((r.id, InThen))), path + [r]) == thn
    requires NestLane(rows, Sorted(rows, Some((r.id, InElse))), path + [r]) == els
    ensures NestedBelow(rows, r, path, thn, els)
  {
  }

  lemma {:induction false} NestOneLane(rows: seq<Row>, all: seq<Row>, lane: seq<Step>, r: Row, b: Branch, mint: Mint,
                                       up: nat, at: nat, n: nat, path: seq<Row>)
    requires MintsApart(mint, n) && up < at && at + Size(lane) <= n
    requires multiset(rows) == multiset(all)
    requires SelfContained(all, Flatten(lane, 0, Some((mint(up), b)), mint, at), mint, at, at + Size(lane))
    requires SameLane(all, Flatten(lane, 0, Some((mint(up), b)), mint, at), mint, up, b)
    requires UniqueIds(rows) && Chain(rows, path) && r in rows && Extends(path, r) && r.id == mint(up)
    ensures Ready(rows, Sorted(rows, Some((r.id, b))), path + [r])
    ensures NestLane(rows, Sorted(rows, Some((r.id, b))), path + [r]) == lane
    decreases lane, 2
  {
    hide *;
    var key := Some((mint(up), b));
    BelowIsOutside(mint, up, b, at);
    InLaneIsTops(all, lane, b, mint, up, at, n);
    ReadyBelow(rows, path, r, b);
    SortedIsTops(rows, all, lane, 0, key, mint, at);
    NestFlattened(rows, all, lane, 0, key, mint, at, n, path + [r]);
  }

  lemma BelowIsOutside(mint: Mint, up: nat, b: Branch, at: nat)
    requires up < at
    ensures FromOutside(Some((mint(up), b)), mint, at)
  {
  }

  lemma InLaneIsTops(all: seq<Row>, lane: seq<Step>, b: Branch, mint: Mint, up: nat, at: nat, n: nat)
    requires MintsApart(mint, n) && up < at && at + Size(lane) <= n
    requires SameLane(all, Flatten(lane, 0, Some((mint(up), b)), mint, at), mint, up, b)
    ensures InLane(all, Some((mint(up), b))) == Tops(lane, 0, Some((mint(up), b)), mint, at)
  {
    OwnLane(lane, 0, Some((mint(up), b)), mint, at);
  }

  lemma ReadyParts(rows: seq<Row>, tops: seq<Row>, path: seq<Row>)
    requires Ready(rows, tops, path) && tops != []
    ensures tops[0] in rows && Extends(path, tops[0]) && Ready(rows, tops[1..], path)
    ensures UniqueIds(rows) && Chain(rows, path)
  {
    assert tops[0] in tops;
    assert forall r | r in tops[1..] :: r in tops;
  }

  lemma Rebuilt(rows: seq<Row>, tops: seq<Row>, path: seq<Row>, lane: seq<Step>)
    requires Ready(rows, tops, path) && tops != [] && lane != [] && tops[0].c == lane[0].c
    requires NestedBelow(rows, tops[0], path, lane[0].thn, lane[0].els)
    requires NestLane(rows, tops[1..], path) == lane[1..]
    ensures NestLane(rows, tops, path) == lane
  {
    hide *;
    assert tops[0..] == tops;
    NestUnfolds(rows, tops, 0, path, lane[0].thn, lane[0].els);
    assert lane == [Step(lane[0].c, lane[0].thn, lane[0].els)] + lane[1..];
  }

  lemma TopsParts(lane: seq<Step>, ord: nat, key: LaneKey, mint: Mint, at: nat)
    requires lane != []
    ensures var tops := Tops(lane, ord, key, mint, at);
      && tops != [] && tops[0].id == mint(at) && tops[0].c == lane[0].c
      && tops[1..] == Tops(lane[1..], ord + 1, key, mint, at + Weight(lane[0]))
  {
  }

  lemma FlattenUniqueIds(tree: seq<Step>, mint: Mint, rows: seq<Row>)
    requires MintsApart(mint, Size(tree)) && multiset(rows) == multiset(FlattenTree(tree, mint))
    ensures UniqueIds(rows)
  {
    var all := FlattenTree(tree, mint);
    FlattenIds(tree, 0, None, mint, 0);
    forall r, q | r in rows && q in rows && r.id == q.id ensures r == q {
      assert r in multiset(rows) && q in multiset(rows);
      assert r in multiset(all) && q in multiset(all);
      var i :| 0 <= i < |all| && all[i] == r;
      var j :| 0 <= j < |all| && all[j] == q;
      assert r.id == mint(0 + i) && q.id == mint(0 + j);
    }
  }

  /** Any reading order of the stored rows nests back to the submitted tree. */
  lemma RoundTrip(tree: seq<Step>, mint: Mint, rows: seq<Row>)
    requires MintsApart(mint, Size(tree)) && multiset(rows) == multiset(FlattenTree(tree, mint))
    ensures UniqueIds(rows) && Nest(rows) == tree
  {
    var all := FlattenTree(tree, mint);
    FlattenUniqueIds(tree, mint, rows);
    OwnLane(tree, 0, None, mint, 0);
    AllSelfContained(all, mint, Size(tree));
    ReadyRoots(rows);
    hide *;
    SortedIsTops(rows, all, tree, 0, None, mint, 0);
    NestFlattened(rows, all, tree, 0, None, mint, 0, Size(tree), []);
    NestFromRoots(rows);
  }

  lemma AllSelfContained(all: seq<Row>, mint: Mint, n: nat)
    ensures SelfContained(all, all, mint, 0, n) && FromOutside(None, mint, 0)
  {
  }

  lemma ReadyRoots(rows: seq<Row>)
    requires UniqueIds(rows)
    ensures Ready(rows, Sorted(rows, None), [])
  {
    SortedRows(rows, None);
  }

  lemma NestFromRoots(rows: seq<Row>)
    requires UniqueIds(rows) && Ready(rows, Sorted(rows, None), [])
    ensures Nest(rows) == NestLane(rows, Sorted(rows, None), [])
  {
  }

  /** A run compiled from storage is the run the submitted tree stands for, at every total. */
  lemma {:induction false} CompiledFromStorage(tree: seq<Step>, mint: Mint, rows: seq<Row>, total: Option<Money>)
    requires MintsApart(mint, Size(tree)) && multiset(rows) == multiset(FlattenTree(tree, mint))
    ensures UniqueIds(rows) && Interpret(Nest(rows), total) == Interpret(tree, total)
  {
    RoundTrip(tree, mint, rows);
  }

  // ---- Writing roots before children ----

  function Roots(rows: seq<Row>): seq<Row> {
    if rows == [] then [] else (if rows[0].parent.None? then [rows[0]] else []) + Roots(rows[1..])
  }

  function Children(rows: seq<Row>): seq<Row> {
    if rows == [] then [] else (if rows[0].parent.None? then [] else [rows[0]]) + Children(rows[1..])
  }

  /** Every row comes after the row of its parent step. */
  ghost predicate ParentsFirst(written: seq<Row>) {
    forall k | 0 <= k < |written| && written[k].parent.Some? ::
      exists j :: 0 <= j < k && written[j].id == written[k].parent.value
  }

  lemma {:induction false} BatchesKeepRows(rows: seq<Row>)
    ensures multiset(Roots(rows) + Children(rows)) == multiset(rows)
    ensures forall r :: r in Roots(rows) <==> r in rows && r.parent.None?
    ensures forall r :: r in Children(rows) <==> r in rows && r.parent.Some?
  {
    if rows != [] {
      BatchesKeepRows(rows[1..]);
      assert rows == [rows[0]] + rows[1..];
    }
  }

  /** The two write batches of a version's rows. */
  method WriteBatches(rows: seq<Row>) returns (written: seq<Row>)
    ensures written == Roots(rows) + Children(rows)
  {
    var roots, children := [], [];
    for i := 0 to |rows|
      invariant roots + Roots(rows[i..]) == Roots(rows)
      invariant children + Children(rows[i..]) == Children(rows)
    {
      assert rows[i..][0] == rows[i] && rows[i..][1..] == rows[i + 1..];
      if rows[i].parent.None? {
        Assoc(roots, [rows[i]], Roots(rows[i + 1..]));
        roots := roots + [rows[i]];
      } else {
        Assoc(children, [rows[i]], Children(rows[i + 1..]));
        children := children + [rows[i]];
      }
    }
    assert rows[|rows|..] == [];
    written := roots + children;
  }

  /** Every parent named in the rows is a root row of the rows. */
  ghost predicate ParentsAreRoots(rows: seq<Row>) {
    forall r | r in rows && r.parent.Some? :: exists q :: q in rows && q.parent.None? && q.id == r.parent.value
  }

  lemma LeafRows(s: Step, ord: nat, key: LaneKey, mint: Mint, at: nat)
    requires s.thn == [] && s.els == []
    ensures FlattenStep(s, ord, key, mint, at) == [RowOf(mint(at), key, ord, s.c)]
  {
    assert Flatten(s.thn, 0, Some((mint(at), InThen)), mint, at + 1) == [];
    assert Flatten(s.els, 0, Some((mint(at), InElse)), mint, at + 1 + Size(s.thn)) == [];
    assert FlattenBelow(s, mint, at) == ThenRows(s, mint, at) + ElseRows(s, mint, at) == [];
  }

  /** In a lane the gate accepted below the root, nothing has lanes of its own. */
  lemma {:induction false} NestedLaneIsFlat(lane: seq<Step>, ord: nat, key: LaneKey, mint: Mint, at: nat)
    requires ValidLane(lane, true)
    ensures forall r | r in Flatten(lane, ord, key, mint, at) :: r.Lane() == key
    decreases lane
  {
    if lane != [] {
      var s := lane[0];
      RowOfLane(mint(at), key, ord, s.c);
      LeafRows(s, ord, key, mint, at);
      NestedLaneIsFlat(lane[1..], ord + 1, key, mint, at + Weight(s));
      assert Flatten(lane, ord, key, mint, at) == [RowOf(mint(at), key, ord, s.c)] + RestRows(lane, ord, key, mint, at);
    }
  }

  lemma {:induction false} RootLaneParents(lane: seq<Step>, ord: nat, mint: Mint, at: nat)
    requires ValidLane(lane, false)
    ensures ParentsAreRoots(Flatten(lane, ord, None, mint, at))
    decreases lane
  {
    if lane != [] {
      var s := lane[0];
      var row, rest := RowOf(mint(at), None, ord, s.c), RestRows(lane, ord, None, mint, at);
      NestedLaneIsFlat(s.thn, 0, Some((mint(at), InThen)), mint, at + 1);
      NestedLaneIsFlat(s.els, 0, Some((mint(at), InElse)), mint, at + 1 + Size(s.thn));
      RootLaneParents(lane[1..], ord + 1, mint, at + Weight(s));
      StepParentsAreRoots(row, ThenRows(s, mint, at), ElseRows(s, mint, at), rest);
      assert FlattenStep(s, ord, None, mint, at) == [row] + (ThenRows(s, mint, at) + ElseRows(s, mint, at));
    }
  }

  lemma StepParentsAreRoots(row: Row, t: seq<Row>, e: seq<Row>, rest: seq<Row>)
    requires row.parent.None? && ParentsAreRoots(rest)
    requires forall r | r in t || r in e :: r.Lane().Some? && r.Lane().value.0 == row.id
    ensures ParentsAreRoots(([row] + (t + e)) + rest)
  {
    var all := ([row] + (t + e)) + rest;
    assert row in all && forall q | q in rest :: q in all;
    forall r | r in all && r.parent.Some? ensures exists q :: q in all && q.parent.None? && q.id == r.parent.value {
      if r in rest {
        var q :| q in rest && q.parent.None? && q.id == r.parent.value;
        assert q in all;
      }
    }
  }

  /** A tree the gate accepts is written parents first, and what is written is the whole tree. */
  lemma WrittenParentsFirst(tree: seq<Step>, mint: Mint)
    requires ValidTree(tree)
    ensures var rows := FlattenTree(tree, mint);
      ParentsFirst(Roots(rows) + Children(rows)) && multiset(Roots(rows) + Children(rows)) == multiset(rows)
  {
    hide *;
    var rows := FlattenTree(tree, mint);
    TreeParentsAreRoots(tree, mint);
    BatchesKeepRows(rows);
    RootsFirst(rows);
  }

  lemma TreeParentsAreRoots(tree: seq<Step>, mint: Mint)
    requires ValidTree(tree)
    ensures ParentsAreRoots(FlattenTree(tree, mint))
  {
    hide Flatten, ParentsAreRoots, ValidLane;
    RootLaneParents(tree, 0, mint, 0);
  }

  lemma RootsFirst(rows: seq<Row>)
    requires ParentsAreRoots(rows)
    ensures ParentsFirst(Roots(rows) + Children(rows))
  {
    hide Roots, Children;
    BatchesKeepRows(rows);
    var roots, written := Roots(rows), Roots(rows) + Children(rows);
    forall k | 0 <= k < |written| && written[k].parent.Some?
      ensures exists j :: 0 <= j < k && written[j].id == written[k].parent.value
    {
      var r := written[k];
      assert k < |roots| ==> r in roots;
      assert k >= |roots| ==> r in Children(rows);
      var q :| q in rows && q.parent.None? && q.id == r.parent.value;
      var j :| 0 <= j < |roots| && roots[j] == q;
      assert written[j] == q;
    }
  }
}
