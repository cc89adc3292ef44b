/**
 Where a submitted tree's steps stand in its stored rows: parent, branch, position, content.
 */
module StoredLanes {
  import opened Domain
  import opened StepStorage
  import opened StepRoundTrip

  /** Row by row the lane's steps, numbered from zero, under the given parent and branch. */
  ghost predicate Holds(rows: seq<Row>, lane: seq<Step>, parent: Option<Id>, branch: Option<Branch>) {
    |rows| == |lane| && forall j | 0 <= j < |lane| ::
      rows[j].ord == j && rows[j].c == lane[j].c && rows[j].parent == parent && rows[j].branch == branch
  }

  /** A row belongs to a lane exactly when it has both a parent and a branch; any other reads as a root. */
  lemma LaneColumns(r: Row)
    ensures r.parent.Some? && r.branch.Some? ==> r.Lane() == Some((r.parent.value, r.branch.value))
    ensures r.parent.None? || r.branch.None? ==> r.Lane() == None
  {
  }

  lemma {:induction false} TopsExactly(lane: seq<Step>, ord: nat, key: LaneKey, mint: Mint, at: nat)
    ensures var tops := Tops(lane, ord, key, mint, at);
      && |tops| == |lane|
      && forall j | 0 <= j < |lane| :: tops[j] == RowOf(mint(at + Size(lane[..j])), key, ord + j, lane[j].c)
  {
    hide RowOf, Tops, Weight, Size;
    if lane == [] {
      NoTops(ord, key, mint, at);
    } else {
      var next := at + Weight(lane[0]);
      var rest := Tops(lane[1..], ord + 1, key, mint, next);
      TopsExactly(lane[1..], ord + 1, key, mint, next);
      TopsHead(lane, ord, key, mint, at);
      SizeOfFront(lane, 0);
      assert lane[..0] == [];
      forall j | 0 < j < |lane|
        ensures Tops(lane, ord, key, mint, at)[j] == RowOf(mint(at + Size(lane[..j])), key, ord + j, lane[j].c)
      {
        SizeOfFront(lane, j);
        assert rest[j - 1] == RowOf(mint(next + Size(lane[1..][..j - 1])), key, ord + 1 + (j - 1), lane[1..][j - 1].c);
      }
    }
  }

  lemma NoTops(ord: nat, key: LaneKey, mint: Mint, at: nat)
    ensures Tops([], ord, key, mint, at) == []
  {
  }

  lemma TopsHead(lane: seq<Step>, ord: nat, key: LaneKey, mint: Mint, at: nat)
    requires lane != []
    ensures Tops(lane, ord, key, mint, at) == [RowOf(mint(at), key, ord, lane[0].c)]
                                            + Tops(lane[1..], ord + 1, key, mint, at + Weight(lane[0]))
  {
  }

  lemma LaneHolds(lane: seq<Step>, mint: Mint, up: nat, b: Branch, at: nat)
    ensures Holds(Tops(lane, 0, Some((mint(up), b)), mint, at), lane, Some(mint(up)), Some(b))
  {
    TopsExactly(lane, 0, Some((mint(up), b)), mint, at);
  }

  /** Below the step stored with this id: its then steps in the then branch and its else steps in the else branch. */
  ghost predicate Below(all: seq<Row>, id: Id, s: Step) {
    && Holds(InLane(all, Some((id, InThen))), s.thn, Some(id), Some(InThen))
    && Holds(InLane(all, Some((id, InElse))), s.els, Some(id), Some(InElse))
  }

  lemma {:induction false} StoredBelow(all: seq<Row>, lane: seq<Step>, ord: nat, key: LaneKey, mint: Mint, at: nat,
                                       n: nat, k: nat)
    requires MintsApart(mint, n) && at + Size(lane) <= n && FromOutside(key, mint, at) && k < |lane|
    requires SelfContained(all, Flatten(lane, ord, key, mint, at), mint, at, at + Size(lane))
    ensures Below(all, mint(at + Size(lane[..k])), lane[k])
    decreases k
  {
    hide *;
    HeadAndRest(all, lane, ord, key, mint, at, n);
    if k == 0 {
      StepBelow(all, lane[0], ord, key, mint, at, n);
      SizeOfFront(lane, 0);
      assert lane[..0] == [];
    } else {
      StoredBelow(all, lane[1..], ord + 1, key, mint, at + Weight(lane[0]), n, k - 1);
      SizeOfFront(lane, k);
    }
  }

  lemma SizeOfFront(lane: seq<Step>, k: nat)
    requires k < |lane|
    ensures Size([]) == 0
    ensures k > 0 ==> Size(lane[..k]) == Weight(lane[0]) + Size(lane[1..][..k - 1])
  {
    if k > 0 {
      assert lane[..k][1..] == lane[1..][..k - 1];
    }
  }

  lemma StepBelow(all: seq<Row>, s: Step, ord: nat, key: LaneKey, mint: Mint, at: nat, n: nat)
    requires MintsApart(mint, n) && at + Weight(s) <= n && FromOutside(key, mint, at)
    requires SelfContained(all, FlattenStep(s, ord, key, mint, at), mint, at, at + Weight(s))
    ensures Below(all, mint(at), s)
  {
    hide MintsApart, FromOutside, SelfContained, SameLane, Weight, Size, Flatten, FlattenStep, Tops, InLane, Holds;
    ThenAndElse(all, s, ord, key, mint, at, n);
    InLaneIsTops(all, s.thn, InThen, mint, at, at + 1, n);
    InLaneIsTops(all, s.els, InElse, mint, at, at + 1 + Size(s.thn), n);
    LaneHolds(s.thn, mint, at, InThen, at + 1);
    LaneHolds(s.els, mint, at, InElse, at + 1 + Size(s.thn));
  }

  /**
   The stored rows of a tree: the root rows are the roots in order, each with its own id, and below each root its
   then steps stand in the then branch and its else steps in the else branch, in order.
   */
  lemma StoredExactly(tree: seq<Step>, mint: Mint, k: nat)
    requires MintsApart(mint, Size(tree)) && k < |tree|
    ensures var all := FlattenTree(tree, mint);
      && Holds(InLane(all, None), tree, None, None)
      && InLane(all, None)[k].id == mint(Size(tree[..k]))
      && Below(all, InLane(all, None)[k].id, tree[k])
  {
    var all := FlattenTree(tree, mint);
    hide Below, InLane, Tops, SelfContained, FromOutside, MintsApart, Size;
    OwnLane(tree, 0, None, mint, 0);
    TopsExactly(tree, 0, None, mint, 0);
    AllSelfContained(all, mint, Size(tree));
    StoredBelow(all, tree, 0, None, mint, 0, Size(tree), k);
  }
}
