/**
 The order of the live policies: how it reads after a create or a reorder, and the pin on
 the last one while any live policy is scoped.
 */
module PolicyOrder {
  import opened Domain
  import opened StepTree
  import opened Matching
  import opened Database
  import opened Operations
  import opened Invariants
  import RoleKey

  // ---- Reading the order ----

  lemma HeadFirst(ps: Policies, a: seq<PolicyId>, x: PolicyId)
    requires Ordered(ps, a) && x in a
    ensures a[0] in ps && x in ps && (a[0] == x || Precedes(ps, a[0], x))
  {
    var i :| 0 <= i < |a| && a[i] == x;
    assert a[0] in a;
  }

  lemma OrderedTail(ps: Policies, a: seq<PolicyId>)
    requires Ordered(ps, a) && |a| > 0
    ensures Ordered(ps, a[1..]) && a[0] !in a[1..]
  {
    assert forall x | x in a[1..] :: x in a;
    forall x | x in a[1..] ensures x != a[0] {
      var i :| 1 <= i < |a| && a[i] == x;
      assert Precedes(ps, a[0], a[i]);
    }
  }

  lemma EmptyOrHeaded(b: seq<PolicyId>)
    ensures b == [] || b[0] in b
  {
  }

  /** A set of policies reads in one way only. */
  lemma {:induction false} OrderedUnique(ps: Policies, a: seq<PolicyId>, b: seq<PolicyId>)
    requires Ordered(ps, a) && Ordered(ps, b) && forall x :: x in a <==> x in b
    ensures a == b
  {
    if a == [] {
      EmptyOrHeaded(b);
    } else {
      assert a[0] in a;
      assert b != [] && b[0] in b;
      HeadFirst(ps, a, b[0]);
      HeadFirst(ps, b, a[0]);
      OrderedTail(ps, a);
      OrderedTail(ps, b);
      forall x ensures x in a[1..] <==> x in b[1..] {
        assert x in a <==> x == a[0] || x in a[1..];
        assert x in b <==> x == b[0] || x in b[1..];
      }
      OrderedUnique(ps, a[1..], b[1..]);
      assert a == [a[0]] + a[1..] && b == [b[0]] + b[1..];
    }
  }

  lemma LiveOrderIs(ps: Policies, ids: seq<PolicyId>)
    requires Ordered(ps, ids) && forall x :: x in ids <==> x in LiveIds(ps)
    ensures LiveOrder(ps) == ids
  {
    InOrderExact(ps, LiveIds(ps));
    OrderedUnique(ps, LiveOrder(ps), ids);
  }

  lemma LastUnique(ps: Policies, a: PolicyId)
    requires IsLast(ps, a)
    ensures LastPolicy(ps) == Some(a)
  {
    assert a in LiveIds(ps);
    var b := LastPolicy(ps).value;
    assert IsLast(ps, b);
  }

  /** The last live policy is the end of the list. */
  lemma LastOfOrder(ps: Policies)
    ensures LiveOrder(ps) == [] <==> LastPolicy(ps).None?
    ensures var ids := LiveOrder(ps); ids != [] ==> LastPolicy(ps) == Some(ids[|ids| - 1])
  {
    var ids := LiveOrder(ps);
    InOrderExact(ps, LiveIds(ps));
    if ids == [] {
      assert forall x :: x in LiveIds(ps) <==> x in ids;
      assert LiveIds(ps) == {};
    } else {
      var last := ids[|ids| - 1];
      assert last in ids && last in LiveIds(ps);
      forall q | q in ps && ps[q].live ensures q == last || Precedes(ps, q, last) {
        assert q in LiveIds(ps) && q in ids;
      }
      LastUnique(ps, last);
    }
  }

  // ---- Create ----

  lemma InsertedOrdered(ps: Policies, ps': Policies, ids: seq<PolicyId>, id: PolicyId)
    requires Ordered(ps, ids) && |ids| > 0 && id !in ps && PositionsDistinct(ps)
    requires forall x | x in ids :: x in ps && ps[x].live
    requires ps'.Keys == ps.Keys + {id}
        && ps'[id].position == ps[ids[|ids| - 1]].position < ps'[ids[|ids| - 1]].position
    requires forall x | x in ps && x != ids[|ids| - 1] :: ps'[x].position == ps[x].position
    ensures Ordered(ps', ids[..|ids| - 1] + [id, ids[|ids| - 1]])
  {
    var n := |ids| - 1;
    var last, read := ids[n], ids[..n] + [id, ids[n]];
    forall k | 0 <= k < n ensures ids[k] in ps && ids[k] != last && ps'[ids[k]].position < ps[last].position {
      assert ids[k] in ids && last in ids && Precedes(ps, ids[k], ids[n]);
    }
    forall x | x in read ensures x in ps' {
      assert x == id || x in ids;
    }
    forall i, j | 0 <= i < j < |read| ensures Precedes(ps', read[i], read[j]) {
      if j < n {
        assert read[i] == ids[i] && read[j] == ids[j] && Precedes(ps, ids[i], ids[j]);
      } else if i < n {
        assert read[i] == ids[i];
      }
    }
  }

  /** A new policy reads directly above the last one; the rest of the list is as it was. */
  lemma CreateInsertsAboveLast(ws: Workspace, ops: seq<Op>, caller: UserId, id: PolicyId, top: int,
                               scopes: Option<Scopes>)
    requires CreatePolicy(Replay(ws, ops), caller, id, top, scopes).Ok?
    ensures var before := LiveOrder(Replay(ws, ops).policies);
      LiveOrder(CreatePolicy(Replay(ws, ops), caller, id, top, scopes).db.policies)
        == if before == [] then [id] else before[..|before| - 1] + [id, before[|before| - 1]]
  {
    Reachable(ws, ops);
    var db := Replay(ws, ops);
    hide Replay, CreatePolicy, Inserted, Inv, CatchAllLast, InOrderOf, History;
    var sc := CreateForm(db, caller, id, top, scopes);
    InsertReads(db, id, top, Policy(top, true, [Version(false, false, [], sc)]));
  }

  lemma InsertedLive(ps: Policies, id: PolicyId, top: int, p: Policy)
    requires id !in ps && p.live
    ensures LiveIds(Inserted(ps, id, top, p)) == LiveIds(ps) + {id}
  {
  }

  lemma InsertedPlaces(ps: Policies, id: PolicyId, top: int, p: Policy, last: PolicyId)
    requires id !in ps && LastPolicy(ps) == Some(last) && ps[last].position < top
    ensures var ps' := Inserted(ps, id, top, p);
      && ps'.Keys == ps.Keys + {id} && ps'[id].position == ps[last].position < ps'[last].position
      && forall x | x in ps && x != last :: ps'[x].position == ps[x].position
  {
  }

  lemma InsertReads(db: Db, id: PolicyId, top: int, p: Policy)
    requires Inv(db) && id !in db.policies && p.live && forall q | q in db.policies :: db.policies[q].position < top
    ensures var before := LiveOrder(db.policies);
      LiveOrder(Inserted(db.policies, id, top, p))
        == if before == [] then [id] else before[..|before| - 1] + [id, before[|before| - 1]]
  {
    hide Inv, Inserted, InOrderOf, LastPolicy, LiveOrder, PositionsDistinct;
    var ps, before := db.policies, LiveOrder(db.policies);
    InvParts(db);
    LiveOrderReads(ps);
    LastOfOrder(ps);
    InsertedLive(ps, id, top, p);
    if before == [] {
      assert LiveIds(ps) == {};
      LiveOrderIs(Inserted(ps, id, top, p), [id]);
    } else {
      assert before[|before| - 1] in before;
      InsertedPlaces(ps, id, top, p, before[|before| - 1]);
      InsertReadsAbove(ps, Inserted(ps, id, top, p), before, id);
    }
  }

  lemma InsertReadsAbove(ps: Policies, ps': Policies, before: seq<PolicyId>, id: PolicyId)
    requires Ordered(ps, before) && |before| > 0 && id !in ps && PositionsDistinct(ps)
    requires forall x :: x in before <==> x in ps && ps[x].live
    requires LiveIds(ps') == LiveIds(ps) + {id} && ps'.Keys == ps.Keys + {id}
    requires ps'[id].position == ps[before[|before| - 1]].position < ps'[before[|before| - 1]].position
    requires forall x | x in ps && x != before[|before| - 1] :: ps'[x].position == ps[x].position
    ensures LiveOrder(ps') == before[..|before| - 1] + [id, before[|before| - 1]]
  {
    var n := |before| - 1;
    InsertedOrdered(ps, ps', before, id);
    hide Ordered, PositionsDistinct, LiveOrder;
    assert before == before[..n] + [before[n]];
    LiveOrderIs(ps', before[..n] + [id, before[n]]);
  }

  // ---- Reorder ----

  lemma DistinctPlaces(ids: seq<PolicyId>, i: nat, k: nat)
    requires Distinct(ids) && i < |ids| && k < |ids| && i != k
    ensures ids[i] != ids[k]
  {
  }

  lemma DistinctIndex(ids: seq<PolicyId>, k: nat)
    requires Distinct(ids) && k < |ids|
    ensures ids[k] in ids && IndexOf(ids, ids[k]) == k
  {
    if IndexOf(ids, ids[k]) != k {
      DistinctPlaces(ids, IndexOf(ids, ids[k]), k);
    }
  }

  function Named(ids: seq<PolicyId>): set<PolicyId> {
    set x | x in ids
  }

  lemma {:induction false} NamedSize(ids: seq<PolicyId>)
    ensures |Named(ids)| <= |ids|
  {
    if ids != [] {
      NamedSize(ids[1..]);
      assert Named(ids) == Named(ids[1..]) + {ids[0]};
    }
  }

  /** As many names as there are members, naming every member, name nothing else. */
  lemma NamesExactly(ids: seq<PolicyId>, s: set<PolicyId>)
    requires |ids| == |s| && forall x | x in s :: x in ids
    ensures forall x :: x in ids <==> x in s
  {
    NamedSize(ids);
    forall x | x in ids ensures x in s {
      if x !in s {
        RoleKey.SubsetFits(s + {x}, Named(ids));
      }
    }
  }

  /** A reorder permutes exactly the old positions, and the list then reads as requested. */
  lemma ReorderReadsAsRequested(ws: Workspace, ops: seq<Op>, caller: UserId, ids: seq<PolicyId>)
    requires ReorderPolicies(Replay(ws, ops), caller, ids).Ok?
    ensures var ps, ps' := Replay(ws, ops).policies, ReorderPolicies(Replay(ws, ops), caller, ids).db.policies;
      && LiveOrder(ps') == ids && ps'.Keys == ps.Keys && |ids| == |LiveOrder(ps)|
      && (forall k | 0 <= k < |ids| ::
            ids[k] in ps && LiveOrder(ps)[k] in ps && ps'[ids[k]].position == ps[LiveOrder(ps)[k]].position)
      && (forall q | q in ps :: ps'[q].versions == ps[q].versions && ps'[q].live == ps[q].live)
  {
    hide Replay, Inv, ReorderPolicies, Reordered, CatchAllLast, LiveOrder, LiveIds, PositionsDistinct, Distinct;
    Reachable(ws, ops);
    var db := Replay(ws, ops);
    var ps := db.policies;
    InvParts(db);
    LiveOrderReads(ps);
    ReorderForm(db, caller, ids);
    if ids == LiveOrder(ps) {
      SameOrderSame(db, caller, ids);
      assert forall k | 0 <= k < |ids| :: ids[k] in ids;
    } else {
      SameOrderOnly(db, caller, ids);
      ReorderedShape(ps, ids);
      ReorderedReads(ps, ids);
    }
  }

  lemma SameOrderOnly(db: Db, caller: UserId, ids: seq<PolicyId>)
    requires ReorderPolicies(db, caller, ids).Ok? && ids != LiveOrder(db.policies)
    ensures ReorderPolicies(db, caller, ids) == Ok(db.(policies := Reordered(db.policies, ids)))
    ensures ids[|ids| - 1] != LiveOrder(db.policies)[|ids| - 1] ==> !ScopedLive(db.policies)
  {
    hide CatchAllLast, Reordered, LiveOrder, LiveIds, ScopedLive;
  }

  lemma ReorderedReads(ps: Policies, ids: seq<PolicyId>)
    requires PositionsDistinct(ps) && Distinct(ids) && |ids| == |LiveOrder(ps)|
    requires forall x | x in LiveIds(ps) :: x in ids
    ensures var ps' := Reordered(ps, ids);
      && LiveOrder(ps') == ids
      && forall k | 0 <= k < |ids| ::
        ids[k] in ps && LiveOrder(ps)[k] in ps && ps'[ids[k]].position == ps[LiveOrder(ps)[k]].position
  {
    hide Reordered, LiveOrder, LiveIds, Distinct, Ordered, PositionsDistinct;
    NamesLive(ps, ids);
    PlacesTaken(ps, ids);
    ReorderedOrdered(ps, ids);
    LiveIdsSame(ps, ids);
    LiveOrderIs(Reordered(ps, ids), ids);
  }

  lemma PlacesTaken(ps: Policies, ids: seq<PolicyId>)
    requires Distinct(ids) && |ids| == |LiveOrder(ps)| && forall x :: x in ids <==> x in LiveIds(ps)
    ensures forall k | 0 <= k < |ids| ::
      ids[k] in ps && LiveOrder(ps)[k] in ps && Reordered(ps, ids)[ids[k]].position == ps[LiveOrder(ps)[k]].position
  {
    hide Reordered, LiveOrder, Distinct, IndexOf;
    ReorderedKeys(ps, ids);
    forall k | 0 <= k < |ids|
      ensures && ids[k] in ps && LiveOrder(ps)[k] in ps
              && Reordered(ps, ids)[ids[k]].position == ps[LiveOrder(ps)[k]].position
    {
      DistinctIndex(ids, k);
      assert ids[k] in LiveIds(ps);
      ReorderedAt(ps, ids, ids[k]);
    }
  }

  lemma ReorderedOrdered(ps: Policies, ids: seq<PolicyId>)
    requires PositionsDistinct(ps) && Distinct(ids) && |ids| == |LiveOrder(ps)|
    requires forall x :: x in ids <==> x in LiveIds(ps)
    ensures Ordered(Reordered(ps, ids), ids)
  {
    PlacesTaken(ps, ids);
    hide Reordered, LiveOrder, Distinct, PositionsDistinct;
    LiveOrderReads(ps);
    ReorderedKeys(ps, ids);
    var order := LiveOrder(ps);
    forall i, j | 0 <= i < j < |ids| ensures Precedes(Reordered(ps, ids), ids[i], ids[j]) {
      PlacesDiffer(ps, order, i, j);
      assert Precedes(ps, order[i], order[j]);
    }
  }

  /** As many distinct requests as live policies, each live one among them, request nothing else. */
  lemma NamesLive(ps: Policies, ids: seq<PolicyId>)
    requires |ids| == |LiveOrder(ps)| && forall x | x in LiveIds(ps) :: x in ids
    ensures forall x :: x in ids <==> x in LiveIds(ps)
  {
    hide LiveIds;
    NamesExactly(ids, LiveIds(ps));
  }

  lemma LiveIdsSame(ps: Policies, ids: seq<PolicyId>)
    requires |ids| == |LiveOrder(ps)|
    ensures LiveIds(Reordered(ps, ids)) == LiveIds(ps)
  {
    hide Reordered, LiveOrder;
    ReorderedKeys(ps, ids);
    forall q | q in ps ensures Reordered(ps, ids)[q].live == ps[q].live {
      ReorderedAt(ps, ids, q);
    }
  }

  // ---- The pinned last policy ----

  ghost predicate SamePlaces(ps: Policies, ps': Policies) {
    ps'.Keys == ps.Keys && forall q | q in ps :: ps'[q].position == ps[q].position && ps'[q].live == ps[q].live
  }

  lemma SamePlacesSameLast(ps: Policies, ps': Policies)
    requires SamePlaces(ps, ps') && LastPolicy(ps).Some?
    ensures LastPolicy(ps') == LastPolicy(ps)
  {
    assert IsLast(ps', LastPolicy(ps).value);
    LastUnique(ps', LastPolicy(ps).value);
  }

  lemma ScopedHasLast(ps: Policies)
    requires ScopedLive(ps)
    ensures LastPolicy(ps).Some?
  {
    var id :| id in ps && ps[id].live;
    assert id in LiveIds(ps);
  }

  lemma CreateKeepsLast(db: Db, caller: UserId, id: PolicyId, top: int, scopes: Option<Scopes>)
    requires CreatePolicy(db, caller, id, top, scopes).Ok? && LastPolicy(db.policies).Some?
    ensures LastPolicy(CreatePolicy(db, caller, id, top, scopes).db.policies) == LastPolicy(db.policies)
  {
    hide CreatePolicy, CatchAllLast;
    var sc := CreateForm(db, caller, id, top, scopes);
    var last := LastPolicy(db.policies).value;
    var ps' := Inserted(db.policies, id, top, Policy(top, true, [Version(false, false, [], sc)]));
    assert IsLast(ps', last);
    LastUnique(ps', last);
  }

  /** The last live policy never carries a scope, neither on its top version nor on the one in force. */
  lemma LastUnscoped(db: Db, id: PolicyId)
    requires Inv(db) && IsLast(db.policies, id)
    ensures !ScopedTop(db.policies[id]) && !ScopedActive(db.policies[id])
  {
    var ps := db.policies;
    assert History(ps[id]) && CatchAllLast(ps);
    hide Inv, History, ActiveIndex;
    assert IsLastLive(ps, id);
    if InForcePolicy(ps, id) {
      assert IsLastInForce(ps, id);
    }
  }

  /** The last live policy cannot be deleted while a live policy is scoped. */
  lemma LastNotDeleted(db: Db, caller: UserId, id: PolicyId)
    requires Inv(db) && ScopedLive(db.policies) && IsLast(db.policies, id)
    ensures DeletePolicy(db, caller, id).Err?
  {
    hide Inv, CatchAllLast, ActiveAdmin;
    var ps := db.policies;
    var ps' := ps[id := ps[id].(live := false, versions := Deactivated(ps[id].versions))];
    InvParts(db);
    LastUnscoped(db, id);
    var q :| q in ps && ps[q].live && (ScopedTop(ps[q]) || ScopedActive(ps[q]));
    assert q != id && ps'[q] == ps[q];
    assert ScopedLive(ps');
    forall x | x in ps' && ps'[x].live ensures ps[id].position > ps'[x].position {
      assert Precedes(ps, x, id) && ps[x].position != ps[id].position;
    }
    assert ps[id].position > 0;
  }

  lemma DeleteKeepsLast(db: Db, caller: UserId, id: PolicyId)
    requires Inv(db) && ScopedLive(db.policies) && LastPolicy(db.policies).Some? && DeletePolicy(db, caller, id).Ok?
    ensures LastPolicy(DeletePolicy(db, caller, id).db.policies) == LastPolicy(db.policies)
  {
    hide Inv, ScopedLive, CatchAllLast, DeletePolicy;
    var ps, last := db.policies, LastPolicy(db.policies).value;
    if id == last {
      LastNotDeleted(db, caller, id);
    } else {
      DeletedForm(db, caller, id);
      var ps' := ps[id := ps[id].(live := false, versions := Deactivated(ps[id].versions))];
      assert IsLast(ps', last);
      LastUnique(ps', last);
    }
  }

  lemma ReorderKeepsLast(db: Db, caller: UserId, ids: seq<PolicyId>)
    requires Inv(db) && ScopedLive(db.policies) && LastPolicy(db.policies).Some? && ReorderPolicies(db, caller, ids).Ok?
    ensures LastPolicy(ReorderPolicies(db, caller, ids).db.policies) == LastPolicy(db.policies)
  {
    hide Inv, ReorderPolicies, Reordered, CatchAllLast, LiveOrder, LiveIds, LastPolicy, PositionsDistinct;
    hide ScopedLive, Distinct;
    var ps := db.policies;
    InvParts(db);
    ReorderForm(db, caller, ids);
    if ids != LiveOrder(ps) {
      SameOrderOnly(db, caller, ids);
      ReorderedReads(ps, ids);
      LastOfOrder(ps);
      LastOfOrder(Reordered(ps, ids));
    } else {
      SameOrderSame(db, caller, ids);
    }
  }

  lemma SameOrderSame(db: Db, caller: UserId, ids: seq<PolicyId>)
    requires ReorderPolicies(db, caller, ids).Ok? && ids == LiveOrder(db.policies)
    ensures ReorderPolicies(db, caller, ids) == Ok(db)
  {
    hide LiveOrder, Reordered, CatchAllLast;
  }

  /** While a live policy is scoped, no operation changes which live policy is last. */
  lemma {:induction false} LastPolicyPinned(ws: Workspace, ops: seq<Op>, op: Op)
    requires ScopedLive(Replay(ws, ops).policies)
    ensures LastPolicy(Replay(ws, ops).policies).Some?
    ensures LastPolicy(After(Replay(ws, ops), op).policies) == LastPolicy(Replay(ws, ops).policies)
  {
    hide Replay, Inv, ScopedLive, LastPolicy, SamePlaces, CreatePolicy, DeletePolicy, ReorderPolicies;
    hide CreateRole, DeleteRole, SetRoleMembers, Join, SetStanding, SetAccess, RemoveMember, DeleteAccount, SetClients;
    hide PutDraft, PublishPolicy, CreateInvoice, Promote, EditInvoice, TransitionInvoice, RequeueFailed, Decide;
    Reachable(ws, ops);
    var db := Replay(ws, ops);
    ScopedHasLast(db.policies);
    if Apply(db, op).Ok? {
      match op
      case OpCreatePolicy(caller, id, top, scopes) => CreateKeepsLast(db, caller, id, top, scopes);
      case OpDeletePolicy(caller, id) => DeleteKeepsLast(db, caller, id);
      case OpReorderPolicies(caller, order) => ReorderKeepsLast(db, caller, order);
      case _ =>
        OthersKeepPlaces(db, op);
        SamePlacesSameLast(db.policies, After(db, op).policies);
    }
  }

  lemma OthersKeepPlaces(db: Db, op: Op)
    requires !op.OpCreatePolicy? && !op.OpDeletePolicy? && !op.OpReorderPolicies?
    ensures SamePlaces(db.policies, After(db, op).policies)
  {
    hide CreateRole, DeleteRole, SetRoleMembers, Join, SetStanding, SetAccess, RemoveMember, DeleteAccount, SetClients;
    hide PutDraft, PublishPolicy, CreateInvoice, Promote, EditInvoice, TransitionInvoice, RequeueFailed, Decide;
    hide CreatePolicy, DeletePolicy, ReorderPolicies, AddClient;
    match op
    case OpPutDraft(caller, id, scopes, tree) => PutKeepsPlaces(db, caller, id, scopes, tree);
    case OpPublishPolicy(caller, id) => PublishKeepsPlaces(db, caller, id);
    case _ => Writes(db, op);
  }

  lemma PutKeepsPlaces(db: Db, caller: UserId, id: PolicyId, scopes: Option<Scopes>, tree: seq<Step>)
    ensures var r := PutDraft(db, caller, id, scopes, tree);
      SamePlaces(db.policies, if r.Ok? then r.db.policies else db.policies)
  {
    hide CatchAllLast, ValidTree, DelegatesAreMembers, ResolveRefusal, ScopesRefusal, ActiveAdmin;
  }

  lemma PublishKeepsPlaces(db: Db, caller: UserId, id: PolicyId)
    ensures var r := PublishPolicy(db, caller, id);
      SamePlaces(db.policies, if r.Ok? then r.db.policies else db.policies)
  {
    hide CatchAllLast, DraftRefusal, Swept, Backlog, ActiveAdmin;
  }
}
