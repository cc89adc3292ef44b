/**
 When a new order of the policies is accepted, in the columns of the policies.
 */
module Reordering {
  import opened Domain
  import opened Matching
  import opened Database
  import opened Operations
  import opened Invariants
  import opened PolicyOrder
  import opened People
  import opened Drafting

  /** The ids are exactly the live policies, each once. */
  predicate AllLive(ps: Policies, ids: seq<PolicyId>) {
    && NoRepeat(ids) && (forall i | 0 <= i < |ids| :: IsLivePolicy(ps, ids[i]))
    && forall q | q in ps && ps[q].live :: q in ids
  }

  predicate InPlaceOrder(ps: Policies, ids: seq<PolicyId>)
    requires AllLive(ps, ids)
  {
    forall i, j | 0 <= i < j < |ids| :: ps[ids[i]].position < ps[ids[j]].position
  }

  /** The last policy in force in the order given narrows something. */
  predicate EndsNarrow(ps: Policies, ids: seq<PolicyId>)
    requires AllLive(ps, ids)
  {
    exists k :: 0 <= k < |ids| && InUse(ps, ids[k]) && ActiveNarrows(ps[ids[k]])
                && forall j | k < j < |ids| :: !InUse(ps, ids[j])
  }

  /** Some live policy narrows, on top or in force. */
  predicate AnyNarrow(ps: Policies) {
    exists q | q in ps :: ps[q].live &&
      ((ps[q].versions != [] && Narrows(ps[q].versions[|ps[q].versions| - 1].scopes)) || ActiveNarrows(ps[q]))
  }

  // ---- The list asked for ----

  lemma {:induction false} NoRepeatSize(ids: seq<PolicyId>)
    requires NoRepeat(ids)
    ensures |Named(ids)| == |ids|
  {
    if ids != [] {
      FirstApart(ids);
      NoRepeatSize(ids[1..]);
      assert Named(ids) == Named(ids[1..]) + {ids[0]};
    }
  }

  lemma LiveOrderSize(ps: Policies)
    ensures |LiveOrder(ps)| == |LiveIds(ps)|
  {
  }

  /** As many as are live, all different and every live one among them: exactly the live ones. */
  lemma AllLiveExactly(ps: Policies, ids: seq<PolicyId>)
    ensures AllLive(ps, ids) <==>
            Distinct(ids) && |ids| == |LiveOrder(ps)| && forall x | x in LiveIds(ps) :: x in ids
  {
    hide LiveOrder;
    assert Distinct(ids) <==> NoRepeat(ids);
    LiveOrderSize(ps);
    if AllLive(ps, ids) {
      NoRepeatSize(ids);
      assert Named(ids) == LiveIds(ps);
    }
    if |ids| == |LiveIds(ps)| && forall x | x in LiveIds(ps) :: x in ids {
      NamesExactly(ids, LiveIds(ps));
      assert forall i | 0 <= i < |ids| :: ids[i] in ids;
    }
  }

  lemma SameOrderExactly(ps: Policies, ids: seq<PolicyId>)
    requires AllLive(ps, ids) && PositionsDistinct(ps)
    ensures ids == LiveOrder(ps) <==> InPlaceOrder(ps, ids)
  {
    hide LiveOrder;
    LiveOrderReads(ps);
    if InPlaceOrder(ps, ids) {
      assert Ordered(ps, ids);
      assert forall x :: x in ids <==> x in LiveIds(ps);
      LiveOrderIs(ps, ids);
    }
    if ids == LiveOrder(ps) {
      forall i, j | 0 <= i < j < |ids| ensures ps[ids[i]].position < ps[ids[j]].position {
        assert Precedes(ps, ids[i], ids[j]) && ids[i] in ids && ids[j] in ids;
        assert ids[i] != ids[j];
      }
    }
  }

  lemma BottomExactly(ps: Policies, id: PolicyId)
    requires PositionsDistinct(ps) && LivePolicy(ps, id)
    ensures LiveOrder(ps) != [] && (LiveOrder(ps)[|LiveOrder(ps)| - 1] == id <==> AtBottom(ps, id))
  {
    hide LiveOrder, LastPolicy;
    LiveOrderReads(ps);
    LastOfOrder(ps);
    assert id in LiveOrder(ps);
    if AtBottom(ps, id) {
      assert IsLast(ps, id);
      LastUnique(ps, id);
    }
  }

  // ---- The last-policy rule after it ----

  /** The same policies as before, in the order given. */
  ghost predicate Moved(ps: Policies, ps': Policies, ids: seq<PolicyId>) {
    && ps'.Keys == ps.Keys && Ordered(ps', ids) && PositionsDistinct(ps')
    && forall q | q in ps :: ps'[q].versions == ps[q].versions && ps'[q].live == ps[q].live
  }

  lemma MovedLast(ps: Policies, ps': Policies, ids: seq<PolicyId>, q: PolicyId)
    requires AllLive(ps, ids) && Moved(ps, ps', ids) && q in ps && forall x | x in ps :: |ps[x].versions| > 0
    ensures IsLastLive(ps', q) <==> ids != [] && q == ids[|ids| - 1]
  {
    if q in ids {
      var k :| 0 <= k < |ids| && ids[k] == q;
      var last := ids[|ids| - 1];
      assert last in ids;
      if k < |ids| - 1 {
        assert Precedes(ps', q, last);
      }
      forall x | x in ps && ps[x].live ensures q == last ==> ps'[x].position <= ps'[q].position {
        var j :| 0 <= j < |ids| && ids[j] == x;
        assert j < |ids| - 1 ==> Precedes(ps', x, last);
      }
    }
  }

  lemma MovedForce(ps: Policies, ps': Policies, ids: seq<PolicyId>, k: nat)
    requires AllLive(ps, ids) && Moved(ps, ps', ids) && k < |ids|
    requires forall x | x in ps :: InForcePolicy(ps', x) <==> InUse(ps, x)
    ensures IsLastInForce(ps', ids[k]) <==> InUse(ps, ids[k]) && forall j | k < j < |ids| :: !InUse(ps, ids[j])
  {
    hide InForcePolicy, InUse;
    assert ids[k] in ids;
    forall j | 0 <= j < |ids| && j != k
      ensures ids[j] in ps && (ps'[ids[j]].position <= ps'[ids[k]].position <==> j < k)
    {
      assert ids[j] in ids && ids[j] != ids[k];
      assert if j < k then Precedes(ps', ids[j], ids[k]) else Precedes(ps', ids[k], ids[j]);
    }
    if InUse(ps, ids[k]) && forall j | k < j < |ids| :: !InUse(ps, ids[j]) {
      forall x | x in ps && InUse(ps, x) ensures ps'[x].position <= ps'[ids[k]].position {
        ActiveLive(ps, x);
        var j :| 0 <= j < |ids| && ids[j] == x;
      }
    }
  }

  lemma ActiveLive(ps: Policies, x: PolicyId)
    requires InUse(ps, x)
    ensures x in ps && ps[x].live
  {
  }

  lemma MovedGuard(ps: Policies, ps': Policies, ids: seq<PolicyId>)
    requires AllLive(ps, ids) && Moved(ps, ps', ids) && CatchAllLast(ps) && PositionsDistinct(ps)
    requires forall x | x in ps :: History(ps[x])
    requires ids != [] ==> AtBottom(ps, ids[|ids| - 1]) || !AnyNarrow(ps)
    ensures CatchAllLast(ps') <==> !EndsNarrow(ps, ids)
  {
    hide IsLastLive, IsLastInForce, History, ActiveIndex, InUse, ActiveNarrows, AtBottom, Narrows, PositionsDistinct;
    hide NoRepeat, Ordered, ScopedActive, InForcePolicy, ScopedTop;
    forall x | x in ps
      ensures InForcePolicy(ps', x) <==> InUse(ps, x)
      ensures ScopedActive(ps'[x]) <==> ActiveNarrows(ps[x])
      ensures |ps[x].versions| > 0
      ensures ScopedTop(ps'[x]) <==> Narrows(ps[x].versions[|ps[x].versions| - 1].scopes)
      ensures IsLastInForce(ps', x) ==> x in ids
    {
      ActiveColumns(ps, x);
      SameVersions(ps, ps', x);
      TopNarrows(ps'[x]);
    }
    forall q | q in ps' && IsLastLive(ps', q) ensures !ScopedTop(ps'[q]) {
      MovedLast(ps, ps', ids, q);
      LastLiveIsBottom(ps, q);
      TopNarrows(ps[q]);
    }
    forall k | 0 <= k < |ids|
      ensures IsLastInForce(ps', ids[k]) <==> InUse(ps, ids[k]) && forall j | k < j < |ids| :: !InUse(ps, ids[j])
    {
      MovedForce(ps, ps', ids, k);
    }
    assert forall k | 0 <= k < |ids| :: ids[k] in ids;
    hide Moved;
  }

  lemma SameVersions(ps: Policies, ps': Policies, x: PolicyId)
    requires x in ps && x in ps' && ps'[x].versions == ps[x].versions && ps'[x].live == ps[x].live
    ensures InForcePolicy(ps', x) <==> InForcePolicy(ps, x)
    ensures ScopedActive(ps'[x]) <==> ScopedActive(ps[x])
    ensures IsLastInForce(ps', x) ==> InForcePolicy(ps', x) && ps[x].live
  {
    hide ActiveIndex, Scoped;
  }

  /**
   A new order goes through exactly when an active admin asks, it lists the live policies and no others, each once,
   and either it is the order there is, or the last one stays last while anything narrows, and the last in force
   does not narrow.
   */
  lemma {:induction false} ReorderExactly(ws: Workspace, ops: seq<Op>, caller: UserId, ids: seq<PolicyId>)
    ensures var db := Replay(ws, ops);
      ReorderPolicies(db, caller, ids).Ok? <==>
        && IsAdmin(db, caller) && AllLive(db.policies, ids)
        && (|| InPlaceOrder(db.policies, ids)
            || (&& (ids != [] ==> AtBottom(db.policies, ids[|ids| - 1]) || !AnyNarrow(db.policies))
                && !EndsNarrow(db.policies, ids)))
  {
    hide Replay, Inv, CatchAllLast, ScopesKnown, InvoiceOk, PositionsDistinct, History, LiveOrder, LiveIds, Reordered;
    hide AtBottom, AnyNarrow, EndsNarrow, InPlaceOrder, AllLive, ActiveAdmin, IsAdmin, Distinct, ScopedLive;
    Reachable(ws, ops);
    var db := Replay(ws, ops);
    var ps := db.policies;
    InvParts(db);
    SignerColumns(db, caller);
    AllLiveExactly(ps, ids);
    NarrowExactly(ps);
    if AllLive(ps, ids) {
      SameOrderExactly(ps, ids);
      LastAsked(ps, ids);
      IsMoved(ps, ids);
      if ids != [] ==> AtBottom(ps, ids[|ids| - 1]) || !AnyNarrow(ps) {
        MovedGuard(ps, Reordered(ps, ids), ids);
      }
    }
  }

  lemma LastAsked(ps: Policies, ids: seq<PolicyId>)
    requires AllLive(ps, ids) && PositionsDistinct(ps) && |ids| == |LiveOrder(ps)|
    ensures ids != [] ==> (ids[|ids| - 1] == LiveOrder(ps)[|ids| - 1] <==> AtBottom(ps, ids[|ids| - 1]))
    ensures ids == [] ==> ids == LiveOrder(ps)
  {
    hide LiveOrder, PositionsDistinct, AtBottom;
    if ids != [] {
      assert ids[|ids| - 1] in ids;
      BottomExactly(ps, ids[|ids| - 1]);
    }
  }

  lemma IsMoved(ps: Policies, ids: seq<PolicyId>)
    requires AllLive(ps, ids) && PositionsDistinct(ps) && Distinct(ids) && |ids| == |LiveOrder(ps)|
    requires forall x | x in LiveIds(ps) :: x in ids
    requires forall q | q in ps :: ps[q].position >= 1
    ensures Moved(ps, Reordered(ps, ids), ids)
  {
    hide Reordered, LiveOrder, PositionsDistinct, Distinct, Ordered, NoRepeat, LiveIds;
    ReorderedShape(ps, ids);
    NamesLive(ps, ids);
    ReorderedOrdered(ps, ids);
  }

  lemma NarrowExactly(ps: Policies)
    requires forall q | q in ps :: History(ps[q])
    ensures ScopedLive(ps) <==> AnyNarrow(ps)
  {
    hide History, ActiveIndex, ActiveNarrows, ScopedActive, Narrows, ScopedTop;
    forall q | q in ps
      ensures ScopedActive(ps[q]) <==> ActiveNarrows(ps[q])
      ensures |ps[q].versions| > 0
      ensures ScopedTop(ps[q]) <==> Narrows(ps[q].versions[|ps[q].versions| - 1].scopes)
    {
      ActiveColumns(ps, q);
      TopNarrows(ps[q]);
    }
  }
}
