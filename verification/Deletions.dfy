/**
 When a role or a policy can be deleted, in terms of what is in force and what waits.
 */
module Deletions {
  import opened Domain
  import opened StepTree
  import opened Runs
  import opened Database
  import opened Operations
  import opened Invariants
  import opened PolicyOrder
  import Guarantees

  // ---- Roles ----

  /** No version in force names the role in a scope or an approval step anywhere in its tree. */
  ghost predicate UnnamedInForce(ps: Policies, key: Key) {
    forall id | InForcePolicy(ps, id) ::
      && key !in ActiveVersion(ps, id).scopes.roles
      && forall c | c in Everywhere(ActiveVersion(ps, id).tree) :: !NamesRole(c, key)
  }

  /** No validated invoice's newest run is open with a pending approval step on the role. */
  ghost predicate Unwaited(db: Db, key: Key) {
    forall i | i in db.invoices && db.invoices[i].status == Validated ::
      var newest := Newest(db.runs, i);
      newest.Some? && newest.value.state == Open ==>
        forall n | 0 <= n < |newest.value.steps| && Waiting(newest.value.steps[n]) ::
          newest.value.steps[n].c.role != Some(key)
  }

  lemma UnnamedMatches(ps: Policies, key: Key)
    ensures UnnamedInForce(ps, key) <==> !NamedInForce(ps, key)
  {
    hide ActiveIndex, Everywhere;
    if !NamedInForce(ps, key) {
      forall id | InForcePolicy(ps, id)
        ensures key !in ActiveVersion(ps, id).scopes.roles
        ensures forall c | c in Everywhere(ActiveVersion(ps, id).tree) :: !NamesRole(c, key)
      {
        assert !TreeNamesRole(ActiveVersion(ps, id).tree, key);
      }
    }
  }

  lemma {:induction false} WaitsAtNewest(ws: Workspace, ops: seq<Op>, key: Key, i: InvoiceId)
    requires WaitsOnRole(Replay(ws, ops), i, key)
    ensures var db := Replay(ws, ops);
      var newest := Newest(db.runs, i);
      && newest.Some? && newest.value.state == Open
      && exists n :: 0 <= n < |newest.value.steps| && Waiting(newest.value.steps[n])
                     && newest.value.steps[n].c.role == Some(key)
  {
    hide Replay;
    var db := Replay(ws, ops);
    var rs := RunsOf(db.runs, i);
    var r :| r in rs && WaitsFor(r, key);
    var k :| 0 <= k < |rs| && rs[k] == r;
    Guarantees.OneLiveRun(ws, ops, i, k);
    var s :| s in r.steps && Waiting(s) && s.c.role == Some(key);
    var n :| 0 <= n < |r.steps| && r.steps[n] == s;
    assert Waiting(r.steps[n]) && r.steps[n].c.role == Some(key);
  }

  lemma {:induction false} UnwaitedMatches(ws: Workspace, ops: seq<Op>, key: Key)
    requires LiveRole(Replay(ws, ops).roles, key)
    ensures Unwaited(Replay(ws, ops), key) <==> WaitingInvoices(Replay(ws, ops), key) == {}
  {
    hide Replay;
    var db := Replay(ws, ops);
    if WaitingInvoices(db, key) != {} {
      var i :| i in WaitingInvoices(db, key);
      WaitsAtNewest(ws, ops, key, i);
    } else {
      forall i, n | i in db.invoices && db.invoices[i].status == Validated
                    && Newest(db.runs, i).Some? && Newest(db.runs, i).value.state == Open
                    && 0 <= n < |Newest(db.runs, i).value.steps| && Waiting(Newest(db.runs, i).value.steps[n])
        ensures Newest(db.runs, i).value.steps[n].c.role != Some(key)
      {
        NotWaiting(db, key, i, n);
      }
    }
  }

  lemma NotWaiting(db: Db, key: Key, i: InvoiceId, n: nat)
    requires LiveRole(db.roles, key) && i in db.invoices && db.invoices[i].status == Validated
    requires i !in WaitingInvoices(db, key)
    requires Newest(db.runs, i).Some? && Newest(db.runs, i).value.state == Open
    requires n < |Newest(db.runs, i).value.steps| && Waiting(Newest(db.runs, i).value.steps[n])
    ensures Newest(db.runs, i).value.steps[n].c.role != Some(key)
  {
    var r := Newest(db.runs, i).value;
    assert r in RunsOf(db.runs, i) && r.steps[n] in r.steps;
    assert !WaitsFor(r, key);
  }

  /**
   In every reachable state an active admin can delete a role exactly when it is live, nothing in force names it,
   and no validated invoice's open run has a pending step on it. Its staffing row stays; only its life ends.
   */
  lemma {:induction false} RoleDeletableExactly(ws: Workspace, ops: seq<Op>, caller: UserId, key: Key)
    ensures var db := Replay(ws, ops);
      DeleteRole(db, caller, key).Ok? <==>
        && ActiveAdmin(db.members, caller) && LiveRole(db.roles, key)
        && UnnamedInForce(db.policies, key) && Unwaited(db, key)
    ensures var db := Replay(ws, ops);
      DeleteRole(db, caller, key).Ok? ==>
        && !LiveRole(DeleteRole(db, caller, key).db.roles, key)
        && DeleteRole(db, caller, key).db.roles.Keys == db.roles.Keys
        && forall k | k in db.roles ::
          && DeleteRole(db, caller, key).db.roles[k].staff == db.roles[k].staff
          && (k != key ==> DeleteRole(db, caller, key).db.roles[k] == db.roles[k])
  {
    var db := Replay(ws, ops);
    hide Replay, NamedInForce, UnnamedInForce, Unwaited, WaitingInvoices, ActiveAdmin;
    UnnamedMatches(db.policies, key);
    if LiveRole(db.roles, key) {
      UnwaitedMatches(ws, ops, key);
    }
  }

  // ---- Policies ----

  /** The policy is last among the live ones while a live one is scoped. */
  ghost predicate Pinned(ps: Policies, id: PolicyId) {
    LastPolicy(ps) == Some(id) && ScopedLive(ps)
  }

  /** Last in force once the policy is left out. */
  ghost predicate LastWithout(ps: Policies, id: PolicyId, q: PolicyId) {
    && q in ps && q != id && InForcePolicy(ps, q)
    && forall r | r in ps && r != id && InForcePolicy(ps, r) :: ps[r].position <= ps[q].position
  }

  /** Without the policy, the last one in force would be a scoped one. */
  ghost predicate Uncovers(ps: Policies, id: PolicyId) {
    exists q :: LastWithout(ps, id, q) && ScopedActive(ps[q])
  }

  function WithoutPolicy(ps: Policies, id: PolicyId): Policies
    requires id in ps
  {
    ps[id := ps[id].(live := false, versions := Deactivated(ps[id].versions))]
  }

  lemma WithoutForce(ps: Policies, id: PolicyId)
    requires id in ps
    ensures forall q | q in ps ::
      InForcePolicy(WithoutPolicy(ps, id), q) <==> q != id && InForcePolicy(ps, q)
  {
    hide ActiveIndex;
  }

  /** The guard after a delete refuses exactly when a scoped policy is left last, in the list or in force. */
  lemma {:induction false} GuardAfterDelete(db: Db, id: PolicyId)
    requires Inv(db) && LivePolicy(db.policies, id) && !Pinned(db.policies, id)
    ensures CatchAllLast(WithoutPolicy(db.policies, id)) <==> !Uncovers(db.policies, id)
  {
    hide Inv, Pinned, IsLastInForce, IsLastLive, ScopedActive, ScopedTop;
    hide InForcePolicy, PositionsDistinct, ScopesKnown, InvoiceOk, ActiveIndex;
    var ps, ps' := db.policies, WithoutPolicy(db.policies, id);
    InvParts(db);
    TopsStay(db, id);
    forall q | q in ps' ensures IsLastInForce(ps', q) <==> LastWithout(ps, id, q) {
      LastInForceWithout(ps, id, q);
    }
  }

  lemma LastInForceWithout(ps: Policies, id: PolicyId, q: PolicyId)
    requires id in ps
    ensures IsLastInForce(WithoutPolicy(ps, id), q) <==> LastWithout(ps, id, q)
  {
    hide ActiveIndex;
    WithoutForce(ps, id);
  }

  lemma BelowLast(ps: Policies, last: PolicyId, q: PolicyId)
    requires IsLast(ps, last) && LivePolicy(ps, q)
    ensures ps[q].position <= ps[last].position
  {
  }

  /** Unless the policy is pinned, the last live one's top version stays unscoped without it. */
  lemma {:induction false} TopsStay(db: Db, id: PolicyId)
    requires Inv(db) && LivePolicy(db.policies, id) && !Pinned(db.policies, id)
    ensures var ps' := WithoutPolicy(db.policies, id);
      forall q | q in ps' && IsLastLive(ps', q) :: !ScopedTop(ps'[q])
  {
    var ps, ps' := db.policies, WithoutPolicy(db.policies, id);
    assert id in LiveIds(ps);
    var last := LastPolicy(ps).value;
    assert forall q | q in ps :: |ps[q].versions| > 0 by {
      assert forall q | q in ps :: History(ps[q]);
    }
    assert PositionsDistinct(ps);
    LastUnscoped(db, last);
    hide Inv, ActiveIndex;
    forall q | q in ps' && IsLastLive(ps', q) ensures !ScopedTop(ps'[q]) {
      assert q != id && ps'[q] == ps[q];
      if last != id {
        assert ps'[last] == ps[last];
        BelowLast(ps, last, q);
      }
    }
  }

  /**
   In every reachable state an active admin can delete a live policy exactly when it is not the last one while a
   live policy is scoped, and removing it does not leave a scoped policy last in force.
   */
  lemma {:induction false} PolicyDeletableExactly(ws: Workspace, ops: seq<Op>, caller: UserId, id: PolicyId)
    ensures var db := Replay(ws, ops);
      DeletePolicy(db, caller, id).Ok? <==>
        && ActiveAdmin(db.members, caller) && LivePolicy(db.policies, id)
        && !Pinned(db.policies, id) && !Uncovers(db.policies, id)
    ensures var db := Replay(ws, ops);
      DeletePolicy(db, caller, id).Ok? ==>
        && !LivePolicy(DeletePolicy(db, caller, id).db.policies, id)
        && ActiveIndex(DeletePolicy(db, caller, id).db.policies[id].versions).None?
        && |DeletePolicy(db, caller, id).db.policies[id].versions| == |db.policies[id].versions|
        && (forall n | 0 <= n < |db.policies[id].versions| ::
              DeletePolicy(db, caller, id).db.policies[id].versions[n] == db.policies[id].versions[n].(active := false))
        && forall q | q in db.policies && q != id :: DeletePolicy(db, caller, id).db.policies[q] == db.policies[q]
  {
    hide Replay, Inv, CatchAllLast, Uncovers, ScopedLive, ActiveIndex, ActiveAdmin, History, PositionsDistinct;
    hide ScopesKnown, InvoiceOk, LastPolicy;
    Reachable(ws, ops);
    var db := Replay(ws, ops);
    InvParts(db);
    if LivePolicy(db.policies, id) {
      DeactivateKeeps(db.policies[id]);
      if Pinned(db.policies, id) {
        LastNotDeleted(db, caller, id);
      } else {
        GuardAfterDelete(db, id);
        RefusalMeansPinned(db, id);
      }
    }
  }

  /** The delete's own last-policy test fires only for the last live policy with a scoped one live. */
  lemma {:induction false} RefusalMeansPinned(db: Db, id: PolicyId)
    requires Inv(db) && LivePolicy(db.policies, id) && !Pinned(db.policies, id)
    ensures var ps' := WithoutPolicy(db.policies, id);
      !((forall q | q in ps' && ps'[q].live :: db.policies[id].position > ps'[q].position) && ScopedLive(ps'))
  {
    var ps, ps' := db.policies, WithoutPolicy(db.policies, id);
    hide Inv, ActiveIndex;
    if (forall q | q in ps' && ps'[q].live :: ps[id].position > ps'[q].position) && ScopedLive(ps') {
      forall q | q in ps && ps[q].live ensures q == id || Precedes(ps, q, id) {
        assert q != id ==> ps'[q] == ps[q];
      }
      LastUnique(ps, id);
      StillScoped(ps, id);
    }
  }

  lemma StillScoped(ps: Policies, id: PolicyId)
    requires id in ps && ScopedLive(WithoutPolicy(ps, id))
    ensures ScopedLive(ps)
  {
    var ps' := WithoutPolicy(ps, id);
    hide ActiveIndex;
    var q :| q in ps' && ps'[q].live && (ScopedTop(ps'[q]) || ScopedActive(ps'[q]));
    assert q != id && ps'[q] == ps[q];
  }
}
