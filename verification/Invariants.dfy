/**
 What every reachable state satisfies, and the arguments that single transactions keep it.
 */
module Invariants {
  import opened Domain
  import opened StepTree
  import opened Matching
  import opened Runs
  import opened Database
  import opened Operations
  import RoleKey

  // ---- Version history ----

  /** Only the top version may be a draft; of a live policy exactly the highest sealed version is active. */
  ghost predicate History(p: Policy) {
    && |p.versions| > 0
    && (forall n | 0 <= n < |p.versions| - 1 :: p.versions[n].isSealed)
    && (forall n | 0 <= n < |p.versions| :: p.versions[n].active <==> p.live && HighestSealed(p.versions, n))
  }

  ghost predicate HighestSealed(versions: seq<Version>, n: nat)
    requires n < |versions|
  {
    versions[n].isSealed && forall m | n < m < |versions| :: !versions[m].isSealed
  }

  lemma {:induction false} NoneActive(versions: seq<Version>)
    requires forall n | 0 <= n < |versions| :: !versions[n].active
    ensures ActiveIndex(versions).None?
  {
    if versions != [] {
      NoneActive(versions[..|versions| - 1]);
    }
  }

  lemma {:induction false} ActiveFound(versions: seq<Version>, n: nat)
    requires n < |versions| && versions[n].active && forall m | n < m < |versions| :: !versions[m].active
    ensures ActiveIndex(versions) == Some(n)
  {
    if n < |versions| - 1 {
      ActiveFound(versions[..|versions| - 1], n);
    }
  }

  /** The version in force is the highest sealed one of a live policy: the top one, or the one under the draft. */
  lemma ActiveExactly(p: Policy)
    requires History(p)
    ensures var top := |p.versions| - 1;
      ActiveIndex(p.versions) ==
        if !p.live then None
        else if p.versions[top].isSealed then Some(top)
        else if top > 0 then Some(top - 1)
        else None
  {
    var top := |p.versions| - 1;
    if p.live && p.versions[top].isSealed {
      assert HighestSealed(p.versions, top);
      ActiveFound(p.versions, top);
    } else if p.live && top > 0 {
      assert HighestSealed(p.versions, top - 1);
      ActiveFound(p.versions, top - 1);
    } else {
      NoneActive(p.versions);
    }
  }

  /** Sealed versions stay, with their trees and scopes. */
  ghost predicate KeepsSealed(p: Policy, p': Policy) {
    forall n | 0 <= n < |p.versions| && p.versions[n].isSealed ::
      && n < |p'.versions| && p'.versions[n].isSealed
      && p'.versions[n].tree == p.versions[n].tree && p'.versions[n].scopes == p.versions[n].scopes
  }

  ghost predicate PoliciesGrow(ps: Policies, ps': Policies) {
    forall id | id in ps :: id in ps' && KeepsSealed(ps[id], ps'[id])
  }

  // ---- Policies ----

  ghost predicate PositionsDistinct(ps: Policies) {
    forall a, b | a in ps && b in ps && ps[a].live && ps[b].live && a != b :: ps[a].position != ps[b].position
  }

  ghost predicate PoliciesOk(ps: Policies) {
    && (forall id | id in ps :: History(ps[id]) && ps[id].position >= 1)
    && PositionsDistinct(ps)
    && CatchAllLast(ps)
  }

  ghost predicate ScopesKnown(ps: Policies, roles: Roles) {
    forall id, n | id in ps && 0 <= n < |ps[id].versions| ::
      forall k | k in ps[id].versions[n].scopes.roles :: k in roles
  }

  /** Every approval step and every scope role of the version names a live role. */
  ghost predicate RolesLive(v: Version, roles: Roles) {
    && (forall c | c in Everywhere(v.tree) :: RoleIsLive(c, LiveKeys(roles)))
    && (forall k | k in v.scopes.roles :: LiveRole(roles, k))
  }

  ghost predicate InForceRolesLive(ps: Policies, roles: Roles) {
    forall id | InForcePolicy(ps, id) :: RolesLive(ActiveVersion(ps, id), roles)
  }

  // ---- Runs ----

  /** A run is well shaped and still reads as the compile of its sealed version. */
  ghost predicate RunOk(ps: Policies, r: Run) {
    && WellShaped(r)
    && r.policy in ps && r.number < |ps[r.policy].versions| && ps[r.policy].versions[r.number].isSealed
    && Plan(r.steps) == Interpret(ps[r.policy].versions[r.number].tree, r.facts.total)
  }

  /** Only the newest run of an invoice may be live. */
  ghost predicate OnlyNewestLive(rs: seq<Run>) {
    forall k | 0 <= k < |rs| - 1 :: !Live(rs[k])
  }

  predicate NewestLive(rs: seq<Run>) {
    |rs| > 0 && Live(rs[|rs| - 1])
  }

  ghost predicate WaitingRolesLive(roles: Roles, steps: seq<RunStep>) {
    forall s | s in steps && Waiting(s) :: s.c.role.Some? && LiveRole(roles, s.c.role.value)
  }

  ghost predicate InvoiceOk(ps: Policies, roles: Roles, inv: Invoice, rs: seq<Run>) {
    && (forall r | r in rs :: RunOk(ps, r))
    && OnlyNewestLive(rs)
    && (inv.status == Draft ==> !NewestLive(rs))
    && (NewestLive(rs) ==> rs[|rs| - 1].facts == inv.facts)
    && (inv.status == Validated ==>
        && (AnyInForce(ps) ==> NewestLive(rs))
        && (|rs| > 0 && rs[|rs| - 1].state == Open ==> WaitingRolesLive(roles, rs[|rs| - 1].steps)))
  }

  ghost predicate InvoicesOk(db: Db) {
    && db.runs.Keys == db.invoices.Keys
    && forall i | i in db.invoices :: InvoiceOk(db.policies, db.roles, db.invoices[i], db.runs[i])
  }

  ghost predicate Inv(db: Db) {
    && PoliciesOk(db.policies)
    && ScopesKnown(db.policies, db.roles)
    && InForceRolesLive(db.policies, db.roles)
    && InvoicesOk(db)
  }

  lemma InvParts(db: Db)
    requires Inv(db)
    ensures PositionsDistinct(db.policies) && CatchAllLast(db.policies) && ScopesKnown(db.policies, db.roles)
    ensures db.runs.Keys == db.invoices.Keys
    ensures forall q | q in db.policies :: History(db.policies[q]) && db.policies[q].position >= 1
    ensures forall i | i in db.invoices :: InvoiceOk(db.policies, db.roles, db.invoices[i], db.runs[i])
  {
    hide PositionsDistinct, ScopesKnown, InForceRolesLive, CatchAllLast, History, InvoiceOk;
  }

  // ---- First match ----

  lemma LastInForceExists(ps: Policies) returns (last: PolicyId)
    requires AnyInForce(ps)
    ensures IsLastInForce(ps, last)
  {
    hide InForcePolicy;
    var inForce := set id | id in ps && InForcePolicy(ps, id);
    var some :| some in ps && InForcePolicy(ps, some);
    assert some in inForce;
    last := GreatestExists(ps, inForce);
    forall q | q in ps && InForcePolicy(ps, q) ensures ps[q].position <= ps[last].position {
      assert q in inForce;
    }
  }

  /** With any version in force, the last one in force is a catch-all, so every invoice has a match. */
  lemma SomethingMatches(ps: Policies, facts: Facts, creatorRoles: set<Key>)
    requires CatchAllLast(ps) && AnyInForce(ps)
    ensures MatchedPolicy(ps, facts, creatorRoles).Some?
  {
    hide ActiveIndex, MatchedPolicy, InBand;
    var last := LastInForceExists(ps);
    assert !ScopedActive(ps[last]);
    assert !Scoped(ActiveVersion(ps, last).scopes);
    assert Candidate(ps, facts, creatorRoles, last);
    MatchExists(ps, facts, creatorRoles);
  }

  /** Nothing is armed when no version is in force. */
  lemma NothingMatches(ps: Policies, facts: Facts, creatorRoles: set<Key>)
    requires !AnyInForce(ps)
    ensures MatchedPolicy(ps, facts, creatorRoles).None?
  {
    MatchExists(ps, facts, creatorRoles);
  }

  // ---- Arming ----

  /** What arming adds: one live, well-shaped run of an active version, or nothing when nothing is in force. */
  lemma ArmedOk(ps: Policies, roles: Roles, inv: Invoice)
    requires PoliciesOk(ps) && InForceRolesLive(ps, roles)
    ensures var rs := ArmedRuns(ps, roles, inv);
      && (AnyInForce(ps) <==> rs != [])
      && (rs != [] ==>
            && Live(rs[0]) && RunOk(ps, rs[0]) && rs[0].facts == inv.facts
            && WaitingRolesLive(roles, rs[0].steps))
  {
    hide MatchedPolicy, CreatorRoles, RunOk, WaitingRolesLive, History, PositionsDistinct, NewRun;
    hide CatchAllLast, ActiveIndex, Interpret, RolesLive;
    var cr := CreatorRoles(roles, inv.creator);
    if AnyInForce(ps) {
      SomethingMatches(ps, inv.facts, cr);
      CompiledOk(ps, roles, inv.facts, MatchedPolicy(ps, inv.facts, cr).value);
    } else {
      NothingMatches(ps, inv.facts, cr);
    }
  }

  /** The run compiled from a version in force. */
  lemma CompiledOk(ps: Policies, roles: Roles, facts: Facts, id: PolicyId)
    requires InForcePolicy(ps, id) && History(ps[id]) && RolesLive(ActiveVersion(ps, id), roles)
    ensures var r := NewRun(id, ActiveIndex(ps[id].versions).value, facts,
                            Interpret(ActiveVersion(ps, id).tree, facts.total));
      Live(r) && RunOk(ps, r) && r.facts == facts && WaitingRolesLive(roles, r.steps)
  {
    hide WellShaped, Interpret;
    var n, v := ActiveIndex(ps[id].versions).value, ActiveVersion(ps, id);
    var plan := Interpret(v.tree, facts.total);
    ActiveExactly(ps[id]);
    InterpretNamesOnlyTree(v.tree, facts.total);
    ArmedIsWellShaped(id, n, facts, plan);
    var r := NewRun(id, n, facts, plan);
    forall s | s in r.steps && Waiting(s) ensures s.c.role.Some? && LiveRole(roles, s.c.role.value) {
      assert s.c in plan && s.c in Everywhere(v.tree);
    }
  }

  /** One more run, live and on the invoice's facts, on top of runs that are not. */
  lemma RunAdded(ps: Policies, roles: Roles, inv: Invoice, rs: seq<Run>, r: Run)
    requires inv.status == Validated && OnlyNewestLive(rs) && !NewestLive(rs) && forall x | x in rs :: RunOk(ps, x)
    requires Live(r) && RunOk(ps, r) && r.facts == inv.facts && WaitingRolesLive(roles, r.steps)
    ensures InvoiceOk(ps, roles, inv, rs + [r])
  {
    hide RunOk, WaitingRolesLive, AnyInForce, Live;
    var rs' := rs + [r];
    assert rs'[|rs|] == r && forall k | 0 <= k < |rs| :: rs'[k] == rs[k];
  }

  /** Arming an invoice with no live run leaves it armed. */
  lemma ArmKeeps(ps: Policies, roles: Roles, inv: Invoice, rs: seq<Run>)
    requires PoliciesOk(ps) && InForceRolesLive(ps, roles)
    requires inv.status == Validated && OnlyNewestLive(rs) && !NewestLive(rs) && forall r | r in rs :: RunOk(ps, r)
    ensures InvoiceOk(ps, roles, inv, rs + ArmedRuns(ps, roles, inv))
  {
    hide PoliciesOk, InForceRolesLive, RunOk, WaitingRolesLive, ArmedRuns, AnyInForce;
    ArmedOk(ps, roles, inv);
    var armed := ArmedRuns(ps, roles, inv);
    if armed == [] {
      assert rs + armed == rs;
    } else {
      assert armed == [armed[0]];
      RunAdded(ps, roles, inv, rs, armed[0]);
    }
  }

  lemma CancelKeeps(ps: Policies, roles: Roles, inv: Invoice, rs: seq<Run>)
    requires inv.status == Draft && forall r | r in rs :: RunOk(ps, r)
    ensures InvoiceOk(ps, roles, inv, CancelAll(rs))
  {
    forall k | 0 <= k < |rs| ensures RunOk(ps, CancelAll(rs)[k]) && !Live(CancelAll(rs)[k]) {
      assert rs[k] in rs;
      CancelKeepsShape(rs[k]);
    }
  }

  lemma RunsSurvive(ps: Policies, ps': Policies, rs: seq<Run>)
    requires PoliciesGrow(ps, ps') && forall r | r in rs :: RunOk(ps, r)
    ensures forall r | r in rs :: RunOk(ps', r)
  {
    forall r | r in rs ensures RunOk(ps', r) {
      assert KeepsSealed(ps[r.policy], ps'[r.policy]);
    }
  }

  // ---- Policy writes ----

  /** A write that keeps sealed versions and puts nothing new in force keeps every invoice. */
  lemma PolicyWriteKeeps(db: Db, ps': Policies)
    requires Inv(db) && PoliciesGrow(db.policies, ps') && PoliciesOk(ps') && ScopesKnown(ps', db.roles)
    requires forall id | InForcePolicy(ps', id) ::
      InForcePolicy(db.policies, id) && ActiveVersion(ps', id) == ActiveVersion(db.policies, id)
    ensures Inv(db.(policies := ps'))
  {
    forall i | i in db.invoices ensures InvoiceOk(ps', db.roles, db.invoices[i], db.runs[i]) {
      RunsSurvive(db.policies, ps', db.runs[i]);
      assert AnyInForce(ps') ==> AnyInForce(db.policies);
    }
  }

  ghost predicate SamePolicy(p: Policy, p': Policy) {
    p'.versions == p.versions && p'.live == p.live && p'.position >= 1
  }

  /** The new row and the old last one swap ends; every other row keeps its position. */
  lemma InsertedShape(ps: Policies, id: PolicyId, top: int, p: Policy)
    requires PositionsDistinct(ps) && id !in ps && top >= 1 && forall q | q in ps :: 1 <= ps[q].position < top
    ensures var ps' := Inserted(ps, id, top, p);
      && ps'.Keys == ps.Keys + {id} && SamePolicy(p, ps'[id]) && PositionsDistinct(ps')
      && forall q | q in ps :: SamePolicy(ps[q], ps'[q])
  {
    hide LastPolicy;
    var ps', last := Inserted(ps, id, top, p), LastPolicy(ps);
    if last.Some? {
      assert ps'.Keys == ps.Keys + {id};
    }
  }

  /** Adding a policy that has only a draft keeps everything the policies promise, but for the last-policy rule. */
  lemma DraftPolicyAdded(ps: Policies, ps': Policies, roles: Roles, id: PolicyId, sc: Scopes)
    requires id !in ps && ps'.Keys == ps.Keys + {id}
    requires forall q | q in ps :: History(ps[q]) && SamePolicy(ps[q], ps'[q])
    requires ps'[id].versions == [Version(false, false, [], sc)] && ps'[id].position >= 1
    requires ScopesKnown(ps, roles) && forall k | k in sc.roles :: k in roles
    ensures forall q | q in ps' :: History(ps'[q]) && ps'[q].position >= 1
    ensures PoliciesGrow(ps, ps') && ScopesKnown(ps', roles)
    ensures forall q | InForcePolicy(ps', q) :: InForcePolicy(ps, q) && ActiveVersion(ps', q) == ActiveVersion(ps, q)
  {
    assert History(ps'[id]);
    ActiveExactly(ps'[id]);
  }

  lemma CreateForm(db: Db, caller: UserId, id: PolicyId, top: int, scopes: Option<Scopes>) returns (sc: Scopes)
    requires CreatePolicy(db, caller, id, top, scopes).Ok?
    ensures id !in db.policies && top >= 1 && (forall q | q in db.policies :: db.policies[q].position < top)
    ensures forall k | k in sc.roles :: k in db.roles
    ensures var ps' := Inserted(db.policies, id, top, Policy(top, true, [Version(false, false, [], sc)]));
      CatchAllLast(ps') && CreatePolicy(db, caller, id, top, scopes) == Ok(db.(policies := ps'))
  {
    hide CatchAllLast, Inserted;
    sc := if scopes.Some? then scopes.value else CATCH_ALL;
  }

  lemma CreateKeeps(db: Db, caller: UserId, id: PolicyId, top: int, scopes: Option<Scopes>)
    requires Inv(db) && CreatePolicy(db, caller, id, top, scopes).Ok?
    ensures Inv(CreatePolicy(db, caller, id, top, scopes).db)
  {
    hide CatchAllLast, Inserted, CreatePolicy, History, PositionsDistinct, ScopesKnown, InForceRolesLive, InvoicesOk;
    var sc := CreateForm(db, caller, id, top, scopes);
    var p := Policy(top, true, [Version(false, false, [], sc)]);
    var ps' := Inserted(db.policies, id, top, p);
    InsertedShape(db.policies, id, top, p);
    DraftPolicyAdded(db.policies, ps', db.roles, id, sc);
    PolicyWriteKeeps(db, ps');
  }

  lemma RedraftHistory(p: Policy, tree: seq<Step>, sc: Scopes)
    requires History(p)
    ensures History(Redrafted(p, tree, sc))
  {
    var p' := Redrafted(p, tree, sc);
    forall n | 0 <= n < |p'.versions| ensures p'.versions[n].active <==> p'.live && HighestSealed(p'.versions, n) {
      if n < |p.versions| {
        assert p.versions[n].active <==> p.live && HighestSealed(p.versions, n);
        assert HighestSealed(p'.versions, n) <==> HighestSealed(p.versions, n) by {
          forall m | n < m < |p.versions| ensures p'.versions[m].isSealed == p.versions[m].isSealed {
          }
        }
      }
    }
  }

  lemma RedraftKeeps(p: Policy, tree: seq<Step>, sc: Scopes)
    requires History(p)
    ensures History(Redrafted(p, tree, sc)) && KeepsSealed(p, Redrafted(p, tree, sc))
    ensures var p' := Redrafted(p, tree, sc);
      && ActiveIndex(p'.versions) == ActiveIndex(p.versions)
      && forall n | 0 <= n < |p.versions| && p.versions[n].active :: p'.versions[n] == p.versions[n]
  {
    hide ActiveIndex;
    RedraftHistory(p, tree, sc);
    ActiveExactly(p);
    ActiveExactly(Redrafted(p, tree, sc));
  }

  /** One policy rewritten: what the write must show for the whole set. */
  lemma OneRewritten(ps: Policies, ps': Policies, roles: Roles, id: PolicyId)
    requires PoliciesOk(ps) && ScopesKnown(ps, roles) && CatchAllLast(ps')
    requires id in ps && id in ps' && ps' == ps[id := ps'[id]] && History(ps'[id]) && KeepsSealed(ps[id], ps'[id])
    requires ps'[id].position == ps[id].position && (ps'[id].live ==> ps[id].live)
    requires forall n | 0 <= n < |ps'[id].versions| :: forall k | k in ps'[id].versions[n].scopes.roles :: k in roles
    ensures PoliciesOk(ps') && ScopesKnown(ps', roles) && PoliciesGrow(ps, ps')
  {
    hide CatchAllLast, ActiveIndex;
    assert forall q | q in ps' :: q in ps && (q != id ==> ps'[q] == ps[q]);
  }

  lemma RedraftedScopes(p: Policy, tree: seq<Step>, sc: Scopes, roles: Roles)
    requires forall n | 0 <= n < |p.versions| :: forall k | k in p.versions[n].scopes.roles :: k in roles
    requires forall k | k in sc.roles :: k in roles
    ensures var p' := Redrafted(p, tree, sc);
      forall n | 0 <= n < |p'.versions| :: forall k | k in p'.versions[n].scopes.roles :: k in roles
  {
  }

  lemma PutDraftForm(db: Db, caller: UserId, id: PolicyId, scopes: Option<Scopes>, tree: seq<Step>) returns (sc: Scopes)
    requires PutDraft(db, caller, id, scopes, tree).Ok? && ScopesKnown(db.policies, db.roles)
    ensures LivePolicy(db.policies, id) && forall k | k in sc.roles :: k in db.roles
    ensures var ps' := db.policies[id := Redrafted(db.policies[id], tree, sc)];
      CatchAllLast(ps') && PutDraft(db, caller, id, scopes, tree) == Ok(db.(policies := ps'))
  {
    hide CatchAllLast, Redrafted, ValidTree, DelegatesAreMembers;
    sc := if scopes.Some? then scopes.value else TopScopes(db.policies[id]);
  }

  lemma PutDraftKeeps(db: Db, caller: UserId, id: PolicyId, scopes: Option<Scopes>, tree: seq<Step>)
    requires Inv(db) && PutDraft(db, caller, id, scopes, tree).Ok?
    ensures Inv(PutDraft(db, caller, id, scopes, tree).db)
  {
    var sc := PutDraftForm(db, caller, id, scopes, tree);
    var p := db.policies[id];
    var ps' := db.policies[id := Redrafted(p, tree, sc)];
    RedraftKeeps(p, tree, sc);
    RedraftedScopes(p, tree, sc, db.roles);
    assert ps' == db.policies[id := ps'[id]];
    hide PutDraft, CatchAllLast, History, KeepsSealed, InForceRolesLive, InvoicesOk;
    OneRewritten(db.policies, ps', db.roles, id);
    forall q | InForcePolicy(ps', q)
      ensures InForcePolicy(db.policies, q) && ActiveVersion(ps', q) == ActiveVersion(db.policies, q)
    {
    }
    PolicyWriteKeeps(db, ps');
  }

  lemma DeactivateKeeps(p: Policy)
    requires History(p)
    ensures var p' := p.(live := false, versions := Deactivated(p.versions));
      History(p') && KeepsSealed(p, p') && ActiveIndex(p'.versions).None?
  {
    var p' := p.(live := false, versions := Deactivated(p.versions));
    NoneActive(p'.versions);
  }

  lemma DeletedPolicies(db: Db, id: PolicyId, ps': Policies)
    requires Inv(db) && id in db.policies && CatchAllLast(ps')
    requires ps' == db.policies[id := db.policies[id].(live := false,
                                                       versions := Deactivated(db.policies[id].versions))]
    ensures PoliciesGrow(db.policies, ps') && PoliciesOk(ps') && ScopesKnown(ps', db.roles)
    ensures forall q | InForcePolicy(ps', q) ::
      InForcePolicy(db.policies, q) && ActiveVersion(ps', q) == ActiveVersion(db.policies, q)
  {
    hide CatchAllLast, InvoicesOk, InForceRolesLive, ActiveIndex, History, KeepsSealed;
    assert History(db.policies[id]);
    DeactivateKeeps(db.policies[id]);
    OneRewritten(db.policies, ps', db.roles, id);
  }

  lemma DeleteKeeps(db: Db, caller: UserId, id: PolicyId)
    requires Inv(db) && DeletePolicy(db, caller, id).Ok?
    ensures Inv(DeletePolicy(db, caller, id).db)
  {
    var p := db.policies[id];
    var ps' := db.policies[id := p.(live := false, versions := Deactivated(p.versions))];
    hide Inv, History, CatchAllLast, ScopedLive, KeepsSealed, ActiveAdmin;
    assert DeletePolicy(db, caller, id).db == db.(policies := ps') && CatchAllLast(ps');
    DeletedPolicies(db, id, ps');
    PolicyWriteKeeps(db, ps');
  }

  lemma SealKeeps(p: Policy)
    requires History(p) && p.live && HasDraft(p)
    ensures History(SealedTop(p)) && KeepsSealed(p, SealedTop(p))
    ensures var p', top := SealedTop(p), |p.versions| - 1;
      && ActiveIndex(p'.versions) == Some(top) && p'.position == p.position && p'.live && |p'.versions| == |p.versions|
      && forall n | 0 <= n <= top ::
        p'.versions[n].tree == p.versions[n].tree && p'.versions[n].scopes == p.versions[n].scopes
  {
    var p', top := SealedTop(p), |p.versions| - 1;
    hide ActiveIndex;
    assert HighestSealed(p'.versions, top);
    assert History(p');
    ActiveExactly(p');
  }

  lemma PublishForm(db: Db, caller: UserId, id: PolicyId)
    requires PublishPolicy(db, caller, id).Ok?
    ensures LivePolicy(db.policies, id) && HasDraft(db.policies[id])
    ensures var v := db.policies[id].versions[|db.policies[id].versions| - 1]; DraftRefusal(db, v).None?
    ensures var db' := db.(policies := db.policies[id := SealedTop(db.policies[id])]);
      && CatchAllLast(db'.policies) && |Backlog(db')| <= SWEEP_CAP
      && PublishPolicy(db, caller, id) == Ok(db'.(runs := Swept(db')))
  {
    hide CatchAllLast, SealedTop, Swept, Backlog, DraftRefusal, ActiveAdmin;
  }

  lemma CheckedDraft(db: Db, v: Version)
    requires DraftRefusal(db, v).None? && forall k | k in v.scopes.roles :: k in db.roles
    ensures RolesLive(v, db.roles)
  {
    PublishableExactly(v.tree, LiveKeys(db.roles));
  }

  lemma SealedScopes(ps: Policies, ps': Policies, roles: Roles, id: PolicyId)
    requires ScopesKnown(ps, roles) && id in ps && id in ps' && |ps'[id].versions| == |ps[id].versions|
    requires forall n | 0 <= n < |ps[id].versions| :: ps'[id].versions[n].scopes == ps[id].versions[n].scopes
    ensures forall n | 0 <= n < |ps'[id].versions| :: forall k | k in ps'[id].versions[n].scopes.roles :: k in roles
  {
  }

  /** Sealing the draft keeps what the policies promise, the last-policy rule being checked. */
  lemma SealedWrite(ps: Policies, roles: Roles, id: PolicyId)
    requires PoliciesOk(ps) && ScopesKnown(ps, roles) && LivePolicy(ps, id) && HasDraft(ps[id])
    requires CatchAllLast(ps[id := SealedTop(ps[id])])
    ensures var ps' := ps[id := SealedTop(ps[id])];
      PoliciesOk(ps') && ScopesKnown(ps', roles) && PoliciesGrow(ps, ps')
  {
    var p := ps[id];
    var ps' := ps[id := SealedTop(p)];
    assert History(p);
    hide SealedTop, CatchAllLast, History, KeepsSealed, ActiveIndex;
    SealKeeps(p);
    assert ps'[id] == SealedTop(p) && ps' == ps[id := ps'[id]];
    SealedScopes(ps, ps', roles, id);
    OneRewritten(ps, ps', roles, id);
  }

  /** The sealed draft, having passed the checks, names live roles only. */
  lemma SealedForce(db: Db, id: PolicyId)
    requires LivePolicy(db.policies, id) && HasDraft(db.policies[id]) && History(db.policies[id])
    requires ScopesKnown(db.policies, db.roles) && InForceRolesLive(db.policies, db.roles)
    requires DraftRefusal(db, db.policies[id].versions[|db.policies[id].versions| - 1]).None?
    ensures var ps' := db.policies[id := SealedTop(db.policies[id])]; InForceRolesLive(ps', db.roles) && AnyInForce(ps')
  {
    var ps, p := db.policies, db.policies[id];
    var ps', top := ps[id := SealedTop(p)], |p.versions| - 1;
    assert forall k | k in p.versions[top].scopes.roles :: k in db.roles;
    hide SealedTop, History, DraftRefusal, ActiveIndex, RolesLive, InForceRolesLive, ScopesKnown;
    SealKeeps(p);
    CheckedDraft(db, p.versions[top]);
    assert InForcePolicy(ps', id);
    SealedRolesLive(ps, ps', db.roles, id, top);
  }

  /** Publishing puts the checked draft in force. */
  lemma SealedPolicies(db: Db, caller: UserId, id: PolicyId)
    requires Inv(db) && PublishPolicy(db, caller, id).Ok?
    ensures var ps' := db.policies[id := SealedTop(db.policies[id])];
      && PoliciesOk(ps') && ScopesKnown(ps', db.roles) && InForceRolesLive(ps', db.roles)
      && PoliciesGrow(db.policies, ps') && AnyInForce(ps')
  {
    hide PublishPolicy, SealedTop, CatchAllLast, InvoicesOk, DraftRefusal, InForceRolesLive, ScopesKnown, PoliciesGrow;
    hide AnyInForce, History, PositionsDistinct;
    PublishForm(db, caller, id);
    assert History(db.policies[id]);
    SealedWrite(db.policies, db.roles, id);
    SealedForce(db, id);
  }

  lemma SealedRolesLive(ps: Policies, ps': Policies, roles: Roles, id: PolicyId, top: nat)
    requires InForceRolesLive(ps, roles) && id in ps && id in ps' && ps' == ps[id := ps'[id]]
    requires ActiveIndex(ps'[id].versions) == Some(top) && top < |ps[id].versions|
        && RolesLive(ps[id].versions[top], roles)
    requires ps'[id].versions[top].tree == ps[id].versions[top].tree
    requires ps'[id].versions[top].scopes == ps[id].versions[top].scopes
    ensures InForceRolesLive(ps', roles)
  {
    hide ActiveIndex;
    forall q | InForcePolicy(ps', q) ensures RolesLive(ActiveVersion(ps', q), roles) {
      if q != id {
        assert InForcePolicy(ps, q) && ActiveVersion(ps', q) == ActiveVersion(ps, q);
      }
    }
  }

  lemma PublishKeeps(db: Db, caller: UserId, id: PolicyId)
    requires Inv(db) && PublishPolicy(db, caller, id).Ok?
    ensures Inv(PublishPolicy(db, caller, id).db)
  {
    SealedPolicies(db, caller, id);
    PublishForm(db, caller, id);
    var db' := db.(policies := db.policies[id := SealedTop(db.policies[id])]);
    hide PublishPolicy, SealedTop, PoliciesOk, ScopesKnown, InForceRolesLive, AnyInForce, CatchAllLast;
    SweptKeeps(db, db'.policies);
  }

  /** What the sweep does to one invoice. */
  lemma SweptOne(ps: Policies, ps': Policies, roles: Roles, inv: Invoice, rs: seq<Run>)
    requires InvoiceOk(ps, roles, inv, rs) && PoliciesGrow(ps, ps') && PoliciesOk(ps') && InForceRolesLive(ps', roles)
    ensures InvoiceOk(ps', roles, inv,
                      if inv.status == Validated && !(exists r | r in rs :: Live(r))
                      then rs + ArmedRuns(ps', roles, inv)
                      else rs + [])
  {
    hide PoliciesOk, InForceRolesLive, PoliciesGrow, ArmedRuns, RunOk, WaitingRolesLive;
    RunsSurvive(ps, ps', rs);
    LiveIsNewest(rs);
    if inv.status == Validated && !NewestLive(rs) {
      ArmKeeps(ps', roles, inv, rs);
    } else {
      assert rs + [] == rs;
    }
  }

  /** The sweep leaves every validated invoice armed. */
  lemma SweptKeeps(db: Db, ps': Policies)
    requires InvoicesOk(db) && PoliciesGrow(db.policies, ps') && PoliciesOk(ps') && InForceRolesLive(ps', db.roles)
    ensures var db' := db.(policies := ps'); InvoicesOk(db'.(runs := Swept(db')))
  {
    hide PoliciesOk, InForceRolesLive, PoliciesGrow, ArmedRuns, InvoiceOk;
    var db' := db.(policies := ps');
    forall i | i in db.invoices ensures InvoiceOk(ps', db.roles, db.invoices[i], Swept(db')[i]) {
      SweptOne(db.policies, ps', db.roles, db.invoices[i], db.runs[i]);
    }
  }

  lemma LiveIsNewest(rs: seq<Run>)
    requires OnlyNewestLive(rs)
    ensures (exists r | r in rs :: Live(r)) <==> NewestLive(rs)
  {
    if NewestLive(rs) {
      assert rs[|rs| - 1] in rs;
    }
  }

  lemma PlacesDiffer(ps: Policies, order: seq<PolicyId>, i: nat, j: nat)
    requires Ordered(ps, order) && PositionsDistinct(ps) && forall x | x in order :: x in LiveIds(ps)
    requires i < |order| && j < |order| && i != j
    ensures ps[order[i]].position != ps[order[j]].position
  {
    assert order[i] in order && order[j] in order;
    assert if i < j then Precedes(ps, order[i], order[j]) else Precedes(ps, order[j], order[i]);
  }

  /** What a reorder does to one policy: the k-th requested one takes the k-th old position. */
  lemma ReorderedAt(ps: Policies, ids: seq<PolicyId>, q: PolicyId)
    requires |ids| == |LiveOrder(ps)| && q in ps
    ensures q in Reordered(ps, ids) && (q !in ids ==> Reordered(ps, ids)[q] == ps[q])
    ensures q in ids ==>
      var from := LiveOrder(ps)[IndexOf(ids, q)];
      from in ps && ps[from].live && Reordered(ps, ids)[q] == ps[q].(position := ps[from].position)
  {
    InOrderExact(ps, LiveIds(ps));
    if q in ids {
      assert LiveOrder(ps)[IndexOf(ids, q)] in LiveOrder(ps);
    }
    hide InOrderOf, Ordered;
  }

  lemma LiveOrderReads(ps: Policies)
    ensures Ordered(ps, LiveOrder(ps))
    ensures forall x :: x in LiveOrder(ps) <==> x in ps && ps[x].live
  {
    InOrderExact(ps, LiveIds(ps));
  }

  lemma ReorderedKeys(ps: Policies, ids: seq<PolicyId>)
    requires |ids| == |LiveOrder(ps)|
    ensures Reordered(ps, ids).Keys == ps.Keys
  {
    InOrderExact(ps, LiveIds(ps));
    hide InOrderOf, Ordered;
  }

  /** A reorder only moves positions. */
  lemma ReorderedSame(ps: Policies, ids: seq<PolicyId>)
    requires |ids| == |LiveOrder(ps)| && forall q | q in ps :: ps[q].position >= 1
    ensures var ps' := Reordered(ps, ids); ps'.Keys == ps.Keys && forall q | q in ps :: SamePolicy(ps[q], ps'[q])
  {
    hide Reordered, LiveOrder;
    ReorderedKeys(ps, ids);
    forall q | q in ps ensures SamePolicy(ps[q], Reordered(ps, ids)[q]) {
      ReorderedAt(ps, ids, q);
    }
  }

  /** A reorder only moves positions, and distinct policies get distinct ones. */
  lemma ReorderedShape(ps: Policies, ids: seq<PolicyId>)
    requires |ids| == |LiveOrder(ps)| && forall x | x in LiveIds(ps) :: x in ids
    requires PositionsDistinct(ps) && forall q | q in ps :: ps[q].position >= 1
    ensures var ps' := Reordered(ps, ids);
      ps'.Keys == ps.Keys && PositionsDistinct(ps') && forall q | q in ps :: SamePolicy(ps[q], ps'[q])
  {
    ReorderedSame(ps, ids);
    hide Reordered, LiveOrder, Ordered;
    LiveOrderReads(ps);
    var ps', order := Reordered(ps, ids), LiveOrder(ps);
    forall a, b | a in ps' && b in ps' && ps'[a].live && ps'[b].live && a != b
      ensures ps'[a].position != ps'[b].position
    {
      assert SamePolicy(ps[a], ps'[a]) && SamePolicy(ps[b], ps'[b]);
      assert a in LiveIds(ps) && b in LiveIds(ps);
      ReorderedAt(ps, ids, a);
      ReorderedAt(ps, ids, b);
      PlacesDiffer(ps, order, IndexOf(ids, a), IndexOf(ids, b));
    }
  }

  lemma SamePositions(ps: Policies, ps': Policies, roles: Roles)
    requires ps'.Keys == ps.Keys && forall q | q in ps :: SamePolicy(ps[q], ps'[q])
    requires ScopesKnown(ps, roles) && forall q | q in ps :: History(ps[q])
    ensures forall q | q in ps' :: History(ps'[q]) && ps'[q].position >= 1
    ensures PoliciesGrow(ps, ps') && ScopesKnown(ps', roles)
    ensures forall q | InForcePolicy(ps', q) :: InForcePolicy(ps, q) && ActiveVersion(ps', q) == ActiveVersion(ps, q)
  {
  }

  lemma DeletedForm(db: Db, caller: UserId, id: PolicyId)
    requires DeletePolicy(db, caller, id).Ok?
    ensures id in db.policies
    ensures var p := db.policies[id];
      DeletePolicy(db, caller, id).db
        == db.(policies := db.policies[id := p.(live := false, versions := Deactivated(p.versions))])
  {
    hide CatchAllLast, ScopedLive, ActiveAdmin;
  }

  lemma ReorderForm(db: Db, caller: UserId, ids: seq<PolicyId>)
    requires ReorderPolicies(db, caller, ids).Ok?
    ensures |ids| == |LiveOrder(db.policies)| && Distinct(ids) && forall x | x in LiveIds(db.policies) :: x in ids
    ensures ReorderPolicies(db, caller, ids) == Ok(db)
         || (CatchAllLast(Reordered(db.policies, ids))
             && ReorderPolicies(db, caller, ids) == Ok(db.(policies := Reordered(db.policies, ids))))
  {
    hide CatchAllLast, Reordered, LiveOrder, LiveIds;
  }

  lemma ReorderKeeps(db: Db, caller: UserId, ids: seq<PolicyId>)
    requires Inv(db) && ReorderPolicies(db, caller, ids).Ok?
    ensures Inv(ReorderPolicies(db, caller, ids).db)
  {
    hide ReorderPolicies, Reordered, CatchAllLast, LiveOrder, LiveIds;
    hide History, PositionsDistinct, ScopesKnown, InForceRolesLive, InvoicesOk;
    ReorderForm(db, caller, ids);
    var ps' := Reordered(db.policies, ids);
    ReorderedShape(db.policies, ids);
    SamePositions(db.policies, ps', db.roles);
    if ReorderPolicies(db, caller, ids) != Ok(db) {
      PolicyWriteKeeps(db, ps');
    }
  }

  // ---- Role writes ----

  /** A role write that keeps every live role in use keeps every invoice and version. */
  lemma RoleWriteKeeps(db: Db, members': Members, roles': Roles)
    requires Inv(db) && db.roles.Keys <= roles'.Keys
    requires forall k | LiveRole(db.roles, k) :: LiveRole(roles', k)
    ensures Inv(db.(members := members', roles := roles'))
  {
    assert forall k | k in LiveKeys(db.roles) :: LiveRole(db.roles, k) && LiveRole(roles', k);
    assert LiveKeys(db.roles) <= LiveKeys(roles');
    forall i | i in db.invoices ensures InvoiceOk(db.policies, roles', db.invoices[i], db.runs[i]) {
      assert InvoiceOk(db.policies, db.roles, db.invoices[i], db.runs[i]);
    }
  }

  lemma DeleteRoleKeeps(db: Db, caller: UserId, key: Key)
    requires Inv(db) && DeleteRole(db, caller, key).Ok?
    ensures Inv(DeleteRole(db, caller, key).db)
  {
    hide NamedInForce, WaitingInvoices, InForceRolesLive, InvoiceOk, PoliciesOk, ActiveAdmin;
    var roles' := db.roles[key := db.roles[key].(live := false)];
    UnnamedStayLive(db.policies, db.roles, key);
    forall i | i in db.invoices ensures InvoiceOk(db.policies, roles', db.invoices[i], db.runs[i]) {
      UnwaitedStayOk(db, key, i);
    }
  }

  lemma UnnamedStayLive(ps: Policies, roles: Roles, key: Key)
    requires InForceRolesLive(ps, roles) && key in roles && !NamedInForce(ps, key)
    ensures InForceRolesLive(ps, roles[key := roles[key].(live := false)])
  {
    hide InForcePolicy, Everywhere;
    var roles' := roles[key := roles[key].(live := false)];
    forall id | InForcePolicy(ps, id) ensures RolesLive(ActiveVersion(ps, id), roles') {
      InForceKnown(ps, id);
      UnnamedLive(ActiveVersion(ps, id), roles, key);
    }
  }

  lemma InForceKnown(ps: Policies, id: PolicyId)
    requires InForcePolicy(ps, id)
    ensures id in ps
  {
  }

  lemma UnnamedLive(v: Version, roles: Roles, key: Key)
    requires RolesLive(v, roles) && key in roles && key !in v.scopes.roles && !TreeNamesRole(v.tree, key)
    ensures RolesLive(v, roles[key := roles[key].(live := false)])
  {
    hide Everywhere;
    var roles' := roles[key := roles[key].(live := false)];
    forall c | c in Everywhere(v.tree) ensures RoleIsLive(c, LiveKeys(roles')) {
      assert RoleIsLive(c, LiveKeys(roles)) && !NamesRole(c, key);
    }
  }

  lemma UnwaitedStayOk(db: Db, key: Key, i: InvoiceId)
    requires key in db.roles && LiveRole(db.roles, key) && WaitingInvoices(db, key) == {}
    requires i in db.invoices && i in db.runs && InvoiceOk(db.policies, db.roles, db.invoices[i], db.runs[i])
    ensures InvoiceOk(db.policies, db.roles[key := db.roles[key].(live := false)], db.invoices[i], db.runs[i])
  {
    hide RunOk, AnyInForce;
    var inv, rs := db.invoices[i], db.runs[i];
    if inv.status == Validated && |rs| > 0 && rs[|rs| - 1].state == Open {
      var r := rs[|rs| - 1];
      assert r in rs && i !in WaitingInvoices(db, key);
      assert !WaitsFor(r, key);
    }
  }

  // ---- Invoice writes ----

  lemma InvoiceWriteKeeps(db: Db, i: InvoiceId, inv: Invoice, rs: seq<Run>)
    requires Inv(db) && InvoiceOk(db.policies, db.roles, inv, rs)
    ensures Inv(db.(invoices := db.invoices[i := inv], runs := db.runs[i := rs]))
  {
  }

  lemma NewInvoiceKeeps(db: Db, i: InvoiceId, facts: Facts, creator: Option<UserId>)
    requires Inv(db) && CreateInvoice(db, i, facts, creator).Ok?
    ensures Inv(CreateInvoice(db, i, facts, creator).db)
  {
    InvoiceWriteKeeps(db, i, Invoice(Draft, facts, creator), []);
  }

  lemma PromoteKeeps(db: Db, i: InvoiceId)
    requires Inv(db) && Promote(db, i).Ok?
    ensures Inv(Promote(db, i).db)
  {
    var inv := db.invoices[i].(status := Validated);
    assert InvoiceOk(db.policies, db.roles, db.invoices[i], db.runs[i]);
    assert ArmedRuns(db.policies, db.roles, inv) == ArmedRuns(db.policies, db.roles, db.invoices[i]);
    ArmKeeps(db.policies, db.roles, inv, db.runs[i]);
    InvoiceWriteKeeps(db, i, inv, db.runs[i] + ArmedRuns(db.policies, db.roles, inv));
  }

  lemma EditKeeps(db: Db, i: InvoiceId, facts: Facts, other: bool)
    requires Inv(db) && EditInvoice(db, i, facts, other).Ok?
    ensures Inv(EditInvoice(db, i, facts, other).db)
  {
    var inv, rs := db.invoices[i], db.runs[i];
    assert InvoiceOk(db.policies, db.roles, inv, rs);
    var inv' := inv.(status := Draft, facts := facts);
    if inv.facts != facts || other {
      if inv.status == Draft {
        InvoiceWriteKeeps(db, i, inv', rs);
        assert db.runs[i := rs] == db.runs;
      } else {
        CancelKeeps(db.policies, db.roles, inv', rs);
        InvoiceWriteKeeps(db, i, inv', CancelAll(rs));
      }
    }
  }

  lemma RequeueKeeps(db: Db, i: InvoiceId, resendable: bool)
    requires Inv(db) && RequeueFailed(db, i, resendable).Ok?
    ensures Inv(RequeueFailed(db, i, resendable).db)
  {
    var inv, rs := db.invoices[i], db.runs[i];
    assert InvoiceOk(db.policies, db.roles, inv, rs);
    InvoiceWriteKeeps(db, i, inv.(status := Queued), rs);
    assert db.runs[i := rs] == db.runs;
  }

  lemma TransitionKeeps(db: Db, i: InvoiceId, target: Status, rulePending: bool)
    requires Inv(db) && TransitionInvoice(db, i, target, rulePending).Ok?
    ensures Inv(TransitionInvoice(db, i, target, rulePending).db)
  {
    var inv, rs := db.invoices[i], db.runs[i];
    assert InvoiceOk(db.policies, db.roles, inv, rs);
    var inv' := inv.(status := target);
    if target == Draft {
      CancelKeeps(db.policies, db.roles, inv', rs);
      InvoiceWriteKeeps(db, i, inv', CancelAll(rs));
    } else {
      InvoiceWriteKeeps(db, i, inv', rs);
      assert db.runs[i := rs] == db.runs;
    }
  }

  function DecidedStatus(verdict: Verdict): Status {
    if verdict == Reject then Draft else Validated
  }

  lemma DecideForm(db: Db, caller: UserId, i: InvoiceId, verdict: Verdict, reason: string)
      returns (asDelegate: bool, selfApproved: bool)
    requires Decide(db, caller, i, verdict, reason).Ok? && i in db.runs
    ensures i in db.invoices && db.invoices[i].status == Validated && |db.runs[i]| > 0
    ensures var rs, last := db.runs[i], |db.runs[i]| - 1;
      && rs[last].state == Open && FirstWaiting(rs[last].steps).Some?
      && Decide(db, caller, i, verdict, reason)
         == Ok(db.(invoices := db.invoices[i := db.invoices[i].(status := DecidedStatus(verdict))],
                   runs := db.runs[i := rs[last := DecideRun(rs[last], verdict, caller, asDelegate, selfApproved)]]))
  {
    hide DecideRun, DecisionRefusal, HoldsStep, AnyOtherApprover, FirstWaiting;
    var r := db.runs[i][|db.runs[i]| - 1];
    asDelegate := !HoldsStep(db, r.steps[FirstWaiting(r.steps).value].c, caller);
    selfApproved := verdict == Approve && IsCreator(db, i, caller) && !AnyOtherApprover(db, i, caller);
    assert db.invoices[i := db.invoices[i]] == db.invoices;
  }

  lemma DecidedOk(ps: Policies, roles: Roles, inv: Invoice, rs: seq<Run>, verdict: Verdict, actor: UserId,
                  asDelegate: bool, selfApproved: bool)
    requires InvoiceOk(ps, roles, inv, rs) && inv.status == Validated && |rs| > 0 && rs[|rs| - 1].state == Open
    ensures FirstWaiting(rs[|rs| - 1].steps).Some?
    ensures InvoiceOk(ps, roles, inv.(status := DecidedStatus(verdict)),
                      rs[|rs| - 1 := DecideRun(rs[|rs| - 1], verdict, actor, asDelegate, selfApproved)])
  {
    hide RunOk, WaitingRolesLive, DecideRun;
    var last := |rs| - 1;
    assert rs[last] in rs && RunOk(ps, rs[last]);
    DecidedRunOk(ps, roles, rs[last], verdict, actor, asDelegate, selfApproved);
    var r' := DecideRun(rs[last], verdict, actor, asDelegate, selfApproved);
    var rs' := rs[last := r'];
    assert rs'[last] == r' && forall k | 0 <= k < last :: rs'[k] == rs[k] && rs[k] in rs;
  }

  lemma DecidedRunOk(ps: Policies, roles: Roles, r: Run, verdict: Verdict, actor: UserId, asDelegate: bool,
                     selfApproved: bool)
    requires RunOk(ps, r) && r.state == Open && WaitingRolesLive(roles, r.steps)
    ensures FirstWaiting(r.steps).Some?
    ensures var r' := DecideRun(r, verdict, actor, asDelegate, selfApproved);
      && RunOk(ps, r') && WaitingRolesLive(roles, r'.steps) && r'.facts == r.facts
      && (verdict == Reject ==> !Live(r')) && (verdict == Approve ==> Live(r'))
  {
    hide WellShaped, Interpret, Plan;
    DecideKeepsShape(r, verdict, actor, asDelegate, selfApproved);
    DecidedWaiting(r, verdict, actor, asDelegate, selfApproved);
  }

  lemma DecideKeeps(db: Db, caller: UserId, i: InvoiceId, verdict: Verdict, reason: string)
    requires Inv(db) && Decide(db, caller, i, verdict, reason).Ok?
    ensures Inv(Decide(db, caller, i, verdict, reason).db)
  {
    assert i in db.runs;
    hide Decide, DecideRun, InvoiceOk, PoliciesOk, ScopesKnown, InForceRolesLive;
    var asDelegate, selfApproved := DecideForm(db, caller, i, verdict, reason);
    DecidedOk(db.policies, db.roles, db.invoices[i], db.runs[i], verdict, caller, asDelegate, selfApproved);
    InvoiceWriteKeeps(db, i, Decide(db, caller, i, verdict, reason).db.invoices[i],
                      Decide(db, caller, i, verdict, reason).db.runs[i]);
  }

  /** A decision makes nothing wait that did not wait before. */
  lemma DecidedWaiting(r: Run, verdict: Verdict, actor: UserId, asDelegate: bool, selfApproved: bool)
    requires FirstWaiting(r.steps).Some?
    ensures forall s | s in DecideRun(r, verdict, actor, asDelegate, selfApproved).steps && Waiting(s) :: s in r.steps
  {
  }

  // ---- Every operation ----

  /** Membership changes, staffing changes and new roles leave every live role live. */
  lemma PeopleKeepRoles(db: Db, op: Op)
    requires Apply(db, op).Ok? && PeopleOp(op) && !op.OpDeleteRole?
    ensures var db' := After(db, op);
      && db' == db.(members := db'.members, roles := db'.roles) && db.roles.Keys <= db'.roles.Keys
      && forall k | LiveRole(db.roles, k) :: LiveRole(db'.roles, k)
  {
    hide Join, SetStanding, SetAccess, SetClients, DeleteRole, AddClient;
    hide CreatePolicy, PutDraft, PublishPolicy, DeletePolicy, ReorderPolicies;
    hide CreateInvoice, Promote, EditInvoice, TransitionInvoice, RequeueFailed, Decide;
    hide LastActiveAdminIs, Signed, WaitingInvoices, RoleKey.Minted, Departs, ActiveAdmin, OtherActive;
    Writes(db, op);
    if op.OpCreateRole? {
      RoleKey.MintedKey(db.roles.Keys, op.title);
    }
  }

  lemma MembershipKeeps(db: Db, op: Op)
    requires Inv(db) && Apply(db, op).Ok? && PeopleOp(op) && !op.OpDeleteRole?
    ensures Inv(After(db, op))
  {
    hide Inv, After, Apply, LiveRole;
    PeopleKeepRoles(db, op);
    RoleWriteKeeps(db, After(db, op).members, After(db, op).roles);
  }

  lemma AddClientKeeps(db: Db, caller: UserId, e: Entity)
    requires Inv(db) && AddClient(db, caller, e).Ok?
    ensures Inv(AddClient(db, caller, e).db)
  {
    hide AddClient, PoliciesOk, ScopesKnown, InForceRolesLive, InvoiceOk;
  }

  /** Every operation keeps the invariant. */
  lemma ApplyKeeps(db: Db, op: Op)
    requires Inv(db)
    ensures Inv(After(db, op))
  {
    hide Inv, DeleteRole, CreatePolicy, PutDraft, PublishPolicy, DeletePolicy, ReorderPolicies, Promote;
    hide EditInvoice, TransitionInvoice, RequeueFailed, Decide;
    hide CreateRole, SetRoleMembers, Join, SetStanding, SetAccess, RemoveMember, DeleteAccount, SetClients, AddClient;
    if Apply(db, op).Ok? {
      match op
      case OpAddClient(caller, e) => AddClientKeeps(db, caller, e);
      case OpDeleteRole(caller, key) => DeleteRoleKeeps(db, caller, key);
      case OpCreatePolicy(caller, id, top, scopes) => CreateKeeps(db, caller, id, top, scopes);
      case OpPutDraft(caller, id, scopes, tree) => PutDraftKeeps(db, caller, id, scopes, tree);
      case OpPublishPolicy(caller, id) => PublishKeeps(db, caller, id);
      case OpDeletePolicy(caller, id) => DeleteKeeps(db, caller, id);
      case OpReorderPolicies(caller, order) => ReorderKeeps(db, caller, order);
      case OpCreateInvoice(i, facts, creator) => NewInvoiceKeeps(db, i, facts, creator);
      case OpPromote(i) => PromoteKeeps(db, i);
      case OpEditInvoice(i, facts, other) => EditKeeps(db, i, facts, other);
      case OpTransitionInvoice(i, target, rulePending) => TransitionKeeps(db, i, target, rulePending);
      case OpRequeueFailed(i, resendable) => RequeueKeeps(db, i, resendable);
      case OpDecide(caller, i, verdict, reason) => DecideKeeps(db, caller, i, verdict, reason);
      case _ => MembershipKeeps(db, op);
    }
  }

  /** Every reachable state satisfies the invariant. */
  lemma {:induction false} Reachable(ws: Workspace, ops: seq<Op>)
    ensures Inv(Replay(ws, ops))
  {
    if ops != [] {
      Reachable(ws, ops[..|ops| - 1]);
      ApplyKeeps(Replay(ws, ops[..|ops| - 1]), ops[|ops| - 1]);
    }
  }
}
