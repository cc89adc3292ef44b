/**
 Policy writes in their own columns: exactly when one goes through, exactly what it stores,
 and that what was submitted is what runs.
 */
module Drafting {
  import opened Domain
  import opened StepTree
  import opened Matching
  import opened Runs
  import opened Database
  import opened Operations
  import opened Invariants
  import opened People
  import Compiling
  import Guarantees
  import Histories
  import PolicyOrder

  // ---- Scopes as submitted ----

  predicate NoRepeat<T(==)>(s: seq<T>) {
    forall i, j | 0 <= i < |s| && 0 <= j < |s| && s[i] == s[j] :: i == j
  }

  predicate UnderCeiling(b: Option<Money>) {
    b.Some? ==> -100_000_000_000_000 < b.value < 100_000_000_000_000
  }

  predicate WellFormed(sc: Scopes) {
    && (forall d | d in sc.docTypes :: d in {"commercial_invoice", "credit_note", "debit_note"})
    && (forall k | k in sc.roles :: k != "")
    && NoRepeat(sc.docTypes) && NoRepeat(sc.entities) && NoRepeat(sc.roles)
    && (sc.band.Some? ==>
          var b := sc.band.value;
          && b.currency != "" && (b.lower != None || b.upper != None) && UnderCeiling(b.lower) && UnderCeiling(b.upper)
          && !(b.lower.Some? && b.upper.Some? && b.lower.value > b.upper.value))
  }

  /** Every client and currency is known, and every role is live or one the policy already holds. */
  predicate Resolves(db: Db, sc: Scopes, held: seq<Key>) {
    && (forall e | e in sc.entities :: e in db.ws.entities)
    && (forall k | k in sc.roles :: k in db.roles && (db.roles[k].live || k in held))
    && (sc.band.Some? ==> sc.band.value.currency in db.ws.currencies)
  }

  predicate Narrows(sc: Scopes) {
    sc.docTypes != [] || sc.entities != [] || sc.roles != [] || sc.band != None
  }

  lemma {:induction false} DocTypesExactly(docTypes: seq<string>, seen: set<string>)
    ensures DocTypesRefusal(docTypes, seen).None? <==>
      && (forall d | d in docTypes :: d in {"commercial_invoice", "credit_note", "debit_note"} && d !in seen)
      && NoRepeat(docTypes)
  {
    if docTypes != [] {
      DocTypesExactly(docTypes[1..], seen + {docTypes[0]});
      FirstApart(docTypes);
    }
  }

  lemma {:induction false} RoleKeysExactly(keys: seq<Key>, seen: set<Key>)
    ensures RoleKeysRefusal(keys, seen).None? <==> (forall k | k in keys :: k != "" && k !in seen) && NoRepeat(keys)
  {
    if keys != [] {
      RoleKeysExactly(keys[1..], seen + {keys[0]});
      FirstApart(keys);
    }
  }

  lemma FirstApart<T>(s: seq<T>)
    requires s != []
    ensures NoRepeat(s) <==> s[0] !in s[1..] && NoRepeat(s[1..])
    ensures forall x :: x in s <==> x == s[0] || x in s[1..]
  {
    if s[0] !in s[1..] && NoRepeat(s[1..]) {
      forall j | 0 < j < |s| ensures s[j] != s[0] {
        assert s[j] == s[1..][j - 1];
      }
      forall i, j | 0 < i < |s| && 0 < j < |s| && s[i] == s[j] ensures i == j {
        assert s[1..][i - 1] == s[1..][j - 1];
      }
    }
    if NoRepeat(s) {
      forall i, j | 0 <= i < |s| - 1 && 0 <= j < |s| - 1 && s[1..][i] == s[1..][j] ensures i == j {
        assert s[i + 1] == s[j + 1];
      }
    }
  }

  /** The scopes pass the checks made before the transaction exactly when they are well formed. */
  lemma ShapeExactly(sc: Scopes)
    ensures ScopesRefusal(sc).None? <==> WellFormed(sc)
  {
    hide DocTypesRefusal, RoleKeysRefusal;
    DocTypesExactly(sc.docTypes, {});
    RoleKeysExactly(sc.roles, {});
    assert Distinct(sc.entities) <==> NoRepeat(sc.entities);
  }

  lemma ResolvesExactly(db: Db, sc: Scopes, held: seq<Key>)
    ensures ResolveRefusal(db.ws, db.roles, sc, held).None? <==> Resolves(db, sc, held)
  {
  }

  // ---- Drafts ----

  /** Where a draft is written: over the top version when that is unsealed, else above it. */
  function DraftAt(versions: seq<Version>): nat {
    if versions != [] && !versions[|versions| - 1].isSealed then |versions| - 1 else |versions|
  }

  /** The scopes given, or else those of the version now on top. */
  function ScopesKept(versions: seq<Version>, scopes: Option<Scopes>): Scopes {
    if scopes.Some? then scopes.value
    else if versions != [] then versions[|versions| - 1].scopes
    else Scopes([], [], [], None)
  }

  /** The last live policy, in position order. */
  predicate AtBottom(ps: Policies, id: PolicyId) {
    id in ps && ps[id].live && forall q | q in ps && ps[q].live && q != id :: ps[q].position < ps[id].position
  }

  /**
   A saved draft is unsealed, not active and on top; it holds the submitted steps and the given scopes, or else those
   it replaces; every earlier version is as it was, and a version is added exactly when there was no draft. No
   other policy changes.
   */
  lemma {:induction false} PutDraftStores(ws: Workspace, ops: seq<Op>, caller: UserId, id: PolicyId,
                                          scopes: Option<Scopes>, tree: seq<Step>)
    requires PutDraft(Replay(ws, ops), caller, id, scopes, tree).Ok?
    ensures id in Replay(ws, ops).policies
    ensures var ps, ps' := Replay(ws, ops).policies, PutDraft(Replay(ws, ops), caller, id, scopes, tree).db.policies;
      var vs, at := ps[id].versions, DraftAt(ps[id].versions);
      && ps' == ps[id := ps[id].(versions := vs[..at] + [Version(false, false, tree, ScopesKept(vs, scopes))])]
  {
    hide Replay, Inv, CatchAllLast, ScopesKnown, InvoiceOk, PositionsDistinct;
    hide ValidTree, DelegatesAreMembers, ResolveRefusal, ScopesRefusal, ActiveAdmin;
    Reachable(ws, ops);
    InvParts(Replay(ws, ops));
    var vs := Replay(ws, ops).policies[id].versions;
    DraftInactive(Replay(ws, ops).policies[id]);
    if DraftAt(vs) < |vs| {
      var v := Version(false, false, tree, ScopesKept(vs, scopes));
      assert vs[|vs| - 1 := v] == vs[..|vs| - 1] + [v];
    } else {
      assert vs[..|vs|] == vs;
    }
  }

  lemma DraftInactive(p: Policy)
    requires History(p)
    ensures |p.versions| > 0 && (!p.versions[|p.versions| - 1].isSealed ==> !p.versions[|p.versions| - 1].active)
  {
  }

  lemma LastLiveIsBottom(ps: Policies, q: PolicyId)
    requires PositionsDistinct(ps) && forall x | x in ps :: |ps[x].versions| > 0
    ensures IsLastLive(ps, q) <==> AtBottom(ps, q)
  {
  }

  /** With its active version untouched, a live policy's write keeps the last-policy rule unless it narrows the last. */
  lemma OnlyTopChanges(ps: Policies, id: PolicyId, vs': seq<Version>)
    requires PositionsDistinct(ps) && CatchAllLast(ps) && LivePolicy(ps, id) && |vs'| > 0
    requires forall x | x in ps :: |ps[x].versions| > 0
    requires ActiveIndex(vs') == ActiveIndex(ps[id].versions)
    requires ActiveIndex(vs').Some? ==>
      var n := ActiveIndex(vs').value; n < |ps[id].versions| && vs'[n] == ps[id].versions[n]
    ensures CatchAllLast(ps[id := ps[id].(versions := vs')]) <==> (AtBottom(ps, id) ==> !Narrows(vs'[|vs'| - 1].scopes))
  {
    hide ActiveIndex, PositionsDistinct, IsLastLive, IsLastInForce, AtBottom, SameBooks, ScopedActive, ScopedTop;
    hide Narrows;
    var ps' := ps[id := ps[id].(versions := vs')];
    OneRewritten(ps, id, vs');
    forall q | q in ps
      ensures IsLastInForce(ps', q) <==> IsLastInForce(ps, q)
      ensures IsLastLive(ps', q) <==> AtBottom(ps, q)
      ensures IsLastLive(ps, q) <==> AtBottom(ps, q)
    {
      SameForce(ps, ps', q);
      SameBottom(ps, ps', q);
      LastLiveIsBottom(ps, q);
      LastLiveIsBottom(ps', q);
    }
    TopNarrows(ps'[id]);
  }

  lemma TopNarrows(p: Policy)
    requires |p.versions| > 0
    ensures ScopedTop(p) <==> Narrows(p.versions[|p.versions| - 1].scopes)
  {
  }

  /** The same policies in the same places, with the same versions active. */
  ghost predicate SameBooks(ps: Policies, ps': Policies) {
    && ps'.Keys == ps.Keys
    && (forall x | x in ps :: ps'[x].position == ps[x].position && ps'[x].live == ps[x].live)
    && (forall x | x in ps :: ActiveIndex(ps'[x].versions) == ActiveIndex(ps[x].versions))
  }

  lemma OneRewritten(ps: Policies, id: PolicyId, vs': seq<Version>)
    requires id in ps && ActiveIndex(vs') == ActiveIndex(ps[id].versions)
    requires ActiveIndex(vs').Some? ==>
      var n := ActiveIndex(vs').value; n < |ps[id].versions| && vs'[n] == ps[id].versions[n]
    ensures SameBooks(ps, ps[id := ps[id].(versions := vs')])
    ensures ScopedActive(ps[id].(versions := vs')) <==> ScopedActive(ps[id])
  {
    hide ActiveIndex;
  }

  lemma SameForce(ps: Policies, ps': Policies, q: PolicyId)
    requires SameBooks(ps, ps') && q in ps
    ensures IsLastInForce(ps', q) <==> IsLastInForce(ps, q)
  {
    hide ActiveIndex;
    forall x | x in ps ensures InForcePolicy(ps', x) <==> InForcePolicy(ps, x) {
    }
    hide InForcePolicy;
  }

  lemma SameBottom(ps: Policies, ps': Policies, q: PolicyId)
    requires SameBooks(ps, ps') && q in ps && PositionsDistinct(ps)
    ensures (AtBottom(ps', q) <==> AtBottom(ps, q)) && PositionsDistinct(ps')
  {
    hide ActiveIndex;
  }

  // ---- What goes through ----

  predicate IsLivePolicy(ps: Policies, id: PolicyId) {
    id in ps && ps[id].live
  }

  /** The policy is live and one of its versions is active. */
  predicate InUse(ps: Policies, id: PolicyId) {
    id in ps && ps[id].live && exists n :: 0 <= n < |ps[id].versions| && ps[id].versions[n].active
  }

  predicate ActiveNarrows(p: Policy) {
    exists n :: 0 <= n < |p.versions| && p.versions[n].active && Narrows(p.versions[n].scopes)
  }

  lemma ActiveColumns(ps: Policies, id: PolicyId)
    requires id in ps && History(ps[id])
    ensures InForcePolicy(ps, id) <==> InUse(ps, id)
    ensures ScopedActive(ps[id]) <==> ActiveNarrows(ps[id])
    ensures |ps[id].versions| > 0
  {
    var p := ps[id];
    ActiveExactly(p);
    hide ActiveIndex, HighestSealed;
    forall n | 0 <= n < |p.versions| && p.versions[n].active ensures ActiveIndex(p.versions) == Some(n) {
      OneActive(p, n);
    }
  }

  lemma OneActive(p: Policy, n: nat)
    requires History(p) && n < |p.versions| && p.versions[n].active
    ensures ActiveIndex(p.versions) == Some(n)
  {
    ActiveExactly(p);
  }

  /**
   A draft is saved exactly when the scopes given are well formed and resolve, the steps are storable in a tree two
   deep, an active admin asks, the policy is live, every delegate is on the members' list, and the last live policy
   is not narrowed.
   */
  lemma {:induction false} PutDraftExactly(ws: Workspace, ops: seq<Op>, caller: UserId, id: PolicyId,
                                           scopes: Option<Scopes>, tree: seq<Step>)
    ensures var db := Replay(ws, ops);
      PutDraft(db, caller, id, scopes, tree).Ok? <==>
        && Compiling.TwoDeep(tree) && (forall c | c in Everywhere(tree) :: Compiling.Storable(c))
        && IsAdmin(db, caller) && IsLivePolicy(db.policies, id)
        && (scopes.Some? ==>
              WellFormed(scopes.value)
              && Resolves(db, scopes.value, ScopesKept(db.policies[id].versions, None).roles))
        && (forall c | c in Everywhere(tree) && c.delegate.Some? :: c.delegate.value in db.members)
        && !(AtBottom(db.policies, id) && Narrows(ScopesKept(db.policies[id].versions, scopes)))
  {
    hide Replay, Inv, CatchAllLast, ScopesKnown, InvoiceOk, PositionsDistinct, ValidTree, Redrafted, History, AtBottom;
    hide ResolveRefusal, ScopesRefusal, ActiveAdmin, WellFormed, Resolves, Narrows, IsAdmin, Everywhere;
    hide Compiling.TwoDeep, Compiling.Storable;
    Reachable(ws, ops);
    var db := Replay(ws, ops);
    InvParts(db);
    SignerColumns(db, caller);
    Compiling.AcceptedExactly(tree);
    if scopes.Some? {
      ShapeExactly(scopes.value);
    }
    if IsLivePolicy(db.policies, id) {
      var p := db.policies[id];
      if scopes.Some? {
        ResolvesExactly(db, scopes.value, TopScopes(p).roles);
      }
      RedraftGuard(db, id, tree, ScopesKept(p.versions, scopes));
    }
    assert DelegatesAreMembers(db.members, tree) <==>
           forall c | c in Everywhere(tree) && c.delegate.Some? :: c.delegate.value in db.members;
  }

  lemma RedraftGuard(db: Db, id: PolicyId, tree: seq<Step>, sc: Scopes)
    requires Inv(db) && LivePolicy(db.policies, id)
    ensures CatchAllLast(db.policies[id := Redrafted(db.policies[id], tree, sc)])
       <==> !(AtBottom(db.policies, id) && Narrows(sc))
  {
    hide Inv, CatchAllLast, ScopesKnown, InvoiceOk, PositionsDistinct, ActiveIndex, AtBottom, Narrows;
    InvParts(db);
    var p := db.policies[id];
    forall x | x in db.policies ensures |db.policies[x].versions| > 0 {
      DraftInactive(db.policies[x]);
    }
    RedraftKeeps(p, tree, sc);
    var vs' := Redrafted(p, tree, sc).versions;
    assert Redrafted(p, tree, sc) == p.(versions := vs');
    OnlyTopChanges(db.policies, id, vs');
  }

  // ---- Publishing ----

  /** Validated, with no run open or approved: the invoices a publish arms. */
  function Unarmed(db: Db): set<InvoiceId> {
    set i | i in db.invoices && db.invoices[i].status == Validated
            && forall r | r in RunsOf(db.runs, i) :: r.state !in {Open, Approved}
  }

  /** Some other policy in force stands below. */
  predicate Covered(ps: Policies, id: PolicyId)
    requires id in ps
  {
    exists q | q in ps :: q != id && InUse(ps, q) && ps[id].position < ps[q].position
  }

  /** What a publish opens for an invoice: the run it is armed with, if it waits to be armed. */
  ghost function NewRuns(db: Db, ps': Policies, i: InvoiceId): seq<Run> {
    if i in Unarmed(db) then ArmedRuns(ps', db.roles, db.invoices[i]) else []
  }

  lemma UnarmedExactly(db: Db)
    ensures Unarmed(db) == Backlog(db)
  {
    forall i | i in db.invoices
      ensures HasLive(db.runs, i) <==> exists r | r in RunsOf(db.runs, i) :: r.state in {Open, Approved}
    {
    }
    hide HasLive;
  }

  /** Sealing makes the draft the one active version, with its steps and scopes; the others only stop being active. */
  lemma SealedColumns(p: Policy)
    requires |p.versions| > 0
    ensures var p', top := SealedTop(p), |p.versions| - 1;
      && p' == p.(versions := p'.versions) && |p'.versions| == |p.versions|
      && p'.versions[top] == Version(true, true, p.versions[top].tree, p.versions[top].scopes)
      && forall n | 0 <= n < top :: p'.versions[n] == p.versions[n].(active := false)
  {
  }

  lemma SealGuard(db: Db, id: PolicyId)
    requires Inv(db) && LivePolicy(db.policies, id) && HasDraft(db.policies[id])
    ensures var sc := db.policies[id].versions[|db.policies[id].versions| - 1].scopes;
      CatchAllLast(db.policies[id := SealedTop(db.policies[id])]) <==> (Narrows(sc) ==> Covered(db.policies, id))
  {
    hide Inv, ScopesKnown, InvoiceOk, PositionsDistinct, ActiveIndex, AtBottom, Narrows, SealedTop, InUse;
    hide InForcePolicy, ScopedActive, ScopedTop, Covered, IsLastLive, IsLastInForce, History;
    InvParts(db);
    var ps := db.policies;
    var p', ps' := SealedTop(ps[id]), ps[id := SealedTop(ps[id])];
    forall q | q in ps
      ensures IsLastLive(ps', q) ==> !ScopedTop(ps'[q])
      ensures IsLastInForce(ps', q) && ScopedActive(ps'[q]) <==>
              q == id && Narrows(ps[id].versions[|ps[id].versions| - 1].scopes) && !Covered(ps, id)
    {
      SealedBottom(ps, id, q);
      SealedForceAt(ps, id, q);
    }
  }

  lemma SealedBottom(ps: Policies, id: PolicyId, q: PolicyId)
    requires CatchAllLast(ps) && LivePolicy(ps, id) && HasDraft(ps[id]) && q in ps
    ensures var ps' := ps[id := SealedTop(ps[id])]; IsLastLive(ps', q) ==> !ScopedTop(ps'[q])
  {
    hide SealedTop, ActiveIndex, IsLastInForce, Scoped;
    SealedColumns(ps[id]);
    var ps' := ps[id := SealedTop(ps[id])];
    if IsLastLive(ps', q) {
      forall x | x in ps && ps[x].live && |ps[x].versions| > 0 ensures ps[x].position <= ps[q].position {
        assert ps'[x].live && |ps'[x].versions| > 0;
      }
      assert IsLastLive(ps, q);
    }
  }

  lemma SealedForceAt(ps: Policies, id: PolicyId, q: PolicyId)
    requires PositionsDistinct(ps) && CatchAllLast(ps) && LivePolicy(ps, id) && HasDraft(ps[id]) && q in ps
    requires forall x | x in ps :: History(ps[x])
    ensures var ps' := ps[id := SealedTop(ps[id])];
      IsLastInForce(ps', q) && ScopedActive(ps'[q]) <==>
        q == id && Narrows(ps[id].versions[|ps[id].versions| - 1].scopes) && !Covered(ps, id)
  {
    hide SealedTop, ActiveIndex, IsLastLive, History, InUse, Narrows;
    var p', ps' := SealedTop(ps[id]), ps[id := SealedTop(ps[id])];
    SealKeeps(ps[id]);
    SealedColumns(ps[id]);
    forall x | x in ps
      ensures InForcePolicy(ps, x) <==> InUse(ps, x)
      ensures InForcePolicy(ps', x) <==> x == id || InUse(ps, x)
    {
      ActiveColumns(ps, x);
    }
    ScopedIsNarrow(p'.versions[|p'.versions| - 1].scopes);
    hide InForcePolicy;
    ForceLast(ps, ps', id, q);
  }

  lemma ScopedIsNarrow(sc: Scopes)
    ensures Scoped(sc) <==> Narrows(sc)
  {
  }

  /** Adding one policy to those in force makes it the last of them exactly when none stands below it. */
  lemma ForceLast(ps: Policies, ps': Policies, id: PolicyId, q: PolicyId)
    requires PositionsDistinct(ps) && id in ps && ps[id].live && ps'.Keys == ps.Keys && q in ps
    requires forall x | x in ps :: ps'[x].position == ps[x].position && ps'[x].live == ps[x].live
    requires forall x | x in ps :: InForcePolicy(ps, x) <==> InUse(ps, x)
    requires forall x | x in ps :: InForcePolicy(ps', x) <==> x == id || InUse(ps, x)
    ensures IsLastInForce(ps', q) && q != id ==> IsLastInForce(ps, q)
    ensures IsLastInForce(ps', id) <==> !Covered(ps, id)
  {
    hide InForcePolicy;
    if !Covered(ps, id) {
      forall x | x in ps && InUse(ps, x) && x != id ensures ps[x].position <= ps[id].position {
      }
    }
  }

  /**
   A publish goes through exactly when an active admin asks, the policy is live and has a draft on top, its approval
   steps all name live roles and no condition is bare, none of its scope roles is deleted, its delegates may sign,
   either it narrows nothing or a policy in force stands below, and at most five thousand invoices wait to be armed.
   */
  lemma {:induction false} PublishExactly(ws: Workspace, ops: seq<Op>, caller: UserId, id: PolicyId)
    ensures var db := Replay(ws, ops);
      PublishPolicy(db, caller, id).Ok? <==>
        && IsAdmin(db, caller) && IsLivePolicy(db.policies, id) && db.policies[id].versions != []
        && var v := db.policies[id].versions[|db.policies[id].versions| - 1];
        && !v.isSealed && !HasEmptyCondition(v.tree)
        && (forall c | c in Everywhere(v.tree) && c.kind == Approval ::
              c.role.Some? && c.role.value != "" && IsLive(db, c.role.value))
        && (forall k | k in v.scopes.roles :: IsLive(db, k))
        && (forall c | c in Everywhere(v.tree) && c.delegate.Some? && c.delegate.value in db.members ::
              MaySign(db, c.delegate.value))
        && (Narrows(v.scopes) ==> Covered(db.policies, id))
        && |Unarmed(db)| <= 5000
  {
    hide Replay, Inv, CatchAllLast, ScopesKnown, InvoiceOk, PositionsDistinct, SealedTop, History, ActiveAdmin, IsAdmin;
    hide Narrows, Covered, Everywhere, HasEmptyCondition, Backlog, Unarmed, Swept, DraftRefusal;
    Reachable(ws, ops);
    var db := Replay(ws, ops);
    InvParts(db);
    SignerColumns(db, caller);
    if IsLivePolicy(db.policies, id) && HasDraft(db.policies[id]) {
      var v := db.policies[id].versions[|db.policies[id].versions| - 1];
      SealGuard(db, id);
      ScopeRolesKnown(db, id);
      DraftPasses(db, v);
      var db' := db.(policies := db.policies[id := SealedTop(db.policies[id])]);
      UnarmedExactly(db');
      SameUnarmed(db, db');
    }
  }

  lemma SameUnarmed(db: Db, db': Db)
    requires db'.invoices == db.invoices && db'.runs == db.runs
    ensures Unarmed(db') == Unarmed(db)
  {
  }

  lemma ScopeRolesKnown(db: Db, id: PolicyId)
    requires ScopesKnown(db.policies, db.roles) && id in db.policies && |db.policies[id].versions| > 0
    ensures forall k | k in db.policies[id].versions[|db.policies[id].versions| - 1].scopes.roles :: k in db.roles
  {
  }

  lemma DraftPasses(db: Db, v: Version)
    requires forall k | k in v.scopes.roles :: k in db.roles
    ensures DraftRefusal(db, v).None? <==>
      && !HasEmptyCondition(v.tree)
      && (forall c | c in Everywhere(v.tree) && c.kind == Approval ::
            c.role.Some? && c.role.value != "" && IsLive(db, c.role.value))
      && (forall k | k in v.scopes.roles :: IsLive(db, k))
      && (forall c | c in Everywhere(v.tree) && c.delegate.Some? && c.delegate.value in db.members ::
            MaySign(db, c.delegate.value))
  {
    hide HasEmptyCondition, Everywhere, PublishRefusal;
    PublishableExactly(v.tree, LiveKeys(db.roles));
    assert forall k | k in v.scopes.roles :: IsLive(db, k) <==> db.roles[k].live;
  }

  /**
   A publish makes the draft the one active version, sealed, with its own steps and scopes; the policy's other
   versions only stop being active, no other policy changes, and each invoice waiting to be armed gets its run on
   top of those it had.
   */
  lemma PublishStores(db: Db, caller: UserId, id: PolicyId)
    requires PublishPolicy(db, caller, id).Ok?
    ensures id in db.policies && db.policies[id].versions != []
    ensures var db' := PublishPolicy(db, caller, id).db;
      var p, top := db.policies[id], |db.policies[id].versions| - 1;
      && db'.policies.Keys == db.policies.Keys
      && (forall q | q in db.policies && q != id :: db'.policies[q] == db.policies[q])
      && db'.policies[id] == p.(versions := db'.policies[id].versions) && |db'.policies[id].versions| == |p.versions|
      && db'.policies[id].versions[top] == Version(true, true, p.versions[top].tree, p.versions[top].scopes)
      && (forall n | 0 <= n < top :: db'.policies[id].versions[n] == p.versions[n].(active := false))
      && forall i :: RunsOf(db'.runs, i) == RunsOf(db.runs, i) + NewRuns(db, db'.policies, i)
  {
    hide PublishPolicy, CatchAllLast, SealedTop, DraftRefusal, Backlog, Unarmed, NewRuns, Swept;
    PublishForm(db, caller, id);
    SealedColumns(db.policies[id]);
    SweptRuns(db, db.policies[id := SealedTop(db.policies[id])]);
  }

  lemma SweptRuns(db: Db, ps': Policies)
    ensures forall i :: RunsOf(Swept(db.(policies := ps')), i) == RunsOf(db.runs, i) + NewRuns(db, ps', i)
  {
    hide ArmedRuns, Backlog;
    var db1 := db.(policies := ps');
    UnarmedExactly(db1);
    SameUnarmed(db, db1);
    forall i ensures RunsOf(Swept(db1), i) == RunsOf(db.runs, i) + NewRuns(db, ps', i) {
      assert RunsOf(db.runs, i) + [] == RunsOf(db.runs, i);
    }
  }

  // ---- Creating ----

  predicate AnyLive(ps: Policies) {
    exists q | q in ps :: ps[q].live
  }

  lemma InsertGuard(ps: Policies, id: PolicyId, top: int, sc: Scopes)
    requires PositionsDistinct(ps) && CatchAllLast(ps) && id !in ps && forall q | q in ps :: ps[q].position < top
    requires forall q | q in ps :: |ps[q].versions| > 0
    ensures CatchAllLast(Inserted(ps, id, top, Policy(top, true, [Version(false, false, [], sc)])))
       <==> (Narrows(sc) ==> AnyLive(ps))
  {
    hide PositionsDistinct, Scoped, LastPolicy, ActiveIndex, Narrows, IsLastInForce, IsLastLive;
    var p := Policy(top, true, [Version(false, false, [], sc)]);
    var ps' := Inserted(ps, id, top, p);
    NeverActive(sc);
    TopNarrows(p);
    match LastPolicy(ps) {
      case None =>
        assert !AnyLive(ps) by {
          assert forall q | q in ps && ps[q].live :: q in LiveIds(ps);
        }
        FirstInserted(ps, ps', id, p);
      case Some(last) =>
        forall q | q in ps'
          ensures IsLastLive(ps', q) ==> q == last && !ScopedTop(ps'[q])
          ensures IsLastInForce(ps', q) ==> q != id && !ScopedActive(ps'[q])
        {
          InsertedAbove(ps, ps', id, last, q);
        }
        assert AnyLive(ps);
    }
  }

  lemma NeverActive(sc: Scopes)
    ensures ActiveIndex([Version(false, false, [], sc)]).None?
  {
    NoneActive([Version(false, false, [], sc)]);
  }

  lemma FirstInserted(ps: Policies, ps': Policies, id: PolicyId, p: Policy)
    requires id !in ps && !AnyLive(ps) && p.live && |p.versions| > 0 && ActiveIndex(p.versions).None?
    requires ps'.Keys == ps.Keys + {id} && ps'[id].live && ps'[id].versions == p.versions
    requires forall q | q in ps :: ps'[q] == ps[q]
    ensures forall q | q in ps' :: !IsLastInForce(ps', q) && (IsLastLive(ps', q) <==> q == id)
  {
    hide ActiveIndex;
  }

  lemma InsertedAbove(ps: Policies, ps': Policies, id: PolicyId, last: PolicyId, q: PolicyId)
    requires IsLast(ps, last) && CatchAllLast(ps) && id !in ps && ps'.Keys == ps.Keys + {id} && q in ps'
    requires forall x | x in ps :: |ps[x].versions| > 0 && ps[x].position < ps'[last].position
    requires forall x | x in ps && x != last :: ps'[x] == ps[x]
    requires ps'[last].live && ps'[last].versions == ps[last].versions
    requires ps'[id].position == ps[last].position && ActiveIndex(ps'[id].versions).None?
    ensures IsLastLive(ps', q) ==> q == last && !ScopedTop(ps'[q])
    ensures IsLastInForce(ps', q) ==> q != id && !ScopedActive(ps'[q])
  {
    hide ActiveIndex, Scoped, IsLastLive, IsLastInForce;
    assert forall x | x in ps && ps[x].live :: ps[x].position <= ps[last].position;
    if IsLastLive(ps', q) {
      OnlyLastIsLast(ps, ps', id, last, q);
    }
    if IsLastInForce(ps', q) {
      LastStaysLast(ps, ps', id, last, q);
    }
  }

  lemma OnlyLastIsLast(ps: Policies, ps': Policies, id: PolicyId, last: PolicyId, q: PolicyId)
    requires LivePolicy(ps, last) && id !in ps && ps'.Keys == ps.Keys + {id}
    requires forall x | x in ps && ps[x].live :: ps[x].position <= ps[last].position
    requires forall x | x in ps :: |ps[x].versions| > 0 && ps[x].position < ps'[last].position
    requires forall x | x in ps && x != last :: ps'[x] == ps[x]
    requires ps'[last].live && ps'[last].versions == ps[last].versions && ps'[id].position == ps[last].position
    requires IsLastLive(ps', q)
    ensures q == last && IsLastLive(ps, last)
  {
    assert ps'[last].position <= ps'[q].position;
  }

  lemma LastStaysLast(ps: Policies, ps': Policies, id: PolicyId, last: PolicyId, q: PolicyId)
    requires LivePolicy(ps, last) && id !in ps && ps'.Keys == ps.Keys + {id}
    requires forall x | x in ps && ps[x].live :: ps[x].position <= ps[last].position
    requires forall x | x in ps :: ps[x].position < ps'[last].position
    requires forall x | x in ps && x != last :: ps'[x] == ps[x]
    requires ps'[last].live && ps'[last].versions == ps[last].versions && ActiveIndex(ps'[id].versions).None?
    requires IsLastInForce(ps', q)
    ensures q != id && IsLastInForce(ps, q)
  {
    hide ActiveIndex;
    forall x | x in ps && InForcePolicy(ps, x) ensures ps[x].position <= ps[q].position {
      assert InForcePolicy(ps', x);
    }
  }

  /**
   A policy is created exactly when its scopes are well formed and resolve, an active admin asks, its id and the
   position offered are new, and it narrows nothing unless some policy is live already.
   */
  lemma {:induction false} CreateExactly(ws: Workspace, ops: seq<Op>, caller: UserId, id: PolicyId, top: int,
                                         scopes: Option<Scopes>)
    ensures var db := Replay(ws, ops);
      var sc := ScopesKept([], scopes);
      CreatePolicy(db, caller, id, top, scopes).Ok? <==>
        && WellFormed(sc) && IsAdmin(db, caller) && Resolves(db, sc, []) && id !in db.policies && top >= 1
        && (forall q | q in db.policies :: db.policies[q].position < top)
        && (Narrows(sc) ==> AnyLive(db.policies))
  {
    hide Replay, Inv, CatchAllLast, ScopesKnown, InvoiceOk, PositionsDistinct, Inserted, History, AnyLive;
    hide ResolveRefusal, ScopesRefusal, ActiveAdmin, WellFormed, Resolves, Narrows, IsAdmin;
    Reachable(ws, ops);
    var db, sc := Replay(ws, ops), ScopesKept([], scopes);
    InvParts(db);
    SignerColumns(db, caller);
    ShapeExactly(sc);
    ResolvesExactly(db, sc, []);
    if id !in db.policies && forall q | q in db.policies :: db.policies[q].position < top {
      forall q | q in db.policies ensures |db.policies[q].versions| > 0 {
        DraftInactive(db.policies[q]);
      }
      InsertGuard(db.policies, id, top, sc);
    }
  }

  /**
   The new policy is live and has one version: unsealed, not active, without steps, and with the scopes given or
   none. Of the other policies only the position of the last live one changes, which the new one takes.
   */
  lemma CreateStores(db: Db, caller: UserId, id: PolicyId, top: int, scopes: Option<Scopes>)
    requires CreatePolicy(db, caller, id, top, scopes).Ok?
    ensures var ps, ps' := db.policies, CreatePolicy(db, caller, id, top, scopes).db.policies;
      && id !in ps && ps'.Keys == ps.Keys + {id}
      && ps'[id].live && ps'[id].versions == [Version(false, false, [], ScopesKept([], scopes))]
      && forall q | q in ps ::
        && ps'[q].live == ps[q].live && ps'[q].versions == ps[q].versions
        && if IsLast(ps, q) then ps'[q].position == top && ps'[id].position == ps[q].position else ps'[q] == ps[q]
  {
    hide CatchAllLast, ResolveRefusal, ScopesRefusal, ActiveAdmin, LastPolicy;
    forall q | q in db.policies && IsLast(db.policies, q) ensures LastPolicy(db.policies) == Some(q) {
      PolicyOrder.LastUnique(db.policies, q);
    }
  }

  // ---- What was submitted is what runs ----

  /**
   Save a draft and publish it: whatever happens afterwards, every run opened on that version, of any invoice, reads
   as the compile of the submitted steps at the total it was armed on, and the version keeps the submitted scopes.
   */
  lemma {:induction false} SubmittedIsWhatRuns(ws: Workspace, ops: seq<Op>, caller: UserId, id: PolicyId,
                                               scopes: Option<Scopes>, tree: seq<Step>, publisher: UserId,
                                               more: seq<Op>, i: InvoiceId, k: nat)
    requires var db := Replay(ws, ops);
      && PutDraft(db, caller, id, scopes, tree).Ok?
      && PublishPolicy(PutDraft(db, caller, id, scopes, tree).db, publisher, id).Ok? && id in db.policies
    requires var all := ops + [OpPutDraft(caller, id, scopes, tree), OpPublishPolicy(publisher, id)] + more;
      var rs := RunsOf(Replay(ws, all).runs, i);
      k < |rs| && rs[k].policy == id && rs[k].number == DraftAt(Replay(ws, ops).policies[id].versions)
    ensures var all := ops + [OpPutDraft(caller, id, scopes, tree), OpPublishPolicy(publisher, id)] + more;
      var vs := Replay(ws, ops).policies[id].versions;
      var r := RunsOf(Replay(ws, all).runs, i)[k];
      && Plan(r.steps) == Interpret(tree, r.facts.total)
      && id in Replay(ws, all).policies && DraftAt(vs) < |Replay(ws, all).policies[id].versions|
      && Replay(ws, all).policies[id].versions[DraftAt(vs)].tree == tree
      && Replay(ws, all).policies[id].versions[DraftAt(vs)].scopes == ScopesKept(vs, scopes)
  {
    hide Replay, PutDraft, PublishPolicy, Interpret, WellShaped;
    var db, at := Replay(ws, ops), DraftAt(Replay(ws, ops).policies[id].versions);
    var put, publish := OpPutDraft(caller, id, scopes, tree), OpPublishPolicy(publisher, id);
    var both := ops + [put, publish];
    var all := both + more;
    PutDraftStores(ws, ops, caller, id, scopes, tree);
    PublishStores(PutDraft(db, caller, id, scopes, tree).db, publisher, id);
    TwoMore(ws, ops, put, publish);
    assert all[..|both|] == both;
    Histories.SealedNeverChanges(ws, all, |both|, id, at);
    Guarantees.RunShape(ws, all, i, k);
  }

  lemma {:induction false} TwoMore(ws: Workspace, ops: seq<Op>, put: Op, publish: Op)
    requires put.OpPutDraft? && publish.OpPublishPolicy?
    requires var r := PutDraft(Replay(ws, ops), put.caller, put.id, put.scopes, put.tree);
      r.Ok? && PublishPolicy(r.db, publish.caller, publish.id).Ok?
    ensures var db1 := PutDraft(Replay(ws, ops), put.caller, put.id, put.scopes, put.tree).db;
      Replay(ws, ops + [put, publish]) == PublishPolicy(db1, publish.caller, publish.id).db
  {
    hide PutDraft, PublishPolicy, Replay, After;
    OneMore(ws, ops, put);
    OneMore(ws, ops + [put], publish);
    assert (ops + [put]) + [publish] == ops + [put, publish];
    Applies(Replay(ws, ops), put);
    Applies(After(Replay(ws, ops), put), publish);
  }

  lemma Applies(db: Db, op: Op)
    ensures op.OpPutDraft? && PutDraft(db, op.caller, op.id, op.scopes, op.tree).Ok? ==>
              After(db, op) == PutDraft(db, op.caller, op.id, op.scopes, op.tree).db
    ensures op.OpPublishPolicy? && PublishPolicy(db, op.caller, op.id).Ok? ==>
              After(db, op) == PublishPolicy(db, op.caller, op.id).db
  {
    hide PutDraft, PublishPolicy;
  }
}
