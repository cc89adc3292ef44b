/**
 What users of the approval engine may rely on in every reachable state.
 */
module Guarantees {
  import opened Domain
  import opened StepTree
  import opened Matching
  import opened Runs
  import opened Database
  import opened Operations
  import opened Invariants
  import opened Gate

  // ---- Runs of an invoice ----

  /** A reachable state, as seen from one invoice. */
  lemma {:induction false} ReachableInvoice(ws: Workspace, ops: seq<Op>, i: InvoiceId)
    requires i in Replay(ws, ops).invoices
    ensures var db := Replay(ws, ops);
      && i in db.runs && InvoiceOk(db.policies, db.roles, db.invoices[i], db.runs[i])
  {
    Reachable(ws, ops);
  }

  /** At most one run of an invoice is live, and it is the newest; a draft invoice has none. */
  lemma {:induction false} OneLiveRun(ws: Workspace, ops: seq<Op>, i: InvoiceId, k: nat)
    requires var rs := RunsOf(Replay(ws, ops).runs, i); k < |rs| && Live(rs[k])
    ensures var db := Replay(ws, ops);
      k == |RunsOf(db.runs, i)| - 1 && i in db.invoices && db.invoices[i].status != Draft
  {
    Reachable(ws, ops);
  }

  /** The gate asks whether some run is approved and the panel shows the newest run: they cannot disagree. */
  lemma {:induction false} ApprovedIsNewest(ws: Workspace, ops: seq<Op>, i: InvoiceId)
    ensures var runs := Replay(ws, ops).runs;
      HasApproved(runs, i) <==> Newest(runs, i).Some? && Newest(runs, i).value.state == Approved
  {
    Reachable(ws, ops);
    var rs := RunsOf(Replay(ws, ops).runs, i);
    hide Inv, Replay;
    if HasApproved(Replay(ws, ops).runs, i) {
      var r :| r in rs && r.state == Approved;
      var k :| 0 <= k < |rs| && rs[k] == r;
      OneLiveRun(ws, ops, i, k);
    } else if rs != [] {
      assert rs[|rs| - 1] in rs;
    }
  }

  /** Some version is active exactly when some live policy is in force: deleting a policy takes its version out. */
  lemma {:induction false} ActiveMeansInForce(ws: Workspace, ops: seq<Op>)
    ensures AnyActive(Replay(ws, ops).policies) <==> AnyInForce(Replay(ws, ops).policies)
  {
    Reachable(ws, ops);
    var ps := Replay(ws, ops).policies;
    forall id | id in ps ensures ActiveIndex(ps[id].versions).Some? ==> ps[id].live {
      ActiveExactly(ps[id]);
    }
  }

  /** With any version in force every validated invoice has exactly one live run, and it is the newest one. */
  lemma {:induction false} ValidatedIsArmed(ws: Workspace, ops: seq<Op>, i: InvoiceId)
    requires var db := Replay(ws, ops);
      i in db.invoices && db.invoices[i].status == Validated && AnyInForce(db.policies)
    ensures var rs := RunsOf(Replay(ws, ops).runs, i);
      |rs| > 0 && forall k | 0 <= k < |rs| :: Live(rs[k]) <==> k == |rs| - 1
  {
    hide Replay, InvoiceOk, AnyInForce;
    ReachableInvoice(ws, ops, i);
    var db := Replay(ws, ops);
    ArmedOnce(db.policies, db.roles, db.invoices[i], db.runs[i]);
  }

  lemma ArmedOnce(ps: Policies, roles: Roles, inv: Invoice, rs: seq<Run>)
    requires InvoiceOk(ps, roles, inv, rs) && inv.status == Validated && AnyInForce(ps)
    ensures |rs| > 0 && forall k | 0 <= k < |rs| :: Live(rs[k]) <==> k == |rs| - 1
  {
    hide RunOk, WaitingRolesLive, AnyInForce, Live;
  }

  /** A validated invoice the gate holds back always has an open run with a step to decide, on a role that exists. */
  lemma {:induction false} BlockedHasSomethingToDecide(ws: Workspace, ops: seq<Op>, i: InvoiceId)
    requires var db := Replay(ws, ops); i in db.invoices && db.invoices[i].status == Validated && !Clear(db, i)
    ensures var db := Replay(ws, ops);
      && Newest(db.runs, i).Some? && Newest(db.runs, i).value.state == Open
      && var steps := Newest(db.runs, i).value.steps;
      && FirstWaiting(steps).Some?
      && var c := steps[FirstWaiting(steps).value].c;
      && c.role.Some? && LiveRole(db.roles, c.role.value)
  {
    hide Replay, ActiveIndex;
    ActiveMeansInForce(ws, ops);
    ValidatedIsArmed(ws, ops, i);
    ApprovedIsNewest(ws, ops, i);
    var rs := RunsOf(Replay(ws, ops).runs, i);
    assert Live(rs[|rs| - 1]);
    var s := OpenRunWaits(ws, ops, i);
  }

  lemma OpenWaitsOnLive(ps: Policies, roles: Roles, inv: Invoice, rs: seq<Run>)
    requires InvoiceOk(ps, roles, inv, rs) && inv.status == Validated && |rs| > 0 && rs[|rs| - 1].state == Open
    ensures WaitingRolesLive(roles, rs[|rs| - 1].steps)
  {
  }

  lemma OpenHasWaiting(ps: Policies, r: Run)
    requires RunOk(ps, r) && r.state == Open
    ensures FirstWaiting(r.steps).Some?
  {
  }

  /** When no version is in force, nothing is held back; otherwise the gate opens exactly on an approved newest run. */
  lemma {:induction false} ClearExactly(ws: Workspace, ops: seq<Op>, i: InvoiceId)
    ensures var db := Replay(ws, ops);
      Clear(db, i) <==>
        !AnyInForce(db.policies) || (Newest(db.runs, i).Some? && Newest(db.runs, i).value.state == Approved)
  {
    ActiveMeansInForce(ws, ops);
    ApprovedIsNewest(ws, ops, i);
  }

  // ---- The shape of runs ----

  /** Every run of every reachable state reads as the compile of a sealed version, and keeps the one shape. */
  lemma {:induction false} RunShape(ws: Workspace, ops: seq<Op>, i: InvoiceId, k: nat)
    requires k < |RunsOf(Replay(ws, ops).runs, i)|
    ensures var db := Replay(ws, ops);
      var r := RunsOf(db.runs, i)[k];
      && WellShaped(r)
      && r.policy in db.policies && r.number < |db.policies[r.policy].versions|
          && db.policies[r.policy].versions[r.number].isSealed
      && Plan(r.steps) == Interpret(db.policies[r.policy].versions[r.number].tree, r.facts.total)
  {
    Reachable(ws, ops);
    var db := Replay(ws, ops);
    assert i in db.invoices && db.runs[i][k] in db.runs[i];
    assert RunOk(db.policies, db.runs[i][k]);
  }

  /** A live run was compiled on the invoice's facts as they are now. */
  lemma {:induction false} LiveRunIsCurrent(ws: Workspace, ops: seq<Op>, i: InvoiceId, k: nat)
    requires i in Replay(ws, ops).invoices
    requires k < |RunsOf(Replay(ws, ops).runs, i)| && Live(RunsOf(Replay(ws, ops).runs, i)[k])
    ensures var db := Replay(ws, ops);
      RunsOf(db.runs, i)[k].facts == db.invoices[i].facts
  {
    ReachableInvoice(ws, ops, i);
    OneLiveRun(ws, ops, i, k);
  }

  /** The ledger of every run holds one row per decided step, in strictly increasing step order. */
  lemma {:induction false} LedgerIsExact(ws: Workspace, ops: seq<Op>, i: InvoiceId, k: nat)
    requires k < |RunsOf(Replay(ws, ops).runs, i)|
    ensures var r := RunsOf(Replay(ws, ops).runs, i)[k];
      && (forall a, b | 0 <= a < b < |r.ledger| :: r.ledger[a].ord < r.ledger[b].ord)
      && (forall a | 0 <= a < |r.ledger| ::
            && r.ledger[a].ord < |r.steps| && Decided(r.steps[r.ledger[a].ord])
            && (r.ledger[a].verdict == Approve <==> r.steps[r.ledger[a].ord].state == Satisfied))
      && (forall s | 0 <= s < |r.steps| && Decided(r.steps[s]) ::
            exists a :: 0 <= a < |r.ledger| && r.ledger[a].ord == s)
  {
    RunShape(ws, ops, i, k);
    hide Replay, WellShaped;
    LedgerExact(RunsOf(Replay(ws, ops).runs, i)[k]);
  }

  // ---- Roles in use ----

  /** Every approval step and every scope role in force names a live role. */
  lemma {:induction false} RolesInForceLive(ws: Workspace, ops: seq<Op>)
    ensures var db := Replay(ws, ops);
      && (forall id, c | InForcePolicy(db.policies, id) && c in Everywhere(ActiveVersion(db.policies, id).tree)
                         && c.kind == Approval ::
            c.role.Some? && LiveRole(db.roles, c.role.value))
      && (forall id, key | InForcePolicy(db.policies, id) && key in ActiveVersion(db.policies, id).scopes.roles ::
            LiveRole(db.roles, key))
  {
    Reachable(ws, ops);
    var db := Replay(ws, ops);
    assert InForceRolesLive(db.policies, db.roles);
    hide Inv, Replay, ActiveIndex, Everywhere;
    forall id, c | InForcePolicy(db.policies, id) && c in Everywhere(ActiveVersion(db.policies, id).tree)
                   && c.kind == Approval
      ensures c.role.Some? && LiveRole(db.roles, c.role.value)
    {
      assert RolesLive(ActiveVersion(db.policies, id), db.roles);
      assert RoleIsLive(c, LiveKeys(db.roles));
    }
    forall id, key | InForcePolicy(db.policies, id) && key in ActiveVersion(db.policies, id).scopes.roles
      ensures LiveRole(db.roles, key)
    {
      assert RolesLive(ActiveVersion(db.policies, id), db.roles);
    }
  }

  /** Every step that a validated invoice's open run waits on, now or later, names a live role. */
  lemma {:induction false} WaitedRolesLive(ws: Workspace, ops: seq<Op>, i: InvoiceId, k: nat, n: nat)
    requires var db := Replay(ws, ops); i in db.invoices && db.invoices[i].status == Validated
    requires k < |RunsOf(Replay(ws, ops).runs, i)| && RunsOf(Replay(ws, ops).runs, i)[k].state == Open
    requires n < |RunsOf(Replay(ws, ops).runs, i)[k].steps| && Waiting(RunsOf(Replay(ws, ops).runs, i)[k].steps[n])
    ensures var db := Replay(ws, ops);
      var c := RunsOf(db.runs, i)[k].steps[n].c;
      c.role.Some? && LiveRole(db.roles, c.role.value)
  {
    OneLiveRun(ws, ops, i, k);
    hide Replay, InvoiceOk, LiveRole;
    ReachableInvoice(ws, ops, i);
    var db := Replay(ws, ops);
    OpenWaitsOnLive(db.policies, db.roles, db.invoices[i], db.runs[i]);
    WaitingStepLive(db.roles, db.runs[i][k].steps, n);
  }

  /** The stranded reason "deleted" never arises: a run strands only for want of a signer. */
  lemma {:induction false} NeverStrandedOnDeleted(ws: Workspace, ops: seq<Op>, i: InvoiceId, k: nat)
    requires k < |RunsOf(Replay(ws, ops).runs, i)|
    ensures var db := Replay(ws, ops);
      var line := StrandingOf(db, i, RunsOf(db.runs, i)[k]);
      line.Some? ==> line.value.reason == NoHolder && line.value.role.Some? && LiveRole(db.roles, line.value.role.value)
                     && forall u :: !Database.Holds(db.members, db.roles, line.value.role.value, u)
  {
    var db := Replay(ws, ops);
    var r := RunsOf(db.runs, i)[k];
    if StrandingOf(db, i, r).Some? {
      OneLiveRun(ws, ops, i, k);
      ReachableInvoice(ws, ops, i);
      hide Replay;
      OpenWaitsOnLive(db.policies, db.roles, db.invoices[i], db.runs[i]);
      var s := r.steps[FirstStranded(db, r.steps).value];
      assert s in r.steps && Waiting(s);
      SigningAgrees(db, s.c.role.value, s);
    }
  }

  /** The step an open run of a validated invoice waits on: it exists and names a live role. */
  lemma {:induction false} OpenRunWaits(ws: Workspace, ops: seq<Op>, i: InvoiceId) returns (s: RunStep)
    requires var db := Replay(ws, ops); i in db.invoices && db.invoices[i].status == Validated
    requires var newest := Newest(Replay(ws, ops).runs, i); newest.Some? && newest.value.state == Open
    ensures var db := Replay(ws, ops);
      var steps := Newest(db.runs, i).value.steps;
      && FirstWaiting(steps).Some? && s == steps[FirstWaiting(steps).value] && Waiting(s)
      && s.c.role.Some? && LiveRole(db.roles, s.c.role.value)
  {
    hide Replay, InvoiceOk, FirstWaiting, LiveRole;
    ReachableInvoice(ws, ops, i);
    var db := Replay(ws, ops);
    s := OpenStep(db.policies, db.roles, db.invoices[i], db.runs[i]);
  }

  lemma OpenStep(ps: Policies, roles: Roles, inv: Invoice, rs: seq<Run>) returns (s: RunStep)
    requires InvoiceOk(ps, roles, inv, rs) && inv.status == Validated && |rs| > 0 && rs[|rs| - 1].state == Open
    ensures var steps := rs[|rs| - 1].steps;
      && FirstWaiting(steps).Some? && s == steps[FirstWaiting(steps).value] && Waiting(s)
      && s.c.role.Some? && LiveRole(roles, s.c.role.value)
  {
    hide RunOk, WaitingRolesLive, AnyInForce;
    var r := rs[|rs| - 1];
    assert r in rs && RunOk(ps, r);
    OpenHasWaiting(ps, r);
    OpenWaitsOnLive(ps, roles, inv, rs);
    s := r.steps[FirstWaiting(r.steps).value];
    WaitingStepLive(roles, r.steps, FirstWaiting(r.steps).value);
  }

  lemma WaitingStepLive(roles: Roles, steps: seq<RunStep>, at: nat)
    requires WaitingRolesLive(roles, steps) && at < |steps| && Waiting(steps[at])
    ensures steps[at].c.role.Some? && LiveRole(roles, steps[at].c.role.value)
  {
    assert steps[at] in steps;
  }

  /**
   Nobody can decide an open run exactly when it is reported as blocking "now" and its waiting step lets
   no active approver stand in: the report alone overstates, because a delegate may still decide.
   */
  lemma {:induction false} StrandedNowExactly(ws: Workspace, ops: seq<Op>, i: InvoiceId)
    requires var db := Replay(ws, ops); i in db.invoices && db.invoices[i].status == Validated
    requires var newest := Newest(Replay(ws, ops).runs, i); newest.Some? && newest.value.state == Open
    ensures var db := Replay(ws, ops);
      var r := Newest(db.runs, i).value;
      && FirstWaiting(r.steps).Some?
      && var c := r.steps[FirstWaiting(r.steps).value].c;
      (forall caller, verdict, reason :: Decide(db, caller, i, verdict, reason).Err?) <==>
        && StrandingOf(db, i, r).Some? && StrandingOf(db, i, r).value.blocksNow
        && (forall u :: ActiveApprover(db.members, u) ==> !DelegateMayDecide(c, u))
  {
    hide Replay, Decide, StrandingOf, StrandedStep, Database.Holds, ActiveApprover, DelegateMayDecide;
    var db := Replay(ws, ops);
    var s := OpenRunWaits(ws, ops, i);
    SigningAgrees(db, s.c.role.value, s);
    StrandingFirst(db, i, Newest(db.runs, i).value);
    UndecidableExactly(db, i, s.c);
  }

  lemma StrandingFirst(db: Db, i: InvoiceId, r: Run)
    requires i in db.invoices && db.invoices[i].status == Validated && r.state == Open && FirstWaiting(r.steps).Some?
    ensures StrandedStep(db, r.steps[FirstWaiting(r.steps).value]) <==>
            StrandingOf(db, i, r).Some? && StrandingOf(db, i, r).value.blocksNow
  {
    if StrandingOf(db, i, r).Some? {
      BlocksNowExactly(db, i, r);
    }
  }

  /** Nobody can decide a waiting step exactly when no active approver holds its role or may stand in. */
  lemma UndecidableExactly(db: Db, i: InvoiceId, c: Content)
    requires i in db.invoices && db.invoices[i].status == Validated
    requires var newest := Newest(db.runs, i);
      newest.Some? && newest.value.state == Open && FirstWaiting(newest.value.steps).Some?
      && newest.value.steps[FirstWaiting(newest.value.steps).value].c == c && c.role.Some?
    ensures (forall caller, verdict, reason :: Decide(db, caller, i, verdict, reason).Err?) <==>
            forall u :: !Database.Holds(db.members, db.roles, c.role.value, u)
                && (ActiveApprover(db.members, u) ==> !DelegateMayDecide(c, u))
  {
    if forall caller, verdict, reason :: Decide(db, caller, i, verdict, reason).Err? {
      forall u
        ensures !Database.Holds(db.members, db.roles, c.role.value, u)
        ensures ActiveApprover(db.members, u) ==> !DelegateMayDecide(c, u)
      {
        assert Decide(db, u, i, Reject, "x").Err?;
        if ActiveApprover(db.members, u) {
          RejectMatchesGate(db, i, u, "x");
        }
      }
    }
  }

  // ---- Policies ----

  /**
   Whenever anything is in force every invoice matches exactly one policy: the lowest one all of whose set
   scopes admit it.
   */
  lemma {:induction false} EveryInvoiceMatches(ws: Workspace, ops: seq<Op>, facts: Facts, creatorRoles: set<Key>)
    requires AnyInForce(Replay(ws, ops).policies)
    ensures var ps := Replay(ws, ops).policies;
      var m := MatchedPolicy(ps, facts, creatorRoles);
      && m.Some? && Candidate(ps, facts, creatorRoles, m.value)
      && forall q | q in ps && Candidate(ps, facts, creatorRoles, q) && q != m.value ::
          ps[m.value].position < ps[q].position
  {
    Reachable(ws, ops);
    var ps := Replay(ws, ops).policies;
    assert CatchAllLast(ps) && PositionsDistinct(ps);
    hide Inv, Replay, CatchAllLast, ActiveIndex;
    SomethingMatches(ps, facts, creatorRoles);
  }

  /** The last live policy's top version, and the last in-force policy's active version, admit every invoice. */
  lemma {:induction false} LastAdmitsEverything(ws: Workspace, ops: seq<Op>, id: PolicyId, facts: Facts,
                                                creatorRoles: set<Key>)
    ensures var ps := Replay(ws, ops).policies;
      && (IsLastLive(ps, id) ==> Applies(facts, creatorRoles, ps[id].versions[|ps[id].versions| - 1].scopes))
      && (IsLastInForce(ps, id) ==> Applies(facts, creatorRoles, ActiveVersion(ps, id).scopes))
  {
    hide Inv, Replay, InForcePolicy, Applies, Scoped, CatchAllLast, ActiveIndex;
    Reachable(ws, ops);
    InvParts(Replay(ws, ops));
    var ps := Replay(ws, ops).policies;
    CatchAllAdmits(ps, id);
    if IsLastLive(ps, id) {
      UnscopedApplies(facts, creatorRoles, ps[id].versions[|ps[id].versions| - 1].scopes);
    }
    if IsLastInForce(ps, id) {
      UnscopedApplies(facts, creatorRoles, ActiveVersion(ps, id).scopes);
    }
  }

  lemma CatchAllAdmits(ps: Policies, id: PolicyId)
    requires CatchAllLast(ps)
    ensures IsLastLive(ps, id) ==> !Scoped(ps[id].versions[|ps[id].versions| - 1].scopes)
    ensures IsLastInForce(ps, id) ==> !Scoped(ActiveVersion(ps, id).scopes)
  {
    hide ActiveIndex, Scoped;
    assert IsLastLive(ps, id) ==> !ScopedTop(ps[id]);
    assert IsLastInForce(ps, id) ==> !ScopedActive(ps[id]);
  }

  lemma UnscopedApplies(facts: Facts, creatorRoles: set<Key>, s: Scopes)
    requires !Scoped(s)
    ensures Applies(facts, creatorRoles, s)
  {
  }

  /**
   Versions 1..n of a policy: only the top one may be a draft, at most one is active, and it is the highest
   sealed one of a live policy.
   */
  lemma {:induction false} VersionHistory(ws: Workspace, ops: seq<Op>, id: PolicyId)
    requires id in Replay(ws, ops).policies
    ensures var p := Replay(ws, ops).policies[id];
      && |p.versions| > 0
      && (forall n | 0 <= n < |p.versions| && !p.versions[n].isSealed :: n == |p.versions| - 1)
      && (forall m, n | 0 <= m < n < |p.versions| :: !(p.versions[m].active && p.versions[n].active))
      && (forall n | 0 <= n < |p.versions| && p.versions[n].active ::
            p.live && p.versions[n].isSealed && forall m | n < m < |p.versions| :: !p.versions[m].isSealed)
      && (p.live && p.versions[0].isSealed ==> InForcePolicy(Replay(ws, ops).policies, id))
  {
    hide Inv, Replay, PositionsDistinct, ScopesKnown, InvoiceOk, CatchAllLast;
    Reachable(ws, ops);
    InvParts(Replay(ws, ops));
    ActiveExactly(Replay(ws, ops).policies[id]);
  }
}
