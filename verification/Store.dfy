/**
 The workspace's tables as the engine's transactions work on them. Each method is one
 transaction, carried out step by step; its contract says which new state it commits, or
 which error leaves the tables as they were.
 */
module ApprovalStore {
  import opened Domain
  import opened StepTree
  import opened Matching
  import opened Runs
  import opened Database
  import opened Operations
  import opened Invariants
  import opened PolicyOrder
  import opened Gate
  import opened Queries
  import RoleKey

  /** A transaction committed what its specification says, or refused and changed nothing. */
  ghost predicate Did(before: Db, after: Db, refused: Option<Error>, spec: Outcome) {
    match spec
    case Ok(db) => refused.None? && after == db
    case Err(e) => refused == Some(e) && after == before
  }

  /** A transaction run on a reachable state reaches a reachable state, so it keeps whatever every history keeps. */
  lemma StaysReachable(ws: Workspace, ops: seq<Op>, op: Op, after: Db, refused: Option<Error>)
    requires Did(Replay(ws, ops), after, refused, Apply(Replay(ws, ops), op))
    ensures after == Replay(ws, ops + [op]) && Inv(after)
  {
    var more := ops + [op];
    assert more[..|more| - 1] == ops;
    Reachable(ws, more);
    hide Apply, Inv;
  }

  class Store {
    var ws: Workspace
    var members: Members
    var roles: Roles
    var policies: Policies
    var invoices: Invoices
    var runs: RunTable

    function Snapshot(): Db
      reads this
    {
      Db(ws, members, roles, policies, invoices, runs)
    }

    constructor (ws: Workspace)
      ensures this.ws == ws && Snapshot() == Empty(ws)
    {
      this.ws := ws;
      members, roles, policies, invoices, runs := map[], map[], map[], map[], map[];
    }

    // ---- Roles ----

    method CreateRole(caller: UserId, title: string) returns (refused: Option<Error>)
      modifies this`roles
      ensures Did(old(Snapshot()), Snapshot(), refused, Operations.CreateRole(old(Snapshot()), caller, title))
    {
      if title == "" {
        return Some(Validation);
      }
      if !ActiveAdmin(members, caller) {
        return Some(NotPermitted);
      }
      var key := RoleKey.NewRoleKey(roles.Keys, title);
      roles := roles[key := Role(true, [])];
      return None;
    }

    method DeleteRole(caller: UserId, key: Key) returns (refused: Option<Error>)
      modifies this`roles
      ensures Did(old(Snapshot()), Snapshot(), refused, Operations.DeleteRole(old(Snapshot()), caller, key))
    {
      if !ActiveAdmin(members, caller) {
        return Some(NotPermitted);
      }
      var inForce := LiveRole(roles, key) && NamedInForce(policies, key);
      var waiting := WaitingInvoices(Snapshot(), key);
      if inForce || waiting != {} {
        return Some(RoleInUse);
      }
      if !LiveRole(roles, key) {
        return Some(NotFound);
      }
      roles := roles[key := roles[key].(live := false)];
      return None;
    }

    /** The waiting invoices of a role none of the candidates signs for, else none. */
    method UnsignedWaitingInvoices(key: Key, candidates: seq<UserId>) returns (waiting: set<InvoiceId>)
      ensures waiting == if exists u | u in candidates :: Database.Holds(members, roles, key, u)
                         then {} else WaitingInvoices(Snapshot(), key)
    {
      waiting := WaitingInvoices(Snapshot(), key);
      if waiting == {} {
        return;
      }
      for k := 0 to |candidates|
        invariant forall j | 0 <= j < k :: !Database.Holds(members, roles, key, candidates[j])
      {
        var held := HeldRoleKeys([key], candidates[k]);
        if key in held {
          return {};
        }
      }
    }

    method SetRoleMembers(caller: UserId, key: Key, ids: seq<UserId>) returns (refused: Option<Error>)
      modifies this`roles
      ensures Did(old(Snapshot()), Snapshot(), refused, Operations.SetRoleMembers(old(Snapshot()), caller, key, ids))
    {
      var seen: set<UserId> := {};
      for k := 0 to |ids|
        invariant seen == (set u | u in ids[..k])
        invariant Distinct(ids[..k])
      {
        if ids[k] in seen {
          assert ids[..k] <= ids;
          return Some(Validation);
        }
        seen := seen + {ids[k]};
        assert ids[..k + 1] == ids[..k] + [ids[k]];
      }
      assert ids[..|ids|] == ids;
      if !ActiveAdmin(members, caller) {
        return Some(NotPermitted);
      }
      if !LiveRole(roles, key) {
        return Some(NotFound);
      }
      if exists u | u in ids :: u !in members || members[u].standing == Removed {
        return Some(Validation);
      }
      var before := roles;
      roles := roles[key := Role(true, ids)];
      var waiting := UnsignedWaitingInvoices(key, ids);
      if waiting != {} {
        roles := before;
        return Some(RoleInUse);
      }
      return None;
    }

    // ---- Signers ----

    /** Which of the keys the subject holds as an active approver. */
    method HeldRoleKeys(keys: seq<Key>, subject: UserId) returns (held: set<Key>)
      ensures held == set k | k in keys && Database.Holds(members, roles, k, subject)
    {
      held := {};
      for n := 0 to |keys|
        invariant held == set k | k in keys[..n] && Database.Holds(members, roles, k, subject)
      {
        assert keys[..n + 1] == keys[..n] + [keys[n]];
        if Database.Holds(members, roles, keys[n], subject) {
          held := held + {keys[n]};
        }
      }
      assert keys[..|keys|] == keys;
    }

    // ---- Policy reads ----

    /** The policy of the set that comes first in position order. */
    method Lowest(s: set<PolicyId>) returns (m: PolicyId)
      requires s != {} && forall x | x in s :: x in policies
      ensures IsLeast(policies, s, m)
    {
      m :| m in s;
      var todo := s - {m};
      while todo != {}
        invariant m in s && todo <= s && m !in todo
        invariant forall x | x in s && x !in todo :: x == m || Precedes(policies, m, x)
        decreases |todo|
      {
        var x :| x in todo;
        todo := todo - {x};
        if Precedes(policies, x, m) {
          m := x;
        }
      }
    }

    /** Policies in position order. */
    method OrderByPosition(s: set<PolicyId>) returns (ids: seq<PolicyId>)
      requires forall x | x in s :: x in policies
      ensures ids == InOrderOf(policies, s)
    {
      ids := [];
      var rest := s;
      while rest != {}
        invariant rest <= s
        invariant ids + InOrderOf(policies, rest) == InOrderOf(policies, s)
        decreases |rest|
      {
        var m := Lowest(rest);
        TakeLeast(policies, rest, m);
        hide IsLeast;
        assert ids + ([m] + InOrderOf(policies, rest - {m})) == (ids + [m]) + InOrderOf(policies, rest - {m});
        ids := ids + [m];
        rest := rest - {m};
      }
    }

    /** The active versions of live policies in position order. */
    method ReadInForce() returns (versions: seq<InForce>)
      ensures ReadsInForce(policies, versions)
    {
      InOrderExact(policies, InForceIds(policies));
      var ids := OrderByPosition(InForceIds(policies));
      versions := [];
      for k := 0 to |ids|
        invariant |versions| == k
        invariant forall j | 0 <= j < k :: InForcePolicy(policies, ids[j]) && versions[j] == InForceOf(policies, ids[j])
      {
        assert ids[k] in ids;
        versions := versions + [InForceOf(policies, ids[k])];
      }
    }

    /** The last live policy in position order. */
    method LastLive() returns (last: Option<PolicyId>)
      ensures last == LastPolicy(policies)
    {
      last := None;
      var todo := LiveIds(policies);
      while todo != {}
        invariant todo <= LiveIds(policies)
        invariant last.Some? ==> last.value in LiveIds(policies)
        invariant last.None? ==> todo == LiveIds(policies)
        invariant last.Some? ==>
          forall x | x in LiveIds(policies) && x !in todo :: x == last.value || Precedes(policies, x, last.value)
        decreases |todo|
      {
        var x :| x in todo;
        todo := todo - {x};
        if last.None? || Precedes(policies, last.value, x) {
          last := Some(x);
        }
      }
      if last.Some? {
        assert forall q | q in policies && policies[q].live :: q in LiveIds(policies);
        LastUnique(policies, last.value);
      }
    }

    // ---- Policy writes ----

    method CreatePolicy(caller: UserId, id: PolicyId, top: int, scopes: Option<Scopes>) returns (refused: Option<Error>)
      modifies this`policies
      ensures Did(old(Snapshot()), Snapshot(), refused,
                  Operations.CreatePolicy(old(Snapshot()), caller, id, top, scopes))
    {
      var sc := if scopes.Some? then scopes.value else CATCH_ALL;
      var shape := ScopesRefusal(sc);
      if shape.Some? {
        return shape;
      }
      if !ActiveAdmin(members, caller) {
        return Some(NotPermitted);
      }
      var unknown := ResolveRefusal(ws, roles, sc, []);
      if unknown.Some? {
        return unknown;
      }
      if id in policies || top < 1 || exists q | q in policies :: policies[q].position >= top {
        return Some(Conflict);
      }
      var before := policies;
      var last := LastLive();
      policies := policies[id := Policy(top, true, [Version(false, false, [], sc)])];
      if last.Some? {
        var position := policies[last.value].position;
        policies := policies[last.value := policies[last.value].(position := top)];
        policies := policies[id := policies[id].(position := position)];
      }
      assert policies == Inserted(before, id, top, Policy(top, true, [Version(false, false, [], sc)]));
      if !CatchAllLast(policies) {
        policies := before;
        return Some(PolicyCatchAll);
      }
      return None;
    }

    method PutDraft(caller: UserId, id: PolicyId, scopes: Option<Scopes>, tree: seq<Step>)
        returns (refused: Option<Error>)
      modifies this`policies
      ensures Did(old(Snapshot()), Snapshot(), refused, Operations.PutDraft(old(Snapshot()), caller, id, scopes, tree))
    {
      hide ValidLane, CatchAllLast, ActiveAdmin, DelegatesAreMembers;
      if scopes.Some? && ScopesRefusal(scopes.value).Some? {
        return ScopesRefusal(scopes.value);
      }
      var valid := CheckLane(tree, false);
      if !valid {
        return Some(Validation);
      }
      if !ActiveAdmin(members, caller) {
        return Some(NotPermitted);
      }
      if !LivePolicy(policies, id) {
        return Some(PolicyNotFound);
      }
      var before := policies;
      var p := policies[id];
      if scopes.Some? {
        var unknown := ResolveRefusal(ws, roles, scopes.value, TopScopes(p).roles);
        if unknown.Some? {
          return unknown;
        }
      }
      if !HasDraft(p) {
        p := p.(versions := p.versions + [Version(false, false, [], TopScopes(p))]);
      }
      var top := |p.versions| - 1;
      if scopes.Some? {
        p := p.(versions := p.versions[top := p.versions[top].(scopes := scopes.value)]);
      }
      p := p.(versions := p.versions[top := p.versions[top].(tree := [])]);
      if !DelegatesAreMembers(members, tree) {
        return Some(PolicyDelegateNotMember);
      }
      p := p.(versions := p.versions[top := p.versions[top].(tree := tree)]);
      policies := policies[id := p];
      ghost var sc := if scopes.Some? then scopes.value else TopScopes(before[id]);
      assert policies == before[id := Redrafted(before[id], tree, sc)] by {
        assert p.versions == Redrafted(before[id], tree, sc).versions;
      }
      if !CatchAllLast(policies) {
        policies := before;
        return Some(PolicyCatchAll);
      }
      return None;
    }

    method DeletePolicy(caller: UserId, id: PolicyId) returns (refused: Option<Error>)
      modifies this`policies
      ensures Did(old(Snapshot()), Snapshot(), refused, Operations.DeletePolicy(old(Snapshot()), caller, id))
    {
      if !ActiveAdmin(members, caller) {
        return Some(NotPermitted);
      }
      if !LivePolicy(policies, id) {
        return Some(PolicyNotFound);
      }
      var before := policies;
      var p := policies[id].(live := false);
      policies := policies[id := p];
      policies := policies[id := p.(versions := Deactivated(p.versions))];
      assert policies == before[id := before[id].(live := false, versions := Deactivated(before[id].versions))];
      var wasLast :=
        p.position > 0 && forall q | q in policies && policies[q].live :: p.position > policies[q].position;
      if wasLast && ScopedLive(policies) {
        policies := before;
        return Some(PolicyCatchAll);
      }
      if !CatchAllLast(policies) {
        policies := before;
        return Some(PolicyCatchAll);
      }
      return None;
    }

    /** Whether no policy is asked for twice, and the set of those asked for. */
    static method Repeats(ids: seq<PolicyId>) returns (distinct: bool, seen: set<PolicyId>)
      ensures distinct <==> Distinct(ids)
      ensures distinct ==> seen == Named(ids)
    {
      seen := {};
      for k := 0 to |ids|
        invariant seen == Named(ids[..k]) && Distinct(ids[..k])
      {
        if ids[k] in seen {
          assert ids[..k] <= ids;
          return false, seen;
        }
        assert ids[..k + 1] == ids[..k] + [ids[k]];
        seen := seen + {ids[k]};
      }
      assert ids[..|ids|] == ids;
      return true, seen;
    }

    static method Covers(seen: set<PolicyId>, ids: seq<PolicyId>) returns (covered: bool)
      ensures covered <==> forall x | x in ids :: x in seen
    {
      for k := 0 to |ids|
        invariant forall j | 0 <= j < k :: ids[j] in seen
      {
        if ids[k] !in seen {
          return false;
        }
      }
      return true;
    }

    method ReorderPolicies(caller: UserId, ids: seq<PolicyId>) returns (refused: Option<Error>)
      modifies this`policies
      ensures Did(old(Snapshot()), Snapshot(), refused, Operations.ReorderPolicies(old(Snapshot()), caller, ids))
    {
      hide CatchAllLast, ScopedLive, InOrderOf, Reordered, ActiveAdmin, Ordered, Distinct;
      var distinct, seen := Repeats(ids);
      if !distinct {
        return Some(Validation);
      }
      if !ActiveAdmin(members, caller) {
        return Some(NotPermitted);
      }
      InOrderExact(policies, LiveIds(policies));
      var oldIds := OrderByPosition(LiveIds(policies));
      if |ids| != |oldIds| {
        return Some(PolicyOrderStale);
      }
      var covered := Covers(seen, oldIds);
      if !covered {
        return Some(PolicyOrderStale);
      }
      if ids == oldIds {
        return None;
      }
      if ids[|ids| - 1] != oldIds[|oldIds| - 1] && ScopedLive(policies) {
        return Some(PolicyCatchAll);
      }
      var before := policies;
      NamesExactly(ids, LiveIds(before));
      WriteOrder(before, ids, oldIds);
      if !CatchAllLast(policies) {
        policies := before;
        return Some(PolicyCatchAll);
      }
      return None;
    }

    /** The k-th requested policy is written the k-th old position. */
    method WriteOrder(before: Policies, ids: seq<PolicyId>, oldIds: seq<PolicyId>)
      requires policies == before && oldIds == LiveOrder(before) && |ids| == |oldIds| && Distinct(ids)
      requires forall x | x in ids :: x in before
      modifies this`policies
      ensures policies == Reordered(before, ids)
    {
      InOrderExact(before, LiveIds(before));
      for k := 0 to |ids|
        invariant policies == ReorderedSoFar(before, oldIds, ids, k)
      {
        assert ids[k] in ids && ids[k] !in ids[..k];
        ReorderStep(before, oldIds, ids, k);
        policies := policies[ids[k] := policies[ids[k]].(position := before[oldIds[k]].position)];
      }
      ReorderEnds(before, ids);
    }

    // ---- Arming ----

    /** The version in force the invoice is armed with: the first, in position order, that applies. */
    method MatchVersion(inv: Invoice) returns (chosen: Option<InForce>)
      ensures var m := MatchedPolicy(policies, inv.facts, CreatorRoles(roles, inv.creator));
        chosen == if m.None? then None else Some(InForceOf(policies, m.value))
    {
      hide ActiveIndex, Applies, MatchedPolicy, CreatorRoles, InOrderOf;
      var versions := ReadInForce();
      var creatorRoles := {};
      if exists v | v in versions :: |v.scopes.roles| > 0 {
        creatorRoles := CreatorRoles(roles, inv.creator);
      }
      ghost var cr := CreatorRoles(roles, inv.creator);
      var at, _ := FirstMatch(inv.facts, creatorRoles, versions);
      SameVerdicts(inv.facts, creatorRoles, cr, versions);
      if at.None? {
        SearchFails(policies, inv.facts, cr, versions);
        return None;
      }
      SearchedInOrder(policies, inv.facts, cr, versions, at.value);
      return Some(versions[at.value]);
    }

    /** Compiles the first matching version for the invoice and opens its run; with no match it opens none. */
    method Arm(i: InvoiceId)
      requires i in invoices
      modifies this`runs
      ensures runs == Appended(old(runs), i, ArmedRuns(policies, roles, invoices[i]))
    {
      hide Interpret, ArmedSteps, Applies, CreatorRoles;
      var inv := invoices[i];
      var chosen := MatchVersion(inv);
      if chosen.None? {
        runs := runs[i := RunsOf(runs, i)];
        assert RunsOf(old(runs), i) + [] == RunsOf(old(runs), i);
        return;
      }
      var v := policies[chosen.value.policy].versions[chosen.value.number];
      var plan, auto := Materialise(v.tree, inv.facts.total);
      var run := Runs.Arm(chosen.value.policy, chosen.value.number, inv.facts, plan, auto);
      runs := runs[i := RunsOf(runs, i) + [run]];
    }

    /** Cancels every live run of the invoice; reports whether any was live. */
    method CancelLiveRun(i: InvoiceId) returns (any: bool)
      modifies this`runs
      ensures runs == old(runs)[i := CancelAll(RunsOf(old(runs), i))]
      ensures any == HasLive(old(runs), i)
    {
      var rs := RunsOf(runs, i);
      var out: seq<Run> := [];
      any := false;
      for k := 0 to |rs|
        invariant |out| == k && forall j | 0 <= j < k :: out[j] == CancelRun(rs[j])
        invariant any <==> exists j :: 0 <= j < k && Live(rs[j])
      {
        if rs[k].state == Open || rs[k].state == Approved {
          out := out + [rs[k].(state := Cancelled)];
          assert Live(rs[k]);
          any := true;
        } else {
          out := out + [rs[k]];
        }
      }
      runs := runs[i := out];
      assert out == CancelAll(rs);
    }

    /** Arms every validated invoice with no live run, in any order, unless there are too many. */
    method SweepValidatedBacklog() returns (refused: Option<Error>)
      modifies this`runs
      ensures |Backlog(old(Snapshot()))| > SWEEP_CAP ==> refused == Some(SweepCapExceeded) && runs == old(runs)
      ensures |Backlog(old(Snapshot()))| <= SWEEP_CAP ==> refused.None? && runs == Swept(old(Snapshot()))
    {
      ghost var db := Snapshot();
      BacklogKnown(db);
      hide Backlog, ArmedRuns, SweptSoFar, Appended, Swept;
      var todo := Backlog(Snapshot());
      if |todo| > SWEEP_CAP {
        return Some(SweepCapExceeded);
      }
      SweepStarts(db);
      assert Backlog(db) - todo == {};
      while todo != {}
        invariant todo <= Backlog(db)
        invariant Snapshot() == db.(runs := SweptSoFar(db, Backlog(db) - todo))
        decreases |todo|
      {
        var i :| i in todo;
        SweepStep(db, Backlog(db) - todo, i);
        assert Backlog(db) - (todo - {i}) == (Backlog(db) - todo) + {i};
        Arm(i);
        todo := todo - {i};
      }
      assert Backlog(db) - {} == Backlog(db);
      SweepEnds(db);
      return None;
    }

    method PublishPolicy(caller: UserId, id: PolicyId) returns (refused: Option<Error>)
      modifies this`policies, this`runs
      ensures Did(old(Snapshot()), Snapshot(), refused, Operations.PublishPolicy(old(Snapshot()), caller, id))
    {
      hide CatchAllLast, Swept, Backlog, ActiveAdmin, IneligibleDelegate;
      if !ActiveAdmin(members, caller) {
        return Some(NotPermitted);
      }
      if !LivePolicy(policies, id) {
        return Some(PolicyNotFound);
      }
      var p := policies[id];
      if !HasDraft(p) {
        return Some(PolicyNothingToPublish);
      }
      var top := |p.versions| - 1;
      var v := p.versions[top];
      var steps := CheckForPublish(v.tree, LiveKeys(roles));
      if steps.Some? {
        return steps;
      }
      if exists k | k in v.scopes.roles :: k in roles && !roles[k].live {
        return Some(PolicyStepRole);
      }
      if IneligibleDelegate(members, v.tree) {
        return Some(PolicyDelegateIneligible);
      }
      var before := policies;
      p := p.(versions := Deactivated(p.versions));
      p := p.(versions := p.versions[top := p.versions[top].(isSealed := true, active := true)]);
      assert p == SealedTop(before[id]);
      policies := policies[id := p];
      if !CatchAllLast(policies) {
        policies := before;
        return Some(PolicyCatchAll);
      }
      refused := SweepValidatedBacklog();
      if refused.Some? {
        policies := before;
      }
    }

    // ---- The invoice steps that arm, cancel and transmit ----

    /** A draft whose checks pass is validated and armed in one transaction. */
    method Promote(i: InvoiceId) returns (refused: Option<Error>)
      modifies this`invoices, this`runs
      ensures Did(old(Snapshot()), Snapshot(), refused, Operations.Promote(old(Snapshot()), i))
    {
      if i !in invoices {
        return Some(NotFound);
      }
      if invoices[i].status != Draft {
        return Some(IllegalTransition);
      }
      invoices := invoices[i := invoices[i].(status := Validated)];
      Arm(i);
      return None;
    }

    /** A content change sends the invoice back to draft and cancels its live run. */
    method EditInvoice(i: InvoiceId, facts: Facts, other: bool) returns (refused: Option<Error>)
      modifies this`invoices, this`runs
      ensures Did(old(Snapshot()), Snapshot(), refused, Operations.EditInvoice(old(Snapshot()), i, facts, other))
    {
      if i !in invoices {
        return Some(NotFound);
      }
      var inv := invoices[i];
      if inv.status != Draft && !CanTransition(inv.status, Draft) {
        return Some(IllegalTransition);
      }
      if inv.facts == facts && !other {
        return None;
      }
      invoices := invoices[i := inv.(status := Draft, facts := facts)];
      if inv.status != Draft {
        var _ := CancelLiveRun(i);
      }
      return None;
    }

    method TransitionInvoice(i: InvoiceId, target: Status, rulePending: bool) returns (refused: Option<Error>)
      modifies this`invoices, this`runs
      ensures Did(old(Snapshot()), Snapshot(), refused,
                  Operations.TransitionInvoice(old(Snapshot()), i, target, rulePending))
    {
      if target == Validated {
        return Some(Conflict);
      }
      if i !in invoices {
        return Some(NotFound);
      }
      var inv := invoices[i];
      if inv.status == target {
        return Some(RedundantTransition);
      }
      if target == Queued && CanTransition(inv.status, target) {
        if rulePending {
          return Some(RuleChangePending);
        }
        var clear := TransmitClear([i]);
        if i !in clear || !clear[i] {
          return Some(AwaitingApproval);
        }
      }
      if !CanTransition(inv.status, target) {
        return Some(IllegalTransition);
      }
      invoices := invoices[i := inv.(status := target)];
      if target == Draft {
        var _ := CancelLiveRun(i);
      }
      return None;
    }

    // ---- Decisions ----

    /** Whether the caller may decide the step, and in what standing. */
    method DecisionStanding(caller: UserId, i: InvoiceId, c: Content, verdict: Verdict)
      returns (refused: Option<Error>, asDelegate: bool, selfApproved: bool)
      requires i in invoices
      ensures refused == DecisionRefusal(Snapshot(), caller, i, c, verdict)
      ensures refused.None? ==> asDelegate == !HoldsStep(Snapshot(), c, caller)
      ensures refused.None? ==>
        (selfApproved <==>
          verdict == Approve && IsCreator(Snapshot(), i, caller) && !AnyOtherApprover(Snapshot(), i, caller))
    {
      hide AnyOtherApprover, IsCreator;
      selfApproved := false;
      if verdict == Approve {
        var probe := [Probe(i, c.role)];
        assert probe[0].invoice == i;
        var standing := CreatorStanding(caller, probe);
        if i in standing && standing[i].otherApprover {
          return Some(CreatorRefused), false, false;
        }
        selfApproved := i in standing;
      }
      var holds := false;
      if c.role.Some? {
        var held := HeldRoleKeys([c.role.value], caller);
        holds := c.role.value in held;
      }
      asDelegate := !holds && DelegateMayDecide(c, caller);
      refused := if !holds && !asDelegate then Some(NotRoleHolder) else None;
    }

    method Decide(caller: UserId, i: InvoiceId, verdict: Verdict, reason: string) returns (refused: Option<Error>)
      modifies this`invoices, this`runs
      ensures Did(old(Snapshot()), Snapshot(), refused, Operations.Decide(old(Snapshot()), caller, i, verdict, reason))
    {
      hide AnyOtherApprover, DecideRun, FirstWaiting, IsCreator, ActiveApprover, HoldsStep, DecisionRefusal;
      if (verdict == Reject && reason == "") || Utf8Size(reason) > MAX_REASON {
        return Some(Validation);
      }
      if !ActiveApprover(members, caller) {
        return Some(NotPermitted);
      }
      if i !in invoices {
        return Some(RunNotFound);
      }
      if invoices[i].status != Validated {
        return Some(NotAwaitingApproval);
      }
      var rs := RunsOf(runs, i);
      if rs == [] {
        return Some(RunNotFound);
      }
      var r := rs[|rs| - 1];
      if r.state != Open {
        return Some(RunClosed);
      }
      var at := FirstPending(r.steps);
      if at.None? {
        return Some(RunClosed);
      }
      var c := r.steps[at.value].c;
      var refusal, asDelegate, selfApproved := DecisionStanding(caller, i, c, verdict);
      if refusal.Some? {
        return refusal;
      }
      CommitDecision(i, at.value, verdict, caller, asDelegate, selfApproved);
      return None;
    }

    /** The lowest waiting step. */
    method FirstPending(steps: seq<RunStep>) returns (at: Option<nat>)
      ensures at == FirstWaiting(steps)
    {
      for k := 0 to |steps|
        invariant forall j | 0 <= j < k :: !Waiting(steps[j])
      {
        if steps[k].c.kind == Approval && steps[k].state == Pending {
          return Some(k);
        }
      }
      return None;
    }

    /** The write half: claim the step, append the ledger row, close or advance the run, demote on a reject. */
    method CommitDecision(i: InvoiceId, at: nat, verdict: Verdict, actor: UserId, asDelegate: bool, selfApproved: bool)
      requires i in invoices && i in runs && |runs[i]| > 0 && FirstWaiting(runs[i][|runs[i]| - 1].steps) == Some(at)
      modifies this`invoices, this`runs
      ensures var rs, last := old(runs)[i], |old(runs)[i]| - 1;
        runs == old(runs)[i := rs[last := DecideRun(rs[last], verdict, actor, asDelegate, selfApproved)]]
      ensures invoices == if verdict == Reject
                          then old(invoices)[i := old(invoices)[i].(status := Draft)]
                          else old(invoices)
    {
      var rs := runs[i];
      var r := rs[|rs| - 1];
      r := r.(steps := r.steps[at := r.steps[at].(state := if verdict == Reject then StepRejected else Satisfied)]);
      r := r.(ledger := r.ledger + [Decision(at, verdict, actor, asDelegate, selfApproved)]);
      if verdict == Approve {
        var still := FirstPending(r.steps);
        if still.None? {
          r := r.(state := Approved);
        } else {
          assert Waiting(r.steps[still.value]);
        }
      } else {
        r := r.(state := Rejected);
      }
      runs := runs[i := rs[|rs| - 1 := r]];
      if verdict == Reject {
        invoices := invoices[i := invoices[i].(status := Draft)];
      }
    }

    /** Whether an approver other than the subject reaches the invoice's client, and whether one in the role does. */
    method OthersReaching(subject: UserId, i: InvoiceId, role: Option<Key>) returns (any: bool, holder: bool)
      requires i in invoices
      ensures any == AnyOtherApprover(Snapshot(), i, subject)
      ensures holder == OtherHolder(Snapshot(), i, subject, role)
    {
      any, holder := false, false;
      var todo := members.Keys;
      while todo != {}
        invariant todo <= members.Keys
        invariant any == exists u | u in members && u !in todo :: OtherApprover(Snapshot(), i, subject, u)
        invariant holder == (role.Some? && exists u | u in members && u !in todo ::
                               OtherApprover(Snapshot(), i, subject, u) && Staffed(roles, role.value, u))
        decreases |todo|
      {
        var u :| u in todo;
        todo := todo - {u};
        if OtherApprover(Snapshot(), i, subject, u) {
          any, holder := true, holder || (role.Some? && Staffed(roles, role.value, u));
        }
      }
    }

    /** The first statement: which of the invoices probed are the subject's own. */
    method OwnProbed(subject: UserId, probes: seq<Probe>) returns (out: map<InvoiceId, Standing>)
      ensures forall i :: i in out <==> Probed(probes, i) && i in invoices && IsCreator(Snapshot(), i, subject)
      ensures forall i | i in out :: out[i] == CreatorOnly
    {
      hide Probed;
      NoneProbed(Snapshot(), probes, subject);
      out := map[];
      for k := 0 to |probes|
        invariant forall i :: i in out <==> Probed(probes[..k], i) && i in invoices && IsCreator(Snapshot(), i, subject)
        invariant forall i | i in out :: out[i] == CreatorOnly
      {
        NextProbed(probes, k);
        var i := probes[k].invoice;
        if i in invoices && invoices[i].creator == Some(subject) {
          out := out[i := CreatorOnly];
        }
      }
    }

    /** Where the subject stands on each invoice probed that is their own; the others are absent. */
    method CreatorStanding(subject: UserId, probes: seq<Probe>) returns (out: map<InvoiceId, Standing>)
      ensures forall i :: i in out <==> Probed(probes, i) && i in invoices && IsCreator(Snapshot(), i, subject)
      ensures forall i | i in out ::
        && out[i].isCreator && out[i].otherApprover == AnyOtherApprover(Snapshot(), i, subject)
        && out[i].otherRoleHolder == HolderProbed(Snapshot(), probes, i, subject)
    {
      hide AnyOtherApprover, OtherHolder, HolderProbed, Probed;
      NoneProbed(Snapshot(), probes, subject);
      out := OwnProbed(subject, probes);
      if |out| == 0 {
        assert forall i :: i !in out;
        return;
      }
      ghost var own := out.Keys;
      for k := 0 to |probes|
        invariant out.Keys == own
        invariant forall i | i in out ::
          && out[i].isCreator
          && out[i].otherApprover == (Probed(probes[..k], i) && AnyOtherApprover(Snapshot(), i, subject))
          && out[i].otherRoleHolder == HolderProbed(Snapshot(), probes[..k], i, subject)
      {
        NextProbed(probes, k);
        NextHolder(Snapshot(), probes, k, subject);
        var p := probes[k];
        if p.invoice in out {
          var any, holder := OthersReaching(subject, p.invoice, p.role);
          if holder {
            HolderIsOther(Snapshot(), p.invoice, subject, p.role);
          }
          if any {
            out := out[p.invoice := Standing(true, true, out[p.invoice].otherRoleHolder || holder)];
          }
        }
      }
    }

    // ---- The gate's reads ----

    /** One answer per invoice found, or per id asked when no version is active. */
    method TransmitClear(ids: seq<InvoiceId>) returns (clear: map<InvoiceId, bool>)
      ensures clear.Keys == set i | i in ids && (i in invoices || !AnyActive(policies))
      ensures forall i | i in clear :: clear[i] == Clear(Snapshot(), i)
    {
      clear := map[];
      var active := AnyActive(policies);
      for k := 0 to |ids|
        invariant clear.Keys == set i | i in ids[..k] && (i in invoices || !active)
        invariant forall i | i in clear :: clear[i] == Clear(Snapshot(), i)
      {
        assert ids[..k + 1] == ids[..k] + [ids[k]];
        if !active {
          clear := clear[ids[k] := Database.TransmitClear(active, false)];
        } else if ids[k] in invoices {
          clear := clear[ids[k] := Database.TransmitClear(active, HasApproved(runs, ids[k]))];
        }
      }
      assert ids[..|ids|] == ids;
    }

    /** One invoice's gate standing for the subject. */
    method GateFacts(i: InvoiceId, subject: UserId) returns (facts: Gate.GateFacts)
      ensures facts == GateFactsOf(Snapshot(), i, subject)
    {
      facts := Gate.GateFacts(AnyActive(policies), false, None, None, None, false, false);
      var rs := RunsOf(runs, i);
      if rs == [] {
        return;
      }
      var r := rs[|rs| - 1];
      facts := facts.(runState := Some(r.state), approvedRun := HasApproved(runs, i));
      var at := FirstPending(r.steps);
      if at.None? {
        return;
      }
      var c := r.steps[at.value].c;
      facts := facts.(pending := at, role := c.role, delegate := DelegateMayDecide(c, subject));
      if c.role.Some? {
        var held := HeldRoleKeys([c.role.value], subject);
        facts := facts.(holds := c.role.value in held);
      }
    }

    /** The first pass of the list: the newest run of each invoice that has one, and where it waits. */
    method NewestRuns(ids: seq<InvoiceId>)
        returns (facts: map<InvoiceId, Gate.RowFacts>, pending: seq<(InvoiceId, nat)>)
      ensures facts.Keys == set i | i in ids && RunsOf(runs, i) != []
      ensures forall i | i in facts :: facts[i] == Unsettled(runs, i)
      ensures forall p | p in pending :: p.0 in facts && WaitsAt(runs, p.0) == Some(p.1)
      ensures forall i | i in facts && WaitsAt(runs, i).Some? :: (i, WaitsAt(runs, i).value) in pending
    {
      hide FirstWaiting, WaitsAt, Unsettled;
      facts, pending := map[], [];
      for k := 0 to |ids|
        invariant facts.Keys == set i | i in ids[..k] && RunsOf(runs, i) != []
        invariant forall i | i in facts :: facts[i] == Unsettled(runs, i)
        invariant forall p | p in pending :: p.0 in facts && WaitsAt(runs, p.0) == Some(p.1)
        invariant forall i | i in facts && WaitsAt(runs, i).Some? :: (i, WaitsAt(runs, i).value) in pending
      {
        assert ids[..k + 1] == ids[..k] + [ids[k]];
        assert forall i :: i in ids[..k + 1] <==> i in ids[..k] || i == ids[k];
        var rs := RunsOf(runs, ids[k]);
        if rs != [] {
          var r := rs[|rs| - 1];
          UnsettledRow(runs, ids[k]);
          facts := facts[ids[k] := Gate.RowFacts(r.state, None, None, false, false, None)];
          var at := FirstPending(r.steps);
          if at.Some? {
            pending := pending + [(ids[k], at.value)];
            assert (ids[k], at.value) in pending;
          }
        }
      }
      assert ids[..|ids|] == ids;
    }

    /** One row of the second pass. */
    method SettleRow(i: InvoiceId, at: nat) returns (row: Gate.RowFacts)
      requires RunsOf(runs, i) != [] && WaitsAt(runs, i) == Some(at)
      ensures RowFactsOf(Snapshot(), i) == Some(row)
    {
      var r := Newest(runs, i).value;
      var c := r.steps[at].c;
      row := Gate.RowFacts(r.state, Some(at), None, false, c.allow, c.delegate);
      if c.role.Some? {
        var res := ResolveRole(c.role.value);
        row := row.(role := c.role, warn := !res.Signs?);
      }
    }

    /** The second pass of the list: each waiting step settles its invoice's row. */
    method SettleRows(newest: map<InvoiceId, Gate.RowFacts>, pending: seq<(InvoiceId, nat)>)
      returns (facts: map<InvoiceId, Gate.RowFacts>)
      requires forall p | p in pending :: p.0 in newest && RunsOf(runs, p.0) != [] && WaitsAt(runs, p.0) == Some(p.1)
      ensures facts.Keys == newest.Keys
      ensures forall p | p in pending :: RowFactsOf(Snapshot(), p.0) == Some(facts[p.0])
      ensures forall i | i in facts && (forall p | p in pending :: p.0 != i) :: facts[i] == newest[i]
    {
      hide RowFactsOf, WaitsAt, RunsOf;
      ghost var db := Snapshot();
      facts := newest;
      for k := 0 to |pending|
        invariant facts.Keys == newest.Keys
        invariant forall j | 0 <= j < k ::
          pending[j].0 in facts && RowFactsOf(db, pending[j].0) == Some(facts[pending[j].0])
        invariant forall i | i in facts && (forall p | p in pending :: p.0 != i) :: facts[i] == newest[i]
      {
        assert pending[k] in pending;
        var row := SettleRow(pending[k].0, pending[k].1);
        facts := facts[pending[k].0 := row];
      }
    }

    /** The list rows: a pass over the newest runs, then one over their waiting steps. */
    method RowFacts(ids: seq<InvoiceId>) returns (facts: map<InvoiceId, Gate.RowFacts>)
      ensures facts.Keys == set i | i in ids && RowFactsOf(Snapshot(), i).Some?
      ensures forall i | i in facts :: RowFactsOf(Snapshot(), i) == Some(facts[i])
    {
      RowBasics(Snapshot());
      hide RowFactsOf, WaitsAt, Unsettled, RunsOf;
      var newest, pending := NewestRuns(ids);
      facts := SettleRows(newest, pending);
      forall i | i in facts ensures RowFactsOf(Snapshot(), i) == Some(facts[i]) {
        if WaitsAt(runs, i).Some? {
          assert (i, WaitsAt(runs, i).value) in pending;
        } else {
          assert forall p | p in pending :: p.0 != i;
        }
      }
    }

    /** Which person a role resolves to: the first active approver staffed, else the first one staffed. */
    method ResolveRole(key: Key) returns (res: Resolution)
      ensures res == ResolutionOf(Snapshot(), key)
    {
      if !LiveRole(roles, key) {
        return Missing;
      }
      var staff := roles[key].staff;
      if |staff| == 0 {
        return Nobody;
      }
      var active: seq<UserId> := [];
      for k := 0 to |staff|
        invariant active + ActiveOf(members, staff[k..]) == ActiveOf(members, staff)
      {
        assert staff[k..][0] == staff[k] && staff[k..][1..] == staff[k + 1..];
        if ActiveApprover(members, staff[k]) {
          assert active + ([staff[k]] + ActiveOf(members, staff[k + 1..]))
              == (active + [staff[k]]) + ActiveOf(members, staff[k + 1..]);
          active := active + [staff[k]];
        }
      }
      if |active| == 0 {
        return Blocked(staff[0], |staff| - 1);
      }
      return Signs(active[0], |staff| - 1);
    }

    /** The stranded-runs report. */
    method StrandedRuns() returns (lines: set<(InvoiceId, nat, Stranding)>)
      ensures forall i: InvoiceId, k: nat, line: Stranding :: (i, k, line) in lines <==>
                i in runs && k < |runs[i]| && StrandingOf(Snapshot(), i, runs[i][k]) == Some(line)
    {
      lines := {};
      var todo := runs.Keys;
      while todo != {}
        invariant todo <= runs.Keys
        invariant forall i: InvoiceId, k: nat, line: Stranding :: (i, k, line) in lines <==>
                    i in runs && i !in todo && k < |runs[i]| && StrandingOf(Snapshot(), i, runs[i][k]) == Some(line)
        decreases |todo|
      {
        var i :| i in todo;
        var rs := runs[i];
        ghost var before := lines;
        for n := 0 to |rs|
          invariant forall j: InvoiceId, k: nat, line: Stranding :: (j, k, line) in lines <==>
                      (j, k, line) in before || (j == i && k < n && StrandingOf(Snapshot(), i, rs[k]) == Some(line))
        {
          var line := StrandingOf(Snapshot(), i, rs[n]);
          if line.Some? {
            lines := lines + {(i, n, line.value)};
          }
        }
        todo := todo - {i};
      }
    }

    // ---- The last-signer refusal ----

    /** At most `LIST_CAP` of the invoices, each once. */
    method Listed(waiting: set<InvoiceId>, key: Key) returns (refs: seq<(InvoiceId, Key)>)
      ensures |refs| == Capped(|waiting|) && Distinct(refs)
      ensures forall ref | ref in refs :: ref.0 in waiting && ref.1 == key
    {
      refs := [];
      var todo := waiting;
      while todo != {} && |refs| < LIST_CAP
        invariant todo <= waiting && |refs| + |todo| == |waiting| && |refs| <= LIST_CAP && Distinct(refs)
        invariant forall ref | ref in refs :: ref.0 in waiting && ref.0 !in todo && ref.1 == key
        decreases |todo|
      {
        var i :| i in todo;
        refs := refs + [(i, key)];
        todo := todo - {i};
      }
    }

    /** One role's waiting invoices when it has no signer: how many, and the listed ones. */
    method UnsignedRefs(key: Key) returns (refs: seq<(InvoiceId, Key)>, count: nat)
      ensures count == if UnsignedWaiting(Snapshot(), key) then |WaitingInvoices(Snapshot(), key)| else 0
      ensures count == 0 <==> !UnsignedWaiting(Snapshot(), key)
      ensures |refs| == Capped(count) && Distinct(refs)
      ensures forall ref | ref in refs :: ref.0 in WaitingInvoices(Snapshot(), key) && ref.1 == key
    {
      if !LiveRole(roles, key) {
        return [], 0;
      }
      var waiting := UnsignedWaitingInvoices(key, roles[key].staff);
      hide WaitingInvoices, Distinct;
      refs := Listed(waiting, key);
      count := |waiting|;
    }

    /**
     Refuses when a live role among the keys has no signer while an open run waits on it: the count is of all
     the waiting invoices, the list is capped.
     */
    method RefuseUnsignedWaitingRoles(keys: seq<Key>) returns (refusal: Option<InUse>)
      ensures refusal.None? <==> forall k | k in keys :: !UnsignedWaiting(Snapshot(), k)
      ensures refusal.Some? ==>
        && refusal.value.total == UnsignedTotal(Snapshot(), keys)
        && |refusal.value.listed| == Capped(refusal.value.total)
        && (forall ref | ref in refusal.value.listed ::
              ref.1 in keys && UnsignedWaiting(Snapshot(), ref.1) && ref.0 in WaitingInvoices(Snapshot(), ref.1))
        && (Distinct(keys) ==> Distinct(refusal.value.listed))
    {
      hide UnsignedWaiting, WaitingInvoices;
      ghost var db := Snapshot();
      var listed: seq<(InvoiceId, Key)> := [];
      var total := 0;
      for n := 0 to |keys|
        invariant total == UnsignedTotal(db, keys[..n])
        invariant Capped(total) <= |listed| <= total
        invariant total == 0 <==> forall k | k in keys[..n] :: !UnsignedWaiting(db, k)
        invariant forall ref | ref in listed ::
          ref.1 in keys[..n] && UnsignedWaiting(db, ref.1) && ref.0 in WaitingInvoices(db, ref.1)
        invariant Distinct(keys) ==> Distinct(listed)
      {
        assert keys[..n + 1] == keys[..n] + [keys[n]];
        var refs, count := UnsignedRefs(keys[n]);
        if Distinct(keys) {
          DistinctListed(listed, refs, keys, n);
        }
        listed := listed + refs;
        total := total + count;
      }
      assert keys[..|keys|] == keys;
      if total == 0 {
        return None;
      }
      if |listed| > LIST_CAP {
        listed := listed[..LIST_CAP];
      }
      return Some(InUse(listed, total));
    }
  }

  const LIST_CAP := 20

  datatype InUse = InUse(listed: seq<(InvoiceId, Key)>, total: nat)

  function Capped(n: nat): nat {
    if n < LIST_CAP then n else LIST_CAP
  }

  /** Every waiting invoice of every role without a signer, counted once a role. */
  function UnsignedTotal(db: Db, keys: seq<Key>): nat {
    if keys == [] then 0
    else
      var last := keys[|keys| - 1];
      UnsignedTotal(db, keys[..|keys| - 1]) + (if UnsignedWaiting(db, last) then |WaitingInvoices(db, last)| else 0)
  }

  lemma DistinctListed(a: seq<(InvoiceId, Key)>, b: seq<(InvoiceId, Key)>, keys: seq<Key>, n: nat)
    requires Distinct(keys) && n < |keys| && (Distinct(a) && Distinct(b))
    requires forall ref | ref in a :: ref.1 in keys[..n]
    requires forall ref | ref in b :: ref.1 == keys[n]
    ensures Distinct(a + b)
  {
    forall i, j | 0 <= i < |a| && 0 <= j < |b| ensures a[i] != b[j] {
      assert a[i] in a && b[j] in b;
    }
  }

  /** Where the newest run waits. */
  function WaitsAt(runs: RunTable, i: InvoiceId): Option<nat> {
    var newest := Newest(runs, i);
    if newest.None? then None else FirstWaiting(newest.value.steps)
  }

  lemma UnsettledRow(runs: RunTable, i: InvoiceId)
    requires RunsOf(runs, i) != []
    ensures var r := RunsOf(runs, i)[|RunsOf(runs, i)| - 1];
      Unsettled(runs, i) == Gate.RowFacts(r.state, None, None, false, false, None)
          && WaitsAt(runs, i) == FirstWaiting(r.steps)
  {
  }

  /** An invoice has a row when it has a run; with nothing waiting the row is just the run's state. */
  lemma RowBasics(db: Db)
    ensures forall i :: RowFactsOf(db, i).Some? <==> RunsOf(db.runs, i) != []
    ensures forall i | RunsOf(db.runs, i) != [] && WaitsAt(db.runs, i).None? ::
        RowFactsOf(db, i) == Some(Unsettled(db.runs, i))
  {
    hide FirstWaiting, ResolutionOf;
  }

  /** The row of an invoice before its waiting step is looked at. */
  function Unsettled(runs: RunTable, i: InvoiceId): Gate.RowFacts
    requires RunsOf(runs, i) != []
  {
    Gate.RowFacts(Newest(runs, i).value.state, None, None, false, false, None)
  }

  datatype Standing = Standing(isCreator: bool, otherApprover: bool, otherRoleHolder: bool)

  const CreatorOnly := Standing(true, false, false)

  /** One question about a creator: the invoice, and the role its waiting step names. */
  datatype Probe = Probe(invoice: InvoiceId, role: Option<Key>)

  predicate Probed(probes: seq<Probe>, i: InvoiceId) {
    exists p :: p in probes && p.invoice == i
  }

  /** An approver other than the subject who reaches the invoice's client is staffed in the role. */
  predicate OtherHolder(db: Db, i: InvoiceId, subject: UserId, role: Option<Key>)
    requires i in db.invoices
  {
    role.Some? && exists u | u in db.members ::
      OtherApprover(db, i, subject, u) && Staffed(db.roles, role.value, u)
  }

  predicate HolderProbed(db: Db, probes: seq<Probe>, i: InvoiceId, subject: UserId)
    requires i in db.invoices
  {
    exists p :: p in probes && p.invoice == i && OtherHolder(db, i, subject, p.role)
  }

  lemma NextProbed(probes: seq<Probe>, k: nat)
    requires k < |probes|
    ensures forall i :: Probed(probes[..k + 1], i) <==> Probed(probes[..k], i) || i == probes[k].invoice
    ensures forall p :: p in probes[..k + 1] <==> p in probes[..k] || p == probes[k]
  {
    assert probes[..k + 1] == probes[..k] + [probes[k]];
    assert forall p :: p in probes[..k + 1] <==> p in probes[..k] || p == probes[k];
    forall i ensures Probed(probes[..k + 1], i) <==> Probed(probes[..k], i) || i == probes[k].invoice {
      if Probed(probes[..k], i) {
        var p :| p in probes[..k] && p.invoice == i;
        assert p in probes[..k + 1];
      }
      if i == probes[k].invoice {
        assert probes[k] in probes[..k + 1];
      }
    }
  }

  lemma NextHolder(db: Db, probes: seq<Probe>, k: nat, subject: UserId)
    requires k < |probes|
    ensures forall i | i in db.invoices ::
      HolderProbed(db, probes[..k + 1], i, subject) <==>
        || HolderProbed(db, probes[..k], i, subject)
        || (i == probes[k].invoice && OtherHolder(db, i, subject, probes[k].role))
  {
    hide OtherHolder;
    NextProbed(probes, k);
    forall i | i in db.invoices
      ensures HolderProbed(db, probes[..k + 1], i, subject) <==>
                || HolderProbed(db, probes[..k], i, subject)
                || (i == probes[k].invoice && OtherHolder(db, i, subject, probes[k].role))
    {
      if i == probes[k].invoice && OtherHolder(db, i, subject, probes[k].role) {
        assert probes[k] in probes[..k + 1];
      }
      if HolderProbed(db, probes[..k], i, subject) {
        var p :| p in probes[..k] && p.invoice == i && OtherHolder(db, i, subject, p.role);
        assert p in probes[..k + 1];
      }
    }
  }

  lemma NoneProbed(db: Db, probes: seq<Probe>, subject: UserId)
    ensures forall i :: !Probed(probes[..0], i)
    ensures forall i | i in db.invoices :: !HolderProbed(db, probes[..0], i, subject)
    ensures probes[..|probes|] == probes
  {
  }

  lemma HolderIsOther(db: Db, i: InvoiceId, subject: UserId, role: Option<Key>)
    requires i in db.invoices && OtherHolder(db, i, subject, role)
    ensures AnyOtherApprover(db, i, subject)
  {
  }

  /** Leaving the creator's roles unread changes no match when no version is scoped by role. */
  lemma SameVerdicts(facts: Facts, read: set<Key>, roles: set<Key>, versions: seq<InForce>)
    requires read == roles || forall v | v in versions :: |v.scopes.roles| == 0
    ensures forall k | 0 <= k < |versions| ::
        Applies(facts, read, versions[k].scopes) == Applies(facts, roles, versions[k].scopes)
  {
    hide Applies;
    if read != roles {
      forall k | 0 <= k < |versions|
        ensures Applies(facts, read, versions[k].scopes) == Applies(facts, roles, versions[k].scopes)
      {
        assert versions[k] in versions;
        CreatorOnlyMattersToRoles(facts, read, versions[k].scopes);
        CreatorOnlyMattersToRoles(facts, roles, versions[k].scopes);
      }
    }
  }
}
