/**
 One workspace's tables, and the reads the approval engine makes of them.
 A deleted policy or role keeps its row; runs are kept per invoice in opening order;
 version number n of a policy is versions[n - 1].
 */
module Database {
  import opened Domain
  import opened StepTree
  import opened Matching
  import opened Runs

  datatype Access = Admin | Reviewer | Preparer

  datatype Standing = Invited | Active | Suspended | Removed

  /** `joined` is when the person last joined. */
  datatype Member = Member(standing: Standing, access: Access, allClients: bool, clients: set<Entity>, joined: int)

  datatype Role = Role(live: bool, staff: seq<UserId>)

  datatype Version = Version(isSealed: bool, active: bool, tree: seq<Step>, scopes: Scopes)

  datatype Policy = Policy(position: int, live: bool, versions: seq<Version>)

  datatype Status = Draft | Validated | Queued | Submitted | Accepted | Refused | Failed

  /** `creator` is absent when no person created the invoice. */
  datatype Invoice = Invoice(status: Status, facts: Facts, creator: Option<UserId>)

  type Members = map<UserId, Member>
  type Roles = map<Key, Role>
  type Policies = map<PolicyId, Policy>
  type Invoices = map<InvoiceId, Invoice>
  type RunTable = map<InvoiceId, seq<Run>>

  /** What the engine reads but never writes: the workspace kind, its clients so far, the currency list. */
  datatype Workspace = Workspace(firm: bool, entities: set<Entity>, currencies: set<string>)

  datatype Db = Db(ws: Workspace, members: Members, roles: Roles, policies: Policies, invoices: Invoices,
                   runs: RunTable)

  // ---- Members and roles ----

  predicate IsApprover(m: Member) {
    m.standing == Active && m.access != Preparer
  }

  predicate ActiveApprover(members: Members, u: UserId) {
    u in members && IsApprover(members[u])
  }

  predicate ActiveAdmin(members: Members, u: UserId) {
    u in members && members[u].standing == Active && members[u].access == Admin
  }

  predicate ActiveMember(members: Members, u: UserId) {
    u in members && members[u].standing == Active
  }

  predicate LiveRole(roles: Roles, key: Key) {
    key in roles && roles[key].live
  }

  function LiveKeys(roles: Roles): set<Key> {
    set k | k in roles && roles[k].live
  }

  predicate Staffed(roles: Roles, key: Key, u: UserId) {
    LiveRole(roles, key) && u in roles[key].staff
  }

  /** The one "may sign for the role" predicate: staffed in the live role, active, admin or reviewer. */
  predicate Holds(members: Members, roles: Roles, key: Key, u: UserId) {
    Staffed(roles, key, u) && ActiveApprover(members, u)
  }

  predicate Signed(members: Members, roles: Roles, key: Key) {
    LiveRole(roles, key) && exists u | u in roles[key].staff :: Holds(members, roles, key, u)
  }

  /** The live roles the invoice's creator is staffed in, whatever the creator's standing. */
  function CreatorRoles(roles: Roles, creator: Option<UserId>): set<Key> {
    set k | k in roles && creator.Some? && Staffed(roles, k, creator.value)
  }

  // ---- Policies ----

  /** The number of the active version, counted from zero. */
  function ActiveIndex(versions: seq<Version>): (n: Option<nat>)
    ensures n.Some? ==> n.value < |versions| && versions[n.value].active
  {
    if versions == [] then None
    else if versions[|versions| - 1].active then Some(|versions| - 1)
    else ActiveIndex(versions[..|versions| - 1])
  }

  predicate LivePolicy(ps: Policies, id: PolicyId) {
    id in ps && ps[id].live
  }

  predicate InForcePolicy(ps: Policies, id: PolicyId) {
    LivePolicy(ps, id) && ActiveIndex(ps[id].versions).Some?
  }

  function ActiveVersion(ps: Policies, id: PolicyId): Version
    requires InForcePolicy(ps, id)
  {
    ps[id].versions[ActiveIndex(ps[id].versions).value]
  }

  predicate AnyInForce(ps: Policies) {
    exists id | id in ps :: InForcePolicy(ps, id)
  }

  /** The gate's question: is any version active, whatever became of its policy. */
  predicate AnyActive(ps: Policies) {
    exists id | id in ps :: ActiveIndex(ps[id].versions).Some?
  }

  predicate HasDraft(p: Policy) {
    |p.versions| > 0 && !p.versions[|p.versions| - 1].isSealed
  }

  /** Position order, as every ordered read sorts it. */
  predicate Precedes(ps: Policies, a: PolicyId, b: PolicyId)
    requires a in ps && b in ps
  {
    ps[a].position < ps[b].position || (ps[a].position == ps[b].position && a < b)
  }

  predicate ScopedTop(p: Policy) {
    |p.versions| > 0 && Scoped(p.versions[|p.versions| - 1].scopes)
  }

  predicate ScopedActive(p: Policy) {
    ActiveIndex(p.versions).Some? && Scoped(p.versions[ActiveIndex(p.versions).value].scopes)
  }

  /** A live policy has a scoped top or active version. */
  predicate ScopedLive(ps: Policies) {
    exists id | id in ps :: ps[id].live && (ScopedTop(ps[id]) || ScopedActive(ps[id]))
  }

  predicate IsLastLive(ps: Policies, id: PolicyId) {
    LivePolicy(ps, id) && |ps[id].versions| > 0
    && forall q | q in ps && ps[q].live && |ps[q].versions| > 0 :: ps[q].position <= ps[id].position
  }

  predicate IsLastInForce(ps: Policies, id: PolicyId) {
    InForcePolicy(ps, id) && forall q | q in ps && InForcePolicy(ps, q) :: ps[q].position <= ps[id].position
  }

  /** The last live policy's top version, and the last one in force's active version, carry no scope. */
  predicate CatchAllLast(ps: Policies) {
    && (forall id | id in ps :: IsLastLive(ps, id) ==> !ScopedTop(ps[id]))
    && (forall id | id in ps :: IsLastInForce(ps, id) ==> !ScopedActive(ps[id]))
  }

  predicate Candidate(ps: Policies, facts: Facts, creatorRoles: set<Key>, id: PolicyId) {
    InForcePolicy(ps, id) && Applies(facts, creatorRoles, ActiveVersion(ps, id).scopes)
  }

  ghost predicate IsFirstMatch(ps: Policies, facts: Facts, creatorRoles: set<Key>, id: PolicyId) {
    && Candidate(ps, facts, creatorRoles, id)
    && forall q | q in ps && Candidate(ps, facts, creatorRoles, q) :: q == id || Precedes(ps, id, q)
  }

  /** The policy an invoice is armed with. */
  ghost function MatchedPolicy(ps: Policies, facts: Facts, creatorRoles: set<Key>): (m: Option<PolicyId>)
    ensures m.Some? ==> IsFirstMatch(ps, facts, creatorRoles, m.value)
  {
    if exists id :: IsFirstMatch(ps, facts, creatorRoles, id)
    then var id :| IsFirstMatch(ps, facts, creatorRoles, id); Some(id)
    else None
  }

  lemma FirstMatchUnique(ps: Policies, facts: Facts, creatorRoles: set<Key>, id: PolicyId)
    requires IsFirstMatch(ps, facts, creatorRoles, id)
    ensures MatchedPolicy(ps, facts, creatorRoles) == Some(id)
  {
  }

  /** A set of policies has a least one in position order. */
  lemma {:induction false} LeastExists(ps: Policies, s: set<PolicyId>) returns (m: PolicyId)
    requires s != {} && forall x | x in s :: x in ps
    ensures m in s && forall x | x in s :: x == m || Precedes(ps, m, x)
    decreases |s|
  {
    m :| m in s;
    if s != {m} {
      var rest := s - {m};
      assert s == rest + {m};
      var n := LeastExists(ps, rest);
      if Precedes(ps, n, m) {
        m := n;
      }
    }
  }

  /** Something is armed exactly when some version in force applies. */
  lemma MatchExists(ps: Policies, facts: Facts, creatorRoles: set<Key>)
    ensures MatchedPolicy(ps, facts, creatorRoles).Some? <==> exists id :: Candidate(ps, facts, creatorRoles, id)
  {
    if id :| Candidate(ps, facts, creatorRoles, id) {
      var s := set q | q in ps && Candidate(ps, facts, creatorRoles, q);
      assert id in s;
      var m := LeastExists(ps, s);
      assert IsFirstMatch(ps, facts, creatorRoles, m);
    }
  }

  lemma {:induction false} GreatestExists(ps: Policies, s: set<PolicyId>) returns (m: PolicyId)
    requires s != {} && forall x | x in s :: x in ps
    ensures m in s && forall x | x in s :: x == m || Precedes(ps, x, m)
    decreases |s|
  {
    m :| m in s;
    if s != {m} {
      var rest := s - {m};
      assert s == rest + {m};
      var n := GreatestExists(ps, rest);
      if Precedes(ps, m, n) {
        m := n;
      }
    }
  }

  function LiveIds(ps: Policies): set<PolicyId> {
    set id | id in ps && ps[id].live
  }

  ghost predicate IsLast(ps: Policies, id: PolicyId) {
    LivePolicy(ps, id) && forall q | q in ps && ps[q].live :: q == id || Precedes(ps, q, id)
  }

  /** The live policy last in position order. */
  ghost function LastPolicy(ps: Policies): (m: Option<PolicyId>)
    ensures m.Some? ==> IsLast(ps, m.value)
    ensures m.None? ==> LiveIds(ps) == {}
  {
    if LiveIds(ps) == {} then None
    else
      assert exists id :: IsLast(ps, id) by {
        var m := GreatestExists(ps, LiveIds(ps));
        assert IsLast(ps, m);
      }
      var id :| IsLast(ps, id);
      Some(id)
  }

  ghost predicate IsLeast(ps: Policies, s: set<PolicyId>, m: PolicyId)
    requires forall x | x in s :: x in ps
  {
    m in s && forall x | x in s :: x == m || Precedes(ps, m, x)
  }

  ghost function Least(ps: Policies, s: set<PolicyId>): (m: PolicyId)
    requires s != {} && forall x | x in s :: x in ps
    ensures IsLeast(ps, s, m)
  {
    assert exists m :: IsLeast(ps, s, m) by {
      var m := LeastExists(ps, s);
      assert IsLeast(ps, s, m);
    }
    var m :| IsLeast(ps, s, m);
    m
  }

  /** Policies from a set, in position order. */
  ghost function InOrderOf(ps: Policies, s: set<PolicyId>): (ids: seq<PolicyId>)
    requires forall x | x in s :: x in ps
    ensures |ids| == |s|
    decreases |s|
  {
    if s == {} then [] else
      var m := Least(ps, s);
      assert |s| == |s - {m}| + 1;
      [m] + InOrderOf(ps, s - {m})
  }

  ghost predicate Ordered(ps: Policies, ids: seq<PolicyId>) {
    && (forall id | id in ids :: id in ps)
    && forall i, j | 0 <= i < j < |ids| :: Precedes(ps, ids[i], ids[j])
  }

  /** The ordered read lists exactly the set, each once, in position order. */
  lemma {:induction false} InOrderExact(ps: Policies, s: set<PolicyId>)
    requires forall x | x in s :: x in ps
    ensures Ordered(ps, InOrderOf(ps, s))
    ensures forall x :: x in InOrderOf(ps, s) <==> x in s
    decreases |s|
  {
    if s != {} {
      var m := Least(ps, s);
      var rest := InOrderOf(ps, s - {m});
      assert |s| == |s - {m}| + 1;
      InOrderExact(ps, s - {m});
      var ids := InOrderOf(ps, s);
      assert ids == [m] + rest;
      forall i, j | 0 <= i < j < |ids| ensures Precedes(ps, ids[i], ids[j]) {
        assert ids[j] == rest[j - 1] && rest[j - 1] in rest;
        if i > 0 {
          assert ids[i] == rest[i - 1];
        }
      }
    }
  }

  /** The live policies in position order. */
  ghost function LiveOrder(ps: Policies): seq<PolicyId> {
    InOrderOf(ps, LiveIds(ps))
  }

  // ---- Runs ----

  function RunsOf(runs: RunTable, i: InvoiceId): seq<Run> {
    if i in runs then runs[i] else []
  }

  function Newest(runs: RunTable, i: InvoiceId): Option<Run> {
    var rs := RunsOf(runs, i);
    if rs == [] then None else Some(rs[|rs| - 1])
  }

  predicate HasLive(runs: RunTable, i: InvoiceId) {
    exists r | r in RunsOf(runs, i) :: Live(r)
  }

  predicate HasApproved(runs: RunTable, i: InvoiceId) {
    exists r | r in RunsOf(runs, i) :: r.state == Approved
  }

  predicate WaitsFor(r: Run, key: Key) {
    r.state == Open && exists s | s in r.steps :: Waiting(s) && s.c.role == Some(key)
  }

  /** A validated invoice whose open run waits on the role. */
  predicate WaitsOnRole(db: Db, i: InvoiceId, key: Key) {
    i in db.invoices && db.invoices[i].status == Validated && exists r | r in RunsOf(db.runs, i) :: WaitsFor(r, key)
  }

  /** The invoices waiting on a live role. */
  function WaitingInvoices(db: Db, key: Key): set<InvoiceId> {
    if LiveRole(db.roles, key) then set i | i in db.invoices && WaitsOnRole(db, i, key) else {}
  }

  /** The run arming an invoice would open: none when no version in force applies. */
  ghost function ArmedRuns(ps: Policies, roles: Roles, inv: Invoice): (rs: seq<Run>)
    ensures |rs| <= 1
  {
    var m := MatchedPolicy(ps, inv.facts, CreatorRoles(roles, inv.creator));
    if m.None? then []
    else
      var v := ActiveVersion(ps, m.value);
      [NewRun(m.value, ActiveIndex(ps[m.value].versions).value, inv.facts, Interpret(v.tree, inv.facts.total))]
  }

  function CancelAll(rs: seq<Run>): seq<Run> {
    seq(|rs|, k requires 0 <= k < |rs| => CancelRun(rs[k]))
  }

  // ---- The transmit gate ----

  function TransmitClear(policyActive: bool, approvedRun: bool): bool {
    !policyActive || approvedRun
  }

  predicate Clear(db: Db, i: InvoiceId) {
    TransmitClear(AnyActive(db.policies), HasApproved(db.runs, i))
  }

  // ---- The creator rung ----

  /** Another active approver who reaches the invoice's client. */
  predicate OtherApprover(db: Db, i: InvoiceId, subject: UserId, u: UserId)
    requires i in db.invoices
  {
    && u != subject && ActiveApprover(db.members, u)
    && (var m := db.members[u];
        !db.ws.firm || m.access == Admin || m.allClients || db.invoices[i].facts.entity in m.clients)
  }

  predicate AnyOtherApprover(db: Db, i: InvoiceId, subject: UserId)
    requires i in db.invoices
  {
    exists u | u in db.members :: OtherApprover(db, i, subject, u)
  }

  predicate IsCreator(db: Db, i: InvoiceId, subject: UserId)
    requires i in db.invoices
  {
    db.invoices[i].creator == Some(subject)
  }

  // ---- Delegation ----

  predicate DelegateMayDecide(c: Content, subject: UserId) {
    c.allow && (c.delegate.None? || c.delegate.value == subject)
  }

  predicate HoldsStep(db: Db, c: Content, subject: UserId) {
    c.role.Some? && Holds(db.members, db.roles, c.role.value, subject)
  }
}
