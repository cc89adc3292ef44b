/**
 What a history never takes back: sealed versions, run rows and their ledgers, minted keys;
 and where every ledger row came from.
 */
module Histories {
  import opened Domain
  import opened Matching
  import opened Runs
  import opened Database
  import opened Operations
  import opened Invariants
  import RoleKey

  // ---- Runs only grow ----

  /**
   A run keeps its version, facts and steps; its ledger is only appended to; once closed without approval it is
   frozen.
   */
  ghost predicate RunGrows(r: Run, r': Run) {
    && r'.policy == r.policy && r'.number == r.number && r'.facts == r.facts && Plan(r'.steps) == Plan(r.steps)
    && r.ledger <= r'.ledger
    && (!Live(r) ==> r' == r)
    && (r.state == Approved ==> r' == r || r' == r.(state := Cancelled))
  }

  ghost predicate RowsGrow(rs: seq<Run>, rs': seq<Run>) {
    |rs| <= |rs'| && forall k | 0 <= k < |rs| :: RunGrows(rs[k], rs'[k])
  }

  /** Nothing recorded is lost or rewritten. */
  ghost predicate Grows(db: Db, db': Db) {
    && PoliciesGrow(db.policies, db'.policies)
    && db.roles.Keys <= db'.roles.Keys
    && (forall i | i in db.invoices :: i in db'.invoices && db'.invoices[i].creator == db.invoices[i].creator)
    && (forall i | i in db.runs :: i in db'.runs && RowsGrow(db.runs[i], db'.runs[i]))
  }

  lemma RowsSame(rs: seq<Run>, more: seq<Run>)
    ensures RowsGrow(rs, rs) && RowsGrow(rs, rs + more)
  {
  }

  lemma CancelGrows(rs: seq<Run>)
    ensures RowsGrow(rs, CancelAll(rs))
  {
    assert forall k | 0 <= k < |rs| :: Plan(CancelRun(rs[k]).steps) == Plan(rs[k].steps);
  }

  lemma DecideGrows(r: Run, verdict: Verdict, actor: UserId, asDelegate: bool, selfApproved: bool)
    requires r.state == Open && FirstWaiting(r.steps).Some?
    ensures RunGrows(r, DecideRun(r, verdict, actor, asDelegate, selfApproved))
  {
    var r' := DecideRun(r, verdict, actor, asDelegate, selfApproved);
    assert Plan(r'.steps) == Plan(r.steps);
  }

  lemma RowsTransitive(a: seq<Run>, b: seq<Run>, c: seq<Run>)
    requires RowsGrow(a, b) && RowsGrow(b, c)
    ensures RowsGrow(a, c)
  {
    forall k | 0 <= k < |a| ensures RunGrows(a[k], c[k]) {
      assert RunGrows(a[k], b[k]) && RunGrows(b[k], c[k]);
    }
  }

  lemma GrowsTransitive(a: Db, b: Db, c: Db)
    requires Grows(a, b) && Grows(b, c)
    ensures Grows(a, c)
  {
    forall id | id in a.policies ensures id in c.policies && KeepsSealed(a.policies[id], c.policies[id]) {
      assert KeepsSealed(a.policies[id], b.policies[id]) && KeepsSealed(b.policies[id], c.policies[id]);
    }
    hide RowsGrow, KeepsSealed;
    forall i | i in a.runs ensures i in c.runs && RowsGrow(a.runs[i], c.runs[i]) {
      assert i in b.runs;
      RowsTransitive(a.runs[i], b.runs[i], c.runs[i]);
    }
  }

  lemma NothingLost(db: Db)
    ensures Grows(db, db)
  {
    forall i | i in db.runs ensures RowsGrow(db.runs[i], db.runs[i]) {
      RowsSame(db.runs[i], []);
    }
  }

  // ---- Each operation ----

  lemma PolicyOpGrows(db: Db, op: Op)
    requires Inv(db) && PolicyOp(op) && Apply(db, op).Ok?
    ensures PoliciesGrow(db.policies, After(db, op).policies)
  {
    hide Inv, PoliciesGrow, CreatePolicy, PutDraft, DeletePolicy, ReorderPolicies;
    hide CreateRole, DeleteRole, SetRoleMembers, Join, SetStanding, SetAccess, RemoveMember, DeleteAccount, SetClients;
    hide AddClient, PublishPolicy, CreateInvoice, Promote, EditInvoice, TransitionInvoice, RequeueFailed, Decide;
    match op {
      case OpCreatePolicy(caller, id, top, scopes) => CreateGrows(db, caller, id, top, scopes);
      case OpPutDraft(caller, id, scopes, tree) => PutDraftGrows(db, caller, id, scopes, tree);
      case OpDeletePolicy(caller, id) => DeleteGrows(db, caller, id);
      case OpReorderPolicies(caller, order) => ReorderGrows(db, caller, order);
    }
  }

  lemma CreateGrows(db: Db, caller: UserId, id: PolicyId, top: int, scopes: Option<Scopes>)
    requires Inv(db) && CreatePolicy(db, caller, id, top, scopes).Ok?
    ensures PoliciesGrow(db.policies, CreatePolicy(db, caller, id, top, scopes).db.policies)
  {
    hide Inv, CreatePolicy, Inserted, CatchAllLast, History, PositionsDistinct;
    InvParts(db);
    var sc := CreateForm(db, caller, id, top, scopes);
    InsertedShape(db.policies, id, top, Policy(top, true, [Version(false, false, [], sc)]));
  }

  lemma PutDraftGrows(db: Db, caller: UserId, id: PolicyId, scopes: Option<Scopes>, tree: seq<Step>)
    requires Inv(db) && PutDraft(db, caller, id, scopes, tree).Ok?
    ensures PoliciesGrow(db.policies, PutDraft(db, caller, id, scopes, tree).db.policies)
  {
    hide Inv, PutDraft, Redrafted, CatchAllLast, History;
    InvParts(db);
    var sc := PutDraftForm(db, caller, id, scopes, tree);
    RedraftKeeps(db.policies[id], tree, sc);
  }

  lemma DeleteGrows(db: Db, caller: UserId, id: PolicyId)
    requires Inv(db) && DeletePolicy(db, caller, id).Ok?
    ensures PoliciesGrow(db.policies, DeletePolicy(db, caller, id).db.policies)
  {
    hide Inv, DeletePolicy, History;
    InvParts(db);
    DeletedForm(db, caller, id);
    DeactivateKeeps(db.policies[id]);
  }

  lemma ReorderGrows(db: Db, caller: UserId, ids: seq<PolicyId>)
    requires Inv(db) && ReorderPolicies(db, caller, ids).Ok?
    ensures PoliciesGrow(db.policies, ReorderPolicies(db, caller, ids).db.policies)
  {
    hide Inv, ReorderPolicies, Reordered, CatchAllLast, LiveOrder, LiveIds, PositionsDistinct, History;
    InvParts(db);
    ReorderForm(db, caller, ids);
    ReorderedShape(db.policies, ids);
    SamePoliciesGrow(db.policies, Reordered(db.policies, ids));
    SamePoliciesGrow(db.policies, db.policies);
  }

  lemma SamePoliciesGrow(ps: Policies, ps': Policies)
    requires forall q | q in ps :: q in ps' && ps'[q].versions == ps[q].versions
    ensures PoliciesGrow(ps, ps')
  {
  }

  lemma SweptGrows(db: Db)
    requires db.runs.Keys == db.invoices.Keys
    ensures forall i | i in db.runs :: i in Swept(db) && RowsGrow(db.runs[i], Swept(db)[i])
  {
    hide RowsGrow, ArmedRuns;
    forall i | i in db.runs ensures i in Swept(db) && RowsGrow(db.runs[i], Swept(db)[i]) {
      RowsSame(db.runs[i], ArmedRuns(db.policies, db.roles, db.invoices[i]));
      RowsSame(db.runs[i], []);
    }
  }

  lemma PublishGrows(db: Db, caller: UserId, id: PolicyId)
    requires Inv(db) && PublishPolicy(db, caller, id).Ok?
    ensures Grows(db, PublishPolicy(db, caller, id).db)
  {
    hide Inv, PublishPolicy, SealedTop, PoliciesGrow, CatchAllLast, RowsGrow, Swept, Backlog;
    hide PoliciesOk, ScopesKnown, InForceRolesLive, AnyInForce, DraftRefusal, InvoiceOk, PositionsDistinct, History;
    InvParts(db);
    SealedPolicies(db, caller, id);
    PublishForm(db, caller, id);
    SweptGrows(db.(policies := db.policies[id := SealedTop(db.policies[id])]));
  }

  lemma RolesGrow(db: Db, op: Op)
    requires PeopleOp(op)
    ensures db.roles.Keys <= After(db, op).roles.Keys
  {
    hide Join, SetStanding, SetAccess, SetClients, AddClient;
    hide CreatePolicy, PutDraft, PublishPolicy, DeletePolicy, ReorderPolicies;
    hide CreateInvoice, Promote, EditInvoice, TransitionInvoice, RequeueFailed, Decide;
    hide LastActiveAdminIs, Signed, WaitingInvoices, RoleKey.Minted, NamedInForce, Departs;
  }

  /** Only the rows of one invoice change, and only its runs grow. */
  ghost predicate InvoiceOnly(db: Db, db': Db, i: InvoiceId) {
    && db' == db.(invoices := db'.invoices, runs := db'.runs)
    && i in db'.invoices && db'.invoices == db.invoices[i := db'.invoices[i]]
    && i in db'.runs && db'.runs == db.runs[i := db'.runs[i]]
    && (i in db.invoices ==> db'.invoices[i].creator == db.invoices[i].creator)
    && (i in db.runs ==> RowsGrow(db.runs[i], db'.runs[i]))
  }

  lemma InvoiceOnlyGrows(db: Db, db': Db, i: InvoiceId)
    requires InvoiceOnly(db, db', i)
    ensures Grows(db, db')
  {
    NothingLost(db);
    hide RowsGrow;
    assert PoliciesGrow(db.policies, db'.policies);
  }

  lemma PromoteForm(db: Db, i: InvoiceId)
    requires Promote(db, i).Ok?
    ensures InvoiceOnly(db, Promote(db, i).db, i)
  {
    hide ArmedRuns, RowsGrow;
    RowsSame(RunsOf(db.runs, i), ArmedRuns(db.policies, db.roles, db.invoices[i]));
  }

  lemma EditForm(db: Db, i: InvoiceId, facts: Facts, other: bool)
    requires EditInvoice(db, i, facts, other).Ok? && db.runs.Keys == db.invoices.Keys
    ensures InvoiceOnly(db, EditInvoice(db, i, facts, other).db, i)
  {
    hide CancelAll, RowsGrow;
    RowsSame(db.runs[i], []);
    CancelGrows(db.runs[i]);
    assert db.runs[i := db.runs[i]] == db.runs && db.invoices[i := db.invoices[i]] == db.invoices;
  }

  lemma RequeueForm(db: Db, i: InvoiceId, resendable: bool)
    requires RequeueFailed(db, i, resendable).Ok? && db.runs.Keys == db.invoices.Keys
    ensures InvoiceOnly(db, RequeueFailed(db, i, resendable).db, i)
  {
    hide RowsGrow;
    RowsSame(db.runs[i], []);
    assert db.runs[i := db.runs[i]] == db.runs;
  }

  lemma TransitionForm(db: Db, i: InvoiceId, target: Status, rulePending: bool)
    requires TransitionInvoice(db, i, target, rulePending).Ok? && db.runs.Keys == db.invoices.Keys
    ensures InvoiceOnly(db, TransitionInvoice(db, i, target, rulePending).db, i)
  {
    hide CancelAll, RowsGrow, Clear;
    RowsSame(db.runs[i], []);
    CancelGrows(db.runs[i]);
    assert db.runs[i := db.runs[i]] == db.runs;
  }

  lemma InvoiceOpForm(db: Db, op: Op)
    requires Apply(db, op).Ok? && InvoiceOp(op) && db.runs.Keys == db.invoices.Keys
    ensures InvoiceOnly(db, After(db, op), op.i)
  {
    hide RowsGrow, InvoiceOnly, CreateInvoice, Promote, EditInvoice, TransitionInvoice, RequeueFailed, Decide;
    hide CreateRole, DeleteRole, SetRoleMembers, Join, SetStanding, SetAccess, RemoveMember, DeleteAccount, SetClients;
    hide AddClient, CreatePolicy, PutDraft, PublishPolicy, DeletePolicy, ReorderPolicies;
    match op {
      case OpCreateInvoice(i, facts, creator) => NewInvoiceForm(db, i, facts, creator);
      case OpPromote(i) => PromoteForm(db, i);
      case OpEditInvoice(i, facts, other) => EditForm(db, i, facts, other);
      case OpTransitionInvoice(i, target, rulePending) => TransitionForm(db, i, target, rulePending);
      case OpRequeueFailed(i, resendable) => RequeueForm(db, i, resendable);
      case OpDecide(caller, i, verdict, reason) => DecideOpForm(db, caller, i, verdict, reason);
    }
  }

  lemma InvoiceOpGrows(db: Db, op: Op)
    requires Inv(db) && Apply(db, op).Ok? && InvoiceOp(op)
    ensures Grows(db, After(db, op))
  {
    hide Inv, Grows, InvoiceOnly, Apply, After, PositionsDistinct, ScopesKnown, History, InvoiceOk;
    InvParts(db);
    InvoiceOpForm(db, op);
    InvoiceOnlyGrows(db, After(db, op), op.i);
  }

  lemma NewInvoiceForm(db: Db, i: InvoiceId, facts: Facts, creator: Option<UserId>)
    requires CreateInvoice(db, i, facts, creator).Ok?
    ensures InvoiceOnly(db, CreateInvoice(db, i, facts, creator).db, i)
  {
  }

  lemma DecideOpForm(db: Db, caller: UserId, i: InvoiceId, verdict: Verdict, reason: string)
    requires Decide(db, caller, i, verdict, reason).Ok? && db.runs.Keys == db.invoices.Keys
    ensures InvoiceOnly(db, Decide(db, caller, i, verdict, reason).db, i)
  {
    hide Decide, DecideRun, RunGrows;
    DecidesKnown(db, caller, i, verdict, reason);
    var asDelegate, selfApproved := DecideForm(db, caller, i, verdict, reason);
    var rs, last := db.runs[i], |db.runs[i]| - 1;
    DecideGrows(rs[last], verdict, caller, asDelegate, selfApproved);
    OneRowGrows(rs, last, DecideRun(rs[last], verdict, caller, asDelegate, selfApproved));
  }

  lemma OneRowGrows(rs: seq<Run>, k: nat, r: Run)
    requires k < |rs| && RunGrows(rs[k], r)
    ensures RowsGrow(rs, rs[k := r])
  {
  }

  /** No operation loses or rewrites anything recorded. */
  lemma OpGrows(db: Db, op: Op)
    requires Inv(db)
    ensures Grows(db, After(db, op))
  {
    hide Inv, Grows, PoliciesGrow, After, Apply;
    Writes(db, op);
    NothingLost(db);
    if op.OpPublishPolicy? {
      PublishedGrows(db, op);
    } else if Apply(db, op).Ok? && PolicyOp(op) {
      PolicyOpGrows(db, op);
      PoliciesOnly(db, After(db, op).policies);
    } else if Apply(db, op).Ok? && InvoiceOp(op) {
      InvoiceOpGrows(db, op);
    } else if PeopleOp(op) {
      RolesGrow(db, op);
      PeopleOnly(db, After(db, op));
    } else {
      Unchanged(db, op);
      PeopleOnly(db, After(db, op));
    }
  }

  lemma PublishedGrows(db: Db, op: Op)
    requires Inv(db) && op.OpPublishPolicy?
    ensures Grows(db, After(db, op))
  {
    hide Inv, Grows, PublishPolicy;
    NothingLost(db);
    if PublishPolicy(db, op.caller, op.id).Ok? {
      PublishGrows(db, op.caller, op.id);
    }
  }

  /** A refused operation, and one that only adds a client, leave what is recorded as it is. */
  lemma Unchanged(db: Db, op: Op)
    requires Apply(db, op).Err? || op.OpAddClient?
    ensures After(db, op) == db.(ws := After(db, op).ws)
  {
    hide Apply;
    Writes(db, op);
  }

  lemma PoliciesOnly(db: Db, ps': Policies)
    requires PoliciesGrow(db.policies, ps')
    ensures Grows(db, db.(policies := ps'))
  {
    NothingLost(db);
  }

  lemma PeopleOnly(db: Db, db': Db)
    requires db' == db.(ws := db'.ws, members := db'.members, roles := db'.roles) && db.roles.Keys <= db'.roles.Keys
    ensures Grows(db, db')
  {
    NothingLost(db);
  }

  /** Whatever a history has recorded at some point it still holds at its end. */
  lemma {:induction false} HistoryGrows(ws: Workspace, ops: seq<Op>, n: nat)
    requires n <= |ops|
    ensures Grows(Replay(ws, ops[..n]), Replay(ws, ops))
    decreases |ops| - n, |ops|
  {
    if n == |ops| {
      assert ops[..n] == ops;
      NothingLost(Replay(ws, ops));
    } else {
      var front := ops[..|ops| - 1];
      HistoryGrows(ws, front, n);
      assert front[..n] == ops[..n];
      Reachable(ws, front);
      OpGrows(Replay(ws, front), ops[|ops| - 1]);
      GrowsTransitive(Replay(ws, ops[..n]), Replay(ws, front), Replay(ws, ops));
    }
  }

  // ---- Sealed versions ----

  /** Once sealed, a version keeps its number, its steps and its scopes through every later history. */
  lemma SealedNeverChanges(ws: Workspace, ops: seq<Op>, n: nat, id: PolicyId, v: nat)
    requires n <= |ops|
    requires var ps := Replay(ws, ops[..n]).policies; id in ps && v < |ps[id].versions| && ps[id].versions[v].isSealed
    ensures var ps, ps' := Replay(ws, ops[..n]).policies, Replay(ws, ops).policies;
      && id in ps' && v < |ps'[id].versions| && ps'[id].versions[v].isSealed
      && ps'[id].versions[v].tree == ps[id].versions[v].tree
      && ps'[id].versions[v].scopes == ps[id].versions[v].scopes
  {
    HistoryGrows(ws, ops, n);
    hide Replay, RowsGrow;
    assert KeepsSealed(Replay(ws, ops[..n]).policies[id], Replay(ws, ops).policies[id]);
  }

  /** A run row keeps its place; what it decided stays decided, and a refused or cancelled run never moves again. */
  lemma RunsAreKept(ws: Workspace, ops: seq<Op>, n: nat, i: InvoiceId, k: nat)
    requires n <= |ops| && k < |RunsOf(Replay(ws, ops[..n]).runs, i)|
    ensures k < |RunsOf(Replay(ws, ops).runs, i)|
    ensures var r, r' := RunsOf(Replay(ws, ops[..n]).runs, i)[k], RunsOf(Replay(ws, ops).runs, i)[k];
      && r'.facts == r.facts && Plan(r'.steps) == Plan(r.steps) && r.ledger <= r'.ledger
      && (r.state == Rejected || r.state == Cancelled ==> r' == r)
  {
    HistoryGrows(ws, ops, n);
    hide Replay, PoliciesGrow;
    assert RowsGrow(Replay(ws, ops[..n]).runs[i], Replay(ws, ops).runs[i]);
  }

  // ---- Role keys ----

  /** Two creates anywhere in one history never mint the same key, whatever was deleted in between. */
  lemma KeysNeverReused(ws: Workspace, ops: seq<Op>, m: nat, n: nat)
    requires m < n <= |ops| && ops[m].OpCreateRole? && Apply(Replay(ws, ops[..m]), ops[m]).Ok?
    ensures var key := RoleKey.Minted(Replay(ws, ops[..m]).roles.Keys, ops[m].title);
      && RoleKey.IsKey(key) && key !in Replay(ws, ops[..m]).roles && key in Replay(ws, ops[..n]).roles
      && forall title :: RoleKey.Minted(Replay(ws, ops[..n]).roles.Keys, title) != key
  {
    hide Apply, After, RoleKey.Minted, RoleKey.IsKey;
    var before := Replay(ws, ops[..m]);
    RoleKey.MintedKey(before.roles.Keys, ops[m].title);
    var key := RoleKey.Minted(before.roles.Keys, ops[m].title);
    var upto := ops[..n];
    assert upto[..m + 1][..m] == ops[..m] && upto[..m + 1][m] == ops[m];
    assert Replay(ws, upto[..m + 1]) == After(before, ops[m]);
    MintedNow(before, ops[m]);
    HistoryGrows(ws, upto, m + 1);
    var taken := Replay(ws, upto).roles.Keys;
    forall title ensures RoleKey.Minted(taken, title) != key {
      RoleKey.MintedKey(taken, title);
    }
  }

  lemma MintedNow(db: Db, op: Op)
    requires op.OpCreateRole? && Apply(db, op).Ok?
    ensures RoleKey.Minted(db.roles.Keys, op.title) in After(db, op).roles
  {
    hide RoleKey.Minted;
  }

  // ---- The ledger ----

  /** What must hold, at the moment of a decision on step `c`, of the row it writes. */
  ghost predicate Justified(db: Db, i: InvoiceId, c: Content, d: Decision) {
    && i in db.invoices && db.invoices[i].status == Validated && ActiveApprover(db.members, d.actor)
    && (d.asDelegate <==> !HoldsStep(db, c, d.actor))
    && (d.asDelegate ==> DelegateMayDecide(c, d.actor))
    && (d.selfApproved <==> d.verdict == Approve && IsCreator(db, i, d.actor))
    && (d.selfApproved ==> !AnyOtherApprover(db, i, d.actor))
  }

  predicate HasRow(runs: RunTable, i: InvoiceId, k: nat, m: nat) {
    k < |RunsOf(runs, i)| && m < |RunsOf(runs, i)[k].ledger|
  }

  /** A decision writes one row, on the waiting step, justified as it is written. */
  lemma DecideJustified(db: Db, caller: UserId, i: InvoiceId, verdict: Verdict, reason: string)
    returns (asDelegate: bool, selfApproved: bool)
    requires Decide(db, caller, i, verdict, reason).Ok? && i in db.runs
    ensures |db.runs[i]| > 0 && FirstWaiting(db.runs[i][|db.runs[i]| - 1].steps).Some?
    ensures var rs, last := db.runs[i], |db.runs[i]| - 1;
      var at := FirstWaiting(rs[last].steps).value;
      && Decide(db, caller, i, verdict, reason).db.runs
          == db.runs[i := rs[last := DecideRun(rs[last], verdict, caller, asDelegate, selfApproved)]]
      && Justified(db, i, rs[last].steps[at].c, Decision(at, verdict, caller, asDelegate, selfApproved))
  {
    hide DecideRun, FirstWaiting, HoldsStep, AnyOtherApprover;
    var r := db.runs[i][|db.runs[i]| - 1];
    asDelegate := !HoldsStep(db, r.steps[FirstWaiting(r.steps).value].c, caller);
    selfApproved := verdict == Approve && IsCreator(db, i, caller) && !AnyOtherApprover(db, i, caller);
  }

  /** Only a decision adds a ledger row, and the row is justified in the state it was taken in. */
  lemma NewRowJustified(db: Db, op: Op, i: InvoiceId, k: nat, m: nat)
    requires Inv(db) && !HasRow(db.runs, i, k, m) && HasRow(After(db, op).runs, i, k, m)
    ensures var r := RunsOf(After(db, op).runs, i)[k];
      && op.OpDecide? && op.i == i && op.caller == r.ledger[m].actor && op.verdict == r.ledger[m].verdict
      && r.ledger[m].ord < |r.steps| && Justified(db, i, r.steps[r.ledger[m].ord].c, r.ledger[m])
  {
    hide Inv, Decide, Justified, HasRow;
    if !op.OpDecide? {
      NoRowAdded(db, op, i, k, m);
    } else if Apply(db, op).Ok? {
      DecidedRow(db, op.caller, op.i, op.verdict, op.reason, i, k, m);
    }
  }

  lemma DecidedRow(db: Db, caller: UserId, j: InvoiceId, verdict: Verdict, reason: string, i: InvoiceId, k: nat,
                   m: nat)
    requires Inv(db) && Decide(db, caller, j, verdict, reason).Ok?
    requires !HasRow(db.runs, i, k, m) && HasRow(Decide(db, caller, j, verdict, reason).db.runs, i, k, m)
    ensures var r := RunsOf(Decide(db, caller, j, verdict, reason).db.runs, i)[k];
      && j == i && caller == r.ledger[m].actor && verdict == r.ledger[m].verdict
      && r.ledger[m].ord < |r.steps| && Justified(db, i, r.steps[r.ledger[m].ord].c, r.ledger[m])
  {
    hide Inv, Decide, Justified, FirstWaiting, PositionsDistinct, ScopesKnown, History, InvoiceOk;
    InvParts(db);
    DecidesKnown(db, caller, j, verdict, reason);
    var asDelegate, selfApproved := DecideJustified(db, caller, j, verdict, reason);
    var last := |db.runs[j]| - 1;
    assert i == j && k == last && m == |db.runs[j][last].ledger|;
  }

  lemma DecidesKnown(db: Db, caller: UserId, j: InvoiceId, verdict: Verdict, reason: string)
    requires Decide(db, caller, j, verdict, reason).Ok?
    ensures j in db.invoices
  {
    hide DecideRun, DecisionRefusal, FirstWaiting;
  }

  lemma ArmedHasNoRow(ps: Policies, roles: Roles, inv: Invoice, rs: seq<Run>, k: nat)
    requires |rs| <= k < |rs + ArmedRuns(ps, roles, inv)|
    ensures (rs + ArmedRuns(ps, roles, inv))[k].ledger == []
  {
  }

  /** A cancelled run keeps its ledger and a new run starts with an empty one. */
  lemma InvoiceOpAddsNoRow(db: Db, op: Op, i: InvoiceId, k: nat, m: nat)
    requires InvoiceOp(op) && !op.OpDecide? && HasRow(After(db, op).runs, i, k, m)
    ensures HasRow(db.runs, i, k, m)
  {
    hide CreateRole, DeleteRole, SetRoleMembers, Join, SetStanding, SetAccess, RemoveMember, DeleteAccount, SetClients;
    hide AddClient, CreatePolicy, PutDraft, PublishPolicy, DeletePolicy, ReorderPolicies, Decide, ArmedRuns, Clear;
    if op.OpPromote? && i == op.i && k >= |RunsOf(db.runs, i)| {
      ArmedHasNoRow(db.policies, db.roles, db.invoices[i], RunsOf(db.runs, i), k);
    }
  }

  lemma PublishAddsNoRow(db: Db, caller: UserId, id: PolicyId, i: InvoiceId, k: nat, m: nat)
    requires PublishPolicy(db, caller, id).Ok? && HasRow(PublishPolicy(db, caller, id).db.runs, i, k, m)
    ensures HasRow(db.runs, i, k, m)
  {
    PublishForm(db, caller, id);
    var db' := db.(policies := db.policies[id := SealedTop(db.policies[id])]);
    hide PublishPolicy, ArmedRuns, CatchAllLast, SealedTop, DraftRefusal;
    assert i in Swept(db');
    if k >= |RunsOf(db.runs, i)| {
      ArmedHasNoRow(db'.policies, db'.roles, db'.invoices[i], RunsOf(db.runs, i), k);
    }
  }

  /** The other operations add no ledger row. */
  lemma NoRowAdded(db: Db, op: Op, i: InvoiceId, k: nat, m: nat)
    requires Inv(db) && !op.OpDecide? && HasRow(After(db, op).runs, i, k, m)
    ensures HasRow(db.runs, i, k, m)
  {
    hide Inv, PublishPolicy, HasRow;
    if op.OpPublishPolicy? && Apply(db, op).Ok? {
      PublishAddsNoRow(db, op.caller, op.id, i, k, m);
    } else if InvoiceOp(op) {
      InvoiceOpAddsNoRow(db, op, i, k, m);
    } else {
      hide After, Apply;
      Writes(db, op);
    }
  }

  /** The operation that wrote a ledger row, and the state it was taken in. */
  ghost predicate WrittenAt(ws: Workspace, ops: seq<Op>, n: nat, i: InvoiceId, c: Content, d: Decision) {
    && n < |ops| && ops[n].OpDecide? && ops[n].i == i && ops[n].caller == d.actor && ops[n].verdict == d.verdict
    && Justified(Replay(ws, ops[..n]), i, c, d)
  }

  /**
   Every ledger row of every reachable state was written by one decision, taken by an active approver who held
   the step's role or, failing that, was its delegate; it reads self-approved exactly when its actor approved an
   invoice of their own, and then no other active approver reached that client.
   */
  lemma {:induction false} LedgerProvenance(ws: Workspace, ops: seq<Op>, i: InvoiceId, k: nat, m: nat) returns (n: nat)
    requires HasRow(Replay(ws, ops).runs, i, k, m)
    ensures var r := RunsOf(Replay(ws, ops).runs, i)[k];
      r.ledger[m].ord < |r.steps| && WrittenAt(ws, ops, n, i, r.steps[r.ledger[m].ord].c, r.ledger[m])
  {
    hide Inv, Justified, Grows, After;
    var front, op := ops[..|ops| - 1], ops[|ops| - 1];
    var db := Replay(ws, front);
    Reachable(ws, front);
    if HasRow(db.runs, i, k, m) {
      n := LedgerProvenance(ws, front, i, k, m);
      assert front[..n] == ops[..n];
      OpGrows(db, op);
      SameRow(db, After(db, op), i, k, m);
    } else {
      n := |ops| - 1;
      NewRowJustified(db, op, i, k, m);
    }
  }

  lemma SameRow(db: Db, db': Db, i: InvoiceId, k: nat, m: nat)
    requires Grows(db, db') && HasRow(db.runs, i, k, m)
    ensures HasRow(db'.runs, i, k, m)
    ensures var r, r' := RunsOf(db.runs, i)[k], RunsOf(db'.runs, i)[k];
      && r'.ledger[m] == r.ledger[m] && |r'.steps| == |r.steps|
      && forall s | 0 <= s < |r.steps| :: r'.steps[s].c == r.steps[s].c
  {
    hide PoliciesGrow;
    assert RowsGrow(db.runs[i], db'.runs[i]);
    var r, r' := db.runs[i][k], db'.runs[i][k];
    assert |Plan(r.steps)| == |r.steps| && |Plan(r'.steps)| == |r'.steps|;
    assert forall s | 0 <= s < |r.steps| :: Plan(r.steps)[s] == r.steps[s].c && Plan(r'.steps)[s] == r'.steps[s].c;
  }
}
