/**
 One concrete history, and the four rules it shows the system does not have: that sending a
 failed invoice again respects the gate, that an open run means a validated invoice, that a
 role a run waits on keeps a signer whatever becomes of its people, and that nobody can decide
 a step on a role nobody signs.
 */
module Witnesses {
  import opened Domain
  import opened StepTree
  import opened Matching
  import opened Runs
  import opened Database
  import opened Operations
  import opened Gate
  import opened Transmission
  import opened Signers
  import RoleKey

  const WS := Workspace(false, {}, {})
  const FACTS := Facts("commercial_invoice", 0, None, None)
  const FIRST := Member(Active, Admin, true, {}, 0)
  const SECOND := Member(Active, Admin, true, {}, 1)
  const PEOPLE: Members := map[1 := FIRST, 2 := SECOND]

  /** The key minted for the one role, whose only signer is the second member. */
  function ApproverKey(): Key {
    RoleKey.Minted({}, "approver")
  }

  /** An approval by the role, for which any approver may stand in. */
  function Asked(): Content {
    Content(Approval, Some(ApproverKey()), None, None, None, None, None, true, None)
  }

  function Tree(): seq<Step> {
    [Step(Asked(), [], [])]
  }

  /** The one policy: its tree, and whether it is sealed and in force. */
  function OnePolicy(tree: seq<Step>, inForce: bool): Policies {
    map[1 := Policy(1, true, [Version(inForce, inForce, tree, CATCH_ALL)])]
  }

  function OneRole(staff: seq<UserId>): Roles {
    map[ApproverKey() := Role(true, staff)]
  }

  function WaitingRun(): Run {
    Run(1, 0, FACTS, Open, [RunStep(Asked(), Pending)], [])
  }

  function Of(status: Status): Invoice {
    Invoice(status, FACTS, None)
  }

  /** The workspace while only invoice 8 exists and no run does. */
  function Early(members: Members, roles: Roles, ps: Policies, status: Status): Db {
    Db(WS, members, roles, ps, map[8 := Of(status)], map[8 := []])
  }

  /** The workspace once invoice 7 exists as well. */
  function Late(status: Status, rs: seq<Run>): Db {
    Db(WS, PEOPLE, OneRole([2]), OnePolicy(Tree(), true), map[8 := Of(Failed), 7 := Of(status)], map[8 := [], 7 := rs])
  }

  // ---- One operation at a time ----

  lemma {:induction false} Extend(ops: seq<Op>, op: Op, db: Db, db': Db) returns (more: seq<Op>)
    requires Replay(WS, ops) == db && Apply(db, op) == Ok(db')
    ensures Replay(WS, more) == db'
  {
    hide Apply;
    more := ops + [op];
    assert more[..|more| - 1] == ops;
  }

  lemma Joins()
    ensures Join(Empty(WS), 1, Admin, true, {}, 0) == Ok(Db(WS, map[1 := FIRST], map[], map[], map[], map[]))
    ensures Join(Db(WS, map[1 := FIRST], map[], map[], map[], map[]), 2, Admin, true, {}, 1)
         == Ok(Db(WS, PEOPLE, map[], map[], map[], map[]))
  {
  }

  lemma NobodyMatches(creatorRoles: set<Key>)
    ensures MatchedPolicy(map[], FACTS, creatorRoles).None?
  {
    MatchExists(map[], FACTS, creatorRoles);
  }

  lemma ArrivesEarly()
    ensures CreateInvoice(Db(WS, PEOPLE, map[], map[], map[], map[]), 8, FACTS, None)
        == Ok(Early(PEOPLE, map[], map[], Draft))
    ensures Promote(Early(PEOPLE, map[], map[], Draft), 8) == Ok(Early(PEOPLE, map[], map[], Validated))
  {
    hide MatchedPolicy;
    NobodyMatches(CreatorRoles(map[], None));
    assert ArmedRuns(map[], map[], Of(Draft)) == [];
  }

  lemma FailsEarly()
    ensures TransitionInvoice(Early(PEOPLE, map[], map[], Validated), 8, Queued, false)
        == Ok(Early(PEOPLE, map[], map[], Queued))
    ensures TransitionInvoice(Early(PEOPLE, map[], map[], Queued), 8, Failed, false)
        == Ok(Early(PEOPLE, map[], map[], Failed))
  {
  }

  lemma MakesRole()
    ensures CreateRole(Early(PEOPLE, map[], map[], Failed), 1, "approver")
        == Ok(Early(PEOPLE, OneRole([]), map[], Failed))
  {
    var none: Roles := map[];
    assert none.Keys == {};
    assert none[ApproverKey() := Role(true, [])] == OneRole([]);
    hide RoleKey.Minted;
  }

  lemma Staffs()
    ensures SetRoleMembers(Early(PEOPLE, OneRole([]), map[], Failed), 1, ApproverKey(), [2])
         == Ok(Early(PEOPLE, OneRole([2]), map[], Failed))
  {
    hide RoleKey.Minted, ApproverKey;
    var db := Early(PEOPLE, OneRole([2]), map[], Failed);
    assert OneRole([])[ApproverKey() := Role(true, [2])] == OneRole([2]);
    NobodyWaits(OneRole([2]), map[], ApproverKey());
    hide WaitingInvoices, Signed;
    assert !UnsignedWaiting(db, ApproverKey());
  }

  lemma NobodyWaits(roles: Roles, ps: Policies, key: Key)
    ensures WaitingInvoices(Early(PEOPLE, roles, ps, Failed), key) == {}
  {
  }

  lemma Unscoped(tree: seq<Step>, inForce: bool)
    ensures CatchAllLast(OnePolicy(tree, inForce)) && |OnePolicy(tree, inForce)[1].versions| == 1
    ensures ActiveIndex(OnePolicy(tree, inForce)[1].versions) == if inForce then Some(0) else None
  {
    var ps := OnePolicy(tree, inForce);
    assert ps[1].versions[..0] == [];
    assert ActiveIndex(ps[1].versions) == if inForce then Some(0) else None;
    hide ActiveIndex;
    assert forall id | id in ps :: id == 1 && !ScopedTop(ps[id]) && !ScopedActive(ps[id]);
  }

  lemma NoPolicies(id: PolicyId, p: Policy)
    ensures Inserted(map[], id, 1, p) == map[id := p.(position := 1)]
  {
    var none: Policies := map[];
    assert LiveIds(none) == {};
    assert forall q :: !IsLast(none, q);
  }

  lemma Drafts()
    ensures CreatePolicy(Early(PEOPLE, OneRole([2]), map[], Failed), 1, 1, 1, None)
         == Ok(Early(PEOPLE, OneRole([2]), OnePolicy([], false), Failed))
  {
    NoPolicies(1, Policy(1, true, [Version(false, false, [], CATCH_ALL)]));
    Unscoped([], false);
    hide CatchAllLast, Inserted, RoleKey.Minted, ApproverKey;
    assert ScopesRefusal(CATCH_ALL).None?;
  }

  lemma KeyFits()
    ensures ApproverKey() != "" && '\0' !in ApproverKey()
  {
    RoleKey.MintedKey({}, "approver");
  }

  lemma TreeFits()
    ensures ValidTree(Tree()) && Everywhere(Tree()) == {Asked()}
    ensures PublishRefusal(Tree(), {ApproverKey()}).None? && Interpret(Tree(), None) == [Asked()]
  {
    KeyFits();
    hide ApproverKey;
    assert Tree()[1..] == [] && Tree()[0].thn == [] && Tree()[0].els == [];
    assert Everywhere([]) == {} && Interpret([], None) == [];
    assert ValidLane(Tree()[1..], false) && ValidLane([], true);
    assert PublishRefusal([], {ApproverKey()}).None?;
  }

  lemma PutsTree()
    ensures PutDraft(Early(PEOPLE, OneRole([2]), OnePolicy([], false), Failed), 1, 1, None, Tree())
         == Ok(Early(PEOPLE, OneRole([2]), OnePolicy(Tree(), false), Failed))
  {
    TreeFits();
    Unscoped(Tree(), false);
    hide CatchAllLast, ValidTree, Everywhere, ApproverKey, Tree;
    var p := OnePolicy([], false)[1];
    assert Redrafted(p, Tree(), TopScopes(p)).versions == OnePolicy(Tree(), false)[1].versions;
    assert OnePolicy([], false)[1 := Redrafted(p, Tree(), TopScopes(p))] == OnePolicy(Tree(), false);
    assert DelegatesAreMembers(PEOPLE, Tree());
  }

  lemma DraftStands(db: Db)
    requires db.members == PEOPLE && db.roles == OneRole([2])
    ensures DraftRefusal(db, Version(false, false, Tree(), CATCH_ALL)).None?
  {
    TreeFits();
    assert LiveKeys(db.roles) == {ApproverKey()};
    hide PublishRefusal, Everywhere, ApproverKey, Tree;
    assert !IneligibleDelegate(db.members, Tree());
  }

  lemma NothingToSweep(roles: Roles, ps: Policies)
    ensures Backlog(Early(PEOPLE, roles, ps, Failed)) == {}
    ensures Swept(Early(PEOPLE, roles, ps, Failed)) == map[8 := []]
  {
    hide ArmedRuns;
    var db := Early(PEOPLE, roles, ps, Failed);
    assert Backlog(db) == {};
    assert RunsOf(db.runs, 8) + [] == [];
  }

  lemma SealsTree()
    ensures OnePolicy(Tree(), false)[1 := SealedTop(OnePolicy(Tree(), false)[1])] == OnePolicy(Tree(), true)
  {
    hide Tree;
    assert SealedTop(OnePolicy(Tree(), false)[1]).versions == OnePolicy(Tree(), true)[1].versions;
  }

  lemma Publishes()
    ensures PublishPolicy(Early(PEOPLE, OneRole([2]), OnePolicy(Tree(), false), Failed), 1, 1)
         == Ok(Early(PEOPLE, OneRole([2]), OnePolicy(Tree(), true), Failed))
  {
    hide CatchAllLast, DraftRefusal, Backlog, Swept, ApproverKey, Tree, SealedTop, OneRole;
    DraftStands(Early(PEOPLE, OneRole([2]), OnePolicy(Tree(), false), Failed));
    Unscoped(Tree(), true);
    NothingToSweep(OneRole([2]), OnePolicy(Tree(), true));
    SealsTree();
  }

  lemma InForceNow()
    ensures InForcePolicy(OnePolicy(Tree(), true), 1) && AnyInForce(OnePolicy(Tree(), true))
        && AnyActive(OnePolicy(Tree(), true))
    ensures ActiveVersion(OnePolicy(Tree(), true), 1) == Version(true, true, Tree(), CATCH_ALL)
  {
    Unscoped(Tree(), true);
    hide ActiveIndex, Tree;
  }

  lemma ArmsOne(creatorRoles: set<Key>)
    ensures MatchedPolicy(OnePolicy(Tree(), true), FACTS, creatorRoles) == Some(1)
  {
    InForceNow();
    hide InForcePolicy, ActiveVersion, MatchedPolicy, Tree;
    var ps := OnePolicy(Tree(), true);
    assert Candidate(ps, FACTS, creatorRoles, 1);
    assert IsFirstMatch(ps, FACTS, creatorRoles, 1);
    FirstMatchUnique(ps, FACTS, creatorRoles, 1);
  }

  lemma ArmedWaits()
    ensures NewRun(1, 0, FACTS, [Asked()]) == WaitingRun()
  {
    hide ApproverKey;
    var steps := ArmedSteps([Asked()]);
    assert steps == [RunStep(Asked(), Pending)];
    assert Waiting(steps[0]);
  }

  lemma Arrives()
    ensures CreateInvoice(Early(PEOPLE, OneRole([2]), OnePolicy(Tree(), true), Failed), 7, FACTS, None)
        == Ok(Late(Draft, []))
  {
    hide OnePolicy, OneRole, Tree;
  }

  lemma ArmedRunIs()
    ensures ArmedRuns(OnePolicy(Tree(), true), OneRole([2]), Of(Draft)) == [WaitingRun()]
  {
    ArmsOne(CreatorRoles(OneRole([2]), None));
    InForceNow();
    Unscoped(Tree(), true);
    TreeFits();
    ArmedWaits();
    hide MatchedPolicy, ActiveIndex, ActiveVersion, Interpret, NewRun;
    hide ApproverKey, Tree, WaitingRun, CreatorRoles, OneRole;
  }

  lemma Arms()
    ensures Promote(Late(Draft, []), 7) == Ok(Late(Validated, [WaitingRun()]))
  {
    hide ArmedRuns, OnePolicy, OneRole, Tree, ApproverKey, WaitingRun;
    ArmedRunIs();
    assert [] + [WaitingRun()] == [WaitingRun()];
  }

  // ---- The history ----

  lemma {:induction false} FailedAlone() returns (ops: seq<Op>)
    ensures Replay(WS, ops) == Early(PEOPLE, map[], map[], Failed)
  {
    hide CreateRole, DeleteRole, SetRoleMembers, Join, SetStanding, SetAccess, RemoveMember, DeleteAccount, SetClients;
    hide AddClient, CreatePolicy, PutDraft, PublishPolicy, DeletePolicy, ReorderPolicies;
    hide CreateInvoice, Promote, EditInvoice, TransitionInvoice, RequeueFailed, Decide;
    hide Replay, Early;
    Joins();
    ArrivesEarly();
    FailsEarly();
    ops := Started();
    ops := Applied(ops, OpJoin(1, Admin, true, {}, 0), Db(WS, map[1 := FIRST], map[], map[], map[], map[]));
    ops := Applied(ops, OpJoin(2, Admin, true, {}, 1), Db(WS, PEOPLE, map[], map[], map[], map[]));
    ops := Applied(ops, OpCreateInvoice(8, FACTS, None), Early(PEOPLE, map[], map[], Draft));
    ops := Applied(ops, OpPromote(8), Early(PEOPLE, map[], map[], Validated));
    ops := Applied(ops, OpTransitionInvoice(8, Queued, false), Early(PEOPLE, map[], map[], Queued));
    ops := Applied(ops, OpTransitionInvoice(8, Failed, false), Early(PEOPLE, map[], map[], Failed));
  }

  /** Invoice 8 is queued and fails before any policy is published; its workspace then gets one. */
  lemma {:induction false} FailedThenPublished() returns (ops: seq<Op>)
    ensures Replay(WS, ops) == Early(PEOPLE, OneRole([2]), OnePolicy(Tree(), true), Failed)
  {
    hide CreateRole, DeleteRole, SetRoleMembers, Join, SetStanding, SetAccess, RemoveMember, DeleteAccount, SetClients;
    hide AddClient, CreatePolicy, PutDraft, PublishPolicy, DeletePolicy, ReorderPolicies;
    hide CreateInvoice, Promote, EditInvoice, TransitionInvoice, RequeueFailed, Decide;
    hide Replay, Early, OneRole, OnePolicy, Tree, ApproverKey;
    MakesRole();
    Staffs();
    Drafts();
    PutsTree();
    Publishes();
    ops := FailedAlone();
    ops := Applied(ops, OpCreateRole(1, "approver"), Early(PEOPLE, OneRole([]), map[], Failed));
    ops := Applied(ops, OpSetRoleMembers(1, ApproverKey(), [2]), Early(PEOPLE, OneRole([2]), map[], Failed));
    ops := Applied(ops, OpCreatePolicy(1, 1, 1, None), Early(PEOPLE, OneRole([2]), OnePolicy([], false), Failed));
    ops := Applied(ops, OpPutDraft(1, 1, None, Tree()), Early(PEOPLE, OneRole([2]), OnePolicy(Tree(), false), Failed));
    ops := Applied(ops, OpPublishPolicy(1, 1), Early(PEOPLE, OneRole([2]), OnePolicy(Tree(), true), Failed));
  }

  lemma Started() returns (ops: seq<Op>)
    ensures Replay(WS, ops) == Empty(WS)
  {
    ops := [];
  }

  /** Apply by name, so that the steps above need not be unfolded together. */
  lemma {:induction false} Applied(ops: seq<Op>, op: Op, db': Db) returns (more: seq<Op>)
    requires Apply(Replay(WS, ops), op) == Ok(db')
    ensures Replay(WS, more) == db'
  {
    hide Apply;
    more := Extend(ops, op, Replay(WS, ops), db');
  }

  /** Invoice 7 is then validated, and its run waits on the role only the second member signs. */
  lemma {:induction false} WaitingOnSecond() returns (ops: seq<Op>)
    ensures Replay(WS, ops) == Late(Validated, [WaitingRun()])
  {
    hide CreateRole, DeleteRole, SetRoleMembers, Join, SetStanding, SetAccess, RemoveMember, DeleteAccount, SetClients;
    hide AddClient, CreatePolicy, PutDraft, PublishPolicy, DeletePolicy, ReorderPolicies;
    hide CreateInvoice, Promote, EditInvoice, TransitionInvoice, RequeueFailed, Decide;
    hide Replay, Early, Late, OneRole, OnePolicy, Tree, ApproverKey, WaitingRun;
    Arrives();
    Arms();
    ops := FailedThenPublished();
    ops := Applied(ops, OpCreateInvoice(7, FACTS, None), Late(Draft, []));
    ops := Applied(ops, OpPromote(7), Late(Validated, [WaitingRun()]));
  }

  // ---- What it shows ----

  lemma Stuck()
    ensures var db := Early(PEOPLE, OneRole([2]), OnePolicy(Tree(), true), Failed);
      && 8 in db.invoices && AnyInForce(db.policies) && RunsOf(db.runs, 8) == []
      && !Clear(db, 8) && !Cleared(db, 8)
      && RequeueFailed(db, 8, true).Ok?
      && 8 in RequeueFailed(db, 8, true).db.invoices
      && RequeueFailed(db, 8, true).db.invoices[8].status == Queued
  {
    InForceNow();
    hide AnyInForce, AnyActive, Tree, OneRole, OnePolicy;
  }

  lemma AfterRequeue(db: Db, i: InvoiceId)
    requires RequeueFailed(db, i, true).Ok?
    ensures After(db, OpRequeueFailed(i, true)) == RequeueFailed(db, i, true).db
  {
  }

  /**
   A failed invoice with no run at all is sent again, and queued, while a version is in force and its gate is
   shut.
   */
  lemma {:induction false} SentAgainUncleared() returns (ops: seq<Op>, i: InvoiceId)
    ensures i in Replay(WS, ops).invoices && AnyInForce(Replay(WS, ops).policies)
    ensures !Clear(Replay(WS, ops), i) && !Cleared(Replay(WS, ops), i) && RunsOf(Replay(WS, ops).runs, i) == []
    ensures var db' := After(Replay(WS, ops), OpRequeueFailed(i, true));
      i in db'.invoices && db'.invoices[i].status == Queued
  {
    hide Replay, After, AnyInForce, Clear, Cleared, RequeueFailed, Early, OneRole, OnePolicy, RunsOf;
    ops := FailedThenPublished();
    i := 8;
    Stuck();
    AfterRequeue(Replay(WS, ops), i);
  }

  lemma OpenStill()
    ensures var db := Late(Queued, [WaitingRun()]).(policies := Retired());
      && 7 in db.invoices && db.invoices[7].status == Queued
      && Newest(db.runs, 7).Some? && Newest(db.runs, 7).value.state == Open
  {
    hide OneRole, OnePolicy, Retired, Tree, ApproverKey;
  }

  /** A queued invoice whose newest run is still open. */
  lemma {:induction false} QueuedWithOpenRun() returns (ops: seq<Op>, i: InvoiceId)
    ensures i in Replay(WS, ops).invoices && Replay(WS, ops).invoices[i].status == Queued
    ensures Newest(Replay(WS, ops).runs, i).Some? && Newest(Replay(WS, ops).runs, i).value.state == Open
  {
    hide CreateRole, DeleteRole, SetRoleMembers, Join, SetStanding, SetAccess, RemoveMember, DeleteAccount, SetClients;
    hide AddClient, CreatePolicy, PutDraft, PublishPolicy, DeletePolicy, ReorderPolicies;
    hide CreateInvoice, Promote, EditInvoice, TransitionInvoice, RequeueFailed, Decide;
    hide Replay, Late, WaitingRun, Retired, Newest;
    ops := WaitingOnSecond();
    i := 7;
    Retires();
    Queues();
    ops := Applied(ops, OpDeletePolicy(1, 1), Late(Validated, [WaitingRun()]).(policies := Retired()));
    ops := Applied(ops, OpTransitionInvoice(7, Queued, false), Late(Queued, [WaitingRun()]).(policies := Retired()));
    OpenStill();
  }

  function Retired(): Policies {
    map[1 := Policy(1, false, [Version(true, false, Tree(), CATCH_ALL)])]
  }

  lemma RetiredQuiet()
    ensures !AnyActive(Retired()) && CatchAllLast(Retired()) && !ScopedLive(Retired())
  {
    assert Retired()[1].versions[..0] == [];
    assert ActiveIndex(Retired()[1].versions).None?;
    hide ActiveIndex, Tree;
  }

  lemma Retires()
    ensures DeletePolicy(Late(Validated, [WaitingRun()]), 1, 1)
        == Ok(Late(Validated, [WaitingRun()]).(policies := Retired()))
  {
    RetiredQuiet();
    hide CatchAllLast, ScopedLive, Tree, ApproverKey, WaitingRun;
    var p := OnePolicy(Tree(), true)[1];
    assert Deactivated(p.versions) == [Version(true, false, Tree(), CATCH_ALL)];
    assert OnePolicy(Tree(), true)[1 := p.(live := false, versions := Deactivated(p.versions))] == Retired();
  }

  lemma Queues()
    ensures TransitionInvoice(Late(Validated, [WaitingRun()]).(policies := Retired()), 7, Queued, false)
         == Ok(Late(Queued, [WaitingRun()]).(policies := Retired()))
  {
    RetiredQuiet();
    hide AnyActive, Retired, Tree, ApproverKey, WaitingRun;
  }

  /** The only signer of a role that a run waits on ends the account: the run waits on, and nobody signs. */
  lemma {:induction false} LastSignerLeaves() returns (ops: seq<Op>, u: UserId, key: Key, i: InvoiceId)
    ensures Signed(Replay(WS, ops).members, Replay(WS, ops).roles, key) && WaitsOnRole(Replay(WS, ops), i, key)
    ensures DeleteAccount(Replay(WS, ops), u, false, Leave).Ok?
    ensures var db' := After(Replay(WS, ops), OpDeleteAccount(u, false, Leave));
      LiveRole(db'.roles, key) && !Signed(db'.members, db'.roles, key) && WaitsOnRole(db', i, key)
  {
    hide Replay, Signed, WaitsOnRole, DeleteAccount, LiveRole, Late, WaitingRun, ApproverKey;
    ops := WaitingOnSecond();
    u, key, i := 2, ApproverKey(), 7;
    SecondLeaves();
  }

  lemma SecondSigns()
    ensures Signed(PEOPLE, OneRole([2]), ApproverKey())
        && WaitsOnRole(Late(Validated, [WaitingRun()]), 7, ApproverKey())
  {
    hide ApproverKey;
    var db, r := Late(Validated, [WaitingRun()]), WaitingRun();
    assert r in RunsOf(db.runs, 7) && r.steps[0] in r.steps && Waiting(r.steps[0]);
    assert WaitsFor(r, ApproverKey());
    assert Holds(PEOPLE, OneRole([2]), ApproverKey(), 2);
  }

  lemma SecondLeaves()
    ensures var db := Late(Validated, [WaitingRun()]);
      && Signed(db.members, db.roles, ApproverKey()) && WaitsOnRole(db, 7, ApproverKey())
      && DeleteAccount(db, 2, false, Leave).Ok?
      && var db' := DeleteAccount(db, 2, false, Leave).db;
      LiveRole(db'.roles, ApproverKey()) && !Signed(db'.members, db'.roles, ApproverKey())
      && WaitsOnRole(db', 7, ApproverKey())
  {
    SecondSigns();
    var db := Late(Validated, [WaitingRun()]);
    hide ApproverKey, WaitingRun, Tree, WaitsOnRole, Signed;
    assert ActiveAdmin(PEOPLE, 1) && ActiveMember(PEOPLE, 1);
    assert OtherActive(PEOPLE, 2) && OtherAdmin(PEOPLE, 2);
    DeletionSignsExactly(db, 2, false, Leave, ApproverKey());
    assert 7 in WaitingInvoices(db, ApproverKey());
  }

  // ---- Standing in ----

  /** The workspace after the second member is gone: the run waits on a role with nobody in it. */
  function Unstaffed(): Db {
    Late(Validated, [WaitingRun()]).(members := PEOPLE[2 := Member(Removed, Admin, false, {}, 1)], roles := OneRole([]))
  }

  lemma SecondGone()
    ensures DeleteAccount(Late(Validated, [WaitingRun()]), 2, false, Leave) == Ok(Unstaffed())
  {
    hide ApproverKey, WaitingRun, Tree;
    assert ActiveAdmin(PEOPLE, 1) && ActiveMember(PEOPLE, 1);
    assert OtherActive(PEOPLE, 2) && OtherAdmin(PEOPLE, 2);
    assert WithoutMember([2], 2) == [];
    assert Unstaff(OneRole([2]), 2) == OneRole([]);
  }

  lemma NobodySigns()
    ensures LiveRole(OneRole([]), ApproverKey()) && !Signed(Unstaffed().members, OneRole([]), ApproverKey())
    ensures StrandingOf(Unstaffed(), 7, WaitingRun()) == Some(Stranding(Some(ApproverKey()), NoHolder, true))
  {
    hide ApproverKey, Tree;
    var db, s := Unstaffed(), WaitingRun().steps[0];
    assert !Signed(db.members, db.roles, ApproverKey());
    SigningAgrees(db, ApproverKey(), s);
    assert StrandedStep(db, s) && FirstStranded(db, WaitingRun().steps) == Some(0);
    assert FirstWaiting(WaitingRun().steps) == Some(0);
  }

  lemma FirstStandsIn()
    ensures Decide(Unstaffed(), 1, 7, Approve, "")
         == Ok(Unstaffed().(runs := map[8 := [], 7 := [Decided()]]))
  {
    hide ApproverKey, Tree;
    assert FirstWaiting(WaitingRun().steps) == Some(0);
    assert !HoldsStep(Unstaffed(), Asked(), 1) && !IsCreator(Unstaffed(), 7, 1);
    StandInCloses();
    hide DecideRun;
    assert [WaitingRun()][0 := Decided()] == [Decided()];
  }

  lemma StandInCloses()
    ensures FirstWaiting(WaitingRun().steps) == Some(0)
    ensures DecideRun(WaitingRun(), Approve, 1, true, false) == Decided()
  {
    hide ApproverKey, Tree;
    assert FirstWaiting(WaitingRun().steps) == Some(0);
    assert WaitingRun().steps[0 := RunStep(Asked(), Satisfied)] == Decided().steps;
    assert !AnyWaiting(Decided().steps);
  }

  /** The run once the first member, who is not in the role, has approved it. */
  function Decided(): Run {
    Run(1, 0, FACTS, Approved, [RunStep(Asked(), Satisfied)], [Decision(0, Approve, 1, true, false)])
  }

  /**
   Nobody signs the role the run waits on and the run is reported as blocking now, yet an active approver outside
   the role decides it as a stand-in.
   */
  lemma {:induction false} UnsignedYetDecided() returns (ops: seq<Op>, caller: UserId, key: Key, i: InvoiceId)
    ensures var db := Replay(WS, ops);
      && LiveRole(db.roles, key) && !Signed(db.members, db.roles, key)
      && Newest(db.runs, i).Some?
      && StrandingOf(db, i, Newest(db.runs, i).value) == Some(Stranding(Some(key), NoHolder, true))
    ensures Decide(Replay(WS, ops), caller, i, Approve, "").Ok?
    ensures var newest := Newest(Decide(Replay(WS, ops), caller, i, Approve, "").db.runs, i);
      && newest.Some? && newest.value.state == Approved
      && newest.value.ledger == [Decision(0, Approve, caller, true, false)]
  {
    hide CreateRole, DeleteRole, SetRoleMembers, Join, SetStanding, SetAccess, RemoveMember, DeleteAccount, SetClients;
    hide AddClient, CreatePolicy, PutDraft, PublishPolicy, DeletePolicy, ReorderPolicies;
    hide CreateInvoice, Promote, EditInvoice, TransitionInvoice, RequeueFailed, Decide;
    hide Replay, ApproverKey, StrandingOf, Signed, LiveRole;
    ops := WaitingOnSecond();
    caller, key, i := 1, ApproverKey(), 7;
    SecondGone();
    ops := Applied(ops, OpDeleteAccount(2, false, Leave), Unstaffed());
    NobodySigns();
    FirstStandsIn();
  }
}
