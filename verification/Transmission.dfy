/**
 How an invoice comes to be queued, what was approved when it was, and what becomes of an
 open run when its invoice moves on.
 */
module Transmission {
  import opened Domain
  import opened StepTree
  import opened Runs
  import opened Database
  import opened Operations
  import opened Invariants
  import opened Guarantees

  // ---- What the gate stands for ----

  /** Every approval step of the run was approved, or the tree approves by itself. */
  predicate FullyApproved(r: Run) {
    && r.state == Approved
    && forall s | s in r.steps && s.c.kind == Approval ::
      s.state == Satisfied || (s.state == Skipped && HasAuto(Plan(r.steps)))
  }

  lemma ApprovedIsFull(r: Run)
    requires WellShaped(r) && r.state == Approved
    ensures FullyApproved(r)
  {
    forall s | s in r.steps && s.c.kind == Approval
      ensures s.state == Satisfied || (s.state == Skipped && HasAuto(Plan(r.steps)))
    {
      var k :| 0 <= k < |r.steps| && r.steps[k] == s;
      assert StepShape(r.steps[k], HasAuto(Plan(r.steps)));
      assert !Waiting(r.steps[k]);
    }
  }

  /** The run reads as the compile of a sealed version on the invoice's facts as they are. */
  ghost predicate CompiledOn(ps: Policies, r: Run, facts: Facts) {
    && r.facts == facts
    && r.policy in ps && r.number < |ps[r.policy].versions| && ps[r.policy].versions[r.number].isSealed
    && Plan(r.steps) == Interpret(ps[r.policy].versions[r.number].tree, facts.total)
  }

  /** Nothing is in force, or the newest run, compiled on the invoice's facts, had every approval step approved. */
  ghost predicate Cleared(db: Db, i: InvoiceId)
    requires i in db.invoices
  {
    AnyInForce(db.policies) ==>
      && Newest(db.runs, i).Some?
      && FullyApproved(Newest(db.runs, i).value)
      && CompiledOn(db.policies, Newest(db.runs, i).value, db.invoices[i].facts)
  }

  /** For every invoice past draft the gate is open exactly when the invoice is cleared. */
  lemma {:induction false} GateMeansCleared(ws: Workspace, ops: seq<Op>, i: InvoiceId)
    requires i in Replay(ws, ops).invoices
    ensures Clear(Replay(ws, ops), i) <==> Cleared(Replay(ws, ops), i)
  {
    hide Replay, Clear, AnyInForce, WellShaped, Interpret;
    var db := Replay(ws, ops);
    ClearExactly(ws, ops, i);
    if Clear(db, i) && AnyInForce(db.policies) {
      var k := |RunsOf(db.runs, i)| - 1;
      RunShape(ws, ops, i, k);
      LiveRunIsCurrent(ws, ops, i, k);
      ApprovedIsFull(RunsOf(db.runs, i)[k]);
    }
  }

  // ---- Becoming queued ----

  /** The invoice's facts and its runs are as they were. */
  ghost predicate SameInvoice(db: Db, db': Db, i: InvoiceId)
    requires i in db.invoices && i in db'.invoices
  {
    db'.invoices[i].facts == db.invoices[i].facts && RunsOf(db'.runs, i) == RunsOf(db.runs, i)
  }

  lemma {:induction false} SweptOnlyValidated(db: Db, i: InvoiceId)
    requires i in db.invoices && db.invoices[i].status != Validated
    ensures RunsOf(Swept(db), i) == RunsOf(db.runs, i)
  {
    assert i !in Backlog(db);
    assert RunsOf(db.runs, i) + [] == RunsOf(db.runs, i);
  }

  /** How one operation can take an invoice to a status other than draft. */
  predicate Moves(db: Db, op: Op, i: InvoiceId, target: Status)
    requires i in db.invoices
  {
    || target == db.invoices[i].status
    || (op == OpPromote(i) && target == Validated)
    || (op.OpTransitionInvoice? && op.i == i && op.target == target && CanTransition(db.invoices[i].status, target)
        && (target == Queued ==> !op.rulePending && Clear(db, i)))
    || (op.OpRequeueFailed? && op.i == i && db.invoices[i].status == Failed && target == Queued)
  }

  /**
   The status an invoice is left with is one the operation can take it to; unless that is draft or validated, its
   facts and runs are untouched.
   */
  ghost predicate MovesOk(db: Db, op: Op, db': Db, i: InvoiceId) {
    i in db'.invoices && db'.invoices[i].status != Draft ==>
      && i in db.invoices && Moves(db, op, i, db'.invoices[i].status)
      && (db'.invoices[i].status != Validated ==> SameInvoice(db, db', i))
  }

  lemma {:induction false} StatusMoves(db: Db, op: Op, i: InvoiceId)
    ensures MovesOk(db, op, After(db, op), i)
  {
    hide CreateRole, DeleteRole, SetRoleMembers, Join, SetStanding, SetAccess, RemoveMember, DeleteAccount, SetClients;
    hide AddClient, CreatePolicy, PutDraft, PublishPolicy, DeletePolicy, ReorderPolicies;
    hide CreateInvoice, Promote, EditInvoice, TransitionInvoice, RequeueFailed, Decide, MovesOk, Moves, SameInvoice;
    if Apply(db, op).Ok? && InvoiceOp(op) {
      match op
      case OpCreateInvoice(j, facts, creator) => CreateMoves(db, j, facts, creator, i);
      case OpEditInvoice(j, facts, other) => EditMoves(db, j, facts, other, i);
      case OpPromote(j) => PromoteMoves(db, j, i);
      case OpTransitionInvoice(j, target, rulePending) => TransitionMoves(db, j, target, rulePending, i);
      case OpRequeueFailed(j, resendable) => RequeueMoves(db, j, resendable, i);
      case OpDecide(caller, j, verdict, reason) => DecideMoves(db, caller, j, verdict, reason, i);
    } else {
      Writes(db, op);
      if op.OpPublishPolicy? && Apply(db, op).Ok? {
        PublishMoves(db, op.caller, op.id, i);
      } else {
        Stays(db, op, After(db, op), i);
      }
    }
  }

  lemma Stays(db: Db, op: Op, db': Db, i: InvoiceId)
    requires db'.invoices == db.invoices && db'.runs == db.runs
    ensures MovesOk(db, op, db', i)
  {
  }

  lemma PublishMoves(db: Db, caller: UserId, id: PolicyId, i: InvoiceId)
    requires PublishPolicy(db, caller, id).Ok?
    ensures MovesOk(db, OpPublishPolicy(caller, id), PublishPolicy(db, caller, id).db, i)
  {
    hide PublishPolicy, CatchAllLast, SealedTop, DraftRefusal, Swept, Backlog;
    PublishForm(db, caller, id);
    if i in db.invoices && db.invoices[i].status != Validated {
      SweptOnlyValidated(db.(policies := db.policies[id := SealedTop(db.policies[id])]), i);
    }
  }

  lemma CreateMoves(db: Db, j: InvoiceId, facts: Facts, creator: Option<UserId>, i: InvoiceId)
    requires CreateInvoice(db, j, facts, creator).Ok?
    ensures MovesOk(db, OpCreateInvoice(j, facts, creator), CreateInvoice(db, j, facts, creator).db, i)
  {
  }

  lemma EditMoves(db: Db, j: InvoiceId, facts: Facts, other: bool, i: InvoiceId)
    requires EditInvoice(db, j, facts, other).Ok?
    ensures MovesOk(db, OpEditInvoice(j, facts, other), EditInvoice(db, j, facts, other).db, i)
  {
  }

  lemma PromoteMoves(db: Db, j: InvoiceId, i: InvoiceId)
    requires Promote(db, j).Ok?
    ensures MovesOk(db, OpPromote(j), Promote(db, j).db, i)
  {
    hide ArmedRuns;
  }

  lemma TransitionMoves(db: Db, j: InvoiceId, target: Status, rulePending: bool, i: InvoiceId)
    requires TransitionInvoice(db, j, target, rulePending).Ok?
    ensures MovesOk(db, OpTransitionInvoice(j, target, rulePending), TransitionInvoice(db, j, target, rulePending).db,
                    i)
  {
    hide Clear;
  }

  lemma RequeueMoves(db: Db, j: InvoiceId, resendable: bool, i: InvoiceId)
    requires RequeueFailed(db, j, resendable).Ok?
    ensures MovesOk(db, OpRequeueFailed(j, resendable), RequeueFailed(db, j, resendable).db, i)
  {
  }

  lemma DecideMoves(db: Db, caller: UserId, j: InvoiceId, verdict: Verdict, reason: string, i: InvoiceId)
    requires Decide(db, caller, j, verdict, reason).Ok?
    ensures MovesOk(db, OpDecide(caller, j, verdict, reason), Decide(db, caller, j, verdict, reason).db, i)
  {
    hide DecisionRefusal, DecideRun, AnyOtherApprover, HoldsStep, FirstWaiting;
  }

  /** Only two operations make an invoice queued: a status change through the gate, and sending a failed one again. */
  lemma {:induction false} OnlyTheseQueue(db: Db, op: Op, i: InvoiceId)
    requires i in After(db, op).invoices && After(db, op).invoices[i].status == Queued
    requires !(i in db.invoices && db.invoices[i].status == Queued)
    ensures i in db.invoices
    ensures || (op == OpTransitionInvoice(i, Queued, false) && db.invoices[i].status == Validated && Clear(db, i))
            || (op.OpRequeueFailed? && op.i == i && db.invoices[i].status == Failed)
  {
    hide After, Clear;
    StatusMoves(db, op, i);
  }

  /**
   An invoice becomes queued from validated, cleared at that moment; or from failed, by being sent again, which
   asks no gate. Sent again, it is cleared exactly when the gate would have been open.
   */
  lemma {:induction false} QueuedWasCleared(ws: Workspace, ops: seq<Op>, op: Op, i: InvoiceId)
    requires var db := After(Replay(ws, ops), op); i in db.invoices && db.invoices[i].status == Queued
    requires var db := Replay(ws, ops); !(i in db.invoices && db.invoices[i].status == Queued)
    ensures var db := Replay(ws, ops);
      && i in db.invoices
      && ((db.invoices[i].status == Validated && op == OpTransitionInvoice(i, Queued, false) && Cleared(db, i))
          || (db.invoices[i].status == Failed && op.OpRequeueFailed? && op.i == i
              && (Cleared(db, i) <==> Clear(db, i))))
  {
    hide Replay, After, Clear, Cleared;
    OnlyTheseQueue(Replay(ws, ops), op, i);
    GateMeansCleared(ws, ops, i);
  }

  /** Sending again goes through whatever the gate says, and is right by the approvals exactly when the gate is open. */
  lemma {:induction false} RequeueExactly(ws: Workspace, ops: seq<Op>, i: InvoiceId)
    requires i in Replay(ws, ops).invoices && Replay(ws, ops).invoices[i].status == Failed
    ensures RequeueFailed(Replay(ws, ops), i, true).Ok?
    ensures RequeueFailed(Replay(ws, ops), i, true).db.invoices[i].status == Queued
    ensures Cleared(Replay(ws, ops), i) <==> Clear(Replay(ws, ops), i)
  {
    hide Replay, Clear, Cleared;
    GateMeansCleared(ws, ops, i);
  }

  // ---- Past the gate ----

  /** Where an invoice can be once it has been queued and before it is a draft again. */
  predicate PastGate(status: Status) {
    status != Draft && status != Validated
  }

  predicate IsPast(db: Db, i: InvoiceId) {
    i in db.invoices && PastGate(db.invoices[i].status)
  }

  lemma {:induction false} EntersByGate(db: Db, op: Op, i: InvoiceId)
    requires !IsPast(db, i) && IsPast(After(db, op), i)
    ensures i in db.invoices && op == OpTransitionInvoice(i, Queued, false)
    ensures db.invoices[i].status == Validated && Clear(db, i)
  {
    hide After, Clear;
    StatusMoves(db, op, i);
  }

  lemma {:induction false} StaysPast(db: Db, op: Op, i: InvoiceId)
    requires IsPast(db, i) && IsPast(After(db, op), i)
    ensures SameInvoice(db, After(db, op), i)
  {
    hide After, Clear;
    StatusMoves(db, op, i);
  }

  /** The step at which an invoice passed the gate, cleared as it then stood. */
  ghost predicate PassedAt(ws: Workspace, ops: seq<Op>, n: nat, i: InvoiceId) {
    && n < |ops| && ops[n] == OpTransitionInvoice(i, Queued, false)
    && i in Replay(ws, ops[..n]).invoices && Replay(ws, ops[..n]).invoices[i].status == Validated
    && Clear(Replay(ws, ops[..n]), i) && Cleared(Replay(ws, ops[..n]), i)
  }

  /**
   Every invoice found queued, submitted, accepted, refused or failed passed the gate from validated earlier in
   its history, cleared at that step, and its facts and runs are still those of that step.
   */
  lemma {:induction false} EveryonePassedTheGate(ws: Workspace, ops: seq<Op>, i: InvoiceId) returns (n: nat)
    requires IsPast(Replay(ws, ops), i)
    ensures PassedAt(ws, ops, n, i) && SameInvoice(Replay(ws, ops[..n]), Replay(ws, ops), i)
    decreases |ops|
  {
    hide After, Clear, Cleared;
    var front, op := ops[..|ops| - 1], ops[|ops| - 1];
    var db := Replay(ws, front);
    if IsPast(db, i) {
      n := EveryonePassedTheGate(ws, front, i);
      assert front[..n] == ops[..n];
      StaysPast(db, op, i);
    } else {
      n := |ops| - 1;
      EntersByGate(db, op, i);
      GateMeansCleared(ws, front, i);
      AfterQueueing(db, i);
    }
  }

  /** The move to queued through the open gate goes through and changes the status alone. */
  lemma {:induction false} AfterQueueing(db: Db, i: InvoiceId)
    requires i in db.invoices && db.invoices[i].status == Validated && Clear(db, i)
    ensures TransitionInvoice(db, i, Queued, false).Ok?
    ensures After(db, OpTransitionInvoice(i, Queued, false)) == TransitionInvoice(db, i, Queued, false).db
    ensures var db' := TransitionInvoice(db, i, Queued, false).db;
      i in db'.invoices && db'.invoices[i].status == Queued && SameInvoice(db, db', i)
  {
    hide Clear;
  }

  // ---- Open runs off validated invoices ----

  /**
   An open run on an invoice that is not validated was left there when the invoice was queued with nothing in
   force.
   */
  lemma {:induction false} OpenRunLeftBehind(ws: Workspace, ops: seq<Op>, i: InvoiceId, k: nat) returns (n: nat)
    requires i in Replay(ws, ops).invoices && Replay(ws, ops).invoices[i].status != Validated
    requires k < |RunsOf(Replay(ws, ops).runs, i)| && RunsOf(Replay(ws, ops).runs, i)[k].state == Open
    ensures PassedAt(ws, ops, n, i) && !AnyInForce(Replay(ws, ops[..n]).policies)
    ensures RunsOf(Replay(ws, ops[..n]).runs, i) == RunsOf(Replay(ws, ops).runs, i)
  {
    hide Replay, AnyInForce, Clear, Cleared;
    OneLiveRun(ws, ops, i, k);
    n := EveryonePassedTheGate(ws, ops, i);
    ClearExactly(ws, ops[..n], i);
  }

  lemma {:induction false} OpenOffDraft(ws: Workspace, ops: seq<Op>, op: Op, i: InvoiceId, k: nat)
    requires HeldOpen(After(Replay(ws, ops), op), i, k)
    ensures var db' := After(Replay(ws, ops), op); i in db'.invoices && db'.invoices[i].status != Draft
  {
    hide Replay, After;
    OneMore(ws, ops, op);
    OneLiveRun(ws, ops + [op], i, k);
  }

  predicate HeldOpen(db: Db, i: InvoiceId, k: nat) {
    i in db.invoices && k < |RunsOf(db.runs, i)| && RunsOf(db.runs, i)[k].state == Open
  }

  /**
   From a validated invoice with an open run, one operation leaves that run open on an invoice no longer validated
   if and only if it is the move to queued, no rule change pending, while no version is in force.
   */
  lemma {:induction false} OpenRunOutlivesExactly(ws: Workspace, ops: seq<Op>, op: Op, i: InvoiceId)
    requires var db := Replay(ws, ops); i in db.invoices && db.invoices[i].status == Validated
    requires var newest := Newest(Replay(ws, ops).runs, i); newest.Some? && newest.value.state == Open
    ensures var db, db' := Replay(ws, ops), After(Replay(ws, ops), op);
      (HeldOpen(db', i, |RunsOf(db.runs, i)| - 1) && db'.invoices[i].status != Validated) <==>
        op == OpTransitionInvoice(i, Queued, false) && !AnyInForce(db.policies)
  {
    hide Replay, After, AnyInForce, Clear;
    var db, k := Replay(ws, ops), |RunsOf(Replay(ws, ops).runs, i)| - 1;
    ClearExactly(ws, ops, i);
    if HeldOpen(After(db, op), i, k) && After(db, op).invoices[i].status != Validated {
      StatusMoves(db, op, i);
      OpenOffDraft(ws, ops, op, i, k);
    } else if op == OpTransitionInvoice(i, Queued, false) && !AnyInForce(db.policies) {
      AfterQueueing(db, i);
    }
  }

  /**
   Deleting the only policy in force opens the gate for every validated invoice: the move to queued is then legal
   unless a rule change is pending, and leaves the runs, open ones included, as they are.
   */
  lemma {:induction false} DeletingTheOnlyPolicyReleases(ws: Workspace, ops: seq<Op>, caller: UserId, id: PolicyId,
                                                         i: InvoiceId)
    requires var db := Replay(ws, ops);
      && DeletePolicy(db, caller, id).Ok? && (forall q | InForcePolicy(db.policies, q) :: q == id)
      && i in db.invoices && db.invoices[i].status == Validated
    ensures var db := Replay(ws, ops);
      var db1 := DeletePolicy(db, caller, id).db;
      && Clear(db1, i)
      && TransitionInvoice(db1, i, Queued, false).Ok?
      && RunsOf(TransitionInvoice(db1, i, Queued, false).db.runs, i) == RunsOf(db.runs, i)
  {
    hide Replay, Apply, DeletePolicy, TransitionInvoice, ActiveIndex, Clear;
    hide After, AnyInForce;
    var db := Replay(ws, ops);
    DeletedForm(db, caller, id);
    var db1 := DeletePolicy(db, caller, id).db;
    NothingLeft(db, id, db1.policies);
    OneMore(ws, ops, OpDeletePolicy(caller, id));
    AppliesDelete(db, caller, id);
    ClearExactly(ws, ops + [OpDeletePolicy(caller, id)], i);
    AfterQueueing(db1, i);
  }

  lemma AppliesDelete(db: Db, caller: UserId, id: PolicyId)
    requires DeletePolicy(db, caller, id).Ok?
    ensures After(db, OpDeletePolicy(caller, id)) == DeletePolicy(db, caller, id).db
  {
    hide DeletePolicy;
  }

  lemma NothingLeft(db: Db, id: PolicyId, ps': Policies)
    requires id in db.policies && (forall q | InForcePolicy(db.policies, q) :: q == id)
    requires ps' == db.policies[id := db.policies[id].(live := false,
                                                       versions := Deactivated(db.policies[id].versions))]
    ensures !AnyInForce(ps')
  {
    hide ActiveIndex;
    forall q | q in ps' ensures !InForcePolicy(ps', q) {
      if q != id {
        assert InForcePolicy(ps', q) == InForcePolicy(db.policies, q);
      }
    }
  }
}
