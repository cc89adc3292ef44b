/**
 Invoice writes in their own columns: exactly when one goes through, what it stores, and
 which status can follow which.
 */
module Invoicing {
  import opened Domain
  import opened Runs
  import opened Database
  import opened Operations
  import Transmission

  // ---- Runs cancelled ----

  /** Open and approved runs end as cancelled and keep everything else; the others stay as they are. */
  predicate Called(before: seq<Run>, after: seq<Run>) {
    && |after| == |before|
    && forall k | 0 <= k < |before| ::
      && after[k].policy == before[k].policy && after[k].number == before[k].number
      && after[k].facts == before[k].facts && after[k].steps == before[k].steps && after[k].ledger == before[k].ledger
      && after[k].state == if before[k].state in {Open, Approved} then Cancelled else before[k].state
  }

  lemma CancelledColumns(rs: seq<Run>)
    ensures Called(rs, CancelAll(rs))
  {
  }

  /** No version of any policy is active, or some run of the invoice is approved. */
  predicate GateOpen(db: Db, i: InvoiceId) {
    || (forall id | id in db.policies :: forall n | 0 <= n < |db.policies[id].versions| ::
          !db.policies[id].versions[n].active)
    || (exists r :: r in RunsOf(db.runs, i) && r.state == Approved)
  }

  lemma {:induction false} ActiveSomewhere(versions: seq<Version>)
    ensures ActiveIndex(versions).Some? <==> exists n :: 0 <= n < |versions| && versions[n].active
  {
    if versions != [] {
      var front := versions[..|versions| - 1];
      ActiveSomewhere(front);
      if n :| 0 <= n < |front| && front[n].active {
        assert versions[n].active;
      }
      if n :| 0 <= n < |versions| && versions[n].active && n < |front| {
        assert front[n].active;
      }
    }
  }

  lemma GateColumns(db: Db, i: InvoiceId)
    ensures Clear(db, i) <==> GateOpen(db, i)
  {
    hide ActiveIndex;
    forall id | id in db.policies
      ensures ActiveIndex(db.policies[id].versions).Some? <==>
              exists n :: 0 <= n < |db.policies[id].versions| && db.policies[id].versions[n].active
    {
      ActiveSomewhere(db.policies[id].versions);
    }
  }

  // ---- One write at a time ----

  /** The i-th invoice is now this one with these runs, and no other row differs. */
  ghost predicate Wrote(db: Db, db': Db, i: InvoiceId, inv: Invoice, rs: seq<Run>) {
    && db' == db.(invoices := db'.invoices, runs := db'.runs)
    && i in db'.invoices && db'.invoices[i] == inv && RunsOf(db'.runs, i) == rs
    && (forall j :: j != i ==> (j in db'.invoices <==> j in db.invoices) && RunsOf(db'.runs, j) == RunsOf(db.runs, j))
    && (forall j | j in db.invoices && j != i :: db'.invoices[j] == db.invoices[j])
  }

  /** A new invoice is a draft with its facts and creator and no run. */
  lemma CreateInvoiceExactly(db: Db, i: InvoiceId, facts: Facts, creator: Option<UserId>)
    ensures var r := CreateInvoice(db, i, facts, creator);
      && (r.Ok? <==> i !in db.invoices && i !in db.runs)
      && (r.Ok? ==> Wrote(db, r.db, i, Invoice(Draft, facts, creator), []))
  {
  }

  /** A draft is validated and its run opened on top of those it had. */
  lemma PromoteExactly(db: Db, i: InvoiceId)
    ensures var r := Promote(db, i);
      && (r.Ok? <==> i in db.invoices && db.invoices[i].status == Draft)
      && (r.Ok? ==> Wrote(db, r.db, i, Invoice(Validated, db.invoices[i].facts, db.invoices[i].creator),
                          RunsOf(db.runs, i) + ArmedRuns(db.policies, db.roles, db.invoices[i])))
  {
    hide ArmedRuns;
  }

  /**
   A draft, validated or refused invoice can be edited. A change of what routing reads or of anything else leaves a
   draft with the new facts and the same creator, and calls in the runs it had unless it was a draft already; a save
   that changes nothing changes nothing.
   */
  lemma EditExactly(db: Db, i: InvoiceId, facts: Facts, other: bool)
    ensures var r := EditInvoice(db, i, facts, other);
      && (r.Ok? <==> i in db.invoices && db.invoices[i].status in {Draft, Validated, Refused})
      && (r.Ok? && db.invoices[i].facts == facts && !other ==> r.db == db)
      && (r.Ok? && (db.invoices[i].facts != facts || other) ==>
            && Wrote(db, r.db, i, Invoice(Draft, facts, db.invoices[i].creator), RunsOf(r.db.runs, i))
            && if db.invoices[i].status == Draft then RunsOf(r.db.runs, i) == RunsOf(db.runs, i)
               else Called(RunsOf(db.runs, i), RunsOf(r.db.runs, i)))
  {
    hide CancelAll, Called;
    CancelledColumns(RunsOf(db.runs, i));
  }

  /**
   A status change goes through exactly along the listed edges, and into queued only with no rule change pending and
   the gate open. It changes the status alone, but that a return to draft calls in the runs.
   */
  lemma TransitionExactly(db: Db, i: InvoiceId, target: Status, rulePending: bool)
    ensures var r := TransitionInvoice(db, i, target, rulePending);
      && (r.Ok? <==>
            && i in db.invoices
            && (db.invoices[i].status, target) in {
                 (Validated, Queued), (Validated, Draft), (Queued, Submitted), (Queued, Failed), (Queued, Accepted),
                 (Queued, Refused), (Submitted, Accepted), (Submitted, Refused), (Submitted, Failed), (Refused, Draft)}
            && (target == Queued ==> !rulePending && GateOpen(db, i)))
      && (r.Ok? ==>
            && Wrote(db, r.db, i, Invoice(target, db.invoices[i].facts, db.invoices[i].creator), RunsOf(r.db.runs, i))
            && if target == Draft then Called(RunsOf(db.runs, i), RunsOf(r.db.runs, i))
               else RunsOf(r.db.runs, i) == RunsOf(db.runs, i))
  {
    hide CancelAll, Called, Clear, GateOpen;
    CancelledColumns(RunsOf(db.runs, i));
    GateColumns(db, i);
  }

  /** A failed invoice that may be sent again is queued, with its facts and runs as they were. */
  lemma RequeueWrites(db: Db, i: InvoiceId, resendable: bool)
    ensures var r := RequeueFailed(db, i, resendable);
      && (r.Ok? <==> i in db.invoices && db.invoices[i].status == Failed && resendable)
      && (r.Ok? ==> Wrote(db, r.db, i, Invoice(Queued, db.invoices[i].facts, db.invoices[i].creator),
                          RunsOf(db.runs, i)))
  {
  }

  // ---- Which status follows which ----

  predicate Follows(before: Status, after: Status) {
    match before
    case Draft => after in {Draft, Validated}
    case Validated => after in {Validated, Draft, Queued}
    case Queued => after in {Queued, Submitted, Accepted, Refused, Failed}
    case Submitted => after in {Submitted, Accepted, Refused, Failed}
    case Accepted => after == Accepted
    case Refused => after in {Refused, Draft}
    case Failed => after in {Failed, Queued}
  }

  ghost predicate StatusFollows(db: Db, db': Db, i: InvoiceId) {
    i in db.invoices ==> i in db'.invoices && Follows(db.invoices[i].status, db'.invoices[i].status)
  }

  lemma SameFollows(db: Db, db': Db, i: InvoiceId)
    requires db'.invoices == db.invoices
    ensures StatusFollows(db, db', i)
  {
  }

  lemma WroteFollows(db: Db, db': Db, j: InvoiceId, inv: Invoice, i: InvoiceId)
    requires Wrote(db, db', j, inv, RunsOf(db'.runs, j))
    requires j in db.invoices ==> Follows(db.invoices[j].status, inv.status)
    ensures StatusFollows(db, db', i)
  {
  }

  lemma EditFollows(db: Db, j: InvoiceId, facts: Facts, other: bool, i: InvoiceId)
    requires EditInvoice(db, j, facts, other).Ok?
    ensures StatusFollows(db, EditInvoice(db, j, facts, other).db, i)
  {
    hide EditInvoice, Wrote, StatusFollows, Called;
    EditExactly(db, j, facts, other);
    if db.invoices[j].facts != facts || other {
      WroteFollows(db, EditInvoice(db, j, facts, other).db, j, Invoice(Draft, facts, db.invoices[j].creator), i);
    } else {
      SameFollows(db, db, i);
    }
  }

  lemma DecideFollows(db: Db, caller: UserId, j: InvoiceId, verdict: Verdict, reason: string, i: InvoiceId)
    requires Decide(db, caller, j, verdict, reason).Ok?
    ensures StatusFollows(db, Decide(db, caller, j, verdict, reason).db, i)
  {
    hide DecisionRefusal, DecideRun, AnyOtherApprover, HoldsStep, FirstWaiting, Utf8Size;
  }

  lemma InvoiceOpFollows(db: Db, op: Op, i: InvoiceId)
    requires InvoiceOp(op) && Apply(db, op).Ok?
    ensures StatusFollows(db, After(db, op), i)
  {
    hide CreateRole, DeleteRole, SetRoleMembers, Join, SetStanding, SetAccess, RemoveMember, DeleteAccount, SetClients;
    hide AddClient, CreatePolicy, PutDraft, PublishPolicy, DeletePolicy, ReorderPolicies, ArmedRuns, GateOpen, Called;
    hide CreateInvoice, Promote, EditInvoice, TransitionInvoice, RequeueFailed, Decide, StatusFollows, Wrote;
    var db' := After(db, op);
    match op
    case OpCreateInvoice(j, facts, creator) =>
      CreateInvoiceExactly(db, j, facts, creator);
      WroteRuns(db, db', j, Invoice(Draft, facts, creator), []);
      WroteFollows(db, db', j, Invoice(Draft, facts, creator), i);
    case OpEditInvoice(j, facts, other) => EditFollows(db, j, facts, other, i);
    case OpPromote(j) =>
      PromoteExactly(db, j);
      var inv := Invoice(Validated, db.invoices[j].facts, db.invoices[j].creator);
      WroteRuns(db, db', j, inv, RunsOf(db.runs, j) + ArmedRuns(db.policies, db.roles, db.invoices[j]));
      WroteFollows(db, db', j, inv, i);
    case OpTransitionInvoice(j, target, rulePending) =>
      TransitionExactly(db, j, target, rulePending);
      WroteFollows(db, db', j, Invoice(target, db.invoices[j].facts, db.invoices[j].creator), i);
    case OpRequeueFailed(j, resendable) =>
      RequeueWrites(db, j, resendable);
      var inv := Invoice(Queued, db.invoices[j].facts, db.invoices[j].creator);
      WroteRuns(db, db', j, inv, RunsOf(db.runs, j));
      WroteFollows(db, db', j, inv, i);
    case OpDecide(caller, j, verdict, reason) => DecideFollows(db, caller, j, verdict, reason, i);
  }

  lemma WroteRuns(db: Db, db': Db, i: InvoiceId, inv: Invoice, rs: seq<Run>)
    requires Wrote(db, db', i, inv, rs)
    ensures RunsOf(db'.runs, i) == rs
  {
  }

  /** Whatever the operation, an invoice's status is followed only by one the table allows. */
  lemma {:induction false} StatusTable(db: Db, op: Op, i: InvoiceId)
    requires i in db.invoices
    ensures i in After(db, op).invoices && Follows(db.invoices[i].status, After(db, op).invoices[i].status)
  {
    assert StatusFollows(db, After(db, op), i) by {
      hide StatusFollows, Apply;
      if InvoiceOp(op) && Apply(db, op).Ok? {
        InvoiceOpFollows(db, op, i);
      } else {
        Writes(db, op);
        SameFollows(db, After(db, op), i);
      }
    }
  }

  /** An accepted invoice stays accepted through every later history, with the facts and runs it was accepted with. */
  lemma {:induction false} AcceptedForever(ws: Workspace, ops: seq<Op>, n: nat, i: InvoiceId)
    requires n <= |ops| && i in Replay(ws, ops[..n]).invoices && Replay(ws, ops[..n]).invoices[i].status == Accepted
    ensures i in Replay(ws, ops).invoices && Replay(ws, ops).invoices[i].status == Accepted
    ensures Replay(ws, ops).invoices[i].facts == Replay(ws, ops[..n]).invoices[i].facts
    ensures RunsOf(Replay(ws, ops).runs, i) == RunsOf(Replay(ws, ops[..n]).runs, i)
    decreases |ops|
  {
    hide After;
    if n == |ops| {
      assert ops[..n] == ops;
    } else {
      var front, op := ops[..|ops| - 1], ops[|ops| - 1];
      assert front[..n] == ops[..n];
      AcceptedForever(ws, front, n, i);
      StatusTable(Replay(ws, front), op, i);
      Transmission.StaysPast(Replay(ws, front), op, i);
    }
  }
}
