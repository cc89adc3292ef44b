/**
 Who decides, in the columns of the members, the roles and the steps: when a decision goes
 through, what it leaves, and who stands behind every row of every ledger.
 */
module Deciders {
  import opened Domain
  import opened Runs
  import opened Database
  import opened Operations
  import opened Gate
  import opened Histories
  import opened People

  // ---- Columns ----

  /** The n-th step is the first approval step still pending. */
  predicate NextPending(steps: seq<RunStep>, n: nat) {
    && n < |steps| && steps[n].c.kind == Approval && steps[n].state == Pending
    && forall j | 0 <= j < n :: !(steps[j].c.kind == Approval && steps[j].state == Pending)
  }

  /** The step's role is live and has the person in it. */
  predicate InRole(db: Db, c: Content, u: UserId) {
    c.role.Some? && IsLive(db, c.role.value) && u in db.roles[c.role.value].staff
  }

  /** The step lets the person stand in: anybody, or the one it names. */
  predicate StandsIn(c: Content, u: UserId) {
    c.allow && c.delegate in {None, Some(u)}
  }

  /** Somebody else who may sign sees the invoice's client. */
  predicate OtherReaches(db: Db, i: InvoiceId, u: UserId)
    requires i in db.invoices
  {
    exists v | v in db.members :: v != u && MaySign(db, v) &&
      (!db.ws.firm || db.members[v].access == Admin || db.members[v].allClients
       || db.invoices[i].facts.entity in db.members[v].clients)
  }

  /** The person made the invoice and somebody else could approve it. */
  predicate MustLeaveIt(db: Db, i: InvoiceId, u: UserId)
    requires i in db.invoices
  {
    db.invoices[i].creator == Some(u) && OtherReaches(db, i, u)
  }

  /** The newest run of a validated invoice is open, and its n-th step is next. */
  predicate AsksFor(db: Db, i: InvoiceId, n: nat) {
    && i in db.invoices && db.invoices[i].status == Validated && i in db.runs && db.runs[i] != []
    && var r := db.runs[i][|db.runs[i]| - 1];
    r.state == Open && NextPending(r.steps, n)
  }

  function StepAsked(db: Db, i: InvoiceId, n: nat): Content
    requires AsksFor(db, i, n)
  {
    db.runs[i][|db.runs[i]| - 1].steps[n].c
  }

  lemma FirstIsNext(steps: seq<RunStep>, n: nat)
    ensures NextPending(steps, n) <==> FirstWaiting(steps) == Some(n)
  {
    if NextPending(steps, n) {
      assert Waiting(steps[n]);
      var at := FirstWaiting(steps).value;
      assert Waiting(steps[at]);
    }
  }

  lemma StandingColumns(db: Db, i: InvoiceId, c: Content, u: UserId)
    requires i in db.invoices
    ensures HoldsStep(db, c, u) <==> MaySign(db, u) && InRole(db, c, u)
    ensures DelegateMayDecide(c, u) <==> StandsIn(c, u)
    ensures IsCreator(db, i, u) && AnyOtherApprover(db, i, u) <==> MustLeaveIt(db, i, u)
  {
    SignerColumns(db, u);
    forall v | v in db.members ensures ActiveApprover(db.members, v) <==> MaySign(db, v) {
      SignerColumns(db, v);
    }
    hide MaySign, ActiveApprover;
  }

  // ---- One decision ----

  /**
   A decision goes through exactly when its reason fits in a thousand bytes and a reject has one, the caller is an
   active admin or reviewer, the newest run of the validated invoice is open, and the caller is in the role of its
   next step or stands in for it; an approve also needs that the invoice is not the caller's own while somebody
   else could approve it.
   */
  lemma DecideExactly(db: Db, caller: UserId, i: InvoiceId, verdict: Verdict, reason: string)
    ensures Decide(db, caller, i, verdict, reason).Ok? <==>
      && (verdict == Reject ==> reason != "") && Utf8Size(reason) <= 1000 && MaySign(db, caller)
      && exists n: nat :: AsksFor(db, i, n)
                     && (InRole(db, StepAsked(db, i, n), caller) || StandsIn(StepAsked(db, i, n), caller))
                     && !(verdict == Approve && MustLeaveIt(db, i, caller))
  {
    hide DecideRun, HoldsStep, DelegateMayDecide, IsCreator, AnyOtherApprover, ActiveApprover, FirstWaiting, Utf8Size;
    hide MaySign, InRole, StandsIn, MustLeaveIt, NextPending;
    SignerColumns(db, caller);
    if i in db.invoices && i in db.runs && db.runs[i] != [] {
      var r := db.runs[i][|db.runs[i]| - 1];
      forall n: nat ensures NextPending(r.steps, n) <==> FirstWaiting(r.steps) == Some(n) {
        FirstIsNext(r.steps, n);
      }
      var at := FirstWaiting(r.steps);
      if at.Some? {
        StandingColumns(db, i, r.steps[at.value].c, caller);
        assert AsksFor(db, i, at.value) <==> db.invoices[i].status == Validated && r.state == Open;
      }
    }
  }

  /** Some approval step other than the n-th is pending. */
  predicate MorePending(steps: seq<RunStep>, n: nat) {
    exists j :: 0 <= j < |steps| && j != n && steps[j].c.kind == Approval && steps[j].state == Pending
  }

  /**
   A decision that goes through marks the next step, adds one row saying who decided it, how and in what standing,
   and closes the run on a reject or on the last step; a reject sends the invoice back to draft. Nothing else in
   the tables changes.
   */
  lemma DecideLeaves(db: Db, caller: UserId, i: InvoiceId, verdict: Verdict, reason: string, n: nat)
    requires Decide(db, caller, i, verdict, reason).Ok? && AsksFor(db, i, n)
    ensures var db' := Decide(db, caller, i, verdict, reason).db;
      var last := |db.runs[i]| - 1;
      var r := db.runs[i][last];
      var c := r.steps[n].c;
      var r' := Run(r.policy, r.number, r.facts,
                    if verdict == Reject then Rejected else if MorePending(r.steps, n) then Open else Approved,
                    r.steps[n := RunStep(c, if verdict == Reject then StepRejected else Satisfied)],
                    r.ledger + [Decision(n, verdict, caller, !InRole(db, c, caller),
                                         verdict == Approve && db.invoices[i].creator == Some(caller))]);
      && db'.runs == db.runs[i := db.runs[i][last := r']]
      && db'.invoices == db.invoices[i := db.invoices[i].(status := if verdict == Reject then Draft else Validated)]
  {
    hide HoldsStep, DelegateMayDecide, AnyOtherApprover, ActiveApprover, FirstWaiting, Utf8Size;
    hide MaySign, InRole, StandsIn;
    SignerColumns(db, caller);
    var r := db.runs[i][|db.runs[i]| - 1];
    FirstIsNext(r.steps, n);
    StandingColumns(db, i, r.steps[n].c, caller);
    RestPending(r.steps, n, if verdict == Reject then StepRejected else Satisfied);
    assert db.invoices[i := db.invoices[i]] == db.invoices;
  }

  lemma RestPending(steps: seq<RunStep>, n: nat, state: StepState)
    requires n < |steps| && state != Pending
    ensures AnyWaiting(steps[n := steps[n].(state := state)]) <==> MorePending(steps, n)
  {
    var steps' := steps[n := steps[n].(state := state)];
    if MorePending(steps, n) {
      var j :| 0 <= j < |steps| && j != n && steps[j].c.kind == Approval && steps[j].state == Pending;
      assert Waiting(steps'[j]);
    }
  }

  /** Anyone who is not an active admin or reviewer, known or not, has every decision refused and changes nothing. */
  lemma OthersRefused(db: Db, caller: UserId, i: InvoiceId, verdict: Verdict, reason: string)
    requires caller !in db.members || db.members[caller].standing != Active || db.members[caller].access == Preparer
    ensures Decide(db, caller, i, verdict, reason).Err?
    ensures After(db, OpDecide(caller, i, verdict, reason)) == db
  {
    DecideExactly(db, caller, i, verdict, reason);
    hide Decide;
  }

  /** Nor is such a person ever shown as holding or signing a role. */
  lemma OthersNeverShown(db: Db, key: Key, i: InvoiceId, u: UserId)
    requires u !in db.members || db.members[u].standing != Active || db.members[u].access == Preparer
    ensures !Holds(db.members, db.roles, key, u)
    ensures ResolutionOf(db, key).Signs? ==> ResolutionOf(db, key).primary != u
    ensures !GateFactsOf(db, i, u).holds
  {
    ShownSignerHolds(db, key);
    hide AnyActive, FirstWaiting, ResolutionOf;
  }

  /** An active reviewer in the role of the next step can reject with a reason. */
  lemma ReviewerCanReject(db: Db, u: UserId, i: InvoiceId, n: nat, reason: string)
    requires u in db.members && db.members[u].standing == Active && db.members[u].access == Reviewer
    requires AsksFor(db, i, n) && InRole(db, StepAsked(db, i, n), u)
    requires reason != "" && Utf8Size(reason) <= 1000
    ensures Decide(db, u, i, Reject, reason).Ok?
  {
    DecideExactly(db, u, i, Reject, reason);
    hide Decide, Utf8Size;
    assert AsksFor(db, i, n);
  }

  // ---- Every ledger row ----

  /**
   Every ledger row of every history was written by one decision of a person who was then an active admin or
   reviewer; the row says "as delegate" exactly when the step's role did not have that person in it, and then the
   step let them stand in; it says "self-approved" exactly when they approved an invoice of their own, which nobody
   else could then have approved.
   */
  lemma {:induction false} LedgerColumns(ws: Workspace, ops: seq<Op>, i: InvoiceId, k: nat, m: nat) returns (n: nat)
    requires HasRow(Replay(ws, ops).runs, i, k, m)
    ensures var r := RunsOf(Replay(ws, ops).runs, i)[k];
      var d := r.ledger[m];
      && n < |ops| && ops[n].OpDecide? && ops[n].i == i && ops[n].caller == d.actor && d.ord < |r.steps|
      && var earlier := Replay(ws, ops[..n]);
      && i in earlier.invoices && earlier.invoices[i].status == Validated
      && d.actor in earlier.members && earlier.members[d.actor].standing == Active
      && earlier.members[d.actor].access in {Admin, Reviewer}
      && (d.asDelegate <==> !InRole(earlier, r.steps[d.ord].c, d.actor))
      && (d.asDelegate ==> StandsIn(r.steps[d.ord].c, d.actor))
      && (d.selfApproved <==> d.verdict == Approve && earlier.invoices[i].creator == Some(d.actor))
      && (d.selfApproved ==> !OtherReaches(earlier, i, d.actor))
  {
    hide Replay, HoldsStep, DelegateMayDecide, InRole, StandsIn, OtherReaches, AnyOtherApprover, ActiveApprover;
    n := LedgerProvenance(ws, ops, i, k, m);
    var r := RunsOf(Replay(ws, ops).runs, i)[k];
    var d, earlier := r.ledger[m], Replay(ws, ops[..n]);
    SignerColumns(earlier, d.actor);
    StandingColumns(earlier, i, r.steps[d.ord].c, d.actor);
  }
}
