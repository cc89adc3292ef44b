/**
 The reads that answer "may this invoice be transmitted", "may this caller decide", "who
 signs this role" and "which runs are stranded", and how far they agree.
 */
module Gate {
  import opened Domain
  import opened Runs
  import opened Database
  import opened Operations

  // ---- The detail page's gate ----

  /** `runState` is absent when the invoice has no run; `pending` when no approval step waits. */
  datatype GateFacts = GateFacts(policyActive: bool, approvedRun: bool, runState: Option<RunState>,
                                 pending: Option<nat>, role: Option<Key>, holds: bool, delegate: bool)

  function GateFactsOf(db: Db, i: InvoiceId, subject: UserId): GateFacts {
    var active, newest := AnyActive(db.policies), Newest(db.runs, i);
    if newest.None? then GateFacts(active, false, None, None, None, false, false)
    else
      var r := newest.value;
      var at := FirstWaiting(r.steps);
      if at.None? then GateFacts(active, HasApproved(db.runs, i), Some(r.state), None, None, false, false)
      else
        var c := r.steps[at.value].c;
        GateFacts(active, HasApproved(db.runs, i), Some(r.state), at, c.role, HoldsStep(db, c, subject),
                  DelegateMayDecide(c, subject))
  }

  // ---- The list row ----

  datatype RowFacts = RowFacts(runState: RunState, pending: Option<nat>, role: Option<Key>, warn: bool, allow: bool,
                               delegate: Option<UserId>)

  /** Absent when the invoice has no run. */
  function RowFactsOf(db: Db, i: InvoiceId): Option<RowFacts> {
    var newest := Newest(db.runs, i);
    if newest.None? then None
    else
      var at := FirstWaiting(newest.value.steps);
      if at.None? then Some(RowFacts(newest.value.state, None, None, false, false, None))
      else
        var c := newest.value.steps[at.value].c;
        var warn := c.role.Some? && Warns(ResolutionOf(db, c.role.value));
        Some(RowFacts(newest.value.state, at, c.role, warn, c.allow, c.delegate))
  }

  // ---- Who signs a role ----

  /** `primary` is the name shown and `extra` the number of other people staffed. */
  datatype Resolution = Missing | Nobody | Blocked(primary: UserId, extra: nat) | Signs(primary: UserId, extra: nat)

  function ActiveOf(members: Members, staff: seq<UserId>): seq<UserId> {
    if staff == [] then []
    else (if ActiveApprover(members, staff[0]) then [staff[0]] else []) + ActiveOf(members, staff[1..])
  }

  function Resolved(members: Members, known: bool, staff: seq<UserId>): Resolution {
    if !known then Missing
    else if staff == [] then Nobody
    else
      var signers := ActiveOf(members, staff);
      if signers == [] then Blocked(staff[0], |staff| - 1) else Signs(signers[0], |staff| - 1)
  }

  function ResolutionOf(db: Db, key: Key): Resolution {
    Resolved(db.members, LiveRole(db.roles, key), if LiveRole(db.roles, key) then db.roles[key].staff else [])
  }

  predicate Warns(r: Resolution) {
    !r.Signs?
  }

  lemma {:induction false} ActiveExact(members: Members, staff: seq<UserId>)
    ensures forall u :: u in ActiveOf(members, staff) <==> u in staff && ActiveApprover(members, u)
  {
    if staff != [] {
      ActiveExact(members, staff[1..]);
    }
  }

  // ---- Stranded runs ----

  /** How many of the role's staff may sign. */
  function SignerCount(db: Db, key: Key): nat {
    if LiveRole(db.roles, key) then |set u | u in db.roles[key].staff && ActiveApprover(db.members, u)| else 0
  }

  /** A waiting step nobody may sign: its role is unset, gone, deleted, or has no signer. */
  predicate StrandedStep(db: Db, s: RunStep) {
    Waiting(s) && (s.c.role.None? || !LiveRole(db.roles, s.c.role.value) || SignerCount(db, s.c.role.value) == 0)
  }

  function FirstStranded(db: Db, steps: seq<RunStep>): (at: Option<nat>)
    ensures at.Some? ==>
      && at.value < |steps| && StrandedStep(db, steps[at.value])
      && forall j | 0 <= j < at.value :: !StrandedStep(db, steps[j])
    ensures at.None? ==> forall j | 0 <= j < |steps| :: !StrandedStep(db, steps[j])
  {
    if steps == [] then None
    else if StrandedStep(db, steps[0]) then Some(0)
    else
      var later := FirstStranded(db, steps[1..]);
      if later.Some? then Some(later.value + 1) else None
  }

  datatype Reason = Deleted | NoHolder

  datatype Stranding = Stranding(role: Option<Key>, reason: Reason, blocksNow: bool)

  /** The stranded-runs line for an open run of a validated invoice. */
  function StrandingOf(db: Db, i: InvoiceId, r: Run): Option<Stranding> {
    if i !in db.invoices || db.invoices[i].status != Validated || r.state != Open then None
    else
      var at, cur := FirstStranded(db, r.steps), FirstWaiting(r.steps);
      if at.None? || cur.None? then None
      else
        var c := r.steps[at.value].c;
        var reason := if c.role.None? || !LiveRole(db.roles, c.role.value) then Deleted else NoHolder;
        Some(Stranding(c.role, reason, at.value == cur.value))
  }

  // ---- Agreement ----

  /** The three definitions of a role nobody can sign agree on every key in every state. */
  lemma SigningAgrees(db: Db, key: Key, s: RunStep)
    requires Waiting(s) && s.c.role == Some(key)
    ensures Warns(ResolutionOf(db, key)) <==> forall u :: !Holds(db.members, db.roles, key, u)
    ensures StrandedStep(db, s) <==> forall u :: !Holds(db.members, db.roles, key, u)
    ensures Signed(db.members, db.roles, key) <==> exists u :: Holds(db.members, db.roles, key, u)
  {
    if LiveRole(db.roles, key) {
      var staff := db.roles[key].staff;
      var signers := set u | u in staff && ActiveApprover(db.members, u);
      ActiveExact(db.members, staff);
      var active := ActiveOf(db.members, staff);
      assert forall u :: u in signers <==> Holds(db.members, db.roles, key, u);
      assert forall u :: u in active <==> Holds(db.members, db.roles, key, u);
      assert signers == {} <==> |signers| == 0;
      assert active == [] || active[0] in active;
    }
  }

  /** The person shown as signing really holds the role. */
  lemma ShownSignerHolds(db: Db, key: Key)
    ensures var r := ResolutionOf(db, key);
      r.Signs? ==> Holds(db.members, db.roles, key, r.primary) && r.extra == |db.roles[key].staff| - 1
  {
    if LiveRole(db.roles, key) {
      ActiveExact(db.members, db.roles[key].staff);
    }
  }

  /** A run blocks "now" exactly when its first waiting step is itself a step nobody can sign. */
  lemma BlocksNowExactly(db: Db, i: InvoiceId, r: Run)
    requires StrandingOf(db, i, r).Some?
    ensures StrandingOf(db, i, r).value.blocksNow <==> StrandedStep(db, r.steps[FirstWaiting(r.steps).value])
  {
    var at, cur := FirstStranded(db, r.steps).value, FirstWaiting(r.steps).value;
    assert cur <= at;
  }

  /** List row and detail page agree on the run's state, the waiting step and its role. */
  lemma RowAgreesWithGate(db: Db, i: InvoiceId, subject: UserId)
    ensures var row, gate := RowFactsOf(db, i), GateFactsOf(db, i, subject);
      && (row.None? <==> gate.runState.None?)
      && (row.Some? ==>
            && gate.runState == Some(row.value.runState)
            && gate.pending == row.value.pending && gate.role == row.value.role)
      && (row.Some? && gate.pending.Some? ==>
            (gate.delegate <==> row.value.allow && (row.value.delegate.None? || row.value.delegate.value == subject)))
      && (row.Some? && gate.holds ==> !row.value.warn)
  {
    var role := GateFactsOf(db, i, subject).role;
    if role.Some? {
      var key := role.value;
      var r := Newest(db.runs, i).value;
      SigningAgrees(db, key, r.steps[FirstWaiting(r.steps).value]);
    }
  }

  /** A valid reject on an open run goes through exactly for those the gate shows as holder or delegate. */
  lemma RejectMatchesGate(db: Db, i: InvoiceId, caller: UserId, reason: string)
    requires i in db.invoices && db.invoices[i].status == Validated && ActiveApprover(db.members, caller)
    requires Newest(db.runs, i).Some? && Newest(db.runs, i).value.state == Open && ReasonFits(Reject, reason)
    ensures var gate := GateFactsOf(db, i, caller);
      Decide(db, caller, i, Reject, reason).Ok? <==> gate.holds || gate.delegate
  {
    hide HoldsStep, DelegateMayDecide, DecideRun;
  }

  /** An approve goes through for the same people, unless the creator is asking and someone else could. */
  lemma ApproveMatchesGate(db: Db, i: InvoiceId, caller: UserId, reason: string)
    requires i in db.invoices && db.invoices[i].status == Validated && ActiveApprover(db.members, caller)
    requires Newest(db.runs, i).Some? && Newest(db.runs, i).value.state == Open && ReasonFits(Approve, reason)
    ensures var gate := GateFactsOf(db, i, caller);
      Decide(db, caller, i, Approve, reason).Ok? <==>
        (gate.holds || gate.delegate) && !(IsCreator(db, i, caller) && AnyOtherApprover(db, i, caller))
  {
    hide HoldsStep, DelegateMayDecide, DecideRun, AnyOtherApprover;
  }
}
