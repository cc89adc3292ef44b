/**
 One approval run: its ordered steps, its decision ledger, and the shape both keep from
 arming to the last decision.
 */
module Runs {
  import opened Domain
  import opened StepTree

  datatype StepState = Pending | Satisfied | Skipped | StepRejected

  datatype RunStep = RunStep(c: Content, state: StepState)

  datatype RunState = Open | Approved | Rejected | Cancelled

  datatype Verdict = Approve | Reject

  /** One ledger row. `ord` is the position of the decided step. */
  datatype Decision = Decision(ord: nat, verdict: Verdict, actor: UserId, asDelegate: bool, selfApproved: bool)

  /** A run keeps the version it was compiled from and the invoice facts it was armed on. */
  datatype Run = Run(policy: PolicyId, number: nat, facts: Facts, state: RunState, steps: seq<RunStep>,
                     ledger: seq<Decision>)

  predicate Live(r: Run) {
    r.state == Open || r.state == Approved
  }

  // ---- Arming ----

  function InitialState(kind: Kind, auto: bool): StepState {
    if kind == AutoApprove then Satisfied
    else if kind == Approval && !auto then Pending
    else Skipped
  }

  function ArmedSteps(plan: seq<Content>): seq<RunStep> {
    var auto := HasAuto(plan);
    seq(|plan|, i requires 0 <= i < |plan| => RunStep(plan[i], InitialState(plan[i].kind, auto)))
  }

  /** An approval step waiting for a decision. */
  predicate Waiting(s: RunStep) {
    s.c.kind == Approval && s.state == Pending
  }

  predicate Decided(s: RunStep) {
    s.c.kind == Approval && (s.state == Satisfied || s.state == StepRejected)
  }

  predicate AnyWaiting(steps: seq<RunStep>) {
    exists i :: 0 <= i < |steps| && Waiting(steps[i])
  }

  /** A run with nothing to wait for is written closed. */
  function NewRun(policy: PolicyId, number: nat, facts: Facts, plan: seq<Content>): Run {
    var steps := ArmedSteps(plan);
    Run(policy, number, facts, if AnyWaiting(steps) then Open else Approved, steps, [])
  }

  /** The state column filled step by step, then the closure test over it. */
  method Arm(policy: PolicyId, number: nat, facts: Facts, plan: seq<Content>, auto: bool) returns (r: Run)
    requires auto == HasAuto(plan)
    ensures r == NewRun(policy, number, facts, plan)
  {
    var states: seq<StepState> := [];
    for i := 0 to |plan|
      invariant |states| == i
      invariant forall j | 0 <= j < i :: states[j] == InitialState(plan[j].kind, auto)
    {
      var state := Skipped;
      if plan[i].kind == AutoApprove {
        state := Satisfied;
      } else if plan[i].kind == Approval && !auto {
        state := Pending;
      }
      states := states + [state];
    }
    var steps := seq(|plan|, i requires 0 <= i < |plan| => RunStep(plan[i], states[i]));
    assert steps == ArmedSteps(plan);
    var runState := Approved;
    for i := 0 to |plan|
      invariant runState == if exists j :: 0 <= j < i && Waiting(steps[j]) then Open else Approved
    {
      if plan[i].kind == Approval && states[i] == Pending {
        assert Waiting(steps[i]);
        runState := Open;
        break;
      }
    }
    r := Run(policy, number, facts, runState, steps, []);
  }

  // ---- Deciding ----

  function FirstWaiting(steps: seq<RunStep>): (at: Option<nat>)
    ensures at.Some? ==>
      at.value < |steps| && Waiting(steps[at.value]) && forall j | 0 <= j < at.value :: !Waiting(steps[j])
    ensures at.None? ==> !AnyWaiting(steps)
  {
    if steps == [] then None
    else if Waiting(steps[0]) then Some(0)
    else
      var later := FirstWaiting(steps[1..]);
      if later.Some? then Some(later.value + 1) else None
  }

  /** The run after a decision on its first waiting step. */
  function DecideRun(r: Run, verdict: Verdict, actor: UserId, asDelegate: bool, selfApproved: bool): Run
    requires FirstWaiting(r.steps).Some?
  {
    var at := FirstWaiting(r.steps).value;
    var state := if verdict == Reject then StepRejected else Satisfied;
    var steps := r.steps[at := r.steps[at].(state := state)];
    Run(r.policy, r.number, r.facts,
        if verdict == Reject then Rejected else if AnyWaiting(steps) then r.state else Approved,
        steps, r.ledger + [Decision(at, verdict, actor, asDelegate, selfApproved)])
  }

  function CancelRun(r: Run): Run {
    if Live(r) then r.(state := Cancelled) else r
  }

  // ---- Shape ----

  /** What the ledger must hold for the decided steps, in step order. */
  function Verdicts(steps: seq<RunStep>): seq<(nat, Verdict)> {
    if steps == [] then []
    else
      var last := |steps| - 1;
      Verdicts(steps[..last])
      + (if Decided(steps[last]) then [(last, if steps[last].state == Satisfied then Approve else Reject)] else [])
  }

  function LedgerVerdicts(ledger: seq<Decision>): seq<(nat, Verdict)> {
    seq(|ledger|, k requires 0 <= k < |ledger| => (ledger[k].ord, ledger[k].verdict))
  }

  function Plan(steps: seq<RunStep>): seq<Content> {
    seq(|steps|, i requires 0 <= i < |steps| => steps[i].c)
  }

  /** The states a step may have, given whether the run holds an autoapprove. */
  predicate StepShape(s: RunStep, auto: bool) {
    match s.c.kind
    case Approval => if auto then s.state == Skipped else s.state != Skipped
    case AutoApprove => s.state == Satisfied
    case Condition => false
    case _ => s.state == Skipped
  }

  /** Approval steps read: satisfied ones, at most one rejected, then pending ones. */
  ghost predicate InOrder(steps: seq<RunStep>) {
    forall i, j | 0 <= i < j < |steps| && steps[i].c.kind == Approval && steps[j].c.kind == Approval ::
      && (Decided(steps[j]) ==> steps[i].state == Satisfied)
      && (steps[i].state == StepRejected ==> steps[j].state == Pending)
  }

  ghost predicate AnyRejected(steps: seq<RunStep>) {
    exists i :: 0 <= i < |steps| && steps[i].state == StepRejected
  }

  ghost predicate StateFits(state: RunState, steps: seq<RunStep>) {
    match state
    case Open => AnyWaiting(steps) && !AnyRejected(steps)
    case Approved => !AnyWaiting(steps) && !AnyRejected(steps)
    case Rejected => AnyRejected(steps)
    case Cancelled => !AnyRejected(steps)
  }

  ghost predicate WellShaped(r: Run) {
    var auto := HasAuto(Plan(r.steps));
    && (forall i | 0 <= i < |r.steps| :: StepShape(r.steps[i], auto))
    && (!auto ==> InOrder(r.steps))
    && StateFits(r.state, r.steps)
    && LedgerVerdicts(r.ledger) == Verdicts(r.steps)
  }

  lemma ArmedPlan(plan: seq<Content>)
    ensures Plan(ArmedSteps(plan)) == plan
  {
  }

  lemma {:induction false} NothingDecided(steps: seq<RunStep>)
    requires forall i | 0 <= i < |steps| :: !Decided(steps[i])
    ensures Verdicts(steps) == []
  {
    if steps != [] {
      NothingDecided(steps[..|steps| - 1]);
    }
  }

  /** A freshly armed run has the shape. */
  lemma ArmedIsWellShaped(policy: PolicyId, number: nat, facts: Facts, plan: seq<Content>)
    requires forall c | c in plan :: c.kind != Condition
    ensures WellShaped(NewRun(policy, number, facts, plan))
    ensures Live(NewRun(policy, number, facts, plan))
    ensures Plan(NewRun(policy, number, facts, plan).steps) == plan
  {
    var r := NewRun(policy, number, facts, plan);
    ArmedPlan(plan);
    forall i | 0 <= i < |plan| ensures StepShape(r.steps[i], HasAuto(plan)) && !Decided(r.steps[i]) {
      assert plan[i] in plan;
    }
    NothingDecided(r.steps);
  }

  /** Satisfying or rejecting the first waiting step adds its verdict at the end. */
  lemma {:induction false} VerdictsGrow(steps: seq<RunStep>, at: nat, state: StepState)
    requires at < |steps| && Waiting(steps[at]) && (state == Satisfied || state == StepRejected)
    requires forall j | at < j < |steps| :: !Decided(steps[j])
    ensures Verdicts(steps[at := steps[at].(state := state)])
         == Verdicts(steps) + [(at, if state == Satisfied then Approve else Reject)]
  {
    var last, steps' := |steps| - 1, steps[at := steps[at].(state := state)];
    if at == last {
      assert steps'[..last] == steps[..last];
    } else {
      VerdictsGrow(steps[..last], at, state);
      assert steps'[..last] == steps[..last][at := steps[at].(state := state)];
      assert !Decided(steps[last]);
    }
  }

  /** Nothing after the first waiting step of an open run has been decided. */
  lemma WaitingSplits(r: Run)
    requires WellShaped(r) && FirstWaiting(r.steps).Some?
    ensures !HasAuto(Plan(r.steps))
    ensures var at := FirstWaiting(r.steps).value;
      && (forall j | at < j < |r.steps| :: !Decided(r.steps[j]))
      && (forall j | 0 <= j < at && r.steps[j].c.kind == Approval :: Decided(r.steps[j]))
  {
    var at := FirstWaiting(r.steps).value;
    assert StepShape(r.steps[at], HasAuto(Plan(r.steps)));
  }

  /** A decision keeps the shape: the next step is decided and the ledger gains exactly its row. */
  lemma DecideKeepsShape(r: Run, verdict: Verdict, actor: UserId, asDelegate: bool, selfApproved: bool)
    requires WellShaped(r) && r.state == Open
    ensures FirstWaiting(r.steps).Some?
    ensures WellShaped(DecideRun(r, verdict, actor, asDelegate, selfApproved))
    ensures Plan(DecideRun(r, verdict, actor, asDelegate, selfApproved).steps) == Plan(r.steps)
  {
    hide InOrder, StepShape, AnyRejected, Verdicts, LedgerVerdicts, HasAuto;
    WaitingSplits(r);
    var at := FirstWaiting(r.steps).value;
    var state := if verdict == Reject then StepRejected else Satisfied;
    DecidedSteps(r.steps, at, state);
    DecidedPlan(r.steps, at, state);
    VerdictsGrow(r.steps, at, state);
    LedgerGrows(r.ledger, Decision(at, verdict, actor, asDelegate, selfApproved));
  }

  lemma DecidedPlan(steps: seq<RunStep>, at: nat, state: StepState)
    requires at < |steps|
    ensures Plan(steps[at := steps[at].(state := state)]) == Plan(steps)
  {
  }

  lemma LedgerGrows(ledger: seq<Decision>, d: Decision)
    ensures LedgerVerdicts(ledger + [d]) == LedgerVerdicts(ledger) + [(d.ord, d.verdict)]
  {
  }

  /** Deciding the first waiting step keeps the steps in order, and rejects one only by a reject. */
  lemma DecidedSteps(steps: seq<RunStep>, at: nat, state: StepState)
    requires at < |steps| && Waiting(steps[at]) && (state == Satisfied || state == StepRejected)
    requires InOrder(steps) && !AnyRejected(steps) && forall i | 0 <= i < |steps| :: StepShape(steps[i], false)
    requires forall j | at < j < |steps| :: !Decided(steps[j])
    requires forall j | 0 <= j < at && steps[j].c.kind == Approval :: Decided(steps[j])
    ensures var steps' := steps[at := steps[at].(state := state)];
      && InOrder(steps') && (forall i | 0 <= i < |steps'| :: StepShape(steps'[i], false))
      && (AnyRejected(steps') <==> state == StepRejected)
  {
    var steps' := steps[at := steps[at].(state := state)];
    assert steps'[at].state == state;
    assert forall i | 0 <= i < |steps| && i != at :: steps'[i] == steps[i] && steps[i].state != StepRejected;
  }

  lemma CancelKeepsShape(r: Run)
    requires WellShaped(r)
    ensures WellShaped(CancelRun(r)) && !Live(CancelRun(r)) && Plan(CancelRun(r).steps) == Plan(r.steps)
  {
  }

  /** Exactly one ledger row per decided step, in increasing step order. */
  lemma {:induction false} VerdictsExact(steps: seq<RunStep>)
    ensures forall k, m | 0 <= k < m < |Verdicts(steps)| :: Verdicts(steps)[k].0 < Verdicts(steps)[m].0
    ensures forall v | v in Verdicts(steps) ::
      v.0 < |steps| && Decided(steps[v.0]) && (v.1 == Approve <==> steps[v.0].state == Satisfied)
    ensures forall i | 0 <= i < |steps| && Decided(steps[i]) ::
      (i, if steps[i].state == Satisfied then Approve else Reject) in Verdicts(steps)
  {
    if steps != [] {
      var last := |steps| - 1;
      VerdictsExact(steps[..last]);
      var front := Verdicts(steps[..last]);
      assert forall k | 0 <= k < |front| :: front[k] in front;
    }
  }

  /** Read off a well-shaped run: the ledger holds one row per decided step, ords strictly increasing. */
  lemma LedgerExact(r: Run)
    requires WellShaped(r)
    ensures forall k, m | 0 <= k < m < |r.ledger| :: r.ledger[k].ord < r.ledger[m].ord
    ensures forall k | 0 <= k < |r.ledger| ::
      && r.ledger[k].ord < |r.steps| && Decided(r.steps[r.ledger[k].ord])
      && (r.ledger[k].verdict == Approve <==> r.steps[r.ledger[k].ord].state == Satisfied)
    ensures forall i | 0 <= i < |r.steps| && Decided(r.steps[i]) ::
      exists k :: 0 <= k < |r.ledger| && r.ledger[k].ord == i
  {
    VerdictsExact(r.steps);
    var vs := LedgerVerdicts(r.ledger);
    assert forall k | 0 <= k < |r.ledger| :: vs[k] == (r.ledger[k].ord, r.ledger[k].verdict) && vs[k] in vs;
    forall i | 0 <= i < |r.steps| && Decided(r.steps[i])
      ensures exists k :: 0 <= k < |r.ledger| && r.ledger[k].ord == i
    {
      var v := (i, if r.steps[i].state == Satisfied then Approve else Reject);
      assert v in vs;
      var k :| 0 <= k < |vs| && vs[k] == v;
      assert r.ledger[k].ord == i;
    }
  }
}
