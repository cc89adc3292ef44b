/**
 What a step tree compiles to, said of the compile itself: which lane a condition picks at
 which total, that absent sides read as zero, and that roots compile one after the other.
 */
module Compiling {
  import opened Domain
  import opened StepTree
  import opened Runs

  /** A condition with its two lanes, compiled alone. */
  function Forked(c: Content, thn: seq<Step>, els: seq<Step>, total: Option<Money>): seq<Content> {
    Interpret([Step(c, thn, els)], total)
  }

  /** A condition on the operator and amount; nothing else of it matters to a compile. */
  predicate Asks(c: Content, op: Option<CondOp>, amount: Option<Money>) {
    c.kind == Condition && c.op == op && c.amount == amount
  }

  function Contents(lane: seq<Step>): seq<Content> {
    seq(|lane|, i requires 0 <= i < |lane| => lane[i].c)
  }

  predicate NoConditions(lane: seq<Step>) {
    forall i | 0 <= i < |lane| :: lane[i].c.kind != Condition
  }

  // ---- Roots and lanes ----

  /** Roots compile in order, each on its own; a root that is no condition compiles to itself. */
  lemma {:induction false} RootsInOrder(a: seq<Step>, b: seq<Step>, total: Option<Money>)
    ensures Interpret(a + b, total) == Interpret(a, total) + Interpret(b, total)
  {
    hide Interpret, Chosen;
    if a == [] {
      NoRoots(total);
      assert a + b == b;
    } else {
      RootsInOrder(a[1..], b, total);
      assert (a + b)[1..] == a[1..] + b;
      HeadRoot(a, total);
      HeadRoot(a + b, total);
    }
  }

  lemma HeadRoot(tree: seq<Step>, total: Option<Money>)
    requires tree != []
    ensures Interpret(tree, total) == Chosen(tree[0], total) + Interpret(tree[1..], total)
  {
    hide Chosen;
  }

  lemma NoRoots(total: Option<Money>)
    ensures Interpret([], total) == []
  {
  }

  lemma OneRoot(s: Step, total: Option<Money>)
    ensures Interpret([s], total) == Chosen(s, total)
  {
    hide Chosen;
    assert [s][1..] == [];
    assert Chosen(s, total) + [] == Chosen(s, total);
  }

  lemma PlainRoot(s: Step, total: Option<Money>)
    requires s.c.kind != Condition
    ensures Interpret([s], total) == [s.c]
  {
    OneRoot(s, total);
  }

  /** A lane holding no condition contributes all its steps, in order. */
  lemma {:induction false} WholeLane(lane: seq<Step>)
    requires NoConditions(lane)
    ensures Plain(lane) == Contents(lane)
  {
    if lane != [] {
      assert NoConditions(lane[1..]);
      WholeLane(lane[1..]);
      assert Contents(lane) == [lane[0].c] + Contents(lane[1..]);
    }
  }

  // ---- What a condition picks ----

  lemma ForkPicks(c: Content, thn: seq<Step>, els: seq<Step>, total: Option<Money>)
    requires c.kind == Condition && NoConditions(thn) && NoConditions(els)
    ensures Forked(c, thn, els, total) == Contents(if Passes(c, total) then thn else els)
  {
    hide Plain, Passes, Interpret, NoConditions, Contents;
    OneRoot(Step(c, thn, els), total);
    WholeLane(thn);
    WholeLane(els);
  }

  /** For every amount and total the then lane runs exactly when the comparison asked for holds. */
  lemma ConditionExactly(c: Content, v: Money, a: Money, thn: seq<Step>, els: seq<Step>)
    requires NoConditions(thn) && NoConditions(els)
    ensures Asks(c, Some(Above), Some(v)) ==> Forked(c, thn, els, Some(a)) == Contents(if a > v then thn else els)
    ensures Asks(c, Some(AtLeast), Some(v)) ==> Forked(c, thn, els, Some(a)) == Contents(if a >= v then thn else els)
    ensures Asks(c, Some(Below), Some(v)) ==> Forked(c, thn, els, Some(a)) == Contents(if a < v then thn else els)
    ensures Asks(c, Some(AtMost), Some(v)) ==> Forked(c, thn, els, Some(a)) == Contents(if a <= v then thn else els)
  {
    if c.kind == Condition {
      ForkPicks(c, thn, els, Some(a));
    }
  }

  /** Just under, at and just over the amount asked about. */
  lemma AroundTheAmount(c: Content, v: Money, thn: seq<Step>, els: seq<Step>)
    requires NoConditions(thn) && NoConditions(els) && c.kind == Condition && c.amount == Some(v)
    ensures var under, at, over :=
        Forked(c, thn, els, Some(v - 1)), Forked(c, thn, els, Some(v)), Forked(c, thn, els, Some(v + 1));
      && (c.op == Some(Above) ==> under == at == Contents(els) && over == Contents(thn))
      && (c.op == Some(AtLeast) ==> under == Contents(els) && at == over == Contents(thn))
      && (c.op == Some(Below) ==> under == Contents(thn) && at == over == Contents(els))
      && (c.op == Some(AtMost) ==> under == at == Contents(thn) && over == Contents(els))
  {
    hide Forked, Contents, NoConditions;
    ConditionExactly(c, v, v - 1, thn, els);
    ConditionExactly(c, v, v, thn, els);
    ConditionExactly(c, v, v + 1, thn, els);
  }

  /** Once a total is over the line it stays over it: a larger total keeps the lane a smaller one got. */
  lemma MonotoneInTotal(c: Content, a: Money, b: Money, thn: seq<Step>, els: seq<Step>)
    requires NoConditions(thn) && NoConditions(els) && c.kind == Condition && a <= b
    ensures c.op in {Some(Above), Some(AtLeast)} && Forked(c, thn, els, Some(a)) == Contents(thn) ==>
              Forked(c, thn, els, Some(b)) == Contents(thn)
    ensures c.op in {Some(Below), Some(AtMost)} && Forked(c, thn, els, Some(b)) == Contents(thn) ==>
              Forked(c, thn, els, Some(a)) == Contents(thn)
  {
    ForkPicks(c, thn, els, Some(a));
    ForkPicks(c, thn, els, Some(b));
    hide Forked, NoConditions, Contents;
  }

  /** Above with the lanes swapped is at-most, and at-least with the lanes swapped is below, whatever the sides. */
  lemma SwappedLanes(c: Content, d: Content, total: Option<Money>, thn: seq<Step>, els: seq<Step>)
    requires NoConditions(thn) && NoConditions(els) && c.kind == Condition && d.kind == Condition
    requires c.amount == d.amount
    requires (c.op, d.op) in {(Some(Above), Some(AtMost)), (Some(AtLeast), Some(Below))}
    ensures Forked(c, thn, els, total) == Forked(d, els, thn, total)
  {
    ForkPicks(c, thn, els, total);
    ForkPicks(d, els, thn, total);
  }

  /** An absent total or amount compiles as zero. */
  lemma AbsentIsZero(c: Content, total: Option<Money>, thn: seq<Step>, els: seq<Step>)
    requires NoConditions(thn) && NoConditions(els) && c.kind == Condition
    ensures Forked(c, thn, els, None) == Forked(c, thn, els, Some(0))
    ensures c.amount.None? ==> Forked(c, thn, els, total) == Forked(c.(amount := Some(0)), thn, els, total)
  {
    ForkPicks(c, thn, els, None);
    ForkPicks(c, thn, els, Some(0));
    ForkPicks(c, thn, els, total);
    ForkPicks(c.(amount := Some(0)), thn, els, total);
  }

  /** An absent or foreign operator takes the else lane. */
  lemma NoOperator(c: Content, total: Option<Money>, thn: seq<Step>, els: seq<Step>)
    requires NoConditions(thn) && NoConditions(els) && c.kind == Condition && c.op in {None, Some(ForeignOp)}
    ensures Forked(c, thn, els, total) == Contents(els)
  {
    ForkPicks(c, thn, els, total);
  }

  // ---- What a submitted tree may hold ----

  /** The columns of a step that may be stored, each bound written out. */
  predicate Storable(c: Content) {
    && c.kind in {Approval, Condition, Notify, AutoApprove}
    && (c.delegate.Some? ==> c.allow) && (c.allow ==> c.kind == Approval)
    && c.op in {None, Some(Above), Some(AtLeast), Some(Below), Some(AtMost)}
    && (c.kind == Condition ==> c.op != None && c.amount != None)
    && (c.amount.Some? ==> -100_000_000_000_000 < c.amount.value < 100_000_000_000_000)
    && (c.sla.Some? ==> 0 <= c.sla.value <= 2_147_483_647)
    && (c.kind == Notify ==> c.target.Some? && c.channel.Some? && HasInk(c.target.value) && HasInk(c.channel.value))
    && Clean(c.role) && Clean(c.target) && Clean(c.channel)
  }

  predicate HasInk(text: string) {
    exists i :: 0 <= i < |text| && !IsSpace(text[i])
  }

  predicate Clean(text: Option<string>) {
    text.Some? ==> forall i | 0 <= i < |text.value| :: text.value[i] != '\0'
  }

  /** Conditions stand at the root only and alone have lanes. */
  predicate TwoDeep(tree: seq<Step>) {
    forall i | 0 <= i < |tree| ::
      if tree[i].c.kind == Condition then Flat(tree[i].thn) && Flat(tree[i].els)
      else tree[i].thn == [] && tree[i].els == []
  }

  predicate Flat(lane: seq<Step>) {
    forall i | 0 <= i < |lane| :: lane[i].c.kind != Condition && lane[i].thn == [] && lane[i].els == []
  }

  lemma StorableExactly(c: Content)
    ensures Storable(c) <==> c.kind != UnknownKind && ValidContent(c)
  {
    if c.target.Some? {
      assert Blank(c.target) <==> !HasInk(c.target.value);
    }
    if c.channel.Some? {
      assert Blank(c.channel) <==> !HasInk(c.channel.value);
    }
    assert HasNul(c.role) <==> !Clean(c.role);
    assert HasNul(c.target) <==> !Clean(c.target);
    assert HasNul(c.channel) <==> !Clean(c.channel);
  }

  lemma {:induction false} FlatAccepted(lane: seq<Step>)
    ensures ValidLane(lane, true) <==> Flat(lane) && forall c | c in Everywhere(lane) :: Storable(c)
  {
    hide Storable, ValidContent;
    if lane != [] {
      StorableExactly(lane[0].c);
      FlatAccepted(lane[1..]);
      assert Flat(lane) <==>
             lane[0].c.kind != Condition && lane[0].thn == [] && lane[0].els == [] && Flat(lane[1..]);
      assert Everywhere([]) == {} && ValidLane([], true);
    }
  }

  /** A submitted tree is accepted exactly when it is two deep and every step anywhere in it is storable. */
  lemma {:induction false} AcceptedExactly(tree: seq<Step>)
    ensures ValidTree(tree) <==> TwoDeep(tree) && forall c | c in Everywhere(tree) :: Storable(c)
  {
    hide Storable, ValidContent, Flat;
    if tree != [] {
      StorableExactly(tree[0].c);
      FlatAccepted(tree[0].thn);
      FlatAccepted(tree[0].els);
      NothingIsFlat();
      AcceptedExactly(tree[1..]);
      RootsApart(tree);
    }
  }

  lemma NothingIsFlat()
    ensures Flat([]) && ValidLane([], true) && Everywhere([]) == {}
  {
  }

  lemma RootsApart(tree: seq<Step>)
    requires tree != []
    ensures TwoDeep(tree) <==> TwoDeep([tree[0]]) && TwoDeep(tree[1..])
    ensures TwoDeep([tree[0]]) <==>
              if tree[0].c.kind == Condition then Flat(tree[0].thn) && Flat(tree[0].els)
              else tree[0].thn == [] && tree[0].els == []
  {
    hide Flat;
    assert [tree[0]][0] == tree[0];
  }

  lemma {:induction false} NothingBare(lane: seq<Step>)
    requires Flat(lane)
    ensures !HasEmptyCondition(lane)
  {
    if lane != [] {
      assert Flat(lane[1..]);
      NothingBare(lane[1..]);
    }
  }

  /** In a tree two deep a bare condition is a root with both lanes empty. */
  lemma {:induction false} BareExactly(tree: seq<Step>)
    requires TwoDeep(tree)
    ensures HasEmptyCondition(tree) <==>
              exists i :: 0 <= i < |tree| && tree[i].c.kind == Condition && tree[i].thn == [] && tree[i].els == []
  {
    hide Flat;
    if tree != [] {
      RootsApart(tree);
      NothingIsFlat();
      NothingBare(tree[0].thn);
      NothingBare(tree[0].els);
      BareExactly(tree[1..]);
      if i :| 0 <= i < |tree| && tree[i].c.kind == Condition && tree[i].thn == [] && tree[i].els == [] && i > 0 {
        assert tree[1..][i - 1] == tree[i];
      }
      assert forall i | 0 <= i < |tree| - 1 :: tree[1..][i] == tree[i + 1];
    }
  }

  // ---- The run a plan opens ----

  predicate Holds(plan: seq<Content>, kind: Kind) {
    exists i :: 0 <= i < |plan| && plan[i].kind == kind
  }

  /**
   With an autoapprove anywhere every approval is skipped and the run is written approved; else every approval is
   pending, and the run is open exactly when there is one. Notices are skipped either way.
   */
  lemma OpenedExactly(policy: PolicyId, number: nat, facts: Facts, plan: seq<Content>)
    ensures var r := NewRun(policy, number, facts, plan);
      && r.state == (if Holds(plan, Approval) && !Holds(plan, AutoApprove) then Open else Approved)
      && |r.steps| == |plan|
      && forall i | 0 <= i < |plan| ::
        && r.steps[i].c == plan[i]
        && (plan[i].kind == AutoApprove ==> r.steps[i].state == Satisfied)
        && (plan[i].kind == Approval ==> r.steps[i].state == if Holds(plan, AutoApprove) then Skipped else Pending)
        && (plan[i].kind !in {AutoApprove, Approval} ==> r.steps[i].state == Skipped)
  {
    assert HasAuto(plan) <==> Holds(plan, AutoApprove);
    var steps := ArmedSteps(plan);
    if Holds(plan, Approval) && !Holds(plan, AutoApprove) {
      var i :| 0 <= i < |plan| && plan[i].kind == Approval;
      assert Waiting(steps[i]);
    }
  }
}
