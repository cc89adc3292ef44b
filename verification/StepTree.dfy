/**
 The step tree of one policy version: what may be submitted, what may be published,
 and the run steps it stands for at a given invoice total.
 */
module StepTree {
  import opened Domain

  const MAX_SLA := 0x7fff_ffff
  const AMOUNT_CEILING: Money := 100_000_000_000_000

  /** Unicode white space, as trimming sees it. */
  predicate IsSpace(ch: char) {
    || '\t' <= ch <= '\r' || ch == ' ' || ch == '\U{0085}' || ch == '\U{00A0}' || ch == '\U{1680}'
    || '\U{2000}' <= ch <= '\U{200A}' || ch == '\U{2028}' || ch == '\U{2029}' || ch == '\U{202F}'
    || ch == '\U{205F}' || ch == '\U{3000}'
  }

  /** Text columns take no NUL. */
  predicate HasNul(text: Option<string>) {
    text.Some? && '\0' in text.value
  }

  predicate Blank(text: Option<string>) {
    text.None? || forall i | 0 <= i < |text.value| :: IsSpace(text.value[i])
  }

  /** The per-step checks; the numeric bounds hold whatever the kind. */
  predicate ValidContent(c: Content) {
    && !HasNul(c.role) && !HasNul(c.target) && !HasNul(c.channel)
    && (c.kind != Approval ==> !c.allow && c.delegate.None?)
    && (c.delegate.Some? ==> c.allow)
    && (c.op.Some? ==> c.op.value != ForeignOp)
    && (c.sla.Some? ==> 0 <= c.sla.value <= MAX_SLA)
    && (c.amount.Some? ==> -AMOUNT_CEILING < c.amount.value < AMOUNT_CEILING)
    && (c.kind == Condition ==> c.op.Some? && c.amount.Some?)
    && (c.kind == Notify ==> !Blank(c.target) && !Blank(c.channel))
  }

  /** The gate a submitted lane passes before it is stored. */
  predicate ValidLane(lane: seq<Step>, nested: bool) {
    lane == [] ||
    var s := lane[0];
    && s.c.kind != UnknownKind
    && !(s.c.kind == Condition && nested)
    && (s.c.kind != Condition ==> s.thn == [] && s.els == [])
    && ValidContent(s.c)
    && ValidLane(s.thn, true)
    && ValidLane(s.els, true)
    && ValidLane(lane[1..], nested)
  }

  predicate ValidTree(tree: seq<Step>) {
    ValidLane(tree, false)
  }

  /** The loop the source runs over one lane. */
  method CheckLane(lane: seq<Step>, nested: bool) returns (ok: bool)
    ensures ok == ValidLane(lane, nested)
    decreases lane
  {
    for i := 0 to |lane|
      invariant ValidLane(lane, nested) == ValidLane(lane[i..], nested)
    {
      var s := lane[i];
      assert lane[i..][0] == s && lane[i..][1..] == lane[i + 1..];
      if s.c.kind == UnknownKind || (s.c.kind == Condition && nested) {
        return false;
      }
      if s.c.kind != Condition && (|s.thn| > 0 || |s.els| > 0) {
        return false;
      }
      if !ValidContent(s.c) {
        return false;
      }
      var ok1 := CheckLane(s.thn, true);
      if !ok1 {
        return false;
      }
      var ok2 := CheckLane(s.els, true);
      if !ok2 {
        return false;
      }
    }
    assert lane[|lane|..] == [];
    return true;
  }

  // ---- What a tree names ----

  /** Every step anywhere in the tree, lanes included. */
  function Everywhere(tree: seq<Step>): set<Content> {
    if tree == [] then {} else
      {tree[0].c} + Everywhere(tree[0].thn) + Everywhere(tree[0].els) + Everywhere(tree[1..])
  }

  /** Conditions anywhere in the tree with nothing in either lane. */
  predicate HasEmptyCondition(tree: seq<Step>) {
    tree != [] &&
    ( || (tree[0].c.kind == Condition && tree[0].thn == [] && tree[0].els == [])
      || HasEmptyCondition(tree[0].thn)
      || HasEmptyCondition(tree[0].els)
      || HasEmptyCondition(tree[1..]))
  }

  predicate NamesRole(c: Content, key: Key) {
    c.kind == Approval && c.role == Some(key)
  }

  /** Some approval step of the tree names the role. */
  predicate TreeNamesRole(tree: seq<Step>, key: Key) {
    exists c | c in Everywhere(tree) :: NamesRole(c, key)
  }

  /** An approval step that can be published: its role key is set and live. */
  predicate RoleIsLive(c: Content, live: set<Key>) {
    c.kind == Approval ==> c.role.Some? && c.role.value != "" && c.role.value in live
  }

  /** Publish's walk over the stored tree; the first refusal wins. */
  function PublishRefusal(tree: seq<Step>, live: set<Key>): Option<Error> {
    if tree == [] then None else
      var s := tree[0];
      if !RoleIsLive(s.c, live) then Some(PolicyStepRole)
      else if s.c.kind == Condition && s.thn == [] && s.els == [] then Some(PolicyEmptyBranches)
      else
        var inThen := PublishRefusal(s.thn, live);
        if inThen.Some? then inThen else
          var inElse := PublishRefusal(s.els, live);
          if inElse.Some? then inElse else PublishRefusal(tree[1..], live)
  }

  method CheckForPublish(tree: seq<Step>, live: set<Key>) returns (refusal: Option<Error>)
    ensures refusal == PublishRefusal(tree, live)
    decreases tree
  {
    for i := 0 to |tree|
      invariant PublishRefusal(tree, live) == PublishRefusal(tree[i..], live)
    {
      var s := tree[i];
      assert tree[i..][0] == s && tree[i..][1..] == tree[i + 1..];
      match s.c.kind {
        case Approval =>
          var key := if s.c.role.Some? then s.c.role.value else "";
          if key == "" || key !in live {
            return Some(PolicyStepRole);
          }
        case Condition =>
          if |s.thn| == 0 && |s.els| == 0 {
            return Some(PolicyEmptyBranches);
          }
        case _ =>
      }
      refusal := CheckForPublish(s.thn, live);
      if refusal.Some? {
        return;
      }
      refusal := CheckForPublish(s.els, live);
      if refusal.Some? {
        return;
      }
    }
    assert tree[|tree|..] == [];
    return None;
  }

  /** A tree is publishable exactly when every approval step names a live role and no condition is bare. */
  lemma {:induction false} PublishableExactly(tree: seq<Step>, live: set<Key>)
    ensures PublishRefusal(tree, live).None? <==>
            (forall c | c in Everywhere(tree) :: RoleIsLive(c, live)) && !HasEmptyCondition(tree)
    decreases tree
  {
    if tree != [] {
      PublishableExactly(tree[0].thn, live);
      PublishableExactly(tree[0].els, live);
      PublishableExactly(tree[1..], live);
      assert Everywhere(tree)
          == {tree[0].c} + Everywhere(tree[0].thn) + Everywhere(tree[0].els) + Everywhere(tree[1..]);
    }
  }

  // ---- Interpretation ----

  /** An absent side reads as zero; an absent or foreign operator reads as false. */
  predicate Passes(c: Content, total: Option<Money>) {
    var v := if c.amount.Some? then c.amount.value else 0;
    var a := if total.Some? then total.value else 0;
    match c.op
    case Some(Above) => a > v
    case Some(AtLeast) => a >= v
    case Some(Below) => a < v
    case Some(AtMost) => a <= v
    case _ => false
  }

  /** A lane's steps without any condition. */
  function Plain(lane: seq<Step>): seq<Content> {
    if lane == [] then []
    else (if lane[0].c.kind == Condition then [] else [lane[0].c]) + Plain(lane[1..])
  }

  function Chosen(s: Step, total: Option<Money>): seq<Content> {
    if s.c.kind != Condition then [s.c]
    else Plain(if Passes(s.c, total) then s.thn else s.els)
  }

  /** The steps a tree stands for: each root, or the plain steps of the lane its condition picks. */
  function Interpret(tree: seq<Step>, total: Option<Money>): seq<Content> {
    if tree == [] then [] else Chosen(tree[0], total) + Interpret(tree[1..], total)
  }

  predicate HasAuto(plan: seq<Content>) {
    exists c :: c in plan && c.kind == AutoApprove
  }

  lemma AutoSplits(a: seq<Content>, b: seq<Content>)
    ensures HasAuto(a + b) == (HasAuto(a) || HasAuto(b))
  {
    assert forall c :: c in a + b <==> c in a || c in b;
  }

  /** Appends one lane to the run under construction. */
  method TakeLane(lane: seq<Step>, steps: seq<Content>, auto: bool) returns (steps': seq<Content>, auto': bool)
    ensures steps' == steps + Plain(lane)
    ensures auto' == (auto || HasAuto(Plain(lane)))
  {
    hide Plain, HasAuto;
    steps', auto' := steps, auto;
    ghost var done := [];
    NoneTaken();
    assert lane[0..] == lane;
    for i := 0 to |lane|
      invariant steps' == steps + done
      invariant done + Plain(lane[i..]) == Plain(lane)
      invariant auto' == (auto || HasAuto(done))
    {
      var n := lane[i];
      PlainUnfolds(lane, i);
      if n.c.kind != Condition {
        if n.c.kind == AutoApprove {
          auto' := true;
        }
        AutoSplits(done, [n.c]);
        AutoOne(n.c);
        assert done + ([n.c] + Plain(lane[i + 1..])) == (done + [n.c]) + Plain(lane[i + 1..]);
        steps' := steps' + [n.c];
        done := done + [n.c];
      }
    }
    assert lane[|lane|..] == [] && done + [] == done;
  }

  lemma NoneTaken()
    ensures Plain([]) == [] && !HasAuto([])
  {
  }

  lemma AutoOne(c: Content)
    ensures HasAuto([c]) <==> c.kind == AutoApprove
  {
    assert [c][0] == c;
  }

  lemma PlainUnfolds(lane: seq<Step>, i: nat)
    requires i < |lane|
    ensures Plain(lane[i..]) == (if lane[i].c.kind == Condition then [] else [lane[i].c]) + Plain(lane[i + 1..])
  {
    assert lane[i..][0] == lane[i] && lane[i..][1..] == lane[i + 1..];
  }

  lemma InterpretUnfolds(tree: seq<Step>, total: Option<Money>, i: nat)
    requires i < |tree|
    ensures Interpret(tree[i..], total) == Chosen(tree[i], total) + Interpret(tree[i + 1..], total)
  {
    assert tree[i..][0] == tree[i] && tree[i..][1..] == tree[i + 1..];
  }

  /** One pass over the root lane, as the engine walks it. */
  method Materialise(tree: seq<Step>, total: Option<Money>) returns (steps: seq<Content>, auto: bool)
    ensures steps == Interpret(tree, total)
    ensures auto == HasAuto(steps)
  {
    steps, auto := [], false;
    for i := 0 to |tree|
      invariant steps + Interpret(tree[i..], total) == Interpret(tree, total)
      invariant auto == HasAuto(steps)
    {
      var n := tree[i];
      var lane := if n.c.kind != Condition then [n] else if Passes(n.c, total) then n.thn else n.els;
      MaterialiseOne(steps, tree, i, lane, total);
      steps, auto := TakeLane(lane, steps, auto);
    }
    assert tree[|tree|..] == [];
  }

  lemma MaterialiseOne(steps: seq<Content>, tree: seq<Step>, i: nat, lane: seq<Step>, total: Option<Money>)
    requires i < |tree|
    requires lane == if tree[i].c.kind != Condition then [tree[i]]
                     else if Passes(tree[i].c, total) then tree[i].thn
                     else tree[i].els
    ensures steps + Interpret(tree[i..], total) == (steps + Plain(lane)) + Interpret(tree[i + 1..], total)
    ensures HasAuto(steps + Plain(lane)) == (HasAuto(steps) || HasAuto(Plain(lane)))
  {
    InterpretUnfolds(tree, total, i);
    ChosenIsPlain(tree[i], lane, total);
    hide *;
    AutoSplits(steps, Plain(lane));
    assert steps + (Plain(lane) + Interpret(tree[i + 1..], total))
        == (steps + Plain(lane)) + Interpret(tree[i + 1..], total);
  }

  lemma ChosenIsPlain(n: Step, lane: seq<Step>, total: Option<Money>)
    requires lane == if n.c.kind != Condition then [n] else if Passes(n.c, total) then n.thn else n.els
    ensures Chosen(n, total) == Plain(lane)
  {
    assert n.c.kind != Condition ==> lane[1..] == [];
  }

  /** No condition survives, and every run step is a step of the tree. */
  lemma {:induction false} InterpretNamesOnlyTree(tree: seq<Step>, total: Option<Money>)
    ensures forall c | c in Interpret(tree, total) :: c in Everywhere(tree) && c.kind != Condition
    decreases tree
  {
    if tree != [] {
      var s := tree[0];
      PlainNamesOnlyLane(s.thn);
      PlainNamesOnlyLane(s.els);
      InterpretNamesOnlyTree(tree[1..], total);
      assert forall c | c in Chosen(s, total) :: c in Everywhere(tree) && c.kind != Condition;
    }
  }

  lemma {:induction false} PlainNamesOnlyLane(lane: seq<Step>)
    ensures forall c | c in Plain(lane) :: c in Everywhere(lane) && c.kind != Condition
    decreases lane
  {
    if lane != [] {
      PlainNamesOnlyLane(lane[1..]);
    }
  }
}
