/**
 What the reads show, in the columns of the policies, the runs, the roles and the members.
 */
module Showing {
  import opened Domain
  import opened Runs
  import opened Database
  import opened Gate
  import opened People
  import opened Deciders
  import Invoicing

  // ---- Who signs a role ----

  /** The k-th person in the list is the first there who may sign. */
  predicate FirstSigner(db: Db, staff: seq<UserId>, k: nat) {
    k < |staff| && MaySign(db, staff[k]) && forall j | 0 <= j < k :: !MaySign(db, staff[j])
  }

  lemma {:induction false} ActiveHead(db: Db, staff: seq<UserId>)
    ensures ActiveOf(db.members, staff) == [] <==> forall j | 0 <= j < |staff| :: !MaySign(db, staff[j])
    ensures ActiveOf(db.members, staff) != [] ==>
      exists k :: 0 <= k < |staff| && FirstSigner(db, staff, k) && ActiveOf(db.members, staff)[0] == staff[k]
  {
    hide MaySign, ActiveApprover, FirstSigner;
    if staff != [] {
      SignerColumns(db, staff[0]);
      var rest := staff[1..];
      ActiveHead(db, rest);
      if MaySign(db, staff[0]) {
        HeadSigns(db, staff);
      } else if ActiveOf(db.members, rest) != [] {
        var k :| 0 <= k < |rest| && FirstSigner(db, rest, k) && ActiveOf(db.members, rest)[0] == rest[k];
        FirstInRest(db, staff, k);
      } else {
        forall j | 0 <= j < |staff| ensures !MaySign(db, staff[j]) {
          assert j > 0 ==> staff[j] == rest[j - 1];
        }
      }
    }
  }

  lemma HeadSigns(db: Db, staff: seq<UserId>)
    requires staff != [] && MaySign(db, staff[0])
    ensures FirstSigner(db, staff, 0) && exists j :: 0 <= j < |staff| && MaySign(db, staff[j])
  {
  }

  lemma FirstInRest(db: Db, staff: seq<UserId>, k: nat)
    requires staff != [] && !MaySign(db, staff[0]) && FirstSigner(db, staff[1..], k)
    ensures FirstSigner(db, staff, k + 1) && staff[k + 1] == staff[1..][k]
  {
    hide MaySign;
    forall j | 0 < j < k + 1 ensures !MaySign(db, staff[j]) {
      assert staff[j] == staff[1..][j - 1];
    }
  }

  /**
   A role reads as missing when it is not live, as nobody when nobody is in it, as signed by the first in it who may
   sign, and as blocked on its first person when none may.
   */
  lemma ResolutionExactly(db: Db, key: Key)
    ensures var r := ResolutionOf(db, key);
      && (r.Missing? <==> !IsLive(db, key))
      && (r.Nobody? <==> IsLive(db, key) && db.roles[key].staff == [])
      && (r.Blocked? ==> IsLive(db, key) && (forall u | u in db.roles[key].staff :: !MaySign(db, u))
                         && db.roles[key].staff != [] && r.primary == db.roles[key].staff[0]
                         && r.extra == |db.roles[key].staff| - 1)
      && (r.Signs? ==> IsLive(db, key) && r.extra == |db.roles[key].staff| - 1
                       && exists k :: 0 <= k < |db.roles[key].staff| && FirstSigner(db, db.roles[key].staff, k)
                                      && r.primary == db.roles[key].staff[k])
      && (r.Signs? <==> IsLive(db, key) && exists u | u in db.roles[key].staff :: MaySign(db, u))
  {
    hide MaySign, FirstSigner, ActiveOf;
    if IsLive(db, key) {
      ActiveHead(db, db.roles[key].staff);
      FirstSigns(db, db.roles[key].staff);
    }
  }

  lemma FirstSigns(db: Db, staff: seq<UserId>)
    ensures forall k: nat | FirstSigner(db, staff, k) :: k < |staff| && MaySign(db, staff[k]) && staff[k] in staff
  {
    hide MaySign;
  }

  // ---- Gate and row ----

  /** Some version of some policy is active. */
  predicate SomeActive(db: Db) {
    exists id | id in db.policies ::
      exists n :: 0 <= n < |db.policies[id].versions| && db.policies[id].versions[n].active
  }

  predicate NonePending(steps: seq<RunStep>) {
    forall n | 0 <= n < |steps| :: !(steps[n].c.kind == Approval && steps[n].state == Pending)
  }

  lemma NextExactly(steps: seq<RunStep>)
    ensures forall n: nat :: NextPending(steps, n) <==> FirstWaiting(steps) == Some(n)
    ensures FirstWaiting(steps).None? ==> NonePending(steps)
  {
    hide NextPending;
    forall n: nat ensures NextPending(steps, n) <==> FirstWaiting(steps) == Some(n) {
      FirstIsNext(steps, n);
    }
    if FirstWaiting(steps).None? {
      forall n | 0 <= n < |steps| ensures !(steps[n].c.kind == Approval && steps[n].state == Pending) {
        assert !Waiting(steps[n]);
      }
    }
  }

  lemma ActiveColumn(db: Db)
    ensures AnyActive(db.policies) <==> SomeActive(db)
  {
    hide ActiveIndex;
    forall id | id in db.policies
      ensures ActiveIndex(db.policies[id].versions).Some? <==>
              exists n :: 0 <= n < |db.policies[id].versions| && db.policies[id].versions[n].active
    {
      Invoicing.ActiveSomewhere(db.policies[id].versions);
    }
  }

  /** The detail page's facts: the newest run's state, its next step, and how the person stands to it. */
  lemma GateFactsExactly(db: Db, i: InvoiceId, u: UserId)
    ensures var g, rs := GateFactsOf(db, i, u), RunsOf(db.runs, i);
      && (g.policyActive <==> SomeActive(db))
      && (g.approvedRun <==> exists r :: r in rs && r.state == Approved)
      && g.runState == (if rs == [] then None else Some(rs[|rs| - 1].state))
      && (g.pending.Some? ==> rs != [] && NextPending(rs[|rs| - 1].steps, g.pending.value)
                              && var c := rs[|rs| - 1].steps[g.pending.value].c;
                              && g.role == c.role && (g.delegate <==> StandsIn(c, u))
                              && (g.holds <==> InRole(db, c, u) && MaySign(db, u)))
      && (g.pending.None? ==> g.role.None? && !g.holds && !g.delegate
                              && (rs != [] ==> NonePending(rs[|rs| - 1].steps)))
  {
    hide AnyActive, SomeActive, FirstWaiting, NextPending, NonePending;
    hide InRole, MaySign, StandsIn, HoldsStep, DelegateMayDecide;
    ActiveColumn(db);
    var rs := RunsOf(db.runs, i);
    if rs != [] {
      NextExactly(rs[|rs| - 1].steps);
      var at := FirstWaiting(rs[|rs| - 1].steps);
      if at.Some? {
        Standing(db, rs[|rs| - 1].steps[at.value].c, u);
      }
    }
  }

  lemma Standing(db: Db, c: Content, u: UserId)
    ensures HoldsStep(db, c, u) <==> MaySign(db, u) && InRole(db, c, u)
    ensures DelegateMayDecide(c, u) <==> StandsIn(c, u)
  {
    SignerColumns(db, u);
  }

  /** The list row: it warns exactly when the next step names a role nobody in it may sign for. */
  lemma RowFactsExactly(db: Db, i: InvoiceId)
    ensures var row, rs := RowFactsOf(db, i), RunsOf(db.runs, i);
      && (row.None? <==> rs == [])
      && (row.Some? ==>
            && row.value.runState == rs[|rs| - 1].state
            && (row.value.pending.None? ==> row.value.role.None? && !row.value.warn && NonePending(rs[|rs| - 1].steps))
            && (row.value.pending.Some? ==>
                  && NextPending(rs[|rs| - 1].steps, row.value.pending.value)
                  && var c := rs[|rs| - 1].steps[row.value.pending.value].c;
                  && row.value.role == c.role && row.value.allow == c.allow && row.value.delegate == c.delegate
                  && (row.value.warn <==>
                        c.role.Some? && !(IsLive(db, c.role.value)
                                          && exists u | u in db.roles[c.role.value].staff :: MaySign(db, u)))))
  {
    hide FirstWaiting, NextPending, NonePending, MaySign, ResolutionOf, FirstSigner;
    var rs := RunsOf(db.runs, i);
    if rs != [] {
      NextExactly(rs[|rs| - 1].steps);
      var at := FirstWaiting(rs[|rs| - 1].steps);
      if at.Some? && rs[|rs| - 1].steps[at.value].c.role.Some? {
        ResolutionExactly(db, rs[|rs| - 1].steps[at.value].c.role.value);
      }
    }
  }

  // ---- Stranded runs ----

  /** A pending approval step whose role is unset, not live, or has nobody who may sign. */
  predicate NobodyFor(db: Db, s: RunStep) {
    && s.c.kind == Approval && s.state == Pending
    && (s.c.role.None? || !IsLive(db, s.c.role.value)
        || forall u | u in db.roles[s.c.role.value].staff :: !MaySign(db, u))
  }

  lemma NobodyExactly(db: Db, s: RunStep)
    ensures StrandedStep(db, s) <==> NobodyFor(db, s)
  {
    if s.c.role.Some? && IsLive(db, s.c.role.value) {
      var staff := db.roles[s.c.role.value].staff;
      var signers := set u | u in staff && ActiveApprover(db.members, u);
      forall u ensures ActiveApprover(db.members, u) <==> MaySign(db, u) {
        SignerColumns(db, u);
      }
      hide ActiveApprover, MaySign;
      if signers == {} {
        forall u | u in staff ensures !MaySign(db, u) {
          assert u !in signers;
        }
      } else {
        var u :| u in signers;
        assert u in staff && MaySign(db, u);
      }
    }
  }

  /**
   A run is reported exactly when it is open on a validated invoice and has, on whatever step, a pending approval
   nobody may sign. The report gives the first such step's role, says "deleted" exactly when that role is unset or
   not live, and "now" exactly when no earlier approval is pending.
   */
  lemma StrandingExactly(db: Db, i: InvoiceId, r: Run)
    ensures var line := StrandingOf(db, i, r);
      && (line.Some? <==>
            && i in db.invoices && db.invoices[i].status == Validated && r.state == Open
            && exists n :: 0 <= n < |r.steps| && NobodyFor(db, r.steps[n]))
      && (line.Some? ==>
            exists n: nat :: n < |r.steps| && NobodyFor(db, r.steps[n])
                        && (forall j | 0 <= j < n :: !NobodyFor(db, r.steps[j]))
                        && line.value.role == r.steps[n].c.role
                        && (line.value.reason == Deleted <==>
                              r.steps[n].c.role.None? || !IsLive(db, r.steps[n].c.role.value))
                        && (line.value.blocksNow <==> NextPending(r.steps, n)))
  {
    hide NobodyFor, StrandedStep, NextPending, FirstStranded, FirstWaiting;
    forall n | 0 <= n < |r.steps| ensures StrandedStep(db, r.steps[n]) <==> NobodyFor(db, r.steps[n]) {
      NobodyExactly(db, r.steps[n]);
    }
    NextExactly(r.steps);
    StrandedWaits(db, r.steps);
    var at := FirstStranded(db, r.steps);
    if at.Some? {
      assert NobodyFor(db, r.steps[at.value]);
    }
  }

  lemma StrandedWaits(db: Db, steps: seq<RunStep>)
    ensures FirstStranded(db, steps).Some? ==> FirstWaiting(steps).Some?
  {
    hide FirstStranded, FirstWaiting, SignerCount;
    var at := FirstStranded(db, steps);
    if at.Some? {
      assert Waiting(steps[at.value]);
    }
  }
}
