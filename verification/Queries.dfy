/**
 Facts about the engine's ordered reads and row-by-row passes, used where its transactions
 are carried out step by step.
 */
module Queries {
  import opened Domain
  import opened Matching
  import opened Runs
  import opened Database
  import opened Operations

  // ---- Ordered reads ----

  lemma LeastUnique(ps: Policies, s: set<PolicyId>, m: PolicyId)
    requires (forall x | x in s :: x in ps) && IsLeast(ps, s, m)
    ensures Least(ps, s) == m
  {
  }

  lemma TakeLeast(ps: Policies, s: set<PolicyId>, m: PolicyId)
    requires (forall x | x in s :: x in ps) && IsLeast(ps, s, m)
    ensures InOrderOf(ps, s) == [m] + InOrderOf(ps, s - {m})
  {
    LeastUnique(ps, s, m);
  }

  // ---- First match ----

  function InForceIds(ps: Policies): set<PolicyId> {
    set id | id in ps && InForcePolicy(ps, id)
  }

  function InForceOf(ps: Policies, id: PolicyId): InForce
    requires InForcePolicy(ps, id)
  {
    InForce(id, ActiveIndex(ps[id].versions).value, ActiveVersion(ps, id).scopes)
  }

  /** The versions as read: one per policy in force, in position order. */
  ghost predicate ReadsInForce(ps: Policies, versions: seq<InForce>) {
    var ids := InOrderOf(ps, InForceIds(ps));
    && |versions| == |ids|
    && forall k | 0 <= k < |ids| :: InForcePolicy(ps, ids[k]) && versions[k] == InForceOf(ps, ids[k])
  }

  /** Whoever created the invoice matters only to a version scoped by role. */
  lemma CreatorOnlyMattersToRoles(facts: Facts, roles: set<Key>, s: Scopes)
    requires s.roles == []
    ensures Applies(facts, roles, s) == Applies(facts, {}, s)
  {
  }

  lemma SearchedInOrder(ps: Policies, facts: Facts, roles: set<Key>, versions: seq<InForce>, at: nat)
    requires ReadsInForce(ps, versions) && at < |versions| && Applies(facts, roles, versions[at].scopes)
    requires forall j | 0 <= j < at :: !Applies(facts, roles, versions[j].scopes)
    ensures MatchedPolicy(ps, facts, roles) == Some(versions[at].policy)
  {
    var ids := InOrderOf(ps, InForceIds(ps));
    InOrderExact(ps, InForceIds(ps));
    hide Applies, ActiveIndex, InOrderOf, MatchedPolicy;
    var m := ids[at];
    assert Candidate(ps, facts, roles, m);
    forall q | q in ps && Candidate(ps, facts, roles, q) ensures q == m || Precedes(ps, m, q) {
      assert q in InForceIds(ps) && q in ids;
      var k :| 0 <= k < |ids| && ids[k] == q;
      assert versions[k].scopes == ActiveVersion(ps, q).scopes;
      assert k >= at;
    }
    FirstMatchUnique(ps, facts, roles, m);
  }

  lemma SearchFails(ps: Policies, facts: Facts, roles: set<Key>, versions: seq<InForce>)
    requires ReadsInForce(ps, versions) && forall j | 0 <= j < |versions| :: !Applies(facts, roles, versions[j].scopes)
    ensures MatchedPolicy(ps, facts, roles).None?
  {
    var ids := InOrderOf(ps, InForceIds(ps));
    InOrderExact(ps, InForceIds(ps));
    hide Applies, ActiveIndex, InOrderOf;
    forall q ensures !Candidate(ps, facts, roles, q) {
      if InForcePolicy(ps, q) {
        assert q in InForceIds(ps) && q in ids;
        var k :| 0 <= k < |ids| && ids[k] == q;
        assert versions[k].scopes == ActiveVersion(ps, q).scopes;
      }
    }
    MatchExists(ps, facts, roles);
  }

  // ---- Appending runs ----

  function Appended(runs: RunTable, i: InvoiceId, more: seq<Run>): RunTable {
    runs[i := RunsOf(runs, i) + more]
  }

  /** The backlog partly swept: the invoices done so far are armed, the rest are as they were. */
  ghost function SweptSoFar(db: Db, done: set<InvoiceId>): RunTable
    requires done <= db.invoices.Keys
  {
    map i | i in db.runs.Keys + done ::
      RunsOf(db.runs, i) + (if i in done then ArmedRuns(db.policies, db.roles, db.invoices[i]) else [])
  }

  lemma BacklogKnown(db: Db)
    ensures Backlog(db) <= db.invoices.Keys
  {
  }

  lemma SweepStarts(db: Db)
    ensures SweptSoFar(db, {}) == db.runs
  {
    assert forall i | i in db.runs :: RunsOf(db.runs, i) + [] == db.runs[i];
  }

  lemma SweepStep(db: Db, done: set<InvoiceId>, i: InvoiceId)
    requires done <= db.invoices.Keys && i in db.invoices && i !in done
    ensures Appended(SweptSoFar(db, done), i, ArmedRuns(db.policies, db.roles, db.invoices[i]))
        == SweptSoFar(db, done + {i})
  {
    hide ArmedRuns;
    var before, after := SweptSoFar(db, done), SweptSoFar(db, done + {i});
    assert RunsOf(before, i) == RunsOf(db.runs, i) by {
      assert RunsOf(db.runs, i) + [] == RunsOf(db.runs, i);
    }
    assert (db.runs.Keys + done) + {i} == db.runs.Keys + (done + {i});
  }

  lemma SweepEnds(db: Db)
    ensures SweptSoFar(db, Backlog(db)) == Swept(db)
  {
  }

  // ---- Reordering ----

  /** The requested order written row by row: the first k requested policies have their new positions. */
  ghost function ReorderedSoFar(ps: Policies, order: seq<PolicyId>, ids: seq<PolicyId>, k: nat): Policies
    requires k <= |ids| == |order| && forall x | x in order :: x in ps
  {
    map id | id in ps :: if id in ids[..k] then ps[id].(position := ps[order[IndexOf(ids[..k], id)]].position)
        else ps[id]
  }

  lemma {:induction false} IndexKept(ids: seq<PolicyId>, k: nat, id: PolicyId)
    requires k < |ids| && id in ids[..k]
    ensures id in ids[..k + 1] && IndexOf(ids[..k + 1], id) == IndexOf(ids[..k], id)
  {
    var a, b := ids[..k], ids[..k + 1];
    assert b == a + [ids[k]];
    IndexInPrefix(a, [ids[k]], id);
  }

  lemma {:induction false} IndexInPrefix(a: seq<PolicyId>, b: seq<PolicyId>, id: PolicyId)
    requires id in a
    ensures id in a + b && IndexOf(a + b, id) == IndexOf(a, id)
  {
    if a[0] != id {
      IndexInPrefix(a[1..], b, id);
      assert (a + b)[1..] == a[1..] + b;
    }
  }

  lemma {:induction false} IndexOfNew(a: seq<PolicyId>, id: PolicyId)
    requires id !in a
    ensures IndexOf(a + [id], id) == |a|
  {
    if a != [] {
      IndexOfNew(a[1..], id);
      assert (a + [id])[1..] == a[1..] + [id];
    }
  }

  lemma ReorderStep(ps: Policies, order: seq<PolicyId>, ids: seq<PolicyId>, k: nat)
    requires k < |ids| == |order| && (forall x | x in order :: x in ps) && ids[k] in ps && ids[k] !in ids[..k]
    ensures order[k] in ps
    ensures var before := ReorderedSoFar(ps, order, ids, k);
      ReorderedSoFar(ps, order, ids, k + 1) == before[ids[k] := before[ids[k]].(position := ps[order[k]].position)]
  {
    assert order[k] in order;
    assert ids[..k + 1] == ids[..k] + [ids[k]];
    IndexOfNew(ids[..k], ids[k]);
    forall id | id in ids[..k] ensures id in ids[..k + 1] && IndexOf(ids[..k + 1], id) == IndexOf(ids[..k], id) {
      IndexKept(ids, k, id);
    }
  }

  lemma ReorderEnds(ps: Policies, ids: seq<PolicyId>)
    requires |ids| == |LiveOrder(ps)| && forall x | x in LiveOrder(ps) :: x in ps
    ensures ReorderedSoFar(ps, LiveOrder(ps), ids, |ids|) == Reordered(ps, ids)
  {
    assert ids[..|ids|] == ids;
  }
}
