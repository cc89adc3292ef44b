/**
 Which policy an invoice is armed with, said in the columns of the policies, the roles and
 the invoice.
 */
module Routing {
  import opened Domain
  import opened StepTree
  import opened Matching
  import opened Database
  import opened Operations
  import opened Invariants

  // ---- A scope's columns ----

  /** An unset list admits everything; a set one admits what it lists. */
  predicate Lists<T(==)>(listed: seq<T>, x: T) {
    listed == [] || x in listed
  }

  /** The amount of the band's own currency lies between the bounds, both included; a missing bound is open. */
  predicate Between(b: Band, facts: Facts) {
    match (facts.total, facts.currency)
    case (Some(amount), Some(currency)) =>
      && currency == b.currency
      && !(b.lower.Some? && amount < b.lower.value) && !(b.upper.Some? && amount > b.upper.value)
    case _ => false
  }

  /** Some listed role is live and has the creator in it. */
  predicate CreatorIn(roles: Roles, listed: seq<Key>, creator: Option<UserId>) {
    exists k | k in listed :: k in roles && roles[k].live && creator.Some? && creator.value in roles[k].staff
  }

  predicate Admits(s: Scopes, roles: Roles, inv: Invoice) {
    && Lists(s.docTypes, inv.facts.docType) && Lists(s.entities, inv.facts.entity)
    && (s.band.None? || Between(s.band.value, inv.facts))
    && (s.roles == [] || CreatorIn(roles, s.roles, inv.creator))
  }

  lemma AdmitsExactly(s: Scopes, roles: Roles, inv: Invoice)
    ensures Admits(s, roles, inv) <==> Applies(inv.facts, CreatorRoles(roles, inv.creator), s)
  {
    var cr := CreatorRoles(roles, inv.creator);
    assert CreatorIn(roles, s.roles, inv.creator) <==> exists k | k in s.roles :: k in cr;
  }

  // ---- Laws of a scope ----

  /** A band takes its ends and what lies between them, and nothing beyond. */
  lemma BandEnds(low: Money, high: Money, currency: string, facts: Facts, amount: Money)
    requires facts.currency == Some(currency) && facts.total == Some(amount) && low <= high
    ensures amount == low || amount == high ==> InBand(facts, Band(Some(low), Some(high), currency))
    ensures InBand(facts, Band(Some(low), Some(high), currency)) <==> low <= amount <= high
    ensures InBand(facts, Band(Some(low), None, currency)) <==> low <= amount
    ensures InBand(facts, Band(None, Some(high), currency)) <==> amount <= high
  {
  }

  /** Another currency, an absent currency and an absent total are in no band. */
  lemma OutOfEveryBand(facts: Facts, b: Band)
    requires facts.currency != Some(b.currency) || facts.total.None?
    ensures !InBand(facts, b)
  {
  }

  /** Listing one more value in a set scope loses no invoice, and an invoice with that value passes that scope. */
  lemma ListingMore(s: Scopes, docType: string, entity: Entity, role: Key, facts: Facts, cr: set<Key>)
    requires Applies(facts, cr, s)
    ensures s.docTypes != [] ==> Applies(facts, cr, s.(docTypes := s.docTypes + [docType]))
    ensures s.entities != [] ==> Applies(facts, cr, s.(entities := s.entities + [entity]))
    ensures s.roles != [] ==> Applies(facts, cr, s.(roles := s.roles + [role]))
    ensures Applies(facts, cr, s.(docTypes := [docType, facts.docType]))
    ensures Applies(facts, cr, s.(entities := [entity, facts.entity]))
    ensures role in cr ==> Applies(facts, cr, s.(roles := [role]))
  {
    if k :| k in s.roles && k in cr {
      assert k in s.roles + [role];
    }
    assert role in [role];
  }

  /** A set scope that does not list the invoice's value refuses it. */
  lemma NotListed(s: Scopes, facts: Facts, cr: set<Key>)
    requires || (s.docTypes != [] && facts.docType !in s.docTypes)
             || (s.entities != [] && facts.entity !in s.entities)
             || (s.roles != [] && forall k | k in s.roles :: k !in cr)
    ensures !Applies(facts, cr, s)
  {
  }

  /** The scopes named as matched: document types first, then clients, band and roles; an unset one is not named. */
  lemma NamedInOrder(s: Scopes)
    ensures s.docTypes != [] ==> SetScopes(s) == [DocumentType] + SetScopes(s.(docTypes := []))
    ensures s.docTypes == [] && s.entities != [] ==> SetScopes(s) == [Client] + SetScopes(s.(entities := []))
    ensures s.docTypes == [] && s.entities == [] && s.band.Some? ==>
      SetScopes(s) == [AmountBand] + SetScopes(s.(band := None))
    ensures s.docTypes == [] && s.entities == [] && s.band.None? && s.roles != [] ==> SetScopes(s) == [CreatorRole]
    ensures SetScopes(Scopes([], [], [], None)) == []
  {
  }

  // ---- The policy armed with ----

  /** The n-th version of a live policy is the active one. */
  predicate ActiveAt(ps: Policies, id: PolicyId, n: nat) {
    id in ps && ps[id].live && n < |ps[id].versions| && ps[id].versions[n].active
  }

  /** Some version of the policy is in force and its scope columns admit the invoice. */
  predicate Opens(db: Db, inv: Invoice, id: PolicyId) {
    id in db.policies && exists n | 0 <= n < |db.policies[id].versions| ::
      ActiveAt(db.policies, id, n) && Admits(db.policies[id].versions[n].scopes, db.roles, inv)
  }

  /** Every other policy in force that admits the invoice stands below this one. */
  predicate Foremost(db: Db, inv: Invoice, id: PolicyId)
    requires id in db.policies
  {
    forall q | q in db.policies && q != id && Opens(db, inv, q) :: db.policies[id].position < db.policies[q].position
  }

  lemma ActiveByIndex(p: Policy, n: nat)
    requires History(p) && n < |p.versions|
    ensures p.versions[n].active <==> ActiveIndex(p.versions) == Some(n)
  {
    ActiveExactly(p);
  }

  lemma OpensExactly(db: Db, inv: Invoice, id: PolicyId)
    requires id in db.policies ==> History(db.policies[id])
    ensures Opens(db, inv, id) <==> Candidate(db.policies, inv.facts, CreatorRoles(db.roles, inv.creator), id)
  {
    hide Admits, Applies, CreatorRoles, ActiveIndex, History;
    if id in db.policies {
      var p := db.policies[id];
      forall n | 0 <= n < |p.versions|
        ensures p.versions[n].active <==> ActiveIndex(p.versions) == Some(n)
        ensures Admits(p.versions[n].scopes, db.roles, inv)
            <==> Applies(inv.facts, CreatorRoles(db.roles, inv.creator), p.versions[n].scopes)
      {
        ActiveByIndex(p, n);
        AdmitsExactly(p.versions[n].scopes, db.roles, inv);
      }
    }
  }

  lemma MatchedExactly(db: Db, inv: Invoice, id: PolicyId)
    requires PositionsDistinct(db.policies) && forall q | q in db.policies :: History(db.policies[q])
    ensures MatchedPolicy(db.policies, inv.facts, CreatorRoles(db.roles, inv.creator)) == Some(id)
       <==> Opens(db, inv, id) && Foremost(db, inv, id)
  {
    hide Applies, CreatorRoles, ActiveIndex, History, Opens, Admits;
    var cr := CreatorRoles(db.roles, inv.creator);
    forall q ensures Opens(db, inv, q) <==> Candidate(db.policies, inv.facts, cr, q) {
      OpensExactly(db, inv, q);
    }
    if Opens(db, inv, id) && Foremost(db, inv, id) {
      assert IsFirstMatch(db.policies, inv.facts, cr, id);
      FirstMatchUnique(db.policies, inv.facts, cr, id);
    }
  }

  /**
   In every reachable state arming opens a run on the n-th version of a policy exactly when that version is active
   in a live policy, its scope columns admit the invoice, and no policy in force that admits it stands above. The
   run keeps the invoice's facts and has an empty ledger.
   */
  lemma {:induction false} RoutedExactly(ws: Workspace, ops: seq<Op>, inv: Invoice, id: PolicyId, n: nat)
    ensures var db := Replay(ws, ops);
      var rs := ArmedRuns(db.policies, db.roles, inv);
      && ((rs != [] && rs[0].policy == id && rs[0].number == n) <==>
            && ActiveAt(db.policies, id, n) && Admits(db.policies[id].versions[n].scopes, db.roles, inv)
            && Foremost(db, inv, id))
      && (rs != [] ==> rs[0].facts == inv.facts && rs[0].ledger == [])
  {
    hide Replay, Inv, Foremost, Admits, Applies, CreatorRoles, History, ScopesKnown, InvoiceOk, CatchAllLast;
    hide ActiveIndex, Interpret, PositionsDistinct, MatchedPolicy, Opens;
    Reachable(ws, ops);
    var db := Replay(ws, ops);
    InvParts(db);
    MatchedExactly(db, inv, id);
    if id in db.policies && n < |db.policies[id].versions| {
      ActiveByIndex(db.policies[id], n);
      OpensAt(db, inv, id, n);
    }
  }

  lemma OpensAt(db: Db, inv: Invoice, id: PolicyId, n: nat)
    requires id in db.policies && History(db.policies[id]) && n < |db.policies[id].versions|
    ensures ActiveAt(db.policies, id, n) && Admits(db.policies[id].versions[n].scopes, db.roles, inv)
       <==> Opens(db, inv, id) && ActiveIndex(db.policies[id].versions) == Some(n)
  {
    hide Admits, ActiveIndex, History;
    forall m | 0 <= m < |db.policies[id].versions|
      ensures db.policies[id].versions[m].active <==> ActiveIndex(db.policies[id].versions) == Some(m)
    {
      ActiveByIndex(db.policies[id], m);
    }
    if ActiveIndex(db.policies[id].versions).Some? {
      ActiveOnlyLive(db.policies[id]);
    }
  }

  lemma ActiveOnlyLive(p: Policy)
    requires History(p) && ActiveIndex(p.versions).Some?
    ensures p.live
  {
    ActiveExactly(p);
  }
}
