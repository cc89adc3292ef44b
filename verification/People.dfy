/**
 Members and roles in their own columns: who is an admin, who may sign, and for every change
 of people exactly when it goes through and what it leaves.
 */
module People {
  import opened Domain
  import opened Runs
  import opened Database
  import opened Operations
  import RoleKey

  // ---- Columns ----

  predicate IsAdmin(db: Db, u: UserId) {
    u in db.members && db.members[u].standing == Active && db.members[u].access == Admin
  }

  /** An active admin or reviewer. */
  predicate MaySign(db: Db, u: UserId) {
    u in db.members && db.members[u].standing == Active && db.members[u].access in {Admin, Reviewer}
  }

  predicate SoleAdmin(db: Db, u: UserId) {
    IsAdmin(db, u) && forall v | v in db.members && v != u :: !IsAdmin(db, v)
  }

  predicate IsLive(db: Db, key: Key) {
    key in db.roles && db.roles[key].live
  }

  /** A validated invoice has an open run with a pending approval step on the role. */
  predicate Awaits(db: Db, key: Key, i: InvoiceId) {
    i in db.invoices && i in db.runs && db.invoices[i].status == Validated &&
    exists r | r in db.runs[i] :: r.state == Open &&
      exists s | s in r.steps :: s.c.kind == Approval && s.state == Pending && s.c.role == Some(key)
  }

  predicate Awaited(db: Db, key: Key) {
    exists i | i in db.invoices :: Awaits(db, key, i)
  }

  /** Some role that runs wait on has the person in it and nobody else who may sign. */
  predicate OnlySigner(db: Db, u: UserId) {
    exists k | k in db.roles :: IsLive(db, k) && u in db.roles[k].staff && Awaited(db, k)
      && forall v | v in db.roles[k].staff :: v == u || !MaySign(db, v)
  }

  lemma SignerColumns(db: Db, u: UserId)
    ensures ActiveAdmin(db.members, u) <==> IsAdmin(db, u)
    ensures ActiveApprover(db.members, u) <==> MaySign(db, u)
    ensures LastActiveAdminIs(db.members, u) <==> SoleAdmin(db, u)
  {
  }

  lemma AwaitedColumns(db: Db, key: Key)
    ensures LiveRole(db.roles, key) <==> IsLive(db, key)
    ensures WaitingInvoices(db, key) != {} <==> IsLive(db, key) && Awaited(db, key)
  {
    forall i | i in db.invoices ensures WaitsOnRole(db, i, key) <==> Awaits(db, key, i) {
      WaitsColumns(db, key, i);
    }
    hide WaitsOnRole, Awaits;
    if IsLive(db, key) && Awaited(db, key) {
      var i :| i in db.invoices && Awaits(db, key, i);
      assert i in WaitingInvoices(db, key);
    }
  }

  lemma WaitsColumns(db: Db, key: Key, i: InvoiceId)
    ensures WaitsOnRole(db, i, key) <==> Awaits(db, key, i)
  {
    if Awaits(db, key, i) {
      var r :| r in db.runs[i] && r.state == Open &&
               exists s | s in r.steps :: s.c.kind == Approval && s.state == Pending && s.c.role == Some(key);
      assert WaitsFor(r, key);
    }
  }

  lemma SignedColumns(db: Db, key: Key)
    ensures Signed(db.members, db.roles, key) <==>
              IsLive(db, key) && exists u | u in db.roles[key].staff :: MaySign(db, u)
  {
  }

  /** Whether a role waits does not depend on who its people are. */
  lemma SameAwaited(db: Db, db': Db, key: Key)
    requires db'.invoices == db.invoices && db'.runs == db.runs
    ensures Awaited(db', key) == Awaited(db, key)
  {
    forall i ensures Awaits(db', key, i) == Awaits(db, key, i) {
    }
    hide Awaits;
  }

  // ---- Roles ----

  /** A new role is live and empty under a key that was free; nothing else changes. */
  lemma CreateRoleExactly(db: Db, caller: UserId, title: string)
    ensures CreateRole(db, caller, title).Ok? <==> title != "" && IsAdmin(db, caller)
    ensures CreateRole(db, caller, title).Ok? ==>
      exists key :: key !in db.roles && RoleKey.IsKey(key)
                    && CreateRole(db, caller, title).db == db.(roles := db.roles[key := Role(true, [])])
  {
    RoleKey.MintedKey(db.roles.Keys, title);
    hide RoleKey.Minted, RoleKey.IsKey;
    var key := RoleKey.Minted(db.roles.Keys, title);
    assert key !in db.roles && RoleKey.IsKey(key);
  }

  /** The ids are all different. */
  predicate AllDifferent(ids: seq<UserId>) {
    forall i, j | 0 <= i < |ids| && 0 <= j < |ids| && ids[i] == ids[j] :: i == j
  }

  /**
   Staffing goes through exactly for an active admin, a live role, different ids of members not removed, and, while
   a run waits on the role, somebody among them who may sign. The role then holds exactly the list, in its order;
   every other role and every member is as it was.
   */
  lemma StaffingExactly(db: Db, caller: UserId, key: Key, ids: seq<UserId>)
    ensures SetRoleMembers(db, caller, key, ids).Ok? <==>
      && IsAdmin(db, caller) && IsLive(db, key) && AllDifferent(ids)
      && (forall u | u in ids :: u in db.members && db.members[u].standing != Removed)
      && (Awaited(db, key) ==> exists u | u in ids :: MaySign(db, u))
    ensures SetRoleMembers(db, caller, key, ids).Ok? ==>
      var db' := SetRoleMembers(db, caller, key, ids).db;
      && db'.roles.Keys == db.roles.Keys && db'.roles[key].live && db'.roles[key].staff == ids
      && (forall k | k in db.roles && k != key :: db'.roles[k] == db.roles[k])
      && db'.members == db.members
  {
    hide WaitingInvoices, Signed, Awaited;
    var db' := db.(roles := db.roles[key := Role(true, ids)]);
    SignerColumns(db, caller);
    AwaitedColumns(db', key);
    SameAwaited(db, db', key);
    SignedColumns(db', key);
    assert Distinct(ids) <==> AllDifferent(ids);
  }

  // ---- Members ----

  lemma KeepsSigners(db: Db, db': Db, u: UserId)
    requires db'.invoices == db.invoices && db'.runs == db.runs && db'.roles.Keys == db.roles.Keys
    requires forall k | k in db.roles :: db'.roles[k].live == db.roles[k].live
    requires forall k, v | k in db.roles && v != u :: v in db'.roles[k].staff <==> v in db.roles[k].staff
    requires forall v | v != u :: v in db'.members <==> v in db.members
    requires forall v | v in db.members && v != u :: db'.members[v] == db.members[v]
    requires !MaySign(db', u)
    ensures KeepSigners(db', StaffedKeys(db.roles, u)) == if OnlySigner(db, u) then Err(RoleInUse) else Ok(db')
  {
    hide WaitingInvoices, Signed, Awaited;
    forall k | k in db.roles
      ensures UnsignedWaiting(db', k) <==>
              IsLive(db, k) && Awaited(db, k) && forall v | v in db.roles[k].staff :: v == u || !MaySign(db, v)
    {
      AwaitedColumns(db', k);
      SameAwaited(db, db', k);
      SignedColumns(db', k);
      if v :| v in db.roles[k].staff && v != u && MaySign(db, v) {
        assert v in db'.roles[k].staff && MaySign(db', v);
      }
      if v :| v in db'.roles[k].staff && MaySign(db', v) {
        assert v in db.roles[k].staff && MaySign(db, v);
      }
    }
    hide UnsignedWaiting, MaySign;
  }

  /** A person not on the books, or removed from them, joins as an active member with the access given. */
  lemma JoinExactly(db: Db, u: UserId, access: Access, allClients: bool, clients: set<Entity>, joined: int)
    ensures var r := Join(db, u, access, allClients, clients, joined);
      && (r.Ok? <==> u in db.members ==> db.members[u].standing == Removed)
      && (r.Ok? ==> u in r.db.members && r.db.members[u].standing == Active && r.db.members[u].access == access
                    && r.db.members[u].allClients == allClients && r.db.members[u].clients == clients
                    && r.db.members[u].joined == joined
                    && (forall v | v in db.members && v != u :: v in r.db.members && r.db.members[v] == db.members[v])
                    && r.db.members.Keys == db.members.Keys + {u})
  {
  }

  /**
   A member is suspended or brought back exactly by an active admin, when active or suspended, and a suspension
   neither takes the sole active admin nor the only one who may sign a role that runs wait on.
   */
  lemma StandingExactly(db: Db, caller: UserId, u: UserId, suspend: bool)
    ensures var r := SetStanding(db, caller, u, suspend);
      && (r.Ok? <==>
            && IsAdmin(db, caller) && u in db.members && db.members[u].standing in {Active, Suspended}
            && (suspend && db.members[u].standing == Active ==> !SoleAdmin(db, u) && !OnlySigner(db, u)))
      && (r.Ok? ==> r.db == db.(members := db.members[u := db.members[u].(standing :=
                                                if suspend then Suspended else Active)]))
  {
    hide SoleAdmin, LastActiveAdminIs, OnlySigner;
    SignerColumns(db, caller);
    SignerColumns(db, u);
    if u in db.members {
      assert db.members[u := db.members[u]] == db.members;
      if suspend {
        KeepsSigners(db, db.(members := db.members[u := db.members[u].(standing := Suspended)]), u);
      }
    }
  }

  /**
   A member's access is changed exactly by an active admin, when active or suspended, unless the sole active admin
   would step down or the only signer of a waited-on role would become a preparer. In a firm a former admin keeps
   sight of every client.
   */
  lemma AccessExactly(db: Db, caller: UserId, u: UserId, access: Access)
    ensures SetAccess(db, caller, u, access).Ok? <==>
      && IsAdmin(db, caller) && u in db.members && db.members[u].standing in {Active, Suspended}
      && (access != db.members[u].access ==> !SoleAdmin(db, u) && (access == Preparer ==> !OnlySigner(db, u)))
    ensures SetAccess(db, caller, u, access).Ok? ==> AccessSet(db, SetAccess(db, caller, u, access).db, u, access)
  {
    hide SoleAdmin, LastActiveAdminIs, OnlySigner, AccessSet;
    SignerColumns(db, caller);
    SignerColumns(db, u);
    if u in db.members {
      var m := db.members[u];
      var m' := if m.access == Admin && db.ws.firm then Member(m.standing, access, true, {}, m.joined)
          else m.(access := access);
      var db' := db.(members := db.members[u := m']);
      if access == Preparer {
        KeepsSigners(db, db', u);
      }
      AccessLeaves(db, u, access, m');
      AccessStays(db, u);
    }
  }

  ghost predicate AccessSet(db: Db, db': Db, u: UserId, access: Access) {
    && u in db.members && db' == db.(members := db'.members) && db'.members.Keys == db.members.Keys
    && (forall v | v in db.members && v != u :: db'.members[v] == db.members[v])
    && db'.members[u].access == access && db'.members[u].standing == db.members[u].standing
    && (if db.ws.firm && db.members[u].access == Admin && access != Admin
        then db'.members[u].allClients && db'.members[u].clients == {}
        else db'.members[u].allClients == db.members[u].allClients
             && db'.members[u].clients == db.members[u].clients)
  }

  lemma AccessLeaves(db: Db, u: UserId, access: Access, m': Member)
    requires u in db.members && access != db.members[u].access
          ==> m' == if db.members[u].access == Admin && db.ws.firm
                    then Member(db.members[u].standing, access, true, {}, db.members[u].joined)
                    else db.members[u].(access := access)
    requires u in db.members
    ensures access != db.members[u].access ==> AccessSet(db, db.(members := db.members[u := m']), u, access)
  {
  }

  lemma AccessStays(db: Db, u: UserId)
    requires u in db.members
    ensures AccessSet(db, db, u, db.members[u].access)
  {
  }

  /** What ending a membership leaves: no clients, no staffing, every other place in every role as it was. */
  ghost predicate Gone(db: Db, db': Db, u: UserId) {
    && u in db.members && db'.members.Keys == db.members.Keys && db'.roles.Keys == db.roles.Keys
    && db'.members[u].standing == Removed && !db'.members[u].allClients && db'.members[u].clients == {}
    && (forall k | k in db.roles ::
          && db'.roles[k].live == db.roles[k].live
          && db'.roles[k].staff == WithoutMember(db.roles[k].staff, u)
          && forall x :: x in db'.roles[k].staff <==> x in db.roles[k].staff && x != u)
    && db'.invoices == db.invoices && db'.runs == db.runs && db'.policies == db.policies
  }

  /** The one place a person held is dropped; the others keep their order. */
  lemma {:induction false} DroppedInPlace(before: seq<UserId>, after: seq<UserId>, u: UserId)
    requires u !in before && u !in after
    ensures WithoutMember(before + [u] + after, u) == before + after
    ensures WithoutMember(after, u) == after
  {
    StaysWhole(before, u);
    StaysWhole(after, u);
    WithoutAppends(before + [u], after, u);
    WithoutAppends(before, [u], u);
    assert [u][1..] == [];
    assert before + [] == before;
  }

  lemma {:induction false} StaysWhole(staff: seq<UserId>, u: UserId)
    requires u !in staff
    ensures WithoutMember(staff, u) == staff
  {
    if staff != [] {
      StaysWhole(staff[1..], u);
    }
  }

  lemma {:induction false} WithoutAppends(a: seq<UserId>, b: seq<UserId>, u: UserId)
    ensures WithoutMember(a + b, u) == WithoutMember(a, u) + WithoutMember(b, u)
  {
    hide WithoutMember;
    if a == [] {
      DropHead(a, u);
      assert a + b == b;
    } else {
      WithoutAppends(a[1..], b, u);
      assert (a + b)[1..] == a[1..] + b;
      DropHead(a, u);
      DropHead(a + b, u);
    }
  }

  lemma DropHead(staff: seq<UserId>, u: UserId)
    ensures WithoutMember(staff, u) ==
      if staff == [] then [] else (if staff[0] == u then [] else [staff[0]]) + WithoutMember(staff[1..], u)
  {
  }

  /** An active admin removes a member unless it is the sole active admin or the only signer of a waited-on role. */
  lemma RemovalExactly(db: Db, caller: UserId, u: UserId)
    ensures var r := RemoveMember(db, caller, u);
      && (r.Ok? <==>
            && IsAdmin(db, caller) && u in db.members
            && (db.members[u].standing != Removed ==> !SoleAdmin(db, u) && !OnlySigner(db, u)))
      && (r.Ok? && db.members[u].standing == Removed ==> r.db == db)
      && (r.Ok? && db.members[u].standing != Removed ==>
            Gone(db, r.db, u) && forall v | v in db.members && v != u :: r.db.members[v] == db.members[v])
  {
    hide SoleAdmin, LastActiveAdminIs, OnlySigner;
    SignerColumns(db, caller);
    SignerColumns(db, u);
    if u in db.members {
      KeepsSigners(db, Ended(db, u), u);
    }
  }

  /** A member's client access is replaced exactly in a firm, by an active admin, for a member who is no admin. */
  lemma ClientsExactly(db: Db, caller: UserId, u: UserId, all: bool, ids: set<Entity>)
    ensures var r := SetClients(db, caller, u, all, ids);
      && (r.Ok? <==>
            && IsAdmin(db, caller) && db.ws.firm && u in db.members
            && db.members[u].standing != Removed && db.members[u].access != Admin
            && (all || forall e | e in ids :: e in db.ws.entities))
      && (r.Ok? ==> r.db == db.(members := db.members[u := db.members[u].(allClients := all,
                                                                          clients := if all then {} else ids)]))
  {
    SignerColumns(db, caller);
  }

  /** An active admin adds a client not yet in the portfolio; those there stay. */
  lemma AddClientExactly(db: Db, caller: UserId, e: Entity)
    ensures AddClient(db, caller, e).Ok? <==> IsAdmin(db, caller) && e !in db.ws.entities
    ensures AddClient(db, caller, e).Ok? ==>
      AddClient(db, caller, e).db == db.(ws := db.ws.(entities := db.ws.entities + {e}))
  {
    SignerColumns(db, caller);
  }

  // ---- Ended accounts ----

  predicate IsActive(db: Db, u: UserId) {
    u in db.members && db.members[u].standing == Active
  }

  predicate SomebodyElse(db: Db, u: UserId) {
    exists v | v in db.members :: v != u && IsActive(db, v)
  }

  /** The other active member who joined first, the lower id first among those who joined together. */
  predicate FirstOther(db: Db, u: UserId, h: UserId) {
    && h != u && IsActive(db, h)
    && forall x | x in db.members && x != u && x != h && IsActive(db, x) ::
      db.members[h].joined < db.members[x].joined || (db.members[h].joined == db.members[x].joined && h < x)
  }

  /**
   An account ends exactly when it is active, or for staff not removed, somebody else is active, and what is asked
   for fits: handing on to the first other member when it is the sole active admin, else leaving. The membership is
   gone, and the heir, if there is one, is an admin; nobody else changes.
   */
  lemma DepartureExactly(db: Db, u: UserId, byStaff: bool, want: Departure)
    ensures DeleteAccount(db, u, byStaff, want).Ok? <==>
      && u in db.members && (if byStaff then db.members[u].standing != Removed else IsActive(db, u))
      && SomebodyElse(db, u)
      && (if SoleAdmin(db, u) then want.HandOn? && FirstOther(db, u, want.heir) else want == Leave)
    ensures DeleteAccount(db, u, byStaff, want).Ok? ==>
      var db' := DeleteAccount(db, u, byStaff, want).db;
      && Gone(db, db', u)
      && forall v | v in db.members && v != u :: db'.members[v] ==
           if want == HandOn(v) then db.members[v].(access := Admin) else db.members[v]
  {
    hide IsHeir, FirstOther, ActiveAdmin, IsAdmin, OtherAdmin, SoleAdmin, OtherActive, SomebodyElse, Gone;
    AdminColumns(db, u);
    HeirColumns(db, u, want);
    if DeleteAccount(db, u, byStaff, want).Ok? {
      if want.HandOn? {
        FirstOtherKnown(db, u, want.heir);
      }
      EndedLeaves(db, u, want);
    }
  }

  lemma AdminColumns(db: Db, u: UserId)
    ensures ActiveAdmin(db.members, u) && !OtherAdmin(db.members, u) <==> SoleAdmin(db, u)
    ensures OtherActive(db.members, u) <==> SomebodyElse(db, u)
    ensures ActiveAdmin(db.members, u) ==> IsActive(db, u)
  {
    forall v ensures ActiveAdmin(db.members, v) <==> IsAdmin(db, v) {
      SignerColumns(db, v);
    }
    forall v ensures ActiveMember(db.members, v) <==> IsActive(db, v) {
    }
  }

  lemma EndedLeaves(db: Db, u: UserId, want: Departure)
    requires u in db.members && (want.HandOn? ==> want.heir != u && want.heir in db.members)
    ensures var db' := Ended(db.(members := Promoted(db.members, want)), u);
      && Gone(db, db', u)
      && forall v | v in db.members && v != u :: db'.members[v] ==
           if want == HandOn(v) then db.members[v].(access := Admin) else db.members[v]
  {
  }

  lemma FirstOtherKnown(db: Db, u: UserId, h: UserId)
    requires FirstOther(db, u, h)
    ensures h != u && h in db.members && SomebodyElse(db, u)
  {
  }

  lemma HeirColumns(db: Db, u: UserId, want: Departure)
    ensures want.HandOn? ==> (IsHeir(db.members, u, want.heir) <==> FirstOther(db, u, want.heir))
  {
  }
}
