/**
 Who can still sign a role after a change of members or staffing.
 */
module Signers {
  import opened Domain
  import opened Database
  import opened Operations
  import RoleKey

  /**
   No operation but the ending of an account takes away the last signer of a role that a run waits on afterwards.
   */
  lemma {:induction false} SignerIsKept(db: Db, op: Op, key: Key)
    requires !op.OpDeleteAccount? && Signed(db.members, db.roles, key) && WaitingInvoices(After(db, op), key) != {}
    ensures Signed(After(db, op).members, After(db, op).roles, key)
  {
    hide WaitingInvoices, Apply, After;
    var u :| u in db.roles[key].staff && Holds(db.members, db.roles, key, u);
    if PeopleOp(op) {
      PeopleKeepSigner(db, op, key, u);
    } else {
      Writes(db, op);
    }
  }

  lemma StillSigned(members: Members, roles: Roles, key: Key, u: UserId)
    requires Holds(members, roles, key, u)
    ensures Signed(members, roles, key)
  {
  }

  lemma {:induction false} PeopleKeepSigner(db: Db, op: Op, key: Key, u: UserId)
    requires PeopleOp(op) && !op.OpDeleteAccount? && Holds(db.members, db.roles, key, u)
    requires WaitingInvoices(After(db, op), key) != {}
    ensures Signed(After(db, op).members, After(db, op).roles, key)
  {
    hide WaitingInvoices, Signed, NamedInForce, LastActiveAdminIs, SetStanding, SetAccess, RemoveMember, DeleteAccount;
    hide SetRoleMembers, AddClient, CreatePolicy, PutDraft, PublishPolicy, DeletePolicy, ReorderPolicies;
    hide CreateInvoice, Promote, EditInvoice, TransitionInvoice, RequeueFailed, Decide;
    var db' := After(db, op);
    if Apply(db, op).Err? {
      StillSigned(db.members, db.roles, key, u);
      return;
    }
    match op
    case OpCreateRole(caller, title) =>
      RoleKey.MintedKey(db.roles.Keys, title);
      StillSigned(db'.members, db'.roles, key, u);
    case OpDeleteRole(caller, gone) =>
      DeletedRoleUnwaited(db', gone);
      StillSigned(db'.members, db'.roles, key, u);
    case OpSetRoleMembers(caller, staffed, ids) => StaffingKeepsSigner(db, caller, staffed, ids, key, u);
    case OpJoin(_, _, _, _, _) => StillSigned(db'.members, db'.roles, key, u);
    case OpSetClients(_, _, _, _) => StillSigned(db'.members, db'.roles, key, u);
    case OpSetStanding(caller, x, suspend) => StandingKeepsSigner(db, caller, x, suspend, key, u);
    case OpSetAccess(caller, x, access) => AccessKeepsSigner(db, caller, x, access, key, u);
    case OpRemoveMember(caller, x) => RemovalKeepsSigner(db, caller, x, key, u);
  }

  lemma DeletedRoleUnwaited(db: Db, gone: Key)
    requires !LiveRole(db.roles, gone)
    ensures WaitingInvoices(db, gone) == {}
  {
  }

  lemma StaffingKeepsSigner(db: Db, caller: UserId, staffed: Key, ids: seq<UserId>, key: Key, u: UserId)
    requires SetRoleMembers(db, caller, staffed, ids).Ok? && Holds(db.members, db.roles, key, u)
    requires WaitingInvoices(SetRoleMembers(db, caller, staffed, ids).db, key) != {}
    ensures var db' := SetRoleMembers(db, caller, staffed, ids).db; Signed(db'.members, db'.roles, key)
  {
    hide WaitingInvoices, Signed;
    if staffed != key {
      var db' := SetRoleMembers(db, caller, staffed, ids).db;
      StillSigned(db'.members, db'.roles, key, u);
    }
  }

  lemma StandingKeepsSigner(db: Db, caller: UserId, x: UserId, suspend: bool, key: Key, u: UserId)
    requires SetStanding(db, caller, x, suspend).Ok? && Holds(db.members, db.roles, key, u)
    requires WaitingInvoices(SetStanding(db, caller, x, suspend).db, key) != {}
    ensures var db' := SetStanding(db, caller, x, suspend).db; Signed(db'.members, db'.roles, key)
  {
    hide WaitingInvoices, LastActiveAdminIs;
    var db' := SetStanding(db, caller, x, suspend).db;
    if x == u && suspend {
      assert key in StaffedKeys(db.roles, x);
    } else {
      assert Holds(db'.members, db'.roles, key, u);
    }
  }

  lemma AccessKeepsSigner(db: Db, caller: UserId, x: UserId, access: Access, key: Key, u: UserId)
    requires SetAccess(db, caller, x, access).Ok? && Holds(db.members, db.roles, key, u)
    requires WaitingInvoices(SetAccess(db, caller, x, access).db, key) != {}
    ensures var db' := SetAccess(db, caller, x, access).db; Signed(db'.members, db'.roles, key)
  {
    hide WaitingInvoices, LastActiveAdminIs;
    var db' := SetAccess(db, caller, x, access).db;
    if x == u && access == Preparer {
      assert key in StaffedKeys(db.roles, x);
    } else {
      assert Holds(db'.members, db'.roles, key, u);
    }
  }

  lemma RemovalKeepsSigner(db: Db, caller: UserId, x: UserId, key: Key, u: UserId)
    requires RemoveMember(db, caller, x).Ok? && Holds(db.members, db.roles, key, u)
    requires WaitingInvoices(RemoveMember(db, caller, x).db, key) != {}
    ensures var db' := RemoveMember(db, caller, x).db; Signed(db'.members, db'.roles, key)
  {
    hide WaitingInvoices, LastActiveAdminIs;
    var db' := RemoveMember(db, caller, x).db;
    if x == u {
      assert key in StaffedKeys(db.roles, x);
    } else {
      assert Holds(db'.members, db'.roles, key, u);
    }
  }

  /** After a staffing change that went through, a role some validated invoice waits on has a signer. */
  lemma StaffingLeavesSigner(db: Db, caller: UserId, key: Key, ids: seq<UserId>, i: InvoiceId)
    requires SetRoleMembers(db, caller, key, ids).Ok? && WaitsOnRole(SetRoleMembers(db, caller, key, ids).db, i, key)
    ensures exists u | u in ids :: ActiveApprover(db.members, u)
  {
    hide WaitsOnRole;
    var db' := SetRoleMembers(db, caller, key, ids).db;
    assert i in db'.invoices by { WaitingIsInvoice(db', i, key); }
    assert i in WaitingInvoices(db', key);
    var u :| u in db'.roles[key].staff && Holds(db'.members, db'.roles, key, u);
    assert u in ids && ActiveApprover(db.members, u);
  }

  lemma WaitingIsInvoice(db: Db, i: InvoiceId, key: Key)
    requires WaitsOnRole(db, i, key)
    ensures i in db.invoices
  {
  }

  // ---- Account deletion ----

  lemma {:induction false} FirstJoined(members: Members, s: set<UserId>) returns (h: UserId)
    requires s != {} && forall x | x in s :: x in members
    ensures h in s && forall x | x in s && x != h :: JoinedBefore(members, h, x)
    decreases |s|
  {
    h :| h in s;
    if s != {h} {
      var rest := s - {h};
      assert s == rest + {h};
      var n := FirstJoined(members, rest);
      if JoinedBefore(members, n, h) {
        h := n;
      }
    }
  }

  /** What a deletion does is decided: of leaving, handing on to some heir and ending the workspace exactly one fits. */
  lemma {:induction false} OneDeparture(members: Members, u: UserId) returns (d: Departure)
    ensures Departs(members, u, d) && forall e :: Departs(members, u, e) ==> e == d
  {
    var others := set x | x in members && x != u && ActiveMember(members, x);
    if others == {} {
      d := DeleteWorkspace;
      assert forall x | x in members :: x in others <==> x != u && ActiveMember(members, x);
    } else {
      var h := FirstJoined(members, others);
      assert forall x | x in members :: x in others <==> x != u && ActiveMember(members, x);
      assert IsHeir(members, u, h);
      d := if ActiveAdmin(members, u) && !OtherAdmin(members, u) then HandOn(h) else Leave;
    }
  }

  /**
   Ending an account makes no signer check. A role keeps a signer exactly when somebody else staffed in it is an
   active approver or becomes one as the heir; the invoices waiting on the role stay as they are either way.
   */
  lemma {:induction false} DeletionSignsExactly(db: Db, u: UserId, byStaff: bool, want: Departure, key: Key)
    requires DeleteAccount(db, u, byStaff, want).Ok? && LiveRole(db.roles, key)
    ensures var db' := DeleteAccount(db, u, byStaff, want).db;
      && (Signed(db'.members, db'.roles, key) <==>
            exists v | v in db.roles[key].staff :: v != u && (ActiveApprover(db.members, v) || want == HandOn(v)))
      && WaitingInvoices(db', key) == WaitingInvoices(db, key)
  {
    var db' := DeleteAccount(db, u, byStaff, want).db;
    assert LiveRole(db'.roles, key) && db'.runs == db.runs && db'.invoices == db.invoices;
    forall i | i in db.invoices ensures WaitsOnRole(db', i, key) == WaitsOnRole(db, i, key) {
    }
    hide WaitsOnRole;
    forall v ensures Holds(db'.members, db'.roles, key, v) <==>
                     v in db.roles[key].staff && v != u && (ActiveApprover(db.members, v) || want == HandOn(v))
    {
      DeletionHolds(db, u, byStaff, want, key, v);
    }
    hide Holds;
    assert forall v :: v in db'.roles[key].staff <==> v in db.roles[key].staff && v != u;
  }

  lemma DeletionHolds(db: Db, u: UserId, byStaff: bool, want: Departure, key: Key, v: UserId)
    requires DeleteAccount(db, u, byStaff, want).Ok? && LiveRole(db.roles, key)
    ensures var db' := DeleteAccount(db, u, byStaff, want).db;
      Holds(db'.members, db'.roles, key, v) <==>
        v in db.roles[key].staff && v != u && (ActiveApprover(db.members, v) || want == HandOn(v))
  {
    var db' := DeleteAccount(db, u, byStaff, want).db;
    assert want.HandOn? ==> want.heir != u && ActiveMember(db.members, want.heir);
    assert db'.roles[key].staff == WithoutMember(db.roles[key].staff, u);
    assert db'.members.Keys == db.members.Keys && db'.members[u].standing == Removed;
    assert v in db.members && v != u ==>
      db'.members[v] == if want == HandOn(v) then db.members[v].(access := Admin) else db.members[v];
  }
}
