/**
 What each transaction does to the tables: the new state it commits, or the error that
 leaves the tables as they were.
 */
module Operations {
  import opened Domain
  import opened StepTree
  import opened Matching
  import opened Runs
  import opened Database
  import RoleKey

  datatype Outcome = Ok(db: Db) | Err(error: Error)

  /** The transaction writes at most members and roles. */
  predicate WritesPeople(db: Db, r: Outcome) {
    r.Ok? ==> r.db == db.(members := r.db.members, roles := r.db.roles)
  }

  /** The transaction writes at most members. */
  predicate WritesMembers(db: Db, r: Outcome) {
    r.Ok? ==> r.db == db.(members := r.db.members)
  }

  /** The transaction writes at most policies. */
  predicate WritesPolicies(db: Db, r: Outcome) {
    r.Ok? ==> r.db == db.(policies := r.db.policies)
  }

  /** The transaction writes at most invoices and runs. */
  predicate WritesInvoices(db: Db, r: Outcome) {
    r.Ok? ==> r.db == db.(invoices := r.db.invoices, runs := r.db.runs)
  }

  const SWEEP_CAP := 5000
  const MAX_REASON := 1000
  const DOCUMENT_TYPES := {"commercial_invoice", "credit_note", "debit_note"}

  // ---- Roles ----

  /** `title` is the trimmed title. */
  function CreateRole(db: Db, caller: UserId, title: string): (r: Outcome)
    ensures WritesPeople(db, r)
  {
    if title == "" then Err(Validation)
    else if !ActiveAdmin(db.members, caller) then Err(NotPermitted)
    else Ok(db.(roles := db.roles[RoleKey.Minted(db.roles.Keys, title) := Role(true, [])]))
  }

  /** A version in force names the role in a scope or an approval step. */
  predicate NamedInForce(ps: Policies, key: Key) {
    exists id | id in ps :: InForcePolicy(ps, id) &&
      (key in ActiveVersion(ps, id).scopes.roles || TreeNamesRole(ActiveVersion(ps, id).tree, key))
  }

  function DeleteRole(db: Db, caller: UserId, key: Key): (r: Outcome)
    ensures WritesPeople(db, r)
  {
    if !ActiveAdmin(db.members, caller) then Err(NotPermitted)
    else if (LiveRole(db.roles, key) && NamedInForce(db.policies, key)) || WaitingInvoices(db, key) != {}
    then Err(RoleInUse)
    else if !LiveRole(db.roles, key) then Err(NotFound)
    else Ok(db.(roles := db.roles[key := db.roles[key].(live := false)]))
  }

  /** A live role with no signer while an open run waits on it. */
  predicate UnsignedWaiting(db: Db, key: Key) {
    WaitingInvoices(db, key) != {} && !Signed(db.members, db.roles, key)
  }

  function SetRoleMembers(db: Db, caller: UserId, key: Key, ids: seq<UserId>): (r: Outcome)
    ensures WritesPeople(db, r)
  {
    if !Distinct(ids) then Err(Validation)
    else if !ActiveAdmin(db.members, caller) then Err(NotPermitted)
    else if !LiveRole(db.roles, key) then Err(NotFound)
    else if exists u | u in ids :: u !in db.members || db.members[u].standing == Removed then Err(Validation)
    else
      var db' := db.(roles := db.roles[key := Role(true, ids)]);
      if UnsignedWaiting(db', key) then Err(RoleInUse) else Ok(db')
  }

  // ---- Memberships ----

  function StaffedKeys(roles: Roles, u: UserId): set<Key> {
    set k | k in roles && Staffed(roles, k, u)
  }

  predicate LastActiveAdminIs(members: Members, u: UserId) {
    ActiveAdmin(members, u) && forall a | a in members && a != u :: !ActiveAdmin(members, a)
  }

  /** Refuses a membership change that leaves a waited-on role of the member without a signer. */
  function KeepSigners(db: Db, keys: set<Key>): Outcome {
    if exists k | k in keys :: UnsignedWaiting(db, k) then Err(RoleInUse) else Ok(db)
  }

  /** A person joins, or joins again after removal. */
  function Join(db: Db, u: UserId, access: Access, allClients: bool, clients: set<Entity>, joined: int): (r: Outcome)
    ensures WritesMembers(db, r)
  {
    if u in db.members && db.members[u].standing != Removed then Err(Conflict)
    else Ok(db.(members := db.members[u := Member(Active, access, allClients, clients, joined)]))
  }

  function SetStanding(db: Db, caller: UserId, u: UserId, suspend: bool): (r: Outcome)
    ensures WritesMembers(db, r)
  {
    if !ActiveAdmin(db.members, caller) then Err(NotPermitted)
    else if u !in db.members then Err(NotFound)
    else
      var m := db.members[u];
      var standing := if suspend then Suspended else Active;
      if m.standing == Invited || m.standing == Removed then Err(MemberNotTransitionable)
      else if m.standing == standing then Ok(db)
      else if suspend && LastActiveAdminIs(db.members, u) then Err(LastActiveAdmin)
      else KeepSigners(db.(members := db.members[u := m.(standing := standing)]),
                       if suspend then StaffedKeys(db.roles, u) else {})
  }

  function SetAccess(db: Db, caller: UserId, u: UserId, access: Access): (r: Outcome)
    ensures WritesMembers(db, r)
  {
    if !ActiveAdmin(db.members, caller) then Err(NotPermitted)
    else if u !in db.members then Err(NotFound)
    else
      var m := db.members[u];
      if m.standing == Invited || m.standing == Removed then Err(MemberNotTransitionable)
      else if m.access == access then Ok(db)
      else if LastActiveAdminIs(db.members, u) then Err(LastActiveAdmin)
      else
        var m' := if m.access == Admin && db.ws.firm then Member(m.standing, access, true, {}, m.joined)
            else m.(access := access);
        KeepSigners(db.(members := db.members[u := m']), if access == Preparer then StaffedKeys(db.roles, u) else {})
  }

  function WithoutMember(staff: seq<UserId>, u: UserId): (rest: seq<UserId>)
    ensures forall x :: x in rest <==> x in staff && x != u
  {
    if staff == [] then [] else (if staff[0] == u then [] else [staff[0]]) + WithoutMember(staff[1..], u)
  }

  function Unstaff(roles: Roles, u: UserId): Roles {
    map k | k in roles :: roles[k].(staff := WithoutMember(roles[k].staff, u))
  }

  /** The end state of a membership: removed, no clients, no staffing. */
  function Ended(db: Db, u: UserId): Db
    requires u in db.members
  {
    db.(members := db.members[u := db.members[u].(standing := Removed, allClients := false, clients := {})],
        roles := Unstaff(db.roles, u))
  }

  function RemoveMember(db: Db, caller: UserId, u: UserId): (r: Outcome)
    ensures WritesPeople(db, r)
  {
    if !ActiveAdmin(db.members, caller) then Err(NotPermitted)
    else if u !in db.members then Err(NotFound)
    else if db.members[u].standing == Removed then Ok(db)
    else if LastActiveAdminIs(db.members, u) then Err(LastActiveAdmin)
    else KeepSigners(Ended(db, u), StaffedKeys(db.roles, u))
  }

  /** What ending one account does to the workspace. */
  datatype Departure = Leave | HandOn(heir: UserId) | DeleteWorkspace

  predicate JoinedBefore(members: Members, a: UserId, b: UserId)
    requires a in members && b in members
  {
    members[a].joined < members[b].joined || (members[a].joined == members[b].joined && a < b)
  }

  /** The earliest-joined other active member. */
  predicate IsHeir(members: Members, u: UserId, h: UserId) {
    && h != u && ActiveMember(members, h)
    && forall x | x in members && x != u && x != h && ActiveMember(members, x) :: JoinedBefore(members, h, x)
  }

  predicate OtherActive(members: Members, u: UserId) {
    exists x | x in members :: x != u && ActiveMember(members, x)
  }

  predicate OtherAdmin(members: Members, u: UserId) {
    exists x | x in members :: x != u && ActiveAdmin(members, x)
  }

  /** Only the sole active admin hands on, and the last active member takes the workspace along. */
  predicate Departs(members: Members, u: UserId, d: Departure) {
    match d
    case DeleteWorkspace => !OtherActive(members, u)
    case Leave => OtherActive(members, u) && (!ActiveAdmin(members, u) || OtherAdmin(members, u))
    case HandOn(h) => ActiveAdmin(members, u) && !OtherAdmin(members, u) && IsHeir(members, u, h)
  }

  function Promoted(members: Members, d: Departure): Members {
    if d.HandOn? && d.heir in members then members[d.heir := members[d.heir].(access := Admin)] else members
  }

  /** A person, or staff for them, ends the account; no signer check is made. */
  function DeleteAccount(db: Db, u: UserId, staff: bool, want: Departure): (r: Outcome)
    ensures WritesPeople(db, r)
  {
    if want.DeleteWorkspace? then Err(Validation)
    else if staff && (u !in db.members || db.members[u].standing == Removed) then Err(NotFound)
    else if staff && !OtherActive(db.members, u) then Err(LastActiveMember)
    else if !Departs(db.members, u, want) then Err(DeletionOutcomeChanged)
    else if !staff && !ActiveMember(db.members, u) then Err(NotActiveMember)
    else Ok(Ended(db.(members := Promoted(db.members, want)), u))
  }

  /** A member's whole client access replaced. */
  function SetClients(db: Db, caller: UserId, u: UserId, all: bool, ids: set<Entity>): (r: Outcome)
    ensures WritesMembers(db, r)
  {
    if !ActiveAdmin(db.members, caller) then Err(NotPermitted)
    else if !db.ws.firm then Err(ClientAccessNotFirm)
    else if u !in db.members || db.members[u].standing == Removed then Err(NotFound)
    else if db.members[u].access == Admin then Err(ClientAccessAdmin)
    else if !all && !(ids <= db.ws.entities) then Err(UnknownClient)
    else
      var m := db.members[u].(allClients := all, clients := if all then {} else ids);
      Ok(db.(members := db.members[u := m]))
  }

  // ---- Clients ----

  /** A client company joins the workspace's portfolio; none ever leaves it. */
  function AddClient(db: Db, caller: UserId, e: Entity): (r: Outcome)
    ensures r.Ok? ==> r.db == db.(ws := r.db.ws)
  {
    if !ActiveAdmin(db.members, caller) then Err(NotPermitted)
    else if e in db.ws.entities then Err(Conflict)
    else Ok(db.(ws := db.ws.(entities := db.ws.entities + {e})))
  }

  // ---- Scopes ----

  function DocTypesRefusal(docTypes: seq<string>, seen: set<string>): Option<Error> {
    if docTypes == [] then None
    else if docTypes[0] !in DOCUMENT_TYPES then Some(ScopeDocumentType)
    else if docTypes[0] in seen then Some(Validation)
    else DocTypesRefusal(docTypes[1..], seen + {docTypes[0]})
  }

  function RoleKeysRefusal(keys: seq<Key>, seen: set<Key>): Option<Error> {
    if keys == [] then None
    else if keys[0] == "" then Some(ScopeRole)
    else if keys[0] in seen then Some(Validation)
    else RoleKeysRefusal(keys[1..], seen + {keys[0]})
  }

  predicate BoundFits(b: Option<Money>) {
    b.Some? ==> -AMOUNT_CEILING < b.value < AMOUNT_CEILING
  }

  predicate BandFits(b: Band) {
    && b.currency != "" && (b.lower.Some? || b.upper.Some?)
    && BoundFits(b.lower) && BoundFits(b.upper)
    && (b.lower.Some? && b.upper.Some? ==> b.lower.value <= b.upper.value)
  }

  /** The shape checks made before the transaction. */
  function ScopesRefusal(sc: Scopes): Option<Error> {
    var docs := DocTypesRefusal(sc.docTypes, {});
    if docs.Some? then docs
    else if !Distinct(sc.entities) then Some(Validation)
    else
      var keys := RoleKeysRefusal(sc.roles, {});
      if keys.Some? then keys
      else if sc.band.Some? && !BandFits(sc.band.value) then Some(ScopeBand)
      else None
  }

  /** The checks against the tables: known clients, live roles or ones already held, a listed currency. */
  function ResolveRefusal(ws: Workspace, roles: Roles, sc: Scopes, keep: seq<Key>): Option<Error> {
    if exists e | e in sc.entities :: e !in ws.entities then Some(ScopeEntity)
    else if exists k | k in sc.roles :: !(LiveRole(roles, k) || (k in roles && k in keep)) then Some(ScopeRole)
    else if sc.band.Some? && sc.band.value.currency !in ws.currencies then Some(ScopeCurrency)
    else None
  }

  // ---- Policies ----

  /** Every policy write ends by refusing a scoped last policy. */
  function GuardCatchAll(db: Db): Outcome {
    if CatchAllLast(db.policies) then Ok(db) else Err(PolicyCatchAll)
  }

  /** The new row takes the last live policy's position, which moves up to `top`. */
  ghost function Inserted(ps: Policies, id: PolicyId, top: int, p: Policy): Policies {
    match LastPolicy(ps)
    case None => ps[id := p.(position := top)]
    case Some(last) => ps[last := ps[last].(position := top)][id := p.(position := ps[last].position)]
  }

  /** `top` is the position the database assigns a new row: above every row there is. */
  ghost function CreatePolicy(db: Db, caller: UserId, id: PolicyId, top: int, scopes: Option<Scopes>): (r: Outcome)
    ensures WritesPolicies(db, r)
  {
    var sc := if scopes.Some? then scopes.value else CATCH_ALL;
    if ScopesRefusal(sc).Some? then Err(ScopesRefusal(sc).value)
    else if !ActiveAdmin(db.members, caller) then Err(NotPermitted)
    else if ResolveRefusal(db.ws, db.roles, sc, []).Some? then Err(ResolveRefusal(db.ws, db.roles, sc, []).value)
    else if id in db.policies || top < 1 || (exists q | q in db.policies :: db.policies[q].position >= top)
    then Err(Conflict)
    else GuardCatchAll(db.(policies := Inserted(db.policies, id, top,
                                                Policy(top, true, [Version(false, false, [], sc)]))))
  }

  function TopScopes(p: Policy): Scopes {
    if |p.versions| > 0 then p.versions[|p.versions| - 1].scopes else CATCH_ALL
  }

  /** The open draft rewritten, or a new draft forked on top of the sealed versions. */
  function Redrafted(p: Policy, tree: seq<Step>, sc: Scopes): Policy {
    if HasDraft(p)
    then p.(versions := p.versions[|p.versions| - 1 := p.versions[|p.versions| - 1].(tree := tree, scopes := sc)])
    else p.(versions := p.versions + [Version(false, false, tree, sc)])
  }

  predicate DelegatesAreMembers(members: Members, tree: seq<Step>) {
    forall c | c in Everywhere(tree) :: c.delegate.Some? ==> c.delegate.value in members
  }

  function PutDraft(db: Db, caller: UserId, id: PolicyId, scopes: Option<Scopes>, tree: seq<Step>): (r: Outcome)
    ensures WritesPolicies(db, r)
  {
    if scopes.Some? && ScopesRefusal(scopes.value).Some? then Err(ScopesRefusal(scopes.value).value)
    else if !ValidTree(tree) then Err(Validation)
    else if !ActiveAdmin(db.members, caller) then Err(NotPermitted)
    else if !LivePolicy(db.policies, id) then Err(PolicyNotFound)
    else
      var p := db.policies[id];
      var refusal := if scopes.Some? then ResolveRefusal(db.ws, db.roles, scopes.value, TopScopes(p).roles) else None;
      if refusal.Some? then Err(refusal.value)
      else if !DelegatesAreMembers(db.members, tree) then Err(PolicyDelegateNotMember)
      else
        var sc := if scopes.Some? then scopes.value else TopScopes(p);
        GuardCatchAll(db.(policies := db.policies[id := Redrafted(p, tree, sc)]))
  }

  function Deactivated(versions: seq<Version>): (vs: seq<Version>)
    ensures |vs| == |versions|
  {
    seq(|versions|, i requires 0 <= i < |versions| => versions[i].(active := false))
  }

  /** The draft sealed and made the one active version. */
  function SealedTop(p: Policy): Policy
    requires |p.versions| > 0
  {
    var vs := Deactivated(p.versions);
    var top := |vs| - 1;
    p.(versions := vs[top := vs[top].(isSealed := true, active := true)])
  }

  predicate IneligibleDelegate(members: Members, tree: seq<Step>) {
    exists c | c in Everywhere(tree) :: c.delegate.Some? && c.delegate.value in members
        && !IsApprover(members[c.delegate.value])
  }

  /** Publish's gate on the draft's tree, scopes and delegates. */
  function DraftRefusal(db: Db, v: Version): Option<Error> {
    var steps := PublishRefusal(v.tree, LiveKeys(db.roles));
    if steps.Some? then steps
    else if exists k | k in v.scopes.roles :: k in db.roles && !db.roles[k].live then Some(PolicyStepRole)
    else if IneligibleDelegate(db.members, v.tree) then Some(PolicyDelegateIneligible)
    else None
  }

  /** Validated invoices with no live run. */
  function Backlog(db: Db): set<InvoiceId> {
    set i | i in db.invoices && db.invoices[i].status == Validated && !HasLive(db.runs, i)
  }

  /** Each invoice of the backlog armed with its own first match. */
  ghost function Swept(db: Db): RunTable {
    map i | i in db.runs.Keys + Backlog(db) ::
      RunsOf(db.runs, i) + (if i in Backlog(db) then ArmedRuns(db.policies, db.roles, db.invoices[i]) else [])
  }

  ghost function PublishPolicy(db: Db, caller: UserId, id: PolicyId): (r: Outcome)
    ensures r.Ok? ==> r.db == db.(policies := r.db.policies, runs := r.db.runs)
  {
    if !ActiveAdmin(db.members, caller) then Err(NotPermitted)
    else if !LivePolicy(db.policies, id) then Err(PolicyNotFound)
    else
      var p := db.policies[id];
      if !HasDraft(p) then Err(PolicyNothingToPublish)
      else
        var refusal := DraftRefusal(db, p.versions[|p.versions| - 1]);
        if refusal.Some? then Err(refusal.value)
        else
          var db' := db.(policies := db.policies[id := SealedTop(p)]);
          if !CatchAllLast(db'.policies) then Err(PolicyCatchAll)
          else if |Backlog(db')| > SWEEP_CAP then Err(SweepCapExceeded)
          else Ok(db'.(runs := Swept(db')))
  }

  function DeletePolicy(db: Db, caller: UserId, id: PolicyId): (r: Outcome)
    ensures WritesPolicies(db, r)
  {
    if !ActiveAdmin(db.members, caller) then Err(NotPermitted)
    else if !LivePolicy(db.policies, id) then Err(PolicyNotFound)
    else
      var p := db.policies[id];
      var ps := db.policies[id := p.(live := false, versions := Deactivated(p.versions))];
      if p.position > 0 && (forall q | q in ps && ps[q].live :: p.position > ps[q].position) && ScopedLive(ps)
      then Err(PolicyCatchAll)
      else GuardCatchAll(db.(policies := ps))
  }

  function IndexOf(ids: seq<PolicyId>, id: PolicyId): (i: nat)
    requires id in ids
    ensures i < |ids| && ids[i] == id
  {
    if ids[0] == id then 0 else 1 + IndexOf(ids[1..], id)
  }

  /** The k-th requested policy takes the k-th of the old positions. */
  ghost function Reordered(ps: Policies, ids: seq<PolicyId>): Policies
    requires |ids| == |LiveOrder(ps)|
  {
    InOrderExact(ps, LiveIds(ps));
    map id | id in ps :: if id in ids then ps[id].(position := ps[LiveOrder(ps)[IndexOf(ids, id)]].position) else ps[id]
  }

  ghost function ReorderPolicies(db: Db, caller: UserId, ids: seq<PolicyId>): (r: Outcome)
    ensures WritesPolicies(db, r)
  {
    var ps := db.policies;
    if !Distinct(ids) then Err(Validation)
    else if !ActiveAdmin(db.members, caller) then Err(NotPermitted)
    else if |ids| != |LiveOrder(ps)| || (exists id | id in LiveIds(ps) :: id !in ids) then Err(PolicyOrderStale)
    else if ids == LiveOrder(ps) then Ok(db)
    else if ids[|ids| - 1] != LiveOrder(ps)[|ids| - 1] && ScopedLive(ps) then Err(PolicyCatchAll)
    else GuardCatchAll(db.(policies := Reordered(ps, ids)))
  }

  // ---- Invoices ----

  /** The legal invoice transitions. */
  predicate CanTransition(from: Status, target: Status) {
    match from
    case Draft => target == Validated
    case Validated => target == Queued || target == Draft
    case Queued => target == Submitted || target == Failed || target == Accepted || target == Refused
    case Submitted => target == Accepted || target == Refused || target == Failed
    case Refused => target == Draft
    case _ => false
  }

  function CreateInvoice(db: Db, i: InvoiceId, facts: Facts, creator: Option<UserId>): (r: Outcome)
    ensures WritesInvoices(db, r)
  {
    if i in db.invoices || i in db.runs then Err(Conflict)
    else Ok(db.(invoices := db.invoices[i := Invoice(Draft, facts, creator)], runs := db.runs[i := []]))
  }

  /** A draft whose checks pass is validated and armed in one transaction. */
  ghost function Promote(db: Db, i: InvoiceId): (r: Outcome)
    ensures WritesInvoices(db, r)
  {
    if i !in db.invoices then Err(NotFound)
    else if db.invoices[i].status != Draft then Err(IllegalTransition)
    else Ok(db.(invoices := db.invoices[i := db.invoices[i].(status := Validated)],
                runs := db.runs[i := RunsOf(db.runs, i) + ArmedRuns(db.policies, db.roles, db.invoices[i])]))
  }

  /**
   A change of what routing reads, or of `other` content, sends the invoice back to draft and cancels its live
   run.
   */
  function EditInvoice(db: Db, i: InvoiceId, facts: Facts, other: bool): (r: Outcome)
    ensures WritesInvoices(db, r)
  {
    if i !in db.invoices then Err(NotFound)
    else
      var inv := db.invoices[i];
      if inv.status != Draft && !CanTransition(inv.status, Draft) then Err(IllegalTransition)
      else if inv.facts == facts && !other then Ok(db)
      else Ok(db.(invoices := db.invoices[i := inv.(status := Draft, facts := facts)],
                  runs := if inv.status == Draft then db.runs else db.runs[i := CancelAll(RunsOf(db.runs, i))]))
  }

  /**
   Every other legal status change; validated is earned, never asked for. `rulePending` is whether a changed
   rule still waits to be re-checked for the invoice's client.
   */
  function TransitionInvoice(db: Db, i: InvoiceId, target: Status, rulePending: bool): (r: Outcome)
    ensures WritesInvoices(db, r)
  {
    if target == Validated then Err(Conflict)
    else if i !in db.invoices then Err(NotFound)
    else
      var inv := db.invoices[i];
      if inv.status == target then Err(RedundantTransition)
      else if target == Queued && CanTransition(inv.status, target) && rulePending then Err(RuleChangePending)
      else if target == Queued && CanTransition(inv.status, target) && !Clear(db, i) then Err(AwaitingApproval)
      else if !CanTransition(inv.status, target) then Err(IllegalTransition)
      else Ok(db.(invoices := db.invoices[i := inv.(status := target)],
                  runs := if target == Draft then db.runs[i := CancelAll(RunsOf(db.runs, i))] else db.runs))
  }

  /**
   A failed invoice is sent again, by a person or by support: outside the legal transitions and without asking
   the gate. `resendable` is whether the submission job and the note checks allow it.
   */
  function RequeueFailed(db: Db, i: InvoiceId, resendable: bool): (r: Outcome)
    ensures WritesInvoices(db, r)
  {
    if i !in db.invoices then Err(NotFound)
    else if db.invoices[i].status != Failed then Err(StatusChanged)
    else if !resendable then Err(NotResendable)
    else Ok(db.(invoices := db.invoices[i := db.invoices[i].(status := Queued)]))
  }

  // ---- Decisions ----

  /** How many bytes a text takes in UTF-8. */
  function Utf8Size(text: string): nat {
    if text == "" then 0
    else
      var code := text[0] as int;
      (if code < 0x80 then 1 else if code < 0x800 then 2 else if code < 0x1_0000 then 3 else 4) + Utf8Size(text[1..])
  }

  /** A reject needs a reason, trimmed; an approve's is taken as given. The bound is in bytes. */
  predicate ReasonFits(verdict: Verdict, reason: string) {
    (verdict == Reject ==> reason != "") && Utf8Size(reason) <= MAX_REASON
  }

  /** Who may not decide the waiting step, and why. */
  function DecisionRefusal(db: Db, caller: UserId, i: InvoiceId, c: Content, verdict: Verdict): Option<Error>
    requires i in db.invoices
  {
    if verdict == Approve && IsCreator(db, i, caller) && AnyOtherApprover(db, i, caller) then Some(CreatorRefused)
    else if !HoldsStep(db, c, caller) && !DelegateMayDecide(c, caller) then Some(NotRoleHolder)
    else None
  }

  function Decide(db: Db, caller: UserId, i: InvoiceId, verdict: Verdict, reason: string): (r: Outcome)
    ensures WritesInvoices(db, r)
  {
    if !ReasonFits(verdict, reason) then Err(Validation)
    else if !ActiveApprover(db.members, caller) then Err(NotPermitted)
    else if i !in db.invoices then Err(RunNotFound)
    else if db.invoices[i].status != Validated then Err(NotAwaitingApproval)
    else
      var newest := Newest(db.runs, i);
      if newest.None? then Err(RunNotFound)
      else if newest.value.state != Open then Err(RunClosed)
      else
        var at := FirstWaiting(newest.value.steps);
        if at.None? then Err(RunClosed)
        else
          var c := newest.value.steps[at.value].c;
          var refusal := DecisionRefusal(db, caller, i, c, verdict);
          if refusal.Some? then Err(refusal.value)
          else
            var selfApproved := verdict == Approve && IsCreator(db, i, caller) && !AnyOtherApprover(db, i, caller);
            var run := DecideRun(newest.value, verdict, caller, !HoldsStep(db, c, caller), selfApproved);
            var rs := RunsOf(db.runs, i);
            Ok(db.(runs := db.runs[i := rs[|rs| - 1 := run]],
                   invoices := if verdict == Reject then db.invoices[i := db.invoices[i].(status := Draft)]
                       else db.invoices))
  }

  // ---- Histories ----

  datatype Op =
    | OpCreateRole(caller: UserId, title: string)
    | OpDeleteRole(caller: UserId, key: Key)
    | OpSetRoleMembers(caller: UserId, key: Key, ids: seq<UserId>)
    | OpJoin(u: UserId, access: Access, allClients: bool, clients: set<Entity>, joined: int)
    | OpSetStanding(caller: UserId, u: UserId, suspend: bool)
    | OpSetAccess(caller: UserId, u: UserId, access: Access)
    | OpRemoveMember(caller: UserId, u: UserId)
    | OpDeleteAccount(u: UserId, byStaff: bool, want: Departure)
    | OpSetClients(caller: UserId, u: UserId, all: bool, entities: set<Entity>)
    | OpAddClient(caller: UserId, e: Entity)
    | OpCreatePolicy(caller: UserId, id: PolicyId, top: int, scopes: Option<Scopes>)
    | OpPutDraft(caller: UserId, id: PolicyId, scopes: Option<Scopes>, tree: seq<Step>)
    | OpPublishPolicy(caller: UserId, id: PolicyId)
    | OpDeletePolicy(caller: UserId, id: PolicyId)
    | OpReorderPolicies(caller: UserId, order: seq<PolicyId>)
    | OpCreateInvoice(i: InvoiceId, facts: Facts, creator: Option<UserId>)
    | OpPromote(i: InvoiceId)
    | OpEditInvoice(i: InvoiceId, facts: Facts, other: bool)
    | OpTransitionInvoice(i: InvoiceId, target: Status, rulePending: bool)
    | OpRequeueFailed(i: InvoiceId, resendable: bool)
    | OpDecide(caller: UserId, i: InvoiceId, verdict: Verdict, reason: string)

  /** Operations on roles and members. */
  predicate PeopleOp(op: Op) {
    || op.OpCreateRole? || op.OpDeleteRole? || op.OpSetRoleMembers? || op.OpJoin? || op.OpSetStanding?
    || op.OpSetAccess? || op.OpRemoveMember? || op.OpDeleteAccount? || op.OpSetClients?
  }

  /** Operations that write policies and nothing else. */
  predicate PolicyOp(op: Op) {
    op.OpCreatePolicy? || op.OpPutDraft? || op.OpDeletePolicy? || op.OpReorderPolicies?
  }

  /** Operations on one invoice and its runs. */
  predicate InvoiceOp(op: Op) {
    || op.OpCreateInvoice? || op.OpPromote? || op.OpEditInvoice? || op.OpTransitionInvoice? || op.OpRequeueFailed?
    || op.OpDecide?
  }

  ghost function Apply(db: Db, op: Op): Outcome {
    match op
    case OpCreateRole(caller, title) => CreateRole(db, caller, title)
    case OpDeleteRole(caller, key) => DeleteRole(db, caller, key)
    case OpSetRoleMembers(caller, key, ids) => SetRoleMembers(db, caller, key, ids)
    case OpJoin(u, access, allClients, clients, joined) => Join(db, u, access, allClients, clients, joined)
    case OpSetStanding(caller, u, suspend) => SetStanding(db, caller, u, suspend)
    case OpSetAccess(caller, u, access) => SetAccess(db, caller, u, access)
    case OpRemoveMember(caller, u) => RemoveMember(db, caller, u)
    case OpDeleteAccount(u, byStaff, want) => DeleteAccount(db, u, byStaff, want)
    case OpSetClients(caller, u, all, entities) => SetClients(db, caller, u, all, entities)
    case OpAddClient(caller, e) => AddClient(db, caller, e)
    case OpCreatePolicy(caller, id, top, scopes) => CreatePolicy(db, caller, id, top, scopes)
    case OpPutDraft(caller, id, scopes, tree) => PutDraft(db, caller, id, scopes, tree)
    case OpPublishPolicy(caller, id) => PublishPolicy(db, caller, id)
    case OpDeletePolicy(caller, id) => DeletePolicy(db, caller, id)
    case OpReorderPolicies(caller, order) => ReorderPolicies(db, caller, order)
    case OpCreateInvoice(i, facts, creator) => CreateInvoice(db, i, facts, creator)
    case OpPromote(i) => Promote(db, i)
    case OpEditInvoice(i, facts, other) => EditInvoice(db, i, facts, other)
    case OpTransitionInvoice(i, target, rulePending) => TransitionInvoice(db, i, target, rulePending)
    case OpRequeueFailed(i, resendable) => RequeueFailed(db, i, resendable)
    case OpDecide(caller, i, verdict, reason) => Decide(db, caller, i, verdict, reason)
  }

  /** The state after an operation: a refused one changes nothing. */
  ghost function After(db: Db, op: Op): Db {
    var r := Apply(db, op);
    if r.Ok? then r.db else db
  }

  /** Which tables each kind of operation may write. */
  lemma Writes(db: Db, op: Op)
    ensures PeopleOp(op) ==> After(db, op) == db.(members := After(db, op).members, roles := After(db, op).roles)
    ensures op.OpAddClient? ==> After(db, op) == db.(ws := After(db, op).ws)
    ensures PolicyOp(op) ==> After(db, op) == db.(policies := After(db, op).policies)
    ensures op.OpPublishPolicy? ==>
      After(db, op) == db.(policies := After(db, op).policies, runs := After(db, op).runs)
    ensures InvoiceOp(op) ==> After(db, op) == db.(invoices := After(db, op).invoices, runs := After(db, op).runs)
  {
    hide CreateRole, DeleteRole, SetRoleMembers, Join, SetStanding, SetAccess, RemoveMember, DeleteAccount, SetClients;
    hide AddClient, CreatePolicy, PutDraft, PublishPolicy, DeletePolicy, ReorderPolicies;
    hide CreateInvoice, Promote, EditInvoice, TransitionInvoice, RequeueFailed, Decide;
  }

  function Empty(ws: Workspace): Db {
    Db(ws, map[], map[], map[], map[], map[])
  }

  /** The state a history of operations reaches from empty tables. */
  ghost function Replay(ws: Workspace, ops: seq<Op>): Db {
    if ops == [] then Empty(ws) else After(Replay(ws, ops[..|ops| - 1]), ops[|ops| - 1])
  }

  /** One more operation on top of a history. */
  lemma {:induction false} OneMore(ws: Workspace, ops: seq<Op>, op: Op)
    ensures Replay(ws, ops + [op]) == After(Replay(ws, ops), op)
  {
    hide After;
    var more := ops + [op];
    assert more[..|more| - 1] == ops;
  }
}
