/**
 Values shared by the approval engine: identifiers, the columns of a policy step,
 and the facts of an invoice that routing and conditions read.
 */
module Domain {

  datatype Option<+T> = None | Some(value: T)

  type UserId = nat
  type InvoiceId = nat
  type PolicyId = nat
  type Entity = nat

  /** A workflow role key. Keys are unique over live and soft-deleted roles. */
  type Key = string

  /** Money in minor units (numeric(14,2)). */
  type Money = int

  datatype Kind = Approval | Condition | Notify | AutoApprove | UnknownKind

  datatype CondOp = Above | AtLeast | Below | AtMost | ForeignOp

  /** The columns a policy step carries besides its place in the tree. */
  datatype Content = Content(
    kind: Kind,
    role: Option<Key>,
    sla: Option<int>,
    op: Option<CondOp>,
    amount: Option<Money>,
    target: Option<string>,
    channel: Option<string>,
    allow: bool,
    delegate: Option<UserId>)

  /** A step and its two lanes. The same shape is submitted and read back. */
  datatype Step = Step(c: Content, thn: seq<Step>, els: seq<Step>)

  /** What an invoice says about itself; a run keeps the facts it was armed on. */
  datatype Facts = Facts(docType: string, entity: Entity, total: Option<Money>, currency: Option<string>)

  datatype Error =
    | NotPermitted
    | Validation
    | NotFound
    | Conflict
    | RoleInUse
    | PolicyNotFound
    | PolicyStepRole
    | PolicyEmptyBranches
    | PolicyNothingToPublish
    | PolicyCatchAll
    | PolicyOrderStale
    | PolicyDelegateNotMember
    | PolicyDelegateIneligible
    | SweepCapExceeded
    | ScopeDocumentType
    | ScopeEntity
    | ScopeBand
    | ScopeCurrency
    | ScopeRole
    | RunNotFound
    | RunClosed
    | NotRoleHolder
    | NotAwaitingApproval
    | CreatorRefused
    | IllegalTransition
    | RedundantTransition
    | AwaitingApproval
    | RuleChangePending
    | StatusChanged
    | NotResendable
    | MemberNotTransitionable
    | LastActiveAdmin
    | LastActiveMember
    | NotActiveMember
    | DeletionOutcomeChanged
    | ClientAccessNotFirm
    | ClientAccessAdmin
    | UnknownClient

  predicate Distinct<T(==)>(s: seq<T>) {
    forall i, j | 0 <= i < j < |s| :: s[i] != s[j]
  }
}
