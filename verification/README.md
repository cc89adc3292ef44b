# Approval engine, auth sentry and evidence bundle: a verified model

This project models three parts of the repository in Dafny and proves what they promise.

**The approval engine (`internal/approval`).** A workspace keeps approval policies in a list, each a series of versions
(a draft on top of sealed ones, at most one active), each version a tree of steps and a set of scopes. A validated
invoice is armed with the first policy in the list whose scopes admit it: the version's tree is compiled to a run, whose
approval steps are decided one after the other by people who hold the step's role or stand in for it. The transmit gate
lets an invoice be queued only once a run is approved, or while no version is active.

The engine is a state machine over the workspace's tables (`Database.dfy`). `Operations.dfy` says of every transaction
which state it commits or which error leaves the tables as they were; `Store.dfy` carries the same transactions out step
by step, as the source does, on a class whose fields are the tables, and each method is proved equal to its
specification. A history is any sequence of operations from empty tables, refused ones changing nothing
(`Operations.Replay`); the main results are stated about every history. Each transaction is one atomic step in one
workspace. The machine includes what other packages do to the same rows: the promotion that arms a run, the edit that
cancels it, every other status change including the move to queued behind the gate, the sending again of a failed invoice,
the membership operations, account deletion and client access among them, and the adding of a client.

| file | what it holds |
|---|---|
| `Domain.dfy`, `Database.dfy` | values, tables, and the reads the engine makes |
| `StepTree.dfy` | checking, publishing and compiling a step tree |
| `StepStorage.dfy`, `StepRoundTrip.dfy`, `StoredLanes.dfy` | flattening a tree to rows, nesting rows, that nesting undoes flattening, and where each step stands in the rows |
| `Matching.dfy` | scopes and the first-match search |
| `Runs.dfy` | arming, deciding and cancelling one run; its shape and ledger |
| `RoleKey.dfy`, `Slugs.dfy` | minting role keys, and how a key follows its title |
| `Operations.dfy`, `Invariants.dfy` | the transactions as functions, and what every one of them keeps |
| `Compiling.dfy`, `Routing.dfy` | what a tree compiles to, and which policy an invoice is armed with |
| `People.dfy`, `Deciders.dfy`, `Showing.dfy` | members, roles, decisions and reads, in the columns of the tables |
| `Drafting.dfy`, `Reordering.dfy`, `Invoicing.dfy` | policy and invoice writes, in the columns of the tables |
| `PolicyOrder.dfy`, `Histories.dfy`, `Gate.dfy`, `Guarantees.dfy` | the results about every history |
| `Transmission.dfy` | how an invoice comes to be queued, and what was approved when it was |
| `Signers.dfy`, `Deletions.dfy` | who can still sign after a change of people; when a role or policy can be deleted |
| `Witnesses.dfy` | one concrete history, and four rules it shows the system does not have |
| `Queries.dfy`, `Store.dfy` | the transactions carried out on the class |
| `SentryTable.dfy`, `SentryTransport.dfy`, `SentryDelivery.dfy` | the auth sentry's resend table and delivery queue, and the laws of its delivery |
| `Archive.dfy` | the evidence bundle's batches, counts and numbering |

The specification functions share their small predicates (who is an admin, what a scope admits, which lane a condition
picks). Each operation is therefore also described a second time, in the raw columns of the tables and independently of
those predicates: exactly when it goes through, and exactly what it leaves.

Choices a reader should know:

- A nested tree carries no ids, so "same tree up to ids" is plain equality. By `StepRoundTrip.RoundTrip` a version's rows
  and its tree say the same, and the tables hold the tree.
- A role is named by its key, which is unique over live and deleted roles and never rewritten; scopes hold keys where the
  table holds role ids.
- Money is in minor units. An absent total or amount reads as zero in a condition and never falls in an amount band; text
  that does not parse as a number is represented as absent.
- The position the database assigns a new policy is an argument of create, required to be above every row's. Runs of an
  invoice are kept in opening order, and version number n of a policy is the n-th of its list.
- Four rules that look like invariants are not. Each comes with its exact condition and with a history that breaks it.
  An open run does not imply a validated invoice: it outlives exactly the move to queued while nothing is in force
  (`Transmission.OpenRunOutlivesExactly`, `Witnesses.QueuedWithOpenRun`). Being queued does not imply being cleared by the
  approvals: sending a failed invoice again asks no gate, and is right by the approvals exactly when the gate is open
  (`Transmission.RequeueExactly`, `Witnesses.SentAgainUncleared`). A role that a run waits on does not keep its signer
  through an account deletion (`Signers.DeletionSignsExactly`, `Witnesses.LastSignerLeaves`). A role without a signer does
  not imply that nobody can decide, because of delegates (`Guarantees.StrandedNowExactly`,
  `Witnesses.UnsignedYetDecided`).
- The workspace's clients may grow along a history; its kind and the currency list do not change.
- Conditions that other parts of the system decide are arguments: whether content the engine does not read was edited,
  whether a rule change is pending for the client, and whether a failed invoice's submission job and note checks let it be
  sent again.

**The auth sentry (`cmd/authsentry`).** The resend table is a class over a map and a queue of admissions, proved to follow
a rule on the plain history of admissions. The delivery queue is a machine whose moves are the critical sections of the
senders, the delivering goroutine, flushes and close, in any interleaving; an attempt's outcome is arbitrary.

**The evidence bundle (`internal/archive`).** Tables are snapshots listed in the order the queries ask for; a batch query
selects the rows of its invoices. The output is sequences of records and named bodies.

## Model

| member | source | states |
|---|---|---|
| StepTree.CheckLane | internal/approval/policy.go:298-389 | the loop over a submitted lane accepts exactly the valid trees: known kinds, conditions only at the root, lanes only below conditions, no NUL, no blank notify field, every number in bounds |
| StepTree.CheckForPublish | internal/approval/policy.go:418-442 | publish's walk returns the first refusal in tree order |
| StepTree.PublishableExactly | internal/approval/policy.go:418-442 | nothing is refused if and only if every approval step anywhere names a live role and no condition anywhere is bare |
| StepTree.Materialise | internal/approval/engine.go:33-78 | one pass over the root lane yields the interpretation of the tree at the total, and reports an autoapprove exactly when the result holds one |
| StepTree.TakeLane | internal/approval/engine.go:33-78 | a picked lane adds its plain steps in order and no condition |
| StepTree.InterpretNamesOnlyTree | internal/approval/engine.go:33-78 | no condition survives compilation and every compiled step is a step of the tree |
| Compiling.ConditionExactly | internal/approval/engine.go:80-110 | for every amount and total, a condition compiles to its then lane exactly when the total is above, at least, below or at most the amount, as its operator says |
| Compiling.AroundTheAmount | internal/approval/engine.go:80-110 | which lane each operator picks just under, at and just over the amount |
| Compiling.MonotoneInTotal | internal/approval/engine.go:80-110 | a larger total keeps the lane a smaller one got under above and at-least, and conversely under below and at-most |
| Compiling.SwappedLanes | internal/approval/engine.go:80-110 | above and at-most with their lanes swapped compile alike, and so do at-least and below |
| Compiling.AbsentIsZero | internal/approval/engine.go:80-110 | an absent total or amount compiles as zero |
| Compiling.NoOperator | internal/approval/engine.go:80-110 | an absent or foreign operator takes the else lane |
| Compiling.RootsInOrder | internal/approval/engine.go:33-78 | roots compile in order, each on its own |
| Compiling.PlainRoot | internal/approval/engine.go:33-78 | a root that is no condition compiles to itself |
| Compiling.WholeLane | internal/approval/engine.go:33-78 | a lane holding no condition contributes all its steps in order |
| Compiling.OpenedExactly | internal/approval/engine.go:170-219 | with an autoapprove every approval is skipped and the run written approved; else every approval is pending and the run is open exactly when there is one |
| Compiling.AcceptedExactly | internal/approval/policy.go:298-389 | a submitted tree is accepted exactly when conditions stand at the root only, they alone have lanes, and every step's columns are within the bounds, written out |
| StepStorage.FlattenLane | internal/approval/policy.go:226-256 | appending through the pointer yields the depth-first rows of the lane, each with its parent, branch and dense position |
| StepStorage.GroupRows | internal/approval/policy.go:259-270 | rows are split into roots and lanes by parent and branch, half-placed rows reading as roots |
| StepStorage.NestLaneInPlace | internal/approval/policy.go:274-294 | sorting a lane in place and nesting below each row gives the tree of that lane; it ends because ids are unique |
| StepStorage.NestSteps | internal/approval/policy.go:259-294 | nesting any rows with unique ids ends and gives the nested tree |
| StepStorage.ByOrdOfPermutation | internal/approval/policy.go:274-276 | sorting any permutation of densely numbered rows gives the one ascending order |
| StepRoundTrip.RoundTrip | internal/approval/policy.go:226-294 | for every submitted tree, nesting any permutation of its flattened rows gives back that tree |
| StepRoundTrip.CompiledFromStorage | internal/approval/engine.go:33-78 | compiling what was stored and read back, in any order, is interpreting the submitted tree, for every total |
| StepRoundTrip.WriteBatches | internal/approval/policy_store.go:1237-1294 | the two inserts write the roots in order, then the children in order |
| StepRoundTrip.WrittenParentsFirst | internal/approval/policy_store.go:1225-1294 | for a tree that validation accepts no child is written before its parent, and every row is written exactly once |
| StoredLanes.StoredExactly | internal/approval/policy.go:226-256 | the root rows are the roots in order, and below each its then steps stand in the then branch and its else steps in the else branch, numbered from zero |
| StoredLanes.LaneColumns | internal/approval/policy.go:259-270 | a row belongs to a lane exactly when it has both a parent and a branch |
| Matching.MatchScopes | internal/approval/match.go:49-82 | a version matches exactly when every set scope admits the invoice, and then names its set scopes in fixed order |
| Matching.FirstMatch | internal/approval/match.go:37-47 | the first version in order that applies, or none when none does |
| Matching.CatchAllExactly | internal/approval/match.go:11-21 | a version admits every invoice of every creator if and only if no scope is set |
| Routing.RoutedExactly | internal/approval/match.go:37-82 | in every reachable state arming opens a run on a version exactly when it is active in a live policy, its scope columns admit the invoice, and no policy in force above admits it |
| Routing.BandEnds | internal/approval/match.go:62-71 | a band admits the amounts of its currency from bound to bound, both included, a missing bound being open |
| Routing.OutOfEveryBand | internal/approval/match.go:62-71 | another currency, an absent currency and an absent total are in no band |
| Routing.ListingMore | internal/approval/match.go:49-82 | a set scope admits on any one listed value, and listing one more loses no invoice |
| Routing.NotListed | internal/approval/match.go:49-82 | a set scope that lacks the invoice's value refuses it |
| Routing.NamedInOrder | internal/approval/match.go:49-82 | the scopes named as matched are the set ones in the fixed order |
| Runs.Arm | internal/approval/engine.go:170-219 | the state column filled step by step is the initial state of every step, and the run is written closed when nothing waits |
| Runs.ArmedIsWellShaped | internal/approval/engine.go:170-219 | a new run has the one shape, is live, and reads as its plan |
| Runs.DecideKeepsShape | internal/approval/decision.go:236-391 | a decision on an open run keeps the shape: satisfied steps, at most one rejected, then pending ones, and a ledger that says the same |
| Runs.CancelKeepsShape | internal/approval/engine.go:292-340 | cancelling keeps steps and ledger and leaves the run not live |
| Runs.LedgerExact | internal/approval/decision.go:259-276 | the ledger of a well-shaped run holds exactly one row per decided step, in strictly increasing step order, with the step's verdict |
| Runs.WaitingSplits | internal/approval/decision.go:162-173 | every approval step before the waiting one is decided and none after it is |
| Database.MatchExists | internal/approval/match.go:37-47 | something is armed exactly when some version in force applies |
| Database.InOrderExact | internal/approval/match.go:84-92 | the ordered read lists exactly the wanted policies, each once, in position order |
| RoleKey.NewRoleKey | internal/approval/approval.go:103-121 | the counter loop ends for every finite set of taken keys and returns the first free key |
| RoleKey.MintedKey | internal/approval/approval.go:103-121 | the minted key is not taken and is lower-case alphanumeric words joined by single dashes |
| RoleKey.KeysDistinct | internal/approval/approval.go:116-120 | different numbers give different keys, which is why the loop ends |
| Slugs.SlugExactly | internal/approval/approval.go:103-121 | a slug is the title's words in lower case joined by single dashes |
| Slugs.LettersFold | internal/approval/approval.go:103-121 | capitals become small letters, small letters and digits stay, two foreign letters fold to k and i, and nothing else is part of a word |
| Slugs.CaseIgnored | internal/approval/approval.go:103-121 | titles that differ in case alone have the same words |
| Slugs.MintedExactly | internal/approval/approval.go:103-121 | the key is those words, or "role", alone when free and else with the first free number from two on |
| Invariants.ArmKeeps | internal/approval/engine.go:133-276 | arming a validated invoice with no live run leaves it with one live run on its own facts when anything is in force |
| Invariants.ArmedOk | internal/approval/engine.go:133-276 | arming opens a run if and only if something is in force, and every step it waits on names a live role |
| Invariants.SomethingMatches | internal/approval/policy_store.go:743-790 | with the last in-force policy a catch-all, every invoice matches something |
| Invariants.ActiveExactly | internal/approval/policy_store.go:935-962 | the active version is the highest sealed one of a live policy: the top one, or the one under the draft |
| Invariants.SweptKeeps | internal/approval/policy_store.go:1022-1090 | after the publish sweep every invoice satisfies the invariant again, every validated one being armed |
| Invariants.ApplyKeeps | internal/approval/policy_store.go:418-1404 | every operation keeps the joint invariant of policies, roles, invoices and runs |
| Invariants.Reachable | internal/approval/store.go:36-45 | every history reaches a state that satisfies it |
| People.CreateRoleExactly | internal/approval/store.go:153-224 | a role is created exactly for a title and an active admin, live and empty under a free key, and nothing else changes |
| People.StaffingExactly | internal/approval/store.go:478-591 | staffing succeeds exactly for an active admin, a live role, different ids of members not removed and, while a run waits on the role, somebody among them who may sign; the role then holds exactly the list in its order |
| People.JoinExactly | internal/tenancy/store.go:551-605 | a person unknown or removed joins active with the access and clients given |
| People.StandingExactly | internal/tenancy/store.go:242-330 | when a suspension or its end goes through, and that only the standing changes |
| People.AccessExactly | internal/tenancy/member_role.go:27-118 | when a change of access goes through, and that in a firm a former admin keeps sight of every client |
| People.RemovalExactly | internal/tenancy/store.go:385-453 | when a removal goes through, and that it leaves no clients and no staffing and every other place in every role |
| People.DroppedInPlace | internal/tenancy/store.go:442-453 | the one place a person held is dropped and the others keep their order |
| People.ClientsExactly | internal/tenancy/client_access.go:127-205 | when a member's client access is replaced, and with what |
| People.DepartureExactly | internal/tenancy/account_deletion.go:53-188 | when an account ends: somebody else is active, and the sole admin hands on to the first other member; the heir is an admin and nobody else changes |
| People.AddClientExactly | internal/portfolio/store.go:39-83 | an active admin adds a client not there yet, and those there stay |
| Drafting.CreateExactly | internal/approval/policy_store.go:418-520 | when a policy is created, in the columns of its scopes: it may narrow only if some policy is live already |
| Drafting.CreateStores | internal/approval/policy_store.go:455-510 | the new policy has one unsealed version without steps and with the scopes given, and of the others only the last one's position changes |
| Drafting.PutDraftExactly | internal/approval/policy_store.go:538-734 | when a draft is saved, in the columns of its scopes and steps: the last live policy is not narrowed |
| Drafting.PutDraftStores | internal/approval/policy_store.go:600-734 | the draft on top is unsealed and holds the submitted steps and the scopes given or replaced; earlier versions are as they were, and one is added exactly when there was no draft |
| Drafting.PublishExactly | internal/approval/policy_store.go:833-1008 | when a publish goes through, each check in columns, with at most five thousand invoices to arm |
| Drafting.PublishStores | internal/approval/policy_store.go:905-1008 | the draft becomes the one active version with its own steps and scopes, and each waiting invoice gets its run on top of those it had |
| Drafting.SubmittedIsWhatRuns | internal/approval/policy_store.go:626-676 | after a draft is saved and published, every run ever opened on that version reads as the compile of the submitted steps |
| Drafting.ShapeExactly | internal/approval/policy.go:455-525 | scopes pass the shape checks exactly when known, not repeated, under the ceiling and with bounds in order |
| Reordering.ReorderExactly | internal/approval/policy_store.go:1298-1404 | a new order is accepted exactly when it lists the live policies once each and either is the order there is, or keeps the last one last while anything narrows and does not end in force on one that narrows |
| Invoicing.CreateInvoiceExactly | internal/invoice/store.go:205-330 | a new invoice is a draft with its facts and creator and no run |
| Invoicing.PromoteExactly | internal/invoice/store.go:2632-2646 | a draft is validated, with its new run on top of those it had |
| Invoicing.EditExactly | internal/invoice/store.go:1520-1700 | which invoices can be edited; a change stores the new facts, leaves a draft and calls in its runs; a save that changes nothing changes nothing |
| Invoicing.TransitionExactly | internal/invoice/store.go:2158-2222 | a status change goes through exactly along the listed edges, into queued only with no rule change pending and the gate open in columns, and changes the status alone but for the runs called in on a return to draft |
| Invoicing.RequeueWrites | internal/invoice/support.go:54-72 | what sending a failed invoice again needs and leaves |
| Invoicing.StatusTable | internal/invoice/store.go:1751-1776 | whatever the operation, a status is followed only by one the table allows |
| Invoicing.AcceptedForever | internal/invoice/store.go:1751-1776 | an accepted invoice stays accepted through every later history, with its facts and runs |
| PolicyOrder.CreateInsertsAboveLast | internal/approval/policy_store.go:462-484 | a new policy reads directly above the last live one and the rest of the list is unchanged |
| PolicyOrder.ReorderReadsAsRequested | internal/approval/policy_store.go:1298-1404 | a successful reorder permutes exactly the old positions, touches nothing else, and the list reads as requested |
| PolicyOrder.LastPolicyPinned | internal/approval/policy_store.go:736-815 | while a live policy is scoped no operation at all changes which live policy is last |
| PolicyOrder.LastNotDeleted | internal/approval/policy_store.go:792-808 | the last live policy cannot be deleted while a live policy is scoped |
| PolicyOrder.LastUnscoped | internal/approval/policy_store.go:757-790 | the last live policy carries no scope on its top version nor on the one in force |
| Histories.HistoryGrows | internal/approval/policy_store.go:1096-1104 | no history loses a sealed version, a role key, an invoice's creator, a run or a ledger row |
| Histories.SealedNeverChanges | internal/approval/policy_store.go:526-537 | a sealed version keeps its number, steps and scopes through every later history |
| Histories.RunsAreKept | internal/approval/engine.go:278-291 | a run keeps its place, facts and steps, its ledger is only appended to, and a rejected or cancelled run never moves again |
| Histories.KeysNeverReused | internal/approval/store.go:172-208 | a key once minted is never minted again in any history, whatever was deleted in between |
| Histories.LedgerProvenance | internal/approval/decision.go:124-224 | every ledger row of every history was written by one decision of an active approver who held the role or, failing that, was its delegate; self-approved exactly when the actor approved an invoice of their own, and then no other active approver reached the client |
| Deciders.LedgerColumns | internal/approval/decision.go:103-224 | every ledger row of every history was written by someone then active and an admin or reviewer; as delegate exactly when not in the step's role, self-approved exactly on an invoice of their own that nobody else could approve |
| Deciders.DecideExactly | internal/approval/decision.go:36-224 | when a decision goes through, in columns: reason within a thousand bytes, caller an active admin or reviewer in the next step's role or standing in, and no approve of one's own invoice while another could |
| Deciders.DecideLeaves | internal/approval/decision.go:236-391 | the next step marked, one row saying who decided it and how, the run closed on a reject or on the last step, a rejected invoice back to draft, nothing else changed |
| Deciders.OthersRefused | internal/approval/decision.go:103-116 | every decision by a preparer, a member not active or a stranger is refused and changes nothing |
| Deciders.OthersNeverShown | internal/approval/gate.go:166-204 | nor is such a person shown as holding or signing any role |
| Deciders.ReviewerCanReject | internal/approval/decision.go:155-204 | an active reviewer in the next step's role can reject with a reason |
| Gate.SigningAgrees | internal/approval/stranded.go:43-71 | a role warns in the list, nobody passes the holder test, and a step on it is stranded: the three agree for every key in every state |
| Gate.ShownSignerHolds | internal/approval/read_model.go:362-381 | the person shown as signing holds the role, and the extra count is everybody else staffed |
| Gate.BlocksNowExactly | internal/approval/stranded.go:43-71 | a stranded run blocks "now" exactly when its first pending step is one nobody can sign |
| Gate.RowAgreesWithGate | internal/approval/gate.go:206-305 | list row and detail page give the same run state, pending step and role, and a holder never sees a warning |
| Gate.RejectMatchesGate | internal/approval/decision.go:155-204 | a valid reject on an open run of a validated invoice succeeds exactly for callers the gate shows as holder or delegate |
| Gate.ApproveMatchesGate | internal/approval/creator.go:38-50 | an approve succeeds for the same callers except the creator while someone else could approve |
| Showing.GateFactsExactly | internal/approval/gate.go:102-164 | the detail page's facts in columns: whether any version is active, whether any run is approved, the newest run's state and next step, and how the person stands to it |
| Showing.RowFactsExactly | internal/approval/gate.go:206-305 | the list row warns exactly when the next step names a role nobody in it may sign for |
| Showing.ResolutionExactly | internal/approval/read_model.go:352-396 | missing, nobody, blocked on the first person, or signed by the first in the list who may sign |
| Showing.StrandingExactly | internal/approval/stranded.go:43-93 | a run is reported exactly when it is open on a validated invoice and some pending step, first or later, has nobody who may sign; it blocks now exactly when no earlier approval is pending |
| Guarantees.ValidatedIsArmed | internal/approval/policy_store.go:1010-1021 | with any version in force every validated invoice has exactly one live run, the newest |
| Guarantees.BlockedHasSomethingToDecide | internal/approval/gate.go:45-52 | a validated invoice the gate holds back has an open run waiting on a step that names a live role |
| Guarantees.OneLiveRun | internal/approval/engine.go:278-291 | at most one run of an invoice is live, it is the newest, and a draft has none |
| Guarantees.ApprovedIsNewest | internal/approval/gate.go:112-131 | "some run is approved" and "the newest run is approved" are the same |
| Guarantees.ActiveMeansInForce | internal/approval/gate.go:60-64 | a version is active exactly when a live policy is in force |
| Guarantees.ClearExactly | internal/approval/gate.go:50-52 | the gate is open exactly when nothing is in force or the newest run is approved |
| Guarantees.RunShape | internal/approval/engine.go:133-276 | every run of every history has the one shape and reads as the compile of a sealed version at its facts |
| Guarantees.LiveRunIsCurrent | internal/invoice/store.go:1675-1700 | a live run was compiled on the invoice's present facts |
| Guarantees.LedgerIsExact | internal/approval/decision.go:259-276 | in every history the ledger holds one row per decided step in strictly increasing order |
| Guarantees.RolesInForceLive | internal/approval/store.go:387-443 | every approval step and scope role in force names a role that is not deleted |
| Guarantees.WaitedRolesLive | internal/approval/store.go:337-362 | every pending step of a validated invoice's open run names a role that is not deleted |
| Guarantees.NeverStrandedOnDeleted | internal/approval/stranded.go:43-71 | in serial histories the stranded reason "deleted" never arises; a stranded role is live and unsigned |
| Guarantees.StrandedNowExactly | internal/approval/stranded.go:13-24 | nobody can decide an open run if and only if it is reported as blocking now and no active approver may stand in |
| Guarantees.UndecidableExactly | internal/approval/decision.go:155-204 | every decision on a waiting step is refused if and only if no active approver holds its role or may stand in |
| Signers.SignerIsKept | internal/approval/last_signer.go:30-77 | no operation but the ending of an account takes the last signer from a role that a run waits on afterwards |
| Signers.DeletionSignsExactly | internal/tenancy/account_deletion.go:143-190 | after an account deletion a role is signed if and only if somebody else staffed in it is an active approver or the promoted heir; the waiting invoices stay |
| Signers.OneDeparture | internal/tenancy/account_deletion.go:53-79 | of leaving, handing admin to the earliest-joined heir and ending the workspace exactly one fits |
| Witnesses.UnsignedYetDecided | internal/approval/decision.go:155-204 | a history in which nobody signs the role a run waits on, the run is reported as blocking now, and an active approver outside the role approves it as delegate |
| Witnesses.LastSignerLeaves | internal/tenancy/account_deletion.go:143-190 | a history in which the only signer of a role that a run waits on ends the account |
| Signers.StaffingLeavesSigner | internal/approval/store.go:555-572 | after a staffing change that went through, a waited-on role has an active admin or reviewer in the stored set |
| Guarantees.EveryInvoiceMatches | internal/approval/match.go:37-82 | whenever anything is in force every invoice matches, and the match is the lowest position whose set scopes all admit it |
| Guarantees.LastAdmitsEverything | internal/approval/policy_store.go:757-790 | the last live policy's top version and the last in-force policy's active version admit every invoice |
| Guarantees.VersionHistory | internal/approval/policy_store.go:52-62 | only the top version may be unsealed, at most one is active, and it is the highest sealed one of a live policy |
| Transmission.GateMeansCleared | internal/approval/gate.go:50-52 | the gate is open exactly when nothing is in force or the newest run, compiled on the invoice's facts, had every approval step approved |
| Transmission.QueuedWasCleared | internal/invoice/store.go:2158-2222 | an invoice becomes queued from validated, cleared at that moment, or from failed by being sent again, cleared exactly when the gate is open |
| Transmission.RequeueExactly | internal/invoice/support.go:54-72 | sending a failed invoice again goes through whatever the gate says, and is right by the approvals if and only if the gate is open |
| Transmission.EveryonePassedTheGate | internal/invoice/store.go:1751-1775 | every invoice found queued, submitted, accepted, refused or failed went from validated to queued earlier, cleared at that step, with the facts and runs it still has |
| Witnesses.SentAgainUncleared | internal/invoice/support.go:54-72 | a history in which a failed invoice with no run is queued again while a version is in force |
| Transmission.OnlyTheseQueue | internal/invoice/support.go:47-72 | only a status change through the open gate and the sending again of a failed invoice make an invoice queued |
| Transmission.OpenRunOutlivesExactly | internal/invoice/store.go:2206-2217 | one operation leaves a validated invoice's open run open on an invoice no longer validated if and only if it is the move to queued, no rule change pending, with nothing in force |
| Transmission.OpenRunLeftBehind | internal/invoice/store.go:2206-2217 | an open run on an invoice that is not validated was left by a move to queued made while nothing was in force |
| Transmission.DeletingTheOnlyPolicyReleases | internal/approval/policy_store.go:1092-1172 | after deleting the only policy in force the approval gate holds no validated invoice back, open runs or not |
| Witnesses.QueuedWithOpenRun | internal/invoice/store.go:2206-2217 | a history that ends with an open run on a queued invoice |
| ApprovalStore.StaysReachable | internal/approval/store.go:36-45 | a transaction run on a reachable state reaches a reachable state |
| ApprovalStore.Store.CreateRole | internal/approval/store.go:153-224 | commits the freshly minted role or refuses and changes nothing |
| Deletions.RoleDeletableExactly | internal/approval/store.go:387-466 | an active admin can delete a role if and only if it is live, nothing in force names it and no open run of a validated invoice has a pending step on it; its staffing stays |
| ApprovalStore.Store.SetRoleMembers | internal/approval/store.go:478-591 | replaces the staffing exactly, unless it would leave a waited-on role unsigned, and then restores it |
| ApprovalStore.Store.UnsignedWaitingInvoices | internal/approval/store.go:364-384 | the invoices waiting on the role when none of the candidates signs it, else none |
| ApprovalStore.Store.HeldRoleKeys | internal/approval/gate.go:166-204 | exactly the keys the subject is staffed in, live, as an active approver |
| ApprovalStore.Store.OrderByPosition | internal/approval/match.go:84-92 | the policies asked for in position order |
| ApprovalStore.Store.ReadInForce | internal/approval/match.go:84-109 | the active versions of live policies in position order |
| ApprovalStore.Store.MatchVersion | internal/approval/engine.go:133-173 | the version of the matched policy, whether or not the creator's roles had to be read |
| ApprovalStore.Store.Arm | internal/approval/engine.go:133-276 | adds exactly the run the first match compiles to, or none |
| ApprovalStore.Store.CancelLiveRun | internal/approval/engine.go:278-340 | cancels every open or approved run of the invoice and reports whether there was one |
| ApprovalStore.Store.SweepValidatedBacklog | internal/approval/policy_store.go:1022-1090 | arms each validated invoice without a live run with its own first match, in whatever order, or refuses above the cap |
| ApprovalStore.Store.CreatePolicy | internal/approval/policy_store.go:411-520 | the new row takes the last live policy's position, which moves up, under the last-policy rule |
| ApprovalStore.Store.PutDraft | internal/approval/policy_store.go:522-734 | rewrites the open draft or forks one that keeps the top version's scopes unless scopes are given |
| ApprovalStore.Store.PublishPolicy | internal/approval/policy_store.go:826-1008 | seals and activates the checked draft, deactivates the policy's other versions, and sweeps, all or nothing |
| Deletions.PolicyDeletableExactly | internal/approval/policy_store.go:1092-1172 | an active admin can delete a live policy if and only if it is not last while a live one is scoped and its leaving does not make a scoped one last in force; no other policy changes |
| ApprovalStore.Store.ReorderPolicies | internal/approval/policy_store.go:1296-1404 | commits the permuted positions, or refuses a repeated, stale or unpinned order |
| ApprovalStore.Store.Promote | internal/invoice/store.go:2632-2646 | a draft is validated and armed in one transaction |
| ApprovalStore.Store.EditInvoice | internal/invoice/store.go:1520-1700 | an invoice whose content changed, read by the engine or not, goes back to draft and its live run is cancelled; an unchanged one keeps both |
| ApprovalStore.Store.TransitionInvoice | internal/invoice/store.go:2158-2222 | only the listed transitions, queued only with no rule change pending and through the gate, and a move to draft cancels the live run; asking for validated is refused, as the handler does before the store (internal/invoice/handlers.go:1200) |
| ApprovalStore.Store.Decide | internal/approval/decision.go:103-224 | the refusal ladder in its order, then one decision on the lowest pending step |
| ApprovalStore.Store.CommitDecision | internal/approval/decision.go:226-391 | claims the step, appends one ledger row, closes or advances the run, and demotes on a reject |
| ApprovalStore.Store.CreatorStanding | internal/approval/creator.go:52-125 | for any list of probes, an answer for exactly the invoices that are the subject's own: whether another active approver reaches the client, and whether one of those is staffed in a role probed for it |
| ApprovalStore.Store.TransmitClear | internal/approval/gate.go:54-100 | one answer per invoice found, or per id asked when nothing is active, each the gate's |
| ApprovalStore.Store.GateFacts | internal/approval/gate.go:102-164 | the detail page's facts for the caller |
| ApprovalStore.Store.RowFacts | internal/approval/gate.go:206-305 | two passes give exactly the row of every invoice that has a run |
| ApprovalStore.Store.ResolveRole | internal/approval/read_model.go:352-396 | the filter loop gives missing, nobody, blocked on the first staffed, or the first active approver |
| ApprovalStore.Store.StrandedRuns | internal/approval/stranded.go:43-93 | the report lists exactly the open runs of validated invoices with a pending step nobody can sign |
| ApprovalStore.Store.RefuseUnsignedWaitingRoles | internal/approval/last_signer.go:30-77 | refuses if and only if some role given has no signer while a run waits; counts every waiting invoice and lists at most twenty, each once |
| SentryTable.Table.Allow | cmd/authsentry/event.go:193-211 | with a clock that never goes back, refuses exactly when the fingerprint is among the last 1024 admissions and was admitted less than an hour ago |
| SentryTable.Table.Evict | cmd/authsentry/event.go:201-207 | expired admissions leave first, then the oldest; map and queue stay in step and below the cap |
| SentryTable.MapAnswers | cmd/authsentry/event.go:196-200 | looking in the map answers the rule on the whole history |
| SentryTable.AdmissionsAreSpaced | cmd/authsentry/event.go:193-195 | two admissions of one fingerprint are an hour apart or more than 1024 admissions apart |
| SentryTable.EveryCallIsCovered | cmd/authsentry/event.go:193-200 | every call was admitted or its fingerprint was admitted within the hour before it |
| SentryTransport.EveryEventLeavesOnce | cmd/authsentry/transport.go:73-217 | under every interleaving each accepted event is in the queue or left it once: by overflow behind a hundred newer ones, after a non-retry attempt on it, or given up for want of a destination; done with, it is queued only while being taken out |
| SentryTransport.NoSecondOutcome | cmd/authsentry/transport.go:138-217 | no event is delivered, dropped or given up twice |
| SentryTransport.QueueInOrder | cmd/authsentry/transport.go:73-84 | the queue holds at most a hundred events in acceptance order |
| SentryTransport.WaitsAreBounded | cmd/authsentry/transport.go:160-166 | every wait is between a second and an hour |
| SentryTransport.NextKeeps | cmd/authsentry/transport.go:138-217 | every move of every party keeps the queue, exit and attempt accounts |
| SentryDelivery.FailuresCount | cmd/authsentry/transport.go:138-175 | the failure count is the number of retries on the head since the last attempt that was not one |
| SentryDelivery.RetryWaits | cmd/authsentry/transport.go:160-166 | in any history a retry sleeps for the wait that follows that number of retries, with the queue as it was |
| SentryDelivery.UnaskedWait | cmd/authsentry/transport.go:160-166 | unasked, the first wait is a second and each next one twice as long, up to five minutes |
| SentryDelivery.AskedWait | cmd/authsentry/transport.go:160-166 | asked to wait longer it does, up to an hour, and never less than unasked |
| SentryDelivery.OldestFirst | cmd/authsentry/transport.go:138-175 | the event being posted is the oldest there is |
| SentryDelivery.TakesHead | cmd/authsentry/transport.go:138-158 | a free goroutine takes the head of the queue |
| SentryDelivery.SendGoesLast | cmd/authsentry/transport.go:73-84 | a send goes last, and the oldest event makes room only in a queue of a hundred |
| SentryDelivery.FlushBegins | cmd/authsentry/transport.go:193-200 | a flush takes in the whole queue, and only with a destination |
| SentryDelivery.NewestFirst | cmd/authsentry/transport.go:193-217 | a flush pass tries what was queued when it began, newest first |
| SentryDelivery.PassEnds | cmd/authsentry/transport.go:160-191 | a pass that is over or cut off by close starts its wait again |
| SentryDelivery.AfterClose | cmd/authsentry/transport.go:138-217 | once closed nothing is accepted or queued, and at most the attempt on the head then under way is still recorded |
| SentryTransport.Buffer.SendEvent | cmd/authsentry/transport.go:73-84 | in place, the oldest event is dropped from a full buffer and the new one goes last |
| SentryTransport.Buffer.SettleHead | cmd/authsentry/transport.go:169-173 | the head leaves if it is still the attempted event |
| SentryTransport.Buffer.RemoveSent | cmd/authsentry/transport.go:211-215 | the attempted event leaves wherever it stands, the others keep their order |
| Archive.Chunk | internal/archive/chunk.go:3-18 | the loop cuts the ids into consecutive batches |
| Archive.ChunksExact | internal/archive/chunk.go:3-18 | the batches joined are the ids, and none is empty or over the size |
| Archive.SelectAppends | internal/archive/history.go:29-45 | a read keeps the table's order and multiplicity |
| Archive.CountChildren | internal/archive/preview.go:61-92 | the sums over batches are the rows and bodies of the chosen invoices |
| Archive.WriteHistory | internal/archive/history.go:47-115 | across batches every record carries how many records of its invoice are out, and every stored row is written once |
| Archive.HistoryFullyNumbered | internal/archive/history.go:47-115 | each invoice's records are numbered exactly 1 to the number of its stored rows |
| Archive.NumbersIncrease | internal/archive/history.go:88-94 | later records of one invoice carry larger numbers |
| Archive.WriteLineItems | internal/archive/lineitems.go:34-57 | line items come out as one read of all the invoices would list them, whatever the id order and the batches |
| Archive.WriteSubmissions | internal/archive/submissions.go:39-92 | one record per stored submission of the chosen invoices, none twice, in batch order |
| Archive.WriteExchange | internal/archive/exchange.go:55-157 | as many records and body files as the preview counts, names pairwise distinct, each record naming exactly the files that hold its row's bodies |
| Archive.FileNamesDistinct | internal/archive/exchange.go:104-118 | distinct exchange ids give distinct file names |
| Archive.RecordsNameBodies | internal/archive/exchange.go:104-118 | the file a record names exists exactly for a present body, holds it, and alone has that name |
| Archive.WriteAttempts | internal/archive/exchange.go:72-150 | each row's present bodies become files named by exchange and side |
| Archive.FilesExact | internal/archive/exchange.go:104-118 | a body file exists exactly for each present body |
| Archive.PreviewAndDownload | internal/archive/preview.go:28-92 | on one snapshot the preview's five child counts are the sizes of what the download writes |

## Left out

- HTTP handlers, JSON, status codes and error wording; refusals are error values without their lists, except the last-signer refusal.
- SQL, row-level security, lock modes and concurrent transactions: each transaction is atomic, so results about roles in use hold for serial histories only; the source says arming does not take the workspace lock.
- The invoice package beyond its status changes: invoice content is what routing reads, and the content fingerprint is not kept. `Store.Update` (internal/invoice/store.go:1076) rewrites content in any status and demotes nothing; it has no production caller, and a history with one could break `Guarantees.LiveRunIsCurrent` and `Transmission.GateMeansCleared`. Batch submission and the submission worker's marks are the same status changes.
- The operations of `internal/tenancy`, the adding of a client (`internal/portfolio`) and the sending again of a failed invoice are in the state machine as functions but not as store methods; a self-deletion's refusal for a missing email, a locked workspace, and the deletion of a whole workspace are not modelled.
- Demo seeding and purging, which write policies and runs outside the engine.
- Names, titles, descriptions, notify text, SLA and due times, overdue flags; role renames (`UpdateRole`) change nothing the model keeps.
- Text parsing: uuids, decimals, trimming, and NUL checks outside a step tree; `title` arguments and the reason of a reject are taken as already trimmed. The bound on a reason is in bytes of its UTF-8 form; text that is not valid UTF-8 is not modelled.
- Which delegate a refused publish names (`pickIneligibleDelegate`) and which deleted scope roles it lists; the model keeps only that it refuses.
- Audit payloads, except `as_delegate` and `approved_as`, which are kept in the ledger row.
- ApprovalStore.Store.UnsignedWaitingInvoices: returns all the waiting invoices as a set; the cap of twenty is applied where they are listed, in `ApprovalStore.Store.Listed`, and their order by opening time is not kept.
- ApprovalStore.Store.RefuseUnsignedWaitingRoles: the order of the listed invoices, which follows opening times across invoices, is not kept.
- ApprovalStore.Store.StrandedRuns: reports a set; the order by opening time is not kept.
- The fixed-width step columns and their nullable arrays: rows are values.
- Wiring: a store built without a fingerprinter or a demoter, which fails closed.
- The sentry's request memo, line parsing, text scrubbing and HTTP posting; fingerprints are opaque and an attempt's outcome is arbitrary.
- The ZIP and manifest writers, header scrubbing and actor labels; the invoice count of a preview is the number of ids.
- ApprovalStore.Store.OrderByPosition: orders by position and then id, as the reads that arm do; other reads order by position alone, which is the same while live positions differ.
