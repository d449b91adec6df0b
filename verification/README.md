# Verified model of dazl's stateful protocols

A Dafny 4.11 model of the parts of the application that keep state under a protocol, with proofs of what each keeps
over whole runs: every interleaving, every delivery order, every crash. `dafny verify dfyconfig.toml` checks all of it.

Where the source changes state in place, a class (`MemberStore`, `RecoveryStore`, `StripeStore`, `TrialStore`,
`RotationStore`, `RateLimitStore`, `BatchRunner`, `MonitorStore`, `EmailStore`) runs its statements and is proved equal
to a specification function; what the source promises is proved of that function, or of a machine that takes one
statement, call or transaction at a time.

The modules named Laws, and MembershipAnswers, say what the operations do in terms of the rows, files and events
themselves, not of the helpers that a specification and its code share: exactly when each goes through, and all it changes.

| files | what they model |
|---|---|
| Roles, MembershipSpec, MembershipLaws, MembershipTx, MembershipAnswers, MemberStore, SessionLaws, OffboardTx | Workspace membership under row locks: each transaction alone, all statement-level interleavings on READ COMMITTED and what they answer, sessions at offboarding, alone and with a removal's session statements apart |
| RecoverySpec, RecoveryLaws, RecoveryStore | The staging restore: file-system calls, fsync, crashes that lose any subset of un-fsynced directory changes, and processes killed with theirs still un-fsynced |
| StripeSpec, StripeLaws, StripeCustomers, StripeRuns, StripeStore | Stripe events, out of order, repeated, within one second, naming their tenant or only its customer |
| TrialLedger, TrialBudget, TrialLaws, TrialMidnight, TrialStore | The free-trial budget: the ledger query under SQL's three-valued logic, two ceilings, midnight |
| Envelope, KeyRotation, RotationStore, RotationLaws | Envelope encryption (ideal, symbolic) and master-key rotation with interruption and rollback |
| RateLimitSpec, RateLimitBound, RateLimitShared, RateLimitLaws, RateLimitStore | The rate limiter with its per-process shadow, and how far a shadow can pass its limit |
| Canonical, BatchSpec, BatchBudget, BatchResume, BatchStops, BatchLaws, BatchRunner | The benchmark batch under a budget, stopped between records or inside a call and run again, any number of times |
| BlindScoring, RunCheck, Scorecard, BatchRuns | Blind scoring, the scorecard's input check, and the runs a batch assembles for it |
| MonitorSpec, MonitorRuns, MonitorStore, MonitorLaws, MonitorSchedule | Monitor events, alert policies, cursors, and run spacing |
| EmailTokens, EmailTokenRuns, EmailStore, EmailLaws | Email links, recovery and password sign-in under the account lock |
| AuditPaging, Contain, ContainLaws | Cursor paging of the audit trail; containing a build's process tree |

## Where the code and a natural claim part

Each of these has a lemma with a concrete input or run, and beside it the exact condition under which the claim holds.

- A tenant can become Pro on a subscription already recorded as ended. The check that asks Stripe runs before the
  transaction, and the rule that an ended subscription stays ended looks at the event's own plan, not at the plan Stripe's
  answer settles on. A held `unpaid` update whose redelivery read `active` just before a same-second deletion committed
  revives the subscription (`StripeRuns.ARaceRevivesAnEndedSubscription`); a run keeps the rule if and only if no delivery of
  it has that shape (`StripeRuns.RunsNeedLiveSubscriptions`).
- The order of Stripe's deliveries can matter for an event that carries only a customer: first delivered before the customer
  is linked, it is marked processed and lost (`StripeCustomers.ACustomerEventCanBeLost`). Nothing is lost if and only if
  every such event comes after one that names the tenant and changes its plan (`StripeCustomers.NothingIsLostExactly`); and all
  orders of a set of events end on one plan if and only if none of those that name the tenant changes its plan, or none of the
  others would alone change what the naming ones mean (`StripeCustomers.OrderDoesNotMatterExactly`).
- The trial's daily ceiling can be overrun around midnight, since an admission reads the clock before it waits for the lock
  row (`TrialMidnight.ALateAdmissionOverrunsTheDay`). In any deployment that can admit it, to accounts of different companies
  or none, an admission keeps the day in every run if and only if it read the clock on that day, or is a site read whose grace
  ended before midnight (`TrialMidnight.LateAdmissionsExactly`).
  The account ceilings hold regardless.
- A 'local' rate-limit key can allow up to twice its limit less two in one shadow window, when the store opens another window
  under a shadow that goes on: for every limit from 2 on there is a run that does (`RateLimitBound.TheMostIsAllowed`), and
  none allows more (`RateLimitBound.AShadowAllowsAtMost`). The limit holds in every run if and only if it is at most 2 or the
  window at most a millisecond (`RateLimitBound.TheLimitHoldsExactly`), and in a given run if the store never does that
  (`RateLimitBound.AShadowOfOneWindow`).
- A benchmark call cut off before its record is written is made, and paid, again (`BatchStops.ACutCallIsMadeAgain`). Over all
  its runs a batch calls each system at most once for each task if and only if no stop cut a call off
  (`BatchStops.CalledOnceExactly`).
- A benchmark call that stops at a login wall, paywall or missing feature with no cost reported is charged the task limit at
  first and nothing on resuming, so a stopped batch can call more than an unstopped one
  (`BatchStops.AForgottenStopCallsMore`). A stop resumes to the same store, spend and calls if and only if no call the run had
  recorded by then was of that kind (`BatchResume.ResumingIsExact`).
- The runner's own run can fail the scorecard's check (`BatchRuns.AWalledRunFails`): with its labels and task set in order, it
  does so if and only if a call of this run, or a record in the store at its start, kept items on a stop reported as
  unsupported (`BatchRuns.AssembledRunsPass`).
- A session opened outside the account lock between a recovery's revoke statement and its commit outlives the recovery
  (`EmailTokenRuns.AGoogleSessionOutlivesARecovery`); exactly those do (`EmailTokenRuns.WhoSurvivesARecovery`), and no password
  session does.
- A crash can lose a sidecar the restore sets aside, where the file system may keep a removed name and a new one apart: if
  and only if it comes after that sidecar's move and before the directory is synced
  (`RecoveryLaws.ACrashCanLoseASidecarExactly`). At every other moment until the sweep, through any attempts, the sidecar's
  file is in the directory (`RecoveryLaws.ASidecarIsThereUntilTheSweep`).
- A finished restore removes what an unfinished restore of a sibling database had set aside, when the sibling's name goes on
  from this one's (`RecoverySpec.ASiblingIsSwept`); it keeps another file if and only if the sweep's filter does not match its
  name (`RecoverySpec.ReturnIsComplete`).
- The containment's cleanup lists the tree and then looks at each process, so a process that forks in between and exits
  escapes it (`Contain.AForkBetweenTheReadsEscapes`); an empty check is final if and only if nothing born after its listing
  still ran when its look ended (`Contain.AnEmptyCheckIsFinalExactly`).
- The containment can end with the command running, no cleanup and a status that is not 125: on a signal between its tries
  (`Contain.ASignalBetweenTheTriesEscapes`), on a third signal in the except clause of the loop that switches the handlers
  (`Contain.ASignalInTheExceptClauseEscapes`), or on a process it may not signal (`Contain.ARefusedSignalEscapes`). It ends by
  an exception if and only if a signal raised outside every try or a call the system may refuse failed
  (`Contain.OnlyTheUncaughtEscapes`); once every handler is switched no signal does (`Contain.NoSignalStopsTheCleanup`), and a
  program that never started the command leaves nothing running (`Contain.AnyOtherStatusIsFinalExactly`).

## Assumptions

Each is a `requires` or a restriction on a step relation, named where it is used.

- Random ids, tokens, salts and nonces are fresh; hashes are injective; encryption is ideal. An invitation's id and its
  token's hash are one id. Money is `real`, times are integers.
- Membership: READ COMMITTED with row locks held to commit; account emails do not change during a run. For the sessions of an
  interleaved removal: at the start every member has their own workspace row (the startup backfill, web/lib/workspaces.ts:57-63),
  and invitations are accepted for signed-in accounts (web/app/api/workspace/invitations/accept/route.ts:16-22).
- Restore: nothing else writes while the service is stopped; an fsynced file survives whole; a killed process loses nothing
  the kernel has, until the power fails.
- Stripe, order independence: the events belong to one subscription, carry a time and a known status, name their tenant or
  carry its one customer, and plan-setting ones are in distinct seconds. Pro on ended: Pro events name a subscription, and a subscription is one tenant's.
- Trial budget: constant settings, a monotone clock, reads that settle within their grace and their reserve, scans that stay
  settled, and recorded spend within the reserve.
- Batch: deterministic adapters, one record written at a time, an entity's key always written as a domain's or a name's.
- Monitors: a play's window is a positive number of days; event keys do not collide.
- Containment: process ids are not reused; the tree is listed at one moment, and each listed process is looked at at any
  moment after; blocking the signals succeeds, and the only calls the system refuses are making the command, signalling a
  process and writing to the error stream.

## Model

| member | source | states |
|---|---|---|
| MembershipSpec.SerialKeeps | web/lib/workspace-members.ts:109-220 | Each membership transaction alone leaves valid tables, an owner in every workspace that had one, a workspace for every account that had one, and accepted or revoked invitations unchanged |
| MembershipSpec.OwnershipNeedsAnOwner | web/lib/workspace-members.ts:91-93 | A membership becomes or stops being an owner's only by an owner's authority, or by an account making its own workspace |
| MembershipSpec.PendingStayBounded | web/lib/workspace-members.ts:164-171 | After an invitation at most 50 are pending in its workspace, and only the newest for its email |
| MembershipLaws.OnlyManagersManage | web/lib/workspace-members.ts:89-93 | Whoever changes a role, removes, invites or takes an invitation back is an admin or an owner there by the membership row; so is whoever sent an invitation that is accepted; and where an owner is made or touched it takes an owner |
| MembershipLaws.ChangingARole | web/lib/workspace-members.ts:109-119 | A role change between members is forbidden exactly when the actor's row is no admin's or owner's, or an owner is made or touched by a non-owner; last_owner exactly when no other owner is left; else exactly that row's role changes |
| MembershipLaws.RemovingAMember | web/lib/workspace-members.ts:123-137 | A removal is refused exactly for want of that authority, for the last owner, or from the member's last workspace; else that row goes and exactly the open invitations the member sent there are revoked |
| MembershipLaws.LeavingAWorkspace | web/lib/workspace-members.ts:140-153 | A member may leave exactly unless they are its last owner or it is their last workspace; what goes is the same |
| MembershipLaws.Inviting | web/lib/workspace-members.ts:157-174 | An invitation goes through exactly with that authority in the request and in the row, to an address no member has, not over an open owner's invitation unless an owner's, with fewer than 50 open to others; it lasts a week and revokes the open ones to the address |
| MembershipLaws.TakingBack | web/lib/workspace-members.ts:184-193 | An open invitation of the workspace is revoked exactly by an admin or owner, an owner's by an owner; no other row changes |
| MembershipLaws.Accepting | web/lib/workspace-members.ts:200-220 | A link works exactly while open, unexpired and its inviter still an admin or owner (of an owner's, an owner), for the verified address it names; it is used up and its account joins with its role, or keeps the one it had |
| MembershipLaws.MakingOnesOwn | web/lib/workspaces.ts:67-75 | Only an account with no workspace row gets one, and owns it |
| MembershipLaws.StrangersAreRefused | web/lib/workspace-members.ts:50-66 | The refusals for a missing workspace, actor, member or token, in the source's order |
| MembershipTx.QuietIsValid | web/lib/workspace-members.ts:47-53 | Valid tables with no transaction under way satisfy the invariant every run keeps |
| MembershipTx.OwnStatement | web/lib/workspace-members.ts:109-220 | Every statement of a running transaction leaves what it has read true of the committed tables and its writes those of its serial form |
| MembershipTx.StillKnows | web/lib/workspace-members.ts:47-72 | What a transaction has read under its locks survives whatever others commit without them |
| MembershipTx.CommitIsSerial | web/lib/workspace-members.ts:109-220 | A commit changes the tables by exactly what the transaction would do alone at that moment |
| MembershipTx.CommitFootprint | web/lib/workspace-members.ts:47-53 | A commit writes only its own workspace's rows, its own account's membership and its own new id |
| MembershipTx.StepRefines | web/lib/workspace-members.ts:47-220 | One step of any interleaving keeps the invariant and changes the tables only by a serial transaction or a sign-up |
| MembershipTx.EveryRunIsSerial | web/lib/workspace-members.ts:47-220 | Every statement-level interleaving ends on the tables its committed transactions give one after another in commit order |
| MembershipTx.EveryRunKeeps | web/lib/workspace-members.ts:109-220 | Over every run a workspace with an owner keeps one and an account with a workspace keeps one, even when removed from two at once |
| MembershipTx.HoldersWaitLess | web/lib/workspace-members.ts:69-71 | Whoever holds a workspace lock waits for nothing, and whoever holds an account lock at most for a workspace |
| MembershipTx.WaitChainsAreShort | web/lib/workspace-members.ts:69-71 | The account-before-workspace order leaves no cycle of waiters in any reachable state |
| MembershipTx.SomeoneCanRun | web/lib/workspace-members.ts:69-71 | In every reachable state with a transaction under way, some transaction can take its next step |
| MembershipAnswers.ARefusalIsSerial | web/lib/workspace-members.ts:47-220 | The statement that rolls a transaction back gives the error the transaction would get alone on the tables of that moment |
| MembershipAnswers.EveryAnswerIsSerial | web/lib/workspace-members.ts:47-220 | In every run a transaction ends exactly when it commits or is refused, and answers either way what it would alone |
| MembershipAnswers.EveryStepGoesOn | web/lib/workspace-members.ts:47-220 | Every step brings a transaction further on, so it ends after at most eighteen |
| MembershipAnswers.TheFastRefusalIsSerial | web/lib/workspace-members.ts:124-158 | What is refused before a transaction opens would be refused in it on any tables |
| MemberStore.Store.ChangeRole | web/lib/workspace-members.ts:109-119 | The statements compute the serial transaction, errors in the source's order included |
| MemberStore.Store.RemoveMember | web/lib/workspace-members.ts:123-137 | The statements compute the serial removal and revoke exactly the offboarded sessions |
| MemberStore.Store.Leave | web/lib/workspace-members.ts:140-153 | The statements compute the serial leave and unpoint the account's sessions |
| MemberStore.Store.CreateInvitation | web/lib/workspace-members.ts:157-174 | The statements compute the serial invitation, with rollback when too many are pending |
| MemberStore.Store.RevokeInvitation | web/lib/workspace-members.ts:184-193 | The statements compute the serial revocation |
| MemberStore.Store.AcceptInvitation | web/lib/workspace-members.ts:200-220 | The statements compute the serial acceptance, rolled back for the wrong or an unverified account |
| MemberStore.Store.RevokeWorkspaceSessions | web/lib/sessions.ts:77-87 | The revoked sessions are exactly the member's live ones that resolve to the workspace |
| MemberStore.Store.ResolveMembership | web/lib/workspaces.ts:84-99 | Where a session acts, and that the personal workspace is made only for an account with no row and no workspace row |
| MemberStore.OffboardingMatchesResolution | web/lib/workspace-members.ts:123-137 | Removal ends exactly the sessions that act in the workspace; every surviving session acts where it did, and none is left to make a workspace |
| MemberStore.LeavingKeepsSessionsWorking | web/lib/workspace-members.ts:140-153 | After leaving, every session that acted somewhere still does, elsewhere, without making a workspace |
| SessionLaws.WhereASessionActs | web/lib/workspaces.ts:84-99 | A session acts where it chose while its account is a member, else nowhere; with no choice in its own workspace, else in the membership with the least time and workspace id; and makes one exactly when it has no membership and no workspace row |
| SessionLaws.ARemovalEnds | web/lib/sessions.ts:77-87 | A removal revokes, now and by the remover, exactly the member's unrevoked, unexpired sessions that act in the workspace |
| SessionLaws.LeavingUnpoints | web/lib/workspace-members.ts:140-153 | Leaving clears exactly the account's choices of that workspace |
| OffboardTx.WhoActsHasTheirOwn | web/lib/workspaces.ts:84-99 | Whoever a request is resolved for has their own workspace row, found or made |
| OffboardTx.EveryMemberHasTheirOwn | web/lib/workspaces.ts:64-75 | In every run whose invitations are accepted by signed-in accounts, every member anywhere has their own workspace row |
| OffboardTx.TheLockKeepsMemberships | web/lib/workspace-members.ts:69-71 | Whatever runs between two statements of a removal past its checks, the member's memberships stay the same and as old |
| OffboardTx.ARemovalEndsExactlyTheSessionsThere | web/lib/sessions.ts:77-87 | In every such run, whatever runs between a removal's two reads of the default and its update, it ends exactly the sessions that act in its workspace when it updates them |
| RecoverySpec.StepKeeps | ops/staging/recovery_point.py:283-353 | Every file-system call of the restore keeps the crash-safety invariant |
| RecoverySpec.CrashKeeps | ops/staging/recovery_point.py:283-353 | A crash at any call, losing any subset of what this attempt or a killed one before it left un-fsynced, keeps it too |
| RecoverySpec.NoCrashLeavesAHalfRestore | ops/staging/recovery_point.py:283-353 | After any crash in any history of attempts, killed or cut off anywhere, the restored copy is whole and never beside a live sidecar, the state file is missing only over an untouched or a finished restore, and other files are as they were unless the sweep's filter matches their names |
| RecoverySpec.ReturnIsComplete | ops/staging/recovery_point.py:340-353 | An attempt that returns has durably left the recorded copy or absence, no sidecar and no leftover of any attempt, and of the other files exactly those the filter does not match |
| RecoverySpec.ASiblingIsSwept | ops/staging/recovery_point.py:345 | The filter matches every sidecar set aside by a database whose name goes on from this one's |
| RecoverySpec.WhatWasSetAsideSurvives | ops/staging/recovery_point.py:293-298 | Once phase 2 is synced, a sidecar set aside survives every crash, every death of the process and any further attempts until it is swept |
| RecoverySpec.SweepsOnlyOnceInstalled | ops/staging/recovery_point.py:340-349 | Files are swept only once the copy or absence is installed in every state a crash could leave |
| RecoveryLaws.PhaseTwoSetsAside | ops/staging/recovery_point.py:293-298 | From its first move to its fsync phase 2 leaves every sidecar, with its own file, under its quarantine name, durably, and every other file as it was |
| RecoveryLaws.ASidecarIsThereUntilTheSweep | ops/staging/recovery_point.py:283-353 | Through any attempts, killed anywhere and crashed anywhere but while it moves, a sidecar's file is in the directory, under its own name or set aside, until a sweep |
| RecoveryLaws.ACrashCanLoseASidecarExactly | ops/staging/recovery_point.py:293-298 | A crash can lose a sidecar's file if and only if its move is made and not yet synced |
| RecoveryLaws.WhatPhaseTwoMovesSurvives | ops/staging/recovery_point.py:293-298 | Every sidecar an attempt finds is, once its phase 2 is synced, under that name in every state any crash leaves, until a sweep |
| RecoveryLaws.ARestoreKeepsItsToken | ops/staging/recovery_point.py:287-291 | Once its state file is durable a restore goes on under one token, whatever interrupts it, until it drops that file |
| RecoveryLaws.TheFilterExactly | ops/staging/recovery_point.py:344-345 | The sweep's filter: the dotted name of this database first, and the mark of a quarantine or of this database's copy anywhere |
| RecoveryLaws.WhatARestoreLeaves | ops/staging/recovery_point.py:283-353 | At a return the directory is the recorded copy or none, the other files whose names the filter does not match as they were at the start, and nothing else |
| RecoveryStore.Disk.WriteState | ops/staging/recovery_point.py:256-268 | The state file appears by linked calls of the machine, ending durable |
| RecoveryStore.Disk.MoveSidecarsAside | ops/staging/recovery_point.py:293-298 | The calls of phase 2; afterwards, durably, each sidecar that was there is under its quarantine name with its own file, and nothing else changed |
| RecoveryStore.Disk.Install | ops/staging/recovery_point.py:299-339 | The copy or the absence is installed by linked calls of the machine |
| RecoveryStore.Disk.ClearUp | ops/staging/recovery_point.py:340-350 | Sidecars, quarantined files and stale temporaries go by linked calls of the machine |
| RecoveryStore.Disk.Restore | ops/staging/recovery_point.py:283-353 | One uninterrupted attempt, on whatever crashed or killed ones left durable or not, finishes the restore completely |
| StripeSpec.TenantOfCustomer | web/lib/billing/stripe.ts:62-67 | The tenant of a customer is one that has it, and none only when no tenant has |
| StripeLaws.TheTenant | web/lib/billing/stripe.ts:62-67 | An event is for the tenant it names, else for the one its customer is linked to; it conflicts when another tenant has its customer |
| StripeLaws.AFailedPaymentKeepsThePlan | web/lib/billing/stripe.ts:234-250 | A failed payment changes no plan, customer, subscription or hold and ends nothing; it says past_due, and moves the clock, on exactly the row that is Pro on the named subscription, not ended, with nothing later known |
| StripeLaws.OtherEventsChangeNothing | web/lib/billing/stripe.ts:173-177 | A refund, or an event of another kind, changes nothing but the processed ids |
| StripeLaws.ASubscriptionEventSetsThePlan | web/lib/billing/stripe.ts:130-215 | Of an event that reaches its tenant: which of the five answers it gets, by status, subscription, second and Stripe's answer, and the whole row, the ended set and the processed ids after it, by what each of Stripe's statuses means |
| StripeLaws.TheRestChangeNothing | web/lib/billing/stripe.ts:161-178 | An event that reaches no tenant, or says no status the policy knows, changes no row |
| StripeLaws.TiesAreSettledByStripe | web/lib/billing/stripe.ts:149-159 | Stripe is asked exactly for ties of subscriptions not ended, and with nothing in between its answer settles them |
| StripeSpec.DeliveryReflects | web/lib/billing/stripe.ts:142-209 | One delivery moves the tables from what a set of events means to what that set with this event means; a repeat changes nothing |
| StripeSpec.PlanIsMeaning | web/lib/billing/stripe.ts:79-109 | Any deliveries of a subscription's events, in any order and repetition, leave the plan of the set: free if any ended it, else the latest-created event's |
| StripeSpec.MeaningIsUnique | web/lib/billing/stripe.ts:122-140 | A set of events in distinct seconds means one plan |
| StripeSpec.OrderDoesNotMatter | web/lib/billing/stripe.ts:124-140 | Two deliveries of the same events end on the same plan |
| StripeCustomers.PlanIsMeaningOfKept | web/lib/billing/stripe.ts:62-76 | Deliveries of events that name the tenant or only its customer, in any order and repetition, leave the plan that the events not lost mean |
| StripeCustomers.KeptExactly | web/lib/billing/stripe.ts:162-172 | An event is not lost if and only if it names its tenant, or its first delivery follows one of an event that names the tenant and changes its plan |
| StripeCustomers.NothingIsLostExactly | web/lib/billing/stripe.ts:162-172 | Nothing is lost if and only if every delivery of an event that carries only the customer follows such a one |
| StripeCustomers.OrderDoesNotMatterExactly | web/lib/billing/stripe.ts:124-172 | All orders and repetitions of a customer's events end on one plan if and only if no event that names the tenant changes its plan, or no single one that carries only the customer, added to those that name it, changes what they mean |
| StripeCustomers.ACustomerEventCanBeLost | web/lib/billing/stripe.ts:62-76 | Two events whose order decides the plan |
| StripeRuns.ProcessedGrows | web/lib/billing/stripe.ts:162-196 | A delivery marks its own event processed, and only that, unless it is held |
| StripeRuns.ProcessedIsFinal | web/lib/billing/stripe.ts:162 | Over any run, once an id is processed every later delivery of it changes nothing |
| StripeRuns.CustomersStayApart | web/lib/billing/stripe.ts:165-172 | No delivery gives two tenants one customer |
| StripeRuns.NewBindingIsUnshared | web/lib/billing/stripe.ts:165-172 | A tenant is linked to a customer only when no other tenant has it |
| StripeRuns.ClockMovesForward | web/lib/billing/stripe.ts:202-206 | No delivery moves a tenant's event clock back |
| StripeRuns.RunEvolves | web/lib/billing/stripe.ts:142-250 | Between any two states of a run: ids stay processed, ended subscriptions ended, customers apart and clocks forward |
| StripeRuns.HeldIsFreeAndRetried | web/lib/billing/stripe.ts:189-197 | A held tie leaves the tenant free, its second held and the event unprocessed |
| StripeRuns.OnlyStripeLiftsAHold | web/lib/billing/stripe.ts:98-109 | A held tenant becomes Pro only by an entitling answer, a later event or another subscription's |
| StripeRuns.ProNeedsALiveSubscription | web/lib/billing/stripe.ts:182-205 | A delivery keeps every Pro tenant off ended subscriptions if and only if it is not the one shape that revives one |
| StripeRuns.AnAtomicCallNeverRevives | web/lib/billing/stripe.ts:146-159 | With nothing between the check and the transaction no call has that shape |
| StripeRuns.RunsNeedLiveSubscriptions | web/lib/billing/stripe.ts:142-216 | A whole run never has Pro on an ended subscription if and only if no delivery of it has that shape |
| StripeRuns.ARaceRevivesAnEndedSubscription | web/lib/billing/stripe.ts:146-208 | A run of four deliveries, each allowed by the code, ends Pro on an ended subscription |
| StripeStore.Billing.PreCheck | web/lib/billing/stripe.ts:146-159 | The read-only check asks Stripe exactly for a tie on a subscription not ended |
| StripeStore.Billing.FailedPayment | web/lib/billing/stripe.ts:239-250 | The statements compute the payment-failed rule |
| StripeStore.Billing.ApplyRules | web/lib/billing/stripe.ts:177-208 | The statements compute the ordered rules on the tenant's row |
| StripeStore.Billing.ApplyStripeEvent | web/lib/billing/stripe.ts:142-216 | The whole call computes the specified delivery |
| TrialLedger.Ledger | web/lib/billing/trial-budget.ts:159-168 | The loop computes the tally of the rows |
| TrialLedger.QueryMatchesRule | web/lib/billing/trial-budget.ts:131-153 | Under three-valued logic the query selects a row exactly when it is the account's or counts today, whatever in it is null |
| TrialLedger.QueryLosesNothing | web/lib/billing/trial-budget.ts:131-168 | The ledger over the query's rows equals the ledger over the whole table |
| TrialLedger.TallyRecedes | web/lib/billing/trial-budget.ts:146-168 | If every row counts for no more than before, so does every sum |
| TrialLaws.TheLedgerIsWhatWasSpent | web/lib/billing/trial-budget.ts:145-168 | The ledger's sums are the job's spend of each scan that finished and settled its attempt, the cost of each settled read and the reserve of the rest; for the account, for the day, and the scans not given back |
| TrialBudget.DaysPass | web/lib/billing/trial-budget.ts:152-153 | What counts on a later day counted before |
| TrialBudget.RepricingKeeps | web/lib/billing/trial-budget.ts:233-263 | Settling, linking, the scan runner and the clock never raise an account's or the day's sum |
| TrialBudget.ReleaseKeeps | web/lib/billing/trial-budget.ts:269-276 | Releasing a reservation never raises a sum |
| TrialBudget.AdmissionKeeps | web/lib/billing/trial-budget.ts:174-227 | An admission keeps every account within its total and its three attempts, and a company's trial with one account |
| TrialBudget.AccountsStayWithinCeilings | web/lib/billing/trial-budget.ts:131-227 | At every moment of every run each account is within its total and attempts, one account a company |
| TrialBudget.DaysStayWithinCeiling | web/lib/billing/trial-budget.ts:131-227 | At every moment of every run, across midnight, what counts today is within the day's ceiling, if admissions commit on the day they read or are site reads whose grace ended before it |
| TrialLaws.NoAccountSpendsMore | web/lib/billing/trial-budget.ts:190-192 | In every state of every run that money, for each account, is within its total, and its scans at most three |
| TrialLaws.NoDaySpendsMore | web/lib/billing/trial-budget.ts:193 | And what of it counts today is within the day's cap, if every admission was timely |
| TrialLaws.AdmissionExactly | web/lib/billing/trial-budget.ts:174-226 | Who is admitted, and the reason of every refusal, by the reservations, the jobs and the settings |
| TrialLaws.AdmittingReserves | web/lib/billing/trial-budget.ts:196-226 | An admission inserts one reservation of its price on the day it read; a refusal nothing |
| TrialLaws.SettlingARead | web/lib/billing/trial-budget.ts:233-237 | A read is settled once, at its cost or at its whole reserve |
| TrialLaws.SettlingAndLinkingAScan | web/lib/billing/trial-budget.ts:254-263 | A scan is settled by its job with the attempt, and linked once |
| TrialLaws.ReleasingTakesOne | web/lib/billing/trial-budget.ts:265-276 | A release takes away exactly the unsettled reservation with no job, or with the one never made |
| TrialMidnight.ALateAdmissionOverrunsTheDay | web/lib/billing/trial-budget.ts:199-208 | A run of two admissions, one waiting past midnight, that overruns the day |
| TrialMidnight.ALateAdmissionOverruns | web/lib/billing/trial-budget.ts:196-227 | For every deployment and every other delay, a run that is timely up to one such admission and overruns the day with it |
| TrialMidnight.LateAdmissionsExactly | web/lib/billing/trial-budget.ts:196-227 | An admission keeps the day's ceiling in every run of a deployment if and only if its kind, the time it read and the time it commits are timely |
| TrialStore.Budget.Refusal | web/lib/billing/trial-budget.ts:174-194 | The checks give the specified refusal, in order |
| TrialStore.Budget.AdmitTrial | web/lib/billing/trial-budget.ts:196-227 | An admission of either kind is the machine's step |
| TrialStore.Budget.SettleTrialSiteRead | web/lib/billing/trial-budget.ts:233-237 | Settling a read is the machine's step |
| TrialStore.Budget.SettleTrialReservation | web/lib/billing/trial-budget.ts:254-257 | Settling a scan is the machine's step |
| TrialStore.Budget.LinkTrialReservation | web/lib/billing/trial-budget.ts:261-263 | Linking is the machine's step |
| TrialStore.Budget.ReleaseTrialReservation | web/lib/billing/trial-budget.ts:269-276 | Releasing is the machine's step, and reports whether a row went |
| Envelope.RoundTrip | web/lib/secrets.ts:36-43 | A secret is read back under its master key in its own row and nowhere else |
| Envelope.RewrapKeepsTheSecret | web/lib/secrets.ts:51-68 | Rewrapping succeeds exactly when a key opens the wrap; the result opens under the new key with the same body and secret |
| Envelope.SameSecretReadsTheSame | web/lib/secrets.ts:85-95 | Blobs with the same body and data key decrypt alike under the two keys |
| KeyRotation.ChangedRowsAreLeftAlone | web/lib/secrets-rewrap.ts:81-89 | The writes all go through exactly when no row changed since preflight, and a changed row is never overwritten |
| KeyRotation.RotationIsInvisible | web/lib/secrets-rewrap.ts:8-15 | At every moment of any history of runs in both directions, stopped anywhere, with other writers, each row holds what its last other writer left: same body, same secret |
| KeyRotation.AReRunFinishes | web/lib/secrets-rewrap.ts:13-15 | From any partial state a run passes preflight exactly when it would have at the start, and finishes every row under the new key |
| KeyRotation.ASwappedRunRollsBack | web/lib/secrets-rewrap.ts:13-15 | From any partial state a key-swapped run returns every row to the old key with its body and secret |
| KeyRotation.BadRowsAreTheQuarantined | web/lib/secrets-rewrap.ts:95-105 | After a completed recovery-mode run the audit's bad count is the quarantined count and its ok count the rest |
| RotationLaws.EachRowAfterARun | web/lib/secrets-rewrap.ts:52-86 | After a completed run a row of the three columns under the old key alone is sealed anew under the new one, data key and body as they were; every other row is untouched |
| RotationLaws.ARunCompletesTheThreeColumns | web/lib/secrets-rewrap.ts:37-41 | From any interrupted state a run leaves every row of the three columns that either key opened under the new key, holding the secret it held at the start |
| RotationLaws.PreflightExactly | web/lib/secrets-rewrap.ts:57-80 | A run goes ahead by default exactly when one of the two keys opens every row of the three columns |
| RotationLaws.TheCountsExactly | web/lib/secrets-rewrap.ts:59-75 | Rewrapped counts the rows under the old key alone, skipped those under the new key, corrupt those under neither |
| RotationLaws.TheAuditExactly | web/lib/secrets-rewrap.ts:105-118 | The audit counts the rows of a column, those the key opens, and the rest |
| RotationLaws.TheAuditAfterARun | web/lib/secrets-rewrap.ts:92-97 | After a completed run the audit's bad rows are exactly those neither key opened before it |
| RotationLaws.TheRefusalCounts | web/lib/secrets-rewrap.ts:76-80 | A refused run names as many rows as neither key opens in the three columns |
| RotationLaws.APlanWritesItsRows | web/lib/secrets-rewrap.ts:83-91 | A plan none of whose rows has changed leaves each of them on its planned blob |
| RotationLaws.AWriteExactly | web/lib/secrets-rewrap.ts:83-91 | A write of a history takes effect exactly over the blob it read |
| RotationLaws.ARunIsAHistory | web/lib/secrets-rewrap.ts:83-91 | What a run writes, cut off anywhere, is a history of such writes |
| RotationStore.PlanRotates | web/lib/secrets-rewrap.ts:57-89 | Writing a whole plan over the table it was made from leaves the rotated table |
| RotationStore.Vault.CheckColumn | web/lib/secrets-rewrap.ts:58-75 | One column's loop counts each row once and plans exactly the rows that need a write |
| RotationStore.Vault.Preflight | web/lib/secrets-rewrap.ts:57-75 | Preflight reports every column and fails exactly when a row is unreadable, unless quarantined |
| RotationStore.Vault.WritePlan | web/lib/secrets-rewrap.ts:82-89 | The writing loop computes the specified writes |
| RotationStore.Vault.RewrapMasterKey | web/lib/secrets-rewrap.ts:52-91 | A run writes nothing for identical keys, a dry run or (by default) any bad row, and otherwise leaves the rotated table |
| RotationStore.Vault.VerifyMasterKey | web/lib/secrets-rewrap.ts:106-118 | The audit counts each registered column and changes nothing |
| RateLimitSpec.OnlyAnUnseenWindowMisaligns | web/lib/rate-limit.ts:97-110 | A call keeps the shadow aligned with the store's window if and only if it is not a lost reply opening a window under an older open shadow |
| RateLimitSpec.CallsCountUp | web/lib/rate-limit.ts:61-67 | In an aligned state each call of a shadow is decided on a count above all before it |
| RateLimitSpec.AShadowAllowsTheLimit | web/lib/rate-limit.ts:61-113 | Whatever the outages and lost replies, a shadow window allows at most the limit, without such a call |
| RateLimitBound.AShadowAllowsAtMost | web/lib/rate-limit.ts:61-113 | In every run, whatever the outages and lost replies and from any store and process, a shadow window allows at most 2 * limit - 2 calls, or the limit if that is at most 2 |
| RateLimitBound.TheMostIsAllowed | web/lib/rate-limit.ts:77-113 | For every limit from 2 on and every window, a run from an empty store in which a shadow window allows that many |
| RateLimitBound.TheLimitHoldsExactly | web/lib/rate-limit.ts:61-113 | A local key's limit holds in every shadow window of every run if and only if it is at most 2 or its window at most a millisecond |
| RateLimitBound.AShadowOfOneWindow | web/lib/rate-limit.ts:97-113 | A shadow under which the store opens no further window once it was told a count allows at most the limit |
| RateLimitSpec.WithNoOutageItIsAPlainCounter | web/lib/rate-limit.ts:64-65 | When the store always answers, so does the limiter as a plain fixed-window counter would |
| RateLimitShared.EveryWindowHoldsTheLimit | web/lib/rate-limit.ts:77-130 | For a closed key, with any number of processes, calls allowed in a store window less its refunds never exceed the limit |
| RateLimitShared.OnlyItsRefundsReopenAWindow | web/lib/rate-limit.ts:116-130 | Over any run a window allows its limit, and one call more at most for each refund that names it or names none |
| RateLimitLaws.TheStoreCounts | web/lib/rate-limit.ts:82-91 | The store counts a call it answers or whose reply is lost, in the open window or a new one |
| RateLimitLaws.AnAnsweredCall | web/lib/rate-limit.ts:105-115 | An answered call is allowed exactly while the store's count and the process's own calls fit the limit; a refused one says when to retry |
| RateLimitLaws.AnUnansweredCall | web/lib/rate-limit.ts:92-104 | Unanswered, a closed key refuses for half a minute, any other allows exactly while what its process knows fits the limit |
| RateLimitLaws.ARefundGivesOneBack | web/lib/rate-limit.ts:118-130 | A refund goes through exactly in the open window it names, with a call to give back, and takes exactly one |
| RateLimitLaws.TheWindowGrantsItsRoom | web/lib/rate-limit.ts:105-115 | Of any calls in a closed key's open window exactly as many are allowed as the limit has room |
| RateLimitLaws.ARefundAllowsOneMore | web/lib/rate-limit.ts:118-130 | A refund that goes through before the limit is passed lets exactly one more of them through |
| RateLimitStore.Limiter.OpenBucketOf | web/lib/rate-limit.ts:69-73 | Sweeping closed buckets loses no open one |
| RateLimitStore.TheLongestKindDecides | web/lib/rate-limit.ts:46-50 | A key's policy is that of the longest listed kind it begins with, whatever the order of the list, and closed when there is none |
| RateLimitStore.DegradedPolicy | web/lib/rate-limit.ts:46-50 | The loop computes that policy |
| RateLimitStore.Limiter.RateLimit | web/lib/rate-limit.ts:77-114 | The policy, the upsert, the shadow and the answer of the key cut to 300 characters are the specified call, and no other key's open row or bucket changes |
| RateLimitStore.Limiter.RefundRateLimit | web/lib/rate-limit.ts:122-130 | The update is the specified refund |
| Canonical.CanonicalizeItems | web/lib/benchmark/runner.ts:120-130 | The loop computes the canonical rows |
| Canonical.CanonicalRows | web/lib/benchmark/runner.ts:118-130 | Ranks count up from 1, no entity appears twice, and the entities are exactly those returned |
| Canonical.RowsKeepTheirOrder | web/lib/benchmark/runner.ts:118-130 | Each row is the first item of its entity, and rows keep the items' order |
| BatchSpec.OrderIsFair | web/lib/benchmark/runner.ts:185-188 | Every task gives each runnable system exactly one turn |
| BatchSpec.ChargedTheSame | web/lib/benchmark/runner.ts:192-210 | A record is charged on resuming what its call was charged, exactly when it is not an unsupported stop with no cost |
| BatchLaws.TurnsGoRound | web/lib/benchmark/runner.ts:186-187 | A task's i-th turn is the runnable system at seed + task + i, counted round in name order |
| BatchLaws.EachTaskRotatesByOne | web/lib/benchmark/runner.ts:186-187 | The first task starts at the seed, and each task's order is the one before it with its first system last |
| BatchLaws.EachGoesFirstOnce | web/lib/benchmark/runner.ts:186-187 | Over as many tasks as there are runnable systems each goes first exactly once |
| BatchLaws.WhatARecordSays | web/lib/benchmark/runner.ts:205-216 | When a record is complete, incomplete, unsupported or failed, by what the call reported, and what it keeps |
| BatchLaws.ATaskBegins | web/lib/benchmark/runner.ts:189-195 | A task begins with what it found, reserved again, and each system that cannot run written off |
| BatchLaws.ATurn | web/lib/benchmark/runner.ts:196-216 | What a turn does: not run exactly when the spend and the limit pass the total, else a call at its price |
| BatchLaws.ATaskEnds | web/lib/benchmark/runner.ts:185-217 | The next task goes on from the last turn |
| BatchLaws.ABatchSpendsWhatItCalls | web/lib/benchmark/runner.ts:205-212 | A batch with nothing recorded spends exactly what its calls cost |
| BatchLaws.TheCallsStayWithinTheTotal | web/lib/benchmark/runner.ts:13-15 | If no adapter reports more than the task's limit its calls cost no more than its total |
| BatchLaws.WhatAStopCutsOff | web/lib/benchmark/runner.ts:205-212 | A stop cuts off a call exactly when it comes inside one |
| BatchBudget.RunKeepsOneEach | web/lib/benchmark/runner.ts:189-198 | A run makes no call that has its record, and none twice, whatever the store and the calls before it |
| BatchBudget.EveryCallHasRoom | web/lib/benchmark/runner.ts:203-205 | Every adapter call starts with spend plus the task limit within the total |
| BatchBudget.ARefusalIsFinal | web/lib/benchmark/runner.ts:203 | Once the budget refuses a task no adapter runs again |
| BatchBudget.TheTotalHolds | web/lib/benchmark/runner.ts:13-15 | If no call costs more than its task's limit a batch from an empty store never spends more than its total |
| BatchResume.TaskResumes | web/lib/benchmark/runner.ts:185-217 | A task stopped anywhere and run again ends as if it had not stopped, if nothing it recorded is forgotten |
| BatchResume.TheCutCallIsNext | web/lib/benchmark/runner.ts:205-216 | The first call of the run after a stop inside a call is that call |
| BatchResume.ResumingIsExact | web/lib/benchmark/runner.ts:180-217 | Stopped anywhere, a batch run again reaches the store and spend of one that never stopped, with the same calls but for one cut off, made and paid twice, if and only if no call it had recorded by then is an unsupported stop with no cost |
| BatchResume.EveryStopResumesExactly | web/lib/benchmark/runner.ts:180-217 | Every stop of a run does so if and only if the unstopped run makes no call of that kind |
| BatchStops.HoweverOftenItStops | web/lib/benchmark/runner.ts:180-217 | Stopped any number of times: the same store and spend, one extra call for each call cut off, and nothing more to pay than those cost |
| BatchStops.CalledOnceExactly | web/lib/benchmark/runner.ts:8-9 | Over all its runs a batch calls each system at most once for each task if and only if no stop cut a call off |
| BatchStops.TheTotalHoldsHoweverItStops | web/lib/benchmark/runner.ts:13-15 | If no call costs more than its task's limit the spend counted stays within the total however it stops, and all that is paid beyond it is for calls cut off |
| BatchStops.ACutCallIsMadeAgain | web/lib/benchmark/runner.ts:205-212 | A batch stopped inside its one call makes it twice, counts its total and pays twice that |
| BatchStops.AForgottenStopCallsMore | web/lib/benchmark/runner.ts:192-212 | A batch where a stopped run calls more than an unstopped one |
| BatchRunner.Runner.CollectTask | web/lib/benchmark/runner.ts:189-195 | The first loop computes the specified state |
| BatchRunner.Runner.TakeTurn | web/lib/benchmark/runner.ts:196-216 | One adapter's turn computes the specified state, every stop and limit included |
| BatchRunner.Runner.RunBatch | web/lib/benchmark/runner.ts:182-217 | The nested loops compute the specified batch |
| BlindScoring.Shuffle | web/lib/benchmark/runner.ts:237 | The shuffle rearranges the pool |
| BlindScoring.EachItemGetsItsVerdict | web/lib/benchmark/runner.ts:240-245 | Every pooled item gets back the verdicts on its own blind id wherever the shuffle put it, what is no verdict or not judged as unknown |
| BlindScoring.NothingPassesUnjudged | web/lib/benchmark/runner.ts:241-243 | On each field an item has what the evaluator said of its blind id, and unknown where it said nothing |
| BatchRuns.EverySystemIsRecorded | web/lib/benchmark/runner.ts:189-216 | A batch leaves a record of every system for every task: the one it found, what the adapter gave if it called, or why it did not |
| BatchRuns.WrittenRowsPass | web/lib/benchmark/runner.ts:120-130 | The rows the runner writes pass the check of ranks, entities and verdicts |
| BatchRuns.EachRowCarriesItsVerdicts | web/lib/benchmark/runner.ts:254 | A row of an assembled run has its own item's rank, entity and verdicts, or unknown of every field |
| BatchRuns.AssembledRunsPass | web/lib/benchmark/runner.ts:249-255 | An assembled run passes the scorecard's whole check if and only if its names and task set do and neither the store at the start nor a call of this run kept items on a stop reported as unsupported |
| BatchRuns.AWalledRunFails | web/lib/benchmark/runner.ts:212-255 | A batch whose run the scorecard refuses, though its labels and verdicts are in order |
| Scorecard.CheckRanks | web/lib/benchmark/scorecard.ts:159-175 | The loops report how many ranks are invalid, exactly those that repeat, and in order exactly those missing up to the highest, looking no further than n |
| Scorecard.PassingRanksAreAPermutation | web/lib/benchmark/scorecard.ts:159-175 | Ranks pass the bounded check exactly when they are a permutation of 1..n, however large a rank may be |
| MonitorSpec.BackfillDays | web/lib/monitor-events.ts:113-117 | A backfilled window is never shorter than the play's own |
| MonitorSpec.Latest | web/lib/monitor-events.ts:127-129 | The latest of a monitor's checks is one of them and none is later |
| MonitorRuns.FoldingKeeps | web/lib/monitor-events.ts:141-144 | What is recorded of an event is never taken back |
| MonitorRuns.NothingIsNewTwice | web/lib/monitor-events.ts:95-159 | Over all runs of all monitors each event is new at most once and then now-reachable at most once, and each company new at most once |
| MonitorRuns.PoliciesDoNotInterfere | web/lib/monitor-events.ts:59-64 | Any policies leave the events and cursors 'all' would, and alert on a subset of what it would |
| MonitorRuns.RefoldingIsNoWider | web/lib/monitor-events.ts:126-131 | Folding a run again at the same time looks no further back |
| MonitorRuns.ARefoldAlertsNothing | web/lib/monitor-events.ts:123-159 | A run folded twice at the same time decides no transition the second time |
| MonitorRuns.BackfillMissesNothing | web/lib/monitor-events.ts:107-117 | However late a run is, up to the bound, it sees every event dated since its source was last checked |
| MonitorLaws.EveryLeadIsDecidedByWhatWasTold | web/lib/monitor-events.ts:93-106 | Over all runs of all monitors each lead is new company, new signal, now reachable or suppressed, and alerts under its policy, exactly by what the tenant was told before it |
| MonitorLaws.WhatWasToldIsRemembered | web/lib/monitor-events.ts:133-144 | The events record exactly what was told, and told reachable |
| MonitorLaws.TheWindowExactly | web/lib/monitor-events.ts:107-131 | A window is the play's own, or the fewest days that reach the last look, at most ninety or its own |
| MonitorLaws.WhatALeadRecords | web/lib/monitor-events.ts:132-158 | The event row and the cursor a lead in the window leaves; any other lead leaves nothing |
| MonitorLaws.TheAlertsExactly | web/lib/monitor-events.ts:145-153 | A run's alerts are its alerting transitions in order, each with its own event, kind and latency |
| MonitorLaws.TheCountsExactly | web/lib/monitor-events.ts:125-146 | Each suppression is counted under its own reason |
| MonitorStore.Tenant.LatestCheck | web/lib/monitor-events.ts:127-129 | The loop finds the latest check |
| MonitorStore.Tenant.FoldOne | web/lib/monitor-events.ts:130-157 | One lead's statements compute the specified fold and write its alert |
| MonitorStore.Tenant.FoldRunEvents | web/lib/monitor-events.ts:123-159 | The run computes the specified fold with its alerts and counts, and alerts plus counted suppressions are its leads |
| MonitorSchedule.RunsAreSpaced | web/lib/monitors.ts:110-134 | Under any interleaving of ticks each run starts a slot of its own, an interval after the run before, and is folded at most once |
| MonitorSchedule.AtMostOnePerInterval | web/lib/monitors.ts:104-109 | Any span holds at most span / interval + 1 of a monitor's runs, whatever the lateness |
| MonitorSchedule.SlotsDiffer | web/lib/monitors.ts:108-128 | No due slot has two runs |
| MonitorSchedule.ADueRunStarts | web/lib/monitors.ts:114-134 | A tick's run, or pause, takes effect exactly while the monitor is enabled and due in the slot it read; it is then due an interval after the tick |
| MonitorSchedule.ARunIsFoldedOnce | web/lib/monitors.ts:150-154 | A run is folded the first time it is collected and never again |
| EmailTokenRuns.StatementKeeps | web/lib/email-ownership.ts:40-166 | Every statement of every token transaction keeps its writes sound against the committed account |
| EmailTokenRuns.EveryInterleavingKeeps | web/lib/email-ownership.ts:40-62 | At every moment of every interleaving each token has been consumed at most once and at most one of each purpose is unused |
| EmailTokenRuns.RecoveryCutsOffLinks | web/lib/email-ownership.ts:154-166 | After a recovery commits no link issued before it is ever consumed |
| EmailTokenRuns.RecoveryEndsSessions | web/lib/email-ownership.ts:154-166 | When a recovery commits a session works if and only if it did and the recovery has not revoked it; no password session does |
| EmailTokenRuns.WhoSurvivesARecovery | web/lib/email-ownership.ts:154-166 | In any history the sessions that go on working past a recovery's commit are exactly the live ones opened after its revoke statement; those there at the statement are dead ever after |
| EmailTokenRuns.AGoogleSessionOutlivesARecovery | web/lib/sessions.ts:63-67 | A run of eight steps in which a Google session outlives a recovery that ends the password session |
| EmailTokenRuns.RecoveryCutsOffSessions | web/lib/email-ownership.ts:154-166 | No password session live when a recovery committed ever works again |
| EmailTokenRuns.SignInNeedsTheCurrentSecret | web/lib/auth-db.ts:22-31 | A sign-in opens a session only if it verified the secret the account has |
| EmailTokenRuns.RecoveryCutsOffSignIns | web/lib/auth-db.ts:20-31 | A sign-in verified against the replaced secret opens no session once the recovery has committed |
| EmailLaws.OnlyItsLinkVerifiesAnAddress | web/lib/email-ownership.ts:97-112 | In every interleaving an address becomes the account's, or verified, only by a commit that opened a working link to that address, one sent before; and none becomes unverified |
| EmailLaws.OnlyAResetLinkReplacesThePassword | web/lib/email-ownership.ts:154-166 | And its password is replaced only by one that opened a working reset link to the account's address |
| EmailLaws.LinksAreSent | web/lib/email-ownership.ts:40-48 | Every link of the account was there at the start or was sent, with its purpose, address and expiry, by a transaction that committed |
| EmailLaws.SendingALink | web/lib/email-ownership.ts:40-48 | Alone: a new link, for a day or half an hour, and the earlier ones of its purpose used up |
| EmailLaws.AskingForAChange | web/lib/email-ownership.ts:117-127 | Alone: a working session gets a link to an address that is new and nobody's, and nothing else happens |
| EmailLaws.OpeningALink | web/lib/email-ownership.ts:97-112 | Alone: what a link does to the address, exactly when it works, and that it is used up |
| EmailLaws.OpeningAResetLink | web/lib/email-ownership.ts:154-166 | Alone: what a reset link does to the password, the address, the links and the sessions, exactly when it works |
| EmailLaws.SigningIn | web/lib/auth-db.ts:22-31 | Alone: a session is opened exactly for the secret the account has |
| EmailStore.Accounts.Issue | web/lib/email-ownership.ts:40-48 | A new link replaces the unused ones of its purpose |
| EmailStore.Accounts.ConsumeToken | web/lib/email-ownership.ts:51-62 | A link is used up exactly when it works for the purpose now |
| EmailStore.Accounts.SendVerification | web/lib/email-ownership.ts:75-85 | The statements are the specified transaction, for an unverified account |
| EmailStore.Accounts.RequestReset | web/lib/email-ownership.ts:138-146 | The statements are the specified transaction, for an account without Google |
| EmailStore.Accounts.RequestEmailChange | web/lib/email-ownership.ts:117-127 | The statements are the specified transaction |
| EmailStore.Accounts.VerifyEmail | web/lib/email-ownership.ts:97-112 | The statements are the specified transaction |
| EmailStore.Accounts.ResetPassword | web/lib/email-ownership.ts:154-166 | The statements are the specified transaction |
| EmailStore.Accounts.CreatePasswordSession | web/lib/auth-db.ts:22-31 | The statements are the specified transaction |
| AuditPaging.PagingIsLossless | web/lib/audit.ts:97-127 | Following the cursors to the end reads every event there was at the start exactly once, newest first, ties and later events included |
| AuditPaging.CursorsReadBack | web/lib/audit.ts:100-104 | A cursor's text is read back as its row exactly when the row's numbers fit the digit bounds |
| AuditPaging.JoinedPartsParse | web/lib/audit.ts:100-104 | Digits, digits and a rest joined by dots are a cursor exactly within the digit bounds and with an id of 24 hex characters |
| AuditPaging.OnlyJoinedPartsParse | web/lib/audit.ts:100-104 | Nothing else is a cursor |
| Contain.Descendants | ops/staging/contain.py:30-46 | The walk terminates and returns every proper descendant exactly once |
| Contain.Alive | ops/staging/contain.py:49-59 | The filter keeps exactly the processes that have not exited |
| Contain.ContainTree | ops/staging/contain.py:80-97 | The rounds, each listing the tree and then looking at it, report success only on a look that found nothing alive, and failure only after every look found something |
| Contain.AnEmptyCheckIsFinalExactly | ops/staging/contain.py:80-97 | A check that found nothing means nothing the command started ever runs again if and only if nothing born after its listing still ran when its look ended |
| Contain.NoForkNoneUnlisted | ops/staging/contain.py:80-97 | It is enough that no process of the tree forks between the two reads |
| Contain.AForkBetweenTheReadsEscapes | ops/staging/contain.py:86-94 | A process forks after the listing and exits before it is looked at: the check finds nothing, and the child runs on |
| Contain.CleanUp | ops/staging/contain.py:80-97 | The cleanup on the changing system: its success is final under exactly that condition |
| Contain.NothingEscapes | ops/staging/contain.py:6-9 | Under subreaper re-parenting the processes below this one are exactly those the command started and not yet reaped |
| Contain.OnlyTheUncaughtEscapes | ops/staging/contain.py:104-169 | The program ends by an exception if and only if a signal whose handler still raises lands outside every try, or the spawn, the cleanup's own calls or the report fail |
| Contain.NoSignalStopsTheCleanup | ops/staging/contain.py:104-118 | Once every handler is switched only a call that fails can end the program before the cleanup's result |
| Contain.ASignalInTheExceptClauseEscapes | ops/staging/contain.py:109-117 | A run where a third signal lands before the switching loop goes on: status 1, no cleanup, the command still running |
| Contain.ASpawnThatFailsEscapes | ops/staging/contain.py:139-142 | A command that cannot be made: status 1, and nothing started |
| Contain.ARefusedSignalEscapes | ops/staging/contain.py:72-77 | A process that may not be signalled ends the cleanup itself, with status 1 |
| Contain.ASignalBetweenTheTriesEscapes | ops/staging/contain.py:153-169 | A run that ends with status 1 and no cleanup |
| Contain.AnyOtherStatusIsFinalExactly | ops/staging/contain.py:104-169 | Any exit status but 125 means nothing the command started runs then or ever after, if and only if everything was caught and nothing was born unlisted, or something was not and the tree happened to be empty, as it is when the command was never started |
| ContainLaws.TheStatusSaysWhatHappened | ops/staging/contain.py:130-169 | The exit status of any run: 1 for an exception, 125 for a tree not gone, else 128 and the first signal heard, else the command's own or 128 and the signal that killed it |
| ContainLaws.AnUndisturbedRunWaits | ops/staging/contain.py:139-169 | With no signal and no failing call a run that ends has started its command, reaped it and cleaned up |

## Left out

- Session rows are not part of the interleaved membership machine: MemberStore runs them one transaction at a time, and OffboardTx takes a removal's three session statements at any three moments of a run.
- Changing or deleting accounts during membership runs, and waits on the unique email index.
- RecoverySpec.WhatWasSetAsideSurvives: is about a phase 2 that is synced; RecoveryLaws.ACrashCanLoseASidecarExactly says what holds of a crash before that.
- Verification of the recovery point's manifest, ownership and mode bits, the checks that the file was not swapped, directories whose names look like leftovers, and two attempts at once.
- Stripe signatures, the HTTP reads, audit records of plan changes, and an empty string as a subscription id.
- StripeSpec.PlanIsMeaning: covers events that name their tenant; StripeCustomers.PlanIsMeaningOfKept covers those that carry only a customer, for one customer.
- The trial's Google check and company emails are inputs that stay as they are; the scan runner is any change that leaves settled scans settled.
- MonitorSpec.BackfillDays: covers windows of a positive number of days, as request texts and profiles give them (web/lib/scan/window.ts:19-29, web/lib/scan/icp.ts:160); zero would read as no window at all.
- Real cryptography, base64 and JSON spelling beyond one number that tells two spellings apart; zeroing key buffers.
- RotationStore.Vault.RewrapMasterKey: does not model another writer between its statements; KeyRotation.RotationIsInvisible and KeyRotation.ChangedRowsAreLeftAlone do.
- RateLimitSpec.AShadowAllowsTheLimit: covers no refunds, which only closed keys get, and a process that starts with no open window of its key; RateLimitBound.AShadowOfOneWindow lets it start with any.
- Blinding by text replacement, the batch report, task scoring and thresholds; of a run, the format, version and origin, which the runner writes as constants, and the aggregate it never writes.
- The refusals before a batch starts: budget presets, one origin, the frozen task set; whether a paid adapter is available is an input.
- Text normalisation behind entity and event keys, hosts and slugs; the detection report; queueing the scan a due monitor starts.
- EmailTokens models one account: other accounts' transactions write none of its rows, and whether another account has a new address is an input.
- The audit search's action and actor filters, redaction and purging.
- The containment program before its handlers raise, when nothing is started; signals other than the three it handles; which signals the cleanup sends, since any process may exit at any moment anyway; a process table that changes under one listing.
- Pages, copy and display helpers, platform fetchers, launch scripts and the bootstrap statistics: each claim is settled by reading one branch.
