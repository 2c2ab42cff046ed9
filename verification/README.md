# Kernel protocols and release gate: a Dafny model

This project models the parts of Gatemole that decide whether an effect may
happen and what the durable record says about it afterwards, and proves what
those parts promise. It has two halves.

**The agent kernel** (`internal/kernel`). A run and a transaction are
append-only event logs; every write compares the expected sequence and passes a
reducer.

- `ActionLog` is the run reducer, the grants and uses a log implies, the
  verdict on an action request, and the pending actions of a log.
- `BrokerProtocol` is the action broker as a protocol: executors and recoveries
  are threads whose reads, appends and driver calls interleave freely with each
  other, with appends of other event types and with crashes. No lock is
  assumed. An append may be durable and still be reported as an error. The
  invariant is kept by every move, and the main results hold in every state
  reachable by any sequence of moves.
- `Recovery` is what recovery leaves behind, and `Broker` is the broker's own
  code, step by step, as methods over a store that other threads use at the
  same time. On a store that is quiet, `Execute` and `Recover` have a complete
  functional specification; on one that is not, every outcome they report is
  still backed by the log and the driver.
- `EventChain` is the hash chain under every log; digests are functions given
  from outside and only their injectivity is used.
- `LockRegistry` is the reference-counted lock map, with every atomic section
  as a method that may be called in any order.
- `Ledger`, `Lifecycle`, `Lockstep`, `Authority`, `Validation`, `Separation` and
  `Release` are the transaction reducer, what every accepted history has been
  through, the batches of the prepare and release handlers, the preparation of
  authority, the batch of a platform verification, separation of duties over the
  whole history, and Git publication with crashes between any two durable steps.
- `FrozenStage` is the frozen effect set that authority is bound to, staged as
  one batch of events and followed through every later history of its attempt.
- `Admission` is idempotent admission; `LaunchDeadline` and `Launch` lead from
  an admitted request to a launch plan, with Go's int64 durations.
- `Paths` is resource selectors and logical paths, stated over path components.

**The Contracts release gate** (`internal/gatemole`). `Obligations` names the
obligations of a spec, `Contracts` validates specs, manifests and file
ownership, `Coverage` compiles and partitions obligations, `Policy` evaluates
an arbitrary policy file, and `ReleaseGate` joins them: for every policy, a
decision other than `block` means a change that passes field by field.

`Text` holds shared string helpers. `dafny verify dfyconfig.toml` checks the
whole project.

## What does not hold as stated

- After a crash a retried release does not always reach `committed`.
  `PublishCommit` looks at the worktree listing before it reads the ref, and
  reports a conflict both when the listing shows the target checked out and when
  the listing itself fails; the handler then records `release_failed` although
  the ref may hold the prepared commit. `Release.ReleaseService.CrashAndRetry`
  has the exact condition, with no other writer and for every environment of a
  call that is allowed, finds its stage unchanged and can prepare the commit: the
  call commits if and only if the workspace is valid, the worktrees can be listed
  and do not show the target, the ref can be read, and it had moved before or
  moves now and can be read again. The release fails if and only if the workspace
  is valid and either the listing fails or shows the target, or the ref can be
  read before and after and has not moved. Every other case is left to manual
  recovery. `Release.ReleaseService.MovedYetFailed` is the failing family from any
  preparable ledger and any barred retry, `Release.BarredRetryWitness` both kinds
  of such a run from the first event on.
- A workspace root is a path, but it is also the prefix of a selector. For every
  clean root without `[`, the accepted scopes stay at or below the root if and
  only if it contains neither `*` nor `?`: `Paths.RootConfinesExactly`. A root
  with a class can be open too (`[a]` is: `Paths.ClassRootEscapes`); which of
  them are depends on what the class matches and is not characterised.
- The daemon's wall-time ceiling is only required to be positive. From
  9223372037 seconds on, its duration wraps; the boundary then comes earlier
  than meant, never later: `LaunchDeadline.CeilingExact` and
  `LaunchDeadline.CeilingOverflows`.

## Model

| member | source | states |
|---|---|---|
| BrokerProtocol.AtMostOnce | internal/kernel/broker/broker.go:112-232 | over every interleaving of executors, recoveries and crashes, two effects of a run never share an action ID or an idempotency key |
| BrokerProtocol.EffectsAreAuthorized | internal/kernel/broker/broker.go:145-200 | a step that performs an effect finds its request, an authorization that was due on the history before it, and the execution marker durable and adjacent |
| BrokerProtocol.ReceiptsAreTruthful | internal/kernel/broker/broker.go:150-267 | in every reachable log, committed implies the effect happened; denied, approval required and failed imply it did not |
| BrokerProtocol.NeverDeniedOnceAuthorized | internal/kernel/broker/broker.go:85-102 | no action is both authorized and denied or sent for approval, in either order, recovery included |
| BrokerProtocol.UseBound | internal/kernel/capability/compiler.go:83-111 | authorizations of a grant never exceed its maximum, though each executor counts by replay |
| BrokerProtocol.PerformKeeps | internal/kernel/broker/broker.go:59-290 | every single move keeps the protocol invariant: distinct requests, justified events, backed effects, truthful receipts, one executor per request whose turn nobody else takes |
| BrokerProtocol.AdvanceKeeps | internal/kernel/store/sqlite.go:359-429 | a compare-and-append keeps the invariant whether it is refused, acknowledged, or durable but unacknowledged |
| BrokerProtocol.AuthorizedIsFinal | internal/kernel/broker/broker.go:150-194 | in a justified log a denial and an authorization never concern one action |
| BrokerProtocol.OutcomeAccepted | internal/kernel/reducer/reducer.go:253-290 | the reducer accepts any well-formed outcome in every run state, so recovery is never refused |
| BrokerProtocol.RunIDKept | internal/kernel/reducer/reducer.go:126-134 | extending a valid log never changes whose run it is |
| ActionLog.AllowMeaning | internal/kernel/broker/broker.go:292-332 | an allowed request names an installed grant for its run and kind that lists its operation, whose pattern matches the target, that is live, has uses left and needs no approval |
| ActionLog.VerdictAccounts | internal/kernel/broker/broker.go:292-332 | a decision is the verdict exactly when the fields of grants and request account for it: which grant is consulted, and why it allows, asks for approval, or denies with each code |
| ActionLog.GovernsUnique | internal/kernel/broker/broker.go:299-310 | at most one grant decides a request: the hinted one, or the covering one with the smallest ID |
| ActionLog.GrantsWellKeyed | internal/kernel/reducer/reducer.go:211-238 | the projection's capability IDs are exactly the installed grants, each stored under its own ID and valid |
| ActionLog.GrantsPersist | internal/kernel/reducer/reducer.go:222-237 | an installed grant is never replaced by later events |
| ActionLog.AppendMeaning | internal/kernel/store/sqlite.go:359-429 | an accepted append was made at the current length and leaves a replayable log |
| ActionLog.ReplaySequence | internal/kernel/reducer/reducer.go:135-144 | the projection's sequence is the number of events |
| ActionLog.ReplayStarts | internal/kernel/reducer/reducer.go:100-166 | a history begins with the creation of an identified run, with nothing in it |
| ActionLog.PendingStep | internal/kernel/broker/broker.go:357-400 | one event opens or closes exactly the action it names |
| ActionLog.WaysInto | internal/kernel/reducer/reducer.go:31-88 | the run's transition table read by where it leads |
| ActionLog.EventAccepted | internal/kernel/reducer/reducer.go:119-300 | which events the run reducer accepts, in the fields of event and projection, and exactly what each changes |
| ActionLog.InstallMeaning | internal/kernel/reducer/reducer.go:205-240 | a batch of grants installs exactly when all are well-formed, for this run, new and distinct, and then all of them |
| ActionLog.IdentifierMeaning | internal/kernel/model/validate.go:15-26 | identifiers in ASCII codes |
| Broker.EnsureUniqueAttempt | internal/kernel/broker/broker.go:334-351 | accepts exactly requests whose ID and key occur in no earlier request |
| Broker.InterruptedActions | internal/kernel/broker/broker.go:357-400 | the one-pass scan returns all request IDs in order and exactly the actions requested and not closed later, with their latest binding |
| Broker.GrantsFromEvents | internal/kernel/capability/compiler.go:83-111 | rebuilds the installed grants and use counts, and succeeds on every history the reducer accepted |
| Broker.AcceptedGrant | internal/kernel/reducer/reducer.go:222-238 | in an accepted history every installed grant is valid and new at its position |
| Broker.Candidates | internal/kernel/broker/broker.go:298-310 | lists every grant once, in strictly ascending ID order |
| Broker.Authorize | internal/kernel/broker/broker.go:292-332 | returns the one decision the fields of the installed grants account for |
| Broker.Scan | internal/kernel/broker/broker.go:292-332 | the hint or the sort, and the scan that stops at the first open grant, give the verdict |
| Broker.Broker.Guarantees | internal/kernel/broker/broker.go:59-290 | the invariant every broker method keeps gives at-most-once effects, truthful receipts, final authorizations and use limits for every run of the store |
| Broker.Broker.AppendEvent | internal/kernel/store/sqlite.go:359-429 | appends nothing or exactly the event, at the expected sequence, and touches no other run |
| Broker.Broker.CallDriver | internal/kernel/broker/broker.go:196-205 | the driver's effect is recorded exactly when its answer allows one |
| Broker.Broker.RecordReceipt | internal/kernel/broker/broker.go:206-267 | the receipt written and the status reported agree with the driver; an unstored receipt is reported unknown |
| Broker.Broker.Mark | internal/kernel/broker/broker.go:190-194 | the execution marker follows its authorization directly, or there is no effect |
| Broker.Broker.Launch | internal/kernel/broker/broker.go:186-200 | the driver is reached only behind a durable authorization and execution marker, and without a marker there is no effect |
| Broker.Broker.CarryOut | internal/kernel/broker/broker.go:190-231 | from an authorization on, every status is explained by log and driver; on a quiet store the whole new state is known |
| Broker.Broker.GoOn | internal/kernel/broker/broker.go:186-231 | an authorized action is carried out from its decision, whatever others did since |
| Broker.Broker.RecordDecision | internal/kernel/broker/broker.go:150-189 | the decision event follows its request directly and is the verdict on the history before it; when it is not acknowledged there is no effect |
| Broker.Broker.Resolve | internal/kernel/broker/broker.go:150-194 | refused requests stop at their decision, allowed ones go on |
| Broker.Broker.Vet | internal/kernel/broker/broker.go:133-143 | the later read of the history yields the grants and uses of exactly that history, and refuses known IDs and keys |
| Broker.Broker.Register | internal/kernel/broker/broker.go:145-149 | the request is appended at the expected sequence or not at all |
| Broker.Broker.Undertake | internal/kernel/broker/broker.go:133-232 | from the loaded projection on: a reused ID or key is refused, any reported outcome is explained by log and driver, and on a quiet store the whole effect is known |
| Broker.Broker.Execute | internal/kernel/broker/broker.go:112-232 | a reported outcome is told in events, effects and grant fields alone, for every interference; on a quiet store the exact events and effects of each outcome, and no change when the call is turned away; each rejection has its reason in the request or the run |
| Broker.ExplainsTells | internal/kernel/broker/broker.go:150-267 | what the log explains can be told without the verdict: literal events after the request, the accounting grant, and whether the action has an effect |
| Broker.Broker.AppendClosing | internal/kernel/broker/broker.go:85-103 | a closing event is accepted, keeps the invariant, and leaves the rest of the work list valid |
| Broker.Broker.RecoverRun | internal/kernel/broker/broker.go:69-107 | one run is closed completely, or stopped at a prefix of its closing events |
| Broker.Broker.Recover | internal/kernel/broker/broker.go:59-110 | on success every non-terminal run gained exactly its closing events and has nothing pending, a second recovery would write nothing, terminal runs and effects are untouched, and the count is the number of events written |
| Recovery.RecoveryCloses | internal/kernel/broker/broker.go:59-110 | after recovery nothing is pending, and a second recovery has nothing to do |
| Recovery.RecoveredIsClosed | internal/kernel/broker/broker.go:59-110 | a recovered run that is not over has no pending action, and recovering it again is the identity |
| Recovery.ClosedExactlyOnce | internal/kernel/broker/broker.go:80-107 | each pending action gets exactly one new event: denied if it has no binding, unknown under its binding otherwise |
| Recovery.OnlyPendingClosed | internal/kernel/broker/broker.go:80-84 | no action that was not pending gets an event |
| Recovery.UnboundIsUnauthorized | internal/kernel/broker/broker.go:369-384 | the scan's empty binding means exactly that the action was never authorized |
| EventChain.AcceptedIsChained | internal/kernel/reducer/reducer.go:119-166 | a history is accepted event by event exactly when sequences are contiguous, digests verify and link, and times never go back |
| EventChain.BuiltIsAccepted | internal/kernel/eventlog/event.go:14-46 | an event built on the current head is accepted whatever the clock says, with or without a policy decision, at the later of clock and head time |
| EventChain.StaleDigestRefused | internal/kernel/broker/broker.go:278-289 | setting a policy decision without digesting again is accepted only when there is no decision |
| EventChain.GrownIsChained | internal/kernel/eventlog/event.go:14-51 | a log grown only through Next from its creation event is chained and has unique event IDs |
| EventChain.HeadDeterminesLog | internal/kernel/model/event_digest.go:11-30 | with an injective digest, equal head digests imply equal logs |
| EventChain.TamperingShows | internal/kernel/store/sqlite.go:667-676 | any other history is refused or has another head digest |
| LockRegistry.Registry.RunLock | internal/kernel/api/server.go:590-601 | hands out the key's one entry, installing it only when the key is absent, and counts the new reference |
| LockRegistry.Registry.LockEntryMutex | internal/kernel/api/server.go:603-605 | a waiting handle becomes the entry's only holder |
| LockRegistry.Registry.UnlockEntryMutex | internal/kernel/api/server.go:607-608 | the holder gives the mutex back and keeps its reference |
| LockRegistry.Registry.UnregisterHandle | internal/kernel/api/server.go:609-616 | the identity test never fails, and the key leaves the map exactly with its last handle |
| LockRegistry.Registry.RunSchedule | internal/kernel/api/server.go:590-616 | every interleaving of the four atomic steps over any number of handles keeps the registry consistent |
| LockRegistry.Registry.Consistent | internal/kernel/api/server.go:590-616 | handles of one key share one entry and never hold it together, references count them, and a key is present exactly while it has one |
| LockRegistry.Registry.NeverStuck | internal/kernel/api/server.go:603-608 | a waiting handle's mutex is free or held by a handle that can release it |
| LockRegistry.Released | internal/kernel/api/server.go:609-616 | dropping a handle keeps counts and ownership, and reaches zero exactly when no handle of the key is left |
| Ledger.ReplayAppend | internal/kernel/store/transaction_store.go:89-179 | replaying an appended batch is reducing it on top of the projection before it |
| Ledger.ReplaySequence | internal/kernel/transaction/reducer.go:437-439 | the transaction's sequence is the number of events |
| Ledger.ApprovalMeaning | internal/kernel/transaction/reducer.go:984-1037 | an accepted approval is the approver's own, bound to the package and outstanding; approving consumes it and the last one makes ready over passing verifications, rejecting blocks, revising asks for revision |
| Ledger.WaysInto | internal/kernel/transaction/reducer.go:341-377 | the transition table read by where it leads |
| Ledger.EffectWaysInto | internal/kernel/transaction/reducer.go:379-398 | the effect transition table read by where it leads |
| Lifecycle.ReadyIsAuthorized | internal/kernel/transaction/reducer.go:984-1100 | in every accepted history that is or was ready to commit: a plan over the releasable effects and a package are frozen, every verification is a passing platform run, and exactly the approvals asked for were given, each once, by its approver, for this package |
| Lifecycle.ApprovalsGiven | internal/kernel/transaction/reducer.go:984-1037 | while approval is awaited, what was asked for is what is outstanding plus what was given since |
| Lifecycle.LifeKept | internal/kernel/transaction/reducer.go:420-515 | what each state of an accepted history has frozen, recorded and left outstanding |
| Lifecycle.ChangeAccepted | internal/kernel/transaction/reducer.go:640-1100 | a state change is accepted exactly from its state, along the table, with a reason where one is due and what its target needs of effects, results and frozen authority; running starts bare |
| Lifecycle.EffectAccepted | internal/kernel/transaction/reducer.go:728-757 | an effect change is accepted exactly for the first effect of that ID, in its status, in place, with a receipt once carried out, and changes it alone |
| Lifecycle.RecordAccepted | internal/kernel/transaction/reducer.go:700-1000 | when each staging, result, plan, package and renewal event is accepted, and exactly what it leaves |
| Lifecycle.SupersessionAccepted | internal/kernel/transaction/reducer.go:823-855 | a result is superseded with a reason unless it is a current pass, and moves to the history |
| Lockstep.ChangesMoveAll | internal/kernel/transaction/reducer.go:728-757 | the reducer accepts a loop's whole batch, event by event, and it moves every releasable effect and nothing else |
| Lockstep.ReleaseAccepted | internal/kernel/api/transaction_handlers.go:2258-2329 | from every ready ledger the release journal is accepted and leaves all releasable effects committing |
| Lockstep.OutcomeAccepted | internal/kernel/api/transaction_handlers.go:2368-2467 | from every committing ledger each outcome batch is accepted and settles all releasable effects alike, with the receipt when committed |
| Lockstep.PrepareAccepted | internal/kernel/transaction/prepare.go:25-182 | prepared authority is accepted and freezes a plan over exactly the releasable effects, all validated |
| Authority.PrepareAuthority | internal/kernel/transaction/prepare.go:25-182 | prepares exactly validating transactions with passing, unexpired platform verifications, validated and reversible effects, something to release and a sequence decision to go on; the plan covers the releasable effects, the package lives an hour and asks for a reviewer exactly when the decision does |
| Authority.RipeCanPrepare | internal/kernel/transaction/prepare.go:25-182 | what is prepared meets every condition of the reducer |
| Lockstep.OtherKeeps | internal/kernel/transaction/reducer.go:420-515 | every event of any other handler keeps effects in step with the transaction state and verification results distinct |
| Lockstep.OthersStayOut | internal/kernel/transaction/reducer.go:357-376 | no other handler can append anything to a committing or settled transaction |
| Lockstep.OthersNeverRelease | internal/kernel/transaction/reducer.go:341-377 | no other handler's batch reaches committing or a release outcome |
| Lockstep.AppendChanges | internal/kernel/api/transaction_handlers.go:2261-2282 | the build-apply-collect loop yields the batch exactly when the reducer accepts all of it |
| Validation.ValidationAccepted | internal/kernel/api/transaction_handlers.go:1821-1959 | from every ledger that may verify, the reducer accepts the whole verification batch event by event; a pass leaves every effect validated, read-only ones included, a failure leaves the effects alone, and both keep the ledger invariant |
| Validation.BuildValidation | internal/kernel/api/transaction_handlers.go:1821-1959 | a batch is built exactly when the retry rules allow one, and it is the prefix, the loop over staged effects and the result |
| Validation.ConfirmationsAccepted | internal/kernel/api/transaction_handlers.go:1907-1927 | every prefix of the loop over staged effects is accepted and has validated exactly the effects it passed |
| Validation.ValidationEnablesPrepare | internal/kernel/api/transaction_handlers.go:1821-1959 | after a passing run, authority can be prepared exactly when every current result is a passing, unexpired platform run, nothing is irreversible and something can be released |
| Separation.ValidateApprovalSeparation | internal/kernel/api/authority.go:294-345 | accepts exactly approvers who are not the sponsor, not an agent of the transaction, and no other actor or approver of the history |
| Separation.ValidateReleaseSeparation | internal/kernel/api/authority.go:347-372 | accepts exactly when approvers are pairwise distinct authorities and none is the releaser's |
| Separation.ApprovedDecisions | internal/kernel/api/authority.go:374-415 | returns the recorded decision of every approval digest in order, or fails when one is missing |
| Separation.ValidateReleaseAuthority | internal/kernel/api/authority.go:66-151 | accepts exactly current, policy-bound authority with separated, verified approvals covering every required class |
| Separation.AuthoritySeparates | internal/kernel/api/authority.go:106-150 | checked authority separates the history through the releaser's own batch appended on top of it |
| Separation.ApprovalsAlwaysFound | internal/kernel/transaction/reducer.go:984-1037 | on every accepted history the decisions behind the approval digests exist and are approvals |
| Separation.SameAuthorityNotTransitive | internal/kernel/api/authority.go:417-425 | the authority relation does not chain, so all pairs must be compared |
| Separation.SameAuthorityLaws | internal/kernel/api/authority.go:417-425 | it is symmetric, and reflexive for named principals |
| Separation.SameAuthorityByMarks | internal/kernel/api/authority.go:417-425 | two principals are one authority exactly when they share an ID or an issuer's claims |
| Release.RetryVerdict | internal/kernel/transaction/gitstage/gitstage.go:1138-1185 | with no other writer, for every environment: which calls commit, which fail and which are left to manual recovery, and where the ref then is |
| Release.ReleaseService.PublishCommit | internal/kernel/transaction/gitstage/gitstage.go:1138-1185 | with any other writers: the status is determined by what was read before and after, a revision that is neither base nor commit is a conflict and stays, and the service only ever replaces the base by the prepared commit |
| Release.ReleaseService.Journal | internal/kernel/api/transaction_handlers.go:2258-2329 | writes the whole journal or nothing, over a history separated from its approvers |
| Release.ReleaseService.RecordOutcome | internal/kernel/api/transaction_handlers.go:2368-2467 | records one outcome for the transaction and all its releasable effects, committed only once the ref held the commit |
| Release.ReleaseService.MayRelease | internal/kernel/api/transaction_handlers.go:2197-2256 | a call proceeds exactly when state, plan, policy, stage, authority, verifications and commit allow it |
| Release.ReleaseService.ReleaseTransaction | internal/kernel/api/transaction_handlers.go:2174-2366 | a refused call changes nothing; with any other writers a finished one is committed exactly when it read the commit, failed exactly when barred or when it read a foreign or unmoved ref, settles its effects alike with the commit as receipt, and wrote only over the base; a crash anywhere keeps every invariant |
| Release.ReleaseService.CrashAndRetry | internal/kernel/api/transaction_handlers.go:2197-2366 | after any number of interrupted calls by anybody at any times, one undisturbed call commits if and only if it gets past the worktree listing to a readable ref that had moved or is seen to move now, fails if and only if it is barred there or sees the ref refuse, and is left to manual recovery otherwise; the ref moved at most once, and where it had moved it is on the commit in every case |
| Release.ReleaseService.MovedYetFailed | internal/kernel/api/transaction_handlers.go:2258-2366 | from every preparable ledger: a crash after the ref moved, then a retry by anybody that finds the target checked out or cannot list the worktrees, ends in release_failed with the ref on the prepared commit |
| Release.BarredRetryWitness | internal/kernel/api/transaction_handlers.go:2258-2366 | that outcome is reached by concrete runs from the creation event on, for a checked-out target and for a failing listing |
| Release.ReleaseService.VerifyTransaction | internal/kernel/api/transaction_handlers.go:1821-1959 | a verification is refused exactly by the retry rules, and on a calm store leaves exactly the verified ledger |
| Release.ReleaseService.RefStands | internal/kernel/api/transaction_handlers.go:2331-2351 | with no other writer, the ref is at the plan's base until it moves, once, to the prepared commit |
| Release.ReleaseService.PrepareAndRelease | internal/kernel/api/transaction_handlers.go:1985-2366 | undisturbed and allowed by the sequence policy, a ripe transaction is prepared and, within its package's hour, released to committed, with the ref moved once from the base to the prepared commit |
| Release.ReleaseService.PrepareTransaction | internal/kernel/api/transaction_handlers.go:1961-2110 | for an unchanged stage, an allowed target and valid verifier profiles, authority is frozen exactly when the transaction is ripe, for the workspace's base and the current policy, ready or pending as the sequence decision asks |
| Release.ReleaseService.FreezeAuthority | internal/kernel/api/transaction_handlers.go:2048-2104 | plan, package and state change are one batch, written whole or not at all |
| Release.ReleaseService.RefFacts | internal/kernel/api/transaction_handlers.go:2331-2351 | with no other writer the ref is at its base or at the prepared commit, moved at most once, and committed means moved |
| Release.ReleaseService.OtherHandlers | internal/kernel/store/transaction_store.go:89-179 | batches of all other handlers, accepted or not, keep every release invariant and never move the ref; a calm store takes every acceptable batch |
| FrozenStage.ComputeEffectSetDigest | internal/kernel/transaction/digest.go:12-76 | digests exactly the immutable fields, and fails exactly on misnumbered effects |
| FrozenStage.BindSnapshotEffects | internal/kernel/api/transaction_handlers.go:2676-2693 | the in-place rewrite binds every effect to attempt, run and origin execution |
| FrozenStage.BoundMeaning | internal/kernel/api/transaction_handlers.go:2676-2704 | a bound effect has the attempt of the projection, its single agent run, and the last execution of the attempt when that succeeded, and is otherwise as inspected |
| FrozenStage.StageTransaction | internal/kernel/api/transaction_handlers.go:1164-1289 | for every projection: staging succeeds exactly on a running, idle, unstaged attempt whose last execution succeeded, with numbered, distinctly named effects; its batch is accepted and each staged effect carries the attempt, run and origin execution; without effects a task completes |
| FrozenStage.MatchesFrozenStage | internal/kernel/api/transaction_handlers.go:2656-2674 | accepts exactly consistent inspections with the frozen digests |
| FrozenStage.StepInAttempt | internal/kernel/transaction/reducer.go:420-507 | once staged, each accepted event either keeps all that binding reads and the effects' immutable fields, or begins a later attempt |
| FrozenStage.RestOfAttempt | internal/kernel/transaction/reducer.go:1350-1408 | so does every accepted history that is still in the attempt |
| FrozenStage.StageInvKept | internal/kernel/transaction/reducer.go:420-785 | over every accepted history: at most the last execution runs, effects are the attempt's own, numbered and distinct, and from staging on nothing runs and the digest is that of the effects |
| FrozenStage.StageEventAccepted | internal/kernel/transaction/reducer.go:562-785 | when each event that touches executions, effects or the stage is accepted, and what it leaves of them |
| FrozenStage.LedgerKeepsDigest | internal/kernel/transaction/reducer.go:759-785 | the ledger's own effects keep the frozen digest for the rest of the attempt |
| FrozenStage.FrozenAgreement | internal/kernel/api/transaction_handlers.go:2656-2704 | after every accepted history of the same attempt, a consistent inspection matches exactly when it has the staged state and effect by effect the same ID, number and content |
| FrozenStage.UnchangedMatches | internal/kernel/api/transaction_handlers.go:2656-2704 | an unchanged worktree matches after every accepted history of the same attempt, whatever statuses, receipts and times became |
| Admission.DigestMeaning | internal/kernel/admission/admission.go:87-125 | two requests share a digest exactly when they differ at most in key, actor claims and deadline zone; the request version is material |
| Admission.AdmissionService.AdmitTask | internal/kernel/store/admission_store.go:58-284 | inserts when absent, replays the stored result on the same digest, and refuses another digest |
| Admission.AdmissionService.Admit | internal/kernel/api/admission.go:12-116 | a stored admission is answered from its row whatever policy and clock say now; an absent key is refused only for another runtime or profile, by policy or by preparation, and on a calm store a preparable request is created with exactly its row |
| Admission.AdmissionService.ReplayLegacy | internal/kernel/api/admission.go:118-168 | a daemon with a runtime identity answers a legacy request from a legacy row of the same digest and never creates one |
| Admission.AdmissionService.Retry | internal/kernel/api/admission.go:12-168 | under any interleaving, in either version and for any runtime, a key is inserted at most once and every success carries the identical result; after one success a retry is refused when it names another runtime or profile, succeeds when materially equal, and conflicts otherwise |
| LaunchDeadline.EarliestBound | internal/kernel/authority/authority.go:392-412 | the loops compute the exact meet of ceiling, deadlines, grant expiries and remaining budget |
| LaunchDeadline.TimeoutBoundary | internal/kernel/authority/authority.go:392-428 | granted exactly while a second is left and a caller timeout is positive and fits every bound; the boundary is the caller's timeout, or else the meet of all bounds with the whole seconds before it |
| LaunchDeadline.BoundaryNeverGrows | internal/kernel/authority/authority.go:392-413 | tightening any limit or adding a grant never moves the boundary later |
| LaunchDeadline.CeilingExact | internal/kernel/authority/authority.go:256-257 | a ceiling's duration is exact precisely up to the range admission enforces, and never longer than meant |
| LaunchDeadline.CeilingOverflows | internal/kernel/authority/authority.go:393-393 | one second past that range the duration is negative |
| LaunchDeadline.AdmittedBudgetInRange | internal/kernel/admission/admission.go:213-224 | a budget admission accepted stays in int64 nanoseconds after any non-negative usage |
| Launch.CompileGrants | internal/kernel/capability/compiler.go:20-79 | one grant per resource, none outliving a deadline or the default lifetime, and exactly when the expiry and scope checks allow them; the validation of each finished grant is left out |
| Launch.Prepare | internal/kernel/admission/admission.go:206-340 | the admitted contract, run and grants, and exactly when the budget, deadline and scope checks let preparation succeed; version, identifier and the validation of contract, run, grants and transaction are left out |
| Launch.ValidateGrants | internal/kernel/authority/authority.go:288-390 | accepts exactly live grants that mirror the contract, with one full workspace and at most one brokered model within budget |
| Launch.Compile | internal/kernel/authority/authority.go:102-166 | plans a launch exactly for what is licensed in the fields of run, contract, task, transaction and grants, with a second left and a caller timeout that fits, under exactly that timeout or else the earliest of all bounds |
| Launch.AuthorizedIsLicensed | internal/kernel/authority/authority.go:102-166 | the checks in code order grant exactly what the fields license |
| Launch.EnforceableMeaning | internal/kernel/authority/authority.go:288-390 | the loop's conditions on resources leave one full workspace, alone or with one brokered model |
| Launch.AdmissionIsLaunchable | internal/kernel/admission/admission.go:206-411 | for a supported request everything the launch authority checks again already holds while time is left |
| Launch.LaunchAdmitted | internal/kernel/authority/authority.go:102-166 | every supported admission launches exactly while a second of authority, and the caller's timeout if any, is left |
| Paths.CleanLogicalPathMeaning | internal/kernel/capability/compiler.go:131-140 | accepts exactly paths of ordinary components, and returns them unchanged |
| Paths.SubtreeSelector | internal/kernel/capability/compiler.go:113-129 | a subtree selector matches exactly the clean targets whose components extend its clean base |
| Paths.GlobSelector | internal/kernel/capability/compiler.go:113-129 | any other selector matches clean targets by its pattern, if it is itself clean, relative and free of escapes |
| Paths.WorkspaceRelativeMeaning | internal/kernel/capability/compiler.go:142-156 | succeeds exactly strictly below a clean root, with the one clean remainder that rebuilds the target |
| Paths.PrefixByComponents | internal/kernel/capability/compiler.go:118-123 | the code's string-prefix test is the component order |
| Paths.GlobConcat | internal/kernel/capability/compiler.go:113-129 | a pattern without classes and escapes matches piece by piece |
| Paths.GlobOneStar | internal/kernel/capability/compiler.go:113-129 | a star between literal texts stands for exactly the texts without a slash |
| Paths.GlobClass | internal/kernel/capability/compiler.go:113-129 | a class stands for one character that is in it |
| Paths.GlobEscape | internal/kernel/capability/compiler.go:113-129 | an escaped character stands for itself |
| Paths.RangeMatches | internal/kernel/capability/compiler.go:113-129 | a range and its negation contain exactly the characters between, and not between, its ends |
| Paths.ScopeConfines | internal/kernel/capability/compiler.go:158-173 | an accepted scope with a metacharacter-free root reaches only the root and what is below it |
| Paths.PatternRootEscapes | internal/kernel/capability/compiler.go:113-173 | every clean root with `*` or `?` and without `[` is itself an accepted scope for reading that reaches a path outside the root |
| Paths.RootConfinesExactly | internal/kernel/capability/compiler.go:113-173 | for every clean root without `[`: all accepted scopes stay at or below it if and only if it contains neither `*` nor `?` |
| Paths.FillMatches | internal/kernel/capability/compiler.go:113-129 | a pattern without classes matches its own text with `*` and `?` replaced by an ordinary character |
| Paths.ClassRootEscapes | internal/kernel/capability/compiler.go:113-173 | a class in the root can open it as well: `[a]` reaches `a` |
| Obligations.ObligationSlug | internal/gatemole/ir.go:104-119 | the slug is the text's words joined by single underscores |
| Obligations.ObligationBuilder.ObligationID | internal/gatemole/ir.go:89-102 | the base name when unused, else the indexed one, which is new although it is never looked up |
| Obligations.FallbackDistinct | internal/gatemole/ir.go:94-101 | an indexed name is no other obligation's base name, and equals another indexed name only for the same kind, slug and index |
| Obligations.IRFromSpec | internal/gatemole/ir.go:34-70 | one obligation per entry, in order, with pairwise distinct IDs for all texts that begin with the spec and the literal name of the kind |
| Contracts.ValidateList | internal/gatemole/validate.go:148-162 | no error exactly when the values are non-empty and distinct |
| Contracts.ValidateSpec | internal/gatemole/validate.go:10-50 | no error exactly for well-formed specs |
| Contracts.ValidateArtifacts | internal/gatemole/validate.go:107-146 | no error exactly for well-formed artifacts with distinct IDs |
| Contracts.ValidateManifest | internal/gatemole/validate.go:52-91 | no error exactly for manifests that are well-formed over the loaded specs |
| Contracts.BuildFileOwners | internal/gatemole/compiler.go:105-119 | the owner table holds exactly the owned paths of the valid specs |
| Contracts.OwnersForFile | internal/gatemole/compiler.go:201-212 | the distinct specs with a matching owned path |
| Contracts.ValidateFileTraceability | internal/gatemole/compiler.go:175-199 | no error exactly when every changed file has owners and all of them are touched |
| Contracts.SubtreeOwnership | internal/gatemole/compiler.go:214-229 | a subtree pattern owns exactly the files whose cleaned components extend its base |
| Contracts.PatternOwnership | internal/gatemole/compiler.go:214-229 | a literal pattern owns exactly itself, and a single star exactly the texts without a slash |
| Contracts.NormalizedIsOrdinary | internal/gatemole/compiler.go:231-241 | a normalized path is the cleaned one, without any upward or empty component |
| Contracts.NormalizeMeaning | internal/gatemole/compiler.go:231-241 | a path normalizes exactly when it is relative and cleans to ordinary components |
| Coverage.ValidateArtifactReferences | internal/gatemole/compiler.go:155-173 | no error exactly when artifacts name compiled obligations of their own evidence kind |
| Coverage.BuildPlanSymbols | internal/gatemole/compiler.go:138-153 | every symbol is a compiled obligation and every compiled obligation has one |
| Coverage.CompilePlans | internal/gatemole/compiler.go:71-88 | one plan per touched, loaded and valid spec, entry by entry under distinct IDs |
| Coverage.CompileManifestPipeline | internal/gatemole/compiler.go:47-95 | when there are spec errors, manifest errors, plans and obligations, and that symbols and compiled obligations correspond both ways |
| Coverage.ArtifactCoverageByKind | internal/gatemole/evidence.go:144-161 | the coverage table is exactly what valid, non-verifier artifacts cover, by kind |
| Coverage.ObligationCovered | internal/gatemole/evidence.go:121-142 | evidence by artifact of the right kind once any artifact is in play, by the manifest's claims otherwise |
| Coverage.MissingTextsByKind | internal/gatemole/evidence.go:387-397 | the missing texts of a kind, for exactly the specs that have some |
| Coverage.ReportMissing | internal/gatemole/evidence.go:265-278 | one blocking finding per spec with missing obligations of the kind, in ID order, naming them |
| ReleaseGate.Evidence.BuildCoverage | internal/gatemole/evidence.go:82-119 | covered and missing split the touched obligations in order, nothing lost or doubled |
| ReleaseGate.Evidence.MissingMeaning | internal/gatemole/evidence.go:320-344 | something is missing exactly when a touched obligation has no evidence, and then some verifier's kind has it |
| ReleaseGate.Evidence.VerifyCompilation | internal/gatemole/evidence.go:182-193 | blocks exactly when nothing compiled |
| ReleaseGate.Evidence.VerifySpecAdherence | internal/gatemole/evidence.go:242-263 | blocks exactly on spec or manifest errors |
| ReleaseGate.Evidence.VerifyBehaviorEvidence | internal/gatemole/evidence.go:265-278 | blocks exactly on missing behavior evidence |
| ReleaseGate.Evidence.VerifyTestAdequacy | internal/gatemole/evidence.go:280-303 | blocks exactly on failed suites or missing required tests |
| ReleaseGate.Evidence.VerifySecurityEvidence | internal/gatemole/evidence.go:305-318 | blocks exactly on missing security evidence |
| ReleaseGate.Evidence.ImportVerifierFindings | internal/gatemole/evidence.go:163-170 | appends exactly the findings of the verifier artifacts, in order |
| ReleaseGate.Evidence.PolicyInput | internal/gatemole/policy.go:210-242 | every fact a policy sees, blocking claims included, as a function of manifest, findings and coverage |
| ReleaseGate.Evidence.VerifyArtifactEvidence | internal/gatemole/evidence.go:195-240 | blocks exactly on unsigned or unlinked evidence, failing test artifacts and invalid evidence |
| ReleaseGate.Evidence.VerifyReleaseReadiness | internal/gatemole/evidence.go:320-357 | blocks exactly on missing rollback or runtime evidence and on uncompensated external effects |
| ReleaseGate.Evidence.RunVerifiers | internal/gatemole/evidence.go:172-180 | adds blocking findings only, and some exactly when there is something to block on |
| ReleaseGate.Evidence.ApplyReleasePolicy | internal/gatemole/policy.go:141-149 | over exactly those facts, blocks on invalid input, blocking findings, a reached block rule, or no match; otherwise the last rule reached decides |
| ReleaseGate.CollectEvidence | internal/gatemole/evidence.go:38-80 | for every policy a decision other than block means a change that passes field by field; one that passes shows the policy exactly its risk, canary and signing facts and is blocked only by the rules on them |
| ReleaseGate.CollectByDefault | internal/gatemole/policy.go:17-84 | under the built-in policy a change is blocked exactly when it does not pass; low and medium risks merge, high and critical ones go to a canary or a human |
| ReleaseGate.SoundIsPasses | internal/gatemole/evidence.go:172-357 | the verifiers' soundness is exactly the literal conditions on specs, manifest, files and artifacts |
| ReleaseGate.CoveredIsShown | internal/gatemole/evidence.go:121-142 | an obligation counts as covered exactly when a valid artifact of the literal kind for it lists it, or without artifacts when the manifest field of its kind names it |
| ReleaseGate.SoundShows | internal/gatemole/ir.go:34-70 | every entry of every touched spec is an obligation of its kind and is shown, and artifacts only name obligations they can show |
| ReleaseGate.SoundMeaning | internal/gatemole/evidence.go:172-357 | soundness in terms of specs, manifest and evidence is exactly the absence of every verifier problem |
| Policy.EvaluateReleasePolicy | internal/gatemole/policy.go:151-182 | blocks exactly when a block rule is reached or nothing matches; otherwise the last rule reached decides; the fired rules are exactly the matching ones up to the first that stops, leaving out non-blocking ones behind a block |
| Policy.FirstFires | internal/gatemole/policy.go:158-170 | the first rule to fire is the first that matches, and none fires exactly when none matches |
| Policy.EnforcePolicyFloor | internal/gatemole/policy.go:184-196 | overrides exactly the non-blocking decisions on invalid input or blocking findings |
| Policy.DefaultRuleMatches | internal/gatemole/policy.go:17-84 | the built-in rules match by a table of blockers, risk and canary |
| Policy.FactMatches | internal/gatemole/policy.go:309-330 | each named fact reads its own field, and an unknown one never holds |
| Policy.RiskOrder | internal/gatemole/policy.go:274-286 | risk bounds compare the four names in their order |
| Policy.Connectives | internal/gatemole/policy.go:274-307 | a condition is the conjunction of its own part, all of All, some of Any and not Not |
| Policy.EvaluateDefault | internal/gatemole/policy.go:17-84 | the built-in policy blocks, escalates, canaries or merges exactly by that table of blockers, risk names and canary |

## Left out

- HTTP and JSON decoding, OIDC, sockets, daemon start-up, file locks and configuration snapshots: input, output and operating-system behaviour.
- Docker, the model-broker process, evidence files and Git commands: only the outcomes the handlers branch on are kept, as parameters.
- SHA-256, Ed25519 and YAML: digests are injective functions or values, signatures an abstract predicate.
- Read failures of the store: they end a call without a write, as an abandoned thread does.
- The run reducer's budget charges and the transaction reducer's event times, stage bindings, execution identities, effect dependencies, digest recomputation and whole-projection validation: they only refuse more histories than the model does.
- Launch.Prepare: run creation, capability-ID collisions (which the run reducer refuses), request version and identifiers, and the field-by-field `Validate` of contract, run and transaction.
- Launch.CompileGrants: the field-by-field `Validate` of each grant.
- Release.ReleaseService.VerifyTransaction: the verifier process is only its result; the rendering of its artifacts is left out.
- Authority.PrepareAuthority: the sequence policy's outcome is a parameter; compensation steps, identifiers and the validation of digests and of the finished plan and package are left out.
- FrozenStage.StageTransaction: what the worktree inspection finds is a parameter; a missing stage-state digest is not refused.
- Broker.Broker.Execute: with other threads running it promises what its reported outcome means, not that it succeeds, because any of them may win the race for the sequence.
- Broker.Broker.Recover: runs alone, as the daemon starts it before serving; recoveries beside executors are moves of `BrokerProtocol`.
- Release.ReleaseService.CrashAndRetry: needs the ref free of other writers, since with one a moved ref may be moved again or away.
- Release.ReleaseService.ReleaseTransaction: separation is checked on the way from ready-to-commit only, as in the source; a retry from committing is not checked again.
- LaunchDeadline.BoundaryNeverGrows: for ceilings within the exact range, because a wrapped ceiling is not monotone (`CeilingOverflows`).
- LockRegistry.Registry.RunSchedule: fairness of Go's mutexes is not modelled; only that some step is always possible.
- Paths.RootConfinesExactly: roots containing `[`, where the answer depends on whether each class is well-formed, in the root or together with what a pattern appends, and on which characters it matches.
- Paths.GlobMatch: patterns follow the documented relation of `path.Match`, escapes included. Its scan without backtracking differs from that relation only when a class matches a slash.
- Contracts.OwnersForFile: the final sort of owners orders error messages only.
- Coverage.CompilePlans: plan diagnostics, required checks and verifier roles are not modelled.
- ReleaseGate.Evidence.BuildCoverage: the per-kind text lists for tests and security repeat the obligation lists and are not modelled.
- Policy.EvaluateReleasePolicy: the texts of reasons are not modelled.
- Specs are keyed by their own ID, as `LoadSpecs` keys them; obligation IDs are not compared across specs.
- Model-broker receipts, agent supervision, compensation and the command-line tools: outside these protocols.
