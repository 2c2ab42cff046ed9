/** Crash-safe Git publication (internal/kernel/api/transaction_handlers.go:2174-2467,
    internal/kernel/transaction/gitstage/gitstage.go:1138-1185).

    The service's durable state is the ledger and one Git ref. A call may stop
    after any durable step, an append may be durable and still be reported as
    failed, and the methods may be called again in any order. */
module Release {
  import opened Text
  import opened Ledger
  import opened Lockstep
  import opened Authority
  import opened Validation
  import opened Separation

  datatype PublishStatus = Applied | Reconciled | Conflict | Unresolved

  /** What one release call meets outside the ledger. */
  datatype Env = Env(
    allowed: bool,
    stageMatches: bool,
    profilesHold: bool,
    policyDigest: string,
    prepares: bool,
    workspaceValid: bool,
    worktreesListed: bool,
    checkedOut: bool,
    readable: bool,
    takesEffect: bool,
    reportsError: bool,
    rereadable: bool)

  datatype Reply = Refused | Crashed | NotStored | Done(status: PublishStatus)

  /** PublishCommit with nobody else writing the ref: its status and the ref. */
  function PublishOutcome(ref: string, commit: string, expected: string, env: Env): (PublishStatus, string) {
    if !env.workspaceValid then (Unresolved, ref)
    else if !env.worktreesListed || env.checkedOut then (Conflict, ref)
    else if !env.readable then (Unresolved, ref)
    else if ref == commit then (Reconciled, ref)
    else if ref != expected then (Conflict, ref)
    else
      var after := if env.takesEffect then commit else ref;
      if !env.rereadable then (Unresolved, after)
      else if after == commit then (if env.reportsError then Reconciled else Applied, after)
      else (Conflict, after)
  }

  /** A worktree listing that fails counts like one that shows the target. */
  predicate Barred(env: Env) { !env.worktreesListed || env.checkedOut }

  /** PublishCommit gets as far as reading the target ref. */
  predicate Reaches(env: Env) { env.workspaceValid && !Barred(env) && env.readable }

  /** The call ends with the ref known to hold the commit; moved says whether it
      did before. */
  predicate Publishes(env: Env, moved: bool) { Reaches(env) && (moved || (env.takesEffect && env.rereadable)) }

  /** The call ends in a conflict, wherever the ref is. */
  predicate Rejects(env: Env, moved: bool) {
    env.workspaceValid && (Barred(env) || (env.readable && !moved && !env.takesEffect && env.rereadable))
  }

  /** What a call means for the ledger and the ref, for every environment. */
  lemma RetryVerdict(ref: string, commit: string, expected: string, env: Env)
    requires ref in [commit, expected] && commit != expected
    ensures var (status, after) := PublishOutcome(ref, commit, expected, env);
            && (StateAfter(status) == Committed <==> Publishes(env, ref == commit))
            && (StateAfter(status) == ReleaseFailed <==> Rejects(env, ref == commit))
            && (StateAfter(status) !in {Committed, ReleaseFailed} ==> StateAfter(status) == ManualRecoveryRequired)
            && after == (if ref == commit || (Reaches(env) && env.takesEffect) then commit else expected)
  {
  }

  /** The status by what was read before and after the update, whoever wrote it;
      due says that the plan expects the workspace's base. */
  predicate SeenAs(status: PublishStatus, env: Env, due: bool, read: Option<string>, again: Option<string>,
                   expected: string, commit: string) {
    && (status == Applied <==> again == Some(commit) && !env.reportsError)
    && (status == Reconciled <==> read == Some(commit) || (again == Some(commit) && env.reportsError))
    && (status == Conflict <==>
          || (due && env.workspaceValid && Barred(env))
          || (read.Some? && read.value != commit && read.value != expected)
          || again == Some(expected))
  }

  /** How a finished release leaves its effects. */
  predicate Settled(p: Projection, commit: string) {
    forall e <- p.effects :: !e.readOnly ==>
      && (p.state == Committed ==> e.status == EffectCommitted && e.receipt == Some(commit))
      && (p.state == ReleaseFailed ==> e.status == Failed)
      && (p.state == ManualRecoveryRequired ==> e.status == Unknown)
  }

  lemma MovedIsSettled(before: seq<Effect>, p: Projection, to: EffectStatus, receipt: Option<string>, commit: string)
    requires MovedTogether(before, p.effects, to, receipt)
    requires (p.state, to, receipt) in [(Committed, EffectCommitted, Some(commit)), (ReleaseFailed, Failed, None),
                                        (ManualRecoveryRequired, Unknown, None)]
    ensures Settled(p, commit)
  {
    forall e | e in p.effects && !e.readOnly
      ensures e.status == to && (receipt.Some? ==> e.receipt == receipt)
    {
      var i :| 0 <= i < |p.effects| && p.effects[i] == e;
    }
  }

  function StateAfter(status: PublishStatus): TransactionState {
    match status
    case Applied => Committed
    case Reconciled => Committed
    case Conflict => ReleaseFailed
    case Unresolved => ManualRecoveryRequired
  }

  predicate VerificationsCurrent(results: seq<Verification>, now: int) {
    forall i :: 0 <= i < |results| ==>
      results[i].status.Passed? && (results[i].expiresAt.Some? ==> now < results[i].expiresAt.value)
  }

  /** The prefix of a ledger up to a release batch, separated from its approvers. */
  ghost predicate ReleasedBy(log: seq<Event>, through: nat, releaser: Principal) {
    && through <= |log| && Replay(log[..through]).Some?
    && Replay(log[..through]).value.state == Committing
    && DutiesSeparated(Replay(log[..through]).value, log[..through], releaser)
  }

  lemma ReleasedByKept(log: seq<Event>, more: seq<Event>, through: nat, releaser: Principal)
    requires ReleasedBy(log, through, releaser)
    ensures ReleasedBy(log + more, through, releaser)
  {
    assert (log + more)[..through] == log[..through];
  }

  lemma DutiesSame(p: Projection, q: Projection, log: seq<Event>, releaser: Principal)
    requires DutiesSeparated(p, log, releaser)
    requires q.package == p.package && q.approvalDigests == p.approvalDigests
    requires q.sponsor == p.sponsor && q.agentRunIDs == p.agentRunIDs
    ensures DutiesSeparated(q, log, releaser)
  {
    hide SameAuthority, EventSeparates, Recorded, ReleaseSeparated, Covers;
  }

  /** With no other writer, the ref moved at most once, to the prepared commit. */
  predicate RefInv(plan: Option<Plan>, ref: string, moves: nat, held: bool, base: string, commitOf: Plan -> string) {
    && (plan.Some? ==> plan.value.expected == base && commitOf(plan.value) != base)
    && (moves == 0 ==> ref == base && !held)
    && (moves > 0 ==> moves == 1 && plan.Some? && ref == commitOf(plan.value))
  }

  /** Dropping a plan that was not acted on keeps the ref invariant. */
  lemma RefInvDrops(before: Option<Plan>, after: Option<Plan>, ref: string, moves: nat, held: bool, base: string,
                    commitOf: Plan -> string)
    requires RefInv(before, ref, moves, held, base, commitOf) && after in {before, None}
    requires moves == 0 || after == before
    ensures RefInv(after, ref, moves, held, base, commitOf)
  {
  }

  /** Whoever else writes, the service itself only ever replaced the base, and only
      by the prepared commit. */
  predicate WritesInv(plan: Option<Plan>, writes: seq<(string, string)>, moves: nat, base: string, commitOf: Plan -> string) {
    && |writes| == moves
    && forall w <- writes :: plan.Some? && plan.value.expected == base && w == (base, commitOf(plan.value))
  }

  class ReleaseService {
    /** PrepareCommit, deterministic in the frozen plan. */
    const commitOf: Plan -> string
    const verify: Verifier
    const base: string
    /** Whether anybody else writes the target ref. */
    const foreign: bool
    var log: seq<Event>
    var ref: string
    /** How often this transaction changed the ref, and whether the ref has held
        the prepared commit since committing began. */
    ghost var moves: nat
    /** Each of those changes: the revision it replaced and the one it wrote. */
    ghost var writes: seq<(string, string)>
    ghost var held: bool
    ghost var through: nat
    ghost var releaser: Principal

    function P(): Projection
      reads this`log
      requires Replay(log).Some?
    {
      Replay(log).value
    }

    ghost predicate Valid()
      reads this
    {
      && Replay(log).Some? && LedgerInv(P())
      && (P().state !in PostRelease ==> moves == 0 && !held)
      && (P().state == Committed ==> held)
      && (P().state in PostRelease ==> ReleasedBy(log, through, releaser))
      && (!foreign ==> RefInv(P().plan, ref, moves, held, base, commitOf))
      && WritesInv(P().plan, writes, moves, base, commitOf)
      && (forall plan :: commitOf(plan) != plan.expected)
    }

    constructor (commitOf: Plan -> string, verify: Verifier, base: string, foreign: bool, ref: string,
                 sponsor: Principal, agentRunIDs: seq<string>)
      requires forall plan :: commitOf(plan) != plan.expected
      requires !foreign ==> ref == base
      ensures Valid() && P() == Start(sponsor, agentRunIDs) && moves == 0
      ensures this.commitOf == commitOf && this.base == base && this.foreign == foreign
    {
      this.commitOf, this.verify, this.base, this.foreign := commitOf, verify, base, foreign;
      log := [Event(sponsor, TransactionCreated(sponsor, agentRunIDs))];
      this.ref, moves, writes, held := ref, 0, [], false;
      through, releaser := 0, sponsor;
    }

    method ForeignWrites()
      modifies this`ref
      ensures !foreign ==> ref == old(ref)
    {
      if foreign { ref := *; }
    }

    /** store.AppendTransactionEvents. Unless calm, it may fail, or succeed and
        report a failure. */
    method AppendTransactionEvents(expected: nat, events: seq<Event>, calm: bool) returns (ok: bool)
      requires Replay(log).Some?
      modifies this`log
      ensures log == old(log) || (log == old(log) + events && AppendBatch(old(log), expected, events).Some?)
      ensures ok ==> log == old(log) + events && AppendBatch(old(log), expected, events).Some?
      ensures calm ==> (ok <==> AppendBatch(old(log), expected, events).Some?)
    {
      var fault, lost := *, *;
      if calm { fault, lost := false, false; }
      var current := Replay(log).value;
      if fault || |events| == 0 || current.sequence != expected { return false; }
      if ApplyAll(current, events).None? { return false; }
      log := log + events;
      return !lost;
    }

    /** Any other handler's batch. */
    method OtherHandlers(events: seq<Event>, calm: bool)
      requires Valid() && forall i :: 0 <= i < |events| ==> OtherHandler(events[i].payload)
      modifies this`log
      ensures Valid() && (log == old(log) || log == old(log) + events)
      ensures old(P().state) in PostRelease ==> log == old(log)
      ensures calm && events != [] && ApplyAll(old(P()), events).Some? ==> P() == ApplyAll(old(P()), events).value
    {
      ReplaySequence(log);
      var before := log;
      ghost var p := P();
      var ok := AppendTransactionEvents(|log|, events, calm);
      if log != before {
        ReplayAppend(before, events);
        OthersKeep(p, events);
        OthersKeepPlan(p, events);
        if p.state in PostRelease {
          OthersStayOut(p, events);
        } else {
          OthersNeverRelease(p, events);
        }
      }
    }

    /** A verification, recorded with all its effect changes or not at all. */
    method VerifyTransaction(result: Verification, requester: Principal, verifier: Principal, at: int, calm: bool)
      returns (ok: bool)
      requires Valid() && FreshResult(P(), result)
      modifies this`log
      ensures Valid()
      ensures log == old(log) || log == old(log) + ValidationBatch(old(P()), result, requester, verifier, at)
      ensures ok ==> P() == Verified(old(P()), result).(sequence := P().sequence)
      ensures ok ==> old(MayVerify(P(), result.name, at))
      ensures calm && old(MayVerify(P(), result.name, at)) ==> ok
      ensures ok && result.status.Passed? ==> AllValidated(P().effects)
    {
      hide LedgerInv, MayVerify, ReleasedBy, FreshResult, ValidationBatch, Verified, RefInv, AllValidated;
      var p := Replay(log).value;
      var built := BuildValidation(p, result, requester, verifier, at);
      if built.None? { return false; }
      ValidationAccepted(p, result, requester, verifier, at);
      ValidationIsOther(p, result, requester, verifier, at);
      ReplaySequence(log);
      var before := log;
      ok := AppendTransactionEvents(|log|, built.value, calm);
      if log != before {
        ReplayAppend(before, built.value);
        OthersKeepPlan(p, built.value);
        if p.state in PostRelease { OthersStayOut(p, built.value); } else { OthersNeverRelease(p, built.value); }
        assert !foreign ==> RefInv(P().plan, ref, moves, held, base, commitOf) by {
          if !foreign { RefInvDrops(p.plan, P().plan, ref, moves, held, base, commitOf); }
        }
      }
    }

    /** prepareTransaction: the handler's own checks, then PrepareAuthority for the
        workspace's base revision, then one batch. */
    method PrepareTransaction(actor: Principal, env: Env, outcome: SequenceOutcome, target: string, approvalID: string,
                              digestOf: Digest, now: int, calm: bool)
      returns (ok: bool)
      requires Valid()
      modifies this`log
      ensures Valid()
      ensures ok ==> old(Ripe(P(), outcome, now)) && env.stageMatches && env.allowed && env.profilesHold
      ensures calm && old(Ripe(P(), outcome, now)) && env.stageMatches && env.allowed && env.profilesHold ==> ok
      ensures !ok && calm ==> log == old(log)
      ensures ok ==>
                && P().plan == Some(Plan(target, base, env.policyDigest, ReleaseIDs(P().effects))) && P().package.Some?
                && P().package.value.policyDigest == env.policyDigest && P().package.value.expiresAt == now + PackageLifetime
                && (outcome == SequenceAllow ==> P().state == ReadyToCommit && P().package.value.requiredClasses == [])
                && (outcome == SequenceRequireApproval ==>
                      && P().state == PendingApproval && P().outstanding == [approvalID]
                      && P().package.value.requiredClasses == ["security-reviewer"])
                && P().effects == old(P().effects) && P().verifications == old(P().verifications)
    {
      hide LedgerInv, CanPrepare, ReleasedBy, RefInv, WritesInv, Ripe;
      if !env.stageMatches || !env.allowed || !env.profilesHold { return false; }
      var p := Replay(log).value;
      var prepared := PrepareAuthority(p, outcome, env.policyDigest, target, base, approvalID, digestOf, now);
      if prepared.None? { return false; }
      RipeOutcome(p, outcome, now);
      RipeCanPrepare(p, outcome, now, prepared.value);
      ok := FreezeAuthority(actor, prepared.value.plan, prepared.value.package, prepared.value.outstanding, calm);
    }

    /** The batch that freezes plan and package. */
    method FreezeAuthority(actor: Principal, plan: Plan, package: Package, outstanding: seq<string>, calm: bool)
      returns (ok: bool)
      requires Valid() && plan.expected == base
      modifies this`log
      ensures Valid()
      ensures log == old(log) || log == old(log) + PrepareBatch(actor, plan, package, outstanding)
      ensures ok ==> old(CanPrepare(P(), plan, package, outstanding))
      ensures ok ==>
                P() == old(P()).(plan := Some(plan), package := Some(package), sequence := old(P().sequence) + 3,
                                 state := if outstanding == [] then ReadyToCommit else PendingApproval,
                                 outstanding := if outstanding == [] then old(P().outstanding) else outstanding)
      ensures calm && old(CanPrepare(P(), plan, package, outstanding)) ==> ok
    {
      hide LedgerInv, CanPrepare, PrepareBatch, ReleasedBy;
      var p := Replay(log).value;
      if !CanPrepare(p, plan, package, outstanding) { return false; }
      PrepareAccepted(p, actor, plan, package, outstanding);
      assert p.state == Validating by { PreparesFromValidating(p, plan, package, outstanding); }
      ReplaySequence(log);
      var before := log;
      var batch := PrepareBatch(actor, plan, package, outstanding);
      assert batch != [] by { PrepareBatchNonempty(actor, plan, package, outstanding); }
      ok := AppendTransactionEvents(|log|, batch, calm);
      if log != before { ReplayAppend(before, batch); }
    }

    /** PublishCommit. It is only ever called over a durable committing ledger. */
    method PublishCommit(plan: Plan, env: Env)
      returns (status: PublishStatus, ghost read: Option<string>, ghost again: Option<string>)
      requires Valid() && P().state == Committing && P().plan == Some(plan)
      modifies this`ref, this`moves, this`writes, this`held
      ensures Valid()
      ensures (status in {Applied, Reconciled} ==> held) && moves >= old(moves)
      ensures read.Some? <==> plan.expected == base && Reaches(env)
      ensures again.Some? <==> read == Some(plan.expected) && env.rereadable
      ensures SeenAs(status, env, plan.expected == base, read, again, plan.expected, commitOf(plan))
      ensures writes == old(writes) ||
              (writes == old(writes) + [(base, commitOf(plan))] && read == Some(base) && env.takesEffect)
      ensures !foreign ==> (status, ref) == PublishOutcome(old(ref), commitOf(plan), base, env)
    {
      var commit := commitOf(plan);
      read, again := None, None;
      if !env.workspaceValid { return Unresolved, None, None; }
      if plan.expected != base { return Unresolved, None, None; }
      if !env.worktreesListed || env.checkedOut { return Conflict, None, None; }
      ForeignWrites();
      if !env.readable { return Unresolved, None, None; }
      var current := ref;
      read := Some(current);
      if current == commit {
        held := true;
        return Reconciled, read, None;
      }
      if current != plan.expected { return Conflict, read, None; }
      ForeignWrites();
      if ref == plan.expected && env.takesEffect {
        writes := writes + [(ref, commit)];
        ref := commit;
        moves := moves + 1;
        held := true;
      }
      ForeignWrites();
      if !env.rereadable { return Unresolved, read, None; }
      current := ref;
      again := Some(current);
      if current == commit {
        held := true;
        return if env.reportsError then Reconciled else Applied, read, again;
      }
      if current == plan.expected { return Conflict, read, again; }
      return Unresolved, read, again;
    }

    /** finishGitRelease and failGitRelease: one batch for the outcome. */
    method RecordOutcome(actor: Principal, to: EffectStatus, receipt: Option<string>, state: TransactionState,
                         reason: string, calm: bool)
      returns (ok: bool)
      requires Valid() && P().state == Committing && Outcome(to, receipt, state, reason)
      requires state == Committed ==> held
      modifies this`log
      ensures Valid() && P().state in {Committing, state} && P().plan == old(P().plan)
      ensures ok ==> P().state == state && MovedTogether(old(P().effects), P().effects, to, receipt)
      ensures calm ==> ok
    {
      hide LedgerInv, MovedTogether, ReleasedBy, Changes, Apply, ApplyAll, Replay, RefInv;
      var p := Replay(log).value;
      OutcomeAccepted(p, actor, to, receipt, state, reason);
      ReplaySequence(log);
      var before := log;
      OutcomeParts(p, actor, to, receipt, state, reason);
      NoChanges(p, EffectCommitting, to, receipt, actor);
      var built, temporary, events := AppendChanges(p, p.effects, EffectCommitting, to, receipt, actor, [], p);
      events := events + [StateEvent(actor, Committing, state, reason)];
      assert events == OutcomeBatch(p.effects, actor, to, receipt, state, reason);
      ok := AppendTransactionEvents(|before|, events, calm);
      if log != before {
        ReplayAppend(before, events);
        ReleasedByKept(before, events, through, releaser);
      }
    }

    /** What the invariant says about the ref of a release in progress. */
    lemma RefFacts()
      requires Valid() && !foreign && P().state in PostRelease
      ensures P().plan.Some?
      ensures var commit := commitOf(P().plan.value);
              && commit != base && P().plan.value.expected == base
              && ref == (if moves == 0 then base else commit) && moves <= 1
              && (P().state == Committed ==> moves == 1)
    {
      hide ReleasedBy, AllReleasable, ReleaseIDs;
    }

    /** Whether a call gets as far as publishing. */
    ghost predicate Proceeds(actor: Principal, now: int, env: Env)
      reads this
      requires Replay(log).Some?
    {
      && P().state in {ReadyToCommit, Committing} && P().plan.Some?
      && env.allowed && env.stageMatches && env.prepares
      && (P().state == ReadyToCommit ==>
            AuthorityHolds(P(), log, actor, now, env.policyDigest, env.profilesHold, verify)
            && VerificationsCurrent(P().verifications, now))
    }

    /** The journal written before the ref is touched. */
    method Journal(actor: Principal, now: int, env: Env, calm: bool) returns (ok: bool)
      requires Valid() && P().state == ReadyToCommit
      requires AuthorityHolds(P(), log, actor, now, env.policyDigest, env.profilesHold, verify)
      modifies this`log, this`through, this`releaser
      ensures Valid() && P().state in {ReadyToCommit, Committing} && P().plan == old(P().plan)
      ensures log == old(log) || log == old(log) + ReleaseBatch(old(P().effects), actor)
      ensures ok ==> P().state == Committing
      ensures calm ==> ok
    {
      hide LedgerInv, AuthorityHolds, DutiesSeparated, Changes, AllReleasable, Movable;
      var p := Replay(log).value;
      ReleaseAccepted(p, actor);
      ReplaySequence(log);
      var before := log;
      var events := BuildJournal(p, actor);
      ok := AppendTransactionEvents(|before|, events, calm);
      if log != before {
        ReplayAppend(before, events);
        JournalHasNoApprovals(p.effects, actor);
        AuthoritySeparates(p, before, events, actor, now, env.policyDigest, env.profilesHold, verify);
        DutiesSame(p, P(), log, actor);
        through, releaser := |log|, actor;
        assert log[..through] == log;
      }
    }

    /** The checks before anything is written. */
    method MayRelease(actor: Principal, now: int, env: Env) returns (ok: bool)
      requires Valid()
      ensures ok <==> Proceeds(actor, now, env)
    {
      hide LedgerInv, AuthorityHolds, ReleasedBy, VerificationsCurrent, Replay, RefInv;
      var projection := Replay(log).value;
      if projection.state != ReadyToCommit && projection.state != Committing { return false; }
      if projection.plan.None? || !env.allowed { return false; }
      if !env.stageMatches { return false; }
      if projection.state == ReadyToCommit {
        ok := ValidateReleaseAuthority(projection, log, actor, now, env.policyDigest, env.profilesHold, verify);
        if !ok { return false; }
        ok := CheckVerifications(projection.verifications, now);
        if !ok { return false; }
      }
      return env.prepares;
    }

    /** Publication and its outcome, over a durable journal. */
    method Publish(actor: Principal, plan: Plan, env: Env, calm: bool)
      returns (reply: Reply, ghost read: Option<string>, ghost again: Option<string>)
      requires Valid() && P().state == Committing && P().plan == Some(plan)
      modifies this
      ensures Valid() && P().state in PostRelease && P().plan == Some(plan) && moves >= old(moves)
      ensures !reply.Refused? && (calm ==> reply.Done?)
      ensures reply.Done? ==> P().state == StateAfter(reply.status) && Settled(P(), commitOf(plan))
      ensures reply.Done? ==>
                && (read.Some? <==> plan.expected == base && Reaches(env))
                && (again.Some? <==> read == Some(plan.expected) && env.rereadable)
                && SeenAs(reply.status, env, plan.expected == base, read, again, plan.expected, commitOf(plan))
      ensures writes == old(writes) ||
              (writes == old(writes) + [(base, commitOf(plan))] && read == Some(base) && env.takesEffect)
      ensures reply.Done? && !foreign ==> (reply.status, ref) == PublishOutcome(old(ref), commitOf(plan), base, env)
    {
      hide LedgerInv, ReleasedBy, MovedTogether, PublishOutcome, Replay, RefInv, Settled;
      var stop := *;
      read, again := None, None;
      if stop && !calm { return Crashed, None, None; }
      var status;
      status, read, again := PublishCommit(plan, env);
      stop := *;
      if stop && !calm { return Crashed, read, again; }
      var recorded;
      ghost var effects := P().effects;
      match status {
        case Conflict =>
          recorded := RecordOutcome(actor, Failed, None, ReleaseFailed, "target changed", calm);
          if recorded { MovedIsSettled(effects, P(), Failed, None, commitOf(plan)); }
        case Unresolved =>
          recorded := RecordOutcome(actor, Unknown, None, ManualRecoveryRequired, "not reconciled", calm);
          if recorded { MovedIsSettled(effects, P(), Unknown, None, commitOf(plan)); }
        case _ =>
          recorded := RecordOutcome(actor, EffectCommitted, Some(commitOf(plan)), Committed, "", calm);
          if recorded { MovedIsSettled(effects, P(), EffectCommitted, Some(commitOf(plan)), commitOf(plan)); }
      }
      if !recorded { return NotStored, read, again; }
      return Done(status), read, again;
    }

    /** releaseTransaction, from the ledger it finds. */
    method ReleaseTransaction(actor: Principal, now: int, env: Env, calm: bool)
      returns (reply: Reply, ghost read: Option<string>, ghost again: Option<string>)
      requires Valid()
      modifies this
      ensures Valid()
      ensures P().plan == old(P().plan) && moves >= old(moves)
      ensures old(P().state) in PostRelease || moves > 0 ==> P().state in PostRelease
      ensures old(P().state) == ReadyToCommit ==> P().state in PostRelease + {ReadyToCommit}
      ensures reply.Refused? <==> !old(Proceeds(actor, now, env))
      ensures reply.Refused? ==> log == old(log) && ref == old(ref) && moves == old(moves)
      ensures reply.Done? ==> P().state == StateAfter(reply.status) && Settled(P(), commitOf(old(P().plan.value)))
      ensures calm ==> reply.Done? || reply.Refused?
      ensures reply.Done? ==>
                var commit := commitOf(old(P().plan.value));
                && (P().state == Committed <==> read == Some(commit) || again == Some(commit))
                && (P().state == ReleaseFailed <==>
                      || (old(P().plan.value).expected == base && env.workspaceValid && Barred(env))
                      || (read.Some? && read.value != commit && read.value != base)
                      || again == Some(base))
      ensures writes == old(writes) ||
              (&& old(P().plan.Some?) && writes == old(writes) + [(base, commitOf(old(P().plan.value)))]
               && read == Some(base) && env.takesEffect)
      ensures reply.Done? && !foreign ==>
                (reply.status, ref) == PublishOutcome(old(ref), commitOf(old(P().plan.value)), base, env)
    {
      hide LedgerInv, AuthorityHolds, ReleasedBy, VerificationsCurrent, PublishOutcome, Replay, RefInv, Settled;
      var proceeds := MayRelease(actor, now, env);
      read, again := None, None;
      if !proceeds { return Refused, None, None; }
      var projection := Replay(log).value;
      if projection.state == ReadyToCommit {
        var ok := Journal(actor, now, env, calm);
        if !ok { return NotStored, None, None; }
      }
      reply, read, again := Publish(actor, projection.plan.value, env, calm);
    }

    /** Crash recovery. After any number of interrupted calls by anybody at any
        times, one undisturbed call commits exactly when it gets past the worktree
        listing to the ref, and the ref already moved or is seen to move now; held
        says whether it had moved before that call. The release fails exactly when
        the call is barred there or sees the ref refuse to move, and is left to
        manual recovery in every other case. */
    method CrashAndRetry(interrupted: seq<(Principal, int, Env)>, actor: Principal, now: int, last: Env)
      returns (reply: Reply, ghost held: bool)
      requires Valid() && !foreign && P().state in {ReadyToCommit, Committing} && P().plan.Some?
      requires last.allowed && last.stageMatches && last.prepares
      modifies this
      ensures Valid() && P().plan == old(P().plan)
      ensures reply.Done? || (reply.Refused? && P().state != Committing)
      ensures old(moves) == 1 && reply.Done? ==> held
      ensures reply.Done? ==>
                && (P().state == Committed <==> Publishes(last, held))
                && (P().state == ReleaseFailed <==> Rejects(last, held))
                && (P().state !in {Committed, ReleaseFailed} ==> P().state == ManualRecoveryRequired)
      ensures var commit := commitOf(old(P().plan.value));
              reply.Done? ==>
                if held || (Reaches(last) && last.takesEffect) then ref == commit && moves == 1
                else ref == base && moves == 0
    {
      hide LedgerInv, ReleasedBy, RefInv, Replay, PublishOutcome, AuthorityHolds, VerificationsCurrent;
      for i := 0 to |interrupted|
        invariant Valid() && P().state in PostRelease + {ReadyToCommit}
        invariant P().plan == old(P().plan) && moves >= old(moves)
      {
        if P().state == ReadyToCommit || P().state == Committing {
          var _, _, _ := ReleaseTransaction(interrupted[i].0, interrupted[i].1, interrupted[i].2, false);
        }
      }
      RefStands();
      ghost var before := ref;
      held := P().state == Committing && ref == commitOf(P().plan.value);
      ghost var read, again;
      reply, read, again := ReleaseTransaction(actor, now, last, true);
      RefStands();
      if reply.Done? {
        RetryVerdict(before, commitOf(P().plan.value), base, last);
        assert held <==> before == commitOf(P().plan.value);
      }
    }

    /** With a plan and no other writer, the ref is at the plan's base until it
        moves, once, to the prepared commit. */
    lemma RefStands()
      requires Valid() && !foreign && P().plan.Some?
      ensures var commit := commitOf(P().plan.value);
              && commit != base && P().plan.value.expected == base
              && ref == (if moves == 0 then base else commit) && moves <= 1
              && (P().state !in PostRelease ==> moves == 0)
    {
      hide LedgerInv, ReleasedBy;
    }

    /** A crash between the publication and its record, then a retry that finds
        the target checked out, or cannot list the worktrees: the release ends
        failed although the ref holds the prepared commit. */
    method MovedYetFailed(actor: Principal, now: int, plan: Plan, package: Package, env: Env,
                          retrier: Principal, later: int, retry: Env)
      returns (reply: Reply)
      requires Valid() && !foreign && CanPrepare(P(), plan, package, []) && plan.expected == base
      requires package.requiredClasses == [] && now < package.expiresAt
      requires package.policyDigest == plan.policyDigest == env.policyDigest
      requires VerificationsCurrent(P().verifications, now)
      requires env.allowed && env.stageMatches && env.profilesHold && env.prepares
      requires Publishes(env, false)
      requires retry.allowed && retry.stageMatches && retry.prepares && retry.workspaceValid && Barred(retry)
      modifies this
      ensures Valid() && P().state == ReleaseFailed && ref == commitOf(plan) && moves == 1
      ensures P().plan == Some(plan) && reply == Done(Conflict)
    {
      hide LedgerInv, CanPrepare, ReleasedBy, VerificationsCurrent, Replay, PrepareBatch, RefInv;
      PreparesFromValidating(P(), plan, package, []);
      var ok := FreezeAuthority(actor, plan, package, [], true);
      RefStands();
      ok := Journal(actor, now, env, true);
      var status, read, again := PublishCommit(plan, env);
      RefStands();
      reply, read, again := ReleaseTransaction(retrier, later, retry, true);
      RefStands();
    }

    /** End to end, undisturbed: a ripe transaction that needs no approval is
        prepared and, within the package's hour, released; it ends committed with
        the ref moved once. */
    method PrepareAndRelease(actor: Principal, env: Env, target: string, digestOf: Digest, preparedAt: int, now: int)
      returns (reply: Reply)
      requires Valid() && !foreign && Ripe(P(), SequenceAllow, preparedAt)
      requires now < preparedAt + PackageLifetime && VerificationsCurrent(P().verifications, now)
      requires env.allowed && env.stageMatches && env.profilesHold && env.prepares
      requires Publishes(env, false)
      modifies this
      ensures Valid() && P().state == Committed && P().plan.Some? && P().plan.value.target == target
      ensures moves == 1 && ref == commitOf(P().plan.value) && writes == [(base, ref)]
      ensures reply == Done(if env.reportsError then Reconciled else Applied)
    {
      hide LedgerInv, CanPrepare, ReleasedBy, VerificationsCurrent, Replay, PrepareBatch, Ripe;
      var ok := PrepareTransaction(actor, env, SequenceAllow, target, "", digestOf, preparedAt, true);
      ReadyRef();
      ghost var read, again;
      reply, read, again := ReleaseTransaction(actor, now, env, true);
      RefFacts();
    }

    /** Before a release begins the ref is where the plan expects it. */
    lemma ReadyRef()
      requires Valid() && !foreign && P().state !in PostRelease
      ensures ref == base && moves == 0
      ensures P().plan.Some? ==> commitOf(P().plan.value) != base
    {
      hide LedgerInv;
    }
  }

  lemma RipeOutcome(p: Projection, outcome: SequenceOutcome, now: int)
    requires Ripe(p, outcome, now)
    ensures outcome == SequenceAllow || outcome == SequenceRequireApproval
  {
  }

  lemma PreparesFromValidating(p: Projection, plan: Plan, package: Package, outstanding: seq<string>)
    requires CanPrepare(p, plan, package, outstanding)
    ensures p.state == Validating
  {
  }

  lemma PrepareBatchNonempty(actor: Principal, plan: Plan, package: Package, outstanding: seq<string>)
    ensures PrepareBatch(actor, plan, package, outstanding) != []
  {
  }

  method CheckVerifications(results: seq<Verification>, now: int) returns (ok: bool)
    ensures ok <==> VerificationsCurrent(results, now)
  {
    for i := 0 to |results|
      invariant VerificationsCurrent(results[..i], now)
    {
      if !results[i].status.Passed? || (results[i].expiresAt.Some? && results[i].expiresAt.value <= now) { return false; }
      assert results[..i + 1] == results[..i] + [results[i]];
    }
    assert results[..|results|] == results;
    return true;
  }

  lemma OutcomeParts(p: Projection, actor: Principal, to: EffectStatus, receipt: Option<string>, state: TransactionState, reason: string)
    requires ApplyAll(p, OutcomeBatch(p.effects, actor, to, receipt, state, reason)).Some?
    ensures ApplyAll(p, Changes(p.effects, EffectCommitting, to, receipt, actor)).Some?
  {
    ApplyAllConcat(p, Changes(p.effects, EffectCommitting, to, receipt, actor), [StateEvent(actor, Committing, state, reason)]);
  }

  /** Between the two loops every releasable effect is release-ready. */
  lemma BetweenLoops(p: Projection, temporary: Projection, actor: Principal)
    requires LedgerInv(p) && p.state == ReadyToCommit && temporary.state == ReadyToCommit
    requires temporary.effects == Moved(p.effects, ReleaseReady, None)
    ensures var next := Apply(temporary, StateEvent(actor, ReadyToCommit, Committing, ""));
            && next.Some? && next.value.effects == temporary.effects
            && Movable(next.value.effects, next.value.state, ReleaseReady, EffectCommitting, None)
  {
    hide DistinctIDs, ValidEffects, ReleaseIDs;
    MovedFacts(p.effects, ReleaseReady, None);
  }

  /** The two loops and the state event between them. */
  method BuildJournal(p: Projection, actor: Principal) returns (events: seq<Event>)
    requires LedgerInv(p) && p.state == ReadyToCommit
    ensures events == ReleaseBatch(p.effects, actor)
  {
    hide Changes, DistinctIDs, ValidEffects, Apply, ApplyAll, MovedTogether, AllReleasable;
    ChangesMoveAll(p, Validated, ReleaseReady, None, actor);
    NoChanges(p, Validated, ReleaseReady, None, actor);
    var ok, temporary;
    ok, temporary, events := AppendChanges(p, p.effects, Validated, ReleaseReady, None, actor, [], p);
    var stateEvent := StateEvent(actor, ReadyToCommit, Committing, "");
    BetweenLoops(p, temporary, actor);
    ApplyAllSnoc(p, events, stateEvent);
    events := events + [stateEvent];
    temporary := Apply(temporary, stateEvent).value;
    ChangesByID(p.effects, temporary.effects, ReleaseReady, EffectCommitting, actor);
    ChangesMoveAll(temporary, ReleaseReady, EffectCommitting, None, actor);
    ok, temporary, events := AppendChanges(temporary, temporary.effects, ReleaseReady, EffectCommitting, None, actor, events, p);
  }

  lemma {:induction false} ChangesHaveNoApprovals(effects: seq<Effect>, from: EffectStatus, to: EffectStatus, receipt: Option<string>, actor: Principal)
    ensures NoApprovals(Changes(effects, from, to, receipt, actor), actor)
  {
    if effects != [] { ChangesHaveNoApprovals(effects[..|effects| - 1], from, to, receipt, actor); }
  }

  lemma JournalHasNoApprovals(effects: seq<Effect>, actor: Principal)
    ensures NoApprovals(ReleaseBatch(effects, actor), actor)
  {
    hide Changes;
    ChangesHaveNoApprovals(effects, Validated, ReleaseReady, None, actor);
    ChangesHaveNoApprovals(effects, ReleaseReady, EffectCommitting, None, actor);
  }

  const WitnessEffect := Effect("effect", false, false, EffectStaged, None)

  const WitnessResult := Verification("result", "suite", Passed, true, None)

  /** A fresh transaction with one staged effect, about to be verified. */
  method StagedService(someone: Principal) returns (service: ReleaseService)
    ensures fresh(service) && service.Valid() && !service.foreign && service.base == "base"
    ensures service.P() == StagedWith(someone, WitnessEffect)
  {
    hide LedgerInv, Replay, ReleasedBy, RefInv, ApplyAll, StagingEvents, StagedWith, OtherHandler;
    assert forall p: Plan :: |p.expected + "+"| == |p.expected| + 1;
    service := new ReleaseService((p: Plan) => p.expected + "+", (d, p, n) => false, "base", false, "base", someone, []);
    StartSteps(someone, WitnessEffect);
    StagingIsOther(someone, WitnessEffect);
    service.OtherHandlers(StagingEvents(someone, WitnessEffect), true);
  }

  /** The failing cases from nothing: a transaction is created, one effect staged,
      validated and prepared, its ref moved, and the retry after the crash finds
      the branch checked out or cannot list the worktrees. */
  method BarredRetryWitness(listed: bool) returns (service: ReleaseService)
    ensures fresh(service) && service.Valid() && service.P().state == ReleaseFailed
    ensures service.P().plan.Some? && service.ref == service.commitOf(service.P().plan.value) && service.moves == 1
  {
    hide LedgerInv, CanPrepare, Replay, MayVerify, FreshResult, Verified, ReleasedBy, RefInv,
         StagedWith, VerificationsCurrent, ValidationBatch, AllValidated;
    var someone := Principal("operator", "", "");
    var plan := Plan("refs/heads/release", "base", "policy", ["effect"]);
    var package := Package("package", "policy", [], 2);
    service := StagedService(someone);
    ghost var staged := service.P();
    ReadyToVerify(staged, WitnessEffect, WitnessResult, plan, package);
    var ok := service.VerifyTransaction(WitnessResult, someone, someone, 0, true);
    VerifiedToPrepare(staged, service.P(), WitnessEffect, WitnessResult, plan, package);
    var env := Env(true, true, true, "policy", true, true, true, false, true, true, false, true);
    var _ := service.MovedYetFailed(someone, 1, plan, package, env, someone, 1,
                                   env.(worktreesListed := listed, checkedOut := listed));
  }

  function StagingEvents(actor: Principal, effect: Effect): seq<Event> {
    [StateEvent(actor, Created, Running, ""), Event(actor, EffectAdded(effect)),
     Event(actor, TransactionStaged), StateEvent(actor, Staged, Validating, "")]
  }

  function StagedWith(sponsor: Principal, effect: Effect): Projection {
    Start(sponsor, []).(sequence := 5, state := Validating, effects := [effect])
  }

  lemma BeginsRunning(p: Projection, actor: Principal)
    requires p == Start(actor, [])
    ensures Apply(p, StateEvent(actor, Created, Running, "")) == Some(p.(sequence := 2, state := Running))
  {
    assert Invalidated(p) == p;
    assert ApplyStateChange(p, Created, Running, "", []) == Some(p.(state := Running));
  }

  lemma AddsEffect(p: Projection, actor: Principal, effect: Effect)
    requires p.state == Running && p.effects == [] && ValidEffect(effect)
    ensures Apply(p, Event(actor, EffectAdded(effect))) == Some(p.(sequence := p.sequence + 1, effects := [effect]))
  {
    assert p.effects + [effect] == [effect];
  }

  lemma Stages(p: Projection, actor: Principal)
    requires p.state == Running && p.effects != []
    ensures Apply(p, Event(actor, TransactionStaged)) == Some(p.(sequence := p.sequence + 1, state := Staged))
  {
  }

  lemma BeginsValidating(p: Projection, actor: Principal)
    requires p.state == Staged
    ensures Apply(p, StateEvent(actor, Staged, Validating, "")) == Some(p.(sequence := p.sequence + 1, state := Validating))
  {
  }

  lemma StartSteps(actor: Principal, effect: Effect)
    requires effect == WitnessEffect
    ensures ApplyAll(Start(actor, []), StagingEvents(actor, effect)) == Some(StagedWith(actor, effect))
  {
    hide Apply, ApplyAll, StateEvent;
    var e := StagingEvents(actor, effect);
    var p0 := Start(actor, []);
    var p1 := p0.(sequence := 2, state := Running);
    var p2 := p1.(sequence := 3, effects := [effect]);
    var p3 := p2.(sequence := 4, state := Staged);
    BeginsRunning(p0, actor);
    AddsEffect(p1, actor, effect);
    Stages(p2, actor);
    BeginsValidating(p3, actor);
    ApplyThree(p0, e[0], e[1], e[2]);
    ApplyAllSnoc(p0, [e[0], e[1], e[2]], e[3]);
    assert [e[0], e[1], e[2]] + [e[3]] == e;
  }

  lemma StagingIsOther(actor: Principal, effect: Effect)
    requires effect.status == EffectStaged
    ensures var events := StagingEvents(actor, effect);
            events != [] && forall i :: 0 <= i < |events| ==> OtherHandler(events[i].payload)
  {
  }

  lemma ReadyToVerify(p: Projection, effect: Effect, result: Verification, plan: Plan, package: Package)
    requires exists sponsor :: p == StagedWith(sponsor, effect)
    ensures MayVerify(p, result.name, 0) && FreshResult(p, result)
  {
  }

  lemma VerifiedToPrepare(p: Projection, q: Projection, effect: Effect, result: Verification, plan: Plan, package: Package)
    requires exists sponsor :: p == StagedWith(sponsor, effect)
    requires effect == WitnessEffect
    requires result == WitnessResult
    requires plan.steps == ["effect"] && package.requiredClasses == []
    requires q == Verified(p, result).(sequence := q.sequence)
    ensures CanPrepare(q, plan, package, []) && VerificationsCurrent(q.verifications, 1)
  {
    assert q.effects == [effect.(status := Validated)] && q.verifications == [result];
    assert q.effects[..0] == [] && ReleaseIDs([]) == [];
  }
}
