/** What every accepted transaction history has been through, whoever appended
    its events (internal/kernel/transaction/reducer.go:341-377, 420-1100). */
module Lifecycle {
  import opened Text
  import opened Ledger
  import Lockstep

  /** States reached only through staging. */
  predicate WasStaged(s: TransactionState) {
    s !in {Created, Running, Blocked, CompletedNoEffect, Aborted}
  }

  /** States reached only with authority to commit. */
  predicate WasReady(s: TransactionState) {
    s in {ReadyToCommit, Committing, Committed, ReleaseFailed, Compensating, RolledBack, PartiallyCommitted,
          ManualRecoveryRequired}
  }

  /** Nothing of an attempt is left over. */
  predicate Bare(p: Projection) {
    && p.verifications == [] && p.supersededVerifications == [] && p.plan == None && p.package == None
    && p.outstanding == [] && p.approvalDigests == []
  }

  predicate LifeInv(p: Projection) {
    && (p.state == Created ==> Bare(p) && p.effects == [])
    && (p.state in {Running, Staged, CompletedNoEffect} ==> Bare(p))
    && (p.state == CompletedNoEffect ==> p.effects == [])
    && (WasStaged(p.state) ==> p.effects != [])
    && (p.package.Some? ==> p.plan.Some?)
    && (p.plan.Some? ==> p.plan.value.steps != [] && p.plan.value.steps == ReleaseIDs(p.effects))
    && (p.state == PendingApproval <==> p.outstanding != [])
    && (p.state in {Validating, ValidationFailed} ==> p.approvalDigests == [])
    && (p.state == PendingApproval ==>
          p.package.Some? && p.verifications != [] && forall v <- p.verifications :: v.status != VerificationFailed)
    && (WasReady(p.state) ==>
          p.package.Some? && p.verifications != [] && forall v <- p.verifications :: v.status == Passed && v.platformRun)
    && (p.state == ReadyToCommit && p.package.value.requiredClasses == [] ==> p.approvalDigests == [])
  }

  lemma {:induction false} SameReleaseIDs(effects: seq<Effect>, i: nat, e: Effect)
    requires i < |effects| && e.id == effects[i].id && e.readOnly == effects[i].readOnly
    ensures ReleaseIDs(effects[i := e]) == ReleaseIDs(effects)
  {
    var n := |effects| - 1;
    var after := effects[i := e];
    if i < n {
      SameReleaseIDs(effects[..n], i, e);
      assert after[..n] == effects[..n][i := e];
    } else {
      assert after[..n] == effects[..n];
    }
  }

  lemma ChangeStep(p: Projection, from: TransactionState, to: TransactionState, reason: string, outstanding: seq<string>)
    requires LifeInv(p) && ApplyStateChange(p, from, to, reason, outstanding).Some?
    ensures LifeInv(ApplyStateChange(p, from, to, reason, outstanding).value)
  {
    hide ReleaseIDs;
    assert forall v <- p.verifications :: v.status.Passed? || v.status.VerificationFailed? || v.status.Inconclusive?;
  }

  lemma EffectStep(p: Projection, id: string, from: EffectStatus, to: EffectStatus, receipt: Option<string>)
    requires LifeInv(p) && ApplyEffectChange(p, id, from, to, receipt).Some?
    ensures LifeInv(ApplyEffectChange(p, id, from, to, receipt).value)
  {
    hide ReleaseIDs, EffectIndex, CanTransitionEffect, EffectContext, ValidEffect;
    EffectIndexBound(p.effects, id);
    var i := EffectIndex(p.effects, id).value;
    SameReleaseIDs(p.effects, i, ApplyEffectChange(p, id, from, to, receipt).value.effects[i]);
  }

  lemma ApprovalStep(p: Projection, actor: Principal, d: Decision)
    requires LifeInv(p) && ApplyApproval(p, actor, d).Some?
    ensures LifeInv(ApplyApproval(p, actor, d).value)
  {
    hide ReleaseIDs, Remove;
    RemovesOne(p.outstanding, d.approvalID);
  }

  lemma RecordStep(p: Projection, actor: Principal, payload: Payload)
    requires LifeInv(p) && ApplyPayload(p, actor, payload).Some?
    requires !payload.StateChanged? && !payload.EffectChanged? && !payload.ApprovalResolved?
    ensures LifeInv(ApplyPayload(p, actor, payload).value)
  {
    hide ReleaseIDs, Current, Expired, Remove, EffectIndex, ResultByID, ResultByName;
  }

  lemma LifeStep(p: Projection, e: Event)
    requires LifeInv(p) && Apply(p, e).Some?
    ensures LifeInv(Apply(p, e).value)
  {
    hide LifeInv, ApplyStateChange, ApplyEffectChange, ApplyApproval;
    match e.payload {
      case StateChanged(from, to, reason, outstanding) => ChangeStep(p, from, to, reason, outstanding);
      case EffectChanged(id, from, to, receipt) => EffectStep(p, id, from, to, receipt);
      case ApprovalResolved(d) => ApprovalStep(p, e.actor, d);
      case _ => RecordStep(p, e.actor, e.payload);
    }
    LifeSequence(ApplyPayload(p, e.actor, e.payload).value, p.sequence + 1);
  }

  lemma LifeSequence(p: Projection, n: nat)
    requires LifeInv(p)
    ensures LifeInv(p.(sequence := n))
  {
  }

  lemma {:induction false} LifeRuns(p: Projection, events: seq<Event>)
    requires LifeInv(p) && ApplyAll(p, events).Some?
    ensures LifeInv(ApplyAll(p, events).value)
  {
    hide LifeInv, Apply;
    if events != [] {
      LifeRuns(p, events[..|events| - 1]);
      LifeStep(ApplyAll(p, events[..|events| - 1]).value, events[|events| - 1]);
    }
  }

  /** Every accepted history keeps it. */
  lemma LifeKept(log: seq<Event>)
    requires Replay(log).Some?
    ensures LifeInv(Replay(log).value)
  {
    LifeRuns(Start(log[0].payload.sponsor, log[0].payload.agentRunIDs), log[1..]);
  }

  // ---- what is accepted ---------------------------------------------------------------

  /** States that need a reason to enter. */
  const Explained := [ValidationFailed, ReviseRequired, Blocked, ReleaseFailed, PartiallyCommitted,
                      ManualRecoveryRequired, Aborted]

  predicate SomeHas(p: Projection, statuses: seq<EffectStatus>) { exists e <- p.effects :: e.status in statuses }

  predicate Each(p: Projection, status: EffectStatus) { forall e <- p.effects :: e.readOnly || e.status == status }

  /** What a state change needs besides its place in the transition table, target by
      target. */
  predicate MayEnter(p: Projection, to: TransactionState, reason: string, outstanding: seq<string>) {
    && (to in Explained ==> reason != "")
    && to != Staged && p.state != PendingApproval
    && (to == CompletedNoEffect ==> p.effects == [])
    && (to == PendingApproval ==>
          && p.plan.Some? && p.package.Some? && outstanding != []
          && p.verifications != [] && forall v <- p.verifications :: v.status in [Passed, Inconclusive])
    && (to == ReadyToCommit ==>
          && p.plan.Some? && p.package.Some? && outstanding == p.package.value.requiredClasses == []
          && p.verifications != [] && forall v <- p.verifications :: v.status == Passed && v.platformRun)
    && (to == Committing ==> Each(p, ReleaseReady))
    && (to == Committed ==> Each(p, EffectCommitted))
    && (to == Compensating ==> SomeHas(p, [EffectCommitted]))
    && (to == RolledBack ==>
          forall e <- p.effects :: e.readOnly || e.status !in [EffectCommitted, EffectCompensating, Unknown, EffectManual])
    && (to == ReleaseFailed ==> SomeHas(p, [Failed]))
    && (to == PartiallyCommitted ==> SomeHas(p, [EffectCommitted, Failed, Unknown, EffectManual]))
    && (to == ManualRecoveryRequired ==> SomeHas(p, [EffectCommitted, Unknown, EffectManual]))
  }

  lemma ChangeAccepted(p: Projection, actor: Principal, from: TransactionState, to: TransactionState, reason: string,
                       outstanding: seq<string>)
    ensures var q := Apply(p, Event(actor, StateChanged(from, to, reason, outstanding)));
            && (q.Some? <==> p.state == from && CanTransition(from, to) && MayEnter(p, to, reason, outstanding))
            && (q.Some? && to == Running ==>
                  Bare(q.value) && q.value.effects == [] && q.value.state == Running
                  && (q.value.sponsor, q.value.agentRunIDs) == (p.sponsor, p.agentRunIDs))
            && (q.Some? && to != Running ==>
                  q.value == p.(state := to, sequence := p.sequence + 1,
                                outstanding := if to == PendingApproval then outstanding else p.outstanding))
  {
    hide StatePreconditions, MayEnter, CanTransition, RequiresReason;
    MayEnterMeaning(p, to, reason, outstanding);
  }

  lemma MayEnterMeaning(p: Projection, to: TransactionState, reason: string, outstanding: seq<string>)
    ensures MayEnter(p, to, reason, outstanding) <==>
            && to != Staged && p.state != PendingApproval
            && (RequiresReason(to) ==> reason != "") && StatePreconditions(p, to, outstanding)
  {
    hide RequiresReason, Explained, AllReleasable, HasStatus, Each, SomeHas, NoFailedVerification, PassingVerification;
    ExplainedMeaning(to);
    EffectsMeaning(p);
    ResultsMeaning(p.verifications);
  }

  lemma ResultsMeaning(results: seq<Verification>)
    ensures NoFailedVerification(results) <==> results != [] && forall v <- results :: v.status in [Passed, Inconclusive]
    ensures PassingVerification(results) <==> results != [] && forall v <- results :: v.status == Passed && v.platformRun
  {
    assert forall i :: 0 <= i < |results| ==> results[i] in results;
  }

  /** Quantifying over effects or over their positions is the same. */
  lemma EffectsMeaning(p: Projection)
    ensures forall s :: AllReleasable(p.effects, s) <==> Each(p, s)
    ensures HasStatus(p.effects, {EffectCommitted}) <==> SomeHas(p, [EffectCommitted])
    ensures HasStatus(p.effects, {Failed}) <==> SomeHas(p, [Failed])
    ensures HasStatus(p.effects, {EffectCommitted, Unknown, EffectManual, Failed})
            <==> SomeHas(p, [EffectCommitted, Failed, Unknown, EffectManual])
    ensures HasStatus(p.effects, {Unknown, EffectManual, EffectCommitted})
            <==> SomeHas(p, [EffectCommitted, Unknown, EffectManual])
    ensures forall i :: 0 <= i < |p.effects| ==> p.effects[i] in p.effects
  {
  }

  lemma ExplainedMeaning(s: TransactionState)
    ensures RequiresReason(s) <==> s in Explained
  {
  }

  /** Where an effect may take a status, status by status. */
  predicate InPlace(state: TransactionState, from: EffectStatus, to: EffectStatus) {
    && (to == Validated ==> state == Validating)
    && (to == ReleaseReady ==> state == ReadyToCommit)
    && (to in [EffectCommitting, EffectCommitted, Unknown] ==> state == Committing || state == Compensating)
    && (to == Failed && (from == EffectCommitting || from == EffectCompensating) ==>
          state == Committing || state == Compensating)
    && (to in [EffectCompensating, Compensated] ==> state == Compensating)
  }

  /** An effect change is accepted exactly for the first effect with that ID, in its
      status, in place, and with a receipt once it was carried out. */
  lemma EffectAccepted(p: Projection, actor: Principal, id: string, from: EffectStatus, to: EffectStatus, receipt: Option<string>)
    ensures var q := Apply(p, Event(actor, EffectChanged(id, from, to, receipt)));
            && (q.Some? <==>
                  exists i :: 0 <= i < |p.effects| && First(p.effects, id, i) && p.effects[i].status == from
                    && CanTransitionEffect(from, to) && InPlace(p.state, from, to) && id != ""
                    && (to in [EffectCommitted, EffectCompensating, Compensated] ==>
                          receipt.Some? || p.effects[i].receipt.Some?))
            && (q.Some? ==>
                  exists i :: 0 <= i < |p.effects| && First(p.effects, id, i)
                    && q.value == p.(sequence := p.sequence + 1, effects := p.effects[i := p.effects[i].(
                                       status := to, receipt := if receipt.Some? then receipt else p.effects[i].receipt)]))
  {
    hide CanTransitionEffect;
    EffectIndexBound(p.effects, id);
    InPlaceMeaning(p.state, from, to);
    if EffectIndex(p.effects, id).Some? {
      var i := EffectIndex(p.effects, id).value;
      assert First(p.effects, id, i);
      assert forall j :: 0 <= j < |p.effects| && First(p.effects, id, j) ==> j == i;
    }
  }

  predicate First(effects: seq<Effect>, id: string, i: nat) {
    i < |effects| && effects[i].id == id && forall j :: 0 <= j < i ==> effects[j].id != id
  }

  lemma InPlaceMeaning(state: TransactionState, from: EffectStatus, to: EffectStatus)
    ensures EffectContext(state, from, to) <==> InPlace(state, from, to)
  {
  }

  predicate UpToDate(v: Verification, at: int) { match v.expiresAt case None => true case Some(t) => at < t }

  lemma {:induction false} RenewedResults(results: seq<Verification>, at: int)
    ensures forall v :: v in Current(results, at) <==> v in results && UpToDate(v, at)
    ensures forall v :: v in Expired(results, at) <==> v in results && !UpToDate(v, at)
  {
    if results != [] {
      RenewedResults(results[1..], at);
      assert results == [results[0]] + results[1..];
    }
  }

  /** What staging, verification and authority events need, and what they leave. */
  lemma RecordAccepted(p: Projection, actor: Principal, payload: Payload)
    ensures var q := Apply(p, Event(actor, payload));
            match payload
            case TransactionCreated(_, _) => q == None
            case EffectAdded(e) =>
              && (q.Some? <==>
                    && p.state == Running && e.id != "" && (forall other <- p.effects :: other.id != e.id)
                    && (e.status in [EffectCommitted, EffectCompensating, Compensated] ==> e.receipt.Some?))
              && (q.Some? ==> q.value == p.(effects := p.effects + [e], sequence := p.sequence + 1))
            case TransactionStaged =>
              && (q.Some? <==> p.state == Running && p.effects != [])
              && (q.Some? ==> q.value == p.(state := Staged, sequence := p.sequence + 1))
            case VerificationRecorded(r) =>
              && (q.Some? <==>
                    && p.state == Validating && (forall v <- p.verifications :: v.id != r.id && v.name != r.name)
                    && forall v <- p.supersededVerifications :: v.id != r.id)
              && (q.Some? ==> q.value == p.(verifications := p.verifications + [r], sequence := p.sequence + 1))
            case PlanFrozen(plan) =>
              && (q.Some? <==> p.state == Validating && plan.steps != [] && plan.steps == ReleaseIDs(p.effects))
              && (q.Some? ==> q.value == p.(plan := Some(plan), sequence := p.sequence + 1))
            case PackageFrozen(package) =>
              && (q.Some? <==> p.state == Validating && p.plan.Some?)
              && (q.Some? ==> q.value == p.(package := Some(package), sequence := p.sequence + 1))
            case AuthorityRenewed(why, at) =>
              && (q.Some? <==>
                    && (p.state == PendingApproval || p.state == ReadyToCommit) && why != "" && p.plan.Some? && p.package.Some?)
              && (q.Some? ==>
                    && q.value.state == Validating && q.value.plan == None && q.value.package == None
                    && q.value.outstanding == q.value.approvalDigests == [] && q.value.effects == p.effects
                    && (forall v :: v in q.value.verifications <==> v in p.verifications && UpToDate(v, at))
                    && (forall v :: v in q.value.supersededVerifications <==>
                          v in p.supersededVerifications || (v in p.verifications && !UpToDate(v, at))))
            case ExecutionRecorded =>
              (q.Some? <==> p.state == Running) && (q.Some? ==> q.value == p.(sequence := p.sequence + 1))
            case _ => true
  {
    hide ReleaseIDs, Current, Expired, ResultByID, ResultByName, EffectIndex;
    match payload
    case EffectAdded(e) =>
      EffectIndexBound(p.effects, e.id);
      assert forall i :: 0 <= i < |p.effects| ==> p.effects[i] in p.effects;
    case VerificationRecorded(r) =>
      Lockstep.ResultByIDBound(p.verifications, r.id);
      Lockstep.ResultByNameBound(p.verifications, r.name);
      Lockstep.ResultByIDBound(p.supersededVerifications, r.id);
    case AuthorityRenewed(_, at) => RenewedResults(p.verifications, at);
    case _ =>
  }

  /** A result is superseded, with a reason, unless it is a current pass; it moves
      to the history. */
  lemma SupersessionAccepted(p: Projection, actor: Principal, id: string, why: string, at: int)
    requires Lockstep.DistinctResults(p.verifications)
    ensures var q := Apply(p, Event(actor, VerificationSuperseded(id, why, at)));
            && (q.Some? <==>
                  && p.state == Validating && why != ""
                  && exists v <- p.verifications :: v.id == id && (v.status != Passed || !UpToDate(v, at)))
            && (q.Some? ==>
                  exists v <- p.verifications ::
                    && v.id == id && q.value.supersededVerifications == p.supersededVerifications + [v]
                    && multiset(q.value.verifications) == multiset(p.verifications) - multiset{v}
                    && q.value == p.(verifications := q.value.verifications, sequence := p.sequence + 1,
                                     supersededVerifications := p.supersededVerifications + [v]))
  {
    hide Remove;
    Lockstep.ResultByIDBound(p.verifications, id);
    if v :| v in p.verifications && v.id == id {
      var first := ResultByID(p.verifications, id).value;
      SameResult(p.verifications, v, first);
      RemovesResult(p.verifications, v);
    }
  }

  lemma SameResult(results: seq<Verification>, v: Verification, w: Verification)
    requires Lockstep.DistinctResults(results) && v in results && w in results && v.id == w.id
    ensures v == w
  {
    var i :| 0 <= i < |results| && results[i] == v;
    var j :| 0 <= j < |results| && results[j] == w;
  }

  lemma {:induction false} RemovesResult(results: seq<Verification>, v: Verification)
    requires v in results
    ensures multiset(Remove(results, v)) == multiset(results) - multiset{v}
  {
    assert results == [results[0]] + results[1..];
    if results[0] != v { RemovesResult(results[1..], v); }
  }

  // ---- where approvals come from ------------------------------------------------------

  /** The approvals of a stretch of history, in order. */
  function Approvals(events: seq<Event>): seq<Decision> {
    if events == [] then []
    else
      var last := events[|events| - 1];
      Approvals(events[..|events| - 1]) + if last.payload.ApprovalResolved? then [last.payload.decision] else []
  }

  lemma ApprovalsSnoc(events: seq<Event>, e: Event)
    ensures Approvals(events + [e]) == Approvals(events) + if e.payload.ApprovalResolved? then [e.payload.decision] else []
  {
    assert (events + [e])[..|events|] == events;
  }

  function IDs(decisions: seq<Decision>): seq<string> {
    seq(|decisions|, i requires 0 <= i < |decisions| => decisions[i].approvalID)
  }

  function Digests(decisions: seq<Decision>): seq<string> {
    seq(|decisions|, i requires 0 <= i < |decisions| => decisions[i].digest)
  }

  /** A decision that approves this package for one of its classes. */
  predicate Approves(d: Decision, package: Package) {
    d.verdict == Approve && d.packageDigest == package.digest && d.approvalClass in package.requiredClasses
  }

  /** From event k on, exactly the approvals asked for there, less those still
      outstanding, have been given, each for this package. */
  predicate GivenSince(log: seq<Event>, p: Projection, k: nat) {
    && k < |log| && log[k].payload.StateChanged? && log[k].payload.to == PendingApproval && p.package.Some?
    && var given := Approvals(log[k + 1..]);
       && multiset(log[k].payload.outstanding) == multiset(p.outstanding) + multiset(IDs(given))
       && p.approvalDigests == Digests(given)
       && (forall d <- given :: Approves(d, p.package.value))
       && forall i :: k < i < |log| && log[i].payload.ApprovalResolved? ==> log[i].actor == log[i].payload.decision.approver
  }

  predicate AwaitsApproval(p: Projection) {
    p.state == PendingApproval || (WasReady(p.state) && p.package.Some? && p.package.value.requiredClasses != [])
  }

  /** While authority is awaited or held, only approvals touch what is outstanding
      and given. */
  lemma AccountKept(p: Projection, e: Event)
    requires AwaitsApproval(p) && Apply(p, e).Some? && AwaitsApproval(Apply(p, e).value)
    requires !e.payload.ApprovalResolved? && !(e.payload.StateChanged? && e.payload.to == PendingApproval)
    ensures var q := Apply(p, e).value;
            q.outstanding == p.outstanding && q.approvalDigests == p.approvalDigests && q.package == p.package
  {
    hide ReleaseIDs, Current, Expired, Remove, EffectIndex, ResultByID, ResultByName, StatePreconditions;
  }

  lemma GivenStep(log: seq<Event>, e: Event, k: nat)
    requires Replay(log).Some? && GivenSince(log, Replay(log).value, k) && AwaitsApproval(Replay(log).value)
    requires Apply(Replay(log).value, e).Some? && AwaitsApproval(Apply(Replay(log).value, e).value)
    requires !(e.payload.StateChanged? && e.payload.to == PendingApproval)
    ensures GivenSince(log + [e], Apply(Replay(log).value, e).value, k)
  {
    hide Replay, Apply, AwaitsApproval, Approvals;
    var p := Replay(log).value;
    var given := Approvals(log[k + 1..]);
    assert (log + [e])[k + 1..] == log[k + 1..] + [e] && (log + [e])[k] == log[k];
    ApprovalsSnoc(log[k + 1..], e);
    if e.payload.ApprovalResolved? {
      var d := e.payload.decision;
      assert e == Event(e.actor, ApprovalResolved(d));
      AwaitedApproval(p, e);
      assert IDs(given + [d]) == IDs(given) + [d.approvalID];
      assert Digests(given + [d]) == Digests(given) + [d.digest];
    } else {
      AccountKept(p, e);
      assert given + [] == given;
    }
  }

  lemma AwaitedApproval(p: Projection, e: Event)
    requires e.payload.ApprovalResolved? && Apply(p, e).Some? && AwaitsApproval(Apply(p, e).value)
    ensures var d, q := e.payload.decision, Apply(p, e).value;
            && q.package == p.package && p.package.Some? && Approves(d, p.package.value) && d.approver == e.actor
            && multiset(p.outstanding) == multiset(q.outstanding) + multiset{d.approvalID}
            && q.approvalDigests == p.approvalDigests + [d.digest]
  {
    assert e == Event(e.actor, ApprovalResolved(e.payload.decision));
    ApprovalMeaning(p, e.actor, e.payload.decision);
  }

  /** Asking opens the account: nothing has been given yet. */
  lemma GivenOpens(log: seq<Event>, e: Event)
    requires Replay(log).Some? && LifeInv(Replay(log).value) && Apply(Replay(log).value, e).Some?
    requires e.payload.StateChanged? && e.payload.to == PendingApproval
    ensures GivenSince(log + [e], Apply(Replay(log).value, e).value, |log|)
  {
    hide Replay;
    assert (log + [e])[|log| + 1..] == [];
  }

  /** No event makes authority needed that was neither asked for nor given. */
  lemma AwaitsOnlyAfterAsking(p: Projection, e: Event)
    requires LifeInv(p) && Apply(p, e).Some? && AwaitsApproval(Apply(p, e).value)
    ensures AwaitsApproval(p) || (e.payload.StateChanged? && e.payload.to == PendingApproval)
  {
    hide ReleaseIDs, Current, Expired, Remove, EffectIndex, ResultByID, ResultByName;
  }

  lemma ReplaySnoc(log: seq<Event>, e: Event)
    requires Replay(log + [e]).Some? && log != []
    ensures Replay(log).Some? && Apply(Replay(log).value, e) == Replay(log + [e])
  {
    assert (log + [e])[1..] == log[1..] + [e] && (log + [e])[0] == log[0];
    ApplyAllSnoc(Start(log[0].payload.sponsor, log[0].payload.agentRunIDs), log[1..], e);
  }

  lemma {:induction false} ApprovalsGiven(log: seq<Event>)
    requires Replay(log).Some? && AwaitsApproval(Replay(log).value)
    ensures exists k: nat :: GivenSince(log, Replay(log).value, k)
    decreases |log|
  {
    hide GivenSince, AwaitsApproval, LifeInv, Apply, Replay;
    if |log| <= 1 {
      StartsBare(log);
    } else {
      var init, e := log[..|log| - 1], log[|log| - 1];
      assert log == init + [e];
      ReplaySnoc(init, e);
      LifeKept(init);
      if e.payload.StateChanged? && e.payload.to == PendingApproval {
        GivenOpens(init, e);
      } else {
        AwaitsOnlyAfterAsking(Replay(init).value, e);
        ApprovalsGiven(init);
        var k: nat :| GivenSince(init, Replay(init).value, k);
        GivenStep(init, e, k);
      }
    }
  }

  lemma StartsBare(log: seq<Event>)
    requires Replay(log).Some? && |log| <= 1
    ensures !AwaitsApproval(Replay(log).value)
  {
  }

  /** Authority to commit: in every accepted history that is or was ready, a plan
      over the releasable effects and a package are frozen, every verification is a
      passing platform run, and if the package asks for approvals, then exactly the
      approvals that were asked for have been given, each once, by its approver, for
      this package. */
  lemma ReadyIsAuthorized(log: seq<Event>)
    requires Replay(log).Some? && WasReady(Replay(log).value.state)
    ensures var p := Replay(log).value;
            && p.plan.Some? && p.package.Some? && p.plan.value.steps == ReleaseIDs(p.effects) != []
            && p.verifications != [] && (forall v <- p.verifications :: v.status == Passed && v.platformRun)
            && (p.package.value.requiredClasses != [] ==>
                  exists k: nat ::
                    && k < |log| && log[k].payload.StateChanged? && log[k].payload.to == PendingApproval
                    && var given := Approvals(log[k + 1..]);
                       && multiset(IDs(given)) == multiset(log[k].payload.outstanding)
                       && p.approvalDigests == Digests(given)
                       && (forall d <- given :: Approves(d, p.package.value))
                       && forall i :: k < i < |log| && log[i].payload.ApprovalResolved? ==>
                            log[i].actor == log[i].payload.decision.approver)
  {
    hide Replay, Approves;
    LifeKept(log);
    if Replay(log).value.package.value.requiredClasses != [] {
      ApprovalsGiven(log);
      var k: nat :| GivenSince(log, Replay(log).value, k);
      assert multiset(Replay(log).value.outstanding) == multiset{};
    }
  }
}
