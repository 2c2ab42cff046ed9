/** The transaction ledger (internal/kernel/transaction/reducer.go): which
    batches the reducer accepts, and what every accepted history keeps. */
module Ledger {
  import opened Text

  datatype Principal = Principal(id: string, issuer: string, claimsDigest: string)

  datatype TransactionState =
    | Created | Running | Staged | Validating | ValidationFailed | ReviseRequired
    | PendingApproval | ReadyToCommit | Committing | Committed | ReleaseFailed
    | Compensating | RolledBack | PartiallyCommitted | ManualRecoveryRequired
    | Blocked | CompletedNoEffect | Aborted

  datatype EffectStatus =
    | Proposed | EffectStaged | Validated | ReleaseReady | EffectCommitting | EffectCommitted
    | Unknown | EffectCompensating | Compensated | EffectBlocked | Rejected | Failed | EffectManual

  predicate CanTransition(from: TransactionState, to: TransactionState) {
    match from
    case Created => to in {Running, Blocked, Aborted}
    case Running => to in {CompletedNoEffect, Staged, Blocked, Aborted}
    case Staged => to in {Running, Validating, Blocked, Aborted}
    case Validating => to in {ValidationFailed, ReviseRequired, Blocked, PendingApproval, ReadyToCommit, Aborted}
    case ValidationFailed => to in {Running, Validating, Aborted}
    case ReviseRequired => to in {Running, Aborted}
    case PendingApproval => to in {ReadyToCommit, ReviseRequired, Blocked, Aborted}
    case ReadyToCommit => to in {Committing, ReviseRequired, Blocked, Aborted}
    case Committing => to in {Committed, ReleaseFailed, Compensating, PartiallyCommitted, ManualRecoveryRequired}
    case Compensating => to in {RolledBack, PartiallyCommitted, ManualRecoveryRequired}
    case _ => false
  }

  predicate CanTransitionEffect(from: EffectStatus, to: EffectStatus) {
    match from
    case Proposed => to in {EffectStaged, EffectBlocked, Rejected, Failed}
    case EffectStaged => to in {Validated, EffectBlocked, Rejected, Failed}
    case Validated => to in {ReleaseReady, EffectBlocked, Rejected}
    case ReleaseReady => to in {EffectCommitting, Rejected}
    case EffectCommitting => to in {EffectCommitted, Failed, Unknown, EffectManual}
    case EffectCommitted => to in {EffectCompensating, EffectManual}
    case Unknown => to in {EffectCommitted, Failed, EffectManual}
    case EffectCompensating => to in {Compensated, Failed, Unknown, EffectManual}
    case _ => false
  }

  /** The same moves by where they lead. */
  lemma WaysInto(from: TransactionState, to: TransactionState)
    ensures CanTransition(from, to) <==>
            match to
            case Created => false
            case Running => from in {Created, Staged, ValidationFailed, ReviseRequired}
            case Staged => from == Running
            case Validating => from in {Staged, ValidationFailed}
            case ValidationFailed => from == Validating
            case ReviseRequired => from in {Validating, PendingApproval, ReadyToCommit}
            case PendingApproval => from == Validating
            case ReadyToCommit => from in {Validating, PendingApproval}
            case Committing => from == ReadyToCommit
            case Committed => from == Committing
            case ReleaseFailed => from == Committing
            case Compensating => from == Committing
            case RolledBack => from == Compensating
            case PartiallyCommitted => from in {Committing, Compensating}
            case ManualRecoveryRequired => from in {Committing, Compensating}
            case Blocked => from in {Created, Running, Staged, Validating, PendingApproval, ReadyToCommit}
            case CompletedNoEffect => from == Running
            case Aborted => from in {Created, Running, Staged, Validating, ValidationFailed, ReviseRequired,
                                     PendingApproval, ReadyToCommit}
  {
  }

  lemma EffectWaysInto(from: EffectStatus, to: EffectStatus)
    ensures CanTransitionEffect(from, to) <==>
            match to
            case Proposed => false
            case EffectStaged => from == Proposed
            case Validated => from == EffectStaged
            case ReleaseReady => from == Validated
            case EffectCommitting => from == ReleaseReady
            case EffectCommitted => from in {EffectCommitting, Unknown}
            case Unknown => from in {EffectCommitting, EffectCompensating}
            case EffectCompensating => from == EffectCommitted
            case Compensated => from == EffectCompensating
            case EffectBlocked => from in {Proposed, EffectStaged, Validated}
            case Rejected => from in {Proposed, EffectStaged, Validated, ReleaseReady}
            case Failed => from in {Proposed, EffectStaged, EffectCommitting, Unknown, EffectCompensating}
            case EffectManual => from in {EffectCommitting, EffectCommitted, Unknown, EffectCompensating}
  {
  }

  predicate RequiresReason(s: TransactionState) {
    s in {ValidationFailed, ReviseRequired, Blocked, ReleaseFailed, PartiallyCommitted, ManualRecoveryRequired, Aborted}
  }

  datatype Effect = Effect(id: string, readOnly: bool, irreversible: bool, status: EffectStatus, receipt: Option<string>)

  predicate RequiresReceipt(s: EffectStatus) { s in {EffectCommitted, EffectCompensating, Compensated} }

  predicate ValidEffect(e: Effect) { e.id != "" && (RequiresReceipt(e.status) ==> e.receipt.Some?) }

  datatype VerificationStatus = Passed | VerificationFailed | Inconclusive

  datatype Verification = Verification(
    id: string, name: string, status: VerificationStatus, platformRun: bool, expiresAt: Option<int>)

  /** A frozen plan: the target ref, the revision it must still be at, and the
      releasable effects in order. */
  datatype Plan = Plan(target: string, expected: string, policyDigest: string, steps: seq<string>)

  datatype Package = Package(digest: string, policyDigest: string, requiredClasses: seq<string>, expiresAt: int)

  datatype Verdict = Approve | Reject | Revise

  datatype Decision = Decision(
    digest: string, packageDigest: string, approvalID: string, approvalClass: string,
    approver: Principal, verdict: Verdict, reason: string, expiresAt: int)

  datatype Payload =
    | TransactionCreated(sponsor: Principal, agentRunIDs: seq<string>)
    | StateChanged(from: TransactionState, to: TransactionState, reason: string, outstanding: seq<string>)
    | EffectAdded(effect: Effect)
    | EffectChanged(effectID: string, was: EffectStatus, becomes: EffectStatus, receipt: Option<string>)
    | TransactionStaged
    | VerificationRecorded(result: Verification)
    | VerificationSuperseded(verificationID: string, why: string, at: int)
    | PlanFrozen(plan: Plan)
    | PackageFrozen(package: Package)
    | AuthorityRenewed(why: string, at: int)
    | ApprovalResolved(decision: Decision)
    | ExecutionRecorded

  datatype Event = Event(actor: Principal, payload: Payload)

  datatype Projection = Projection(
    sequence: nat,
    sponsor: Principal,
    agentRunIDs: seq<string>,
    state: TransactionState,
    effects: seq<Effect>,
    verifications: seq<Verification>,
    supersededVerifications: seq<Verification>,
    plan: Option<Plan>,
    package: Option<Package>,
    outstanding: seq<string>,
    approvalDigests: seq<string>)

  // ---- helpers of the reducer ---------------------------------------------------------

  function EffectIndex(effects: seq<Effect>, id: string): Option<nat> {
    if effects == [] then None
    else if effects[0].id == id then Some(0)
    else
      match EffectIndex(effects[1..], id)
      case None => None
      case Some(i) => Some(i + 1)
  }

  /** Every effect that takes part in a release has this status. */
  predicate AllReleasable(effects: seq<Effect>, s: EffectStatus) {
    forall i :: 0 <= i < |effects| ==> effects[i].readOnly || effects[i].status == s
  }

  predicate HasStatus(effects: seq<Effect>, statuses: set<EffectStatus>) {
    exists i :: 0 <= i < |effects| && effects[i].status in statuses
  }

  function ReleaseIDs(effects: seq<Effect>): seq<string> {
    if effects == [] then []
    else
      var last := effects[|effects| - 1];
      ReleaseIDs(effects[..|effects| - 1]) + if last.readOnly then [] else [last.id]
  }

  predicate PassingVerification(results: seq<Verification>) {
    results != [] && forall i :: 0 <= i < |results| ==> results[i].status.Passed? && results[i].platformRun
  }

  predicate NoFailedVerification(results: seq<Verification>) {
    results != [] && forall i :: 0 <= i < |results| ==> !results[i].status.VerificationFailed?
  }

  function Remove<T(==)>(s: seq<T>, x: T): seq<T> {
    if s == [] then [] else if s[0] == x then s[1..] else [s[0]] + Remove(s[1..], x)
  }

  function Current(results: seq<Verification>, at: int): seq<Verification> {
    if results == [] then []
    else (if Unexpired(results[0], at) then [results[0]] else []) + Current(results[1..], at)
  }

  function Expired(results: seq<Verification>, at: int): seq<Verification> {
    if results == [] then []
    else (if Unexpired(results[0], at) then [] else [results[0]]) + Expired(results[1..], at)
  }

  /** validateStatePreconditions */
  predicate StatePreconditions(p: Projection, to: TransactionState, outstanding: seq<string>) {
    match to
    case CompletedNoEffect => p.effects == []
    case PendingApproval =>
      p.plan.Some? && p.package.Some? && outstanding != [] && NoFailedVerification(p.verifications)
    case ReadyToCommit =>
      p.plan.Some? && p.package.Some? && p.package.value.requiredClasses == [] && outstanding == []
      && PassingVerification(p.verifications)
    case Committing => AllReleasable(p.effects, ReleaseReady)
    case Committed => AllReleasable(p.effects, EffectCommitted)
    case Compensating => HasStatus(p.effects, {EffectCommitted})
    case RolledBack =>
      forall i :: 0 <= i < |p.effects| ==>
        p.effects[i].readOnly
        || p.effects[i].status !in {EffectCommitted, EffectCompensating, Unknown, EffectManual}
    case ReleaseFailed => HasStatus(p.effects, {Failed})
    case PartiallyCommitted => HasStatus(p.effects, {EffectCommitted, Unknown, EffectManual, Failed})
    case ManualRecoveryRequired => HasStatus(p.effects, {Unknown, EffectManual, EffectCommitted})
    case _ => true
  }

  /** validateEffectTransitionContext */
  predicate EffectContext(state: TransactionState, from: EffectStatus, to: EffectStatus) {
    match to
    case Validated => state == Validating
    case ReleaseReady => state == ReadyToCommit
    case EffectCommitting => state in {Committing, Compensating}
    case EffectCommitted => state in {Committing, Compensating}
    case Unknown => state in {Committing, Compensating}
    case Failed => from in {EffectCommitting, EffectCompensating} ==> state in {Committing, Compensating}
    case EffectCompensating => state == Compensating
    case Compensated => state == Compensating
    case _ => true
  }

  /** invalidateFrozenState */
  function Invalidated(p: Projection): Projection {
    p.(effects := [], verifications := [], supersededVerifications := [], plan := None,
       package := None, outstanding := [], approvalDigests := [])
  }

  function ApplyStateChange(p: Projection, from: TransactionState, to: TransactionState, reason: string, outstanding: seq<string>): Option<Projection> {
    if from != p.state || !CanTransition(from, to) || to == Staged || from == PendingApproval
       || (RequiresReason(to) && reason == "") || !StatePreconditions(p, to, outstanding)
    then None
    else
      var q := if to == Running then Invalidated(p) else p;
      Some(q.(state := to, outstanding := if to == PendingApproval then outstanding else q.outstanding))
  }

  function ApplyEffectChange(p: Projection, id: string, from: EffectStatus, to: EffectStatus, receipt: Option<string>): Option<Projection> {
    match EffectIndex(p.effects, id)
    case None => None
    case Some(i) =>
      EffectIndexBound(p.effects, id);
      var e := p.effects[i];
      var changed := e.(status := to, receipt := if receipt.Some? then receipt else e.receipt);
      if e.status != from || !CanTransitionEffect(from, to) || !EffectContext(p.state, from, to) || !ValidEffect(changed)
      then None
      else Some(p.(effects := p.effects[i := changed]))
  }

  function ApplyApproval(p: Projection, actor: Principal, d: Decision): Option<Projection> {
    if p.state != PendingApproval || p.package.None? || d.packageDigest != p.package.value.digest
       || d.approver != actor || d.approvalClass !in p.package.value.requiredClasses
       || d.approvalID !in p.outstanding
    then None
    else
      match d.verdict
      case Approve =>
        var q := p.(outstanding := Remove(p.outstanding, d.approvalID),
                    approvalDigests := p.approvalDigests + [d.digest]);
        if q.outstanding != [] then Some(q)
        else if PassingVerification(p.verifications) then Some(q.(state := ReadyToCommit))
        else None
      case Reject => Some(p.(state := Blocked, outstanding := []))
      case Revise => Some(p.(state := ReviseRequired, outstanding := []))
  }

  /** The first result with an ID. */
  function ResultByID(results: seq<Verification>, id: string): Option<Verification> {
    if results == [] then None
    else if results[0].id == id then Some(results[0]) else ResultByID(results[1..], id)
  }

  /** The first result with a name. */
  function ResultByName(results: seq<Verification>, name: string): Option<Verification> {
    if results == [] then None
    else if results[0].name == name then Some(results[0]) else ResultByName(results[1..], name)
  }

  predicate Unexpired(v: Verification, at: int) { v.expiresAt.Some? ==> at < v.expiresAt.value }

  function ApplySuperseded(p: Projection, id: string, why: string, at: int): Option<Projection> {
    match ResultByID(p.verifications, id)
    case None => None
    case Some(result) =>
      if p.state != Validating || why == "" || (result.status.Passed? && Unexpired(result, at)) then None
      else Some(p.(verifications := Remove(p.verifications, result),
                   supersededVerifications := p.supersededVerifications + [result]))
  }

  /** Apply on a live projection, without the sequence and digest checks that
      EventChain covers. */
  function ApplyPayload(p: Projection, actor: Principal, payload: Payload): Option<Projection> {
    match payload
    case TransactionCreated(_, _) => None
    case StateChanged(from, to, reason, outstanding) => ApplyStateChange(p, from, to, reason, outstanding)
    case EffectAdded(e) =>
      if p.state == Running && ValidEffect(e) && EffectIndex(p.effects, e.id).None?
      then Some(p.(effects := p.effects + [e])) else None
    case EffectChanged(id, from, to, receipt) => ApplyEffectChange(p, id, from, to, receipt)
    case TransactionStaged =>
      if p.state == Running && p.effects != [] then Some(p.(state := Staged)) else None
    case VerificationRecorded(result) =>
      if p.state == Validating && ResultByID(p.verifications, result.id).None?
         && ResultByName(p.verifications, result.name).None?
         && ResultByID(p.supersededVerifications, result.id).None?
      then Some(p.(verifications := p.verifications + [result])) else None
    case VerificationSuperseded(id, why, at) => ApplySuperseded(p, id, why, at)
    case PlanFrozen(plan) =>
      if p.state == Validating && plan.steps != [] && plan.steps == ReleaseIDs(p.effects)
      then Some(p.(plan := Some(plan))) else None
    case PackageFrozen(package) =>
      if p.state == Validating && p.plan.Some? then Some(p.(package := Some(package))) else None
    case AuthorityRenewed(why, at) =>
      if p.state !in {PendingApproval, ReadyToCommit} || why == "" || p.plan.None? || p.package.None? then None
      else Some(p.(state := Validating, outstanding := [], plan := None, package := None,
                   approvalDigests := [], verifications := Current(p.verifications, at),
                   supersededVerifications := p.supersededVerifications + Expired(p.verifications, at)))
    case ApprovalResolved(d) => ApplyApproval(p, actor, d)
    case ExecutionRecorded => if p.state == Running then Some(p) else None
  }

  function Apply(p: Projection, e: Event): Option<Projection> {
    match ApplyPayload(p, e.actor, e.payload)
    case None => None
    case Some(q) => Some(q.(sequence := p.sequence + 1))
  }

  function ApplyAll(p: Projection, events: seq<Event>): Option<Projection> {
    if events == [] then Some(p)
    else
      match ApplyAll(p, events[..|events| - 1])
      case None => None
      case Some(q) => Apply(q, events[|events| - 1])
  }

  /** The projection of a transaction's creation event. */
  function Start(sponsor: Principal, agentRunIDs: seq<string>): Projection {
    Projection(1, sponsor, agentRunIDs, Created, [], [], [], None, None, [], [])
  }

  function Replay(log: seq<Event>): Option<Projection> {
    if log == [] || !log[0].payload.TransactionCreated? then None
    else
      ApplyAll(Start(log[0].payload.sponsor, log[0].payload.agentRunIDs),
               log[1..])
  }

  /** store.AppendTransactionEvents: compare the sequence, reduce the whole
      batch, append all of it or nothing. */
  function AppendBatch(log: seq<Event>, expected: nat, events: seq<Event>): Option<seq<Event>> {
    match Replay(log)
    case None => None
    case Some(p) =>
      if events != [] && p.sequence == expected && ApplyAll(p, events).Some? then Some(log + events) else None
  }

  lemma {:induction false} EffectIndexBound(effects: seq<Effect>, id: string)
    ensures match EffectIndex(effects, id)
            case None => forall i :: 0 <= i < |effects| ==> effects[i].id != id
            case Some(i) => i < |effects| && effects[i].id == id && forall j :: 0 <= j < i ==> effects[j].id != id
  {
    if effects != [] { EffectIndexBound(effects[1..], id); }
  }

  lemma {:induction false} RemovesOne(s: seq<string>, x: string)
    requires x in s
    ensures multiset(Remove(s, x)) == multiset(s) - multiset{x} && |Remove(s, x)| == |s| - 1
  {
    assert s == [s[0]] + s[1..];
    if s[0] != x { RemovesOne(s[1..], x); }
  }

  /** What each verdict of an accepted approval does. Only the last outstanding
      approval makes a transaction ready, and only over passing verifications. */
  lemma ApprovalMeaning(p: Projection, actor: Principal, d: Decision)
    requires Apply(p, Event(actor, ApprovalResolved(d))).Some?
    ensures var q := Apply(p, Event(actor, ApprovalResolved(d))).value;
            && p.state == PendingApproval && d.approver == actor && d.approvalID in p.outstanding
            && p.package.Some? && d.packageDigest == p.package.value.digest
            && d.approvalClass in p.package.value.requiredClasses
            && q.effects == p.effects && q.plan == p.plan && q.package == p.package && q.verifications == p.verifications
            && match d.verdict
               case Approve =>
                 && multiset(q.outstanding) == multiset(p.outstanding) - multiset{d.approvalID}
                 && q.approvalDigests == p.approvalDigests + [d.digest]
                 && (if |p.outstanding| > 1 then q.state == PendingApproval
                     else q.state == ReadyToCommit && p.verifications != []
                          && forall v <- p.verifications :: v.status.Passed? && v.platformRun)
               case Reject => q.state == Blocked && q.outstanding == [] && q.approvalDigests == p.approvalDigests
               case Revise => q.state == ReviseRequired && q.outstanding == [] && q.approvalDigests == p.approvalDigests
  {
    RemovesOne(p.outstanding, d.approvalID);
  }

  lemma {:induction false} ApplyAllConcat(p: Projection, a: seq<Event>, b: seq<Event>)
    ensures ApplyAll(p, a + b) ==
            match ApplyAll(p, a) case None => None case Some(q) => ApplyAll(q, b)
  {
    if b == [] {
      assert a + b == a;
    } else {
      var init := b[..|b| - 1];
      ApplyAllConcat(p, a, init);
      assert (a + b)[..|a + b| - 1] == a + init;
    }
  }

  lemma ApplyAllSnoc(p: Projection, events: seq<Event>, e: Event)
    ensures ApplyAll(p, events + [e]) ==
            match ApplyAll(p, events) case None => None case Some(q) => Apply(q, e)
  {
    assert (events + [e])[..|events|] == events;
  }

  lemma {:induction false} ApplyAllSequence(p: Projection, events: seq<Event>)
    requires ApplyAll(p, events).Some?
    ensures ApplyAll(p, events).value.sequence == p.sequence + |events|
  {
    if events != [] { ApplyAllSequence(p, events[..|events| - 1]); }
  }

  lemma ReplaySequence(log: seq<Event>)
    requires Replay(log).Some?
    ensures Replay(log).value.sequence == |log|
  {
    var p := Start(log[0].payload.sponsor, log[0].payload.agentRunIDs);
    ApplyAllSequence(p, log[1..]);
  }

  /** Appending reduces the batch on top of the current projection. */
  lemma ReplayAppend(log: seq<Event>, events: seq<Event>)
    requires Replay(log).Some?
    ensures Replay(log + events) == ApplyAll(Replay(log).value, events)
  {
    var p := Start(log[0].payload.sponsor, log[0].payload.agentRunIDs);
    assert (log + events)[1..] == log[1..] + events;
    ApplyAllConcat(p, log[1..], events);
  }
}
