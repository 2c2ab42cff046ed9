/** Effects move together (internal/kernel/api/transaction_handlers.go:2048-2096,
    2258-2329, 2375-2467): the batches the handlers build, why the reducer
    accepts them event by event, and what every durable ledger keeps. */
module Lockstep {
  import opened Text
  import opened Ledger

  predicate DistinctIDs(effects: seq<Effect>) {
    forall i, j :: 0 <= i < j < |effects| ==> effects[i].id != effects[j].id
  }

  predicate ValidEffects(effects: seq<Effect>) {
    forall i :: 0 <= i < |effects| ==> ValidEffect(effects[i])
  }

  // ---- batches -----------------------------------------------------------------------

  function MoveOne(e: Effect, to: EffectStatus, receipt: Option<string>): Effect {
    if e.readOnly then e else e.(status := to, receipt := if receipt.Some? then receipt else e.receipt)
  }

  function Moved(effects: seq<Effect>, to: EffectStatus, receipt: Option<string>): (after: seq<Effect>)
    ensures |after| == |effects|
  {
    seq(|effects|, i requires 0 <= i < |effects| => MoveOne(effects[i], to, receipt))
  }

  /** One event per releasable effect, in order. */
  function Changes(effects: seq<Effect>, from: EffectStatus, to: EffectStatus, receipt: Option<string>, actor: Principal): seq<Event> {
    if effects == [] then []
    else
      var last := effects[|effects| - 1];
      Changes(effects[..|effects| - 1], from, to, receipt, actor)
      + if last.readOnly then [] else [Event(actor, EffectChanged(last.id, from, to, receipt))]
  }

  function StateEvent(actor: Principal, from: TransactionState, to: TransactionState, reason: string): Event {
    Event(actor, StateChanged(from, to, reason, []))
  }

  /** The journal a release writes before it touches the ref. */
  function ReleaseBatch(effects: seq<Effect>, actor: Principal): seq<Event> {
    Changes(effects, Validated, ReleaseReady, None, actor)
    + [StateEvent(actor, ReadyToCommit, Committing, "")]
    + Changes(effects, ReleaseReady, EffectCommitting, None, actor)
  }

  function OutcomeBatch(effects: seq<Effect>, actor: Principal, to: EffectStatus, receipt: Option<string>,
                        state: TransactionState, reason: string): seq<Event> {
    Changes(effects, EffectCommitting, to, receipt, actor) + [StateEvent(actor, Committing, state, reason)]
  }

  lemma IndexIsUnique(effects: seq<Effect>, k: nat)
    requires DistinctIDs(effects) && k < |effects|
    ensures EffectIndex(effects, effects[k].id) == Some(k)
  {
    hide EffectIndex;
    EffectIndexBound(effects, effects[k].id);
    var found := EffectIndex(effects, effects[k].id);
    assert found.Some?;
  }

  /** Effects moved up to k, the rest as they were. */
  function Partly(effects: seq<Effect>, k: nat, to: EffectStatus, receipt: Option<string>): seq<Effect>
    requires k <= |effects|
  {
    Moved(effects[..k], to, receipt) + effects[k..]
  }

  lemma PartlyAt(effects: seq<Effect>, k: nat, to: EffectStatus, receipt: Option<string>, i: nat)
    requires k <= |effects| && i < |effects|
    ensures |Partly(effects, k, to, receipt)| == |effects|
    ensures Partly(effects, k, to, receipt)[i] == if i < k then MoveOne(effects[i], to, receipt) else effects[i]
  {
  }

  lemma PartlyDistinct(effects: seq<Effect>, k: nat, to: EffectStatus, receipt: Option<string>)
    requires k < |effects| && DistinctIDs(effects)
    ensures DistinctIDs(Partly(effects, k, to, receipt))
  {
    hide Partly;
    var before := Partly(effects, k, to, receipt);
    PartlyAt(effects, k, to, receipt, 0);
    forall i | 0 <= i < |effects| ensures before[i].id == effects[i].id {
      PartlyAt(effects, k, to, receipt, i);
    }
  }

  lemma PartlyStep(effects: seq<Effect>, k: nat, to: EffectStatus, receipt: Option<string>)
    requires k < |effects| && DistinctIDs(effects)
    ensures var before := Partly(effects, k, to, receipt);
            && |before| == |effects| && before[k] == effects[k] && DistinctIDs(before)
            && Partly(effects, k + 1, to, receipt) == before[k := MoveOne(effects[k], to, receipt)]
  {
    hide Partly, DistinctIDs;
    var before, after := Partly(effects, k, to, receipt), Partly(effects, k + 1, to, receipt);
    PartlyDistinct(effects, k, to, receipt);
    PartlyAt(effects, k, to, receipt, k);
    PartlyAt(effects, k + 1, to, receipt, k);
    forall i | 0 <= i < |effects| ensures after[i] == before[k := MoveOne(effects[k], to, receipt)][i] {
      PartlyAt(effects, k, to, receipt, i);
      PartlyAt(effects, k + 1, to, receipt, i);
    }
  }

  predicate Movable(effects: seq<Effect>, state: TransactionState, from: EffectStatus, to: EffectStatus, receipt: Option<string>) {
    && DistinctIDs(effects) && ValidEffects(effects) && AllReleasable(effects, from)
    && CanTransitionEffect(from, to) && EffectContext(state, from, to)
    && (RequiresReceipt(to) ==> receipt.Some?)
  }

  /** One more effect moves when its turn comes. */
  lemma ChangeAccepted(p: Projection, q: Projection, k: nat, from: EffectStatus, to: EffectStatus,
                       receipt: Option<string>, actor: Principal)
    requires k < |p.effects| && Movable(p.effects, p.state, from, to, receipt) && !p.effects[k].readOnly
    requires q.state == p.state && q.effects == Partly(p.effects, k, to, receipt)
    ensures Apply(q, Event(actor, EffectChanged(p.effects[k].id, from, to, receipt)))
            == Some(q.(effects := Partly(p.effects, k + 1, to, receipt), sequence := q.sequence + 1))
  {
    hide Partly, EffectContext, CanTransitionEffect, DistinctIDs;
    PartlyStep(p.effects, k, to, receipt);
    assert ValidEffect(p.effects[k]);
    IndexIsUnique(q.effects, k);
  }

  /** The reducer accepts the whole batch, event by event, when every releasable
      effect stands at its start, and moves all of them. */
  lemma {:induction false} ChangesAccepted(p: Projection, k: nat, from: EffectStatus, to: EffectStatus,
                                           receipt: Option<string>, actor: Principal)
    requires Movable(p.effects, p.state, from, to, receipt) && k <= |p.effects|
    ensures var q := ApplyAll(p, Changes(p.effects[..k], from, to, receipt, actor));
            && q.Some?
            && q.value == p.(effects := Partly(p.effects, k, to, receipt), sequence := q.value.sequence)
  {
    hide Movable, Apply, DistinctIDs, ApplyAll, Changes, Partly;
    NoChanges(p, from, to, receipt, actor);
    var effects := p.effects;
    if k == 0 {
      assert effects[..0] == [];
    } else {
      ChangesAccepted(p, k - 1, from, to, receipt, actor);
      ChangesStep(effects, k - 1, from, to, receipt, actor);
      var before := Changes(effects[..k - 1], from, to, receipt, actor);
      var e := effects[k - 1];
      if e.readOnly {
        PartlyReadOnly(effects, k - 1, to, receipt);
      } else {
        var change := Event(actor, EffectChanged(e.id, from, to, receipt));
        ChangeAccepted(p, ApplyAll(p, before).value, k - 1, from, to, receipt, actor);
        ApplyAllSnoc(p, before, change);
      }
    }
  }

  lemma ChangesStep(effects: seq<Effect>, k: nat, from: EffectStatus, to: EffectStatus, receipt: Option<string>, actor: Principal)
    requires k < |effects|
    ensures Changes(effects[..k + 1], from, to, receipt, actor) ==
            if effects[k].readOnly then Changes(effects[..k], from, to, receipt, actor)
            else Changes(effects[..k], from, to, receipt, actor)
                 + [Event(actor, EffectChanged(effects[k].id, from, to, receipt))]
  {
    assert effects[..k + 1][..k] == effects[..k];
  }

  lemma NoChanges(p: Projection, from: EffectStatus, to: EffectStatus, receipt: Option<string>, actor: Principal)
    ensures Changes([], from, to, receipt, actor) == [] && ApplyAll(p, []) == Some(p)
    ensures Partly(p.effects, 0, to, receipt) == p.effects
  {
  }

  lemma PartlyReadOnly(effects: seq<Effect>, k: nat, to: EffectStatus, receipt: Option<string>)
    requires k < |effects| && effects[k].readOnly
    ensures Partly(effects, k + 1, to, receipt) == Partly(effects, k, to, receipt)
  {
  }

  lemma ChangesMoveAll(p: Projection, from: EffectStatus, to: EffectStatus, receipt: Option<string>, actor: Principal)
    requires Movable(p.effects, p.state, from, to, receipt)
    ensures var q := ApplyAll(p, Changes(p.effects, from, to, receipt, actor));
            && q.Some? && q.value == p.(effects := Moved(p.effects, to, receipt), sequence := q.value.sequence)
    ensures MovedTogether(p.effects, Moved(p.effects, to, receipt), to, receipt)
  {
    ChangesAccepted(p, |p.effects|, from, to, receipt, actor);
    assert p.effects[..|p.effects|] == p.effects;
    assert Partly(p.effects, |p.effects|, to, receipt) == Moved(p.effects, to, receipt);
    MovedFacts(p.effects, to, receipt);
  }

  predicate MovedTogether(before: seq<Effect>, after: seq<Effect>, to: EffectStatus, receipt: Option<string>) {
    && |after| == |before| && AllReleasable(after, to) && DistinctIDs(after) && ValidEffects(after)
    && ReleaseIDs(after) == ReleaseIDs(before)
    && (receipt.Some? ==> forall i :: 0 <= i < |after| ==> after[i].readOnly || after[i].receipt == receipt)
  }

  lemma MovedFacts(effects: seq<Effect>, to: EffectStatus, receipt: Option<string>)
    requires DistinctIDs(effects) && ValidEffects(effects) && (RequiresReceipt(to) ==> receipt.Some?)
    ensures MovedTogether(effects, Moved(effects, to, receipt), to, receipt)
  {
    hide ReleaseIDs, RequiresReceipt;
    var after := Moved(effects, to, receipt);
    forall i | 0 <= i < |after| ensures ValidEffect(after[i]) { assert ValidEffect(effects[i]); }
    assert forall i :: 0 <= i < |effects| ==> after[i].id == effects[i].id;
    ReleaseIDsMoved(effects, to, receipt);
  }

  lemma {:induction false} ReleaseIDsMoved(effects: seq<Effect>, to: EffectStatus, receipt: Option<string>)
    ensures ReleaseIDs(Moved(effects, to, receipt)) == ReleaseIDs(effects)
  {
    if effects != [] {
      var init := effects[..|effects| - 1];
      ReleaseIDsMoved(init, to, receipt);
      assert Moved(effects, to, receipt)[..|init|] == Moved(init, to, receipt);
    }
  }

  lemma {:induction false} ReleaseIDsPresent(effects: seq<Effect>)
    ensures ReleaseIDs(effects) != [] <==> exists i :: 0 <= i < |effects| && !effects[i].readOnly
  {
    if effects != [] {
      var init := effects[..|effects| - 1];
      ReleaseIDsPresent(init);
      if i :| 0 <= i < |init| && !init[i].readOnly { assert !effects[i].readOnly; }
      if i :| 0 <= i < |effects| && !effects[i].readOnly {
        if i < |init| { assert !init[i].readOnly; }
      }
    }
  }

  // ---- what every durable ledger keeps ---------------------------------------------------

  /** Where all releasable effects stand, by transaction state. */
  function Together(s: TransactionState): Option<EffectStatus> {
    match s
    case PendingApproval => Some(Validated)
    case ReadyToCommit => Some(Validated)
    case Committing => Some(EffectCommitting)
    case Committed => Some(EffectCommitted)
    case ReleaseFailed => Some(Failed)
    case ManualRecoveryRequired => Some(Unknown)
    case _ => None
  }

  const PostRelease: set<TransactionState> := {Committing, Committed, ReleaseFailed, ManualRecoveryRequired}

  /** Before a release every effect is staged or validated. */
  predicate InProgress(effects: seq<Effect>) {
    forall i :: 0 <= i < |effects| ==> effects[i].status in {EffectStaged, Validated}
  }

  predicate DistinctResults(results: seq<Verification>) {
    forall i, j :: 0 <= i < j < |results| ==> results[i].id != results[j].id && results[i].name != results[j].name
  }

  predicate LedgerInv(p: Projection) {
    && DistinctIDs(p.effects) && ValidEffects(p.effects) && DistinctResults(p.verifications)
    && (p.state !in PostRelease ==> InProgress(p.effects))
    && p.state !in {Compensating, RolledBack, PartiallyCommitted}
    && (Together(p.state).Some? ==>
          && AllReleasable(p.effects, Together(p.state).value)
          && p.package.Some? && p.plan.Some?
          && p.plan.value.steps == ReleaseIDs(p.effects) && p.plan.value.steps != [])
  }

  /** The payloads of every handler other than prepare and release. */
  predicate OtherHandler(payload: Payload) {
    match payload
    case StateChanged(_, to, _, _) =>
      to in {Running, Validating, ValidationFailed, ReviseRequired, Blocked, CompletedNoEffect, Aborted}
    case EffectAdded(e) => e.status == EffectStaged
    case EffectChanged(_, from, to, _) => from == EffectStaged && to == Validated
    case PlanFrozen(_) => false
    case PackageFrozen(_) => false
    case _ => true
  }

  lemma EffectChangeKeeps(p: Projection, id: string, from: EffectStatus, to: EffectStatus, receipt: Option<string>)
    requires LedgerInv(p) && from == EffectStaged && to == Validated
    requires ApplyEffectChange(p, id, from, to, receipt).Some?
    ensures LedgerInv(ApplyEffectChange(p, id, from, to, receipt).value)
  {
    hide DistinctResults;
    EffectIndexBound(p.effects, id);
  }

  lemma EffectAddedKeeps(p: Projection, e: Effect)
    requires LedgerInv(p) && p.state == Running && ValidEffect(e) && e.status == EffectStaged
    requires EffectIndex(p.effects, e.id).None?
    ensures DistinctIDs(p.effects + [e]) && ValidEffects(p.effects + [e]) && InProgress(p.effects + [e])
  {
    EffectIndexBound(p.effects, e.id);
  }

  // Verification results keep distinct IDs and names.

  lemma {:induction false} ResultByIDBound(results: seq<Verification>, id: string)
    ensures match ResultByID(results, id)
            case None => forall i :: 0 <= i < |results| ==> results[i].id != id
            case Some(v) => v in results && v.id == id
  {
    if results != [] { ResultByIDBound(results[1..], id); }
  }

  lemma {:induction false} ResultByNameBound(results: seq<Verification>, name: string)
    ensures match ResultByName(results, name)
            case None => forall i :: 0 <= i < |results| ==> results[i].name != name
            case Some(v) => v in results && v.name == name
  {
    if results != [] { ResultByNameBound(results[1..], name); }
  }

  lemma {:induction false} DistinctCons(v: Verification, rest: seq<Verification>)
    requires DistinctResults(rest) && forall w <- rest :: w.id != v.id && w.name != v.name
    ensures DistinctResults([v] + rest)
  {
  }

  lemma DistinctTail(results: seq<Verification>)
    requires DistinctResults(results) && results != []
    ensures DistinctResults(results[1..])
    ensures forall w <- results[1..] :: w.id != results[0].id && w.name != results[0].name
  {
  }

  /** Removing a result leaves the others, and nothing with its ID or name. */
  lemma {:induction false} RemoveKeeps(results: seq<Verification>, v: Verification)
    requires DistinctResults(results) && v in results
    ensures DistinctResults(Remove(results, v))
    ensures forall w <- Remove(results, v) :: w in results && w.id != v.id && w.name != v.name
  {
    DistinctTail(results);
    if results[0] != v {
      RemoveKeeps(results[1..], v);
      DistinctCons(results[0], Remove(results[1..], v));
    }
  }

  lemma {:induction false} CurrentKeeps(results: seq<Verification>, at: int)
    requires DistinctResults(results)
    ensures DistinctResults(Current(results, at)) && forall w <- Current(results, at) :: w in results
  {
    if results != [] {
      DistinctTail(results);
      CurrentKeeps(results[1..], at);
      DistinctCons(results[0], Current(results[1..], at));
      assert [] + Current(results[1..], at) == Current(results[1..], at);
    }
  }

  lemma VerificationEventKeeps(p: Projection, e: Event)
    requires LedgerInv(p) && Apply(p, e).Some?
    requires e.payload.VerificationRecorded? || e.payload.VerificationSuperseded? || e.payload.AuthorityRenewed?
    ensures DistinctResults(Apply(p, e).value.verifications)
  {
    match e.payload
    case VerificationRecorded(result) =>
      ResultByIDBound(p.verifications, result.id);
      ResultByNameBound(p.verifications, result.name);
    case VerificationSuperseded(id, _, _) =>
      ResultByIDBound(p.verifications, id);
      RemoveKeeps(p.verifications, ResultByID(p.verifications, id).value);
    case AuthorityRenewed(_, at) => CurrentKeeps(p.verifications, at);
  }

  lemma OtherKeeps(p: Projection, e: Event)
    requires LedgerInv(p) && OtherHandler(e.payload) && Apply(p, e).Some?
    ensures LedgerInv(Apply(p, e).value)
  {
    hide EffectIndex, DistinctResults, InProgress, DistinctIDs, ValidEffects;
    NoEffects();
    match e.payload
    case EffectChanged(id, from, to, receipt) => EffectChangeKeeps(p, id, from, to, receipt);
    case EffectAdded(effect) => EffectAddedKeeps(p, effect);
    case VerificationRecorded(_) => VerificationEventKeeps(p, e);
    case VerificationSuperseded(_, _, _) => VerificationEventKeeps(p, e);
    case AuthorityRenewed(_, _) => VerificationEventKeeps(p, e);
    case ApprovalResolved(_) =>
    case StateChanged(_, _, _, _) =>
    case _ =>
  }

  lemma NoEffects()
    ensures DistinctIDs([]) && ValidEffects([]) && InProgress([]) && DistinctResults([])
  {
  }

  lemma {:induction false} OthersKeep(p: Projection, events: seq<Event>)
    requires LedgerInv(p) && ApplyAll(p, events).Some?
    requires forall i :: 0 <= i < |events| ==> OtherHandler(events[i].payload)
    ensures LedgerInv(ApplyAll(p, events).value)
  {
    if events != [] {
      var init := events[..|events| - 1];
      OthersKeep(p, init);
      OtherKeeps(ApplyAll(p, init).value, events[|events| - 1]);
    }
  }

  /** Other handlers cannot touch a transaction that is committing or done. */
  lemma {:induction false} OthersStayOut(p: Projection, events: seq<Event>)
    requires ApplyAll(p, events).Some?
    requires forall i :: 0 <= i < |events| ==> OtherHandler(events[i].payload)
    requires p.state in {Committing, Committed, ReleaseFailed, ManualRecoveryRequired}
    ensures events == []
  {
    if events != [] {
      var init := events[..|events| - 1];
      OthersStayOut(p, init);
    }
  }

  /** Other handlers never start a release. */
  lemma {:induction false} OthersNeverRelease(p: Projection, events: seq<Event>)
    requires ApplyAll(p, events).Some?
    requires forall i :: 0 <= i < |events| ==> OtherHandler(events[i].payload)
    requires p.state !in {Committing, Committed, ReleaseFailed, ManualRecoveryRequired}
    ensures ApplyAll(p, events).value.state !in {Committing, Committed, ReleaseFailed, ManualRecoveryRequired}
  {
    if events != [] {
      var init := events[..|events| - 1];
      OthersNeverRelease(p, init);
      var q, e := ApplyAll(p, init).value, events[|events| - 1];
      match e.payload
      case EffectChanged(_, _, _, _) =>
      case StateChanged(_, _, _, _) =>
      case ApprovalResolved(_) =>
      case _ =>
    }
  }

  /** Other handlers keep the frozen plan or drop it. */
  lemma {:induction false} OthersKeepPlan(p: Projection, events: seq<Event>)
    requires ApplyAll(p, events).Some?
    requires forall i :: 0 <= i < |events| ==> OtherHandler(events[i].payload)
    ensures ApplyAll(p, events).value.plan in {p.plan, None}
  {
    if events != [] {
      var init := events[..|events| - 1];
      OthersKeepPlan(p, init);
      var q, e := ApplyAll(p, init).value, events[|events| - 1];
      match e.payload
      case EffectChanged(_, _, _, _) =>
      case StateChanged(_, _, _, _) =>
      case ApprovalResolved(_) =>
      case _ =>
    }
  }

  /** PrepareAuthority's batch, with what it checks beforehand. */
  predicate CanPrepare(p: Projection, plan: Plan, package: Package, outstanding: seq<string>) {
    && p.state == Validating && PassingVerification(p.verifications)
    && (forall i :: 0 <= i < |p.effects| ==> p.effects[i].readOnly || p.effects[i].status == Validated)
    && plan.steps == ReleaseIDs(p.effects) && plan.steps != []
    && (package.requiredClasses == [] <==> outstanding == [])
  }

  function PrepareBatch(actor: Principal, plan: Plan, package: Package, outstanding: seq<string>): seq<Event> {
    [ Event(actor, PlanFrozen(plan)), Event(actor, PackageFrozen(package)),
      Event(actor, StateChanged(Validating, if outstanding == [] then ReadyToCommit else PendingApproval, "", outstanding)) ]
  }

  lemma ApplyThree(p: Projection, a: Event, b: Event, c: Event)
    ensures ApplyAll(p, [a, b, c]) ==
            match Apply(p, a) case None => None case Some(q) =>
              match Apply(q, b) case None => None case Some(r) => Apply(r, c)
  {
    assert [a, b, c][..2] == [a, b] && [a, b][..1] == [a] && [a][..0] == [];
    assert ApplyAll(p, []) == Some(p);
    assert ApplyAll(p, [a]) == Apply(p, a);
  }

  lemma PrepareSteps(p: Projection, actor: Principal, plan: Plan, package: Package, outstanding: seq<string>)
    requires CanPrepare(p, plan, package, outstanding)
    ensures var batch := PrepareBatch(actor, plan, package, outstanding);
            var p1 := p.(plan := Some(plan), sequence := p.sequence + 1);
            var p2 := p1.(package := Some(package), sequence := p.sequence + 2);
            && Apply(p, batch[0]) == Some(p1)
            && Apply(p1, batch[1]) == Some(p2)
            && Apply(p2, batch[2]) == Some(p2.(
                 sequence := p.sequence + 3,
                 state := if outstanding == [] then ReadyToCommit else PendingApproval,
                 outstanding := if outstanding == [] then p.outstanding else outstanding))
  {
    hide AllReleasable, HasStatus, ReleaseIDs, PassingVerification, NoFailedVerification;
    PassingIsNotFailed(p.verifications);
  }

  lemma PrepareAccepted(p: Projection, actor: Principal, plan: Plan, package: Package, outstanding: seq<string>)
    requires LedgerInv(p) && CanPrepare(p, plan, package, outstanding)
    ensures var q := ApplyAll(p, PrepareBatch(actor, plan, package, outstanding));
            && q.Some? && LedgerInv(q.value)
            && q.value == p.(plan := Some(plan), package := Some(package), sequence := p.sequence + 3,
                             state := if outstanding == [] then ReadyToCommit else PendingApproval,
                             outstanding := if outstanding == [] then p.outstanding else outstanding)
  {
    hide DistinctIDs, ValidEffects, Apply, ReleaseIDs, ApplyAll;
    var batch := PrepareBatch(actor, plan, package, outstanding);
    PrepareSteps(p, actor, plan, package, outstanding);
    ApplyThree(p, batch[0], batch[1], batch[2]);
  }

  lemma PassingIsNotFailed(results: seq<Verification>)
    requires PassingVerification(results)
    ensures NoFailedVerification(results)
  {
  }

  lemma ApplyOne(p: Projection, e: Event)
    ensures ApplyAll(p, [e]) == Apply(p, e)
  {
    assert [e][..0] == [];
    assert ApplyAll(p, []) == Some(p);
  }

  /** From ready to commit, the release journal is accepted as a whole and
      leaves every releasable effect committing. */
  lemma ReleaseAccepted(p: Projection, actor: Principal)
    requires LedgerInv(p) && p.state == ReadyToCommit
    ensures var q := ApplyAll(p, ReleaseBatch(p.effects, actor));
            && q.Some? && LedgerInv(q.value) && q.value.state == Committing
            && q.value.plan == p.plan && q.value.package == p.package
            && q.value.approvalDigests == p.approvalDigests
            && q.value.sponsor == p.sponsor && q.value.agentRunIDs == p.agentRunIDs
            && ReleaseIDs(q.value.effects) == ReleaseIDs(p.effects)
  {
    hide Changes;
    var a := Changes(p.effects, Validated, ReleaseReady, None, actor);
    var b := [StateEvent(actor, ReadyToCommit, Committing, "")];
    var c := Changes(p.effects, ReleaseReady, EffectCommitting, None, actor);
    ChangesMoveAll(p, Validated, ReleaseReady, None, actor);
    var p1 := ApplyAll(p, a).value;
    ApplyOne(p1, b[0]);
    var p2 := ApplyAll(p1, b).value;
    ChangesByID(p.effects, p2.effects, ReleaseReady, EffectCommitting, actor);
    ChangesMoveAll(p2, ReleaseReady, EffectCommitting, None, actor);
    ApplyAllConcat(p, a, b);
    ApplyAllConcat(p, a + b, c);
  }

  /** The events name effects, so moving statuses does not change them. */
  lemma ChangesByID(before: seq<Effect>, after: seq<Effect>, from: EffectStatus, to: EffectStatus, actor: Principal)
    requires exists s, r :: after == Moved(before, s, r)
    ensures Changes(after, from, to, None, actor) == Changes(before, from, to, None, actor)
  {
    var s, r :| after == Moved(before, s, r);
    ChangesOfMoved(before, s, r, from, to, actor);
  }

  lemma {:induction false} ChangesOfMoved(effects: seq<Effect>, s: EffectStatus, r: Option<string>,
                                          from: EffectStatus, to: EffectStatus, actor: Principal)
    ensures Changes(Moved(effects, s, r), from, to, None, actor) == Changes(effects, from, to, None, actor)
  {
    hide Changes;
    NothingChanges(from, to, actor);
    if effects != [] {
      var n := |effects| - 1;
      ChangesOfMoved(effects[..n], s, r, from, to, actor);
      MovedPrefix(effects, n, s, r);
      ChangesStep(effects, n, from, to, None, actor);
      ChangesStep(Moved(effects, s, r), n, from, to, None, actor);
      assert effects[..n + 1] == effects && Moved(effects, s, r)[..n + 1] == Moved(effects, s, r);
    }
  }

  lemma NothingChanges(from: EffectStatus, to: EffectStatus, actor: Principal)
    ensures Changes([], from, to, None, actor) == []
    ensures forall s, r :: Moved([], s, r) == []
  {
  }

  lemma MovedPrefix(effects: seq<Effect>, n: nat, s: EffectStatus, r: Option<string>)
    requires n < |effects|
    ensures Moved(effects, s, r)[..n] == Moved(effects[..n], s, r)
    ensures Moved(effects, s, r)[n].id == effects[n].id && Moved(effects, s, r)[n].readOnly == effects[n].readOnly
  {
  }

  predicate Outcome(to: EffectStatus, receipt: Option<string>, state: TransactionState, reason: string) {
    || (to == EffectCommitted && receipt.Some? && state == Committed)
    || (to == Failed && receipt.None? && state == ReleaseFailed && reason != "")
    || (to == Unknown && receipt.None? && state == ManualRecoveryRequired && reason != "")
  }

  /** Each of the three outcomes of a publication is accepted as a whole from
      every committing ledger, and settles all releasable effects alike. */
  lemma OutcomeAccepted(p: Projection, actor: Principal, to: EffectStatus, receipt: Option<string>,
                        state: TransactionState, reason: string)
    requires LedgerInv(p) && p.state == Committing && Outcome(to, receipt, state, reason)
    ensures var q := ApplyAll(p, OutcomeBatch(p.effects, actor, to, receipt, state, reason));
            && q.Some? && LedgerInv(q.value) && q.value.state == state && q.value.plan == p.plan
            && MovedTogether(p.effects, q.value.effects, to, receipt)
  {
    hide Changes, Apply, Movable, MovedTogether, LedgerInv;
    var a := Changes(p.effects, EffectCommitting, to, receipt, actor);
    var e := StateEvent(actor, Committing, state, reason);
    CommittingIsMovable(p, to, receipt, state, reason);
    ChangesMoveAll(p, EffectCommitting, to, receipt, actor);
    OutcomeRecorded(p, ApplyAll(p, a).value, actor, to, receipt, state, reason);
    ApplyAllSnoc(p, a, e);
  }

  lemma CommittingIsMovable(p: Projection, to: EffectStatus, receipt: Option<string>, state: TransactionState, reason: string)
    requires LedgerInv(p) && p.state == Committing && Outcome(to, receipt, state, reason)
    ensures Movable(p.effects, p.state, EffectCommitting, to, receipt)
  {
  }

  /** The state event after the effects have moved. */
  lemma OutcomeRecorded(p: Projection, q: Projection, actor: Principal, to: EffectStatus, receipt: Option<string>,
                        state: TransactionState, reason: string)
    requires LedgerInv(p) && p.state == Committing && Outcome(to, receipt, state, reason)
    requires q == p.(effects := q.effects, sequence := q.sequence) && MovedTogether(p.effects, q.effects, to, receipt)
    ensures Apply(q, StateEvent(actor, Committing, state, reason))
            == Some(q.(state := state, sequence := q.sequence + 1))
    ensures LedgerInv(q.(state := state, sequence := q.sequence + 1))
  {
    hide LedgerInv, Apply, MovedTogether;
    OutcomeMovesState(p, q, actor, to, receipt, state, reason);
    OutcomeKeeps(p, q, to, receipt, state, reason);
  }

  lemma OutcomeMovesState(p: Projection, q: Projection, actor: Principal, to: EffectStatus, receipt: Option<string>,
                          state: TransactionState, reason: string)
    requires LedgerInv(p) && p.state == q.state == Committing && Outcome(to, receipt, state, reason)
    requires MovedTogether(p.effects, q.effects, to, receipt)
    ensures Apply(q, StateEvent(actor, Committing, state, reason))
            == Some(q.(state := state, sequence := q.sequence + 1))
  {
    hide DistinctIDs, ValidEffects, DistinctResults, InProgress, AllReleasable, ReleaseIDs, HasStatus;
    SomeHasStatus(q.effects, to);
  }

  lemma OutcomeKeeps(p: Projection, q: Projection, to: EffectStatus, receipt: Option<string>,
                     state: TransactionState, reason: string)
    requires LedgerInv(p) && p.state == Committing && Outcome(to, receipt, state, reason)
    requires q == p.(effects := q.effects, sequence := q.sequence) && MovedTogether(p.effects, q.effects, to, receipt)
    ensures LedgerInv(q.(state := state, sequence := q.sequence + 1))
  {
    hide DistinctIDs, ValidEffects, DistinctResults, InProgress, AllReleasable, ReleaseIDs;
  }

  lemma SomeHasStatus(effects: seq<Effect>, s: EffectStatus)
    requires AllReleasable(effects, s) && ReleaseIDs(effects) != []
    ensures forall statuses :: s in statuses ==> HasStatus(effects, statuses)
  {
    ReleaseIDsPresent(effects);
    var i :| 0 <= i < |effects| && !effects[i].readOnly;
    assert effects[i].status == s;
  }

  // ---- the loops that build the batches ------------------------------------------------

  /** One of the handlers' loops over temporary.Effects: build, reduce, collect. */
  method AppendChanges(start: Projection, effects: seq<Effect>, from: EffectStatus, to: EffectStatus,
                       receipt: Option<string>, actor: Principal, collected: seq<Event>, ghost origin: Projection)
    returns (ok: bool, temporary: Projection, events: seq<Event>)
    requires ApplyAll(origin, collected) == Some(start)
    ensures ok ==> events == collected + Changes(effects, from, to, receipt, actor)
                   && ApplyAll(origin, events) == Some(temporary)
    ensures ok <==> ApplyAll(start, Changes(effects, from, to, receipt, actor)).Some?
    ensures ok ==> ApplyAll(start, Changes(effects, from, to, receipt, actor)) == Some(temporary)
  {
    hide Apply, ApplyAll, Changes;
    assert effects[..0] == [] && collected + [] == collected;
    NoChanges(start, from, to, receipt, actor);
    temporary, events := start, collected;
    for i := 0 to |effects|
      invariant events == collected + Changes(effects[..i], from, to, receipt, actor)
      invariant ApplyAll(start, Changes(effects[..i], from, to, receipt, actor)) == Some(temporary)
      invariant ApplyAll(origin, events) == Some(temporary)
    {
      ChangesStep(effects, i, from, to, receipt, actor);
      ghost var done := Changes(effects[..i], from, to, receipt, actor);
      if effects[i].readOnly { continue; }
      var event := Event(actor, EffectChanged(effects[i].id, from, to, receipt));
      ApplyAllSnoc(start, done, event);
      ApplyAllSnoc(origin, events, event);
      var next := Apply(temporary, event);
      if next.None? {
        ChangesFail(start, effects, i, from, to, receipt, actor);
        return false, temporary, events;
      }
      temporary := next.value;
      events := events + [event];
    }
    assert effects[..|effects|] == effects;
    return true, temporary, events;
  }

  lemma {:induction false} ChangesPrefix(effects: seq<Effect>, k: nat, from: EffectStatus, to: EffectStatus,
                                         receipt: Option<string>, actor: Principal)
    requires k <= |effects|
    ensures Changes(effects[..k], from, to, receipt, actor) <= Changes(effects, from, to, receipt, actor)
  {
    if k < |effects| {
      var init := effects[..|effects| - 1];
      ChangesPrefix(init, k, from, to, receipt, actor);
      assert init[..k] == effects[..k];
    } else {
      assert effects[..k] == effects;
    }
  }

  /** A refused event refuses the batch. */
  lemma ChangesFail(start: Projection, effects: seq<Effect>, i: nat, from: EffectStatus, to: EffectStatus,
                    receipt: Option<string>, actor: Principal)
    requires i < |effects| && ApplyAll(start, Changes(effects[..i + 1], from, to, receipt, actor)).None?
    ensures ApplyAll(start, Changes(effects, from, to, receipt, actor)).None?
  {
    ChangesPrefix(effects, i + 1, from, to, receipt, actor);
    var a := Changes(effects[..i + 1], from, to, receipt, actor);
    var all := Changes(effects, from, to, receipt, actor);
    ApplyAllConcat(start, a, all[|a|..]);
    assert a + all[|a|..] == all;
  }
}
