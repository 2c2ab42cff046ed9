/** The frozen effect set (internal/kernel/api/transaction_handlers.go:1239-1289,
    2656-2704, internal/kernel/transaction/digest.go:12-76): staging binds the
    inspected effects to the attempt, and every later inspection is bound again
    and compared by digest. What happens in between is the reducer's
    (internal/kernel/transaction/reducer.go:420-785, 929-1037, 1350-1408). */
module FrozenStage {
  import opened Text
  import Ledger

  datatype ExecutionStatus = Succeeded | Unfinished | Unsuccessful

  datatype Execution = Execution(id: string, attempt: int, status: ExecutionStatus)

  /** proposal stands for the remaining immutable fields; status, receipt and
      times are the fields the digest leaves out. */
  datatype Effect = Effect(
    id: string, sequence: int, attempt: int, runID: string, originExecutionID: string, proposal: string,
    status: string, receipt: Option<string>, updatedAt: int)

  datatype Immutable = Immutable(
    id: string, sequence: int, attempt: int, runID: string, originExecutionID: string, proposal: string)

  function ImmutableOf(e: Effect): Immutable {
    Immutable(e.id, e.sequence, e.attempt, e.runID, e.originExecutionID, e.proposal)
  }

  function Immutables(effects: seq<Effect>): seq<Immutable> {
    seq(|effects|, i requires 0 <= i < |effects| => ImmutableOf(effects[i]))
  }

  type Digest = seq<Immutable> -> string

  ghost predicate Injective(digest: Digest) {
    forall a, b {:trigger digest(a), digest(b)} :: digest(a) == digest(b) ==> a == b
  }

  predicate Sequenced(effects: seq<Effect>) {
    forall i :: 0 <= i < |effects| ==> effects[i].sequence == i + 1
  }

  /** ComputeEffectSetDigest */
  method ComputeEffectSetDigest(digest: Digest, effects: seq<Effect>) returns (result: Option<string>)
    ensures result == if Sequenced(effects) then Some(digest(Immutables(effects))) else None
  {
    var values := [];
    for i := 0 to |effects|
      invariant Sequenced(effects[..i]) && values == Immutables(effects[..i])
    {
      if effects[i].sequence != i + 1 { return None; }
      values := values + [ImmutableOf(effects[i])];
      assert effects[..i + 1] == effects[..i] + [effects[i]];
    }
    assert effects[..|effects|] == effects;
    return Some(digest(values));
  }

  /** The part of a transaction's projection that staging and binding touch. */
  datatype Projection = Projection(
    state: Ledger.TransactionState, attempt: int, agentRunIDs: seq<string>, hasTask: bool, executions: seq<Execution>,
    effects: seq<Effect>, stagedStateDigest: string, effectSetDigest: string)

  datatype Snapshot = Snapshot(effects: seq<Effect>, stagedStateDigest: string, effectSetDigest: string)

  /** latestAttemptExecution */
  function Latest(executions: seq<Execution>, attempt: int): Option<Execution> {
    if executions == [] then None
    else
      var last := executions[|executions| - 1];
      if last.attempt == attempt then Some(last) else Latest(executions[..|executions| - 1], attempt)
  }

  function Origin(p: Projection): Option<string> {
    var latest := Latest(p.executions, p.attempt);
    if p.hasTask && latest.Some? && latest.value.status.Succeeded? then Some(latest.value.id) else None
  }

  function BindOne(e: Effect, p: Projection): Effect {
    var withRun := if |p.agentRunIDs| == 1 then e.(attempt := p.attempt, runID := p.agentRunIDs[0])
                   else e.(attempt := p.attempt);
    if Origin(p).Some? then withRun.(originExecutionID := Origin(p).value) else withRun
  }

  function Bound(effects: seq<Effect>, p: Projection): seq<Effect> {
    seq(|effects|, i requires 0 <= i < |effects| => BindOne(effects[i], p))
  }

  /** The execution at k is the last one of this attempt. */
  predicate LastOf(executions: seq<Execution>, attempt: int, k: int) {
    && 0 <= k < |executions| && executions[k].attempt == attempt
    && forall j :: k < j < |executions| ==> executions[j].attempt != attempt
  }

  lemma {:induction false} LatestIsLast(executions: seq<Execution>, attempt: int)
    ensures forall k :: LastOf(executions, attempt, k) ==> Latest(executions, attempt) == Some(executions[k])
    ensures Latest(executions, attempt).Some? ==> exists k :: LastOf(executions, attempt, k)
    ensures Latest(executions, attempt).None? ==> forall k :: 0 <= k < |executions| ==> executions[k].attempt != attempt
  {
    if executions != [] && executions[|executions| - 1].attempt != attempt {
      var init := executions[..|executions| - 1];
      LatestIsLast(init, attempt);
      forall k | LastOf(executions, attempt, k) ensures LastOf(init, attempt, k) {}
      if k :| LastOf(init, attempt, k) { assert LastOf(executions, attempt, k); }
    } else if executions != [] {
      assert LastOf(executions, attempt, |executions| - 1);
    }
  }

  /** How a bound effect differs from the inspected one, field by field. */
  ghost predicate BoundTo(bound: Effect, e: Effect, p: Projection) {
    && bound.id == e.id && bound.sequence == e.sequence && bound.proposal == e.proposal && bound.status == e.status
    && bound.receipt == e.receipt && bound.updatedAt == e.updatedAt
    && bound.attempt == p.attempt
    && (match |p.agentRunIDs| case 1 => bound.runID == p.agentRunIDs[0] case _ => bound.runID == e.runID)
    && (if p.hasTask && exists k :: LastOf(p.executions, p.attempt, k) && p.executions[k].status == Succeeded
        then forall k :: LastOf(p.executions, p.attempt, k) ==> bound.originExecutionID == p.executions[k].id
        else bound.originExecutionID == e.originExecutionID)
  }

  lemma BoundMeaning(effects: seq<Effect>, p: Projection)
    ensures |Bound(effects, p)| == |effects|
    ensures forall i :: 0 <= i < |effects| ==> BoundTo(Bound(effects, p)[i], effects[i], p)
  {
    LatestIsLast(p.executions, p.attempt);
  }

  /** bindSnapshotEffects rewrites a copy of the slice in place. */
  method BindSnapshotEffects(effects: seq<Effect>, p: Projection) returns (result: seq<Effect>)
    ensures result == Bound(effects, p)
    ensures |result| == |effects| && forall i :: 0 <= i < |effects| ==> BoundTo(result[i], effects[i], p)
  {
    BoundMeaning(effects, p);
    var bound := new Effect[|effects|](i requires 0 <= i < |effects| => effects[i]);
    var execution := Latest(p.executions, p.attempt);
    for index := 0 to bound.Length
      invariant forall k :: 0 <= k < index ==> bound[k] == BindOne(effects[k], p)
      invariant forall k :: index <= k < bound.Length ==> bound[k] == effects[k]
    {
      bound[index] := bound[index].(attempt := p.attempt);
      if |p.agentRunIDs| == 1 { bound[index] := bound[index].(runID := p.agentRunIDs[0]); }
      if p.hasTask && execution.Some? && execution.value.status.Succeeded? {
        bound[index] := bound[index].(originExecutionID := execution.value.id);
      }
    }
    return bound[..];
  }

  /** Inspection reports the digest of what it found. */
  predicate Consistent(digest: Digest, s: Snapshot) {
    Sequenced(s.effects) && s.effectSetDigest == digest(Immutables(s.effects))
  }

  predicate Frozen(digest: Digest, s: Snapshot, p: Projection) {
    && s.stagedStateDigest == p.stagedStateDigest && Consistent(digest, s)
    && Sequenced(Bound(s.effects, p)) && digest(Immutables(Bound(s.effects, p))) == p.effectSetDigest
  }

  /** matchesFrozenStage */
  method MatchesFrozenStage(digest: Digest, s: Snapshot, p: Projection) returns (ok: bool)
    ensures ok <==> Frozen(digest, s, p)
  {
    if s.stagedStateDigest != p.stagedStateDigest { return false; }
    var raw := ComputeEffectSetDigest(digest, s.effects);
    if raw != Some(s.effectSetDigest) { return false; }
    var effects := BindSnapshotEffects(s.effects, p);
    var boundDigest := ComputeEffectSetDigest(digest, effects);
    return boundDigest == Some(p.effectSetDigest);
  }

  /** The handler's own guard: with a task, the attempt's latest execution succeeded. */
  predicate Stageable(p: Projection) {
    && p.state == Ledger.Running && p.effects == [] && NoneActive(p.executions)
    && (p.hasTask ==> Worked(p))
  }

  predicate Worked(p: Projection) {
    var latest := Latest(p.executions, p.attempt);
    latest.Some? && latest.value.status.Succeeded?
  }

  /** No execution is still running. */
  predicate NoneActive(executions: seq<Execution>) {
    forall i :: 0 <= i < |executions| ==> !executions[i].status.Unfinished?
  }

  predicate DistinctIDs(effects: seq<Effect>) {
    forall i, j :: 0 <= i < j < |effects| ==> effects[i].id != effects[j].id
  }

  /** The projection staging leads to. */
  function Staged(digest: Digest, s: Snapshot, p: Projection): Projection {
    p.(state := Ledger.Staged, effects := Bound(s.effects, p), stagedStateDigest := s.stagedStateDigest,
       effectSetDigest := digest(Immutables(Bound(s.effects, p))))
  }

  lemma StageableMeaning(p: Projection)
    ensures Stageable(p) <==>
            && p.state == Ledger.Running && p.effects == [] && (forall x <- p.executions :: x.status != Unfinished)
            && (p.hasTask ==> exists k :: LastOf(p.executions, p.attempt, k) && p.executions[k].status == Succeeded)
  {
    LatestIsLast(p.executions, p.attempt);
    assert forall i :: 0 <= i < |p.executions| ==> p.executions[i] in p.executions;
  }

  predicate Listable(effects: seq<Effect>) { Sequenced(effects) && DistinctIDs(effects) }

  /** stageTransaction: each inspected effect is bound and added in order, then
      the digest of the added effects is frozen, all in one batch of events; without
      effects a task completes at once. */
  method StageTransaction(digest: Digest, s: Snapshot, p: Projection) returns (result: Option<Projection>, events: seq<Event>)
    ensures result.Some? <==>
            && p.state == Ledger.Running && p.effects == [] && (forall x <- p.executions :: x.status != Unfinished)
            && (p.hasTask ==> exists k :: LastOf(p.executions, p.attempt, k) && p.executions[k].status == Succeeded)
            && (if s.effects == [] then p.hasTask else Listable(s.effects))
    ensures result.Some? ==>
              && result.value == (if s.effects == [] then p.(state := Ledger.CompletedNoEffect) else Staged(digest, s, p))
              && ApplyAll(digest, p, events) == result
    ensures result.Some? && s.effects != [] ==>
              && |result.value.effects| == |s.effects|
              && forall i :: 0 <= i < |s.effects| ==> BoundTo(result.value.effects[i], s.effects[i], p)
    ensures result.None? ==> events == []
  {
    hide Listable, ApplyAll, Immutables, BindOne, BoundTo;
    BoundMeaning(s.effects, p);
    StageableMeaning(p);
    result, events := None, [];
    if p.state != Ledger.Running || p.effects != [] { return; }
    var originExecution := Latest(p.executions, p.attempt);
    if p.hasTask && (originExecution.None? || !originExecution.value.status.Succeeded?) { return; }
    if s.effects == [] {
      if !p.hasTask { return; }
      var completed := StateChanged(Ledger.CompletedNoEffect);
      var done := Apply(digest, p, completed);
      if done.None? { return; }
      AppliedOne(digest, p, completed);
      return done, [completed];
    }
    var added, built := AddEffects(digest, s.effects, p);
    if added.None? { return; }
    var effectSetDigest := ComputeEffectSetDigest(digest, added.value.effects);
    BoundListable(s.effects, p);
    var staged := TransactionStaged(s.stagedStateDigest, effectSetDigest.value);
    var next := Apply(digest, added.value, staged);
    if next.None? { return; }
    ApplyAfter(digest, p, built, staged);
    return next, built + [staged];
  }

  /** The loop over the inspected effects. */
  method AddEffects(digest: Digest, effects: seq<Effect>, p: Projection) returns (result: Option<Projection>, events: seq<Event>)
    requires p.state == Ledger.Running && p.effects == [] && (p.hasTask ==> Worked(p))
    ensures result == if Listable(effects) then Some(p.(effects := Bound(effects, p))) else None
    ensures result.Some? ==> ApplyAll(digest, p, events) == result
  {
    hide ApplyAll, Apply, Bound, Listable;
    var originExecution := Latest(p.executions, p.attempt);
    var temporary, built := p, [];
    BoundNone(p);
    AppliedNone(digest, p);
    for i := 0 to |effects|
      invariant temporary == p.(effects := Bound(effects[..i], p))
      invariant Listable(effects[..i])
      invariant ApplyAll(digest, p, built) == Some(temporary)
    {
      var effect := effects[i].(attempt := temporary.attempt);
      if |temporary.agentRunIDs| == 1 { effect := effect.(runID := temporary.agentRunIDs[0]); }
      if p.hasTask { effect := effect.(originExecutionID := originExecution.value.id); }
      assert effect == BindOne(effects[i], p);
      AddStep(digest, effects, p, i);
      var next := Apply(digest, temporary, EffectAdded(effect));
      if next.None? { return None, []; }
      ApplyAfter(digest, p, built, EffectAdded(effect));
      temporary, built := next.value, built + [EffectAdded(effect)];
    }
    assert effects[..|effects|] == effects;
    return Some(temporary), built;
  }

  lemma AddStep(digest: Digest, effects: seq<Effect>, p: Projection, i: nat)
    requires i < |effects| && p.state == Ledger.Running && Listable(effects[..i])
    ensures Listable(effects[..i + 1]) || !Listable(effects)
    ensures var before := p.(effects := Bound(effects[..i], p));
            Apply(digest, before, EffectAdded(BindOne(effects[i], p))) ==
            if Listable(effects[..i + 1]) then Some(p.(effects := Bound(effects[..i + 1], p))) else None
  {
    var bound := Bound(effects[..i], p);
    assert effects[..i + 1] == effects[..i] + [effects[i]];
    assert Bound(effects[..i + 1], p) == bound + [BindOne(effects[i], p)];
    assert forall k :: 0 <= k < i ==> bound[k].id == effects[k].id;
    assert forall k :: 0 <= k < i ==> effects[..i + 1][k] == effects[..i][k] == effects[k];
    assert effects[..i + 1][i] == effects[i];
  }

  lemma BoundListable(effects: seq<Effect>, p: Projection)
    ensures Listable(effects) ==> Sequenced(Bound(effects, p))
    ensures |Bound(effects, p)| == |effects|
  {
  }

  lemma BoundNone(p: Projection)
    ensures Bound([], p) == [] && Listable([])
  {
  }

  // ---- what may happen afterwards ------------------------------------------------------

  /** The reducer's events as far as they touch this part of the projection. Each
      keeps at least the guards that read it; a guard left out only admits more
      histories. */
  datatype Event =
    | StateChanged(to: Ledger.TransactionState)
    | EffectAdded(effect: Effect)
    | EffectChanged(index: nat, status: string, receipt: Option<string>, at: int)
    | TransactionStaged(stagedStateDigest: string, effectSetDigest: string)
    | ExecutionStarted(execution: Execution)
    | ExecutionFinished(index: nat, outcome: ExecutionStatus)
    | AuthorityRenewed
    | ApprovalResolved(next: Ledger.TransactionState)
    | ResultOrPlanRecorded

  /** beginNextAttempt and invalidateFrozenState */
  function NextAttempt(p: Projection): Projection {
    p.(attempt := p.attempt + (if p.state == Ledger.Created then 0 else 1), state := Ledger.Running,
       effects := [], stagedStateDigest := "", effectSetDigest := "")
  }

  function Apply(digest: Digest, p: Projection, e: Event): Option<Projection> {
    match e
    case StateChanged(to) =>
      if !Ledger.CanTransition(p.state, to) || to == Ledger.Staged || p.state == Ledger.PendingApproval then None
      else if to == Ledger.Running then
        if p.state != Ledger.Created && !NoneActive(p.executions) then None else Some(NextAttempt(p))
      else if to == Ledger.CompletedNoEffect && !(p.effects == [] && NoneActive(p.executions) && Worked(p)) then None
      else Some(p.(state := to))
    case EffectAdded(effect) =>
      if p.state == Ledger.Running && effect.attempt == p.attempt && effect.sequence == |p.effects| + 1
         && forall k :: 0 <= k < |p.effects| ==> p.effects[k].id != effect.id
      then Some(p.(effects := p.effects + [effect]))
      else None
    case EffectChanged(index, status, receipt, at) =>
      if index < |p.effects|
      then Some(p.(effects := p.effects[index := p.effects[index].(status := status, receipt := receipt, updatedAt := at)]))
      else None
    case TransactionStaged(stagedStateDigest, effectSetDigest) =>
      if p.state == Ledger.Running && p.effects != [] && NoneActive(p.executions)
         && Sequenced(p.effects) && effectSetDigest == digest(Immutables(p.effects))
      then Some(p.(state := Ledger.Staged, stagedStateDigest := stagedStateDigest, effectSetDigest := effectSetDigest))
      else None
    case ExecutionStarted(x) =>
      if p.state == Ledger.Running && NoneActive(p.executions) && x.attempt == p.attempt && x.status.Unfinished?
      then Some(p.(executions := p.executions + [x])) else None
    case ExecutionFinished(index, outcome) =>
      if p.state == Ledger.Running && index < |p.executions| && p.executions[index].status.Unfinished? && !outcome.Unfinished?
      then Some(p.(executions := p.executions[index := p.executions[index].(status := outcome)])) else None
    case AuthorityRenewed =>
      if p.state in {Ledger.PendingApproval, Ledger.ReadyToCommit} then Some(p.(state := Ledger.Validating)) else None
    case ApprovalResolved(next) =>
      if p.state == Ledger.PendingApproval
         && next in {Ledger.PendingApproval, Ledger.ReadyToCommit, Ledger.Blocked, Ledger.ReviseRequired}
      then Some(p.(state := next)) else None
    case ResultOrPlanRecorded => if p.state == Ledger.Validating then Some(p) else None
  }

  function ApplyAll(digest: Digest, p: Projection, events: seq<Event>): Option<Projection> {
    if events == [] then Some(p)
    else
      match ApplyAll(digest, p, events[..|events| - 1])
      case None => None
      case Some(q) => Apply(digest, q, events[|events| - 1])
  }

  lemma AppliedNone(digest: Digest, p: Projection)
    ensures ApplyAll(digest, p, []) == Some(p)
  {
  }

  lemma AppliedOne(digest: Digest, p: Projection, e: Event)
    ensures ApplyAll(digest, p, [e]) == Apply(digest, p, e)
  {
    ApplyAfter(digest, p, [], e);
  }

  lemma ApplyAfter(digest: Digest, p: Projection, events: seq<Event>, e: Event)
    ensures ApplyAll(digest, p, events + [e]) ==
            match ApplyAll(digest, p, events) case None => None case Some(q) => Apply(digest, q, e)
  {
    assert (events + [e])[..|events|] == events;
  }

  /** Before staging, and the two ends that need none. */
  predicate Unstaged(s: Ledger.TransactionState) {
    s in {Ledger.Created, Ledger.Running, Ledger.Blocked, Ledger.Aborted, Ledger.CompletedNoEffect}
  }

  /** What every reachable projection keeps: at most the last execution is running,
      effects are the attempt's own, numbered and distinctly named, from staging on
      nothing runs and the digest is that of the effects, and a transaction ends
      without effects only after successful work. */
  predicate StageInv(digest: Digest, p: Projection) {
    && (forall i :: 0 <= i < |p.executions| - 1 ==> !p.executions[i].status.Unfinished?)
    && (forall i :: 0 <= i < |p.executions| ==> p.executions[i].attempt <= p.attempt)
    && (forall i :: 0 <= i < |p.effects| ==> p.effects[i].attempt == p.attempt)
    && Sequenced(p.effects) && DistinctIDs(p.effects)
    && (p.state == Ledger.Created ==> p.executions == [] && p.effects == [])
    && (!Unstaged(p.state) ==>
          NoneActive(p.executions) && p.effects != [] && p.effectSetDigest == digest(Immutables(p.effects)))
    && (p.state == Ledger.CompletedNoEffect ==> p.effects == [] && NoneActive(p.executions) && Worked(p))
  }

  lemma ChangedImmutables(effects: seq<Effect>, index: nat, status: string, receipt: Option<string>, at: int)
    requires index < |effects|
    ensures var after := effects[index := effects[index].(status := status, receipt := receipt, updatedAt := at)];
            Immutables(after) == Immutables(effects) && (Sequenced(effects) ==> Sequenced(after))
            && (DistinctIDs(effects) ==> DistinctIDs(after))
            && (forall i :: 0 <= i < |effects| ==> after[i].attempt == effects[i].attempt)
  {
    var after := effects[index := effects[index].(status := status, receipt := receipt, updatedAt := at)];
    assert |Immutables(after)| == |Immutables(effects)|;
    forall i | 0 <= i < |effects| ensures ImmutableOf(after[i]) == ImmutableOf(effects[i]) {}
  }

  lemma StageStepKeeps(digest: Digest, p: Projection, e: Event)
    requires StageInv(digest, p) && Apply(digest, p, e).Some?
    ensures StageInv(digest, Apply(digest, p, e).value)
  {
    match e
    case EffectChanged(index, status, receipt, at) => ChangedImmutables(p.effects, index, status, receipt, at);
    case _ =>
  }

  /** Every reachable projection keeps it, whatever was appended. */
  lemma {:induction false} StageInvKept(digest: Digest, p: Projection, events: seq<Event>)
    requires p.state == Ledger.Created && p.executions == [] && p.effects == [] && ApplyAll(digest, p, events).Some?
    ensures StageInv(digest, ApplyAll(digest, p, events).value)
  {
    hide StageInv, Apply;
    if events == [] {
      FreshStage(digest, p);
    } else {
      var init := events[..|events| - 1];
      StageInvKept(digest, p, init);
      StageStepKeeps(digest, ApplyAll(digest, p, init).value, events[|events| - 1]);
    }
  }

  lemma FreshStage(digest: Digest, p: Projection)
    requires p.state == Ledger.Created && p.executions == [] && p.effects == []
    ensures StageInv(digest, p)
  {
  }

  /** When each event is accepted, and what it leaves of this part. */
  lemma StageEventAccepted(digest: Digest, p: Projection, e: Event)
    ensures var q := Apply(digest, p, e);
            match e
            case StateChanged(to) =>
              && (q.Some? <==>
                    && Ledger.CanTransition(p.state, to) && to != Ledger.Staged && p.state != Ledger.PendingApproval
                    && (to == Ledger.Running && p.state != Ledger.Created ==>
                          forall x <- p.executions :: x.status != Unfinished)
                    && (to == Ledger.CompletedNoEffect ==>
                          p.effects == [] && Worked(p) && forall x <- p.executions :: x.status != Unfinished))
              && (q.Some? && to != Ledger.Running ==> q.value == p.(state := to))
              && (q.Some? && to == Ledger.Running ==>
                    && q.value.attempt == p.attempt + (if p.state == Ledger.Created then 0 else 1)
                    && q.value.state == Ledger.Running && q.value.effects == []
                    && q.value.stagedStateDigest == q.value.effectSetDigest == "")
            case EffectAdded(effect) =>
              && (q.Some? <==>
                    && p.state == Ledger.Running && effect.attempt == p.attempt && effect.sequence == |p.effects| + 1
                    && forall other <- p.effects :: other.id != effect.id)
              && (q.Some? ==> q.value == p.(effects := p.effects + [effect]))
            case TransactionStaged(stagedStateDigest, effectSetDigest) =>
              && (q.Some? <==>
                    && p.state == Ledger.Running && p.effects != [] && Sequenced(p.effects)
                    && effectSetDigest == digest(Immutables(p.effects)) && forall x <- p.executions :: x.status != Unfinished)
              && (q.Some? ==>
                    q.value == p.(state := Ledger.Staged, stagedStateDigest := stagedStateDigest,
                                  effectSetDigest := effectSetDigest))
            case ExecutionStarted(x) =>
              && (q.Some? <==>
                    && p.state == Ledger.Running && x.attempt == p.attempt && x.status == Unfinished
                    && forall other <- p.executions :: other.status != Unfinished)
              && (q.Some? ==> q.value == p.(executions := p.executions + [x]))
            case ExecutionFinished(index, outcome) =>
              q.Some? <==>
                && p.state == Ledger.Running && index < |p.executions| && p.executions[index].status == Unfinished
                && outcome != Unfinished
            case AuthorityRenewed =>
              && (q.Some? <==> p.state == Ledger.PendingApproval || p.state == Ledger.ReadyToCommit)
              && (q.Some? ==> q.value == p.(state := Ledger.Validating))
            case ApprovalResolved(next) =>
              && (q.Some? <==>
                    && p.state == Ledger.PendingApproval
                    && (next == Ledger.PendingApproval || Ledger.CanTransition(Ledger.PendingApproval, next))
                    && next != Ledger.Aborted)
              && (q.Some? ==> q.value == p.(state := next))
            case ResultOrPlanRecorded => q == if p.state == Ledger.Validating then Some(p) else None
            case _ => true
  {
    assert forall i :: 0 <= i < |p.executions| ==> p.executions[i] in p.executions;
    assert forall i :: 0 <= i < |p.effects| ==> p.effects[i] in p.effects;
  }

  /** An idle running attempt accepts an execution and its outcome. */
  lemma RunsAccepted(digest: Digest, p: Projection, x: Execution, outcome: ExecutionStatus)
    requires p.state == Ledger.Running && NoneActive(p.executions) && x.attempt == p.attempt
    requires x.status == Unfinished && outcome != Unfinished
    ensures var after := ApplyAll(digest, p, [ExecutionStarted(x), ExecutionFinished(|p.executions|, outcome)]);
            after == Some(p.(executions := p.executions + [x.(status := outcome)]))
  {
    var started := p.(executions := p.executions + [x]);
    AppliedOne(digest, p, ExecutionStarted(x));
    ApplyAfter(digest, p, [ExecutionStarted(x)], ExecutionFinished(|p.executions|, outcome));
    assert [ExecutionStarted(x)] + [ExecutionFinished(|p.executions|, outcome)]
        == [ExecutionStarted(x), ExecutionFinished(|p.executions|, outcome)];
    assert started.executions[|p.executions| := x.(status := outcome)] == p.executions + [x.(status := outcome)];
  }

  /** What the rest of the attempt keeps: everything binding reads, and the
      immutable fields of the effects. */
  predicate LaterInAttempt(staged: Projection, later: Projection) {
    && later.state !in {Ledger.Created, Ledger.Running}
    && later.attempt == staged.attempt && later.agentRunIDs == staged.agentRunIDs
    && later.hasTask == staged.hasTask && later.executions == staged.executions
    && later.stagedStateDigest == staged.stagedStateDigest && later.effectSetDigest == staged.effectSetDigest
    && Immutables(later.effects) == Immutables(staged.effects)
  }

  /** Once staged, an attempt ends only by beginning the next one. */
  lemma StepInAttempt(digest: Digest, staged: Projection, p: Projection, e: Event)
    requires LaterInAttempt(staged, p) && Apply(digest, p, e).Some?
    ensures var q := Apply(digest, p, e).value;
            q.attempt >= p.attempt && (q.attempt == p.attempt ==> LaterInAttempt(staged, q))
  {
    match e
    case EffectChanged(index, status, receipt, at) => ChangedImmutables(p.effects, index, status, receipt, at);
    case _ =>
  }

  lemma {:induction false} AttemptsGrow(digest: Digest, p: Projection, events: seq<Event>)
    requires ApplyAll(digest, p, events).Some?
    ensures ApplyAll(digest, p, events).value.attempt >= p.attempt
  {
    if events != [] { AttemptsGrow(digest, p, events[..|events| - 1]); }
  }

  /** Every accepted history that is still in the staged attempt is a later point
      of it. */
  lemma {:induction false} RestOfAttempt(digest: Digest, staged: Projection, events: seq<Event>)
    requires staged.state == Ledger.Staged && ApplyAll(digest, staged, events).Some?
    requires ApplyAll(digest, staged, events).value.attempt == staged.attempt
    ensures LaterInAttempt(staged, ApplyAll(digest, staged, events).value)
  {
    if events != [] {
      var init, e := events[..|events| - 1], events[|events| - 1];
      var p := ApplyAll(digest, staged, init).value;
      AttemptsGrow(digest, staged, init);
      AttemptStep(digest, p, e);
      RestOfAttempt(digest, staged, init);
      StepInAttempt(digest, staged, p, e);
    }
  }

  lemma AttemptStep(digest: Digest, p: Projection, e: Event)
    requires Apply(digest, p, e).Some?
    ensures var q := Apply(digest, p, e).value;
            && p.attempt <= q.attempt <= p.attempt + 1
            && (q.attempt > p.attempt ==>
                  q.state == Ledger.Running && q.effects == [] && q.stagedStateDigest == q.effectSetDigest == ""
                  && forall x <- p.executions :: x.status != Unfinished)
  {
  }

  lemma BoundLater(effects: seq<Effect>, staged: Projection, later: Projection)
    requires LaterInAttempt(staged, later)
    ensures Bound(effects, later) == Bound(effects, staged)
  {
    assert Origin(later) == Origin(staged);
  }

  lemma BoundStaged(effects: seq<Effect>, digest: Digest, s: Snapshot, p: Projection)
    ensures Bound(effects, Staged(digest, s, p)) == Bound(effects, p)
  {
    assert Origin(Staged(digest, s, p)) == Origin(p);
  }

  /** The same effect as far as binding leaves it as inspected. */
  predicate Alike(a: Effect, b: Effect, p: Projection) {
    && a.id == b.id && a.sequence == b.sequence && a.proposal == b.proposal
    && (|p.agentRunIDs| != 1 ==> a.runID == b.runID)
    && (Origin(p) == None ==> a.originExecutionID == b.originExecutionID)
  }

  lemma BoundAlike(a: seq<Effect>, b: seq<Effect>, p: Projection)
    ensures Immutables(Bound(a, p)) == Immutables(Bound(b, p)) <==>
            |a| == |b| && forall i :: 0 <= i < |a| ==> Alike(a[i], b[i], p)
  {
    var x, y := Immutables(Bound(a, p)), Immutables(Bound(b, p));
    assert |x| == |a| && |y| == |b|;
    if |a| == |b| && x == y {
      forall i | 0 <= i < |a| ensures Alike(a[i], b[i], p) { assert x[i] == y[i]; }
    }
    if |a| == |b| && forall i :: 0 <= i < |a| ==> Alike(a[i], b[i], p) {
      forall i | 0 <= i < |a| ensures x[i] == y[i] { assert Alike(a[i], b[i], p); }
    }
  }

  /** Agreement: after any further history of the same attempt, a consistent
      inspection matches exactly when it has the staged state and binds to the very
      effects that were staged; status, receipts and times do not matter. */
  lemma FrozenAgreement(digest: Digest, first: Snapshot, p: Projection, events: seq<Event>, again: Snapshot)
    requires Injective(digest) && Sequenced(first.effects) && Consistent(digest, again)
    requires ApplyAll(digest, Staged(digest, first, p), events).Some?
    requires ApplyAll(digest, Staged(digest, first, p), events).value.attempt == p.attempt
    ensures Frozen(digest, again, ApplyAll(digest, Staged(digest, first, p), events).value) <==>
            && again.stagedStateDigest == first.stagedStateDigest && |again.effects| == |first.effects|
            && forall i :: 0 <= i < |first.effects| ==> Alike(again.effects[i], first.effects[i], p)
  {
    var staged := Staged(digest, first, p);
    RestOfAttempt(digest, staged, events);
    BoundLater(again.effects, staged, ApplyAll(digest, staged, events).value);
    BoundStaged(again.effects, digest, first, p);
    var x, y := Immutables(Bound(again.effects, p)), Immutables(Bound(first.effects, p));
    assert digest(x) == digest(y) ==> x == y;
    BoundAlike(again.effects, first.effects, p);
  }

  /** In particular an unchanged worktree matches for the rest of the attempt. */
  lemma UnchangedMatches(digest: Digest, first: Snapshot, p: Projection, events: seq<Event>, again: Snapshot)
    requires Injective(digest) && Consistent(digest, first) && Consistent(digest, again)
    requires again.stagedStateDigest == first.stagedStateDigest
    requires Immutables(again.effects) == Immutables(first.effects)
    requires ApplyAll(digest, Staged(digest, first, p), events).Some?
    requires ApplyAll(digest, Staged(digest, first, p), events).value.attempt == p.attempt
    ensures Frozen(digest, again, ApplyAll(digest, Staged(digest, first, p), events).value)
  {
    FrozenAgreement(digest, first, p, events, again);
    var x, y := Immutables(again.effects), Immutables(first.effects);
    assert |again.effects| == |x| == |y| == |first.effects|;
    forall i | 0 <= i < |first.effects| ensures Alike(again.effects[i], first.effects[i], p) {
      assert x[i] == y[i];
    }
  }

  /** And the ledger's own effects keep the frozen digest throughout. */
  lemma LedgerKeepsDigest(digest: Digest, first: Snapshot, p: Projection, events: seq<Event>)
    requires ApplyAll(digest, Staged(digest, first, p), events).Some?
    requires ApplyAll(digest, Staged(digest, first, p), events).value.attempt == p.attempt
    ensures var later := ApplyAll(digest, Staged(digest, first, p), events).value;
            later.effectSetDigest == digest(Immutables(later.effects))
  {
    RestOfAttempt(digest, Staged(digest, first, p), events);
  }
}
