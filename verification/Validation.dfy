/** Recording a verification (internal/kernel/api/transaction_handlers.go:1454-1545,
    1821-1959): the batch that replaces an earlier result, validates every staged
    effect on a pass, or fails the validation, and why the reducer accepts it. */
module Validation {
  import opened Text
  import opened Ledger
  import opened Lockstep
  import opened Authority

  function ConfirmOne(e: Effect): Effect {
    if e.status == EffectStaged then e.(status := Validated) else e
  }

  function Confirmed(effects: seq<Effect>): (after: seq<Effect>)
    ensures |after| == |effects|
  {
    seq(|effects|, i requires 0 <= i < |effects| => ConfirmOne(effects[i]))
  }

  /** One event per staged effect, read-only ones included, in order. */
  function Confirmations(effects: seq<Effect>, verifier: Principal): seq<Event> {
    if effects == [] then []
    else
      var last := effects[|effects| - 1];
      Confirmations(effects[..|effects| - 1], verifier)
      + if last.status != EffectStaged then []
        else [Event(verifier, EffectChanged(last.id, EffectStaged, Validated, None))]
  }

  /** verificationRetryPrefix's refusals: a failed validation is retried under
      the name that failed, and a current pass is never replaced. */
  predicate MayVerify(p: Projection, name: string, at: int) {
    var existing := ResultByName(p.verifications, name);
    && p.state in {Validating, ValidationFailed}
    && (p.state == ValidationFailed ==> existing.Some?)
    && (existing.Some? ==> !(existing.value.status.Passed? && Unexpired(existing.value, at)))
  }

  function RetryPrefix(p: Projection, name: string, requester: Principal, at: int): seq<Event> {
    var existing := ResultByName(p.verifications, name);
    (if p.state == ValidationFailed then [StateEvent(requester, ValidationFailed, Validating, "")] else [])
    + if existing.Some?
      then [Event(requester, VerificationSuperseded(existing.value.id, "verification rerun requested", at))] else []
  }

  /** The projection the prefix leads to. */
  function Reopened(p: Projection, name: string): Projection {
    var existing := ResultByName(p.verifications, name);
    if existing.None? then p.(state := Validating)
    else p.(state := Validating, verifications := Remove(p.verifications, existing.value),
            supersededVerifications := p.supersededVerifications + [existing.value])
  }

  function ResultEvents(effects: seq<Effect>, result: Verification, verifier: Principal): seq<Event> {
    var recorded := Event(verifier, VerificationRecorded(result));
    if result.status.Passed? then Confirmations(effects, verifier) + [recorded]
    else [recorded] + [StateEvent(verifier, Validating, ValidationFailed, "verification did not pass")]
  }

  function ValidationBatch(p: Projection, result: Verification, requester: Principal, verifier: Principal, at: int): seq<Event> {
    RetryPrefix(p, result.name, requester, at) + ResultEvents(p.effects, result, verifier)
  }

  predicate FreshResult(p: Projection, result: Verification) {
    && (forall v <- p.verifications :: v.id != result.id)
    && (forall v <- p.supersededVerifications :: v.id != result.id)
  }

  // ---- why the batch is accepted -----------------------------------------------------

  function ConfirmedUpTo(effects: seq<Effect>, k: nat): seq<Effect>
    requires k <= |effects|
  {
    Confirmed(effects[..k]) + effects[k..]
  }

  lemma ConfirmedAt(effects: seq<Effect>, k: nat, i: nat)
    requires k <= |effects| && i < |effects|
    ensures |ConfirmedUpTo(effects, k)| == |effects|
    ensures ConfirmedUpTo(effects, k)[i] == if i < k then ConfirmOne(effects[i]) else effects[i]
  {
  }

  lemma ConfirmStep(effects: seq<Effect>, k: nat)
    requires k < |effects| && DistinctIDs(effects)
    ensures var before := ConfirmedUpTo(effects, k);
            && |before| == |effects| && before[k] == effects[k]
            && EffectIndex(before, effects[k].id) == Some(k)
            && ConfirmedUpTo(effects, k + 1) == before[k := ConfirmOne(effects[k])]
  {
    hide ConfirmedUpTo, EffectIndex;
    var before, after := ConfirmedUpTo(effects, k), ConfirmedUpTo(effects, k + 1);
    ConfirmedAt(effects, k, k);
    ConfirmedAt(effects, k + 1, k);
    forall i | 0 <= i < |effects|
      ensures before[i].id == effects[i].id
      ensures after[i] == before[k := ConfirmOne(effects[k])][i]
    {
      ConfirmedAt(effects, k, i);
      ConfirmedAt(effects, k + 1, i);
    }
    IndexIsUnique(before, k);
  }

  lemma ConfirmationsStep(effects: seq<Effect>, k: nat, verifier: Principal)
    requires k < |effects|
    ensures Confirmations(effects[..k + 1], verifier) ==
            if effects[k].status != EffectStaged then Confirmations(effects[..k], verifier)
            else Confirmations(effects[..k], verifier)
                 + [Event(verifier, EffectChanged(effects[k].id, EffectStaged, Validated, None))]
  {
    assert effects[..k + 1][..k] == effects[..k];
  }

  lemma ConfirmAccepted(p: Projection, q: Projection, k: nat, verifier: Principal)
    requires k < |p.effects| && DistinctIDs(p.effects) && ValidEffects(p.effects)
    requires p.effects[k].status == EffectStaged && q.state == Validating && q.effects == ConfirmedUpTo(p.effects, k)
    ensures Apply(q, Event(verifier, EffectChanged(p.effects[k].id, EffectStaged, Validated, None)))
            == Some(q.(effects := ConfirmedUpTo(p.effects, k + 1), sequence := q.sequence + 1))
  {
    hide ConfirmedUpTo, DistinctIDs, EffectIndex;
    ConfirmStep(p.effects, k);
    assert ValidEffect(p.effects[k]);
  }

  lemma {:induction false} ConfirmationsAccepted(p: Projection, k: nat, verifier: Principal)
    requires p.state == Validating && DistinctIDs(p.effects) && ValidEffects(p.effects) && k <= |p.effects|
    ensures var q := ApplyAll(p, Confirmations(p.effects[..k], verifier));
            q.Some? && q.value == p.(effects := ConfirmedUpTo(p.effects, k), sequence := q.value.sequence)
  {
    hide Apply, ApplyAll, Confirmations, ConfirmedUpTo, DistinctIDs, ValidEffects;
    NothingConfirmed(p, verifier);
    if k == 0 {
      assert p.effects[..0] == [];
    } else {
      ConfirmationsAccepted(p, k - 1, verifier);
      ConfirmationsStep(p.effects, k - 1, verifier);
      var before := Confirmations(p.effects[..k - 1], verifier);
      if p.effects[k - 1].status != EffectStaged {
        AlreadyConfirmed(p.effects, k - 1);
      } else {
        ConfirmAccepted(p, ApplyAll(p, before).value, k - 1, verifier);
        ApplyAllSnoc(p, before, Event(verifier, EffectChanged(p.effects[k - 1].id, EffectStaged, Validated, None)));
      }
    }
  }

  lemma NothingConfirmed(p: Projection, verifier: Principal)
    ensures Confirmations([], verifier) == [] && ApplyAll(p, []) == Some(p)
    ensures ConfirmedUpTo(p.effects, 0) == p.effects
  {
  }

  lemma AlreadyConfirmed(effects: seq<Effect>, k: nat)
    requires k < |effects| && effects[k].status != EffectStaged
    ensures ConfirmedUpTo(effects, k + 1) == ConfirmedUpTo(effects, k)
  {
  }

  lemma ConfirmedFacts(effects: seq<Effect>)
    requires DistinctIDs(effects) && ValidEffects(effects) && InProgress(effects)
    ensures ConfirmedUpTo(effects, |effects|) == Confirmed(effects)
    ensures DistinctIDs(Confirmed(effects)) && ValidEffects(Confirmed(effects)) && AllValidated(Confirmed(effects))
  {
    var after := Confirmed(effects);
    assert effects[..|effects|] == effects;
    assert forall i :: 0 <= i < |effects| ==> after[i].id == effects[i].id;
    forall i | 0 <= i < |after| ensures ValidEffect(after[i]) { assert ValidEffect(effects[i]); }
  }

  predicate AllValidated(effects: seq<Effect>) {
    forall i :: 0 <= i < |effects| ==> effects[i].status == Validated
  }

  lemma ApplySingle(p: Projection, e: Event)
    ensures ApplyAll(p, [e]) == Apply(p, e)
  {
    ApplyOne(p, e);
  }

  /** The prefix reopens validation and takes the earlier result away. */
  lemma PrefixAccepted(p: Projection, name: string, requester: Principal, at: int)
    requires LedgerInv(p) && MayVerify(p, name, at)
    ensures var q := ApplyAll(p, RetryPrefix(p, name, requester, at));
            q.Some? && q.value == Reopened(p, name).(sequence := q.value.sequence)
  {
    hide LedgerInv, Apply;
    var existing := ResultByName(p.verifications, name);
    var reopen := StateEvent(requester, ValidationFailed, Validating, "");
    var p1 := if p.state == ValidationFailed then p.(state := Validating, sequence := p.sequence + 1) else p;
    var first := if p.state == ValidationFailed then [reopen] else [];
    assert ApplyAll(p, first) == Some(p1) by {
      if p.state == ValidationFailed {
        ReopenAccepted(p, requester);
        ApplySingle(p, reopen);
      }
    }
    if existing.Some? {
      var supersede := Event(requester, VerificationSuperseded(existing.value.id, "verification rerun requested", at));
      SupersedeAccepted(p, p1, name, requester, at);
      ApplyAllSnoc(p, first, supersede);
    } else {
      assert first + [] == first;
    }
  }

  lemma ReopenAccepted(p: Projection, requester: Principal)
    requires p.state == ValidationFailed
    ensures Apply(p, StateEvent(requester, ValidationFailed, Validating, ""))
            == Some(p.(state := Validating, sequence := p.sequence + 1))
  {
  }

  lemma SupersedeAccepted(p: Projection, p1: Projection, name: string, requester: Principal, at: int)
    requires LedgerInv(p) && MayVerify(p, name, at) && ResultByName(p.verifications, name).Some?
    requires p1 == p.(state := Validating, sequence := p1.sequence)
    ensures var v := ResultByName(p.verifications, name).value;
            Apply(p1, Event(requester, VerificationSuperseded(v.id, "verification rerun requested", at)))
            == Some(Reopened(p, name).(sequence := p1.sequence + 1))
  {
    var v := ResultByName(p.verifications, name).value;
    ResultByNameBound(p.verifications, name);
    ResultByIDBound(p.verifications, v.id);
    SameResult(p.verifications, v, ResultByID(p.verifications, v.id).value);
  }

  lemma SameResult(results: seq<Verification>, v: Verification, w: Verification)
    requires DistinctResults(results) && v in results && w in results && v.id == w.id
    ensures v == w
  {
    var i :| 0 <= i < |results| && results[i] == v;
    var j :| 0 <= j < |results| && results[j] == w;
  }

  lemma ReopenedInv(p: Projection, name: string, at: int)
    requires LedgerInv(p) && MayVerify(p, name, at)
    ensures LedgerInv(Reopened(p, name)) && ResultByName(Reopened(p, name).verifications, name).None?
    ensures forall v <- Reopened(p, name).verifications :: v in p.verifications
  {
    hide DistinctIDs, ValidEffects, InProgress;
    ResultByNameBound(p.verifications, name);
    var existing := ResultByName(p.verifications, name);
    if existing.Some? { RemoveKeeps(p.verifications, existing.value); }
    ResultByNameBound(Reopened(p, name).verifications, name);
    assert Together(Validating).None?;
  }

  lemma RecordAccepted(p: Projection, result: Verification, verifier: Principal)
    requires p.state == Validating && FreshResult(p, result) && ResultByName(p.verifications, result.name).None?
    ensures Apply(p, Event(verifier, VerificationRecorded(result)))
            == Some(p.(verifications := p.verifications + [result], sequence := p.sequence + 1))
  {
    ResultByIDBound(p.verifications, result.id);
    ResultByIDBound(p.supersededVerifications, result.id);
  }

  /** What the batch leads to. */
  function Verified(p: Projection, result: Verification): Projection {
    var q := Reopened(p, result.name);
    q.(verifications := q.verifications + [result],
       effects := if result.status.Passed? then Confirmed(p.effects) else p.effects,
       state := if result.status.Passed? then Validating else ValidationFailed)
  }

  lemma ResultEventsAccepted(p: Projection, result: Verification, verifier: Principal)
    requires LedgerInv(p) && p.state == Validating && FreshResult(p, result)
    requires ResultByName(p.verifications, result.name).None?
    ensures var q := ApplyAll(p, ResultEvents(p.effects, result, verifier));
            q.Some? && q.value == p.(verifications := p.verifications + [result],
                                     effects := if result.status.Passed? then Confirmed(p.effects) else p.effects,
                                     state := if result.status.Passed? then Validating else ValidationFailed,
                                     sequence := q.value.sequence)
  {
    hide Apply, Confirmations, ConfirmedUpTo, FreshResult;
    var recorded := Event(verifier, VerificationRecorded(result));
    if result.status.Passed? {
      ConfirmationsAccepted(p, |p.effects|, verifier);
      assert p.effects[..|p.effects|] == p.effects;
      ConfirmedFacts(p.effects);
      var changes := Confirmations(p.effects, verifier);
      var p1 := ApplyAll(p, changes).value;
      FreshOf(p, p1, result);
      RecordAccepted(p1, result, verifier);
      ApplyAllSnoc(p, changes, recorded);
    } else {
      RecordAccepted(p, result, verifier);
      ApplySingle(p, recorded);
      var p1 := p.(verifications := p.verifications + [result], sequence := p.sequence + 1);
      var failed := StateEvent(verifier, Validating, ValidationFailed, "verification did not pass");
      FailAccepted(p1, verifier);
      ApplyAllSnoc(p, [recorded], failed);
    }
  }

  lemma FreshOf(p: Projection, q: Projection, result: Verification)
    requires FreshResult(p, result)
    requires q.verifications == p.verifications && q.supersededVerifications == p.supersededVerifications
    ensures FreshResult(q, result)
  {
  }

  lemma FailAccepted(p: Projection, verifier: Principal)
    requires p.state == Validating
    ensures Apply(p, StateEvent(verifier, Validating, ValidationFailed, "verification did not pass"))
            == Some(p.(state := ValidationFailed, sequence := p.sequence + 1))
  {
  }

  lemma FreshAfterPrefix(p: Projection, result: Verification, at: int)
    requires FreshResult(p, result) && LedgerInv(p) && MayVerify(p, result.name, at)
    ensures FreshResult(Reopened(p, result.name), result)
  {
    ReopenedInv(p, result.name, at);
    ResultByNameBound(p.verifications, result.name);
  }

  /** From every durable ledger that may verify, the whole batch is accepted. A
      pass leaves every effect validated, a failure leaves them alone; either way
      the effects stay in step. */
  lemma ValidationAccepted(p: Projection, result: Verification, requester: Principal, verifier: Principal, at: int)
    requires LedgerInv(p) && MayVerify(p, result.name, at) && FreshResult(p, result)
    ensures var q := ApplyAll(p, ValidationBatch(p, result, requester, verifier, at));
            && q.Some? && q.value == Verified(p, result).(sequence := q.value.sequence)
            && LedgerInv(q.value)
            && (result.status.Passed? ==> q.value.state == Validating && AllValidated(q.value.effects))
  {
    hide LedgerInv, MayVerify, FreshResult, ApplyAll, ResultEvents, RetryPrefix, Reopened, Confirmed;
    PrefixAccepted(p, result.name, requester, at);
    ReopenedInv(p, result.name, at);
    FreshAfterPrefix(p, result, at);
    var prefix := RetryPrefix(p, result.name, requester, at);
    var q := ApplyAll(p, prefix).value;
    ReopenedFields(p, result.name);
    InvSequence(Reopened(p, result.name), q.sequence);
    FreshOf(Reopened(p, result.name), q, result);
    ResultEventsAccepted(q, result, verifier);
    ApplyAllConcat(p, prefix, ResultEvents(p.effects, result, verifier));
    VerifiedInv(q, result, ApplyAll(q, ResultEvents(p.effects, result, verifier)).value.sequence);
  }

  lemma ReopenedFields(p: Projection, name: string)
    ensures Reopened(p, name).state == Validating && Reopened(p, name).effects == p.effects
  {
  }

  lemma InvSequence(p: Projection, n: nat)
    requires LedgerInv(p)
    ensures LedgerInv(p.(sequence := n))
  {
  }

  lemma VerifiedInv(q: Projection, result: Verification, n: nat)
    requires LedgerInv(q) && q.state == Validating && FreshResult(q, result)
    requires ResultByName(q.verifications, result.name).None?
    ensures LedgerInv(q.(
              verifications := q.verifications + [result],
              effects := if result.status.Passed? then Confirmed(q.effects) else q.effects,
              state := if result.status.Passed? then Validating else ValidationFailed, sequence := n))
    ensures result.status.Passed? ==> AllValidated(Confirmed(q.effects))
  {
    hide DistinctIDs, ValidEffects, Confirmed;
    ConfirmedFacts(q.effects);
    ResultByNameBound(q.verifications, result.name);
    assert InProgress(Confirmed(q.effects)) by { assert AllValidated(Confirmed(q.effects)); }
  }

  /** A passing platform run therefore leaves exactly what preparing authority
      asks of effects and results, when the other results pass too and nothing is
      irreversible. */
  lemma ValidationEnablesPrepare(p: Projection, result: Verification, requester: Principal, verifier: Principal, at: int,
                                 outcome: SequenceOutcome, now: int)
    requires LedgerInv(p) && MayVerify(p, result.name, at) && FreshResult(p, result)
    requires result.status.Passed? && outcome in {SequenceAllow, SequenceRequireApproval}
    ensures var q := ApplyAll(p, ValidationBatch(p, result, requester, verifier, at));
            q.Some? &&
            (Ripe(q.value, outcome, now) <==>
               && (forall v <- Reopened(p, result.name).verifications + [result] ::
                     v.status.Passed? && v.platformRun && Unexpired(v, now))
               && (forall e <- p.effects :: !e.irreversible) && exists e <- p.effects :: !e.readOnly)
  {
    hide LedgerInv, MayVerify, FreshResult, ApplyAll, ValidationBatch;
    ValidationAccepted(p, result, requester, verifier, at);
    ReopenedFields(p, result.name);
    var q := ApplyAll(p, ValidationBatch(p, result, requester, verifier, at)).value;
    forall i | 0 <= i < |p.effects|
      ensures q.effects[i].irreversible == p.effects[i].irreversible && q.effects[i].readOnly == p.effects[i].readOnly
    {}
    if forall e <- p.effects :: !e.irreversible {
      forall e | e in q.effects ensures !e.irreversible {
        var i :| 0 <= i < |q.effects| && q.effects[i] == e;
        assert p.effects[i] in p.effects;
      }
    }
    if forall e <- q.effects :: !e.irreversible {
      forall e | e in p.effects ensures !e.irreversible {
        var i :| 0 <= i < |p.effects| && p.effects[i] == e;
        assert q.effects[i] in q.effects;
      }
    }
    if e :| e in p.effects && !e.readOnly {
      var i :| 0 <= i < |p.effects| && p.effects[i] == e;
      assert q.effects[i] in q.effects;
    }
    if e :| e in q.effects && !e.readOnly {
      var i :| 0 <= i < |q.effects| && q.effects[i] == e;
      assert p.effects[i] in p.effects;
    }
  }

  lemma {:induction false} ReleaseIDsConfirmed(effects: seq<Effect>)
    ensures ReleaseIDs(Confirmed(effects)) == ReleaseIDs(effects)
  {
    if effects != [] {
      var init := effects[..|effects| - 1];
      ReleaseIDsConfirmed(init);
      assert Confirmed(effects)[..|init|] == Confirmed(init);
    }
  }

  // ---- the handler --------------------------------------------------------------------

  /** verificationRetryPrefix and appendPlatformVerification up to the store. The
      reductions the handler makes on the way all succeed (ValidationAccepted). */
  method BuildValidation(p: Projection, result: Verification, requester: Principal, verifier: Principal, at: int)
    returns (built: Option<seq<Event>>)
    requires LedgerInv(p) && FreshResult(p, result)
    ensures built.Some? <==> MayVerify(p, result.name, at)
    ensures built.Some? ==> built.value == ValidationBatch(p, result, requester, verifier, at)
  {
    hide LedgerInv, Apply, ApplyAll, Confirmations, FreshResult;
    if p.state != Validating && p.state != ValidationFailed { return None; }
    var existing := ResultByName(p.verifications, result.name);
    if p.state == ValidationFailed && existing.None? { return None; }
    if existing.Some? && existing.value.status.Passed? && Unexpired(existing.value, at) { return None; }
    ValidationAccepted(p, result, requester, verifier, at);
    var events := [];
    if p.state == ValidationFailed { events := events + [StateEvent(requester, ValidationFailed, Validating, "")]; }
    if existing.Some? {
      events := events + [Event(requester, VerificationSuperseded(existing.value.id, "verification rerun requested", at))];
    }
    assert events == RetryPrefix(p, result.name, requester, at);
    ghost var prefix := events;
    if result.status.Passed? {
      NothingConfirmed(p, verifier);
      assert p.effects[..0] == [];
      for i := 0 to |p.effects|
        invariant events == prefix + Confirmations(p.effects[..i], verifier)
      {
        ConfirmationsStep(p.effects, i, verifier);
        if p.effects[i].status != EffectStaged { continue; }
        events := events + [Event(verifier, EffectChanged(p.effects[i].id, EffectStaged, Validated, None))];
      }
      assert p.effects[..|p.effects|] == p.effects;
    }
    ghost var changed := events;
    events := events + [Event(verifier, VerificationRecorded(result))];
    if !result.status.Passed? {
      events := events + [StateEvent(verifier, Validating, ValidationFailed, "verification did not pass")];
      assert events == prefix + ResultEvents(p.effects, result, verifier);
    } else {
      assert events == prefix + ResultEvents(p.effects, result, verifier);
    }
    return Some(events);
  }

  /** Every event of the batch is one of another handler's. */
  lemma {:induction false} ConfirmationsAreOthers(effects: seq<Effect>, verifier: Principal)
    ensures forall i :: 0 <= i < |Confirmations(effects, verifier)| ==>
              OtherHandler(Confirmations(effects, verifier)[i].payload)
  {
    if effects != [] { ConfirmationsAreOthers(effects[..|effects| - 1], verifier); }
  }

  lemma ValidationIsOther(p: Projection, result: Verification, requester: Principal, verifier: Principal, at: int)
    ensures var batch := ValidationBatch(p, result, requester, verifier, at);
            batch != [] && forall i :: 0 <= i < |batch| ==> OtherHandler(batch[i].payload)
  {
    hide Confirmations;
    ConfirmationsAreOthers(p.effects, verifier);
  }
}
