/** Preparing authority to commit (internal/kernel/transaction/prepare.go:25-182):
    which validated transactions get a plan and a package, and what is in them. */
module Authority {
  import opened Text
  import opened Ledger
  import opened Lockstep

  datatype SequenceOutcome = SequenceAllow | SequenceRequireApproval | SequenceBlock | SequenceRevise

  /** One hour, in nanoseconds. */
  const PackageLifetime := 3_600_000_000_000

  datatype Prepared = Prepared(plan: Plan, package: Package, outstanding: seq<string>)

  /** The digest of a package, given everything else in it. */
  type Digest = (Plan, seq<string>, int) -> string

  /** What a transaction needs: passing, unexpired platform verifications, every
      effect either read-only or validated, none irreversible, something to release,
      and a sequence decision that lets it go on. */
  predicate Ripe(p: Projection, outcome: SequenceOutcome, now: int) {
    && p.state == Validating && outcome in {SequenceAllow, SequenceRequireApproval}
    && p.verifications != []
    && (forall v <- p.verifications ::
          v.status == Passed && v.platformRun && match v.expiresAt case None => true case Some(at) => now < at)
    && (forall e <- p.effects :: !e.irreversible && (e.readOnly || e.status == Validated))
    && exists e <- p.effects :: !e.readOnly
  }

  /** PrepareAuthority */
  method PrepareAuthority(p: Projection, outcome: SequenceOutcome, policyDigest: string, target: string, expected: string,
                          approvalID: string, digestOf: Digest, now: int)
    returns (result: Option<Prepared>)
    ensures result.Some? <==> Ripe(p, outcome, now)
    ensures result.Some? ==>
              var (plan, package) := (result.value.plan, result.value.package);
              && plan.target == target && plan.expected == expected && plan.policyDigest == package.policyDigest == policyDigest
              && plan.steps == ReleaseIDs(p.effects) && package.expiresAt == now + PackageLifetime
              && package.digest == digestOf(plan, package.requiredClasses, package.expiresAt)
              && (outcome == SequenceAllow ==> package.requiredClasses == [] && result.value.outstanding == [])
              && (outcome == SequenceRequireApproval ==>
                    package.requiredClasses == ["security-reviewer"] && result.value.outstanding == [approvalID])
  {
    if p.state != Validating { return None; }
    if |p.verifications| == 0 { return None; }
    for i := 0 to |p.verifications|
      invariant forall k :: 0 <= k < i ==> p.verifications[k].status == Passed && p.verifications[k].platformRun
    {
      if !p.verifications[i].status.Passed? || !p.verifications[i].platformRun { return None; }
    }
    for i := 0 to |p.verifications|
      invariant forall k :: 0 <= k < i ==> Unexpired(p.verifications[k], now)
    {
      if p.verifications[i].expiresAt.Some? && p.verifications[i].expiresAt.value <= now { return None; }
    }
    for i := 0 to |p.effects|
      invariant forall k :: 0 <= k < i ==> !p.effects[k].irreversible && (p.effects[k].readOnly || p.effects[k].status == Validated)
    {
      if !p.effects[i].readOnly && p.effects[i].status != Validated { return None; }
      if p.effects[i].irreversible { return None; }
    }
    if outcome != SequenceAllow && outcome != SequenceRequireApproval { return None; }
    var steps := [];
    for i := 0 to |p.effects|
      invariant steps == ReleaseIDs(p.effects[..i])
    {
      assert p.effects[..i + 1][..i] == p.effects[..i];
      if p.effects[i].readOnly { continue; }
      steps := steps + [p.effects[i].id];
    }
    assert p.effects[..|p.effects|] == p.effects;
    StepsPresent(p.effects);
    if |steps| == 0 { return None; }
    var plan := Plan(target, expected, policyDigest, steps);
    var classes, outstanding := [], [];
    if outcome == SequenceRequireApproval { classes, outstanding := ["security-reviewer"], [approvalID]; }
    var expiresAt := now + PackageLifetime;
    return Some(Prepared(plan, Package(digestOf(plan, classes, expiresAt), policyDigest, classes, expiresAt), outstanding));
  }

  lemma {:induction false} StepsPresent(effects: seq<Effect>)
    ensures ReleaseIDs(effects) != [] <==> exists e <- effects :: !e.readOnly
  {
    if effects != [] {
      var init, last := effects[..|effects| - 1], effects[|effects| - 1];
      StepsPresent(init);
      assert effects == init + [last];
    }
  }

  /** What is prepared is accepted: the reducer's own conditions follow. */
  lemma RipeCanPrepare(p: Projection, outcome: SequenceOutcome, now: int, prepared: Prepared)
    requires Ripe(p, outcome, now) && prepared.plan.steps == ReleaseIDs(p.effects)
    requires prepared.package.requiredClasses == [] <==> prepared.outstanding == []
    ensures CanPrepare(p, prepared.plan, prepared.package, prepared.outstanding)
  {
    StepsPresent(p.effects);
    assert forall i :: 0 <= i < |p.effects| ==> p.effects[i] in p.effects;
  }
}
