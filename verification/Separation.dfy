/** Separation of duties at release (internal/kernel/api/authority.go:66-151,
    294-425), checked over the whole event history. */
module Separation {
  import opened Text
  import opened Ledger

  type Verifier = (Decision, Package, int) -> bool

  /** sameAuthority */
  predicate SameAuthority(left: Principal, right: Principal) {
    || (left.id != "" && left.id == right.id)
    || (left.issuer != "" && left.issuer == right.issuer
        && left.claimsDigest != "" && left.claimsDigest == right.claimsDigest)
  }

  lemma SameAuthorityLaws(a: Principal, b: Principal)
    ensures SameAuthority(a, b) == SameAuthority(b, a)
    ensures a.id != "" ==> SameAuthority(a, a)
  {
  }

  /** The relation does not chain, so every pair has to be compared. */
  lemma SameAuthorityNotTransitive()
    ensures exists a, b, c :: SameAuthority(a, b) && SameAuthority(b, c) && !SameAuthority(a, c)
  {
    var a, b, c := Principal("x", "i", "d"), Principal("x", "j", "e"), Principal("y", "j", "e");
    assert SameAuthority(a, b) && SameAuthority(b, c) && !SameAuthority(a, c);
  }

  /** What a principal can be recognised by: its ID, and the claims an issuer
      vouches for. */
  datatype Mark = Named(id: string) | Vouched(issuer: string, claims: string)

  function Marks(p: Principal): set<Mark> {
    (if p.id == "" then {} else {Named(p.id)})
    + (if "" in {p.issuer, p.claimsDigest} then {} else {Vouched(p.issuer, p.claimsDigest)})
  }

  /** Two principals are one authority exactly when they share a mark. */
  lemma SameAuthorityByMarks(a: Principal, b: Principal)
    ensures SameAuthority(a, b) <==> Marks(a) * Marks(b) != {}
  {
    if SameAuthority(a, b) {
      if a.id != "" && a.id == b.id { assert Named(a.id) in Marks(a) * Marks(b); }
      else { assert Vouched(a.issuer, a.claimsDigest) in Marks(a) * Marks(b); }
    }
    if mark :| mark in Marks(a) * Marks(b) {
      assert mark == Named(a.id) || mark == Vouched(a.issuer, a.claimsDigest);
      assert mark == Named(b.id) || mark == Vouched(b.issuer, b.claimsDigest);
    }
  }

  /** What event i of a history says about an approver. */
  predicate EventSeparates(e: Event, approver: Principal, digest: string) {
    if e.payload.ApprovalResolved? then
      e.payload.decision.digest == digest || !SameAuthority(approver, e.payload.decision.approver)
    else !SameAuthority(approver, e.actor)
  }

  /** An approver who is not the sponsor, not a participating agent, and shares
      no authority with any other actor or approver in the history. */
  predicate Separated(p: Projection, log: seq<Event>, approver: Principal, digest: string) {
    && !SameAuthority(approver, p.sponsor)
    && approver.id !in p.agentRunIDs
    && forall i :: 0 <= i < |log| ==> EventSeparates(log[i], approver, digest)
  }

  method ValidateApprovalSeparation(p: Projection, log: seq<Event>, approver: Principal, digest: string)
    returns (ok: bool)
    ensures ok <==> Separated(p, log, approver, digest)
  {
    if SameAuthority(approver, p.sponsor) { return false; }
    for i := 0 to |p.agentRunIDs|
      invariant approver.id !in p.agentRunIDs[..i]
    {
      if p.agentRunIDs[i] == approver.id { return false; }
    }
    assert p.agentRunIDs[..|p.agentRunIDs|] == p.agentRunIDs;
    for i := 0 to |log|
      invariant forall k :: 0 <= k < i ==> EventSeparates(log[k], approver, digest)
    {
      match log[i].payload {
        case ApprovalResolved(d) =>
          if d.digest == digest { continue; }
          if SameAuthority(approver, d.approver) { return false; }
        case _ =>
          if SameAuthority(approver, log[i].actor) { return false; }
      }
    }
    return true;
  }

  /** No two decisions are the same authority, and none is the releaser's. */
  predicate ReleaseSeparated(releaser: Principal, decisions: seq<Decision>) {
    && (forall i :: 0 <= i < |decisions| ==> !SameAuthority(releaser, decisions[i].approver))
    && (forall i, j :: 0 <= i < j < |decisions| ==>
          !SameAuthority(decisions[j].approver, decisions[i].approver))
  }

  method ValidateReleaseSeparation(releaser: Principal, decisions: seq<Decision>) returns (ok: bool)
    ensures ok <==> ReleaseSeparated(releaser, decisions)
  {
    hide SameAuthority;
    for index := 0 to |decisions|
      invariant ReleaseSeparated(releaser, decisions[..index])
    {
      if SameAuthority(releaser, decisions[index].approver) { return false; }
      for previous := 0 to index
        invariant forall k :: 0 <= k < previous ==>
                    !SameAuthority(decisions[index].approver, decisions[k].approver)
      {
        if SameAuthority(decisions[index].approver, decisions[previous].approver) { return false; }
      }
    }
    assert decisions[..|decisions|] == decisions;
    return true;
  }

  /** The last decision of a history with a given digest. */
  function Recorded(log: seq<Event>, digest: string): Option<Decision> {
    if log == [] then None
    else
      var last := log[|log| - 1];
      if last.payload.ApprovalResolved? && last.payload.decision.digest == digest
      then Some(last.payload.decision) else Recorded(log[..|log| - 1], digest)
  }

  predicate AllRecorded(digests: seq<string>, log: seq<Event>) {
    forall i :: 0 <= i < |digests| ==> Recorded(log, digests[i]).Some?
  }

  /** The decisions behind the projection's approval digests, in order. */
  function Decisions(digests: seq<string>, log: seq<Event>): (decisions: seq<Decision>)
    requires AllRecorded(digests, log)
    ensures |decisions| == |digests|
  {
    seq(|digests|, i requires 0 <= i < |digests| => Recorded(log, digests[i]).value)
  }

  /** approvedDecisions */
  method ApprovedDecisions(digests: seq<string>, log: seq<Event>) returns (result: Option<seq<Decision>>)
    ensures result.Some? <==> AllRecorded(digests, log)
    ensures result.Some? ==> result.value == Decisions(digests, log)
  {
    if |digests| == 0 { return Some([]); }
    var wanted := set d <- digests;
    var found: map<string, Decision> := map[];
    for i := 0 to |log|
      invariant forall d :: d in found <==> d in wanted && Recorded(log[..i], d).Some?
      invariant forall d <- found :: found[d] == Recorded(log[..i], d).value
    {
      assert log[..i + 1][..i] == log[..i];
      if !log[i].payload.ApprovalResolved? { continue; }
      var decision := log[i].payload.decision;
      if decision.digest in wanted { found := found[decision.digest := decision]; }
    }
    assert log[..|log|] == log;
    var decisions := [];
    for i := 0 to |digests|
      invariant |decisions| == i
      invariant forall k :: 0 <= k < i ==> Recorded(log, digests[k]) == Some(decisions[k])
    {
      assert digests[i] in wanted;
      if digests[i] !in found { return None; }
      decisions := decisions + [found[digests[i]]];
    }
    return Some(decisions);
  }

  /** One decision that still counts. */
  predicate DecisionHolds(p: Projection, log: seq<Event>, package: Package, now: int, verify: Verifier, d: Decision) {
    d.verdict.Approve? && Separated(p, log, d.approver, d.digest) && verify(d, package, now)
  }

  predicate Approved(p: Projection, log: seq<Event>, package: Package, releaser: Principal, now: int, verify: Verifier) {
    && AllRecorded(p.approvalDigests, log)
    && var decisions := Decisions(p.approvalDigests, log);
       && ReleaseSeparated(releaser, decisions)
       && (forall i :: 0 <= i < |decisions| ==> DecisionHolds(p, log, package, now, verify, decisions[i]))
       && (forall k :: 0 <= k < |package.requiredClasses| ==>
             Covers(decisions, package.requiredClasses[k]))
  }

  predicate Covers(decisions: seq<Decision>, class_: string) {
    exists i :: 0 <= i < |decisions| && decisions[i].approvalClass == class_
  }

  predicate AuthorityHolds(p: Projection, log: seq<Event>, releaser: Principal, now: int, policyDigest: string,
                           profilesHold: bool, verify: Verifier) {
    && p.package.Some? && p.plan.Some?
    && now < p.package.value.expiresAt
    && p.package.value.policyDigest == policyDigest && p.plan.value.policyDigest == policyDigest
    && profilesHold
    && (p.package.value.requiredClasses == [] || Approved(p, log, p.package.value, releaser, now, verify))
  }

  /** validateReleaseAuthority */
  method ValidateReleaseAuthority(p: Projection, log: seq<Event>, releaser: Principal, now: int, policyDigest: string,
                                  profilesHold: bool, verify: Verifier)
    returns (ok: bool)
    ensures ok <==> AuthorityHolds(p, log, releaser, now, policyDigest, profilesHold, verify)
  {
    hide ReleaseSeparated, Separated, Recorded;
    if p.package.None? || p.plan.None? { return false; }
    var package := p.package.value;
    if package.expiresAt <= now { return false; }
    if package.policyDigest != policyDigest || p.plan.value.policyDigest != policyDigest { return false; }
    if !profilesHold { return false; }
    if |package.requiredClasses| == 0 { return true; }
    var result := ApprovedDecisions(p.approvalDigests, log);
    if result.None? { return false; }
    var decisions := result.value;
    var separated := ValidateReleaseSeparation(releaser, decisions);
    if !separated { return false; }
    var covered: set<string> := {};
    for i := 0 to |decisions|
      invariant forall k :: 0 <= k < i ==> DecisionHolds(p, log, package, now, verify, decisions[k])
      invariant forall c :: c in covered <==> exists k :: 0 <= k < i && decisions[k].approvalClass == c
    {
      if !decisions[i].verdict.Approve? { return false; }
      separated := ValidateApprovalSeparation(p, log, decisions[i].approver, decisions[i].digest);
      if !separated { return false; }
      if !verify(decisions[i], package, now) { return false; }
      covered := covered + {decisions[i].approvalClass};
    }
    for k := 0 to |package.requiredClasses|
      invariant forall j :: 0 <= j < k ==> Covers(decisions, package.requiredClasses[j])
    {
      if package.requiredClasses[k] !in covered { return false; }
    }
    return true;
  }

  // ---- over the whole history --------------------------------------------------------

  predicate NoApprovals(batch: seq<Event>, actor: Principal) {
    forall i :: 0 <= i < |batch| ==> batch[i].actor == actor && !batch[i].payload.ApprovalResolved?
  }

  /** The history through the release batch, seen from every approver. */
  predicate DutiesSeparated(p: Projection, log: seq<Event>, releaser: Principal) {
    p.package.Some? && p.package.value.requiredClasses != [] ==>
      && AllRecorded(p.approvalDigests, log)
      && var decisions := Decisions(p.approvalDigests, log);
         && ReleaseSeparated(releaser, decisions)
         && (forall i :: 0 <= i < |decisions| ==>
               decisions[i].verdict.Approve? && Separated(p, log, decisions[i].approver, decisions[i].digest))
         && (forall k :: 0 <= k < |p.package.value.requiredClasses| ==>
               Covers(decisions, p.package.value.requiredClasses[k]))
  }

  lemma {:induction false} RecordedAppend(log: seq<Event>, batch: seq<Event>, actor: Principal, digest: string)
    requires NoApprovals(batch, actor)
    ensures Recorded(log + batch, digest) == Recorded(log, digest)
  {
    if batch == [] {
      assert log + batch == log;
    } else {
      var init := batch[..|batch| - 1];
      RecordedAppend(log, init, actor, digest);
      assert (log + batch)[..|log + batch| - 1] == log + init;
    }
  }

  /** Checked authority separates the history up to and including the batch the
      releaser appends on top of the very history that was checked. */
  lemma AuthoritySeparates(p: Projection, log: seq<Event>, batch: seq<Event>, releaser: Principal, now: int,
                           policyDigest: string, profilesHold: bool, verify: Verifier)
    requires AuthorityHolds(p, log, releaser, now, policyDigest, profilesHold, verify)
    requires NoApprovals(batch, releaser)
    ensures DutiesSeparated(p, log + batch, releaser)
  {
    hide SameAuthority, Recorded;
    if p.package.value.requiredClasses != [] {
      var digests := p.approvalDigests;
      forall i | 0 <= i < |digests| ensures Recorded(log + batch, digests[i]) == Recorded(log, digests[i]) {
        RecordedAppend(log, batch, releaser, digests[i]);
      }
      var decisions := Decisions(digests, log);
      assert Decisions(digests, log + batch) == decisions;
      forall i | 0 <= i < |decisions|
        ensures Separated(p, log + batch, decisions[i].approver, decisions[i].digest)
      {
        assert DecisionHolds(p, log, p.package.value, now, verify, decisions[i]);
        SeparatedAppend(p, log, batch, releaser, decisions[i].approver, decisions[i].digest);
      }
    }
  }

  lemma SeparatedAppend(p: Projection, log: seq<Event>, batch: seq<Event>, actor: Principal, approver: Principal, digest: string)
    requires Separated(p, log, approver, digest) && NoApprovals(batch, actor) && !SameAuthority(actor, approver)
    ensures Separated(p, log + batch, approver, digest)
  {
    hide SameAuthority;
    Symmetric(actor, approver);
    forall k | 0 <= k < |log + batch| ensures EventSeparates((log + batch)[k], approver, digest) {
      if k >= |log| { assert (log + batch)[k] == batch[k - |log|]; }
    }
  }

  lemma Symmetric(a: Principal, b: Principal)
    ensures SameAuthority(a, b) == SameAuthority(b, a)
  {
  }

  /** Digests name decisions: the reducer recomputes them and they do not collide. */
  predicate Digested(log: seq<Event>) {
    forall i, j :: 0 <= i < |log| && 0 <= j < |log| && log[i].payload.ApprovalResolved?
                   && log[j].payload.ApprovalResolved?
                   && log[i].payload.decision.digest == log[j].payload.decision.digest ==>
      log[i].payload.decision == log[j].payload.decision
  }

  predicate ApprovesAt(log: seq<Event>, i: nat, digest: string)
    requires i < |log|
  {
    && log[i].payload.ApprovalResolved? && log[i].payload.decision.digest == digest
    && log[i].payload.decision.verdict.Approve? && log[i].payload.decision.approver == log[i].actor
  }

  predicate BackedBy(log: seq<Event>, digest: string) {
    exists i: nat :: i < |log| && ApprovesAt(log, i, digest)
  }

  /** Every approval digest a replayed projection carries stands for an approval
      event by its own approver. */
  predicate ApprovalsBacked(p: Projection, log: seq<Event>) {
    forall k :: 0 <= k < |p.approvalDigests| ==> BackedBy(log, p.approvalDigests[k])
  }

  /** Only an approval by its own approver adds a digest. */
  lemma DigestsStep(p: Projection, e: Event)
    requires Apply(p, e).Some?
    ensures var after := Apply(p, e).value.approvalDigests;
            || after == p.approvalDigests || after == []
            || (e.payload.ApprovalResolved? && ApprovesAt([e], 0, e.payload.decision.digest)
                && after == p.approvalDigests + [e.payload.decision.digest])
  {
    match e.payload
    case EffectChanged(_, _, _, _) =>
    case StateChanged(_, _, _, _) =>
    case ApprovalResolved(_) =>
    case _ =>
  }

  lemma ApprovalsBackedStep(p: Projection, log: seq<Event>, e: Event)
    requires ApprovalsBacked(p, log) && Apply(p, e).Some?
    ensures ApprovalsBacked(Apply(p, e).value, log + [e])
  {
    hide Apply;
    DigestsStep(p, e);
    var q := Apply(p, e).value;
    var after := log + [e];
    forall k | 0 <= k < |q.approvalDigests| ensures BackedBy(after, q.approvalDigests[k]) {
      if k < |p.approvalDigests| {
        assert BackedBy(log, p.approvalDigests[k]);
        var i: nat :| i < |log| && ApprovesAt(log, i, p.approvalDigests[k]);
        assert ApprovesAt(after, i, q.approvalDigests[k]);
      } else {
        assert ApprovesAt(after, |log|, q.approvalDigests[k]);
      }
    }
  }

  lemma {:induction false} ApprovalsBackedAll(p: Projection, log: seq<Event>, events: seq<Event>)
    requires ApprovalsBacked(p, log) && ApplyAll(p, events).Some?
    ensures ApprovalsBacked(ApplyAll(p, events).value, log + events)
  {
    if events == [] {
      assert log + events == log;
    } else {
      var init, e := events[..|events| - 1], events[|events| - 1];
      ApprovalsBackedAll(p, log, init);
      ApprovalsBackedStep(ApplyAll(p, init).value, log + init, e);
      assert log + init + [e] == log + events;
    }
  }

  lemma {:induction false} RecordedFinds(log: seq<Event>, i: nat)
    requires Digested(log) && i < |log| && log[i].payload.ApprovalResolved?
    ensures Recorded(log, log[i].payload.decision.digest) == Some(log[i].payload.decision)
  {
    var last := log[|log| - 1];
    if i < |log| - 1 && !(last.payload.ApprovalResolved?
                          && last.payload.decision.digest == log[i].payload.decision.digest) {
      var init := log[..|log| - 1];
      assert Digested(init) by {
        assert forall k :: 0 <= k < |init| ==> init[k] == log[k];
      }
      RecordedFinds(init, i);
    }
  }

  /** On a history the reducer accepted, approvedDecisions always succeeds and
      returns approvals only. */
  lemma ApprovalsAlwaysFound(log: seq<Event>)
    requires Replay(log).Some? && Digested(log)
    ensures var digests := Replay(log).value.approvalDigests;
            && AllRecorded(digests, log)
            && forall d <- Decisions(digests, log) :: d.verdict.Approve?
  {
    var first := Start(log[0].payload.sponsor, log[0].payload.agentRunIDs);
    ApprovalsBackedAll(first, log[..1], log[1..]);
    assert log[..1] + log[1..] == log;
    var digests := Replay(log).value.approvalDigests;
    forall k | 0 <= k < |digests|
      ensures Recorded(log, digests[k]).Some? && Recorded(log, digests[k]).value.verdict.Approve?
    {
      assert BackedBy(log, digests[k]);
      var i: nat :| i < |log| && ApprovesAt(log, i, digests[k]);
      RecordedFinds(log, i);
    }
  }
}
