/** The evidence record and the gate's verdict (internal/gatemole/evidence.go:38-119,
    163-357, internal/gatemole/policy.go:141-242). */
module ReleaseGate {
  import opened Text
  import opened Paths
  import opened Obligations
  import opened Contracts
  import opened Coverage
  import Policy

  datatype Inputs = Inputs(
    m: Manifest,
    plans: map<string, seq<Obligation>>,
    built: nat,
    specErrors: seq<Problem>,
    manifestErrors: seq<Problem>,
    results: seq<ArtifactResult>,
    invalidEvidence: seq<string>,
    signedRequired: bool)

  predicate Linked(x: Inputs) { UseArtifacts(x.m, x.results) }

  predicate UnsignedProblem(x: Inputs) { x.signedRequired && x.built > 0 && !Linked(x) }

  predicate UnlinkedProblem(x: Inputs) { x.built > 0 && !Linked(x) && Rank(x.m.risk) >= 1 }

  predicate FailingArtifact(results: seq<ArtifactResult>) {
    exists i :: 0 <= i < |results| && results[i].failedTests != []
  }

  predicate ArtifactProblem(x: Inputs) {
    UnsignedProblem(x) || UnlinkedProblem(x) || FailingArtifact(x.results) || x.invalidEvidence != []
  }

  predicate EffectProblem(m: Manifest) {
    m.externalEffects != [] && m.rollbackStrategy == "" && m.compensation == []
  }

  /** Some touched spec has an obligation without evidence. */
  predicate Uncovered(x: Inputs) {
    exists id, o :: id in x.m.specsTouched && o in Get(x.plans, id) && !Covered(x.m, x.results, o)
  }

  /** Everything the verifiers block on. */
  predicate VerifierProblem(x: Inputs) {
    || x.built == 0 || x.specErrors != [] || x.manifestErrors != []
    || ArtifactProblem(x) || x.m.failedTests > 0 || Uncovered(x) || EffectProblem(x.m)
  }

  function Imported(results: seq<ArtifactResult>): seq<Finding> {
    if results == [] then []
    else Imported(results[..|results| - 1]) + results[|results| - 1].verifierFindings
  }

  predicate SomeBlocks(findings: seq<Finding>) {
    exists i :: 0 <= i < |findings| && Blocks(findings[i])
  }

  function Claims(findings: seq<Finding>): seq<string> {
    if findings == [] then []
    else
      var last := findings[|findings| - 1];
      Claims(findings[..|findings| - 1]) + if Blocks(last) then [last.claim] else []
  }

  lemma {:induction false} ClaimsPresent(findings: seq<Finding>)
    ensures Claims(findings) != [] <==> SomeBlocks(findings)
  {
    if findings != [] {
      var n := |findings| - 1;
      ClaimsPresent(findings[..n]);
      SomeBlocksNext(findings, n);
      assert findings[..n + 1] == findings;
    }
  }

  /** The facts a policy sees of the evidence. */
  function FactsOf(x: Inputs, findings: seq<Finding>, missing: bool): Policy.Input {
    Policy.Input(x.m.risk, x.m.canaryEnabled, x.signedRequired, x.specErrors != [] || x.manifestErrors != [],
                 x.invalidEvidence != [], missing, SomeBlocks(findings), Claims(findings))
  }

  /** The facts of a sound change are known before the gate runs. */
  function SoundFacts(m: Manifest, signedRequired: bool): Policy.Input {
    Policy.Input(m.risk, m.canaryEnabled, signedRequired, false, false, false, false, [])
  }

  class Evidence {
    const x: Inputs
    var required: map<string, seq<Obligation>>
    var covered: map<string, seq<Obligation>>
    var missing: map<string, seq<Obligation>>
    var findings: seq<Finding>
    var decision: string
    var rulesFired: seq<string>

    constructor (x: Inputs)
      ensures this.x == x && required == map[] && covered == map[] && missing == map[] && findings == []
    {
      this.x := x;
      required, covered, missing := map[], map[], map[];
      findings, decision, rulesFired := [], "", [];
    }

    function Keeps(want: bool): Obligation -> bool {
      o => Covered(x.m, x.results, o) == want
    }

    /** Covered and missing split what is required, in order. */
    ghost predicate Split()
      reads this`required, this`covered, this`missing
    {
      && (forall id {:trigger Get(covered, id)} {:trigger Get(missing, id)} ::
            && Get(covered, id) == Select(Get(required, id), Keeps(true))
            && Get(missing, id) == Select(Get(required, id), Keeps(false)))
      && forall id <- missing :: missing[id] != []
    }

    /** The obligations of every touched spec, split by evidence, in plan order. */
    ghost predicate Partitioned()
      reads this`required, this`covered, this`missing
    {
      Split() && forall id :: Get(required, id) == Met(x.plans, x.m.specsTouched, id)
    }

    method AddObligation(id: string, o: Obligation, coverage: map<string, set<string>>, useArtifacts: bool)
      requires Split()
      requires forall kind, id :: InCoverage(coverage, kind, id) <==> ArtifactCovers(x.results, kind, id)
      requires useArtifacts == UseArtifacts(x.m, x.results)
      modifies this`required, this`covered, this`missing
      ensures Split() && required == Put(old(required), id, o)
    {
      hide Covered, Select, InCoverage, ArtifactCovers, UseArtifacts;
      assert Get(covered, id) == Select(Get(required, id), Keeps(true));
      assert Get(missing, id) == Select(Get(required, id), Keeps(false));
      SelectStep(Get(required, id), o, Keeps(true));
      SelectStep(Get(required, id), o, Keeps(false));
      required := Put(required, id, o);
      var isCovered := ObligationCovered(x.m, x.results, o, coverage, useArtifacts);
      if isCovered {
        covered := Put(covered, id, o);
      } else {
        missing := Put(missing, id, o);
      }
      forall other
        ensures Get(covered, other) == Select(Get(required, other), Keeps(true))
        ensures Get(missing, other) == Select(Get(required, other), Keeps(false))
      {
        assert Get(old(covered), other) == Select(Get(old(required), other), Keeps(true));
        assert Get(old(missing), other) == Select(Get(old(required), other), Keeps(false));
        assert other != id ==> Get(required, other) == Get(old(required), other);
      }
      assert forall other <- missing :: missing[other] != [];
    }

    method AddPlan(id: string, plan: seq<Obligation>, coverage: map<string, set<string>>, useArtifacts: bool)
      requires Split()
      requires forall kind, id :: InCoverage(coverage, kind, id) <==> ArtifactCovers(x.results, kind, id)
      requires useArtifacts == UseArtifacts(x.m, x.results)
      modifies this`required, this`covered, this`missing
      ensures Split() && Get(required, id) == Get(old(required), id) + plan
      ensures forall other :: other != id ==> Get(required, other) == Get(old(required), other)
    {
      hide Split, Select, InCoverage, ArtifactCovers;
      for k := 0 to |plan|
        invariant Split() && Get(required, id) == Get(old(required), id) + plan[..k]
        invariant forall other :: other != id ==> Get(required, other) == Get(old(required), other)
      {
        AddObligation(id, plan[k], coverage, useArtifacts);
        assert plan[..k + 1] == plan[..k] + [plan[k]];
      }
      assert plan[..|plan|] == plan;
    }

    method BuildCoverage()
      requires required == map[] && covered == map[] && missing == map[]
      modifies this`required, this`covered, this`missing
      ensures Partitioned()
    {
      hide Covered, Select, InCoverage, ArtifactCovers, Split;
      var coverage := ArtifactCoverageByKind(x.results);
      var useArtifacts := |x.m.artifacts| > 0 || |x.results| > 0;
      var touched := x.m.specsTouched;
      assert Split() by { EmptySplit(); }
      for i := 0 to |touched|
        invariant Split()
        invariant forall id :: Get(required, id) == Met(x.plans, touched[..i], id)
      {
        var id := touched[i];
        assert touched[..i + 1][..i] == touched[..i];
        if id !in x.plans { continue; }
        var plan := x.plans[id];
        AddPlan(id, plan, coverage, useArtifacts);
      }
      assert touched[..|touched|] == touched;
    }

    lemma EmptySplit()
      requires required == map[] && covered == map[] && missing == map[]
      ensures Split()
    {
    }

    /** Something is missing exactly when a touched obligation has no evidence. */
    lemma MissingMeaning()
      requires Partitioned()
      ensures missing != map[] <==> Uncovered(x)
      ensures missing != map[] <==> exists kind :: Missing(missing, kind)
    {
      hide Covered, Met;
      if missing != map[] {
        var id :| id in missing;
        var o := missing[id][0];
        assert o in Get(missing, id) && Get(missing, id) == Select(Get(required, id), Keeps(false));
        SelectMembers(Get(required, id), Keeps(false), o);
        MetMembers(x.plans, x.m.specsTouched, id, o);
        assert id in x.m.specsTouched && o in Get(x.plans, id) && !Covered(x.m, x.results, o);
        TextsPresent(missing[id], o.kind);
        assert Missing(missing, o.kind);
      }
      if Uncovered(x) {
        var id, o :| id in x.m.specsTouched && o in Get(x.plans, id) && !Covered(x.m, x.results, o);
        MetMembers(x.plans, x.m.specsTouched, id, o);
        SelectMembers(Get(required, id), Keeps(false), o);
        assert Get(missing, id) == Select(Get(required, id), Keeps(false));
        assert o in Get(missing, id);
      }
    }

    // ---- the verifiers, in the order they run --------------------------------------

    method VerifyCompilation()
      modifies this`findings
      ensures Extends(old(findings), findings, x.built == 0)
    {
      if x.built == 0 {
        findings := findings + [Finding("compiler", "high", "block", "no obligations were compiled for this change", "")];
      }
    }

    method VerifySpecAdherence()
      modifies this`findings
      ensures Extends(old(findings), findings, x.specErrors != [] || x.manifestErrors != [])
    {
      for i := 0 to |x.specErrors|
        invariant Extends(old(findings), findings, i > 0)
      {
        findings := findings + [Finding("spec_adherence", "high", "block", "spec registry is invalid", "")];
      }
      for i := 0 to |x.manifestErrors|
        invariant Extends(old(findings), findings, x.specErrors != [] || i > 0)
      {
        findings := findings + [Finding("spec_adherence", "high", "block", "change manifest is invalid", "")];
      }
    }

    method VerifyArtifactEvidence()
      modifies this`findings
      ensures Extends(old(findings), findings, ArtifactProblem(x))
    {
      hide FailingArtifact, Join;
      var linked := |x.m.artifacts| > 0 || |x.results| > 0;
      if x.signedRequired && x.built > 0 && !linked {
        findings := findings + [Finding("evidence_linker", "high", "block", "signed evidence artifacts are required", "")];
      }
      if x.built > 0 && !linked && Rank(x.m.risk) >= Rank("medium") {
        findings := findings
          + [Finding("evidence_linker", "high", "block", "artifact-backed evidence is required for medium/high/critical changes", x.m.risk)];
      }
      ghost var soFar := UnsignedProblem(x) || UnlinkedProblem(x);
      assert x.results[..0] == [];
      NothingFails();
      for i := 0 to |x.results|
        invariant Extends(old(findings), findings, soFar || FailingArtifact(x.results[..i]))
      {
        assert x.results[..i + 1] == x.results[..i] + [x.results[i]];
        FailingNext(x.results, i);
        if |x.results[i].failedTests| == 0 { continue; }
        findings := findings + [Finding("test_adequacy", "high", "block", x.results[i].id, Join(x.results[i].failedTests, ','))];
      }
      assert x.results[..|x.results|] == x.results;
      for i := 0 to |x.invalidEvidence|
        invariant Extends(old(findings), findings, soFar || FailingArtifact(x.results) || i > 0)
      {
        findings := findings + [Finding("evidence_linker", "high", "block", "evidence artifact is invalid", x.invalidEvidence[i])];
      }
    }

    method VerifyBehaviorEvidence()
      modifies this`findings
      ensures Extends(old(findings), findings, Missing(missing, Behavior))
    {
      var after, _ := ReportMissing(findings, missing, Behavior, "behavior", " has uncovered behavior obligations");
      findings := after;
    }

    method VerifyTestAdequacy()
      modifies this`findings
      ensures Extends(old(findings), findings, x.m.failedTests > 0 || Missing(missing, RequiredTest))
    {
      if x.m.failedTests > 0 {
        findings := findings + [Finding("test_adequacy", "high", "block", "test suite failed", "")];
      }
      ghost var between := findings;
      var after, _ := ReportMissing(findings, missing, RequiredTest, "test_adequacy", " has uncovered required tests");
      findings := after;
      ExtendsTransitive(old(findings), between, findings, x.m.failedTests > 0, Missing(missing, RequiredTest));
    }

    method VerifySecurityEvidence()
      modifies this`findings
      ensures Extends(old(findings), findings, Missing(missing, Security))
    {
      var after, _ := ReportMissing(findings, missing, Security, "security", " has uncovered security invariants");
      findings := after;
    }

    method VerifyReleaseReadiness()
      modifies this`findings
      ensures Extends(old(findings), findings,
                      Missing(missing, Rollback) || Missing(missing, RuntimeSignal) || EffectProblem(x.m))
    {
      var first, _ := ReportMissing(findings, missing, Rollback, "rollback", " has uncovered rollback obligations");
      findings := first;
      var second, _ := ReportMissing(findings, missing, RuntimeSignal, "observability", " has uncovered runtime signal obligations");
      findings := second;
      ExtendsTransitive(old(findings), first, second, Missing(missing, Rollback), Missing(missing, RuntimeSignal));
      if |x.m.externalEffects| > 0 && x.m.rollbackStrategy == "" && |x.m.compensation| == 0 {
        findings := findings + [Finding("rollback", "medium", "block", "external side effects need rollback or compensation",
                                        Join(x.m.externalEffects, ','))];
      }
    }

    /** runVerifiers adds blocking findings only, and some exactly when there is
        something to block on. */
    method RunVerifiers()
      requires Partitioned()
      modifies this`findings
      ensures Extends(old(findings), findings, VerifierProblem(x))
    {
      hide Extends, Partitioned, Missing, Uncovered, ArtifactProblem, EffectProblem;
      ghost var f0 := findings;
      VerifyCompilation();
      ghost var f1 := findings;
      VerifySpecAdherence();
      ghost var f2 := findings;
      ExtendsTransitive(f0, f1, f2, x.built == 0, x.specErrors != [] || x.manifestErrors != []);
      VerifyArtifactEvidence();
      ghost var f3 := findings;
      ghost var p := x.built == 0 || x.specErrors != [] || x.manifestErrors != [];
      ExtendsTransitive(f0, f2, f3, p, ArtifactProblem(x));
      p := p || ArtifactProblem(x);
      VerifyBehaviorEvidence();
      ghost var f4 := findings;
      ExtendsTransitive(f0, f3, f4, p, Missing(missing, Behavior));
      p := p || Missing(missing, Behavior);
      VerifyTestAdequacy();
      ghost var f5 := findings;
      ExtendsTransitive(f0, f4, f5, p, x.m.failedTests > 0 || Missing(missing, RequiredTest));
      p := p || x.m.failedTests > 0 || Missing(missing, RequiredTest);
      VerifySecurityEvidence();
      ghost var f6 := findings;
      ExtendsTransitive(f0, f5, f6, p, Missing(missing, Security));
      p := p || Missing(missing, Security);
      VerifyReleaseReadiness();
      ExtendsTransitive(f0, f6, findings, p,
                        Missing(missing, Rollback) || Missing(missing, RuntimeSignal) || EffectProblem(x.m));
      MissingMeaning();
      KindsAreFive(missing);
    }

    /** importVerifierFindings */
    method ImportVerifierFindings()
      modifies this`findings
      ensures findings == old(findings) + Imported(x.results)
    {
      for i := 0 to |x.results|
        invariant findings == old(findings) + Imported(x.results[..i])
      {
        assert x.results[..i + 1][..i] == x.results[..i];
        findings := findings + x.results[i].verifierFindings;
      }
      assert x.results[..|x.results|] == x.results;
    }

    /** PolicyInputFromEvidence */
    method PolicyInput() returns (input: Policy.Input)
      ensures input == FactsOf(x, findings, missing != map[])
    {
      var claims := [];
      for i := 0 to |findings|
        invariant claims == Claims(findings[..i])
      {
        assert findings[..i + 1][..i] == findings[..i];
        if Blocks(findings[i]) { claims := claims + [findings[i].claim]; }
      }
      assert findings[..|findings|] == findings;
      ClaimsPresent(findings);
      input := Policy.Input(x.m.risk, x.m.canaryEnabled, x.signedRequired,
                            |x.specErrors| > 0 || |x.manifestErrors| > 0, |x.invalidEvidence| > 0,
                            missing != map[], |claims| > 0, claims);
    }

    /** ApplyReleasePolicy */
    method ApplyReleasePolicy(rules: seq<Policy.Rule>) returns (ghost input: Policy.Input)
      requires Policy.ValidRules(rules)
      modifies this`decision, this`rulesFired
      ensures input == FactsOf(x, findings, missing != map[])
      ensures decision == "block" <==>
                || input.hasInvalidSpecOrManifest || input.hasBlockingFindings
                || Policy.BlockReached(rules, input)
                || forall i :: 0 <= i < |rules| ==> !Policy.Matches(rules[i].when, input)
      ensures decision != "block" ==> Policy.Decides(rules, input, decision)
      ensures var fired := Policy.FiredFrom(rules, input, 0, false);
              rulesFired == (if fired == [] then ["policy_no_match"] else fired)
                            + if (input.hasInvalidSpecOrManifest || input.hasBlockingFindings) && fired != []
                                 && !Policy.BlockReached(rules, input)
                              then ["policy_floor_block"] else []
    {
      hide Policy.Matches, SomeBlocks;
      Policy.FirstFires(rules, FactsOf(x, findings, missing != map[]), 0);
      var facts := PolicyInput();
      input := facts;
      var evaluated := Policy.EvaluateReleasePolicy(rules, facts);
      var result := Policy.EnforcePolicyFloor(facts, evaluated);
      decision := result.decision;
      rulesFired := result.rulesFired;
    }
  }

  lemma KindsAreFive(missing: map<string, seq<Obligation>>)
    ensures (exists kind :: Missing(missing, kind)) <==>
            Missing(missing, Behavior) || Missing(missing, RequiredTest) || Missing(missing, Security)
            || Missing(missing, Rollback) || Missing(missing, RuntimeSignal)
  {
    hide Missing;
    if kind :| Missing(missing, kind) {
      match kind
      case Behavior =>
      case _ =>
    }
  }

  lemma NothingFails()
    ensures !FailingArtifact([])
  {
  }

  lemma FailingNext(results: seq<ArtifactResult>, i: nat)
    requires i < |results|
    ensures FailingArtifact(results[..i + 1]) <==> FailingArtifact(results[..i]) || results[i].failedTests != []
  {
    if results[i].failedTests != [] { assert results[..i + 1][i].failedTests != []; }
    var before, after := results[..i], results[..i + 1];
    if FailingArtifact(before) {
      var k :| 0 <= k < |before| && before[k].failedTests != [];
      assert after[k].failedTests != [];
    }
    if FailingArtifact(after) {
      var k :| 0 <= k < |after| && after[k].failedTests != [];
      if k < i { assert before[k].failedTests != []; }
    }
  }

  lemma SomeBlocksNext(findings: seq<Finding>, i: nat)
    requires i < |findings|
    ensures SomeBlocks(findings[..i + 1]) <==> SomeBlocks(findings[..i]) || Blocks(findings[i])
  {
    if Blocks(findings[i]) { assert Blocks(findings[..i + 1][i]); }
    var before, after := findings[..i], findings[..i + 1];
    if SomeBlocks(before) {
      var k :| 0 <= k < |before| && Blocks(before[k]);
      assert Blocks(after[k]);
    }
    if SomeBlocks(after) {
      var k :| 0 <= k < |after| && Blocks(after[k]);
      if k < i { assert Blocks(before[k]); }
    }
  }

  /** The findings of a run block exactly on a verifier problem or an imported
      blocking finding. */
  lemma RunBlocks(findings: seq<Finding>, problem: bool, imported: seq<Finding>)
    requires Extends([], findings, problem)
    ensures SomeBlocks(findings + imported) <==> problem || SomeBlocks(imported)
  {
    var all := findings + imported;
    if problem { assert Blocks(all[0]); }
    if SomeBlocks(imported) {
      var i :| 0 <= i < |imported| && Blocks(imported[i]);
      assert Blocks(all[|findings| + i]);
    }
    if SomeBlocks(all) && !problem {
      var i :| 0 <= i < |all| && Blocks(all[i]);
      assert imported[i] == all[i];
    }
  }

  // ---- the whole gate ---------------------------------------------------------------

  /** What a change must satisfy, in terms of specs, manifest and linked evidence. */
  ghost predicate Sound(specs: map<string, Spec>, x: Inputs) {
    && (forall id <- specs :: WellFormedSpec(specs[id]))
    && WellFormedManifest(x.m, specs)
    && x.m.specsTouched != []
    && (forall id <- x.m.specsTouched ::
          id in specs && id in x.plans && PlanOf(x.plans[id], specs[id]) && x.plans[id] != []
          && forall o <- x.plans[id] :: Covered(x.m, x.results, o))
    && Traceable(x.m, specs)
    && (Rank(x.m.risk) >= 1 || x.signedRequired ==> Linked(x))
    && !FailingArtifact(x.results) && x.invalidEvidence == [] && x.m.failedTests <= 0
    && !EffectProblem(x.m)
    && !SomeBlocks(Imported(x.results))
  }

  // ---- the same in the fields of specs, manifest and artifacts -----------------------

  const Risks := ["low", "medium", "high", "critical"]

  const Kinds := ["behavior_trace", "security_check", "test_coverage", "runtime_metric", "rollback_plan", "verifier_output"]

  const HexDigits := "0123456789abcdefABCDEF"

  predicate Filled(values: seq<string>) { values != [] && CleanList(values) }

  predicate SpecPasses(s: Spec) {
    && s.id != "" && s.version in ["", "gatemole.spec.v0"] && s.owner != "" && s.risk in Risks && s.strategy != ""
    && Filled(s.behavior) && Filled(s.security) && Filled(s.requiredTests) && Filled(s.metrics)
    && CleanList(s.ownedPaths) && forall path <- s.ownedPaths :: InTree(path)
  }

  predicate ArtifactPasses(a: Artifact) {
    && a.id != "" && a.kind in Kinds && a.producer != "" && a.path != "" && a.exitCode != None && Filled(a.obligations)
    && (a.sha256 == "" || (|a.sha256| == 64 && forall c <- a.sha256 :: c in HexDigits))
    && (a.evidenceBundle == "" <==> a.signatureBundle == "")
    && (a.evidenceBundle == "" <==> a.signerIdentity == "")
    && (a.evidenceBundle == "" <==> a.signerIssuer == "")
  }

  /** A spec may be no riskier than the change that touches it. */
  predicate NoRiskier(spec: string, change: string) {
    || spec == change || spec == "low" || change == "critical" || (spec == "medium" && change == "high")
  }

  predicate ManifestPasses(m: Manifest, specs: map<string, Spec>) {
    && m.version in ["", "gatemole.manifest.v0"] && m.taskID != "" && m.taskSummary != "" && m.risk in Risks
    && m.specsTouched != [] && CleanList(m.specsTouched)
    && (forall id <- m.specsTouched :: id in specs && NoRiskier(specs[id].risk, m.risk))
    && CleanList(m.externalEffects) && CleanList(m.coversBehavior) && CleanList(m.coversTests)
    && CleanList(m.coversSecurity) && CleanList(m.metrics) && Filled(m.commands)
    && (forall a <- m.artifacts :: ArtifactPasses(a))
    && (forall i, j :: 0 <= i < j < |m.artifacts| ==> m.artifacts[i].id != m.artifacts[j].id)
    && (m.canaryEnabled ==> 1 <= m.canaryPercent <= 100)
    && (m.externalEffects == [] || m.rollbackStrategy != "" || m.compensation != [])
    && m.failedTests <= 0
  }

  /** Every changed file lies in the tree, some spec owns it, and all that do are
      touched. */
  predicate FilesPass(m: Manifest, specs: map<string, Spec>) {
    forall file <- m.changedFiles ::
      && InTree(file)
      && (exists id :: id in specs && exists path <- specs[id].ownedPaths :: OwnedPathMatches(path, Clean(file)))
      && (forall id <- specs, path <- specs[id].ownedPaths :: OwnedPathMatches(path, Clean(file)) ==> id in m.specsTouched)
  }

  /** Which evidence each kind of obligation needs. */
  const Proofs := [(Behavior, "behavior_trace"), (Security, "security_check"), (RequiredTest, "test_coverage"),
                   (RuntimeSignal, "runtime_metric"), (Rollback, "rollback_plan")]

  /** An obligation is shown by a valid artifact of its kind that lists it, or where
      there are no artifacts by the manifest's own field. */
  predicate Shown(m: Manifest, results: seq<ArtifactResult>, o: Obligation) {
    if m.artifacts == [] && results == [] then
      || (o.kind == Behavior && o.text in m.coversBehavior)
      || (o.kind == Security && o.text in m.coversSecurity)
      || (o.kind == RequiredTest && o.text in m.coversTests)
      || (o.kind == RuntimeSignal && o.text in m.metrics)
      || (o.kind == Rollback && m.rollbackStrategy != "")
    else
      && (exists r <- results :: r.status == "valid" && (o.kind, r.kind) in Proofs && o.id in r.coveredObligations)
      && (o.kind == Rollback ==> m.rollbackStrategy != "")
  }

  /** The obligations of a kind carry these texts and no others. */
  predicate Asks(plan: seq<Obligation>, kind: Kind, texts: seq<string>) {
    && (forall text <- texts :: exists o <- plan :: o.kind == kind && o.text == text)
    && (forall o <- plan :: o.kind == kind ==> o.text in texts)
  }

  function RollbackText(spec: Spec): string { if spec.flag == "" then spec.strategy else spec.strategy + ":" + spec.flag }

  /** What a change that passes has shown: every entry of every touched spec is an
      obligation, every obligation is shown, and artifacts only name obligations
      they can show. */
  predicate Shows(specs: map<string, Spec>, x: Inputs) {
    && (forall id <- x.m.specsTouched ::
          && id in specs && id in x.plans
          && Asks(x.plans[id], Behavior, specs[id].behavior) && Asks(x.plans[id], Security, specs[id].security)
          && Asks(x.plans[id], RequiredTest, specs[id].requiredTests)
          && Asks(x.plans[id], RuntimeSignal, specs[id].metrics)
          && Asks(x.plans[id], Rollback, if specs[id].strategy == "" then [] else [RollbackText(specs[id])])
          && forall o <- x.plans[id] :: Shown(x.m, x.results, o))
    && (forall a <- x.m.artifacts, named <- a.obligations ::
          exists id :: id in x.plans
            && exists o <- x.plans[id] :: o.id == named && (a.kind == "verifier_output" || (o.kind, a.kind) in Proofs))
    && (x.m.artifacts == [] && x.results == [] ==> x.m.risk == "low" && !x.signedRequired)
  }

  /** A change that passes: well-formed specs and manifest, owned files, everything
      shown, and nothing reported against it. */
  predicate Passes(specs: map<string, Spec>, x: Inputs) {
    && (forall id <- specs :: SpecPasses(specs[id])) && ManifestPasses(x.m, specs) && FilesPass(x.m, specs)
    && Shows(specs, x)
    && x.invalidEvidence == []
    && forall r <- x.results :: r.failedTests == [] && forall f <- r.verifierFindings :: f.decision != "block"
  }

  lemma ProvenByName(kind: Kind, name: string)
    ensures EvidenceName(RequiredEvidence(kind)) == name <==> (kind, name) in Proofs
  {
  }

  lemma CoveredIsShown(m: Manifest, results: seq<ArtifactResult>, o: Obligation)
    ensures Covered(m, results, o) <==> Shown(m, results, o)
  {
    hide Proofs;
    forall name ensures EvidenceName(RequiredEvidence(o.kind)) == name <==> (o.kind, name) in Proofs {
      ProvenByName(o.kind, name);
    }
    if r :| r in results && r.status == "valid" && (o.kind, r.kind) in Proofs && o.id in r.coveredObligations {
      var i :| 0 <= i < |results| && results[i] == r;
      assert CoversBy(results[i], r.kind, o.id);
    }
  }

  /** A plan whose entries of a kind are one section asks for that section. */
  lemma SectionAsks(plan: seq<Obligation>, entries: seq<(Kind, string, nat)>, kind: Kind, texts: seq<string>, at: nat)
    requires Matches(plan, entries) && at + |texts| <= |entries|
    requires forall i :: 0 <= i < |entries| ==> (entries[i].0 == kind <==> at <= i < at + |texts|)
    requires forall i :: 0 <= i < |texts| ==> entries[at + i].1 == texts[i]
    ensures Asks(plan, kind, texts)
  {
    forall text | text in texts ensures exists o <- plan :: o.kind == kind && o.text == text {
      var i :| 0 <= i < |texts| && texts[i] == text;
      assert plan[at + i] in plan && (plan[at + i].kind, plan[at + i].text, plan[at + i].index) == entries[at + i];
    }
    forall o | o in plan && o.kind == kind ensures o.text in texts {
      var i :| 0 <= i < |plan| && plan[i] == o;
      assert (plan[i].kind, plan[i].text, plan[i].index) == entries[i] && entries[at + (i - at)].1 == texts[i - at];
    }
  }

  lemma PlanAsks(plan: seq<Obligation>, spec: Spec)
    requires PlanOf(plan, spec)
    ensures Asks(plan, Behavior, spec.behavior) && Asks(plan, Security, spec.security)
    ensures Asks(plan, RequiredTest, spec.requiredTests) && Asks(plan, RuntimeSignal, spec.metrics)
    ensures Asks(plan, Rollback, if spec.strategy == "" then [] else [RollbackText(spec)])
  {
    hide Asks, Matches;
    var e := Entries(spec);
    var b, s, r := |spec.behavior|, |spec.security|, |spec.requiredTests|;
    SectionAsks(plan, e, Behavior, spec.behavior, 0);
    SectionAsks(plan, e, Security, spec.security, b);
    SectionAsks(plan, e, RequiredTest, spec.requiredTests, b + s);
    SectionAsks(plan, e, RuntimeSignal, spec.metrics, b + s + r);
    SectionAsks(plan, e, Rollback, if spec.strategy == "" then [] else [RollbackText(spec)], b + s + r + |spec.metrics|);
  }

  lemma SpecMeaning(s: Spec)
    ensures WellFormedSpec(s) <==> SpecPasses(s)
  {
    hide Clean, CleanList;
    forall i | 0 <= i < |s.ownedPaths| ensures ValidOwnedPath(s.ownedPaths[i]) <==> s.ownedPaths[i] == "" || InTree(s.ownedPaths[i]) {
      NormalizeMeaning(s.ownedPaths[i]);
    }
    if WellFormedSpec(s) {
      NoEmptyItem(s.ownedPaths);
      forall path | path in s.ownedPaths ensures InTree(path) {
        var i :| 0 <= i < |s.ownedPaths| && s.ownedPaths[i] == path;
        assert ValidOwnedPath(s.ownedPaths[i]);
      }
    }
    if SpecPasses(s) {
      assert forall i :: 0 <= i < |s.ownedPaths| ==> s.ownedPaths[i] in s.ownedPaths;
    }
  }

  lemma NoEmptyItem(values: seq<string>)
    requires CleanList(values)
    ensures "" !in values
  {
  }

  lemma ArtifactMeaning(a: Artifact)
    ensures WellFormedArtifact(a) <==> ArtifactPasses(a)
  {
    hide CleanList;
    forall c ensures HexDigit(c) <==> c in HexDigits { HexMeaning(c); }
    assert forall i :: 0 <= i < |a.sha256| ==> a.sha256[i] in a.sha256;
  }

  lemma HexMeaning(c: char)
    ensures HexDigit(c) <==> c in HexDigits
  {
    assert HexDigits == "0123456789" + "abcdef" + "ABCDEF";
  }

  /** Soundness shows everything the specs ask for. */
  lemma SoundShows(specs: map<string, Spec>, x: Inputs, symbols: map<string, string>)
    requires Sound(specs, x) && ArtifactsResolve(x.m, symbols) && SymbolsOf(x.plans, symbols)
    ensures Shows(specs, x)
  {
    hide WellFormedSpec, Traceable, FailingArtifact, SomeBlocks, EffectProblem, PlanOf, Asks, Shown, Covered, Proofs;
    forall id | id in x.m.specsTouched
      ensures Asks(x.plans[id], Behavior, specs[id].behavior) && Asks(x.plans[id], Security, specs[id].security)
      ensures Asks(x.plans[id], RequiredTest, specs[id].requiredTests)
      ensures Asks(x.plans[id], RuntimeSignal, specs[id].metrics)
      ensures Asks(x.plans[id], Rollback, if specs[id].strategy == "" then [] else [RollbackText(specs[id])])
      ensures forall o <- x.plans[id] :: Shown(x.m, x.results, o)
    {
      PlanAsks(x.plans[id], specs[id]);
      forall o | o in x.plans[id] ensures Shown(x.m, x.results, o) { CoveredIsShown(x.m, x.results, o); }
    }
    forall a, named | a in x.m.artifacts && named in a.obligations
      ensures exists id :: id in x.plans
                && exists o <- x.plans[id] :: o.id == named && (a.kind == "verifier_output" || (o.kind, a.kind) in Proofs)
    {
      NamedObligation(x, symbols, a, named);
    }
  }

  lemma NamedObligation(x: Inputs, symbols: map<string, string>, a: Artifact, named: string)
    requires ArtifactsResolve(x.m, symbols) && SymbolsOf(x.plans, symbols) && a in x.m.artifacts && named in a.obligations
    ensures exists id :: id in x.plans
              && exists o <- x.plans[id] :: o.id == named && (a.kind == "verifier_output" || (o.kind, a.kind) in Proofs)
  {
    hide Proofs;
    var i :| 0 <= i < |x.m.artifacts| && x.m.artifacts[i] == a;
    assert ArtifactResolves(x.m.artifacts[i], symbols);
    var j :| 0 <= j < |a.obligations| && a.obligations[j] == named;
    var id :| id in x.plans && HasSymbol(x.plans[id], named, symbols[named]);
    var k :| 0 <= k < |x.plans[id]| && x.plans[id][k].id == named
             && EvidenceName(RequiredEvidence(x.plans[id][k].kind)) == symbols[named];
    ProvenByName(x.plans[id][k].kind, symbols[named]);
    assert x.plans[id][k] in x.plans[id];
  }

  lemma RisksCompare(a: string, b: string)
    requires a in Risks && b in Risks
    ensures Rank(a) <= Rank(b) <==> NoRiskier(a, b)
  {
  }

  lemma ManifestMeaning(m: Manifest, specs: map<string, Spec>)
    requires forall id <- specs :: specs[id].risk in Risks
    ensures WellFormedManifest(m, specs) && m.specsTouched != [] && !EffectProblem(m) && m.failedTests <= 0
            <==> ManifestPasses(m, specs)
  {
    hide CleanList, WellFormedArtifact, ArtifactPasses, NoRiskier, Rank;
    forall i | 0 <= i < |m.artifacts| ensures WellFormedArtifact(m.artifacts[i]) <==> ArtifactPasses(m.artifacts[i]) {
      ArtifactMeaning(m.artifacts[i]);
    }
    forall i | 0 <= i < |m.specsTouched| && m.specsTouched[i] in specs && m.risk in Risks
      ensures TouchesKnown(m, specs, m.specsTouched[i]) <==> NoRiskier(specs[m.specsTouched[i]].risk, m.risk)
    {
      RisksCompare(specs[m.specsTouched[i]].risk, m.risk);
    }
    assert forall i :: 0 <= i < |m.specsTouched| ==> m.specsTouched[i] in m.specsTouched;
    assert forall i :: 0 <= i < |m.artifacts| ==> m.artifacts[i] in m.artifacts;
  }

  lemma FileMeaning(m: Manifest, specs: map<string, Spec>, file: string)
    ensures FileTraceable(m, specs, file) <==>
            && InTree(file)
            && (exists id :: id in specs && exists path <- specs[id].ownedPaths :: OwnedPathMatches(path, Clean(file)))
            && (forall id <- specs, path <- specs[id].ownedPaths :: OwnedPathMatches(path, Clean(file)) ==> id in m.specsTouched)
  {
    hide Clean, OwnedPathMatches, InTree;
    NormalizeMeaning(file);
    forall id | id in specs
      ensures Owns(specs, id, Clean(file)) <==> exists path <- specs[id].ownedPaths :: OwnedPathMatches(path, Clean(file))
    {
      OwnsMeaning(specs, id, Clean(file));
    }
  }

  lemma OwnsMeaning(specs: map<string, Spec>, id: string, file: string)
    requires id in specs
    ensures Owns(specs, id, file) <==> exists path <- specs[id].ownedPaths :: OwnedPathMatches(path, file)
  {
    hide OwnedPathMatches;
    var paths := specs[id].ownedPaths;
    if path :| path in paths && OwnedPathMatches(path, file) {
      var i :| 0 <= i < |paths| && paths[i] == path;
    }
  }

  lemma FilesMeaning(m: Manifest, specs: map<string, Spec>)
    ensures Traceable(m, specs) <==> FilesPass(m, specs)
  {
    hide Clean, OwnedPathMatches, InTree, FileTraceable;
    forall file | file in m.changedFiles
      ensures FileTraceable(m, specs, file) <==>
              && InTree(file)
              && (exists id :: id in specs && exists path <- specs[id].ownedPaths :: OwnedPathMatches(path, Clean(file)))
              && (forall id <- specs, path <- specs[id].ownedPaths ::
                    OwnedPathMatches(path, Clean(file)) ==> id in m.specsTouched)
    {
      FileMeaning(m, specs, file);
    }
    assert forall i :: 0 <= i < |m.changedFiles| ==> m.changedFiles[i] in m.changedFiles;
  }

  lemma {:induction false} ReportsMeaning(results: seq<ArtifactResult>)
    ensures !SomeBlocks(Imported(results)) <==>
            forall r <- results :: forall f <- r.verifierFindings :: f.decision != "block"
  {
    if results != [] {
      var init, last := results[..|results| - 1], results[|results| - 1];
      ReportsMeaning(init);
      assert results == init + [last];
      BlocksConcat(Imported(init), last.verifierFindings);
    }
  }

  lemma BlocksConcat(a: seq<Finding>, b: seq<Finding>)
    ensures SomeBlocks(a + b) <==> SomeBlocks(a) || exists f <- b :: f.decision == "block"
  {
    if i :| 0 <= i < |a| && Blocks(a[i]) { assert Blocks((a + b)[i]); }
    if f :| f in b && f.decision == "block" {
      var i :| 0 <= i < |b| && b[i] == f;
      assert Blocks((a + b)[|a| + i]);
    }
    if i :| 0 <= i < |a + b| && Blocks((a + b)[i]) {
      if i < |a| { assert Blocks(a[i]); } else { assert b[i - |a|] in b; }
    }
  }

  lemma ShowsCovers(specs: map<string, Spec>, x: Inputs)
    requires Shows(specs, x)
    ensures forall id <- x.m.specsTouched :: id in x.plans && forall o <- x.plans[id] :: Covered(x.m, x.results, o)
  {
    hide Asks, Shown, Covered, Proofs;
    forall id, o | id in x.m.specsTouched && o in x.plans[id] ensures Covered(x.m, x.results, o) {
      CoveredIsShown(x.m, x.results, o);
    }
  }

  /** The verifiers' notion of soundness is this, field by field. */
  lemma SoundIsPasses(specs: map<string, Spec>, x: Inputs, symbols: map<string, string>)
    requires ArtifactsResolve(x.m, symbols) && SymbolsOf(x.plans, symbols)
    requires forall id <- x.plans :: id in specs && PlanOf(x.plans[id], specs[id])
    ensures Sound(specs, x) <==> Passes(specs, x)
  {
    hide WellFormedSpec, SpecPasses, WellFormedManifest, ManifestPasses, FilesPass, Traceable, PlanOf, Asks, Shown, Shows,
         Covered, Proofs, ArtifactsResolve, SymbolsOf, SomeBlocks;
    forall id | id in specs ensures WellFormedSpec(specs[id]) <==> SpecPasses(specs[id]) { SpecMeaning(specs[id]); }
    FilesMeaning(x.m, specs);
    ReportsMeaning(x.results);
    assert !FailingArtifact(x.results) <==> forall r <- x.results :: r.failedTests == [] by {
      assert forall i :: 0 <= i < |x.results| ==> x.results[i] in x.results;
    }
    if forall id <- specs :: SpecPasses(specs[id]) {
      forall id | id in specs ensures specs[id].risk in Risks { SpecRisk(specs[id]); }
      ManifestMeaning(x.m, specs);
    }
    if Sound(specs, x) { SoundShows(specs, x, symbols); }
    if Passes(specs, x) { PassesSound(specs, x); }
  }

  lemma SpecRisk(s: Spec)
    requires SpecPasses(s)
    ensures s.risk in Risks
  {
  }

  /** What Sound asks of plans and links, from what a passing change shows. */
  lemma PassesSound(specs: map<string, Spec>, x: Inputs)
    requires Passes(specs, x) && forall id <- x.plans :: id in specs && PlanOf(x.plans[id], specs[id])
    ensures forall id <- x.m.specsTouched ::
              id in specs && id in x.plans && PlanOf(x.plans[id], specs[id]) && x.plans[id] != []
              && forall o <- x.plans[id] :: Covered(x.m, x.results, o)
    ensures Rank(x.m.risk) >= 1 || x.signedRequired ==> Linked(x)
  {
    hide WellFormedSpec, SpecPasses, ManifestPasses, FilesPass, PlanOf, Covered, Shown, Asks, Proofs;
    ShowsCovers(specs, x);
    forall id | id in x.m.specsTouched ensures x.plans[id] != [] {
      SpecMeaning(specs[id]);
      PlanNonempty(x.plans[id], specs[id]);
    }
  }

  /** The gate under the built-in policy, end to end. */
  method CollectByDefault(specs: map<string, Spec>, m: Manifest, results: seq<ArtifactResult>, invalidEvidence: seq<string>,
                          signedRequired: bool, word: CharClass, lower: string -> string)
    returns (evidence: Evidence, ghost symbols: map<string, string>)
    requires ValidClass(word)
    ensures fresh(evidence) && evidence.x.m == m && evidence.x.results == results
            && evidence.x.invalidEvidence == invalidEvidence && evidence.x.signedRequired == signedRequired
    ensures SymbolsOf(evidence.x.plans, symbols)
    ensures evidence.decision == "block" <==> !(Passes(specs, evidence.x) && ArtifactsResolve(m, symbols))
    ensures evidence.decision == "auto_merge" ==> m.risk in ["low", "medium"]
    ensures evidence.decision == "canary" ==> m.risk in ["high", "critical"] && m.canaryEnabled
    ensures evidence.decision == "human_escalation" ==> m.risk in ["high", "critical"] && !m.canaryEnabled
    ensures evidence.decision in ["block", "auto_merge", "canary", "human_escalation"]
  {
    hide Passes, ArtifactsResolve, SymbolsOf, Policy.Matches, Policy.BlockReached, Policy.Decides, Policy.ValidRules,
         Policy.DefaultReleasePolicy, FactsOf, Uncovered;
    var rules := Policy.DefaultReleasePolicy();
    Policy.DefaultIsValid();
    ghost var input;
    evidence, symbols, input := CollectEvidence(specs, m, results, invalidEvidence, signedRequired, rules, word, lower);
    DefaultDecides(SoundFacts(m, signedRequired), evidence.decision);
    if Passes(specs, evidence.x) { PassesRisk(specs, evidence.x); }
  }

  lemma PassesRisk(specs: map<string, Spec>, x: Inputs)
    requires Passes(specs, x)
    ensures x.m.risk in ["low", "medium", "high", "critical"]
  {
  }

  lemma DefaultDecides(input: Policy.Input, decision: string)
    requires !input.hasInvalidSpecOrManifest && !input.hasBlockingFindings
    ensures !Policy.BlockReached(Policy.DefaultReleasePolicy(), input)
    ensures exists i :: 0 <= i < |Policy.DefaultReleasePolicy()| && Policy.Matches(Policy.DefaultReleasePolicy()[i].when, input)
    ensures Policy.Decides(Policy.DefaultReleasePolicy(), input, decision) ==> decision == Policy.DefaultTable(input)
  {
    hide Policy.Matches;
    Policy.DefaultRuleMatches(input);
    var rules := Policy.DefaultReleasePolicy();
    assert Policy.Matches(rules[2].when, input) || Policy.Matches(rules[3].when, input) || Policy.Matches(rules[4].when, input);
  }

  /** The gate (CollectEvidence, after loading). Whatever rules the policy has, a
      decision other than block means a sound change; and a sound change whose
      artifacts name compiled obligations is blocked only by its policy. */
  method CollectEvidence(specs: map<string, Spec>, m: Manifest, results: seq<ArtifactResult>, invalidEvidence: seq<string>,
              signedRequired: bool, rules: seq<Policy.Rule>, word: CharClass, lower: string -> string)
    returns (evidence: Evidence, ghost symbols: map<string, string>, ghost input: Policy.Input)
    requires ValidClass(word) && Policy.ValidRules(rules)
    ensures fresh(evidence) && evidence.Partitioned()
    ensures evidence.x.m == m && evidence.x.results == results && evidence.x.invalidEvidence == invalidEvidence
            && evidence.x.signedRequired == signedRequired
    ensures SymbolsOf(evidence.x.plans, symbols)
    ensures input == FactsOf(evidence.x, evidence.findings, evidence.missing != map[])
    ensures input.hasMissingObligations <==> Uncovered(evidence.x)
    ensures input.hasBlockingFindings <==> !(Passes(specs, evidence.x) && ArtifactsResolve(m, symbols))
    ensures Passes(specs, evidence.x) && ArtifactsResolve(m, symbols) ==> input == SoundFacts(m, signedRequired)
    ensures evidence.decision != "block" ==>
              Passes(specs, evidence.x) && ArtifactsResolve(m, symbols)
              && Policy.Decides(rules, SoundFacts(m, signedRequired), evidence.decision)
    ensures Passes(specs, evidence.x) && ArtifactsResolve(m, symbols) ==>
              (evidence.decision == "block" <==>
                 || Policy.BlockReached(rules, SoundFacts(m, signedRequired))
                 || forall i :: 0 <= i < |rules| ==> !Policy.Matches(rules[i].when, SoundFacts(m, signedRequired)))
  {
    hide WellFormedSpec, WellFormedManifest, Traceable, ArtifactsResolve, PlanOf, SymbolsOf, CompiledID, Sound,
         Extends, SomeBlocks, VerifierProblem, Policy.Matches, Policy.ValidRules, Policy.BlockReached, Policy.Decides,
         Claims, Covered, Uncovered, Passes;
    var p := CompileManifestPipeline(specs, m, word, lower);
    symbols := p.symbols;
    var x := Inputs(m, p.plans, p.obligationsBuilt, p.specErrors, p.manifestErrors, results, invalidEvidence, signedRequired);
    evidence := new Evidence(x);
    evidence.BuildCoverage();
    evidence.RunVerifiers();
    ghost var reported := evidence.findings;
    evidence.ImportVerifierFindings();
    RunBlocks(reported, VerifierProblem(x), Imported(results));
    evidence.MissingMeaning();
    ClaimsPresent(evidence.findings);
    input := evidence.ApplyReleasePolicy(rules);
    SoundMeaning(specs, x, p.symbols);
    ProblemFacts(x);
    if ArtifactsResolve(m, p.symbols) { SoundIsPasses(specs, x, p.symbols); }
  }

  lemma ProblemFacts(x: Inputs)
    ensures !VerifierProblem(x) ==>
              x.specErrors == [] && x.manifestErrors == [] && x.invalidEvidence == [] && !Uncovered(x)
  {
    hide Uncovered;
  }

  /** With compiled inputs, soundness is the absence of every verifier problem. */
  lemma SoundMeaning(specs: map<string, Spec>, x: Inputs, symbols: map<string, string>)
    requires x.specErrors == [] <==> forall id <- specs :: WellFormedSpec(specs[id])
    requires x.manifestErrors == [] <==>
               WellFormedManifest(x.m, specs) && Traceable(x.m, ValidSpecs(specs)) && ArtifactsResolve(x.m, symbols)
    requires forall id :: id in x.plans <==> CompiledID(x.m.specsTouched, specs, id)
    requires forall id <- x.plans :: id in specs && PlanOf(x.plans[id], specs[id])
    requires x.built == 0 <==> forall id <- x.plans :: x.plans[id] == []
    ensures Sound(specs, x) && ArtifactsResolve(x.m, symbols) <==>
            !VerifierProblem(x) && !SomeBlocks(Imported(x.results))
  {
    hide WellFormedSpec, Traceable, ArtifactsResolve, PlanOf, Covered, EffectProblem, FailingArtifact, SomeBlocks, CleanLists,
         TouchesKnown, WellFormedArtifacts, ValidRisk;
    if forall id <- specs :: WellFormedSpec(specs[id]) {
      assert ValidSpecs(specs) == specs;
      forall id | id in x.plans ensures x.plans[id] != [] {
        PlanNonempty(x.plans[id], specs[id]);
      }
    }
    if !VerifierProblem(x) {
      TouchedKnown(x.m, specs);
      forall id, o | id in x.m.specsTouched && o in Get(x.plans, id) ensures Covered(x.m, x.results, o) {}
    }
    if Sound(specs, x) {
      assert x.m.specsTouched[0] in x.m.specsTouched;
    }
  }

  lemma TouchedKnown(m: Manifest, specs: map<string, Spec>)
    requires WellFormedManifest(m, specs)
    ensures forall id <- m.specsTouched :: id in specs
  {
    forall id | id in m.specsTouched ensures id in specs {
      var i :| 0 <= i < |m.specsTouched| && m.specsTouched[i] == id;
      assert TouchesKnown(m, specs, m.specsTouched[i]);
    }
  }

  lemma PlanNonempty(plan: seq<Obligation>, spec: Spec)
    requires WellFormedSpec(spec) && PlanOf(plan, spec)
    ensures plan != []
  {
    assert |Section(Behavior, spec.behavior)| > 0;
  }
}
