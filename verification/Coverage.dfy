/** The compile and coverage half of the release gate (internal/gatemole/compiler.go:47-153,
    internal/gatemole/evidence.go): compile the touched specs, partition their
    obligations by evidence, let the verifiers report, apply a policy. */
module Coverage {
  import opened Text
  import opened Obligations
  import opened Contracts
  import Policy

  datatype Finding = Finding(verifier: string, severity: string, decision: string, claim: string, evidence: string)

  predicate Blocks(f: Finding) { f.decision == "block" }

  /** What linking one manifest artifact to its file produced. */
  datatype ArtifactResult = ArtifactResult(
    id: string,
    kind: string,
    status: string,
    coveredObligations: seq<string>,
    failedTests: seq<string>,
    verifierFindings: seq<Finding>)

  // ---- compilation -------------------------------------------------------------------

  datatype Pipeline = Pipeline(
    specErrors: seq<Problem>,
    manifestErrors: seq<Problem>,
    plans: map<string, seq<Obligation>>,
    symbols: map<string, string>,
    obligationsBuilt: nat)

  function ValidSpecs(specs: map<string, Spec>): map<string, Spec> {
    map id <- specs | WellFormedSpec(specs[id]) :: specs[id]
  }

  /** A plan is the spec's obligations, entry by entry, under distinct IDs. */
  predicate PlanOf(plan: seq<Obligation>, spec: Spec) {
    Matches(plan, Entries(spec)) && DistinctIDs(plan)
  }

  predicate CompiledID(touched: seq<string>, specs: map<string, Spec>, id: string) {
    id in touched && id in specs && WellFormedSpec(specs[id])
  }

  /** Every artifact names compiled obligations of its own evidence kind. */
  predicate ArtifactsResolve(m: Manifest, symbols: map<string, string>) {
    forall i :: 0 <= i < |m.artifacts| ==> ArtifactResolves(m.artifacts[i], symbols)
  }

  predicate ArtifactResolves(a: Artifact, symbols: map<string, string>) {
    forall k :: 0 <= k < |a.obligations| ==>
      a.obligations[k] in symbols && a.kind in ["verifier_output", symbols[a.obligations[k]]]
  }

  method ValidateArtifactReferences(m: Manifest, symbols: map<string, string>) returns (errors: seq<Problem>)
    ensures errors == [] <==> ArtifactsResolve(m, symbols)
  {
    errors := [];
    for i := 0 to |m.artifacts|
      invariant errors == [] <==> forall j :: 0 <= j < i ==> ArtifactResolves(m.artifacts[j], symbols)
    {
      var a := m.artifacts[i];
      ghost var before := errors;
      for k := 0 to |a.obligations|
        invariant errors == [] <==> before == [] && forall j :: 0 <= j < k ==>
                    a.obligations[j] in symbols && a.kind in ["verifier_output", symbols[a.obligations[j]]]
      {
        var id := a.obligations[k];
        if id !in symbols {
          errors := errors + [UnknownObligation(a.id, id)];
          continue;
        }
        if a.kind != "verifier_output" && a.kind != symbols[id] {
          errors := errors + [WrongEvidence(a.id, id)];
        }
      }
    }
  }

  predicate HasSymbol(plan: seq<Obligation>, id: string, evidence: string) {
    exists k :: 0 <= k < |plan| && plan[k].id == id && EvidenceName(RequiredEvidence(plan[k].kind)) == evidence
  }

  /** Every symbol is a compiled obligation with its evidence kind, and every
      compiled obligation has a symbol. */
  predicate SymbolsOf(plans: map<string, seq<Obligation>>, symbols: map<string, string>) {
    && (forall id <- symbols :: exists spec :: spec in plans && HasSymbol(plans[spec], id, symbols[id]))
    && (forall spec <- plans :: forall k :: 0 <= k < |plans[spec]| ==> plans[spec][k].id in symbols)
  }

  /** BuildPlanSymbolTable: every symbol is some compiled obligation. */
  method BuildPlanSymbols(plans: map<string, seq<Obligation>>) returns (symbols: map<string, string>)
    ensures SymbolsOf(plans, symbols)
  {
    symbols := map[];
    var rest := plans.Keys;
    while rest != {}
      invariant rest <= plans.Keys
      invariant forall id <- symbols :: exists spec :: spec in plans && HasSymbol(plans[spec], id, symbols[id])
      invariant forall spec <- plans :: spec !in rest ==>
                  forall k :: 0 <= k < |plans[spec]| ==> plans[spec][k].id in symbols
      decreases |rest|
    {
      var spec :| spec in rest;
      rest := rest - {spec};
      var plan := plans[spec];
      ghost var before := symbols.Keys;
      for k := 0 to |plan|
        invariant before <= symbols.Keys
        invariant forall id <- symbols :: exists s :: s in plans && HasSymbol(plans[s], id, symbols[id])
        invariant forall j :: 0 <= j < k ==> plan[j].id in symbols
      {
        assert HasSymbol(plans[spec], plan[k].id, EvidenceName(RequiredEvidence(plan[k].kind)));
        symbols := symbols[plan[k].id := EvidenceName(RequiredEvidence(plan[k].kind))];
      }
    }
  }

  /** The first loop of CompileManifestPipeline: every loaded spec is validated. */
  method ValidateSpecs(specs: map<string, Spec>) returns (errors: seq<Problem>, valid: map<string, Spec>)
    ensures errors == [] <==> forall id <- specs :: WellFormedSpec(specs[id])
    ensures valid == ValidSpecs(specs)
  {
    hide WellFormedSpec;
    errors, valid := [], map[];
    var rest := specs.Keys;
    while rest != {}
      invariant rest <= specs.Keys
      invariant errors == [] <==> forall id <- specs :: id in rest || WellFormedSpec(specs[id])
      invariant valid == map id <- specs | id !in rest && WellFormedSpec(specs[id]) :: specs[id]
      decreases |rest|
    {
      var id :| id in rest;
      rest := rest - {id};
      var more := ValidateSpec(specs[id]);
      errors := errors + more;
      if more == [] { valid := valid[id := specs[id]]; }
    }
  }

  /** The second loop: one plan per touched, loaded and valid spec. */
  method CompilePlans(specs: map<string, Spec>, valid: map<string, Spec>, touched: seq<string>,
                      word: CharClass, lower: string -> string)
    returns (plans: map<string, seq<Obligation>>, built: nat)
    requires ValidClass(word) && valid == ValidSpecs(specs)
    ensures forall id :: id in plans <==> CompiledID(touched, specs, id)
    ensures forall id <- plans :: id in specs && PlanOf(plans[id], specs[id])
    ensures built == 0 <==> forall id <- plans :: plans[id] == []
  {
    hide WellFormedSpec, PlanOf;
    plans, built := map[], 0;
    for i := 0 to |touched|
      invariant forall id :: id in plans <==> CompiledID(touched[..i], specs, id)
      invariant forall id <- plans :: id in specs && PlanOf(plans[id], specs[id])
      invariant built == 0 <==> forall id <- plans :: plans[id] == []
    {
      var id := touched[i];
      assert touched[..i + 1] == touched[..i] + [id];
      if id in touched[..i] { continue; }
      if id !in specs || id !in valid { continue; }
      var plan := IRFromSpec(specs[id], word, lower);
      assert PlanOf(plan, specs[id]) by { MakePlan(plan, specs[id]); }
      plans := plans[id := plan];
      built := built + |plan|;
    }
    assert touched[..|touched|] == touched;
  }

  lemma MakePlan(plan: seq<Obligation>, spec: Spec)
    requires Matches(plan, Entries(spec)) && DistinctIDs(plan)
    ensures PlanOf(plan, spec)
  {
  }

  method CompileManifestPipeline(specs: map<string, Spec>, m: Manifest, word: CharClass, lower: string -> string)
    returns (p: Pipeline)
    requires ValidClass(word)
    ensures p.specErrors == [] <==> forall id <- specs :: WellFormedSpec(specs[id])
    ensures p.manifestErrors == [] <==>
              WellFormedManifest(m, specs) && Traceable(m, ValidSpecs(specs)) && ArtifactsResolve(m, p.symbols)
    ensures forall id :: id in p.plans <==> CompiledID(m.specsTouched, specs, id)
    ensures forall id <- p.plans :: id in specs && PlanOf(p.plans[id], specs[id])
    ensures SymbolsOf(p.plans, p.symbols)
    ensures p.obligationsBuilt == 0 <==> forall id <- p.plans :: p.plans[id] == []
  {
    hide WellFormedSpec, WellFormedManifest, Traceable, ArtifactsResolve, PlanOf, SymbolsOf, CompiledID;
    var specErrors, valid := ValidateSpecs(specs);
    var owners := BuildFileOwners(valid);
    var plans, built := CompilePlans(specs, valid, m.specsTouched, word, lower);
    var symbols := BuildPlanSymbols(plans);
    var manifestErrors := ValidateManifest(m, specs);
    var more := ValidateFileTraceability(m, valid, owners);
    manifestErrors := manifestErrors + more;
    more := ValidateArtifactReferences(m, symbols);
    manifestErrors := manifestErrors + more;
    p := Pipeline(specErrors, manifestErrors, plans, symbols, built);
  }

  // ---- coverage ---------------------------------------------------------------------

  function Get<T>(m: map<string, seq<T>>, id: string): seq<T> { if id in m then m[id] else [] }

  function Put<T>(m: map<string, seq<T>>, id: string, x: T): map<string, seq<T>> { m[id := Get(m, id) + [x]] }

  function Select(obligations: seq<Obligation>, keep: Obligation -> bool): seq<Obligation> {
    if obligations == [] then []
    else
      var last := obligations[|obligations| - 1];
      Select(obligations[..|obligations| - 1], keep) + if keep(last) then [last] else []
  }

  /** The obligations the coverage loop meets for a spec, touched once or more. */
  function Met(plans: map<string, seq<Obligation>>, touched: seq<string>, id: string): seq<Obligation> {
    if touched == [] then []
    else
      var last := touched[|touched| - 1];
      Met(plans, touched[..|touched| - 1], id) + if last == id then Get(plans, id) else []
  }

  lemma SelectStep(done: seq<Obligation>, o: Obligation, keep: Obligation -> bool)
    ensures Select(done + [o], keep) == Select(done, keep) + if keep(o) then [o] else []
  {
    assert (done + [o])[..|done|] == done;
  }

  lemma {:induction false} SelectMembers(obligations: seq<Obligation>, keep: Obligation -> bool, o: Obligation)
    ensures o in Select(obligations, keep) <==> o in obligations && keep(o)
  {
    if obligations != [] {
      var init := obligations[..|obligations| - 1];
      SelectMembers(init, keep, o);
      assert obligations == init + [obligations[|obligations| - 1]];
    }
  }

  lemma {:induction false} MetMembers(plans: map<string, seq<Obligation>>, touched: seq<string>, id: string, o: Obligation)
    ensures o in Met(plans, touched, id) <==> id in touched && o in Get(plans, id)
  {
    if touched != [] {
      var init := touched[..|touched| - 1];
      MetMembers(plans, init, id, o);
      assert touched == init + [touched[|touched| - 1]];
    }
  }

  predicate ArtifactCovers(results: seq<ArtifactResult>, kind: string, id: string) {
    exists i :: 0 <= i < |results| && CoversBy(results[i], kind, id)
  }

  predicate CoversBy(r: ArtifactResult, kind: string, id: string) {
    r.status == "valid" && r.kind != "verifier_output" && r.kind == kind && id in r.coveredObligations
  }

  predicate InCoverage(coverage: map<string, set<string>>, kind: string, id: string) {
    kind in coverage && id in coverage[kind]
  }

  /** artifactCoverageByKind */
  method ArtifactCoverageByKind(results: seq<ArtifactResult>) returns (coverage: map<string, set<string>>)
    ensures forall kind, id :: InCoverage(coverage, kind, id) <==> ArtifactCovers(results, kind, id)
  {
    coverage := map[];
    for i := 0 to |results|
      invariant forall kind, id :: InCoverage(coverage, kind, id) <==> ArtifactCovers(results[..i], kind, id)
    {
      var r := results[i];
      ghost var before := coverage;
      forall kind, id
        ensures ArtifactCovers(results[..i + 1], kind, id) <==> ArtifactCovers(results[..i], kind, id) || CoversBy(r, kind, id)
      {
        CoversNext(results, i, kind, id);
      }
      if r.status != "valid" { continue; }
      if r.kind == "verifier_output" { continue; }
      if r.kind !in coverage { coverage := coverage[r.kind := {}]; }
      for k := 0 to |r.coveredObligations|
        invariant r.kind in coverage
        invariant forall kind, id :: InCoverage(coverage, kind, id) <==>
                    InCoverage(before, kind, id) || (kind == r.kind && id in r.coveredObligations[..k])
      {
        coverage := coverage[r.kind := coverage[r.kind] + {r.coveredObligations[k]}];
      }
      assert r.coveredObligations[..|r.coveredObligations|] == r.coveredObligations;
    }
    assert results[..|results|] == results;
  }

  lemma CoversNext(results: seq<ArtifactResult>, i: nat, kind: string, id: string)
    requires i < |results|
    ensures ArtifactCovers(results[..i + 1], kind, id) <==>
            ArtifactCovers(results[..i], kind, id) || CoversBy(results[i], kind, id)
  {
    hide CoversBy;
    if CoversBy(results[i], kind, id) { assert CoversBy(results[..i + 1][i], kind, id); }
    if ArtifactCovers(results[..i], kind, id) {
      var k :| 0 <= k < i && CoversBy(results[..i][k], kind, id);
      assert CoversBy(results[..i + 1][k], kind, id);
    }
    if ArtifactCovers(results[..i + 1], kind, id) {
      var k :| 0 <= k < i + 1 && CoversBy(results[..i + 1][k], kind, id);
      if k < i { assert CoversBy(results[..i][k], kind, id); }
    }
  }

  predicate UseArtifacts(m: Manifest, results: seq<ArtifactResult>) { m.artifacts != [] || results != [] }

  /** When an obligation counts as covered: by a valid artifact of its kind once
      any artifact is in play, by the manifest's own claims otherwise. */
  predicate Covered(m: Manifest, results: seq<ArtifactResult>, o: Obligation) {
    if UseArtifacts(m, results) then
      && ArtifactCovers(results, EvidenceName(RequiredEvidence(o.kind)), o.id)
      && (o.kind.Rollback? ==> m.rollbackStrategy != "")
    else
      match o.kind
      case Behavior => o.text in m.coversBehavior
      case RequiredTest => o.text in m.coversTests
      case Security => o.text in m.coversSecurity
      case RuntimeSignal => o.text in m.metrics
      case Rollback => m.rollbackStrategy != ""
  }

  /** obligationCovered */
  method ObligationCovered(m: Manifest, results: seq<ArtifactResult>, o: Obligation, coverage: map<string, set<string>>,
                           useArtifacts: bool)
    returns (covered: bool)
    requires forall kind, id :: InCoverage(coverage, kind, id) <==> ArtifactCovers(results, kind, id)
    requires useArtifacts == UseArtifacts(m, results)
    ensures covered == Covered(m, results, o)
  {
    var evidence := RequiredEvidence(o.kind);
    if useArtifacts {
      var linked := InCoverage(coverage, EvidenceName(evidence), o.id);
      if evidence.RollbackPlan? { return m.rollbackStrategy != "" && linked; }
      return linked;
    }
    match evidence
    case BehaviorTrace => return o.text in m.coversBehavior;
    case TestCoverage => return o.text in m.coversTests;
    case SecurityCheck => return o.text in m.coversSecurity;
    case RuntimeMetric => return o.text in m.metrics;
    case RollbackPlan => return m.rollbackStrategy != "";
    case VerifierOutput => return false;
  }

  // ---- findings ----------------------------------------------------------------------

  function Texts(obligations: seq<Obligation>, kind: Kind): seq<string> {
    if obligations == [] then []
    else
      var last := obligations[|obligations| - 1];
      Texts(obligations[..|obligations| - 1], kind) + if last.kind == kind then [last.text] else []
  }

  lemma {:induction false} TextsPresent(obligations: seq<Obligation>, kind: Kind)
    ensures Texts(obligations, kind) != [] <==> exists k :: 0 <= k < |obligations| && obligations[k].kind == kind
  {
    if obligations != [] {
      var init := obligations[..|obligations| - 1];
      TextsPresent(init, kind);
      if k :| 0 <= k < |init| && init[k].kind == kind { assert obligations[k].kind == kind; }
      if k :| 0 <= k < |obligations| && obligations[k].kind == kind {
        if k < |init| { assert init[k].kind == kind; }
      }
    }
  }

  /** missingTextsByKind */
  method MissingTextsByKind(missing: map<string, seq<Obligation>>, kind: Kind) returns (out: map<string, seq<string>>)
    ensures forall id :: id in out <==> id in missing && Texts(missing[id], kind) != []
    ensures forall id <- out :: out[id] == Texts(missing[id], kind)
  {
    out := map[];
    var rest := missing.Keys;
    while rest != {}
      invariant rest <= missing.Keys
      invariant forall id :: id in out <==> id in missing && id !in rest && Texts(missing[id], kind) != []
      invariant forall id <- out :: out[id] == Texts(missing[id], kind)
      decreases |rest|
    {
      var id :| id in rest;
      rest := rest - {id};
      var obligations := missing[id];
      var texts := [];
      for k := 0 to |obligations|
        invariant texts == Texts(obligations[..k], kind)
      {
        assert obligations[..k + 1][..k] == obligations[..k];
        if obligations[k].kind == kind { texts := texts + [obligations[k].text]; }
      }
      assert obligations[..|obligations|] == obligations;
      if texts != [] { out := out[id := texts]; }
    }
  }

  predicate Ascending(keys: seq<string>) {
    forall i, j :: 0 <= i < j < |keys| ==> LexLess(keys[i], keys[j])
  }

  method InsertKey(keys: seq<string>, key: string) returns (after: seq<string>)
    requires Ascending(keys) && key !in keys
    ensures Ascending(after) && forall k :: k in after <==> k == key || k in keys
  {
    hide LexLess;
    var i := 0;
    while i < |keys| && LexLess(keys[i], key)
      invariant i <= |keys| && forall j :: 0 <= j < i ==> LexLess(keys[j], key)
    {
      i := i + 1;
    }
    forall j | i <= j < |keys| ensures LexLess(key, keys[j]) {
      assert keys[i] in keys;
      LexLessTrichotomy(keys[i], key);
      if j > i { LexLessTransitive(key, keys[i], keys[j]); }
    }
    after := keys[..i] + [key] + keys[i..];
    assert keys == keys[..i] + keys[i..];
  }

  /** sortedStringKeys */
  method SortedKeys(keys: set<string>) returns (sorted: seq<string>)
    ensures Ascending(sorted) && forall k :: k in sorted <==> k in keys
  {
    hide LexLess;
    sorted := [];
    var rest := keys;
    while rest != {}
      invariant rest <= keys && Ascending(sorted)
      invariant forall k :: k in sorted <==> k in keys && k !in rest
      decreases |rest|
    {
      var k :| k in rest;
      rest := rest - {k};
      sorted := InsertKey(sorted, k);
    }
  }

  /** One blocking finding per listed spec, naming its missing texts. */
  function Reports(missing: map<string, seq<Obligation>>, kind: Kind, verifier: string, claim: string, keys: seq<string>): seq<Finding> {
    if keys == [] then []
    else
      var id := keys[|keys| - 1];
      Reports(missing, kind, verifier, claim, keys[..|keys| - 1])
      + [Finding(verifier, "high", "block", id + claim, Join(Texts(Get(missing, id), kind), ','))]
  }

  /** after is before and some blocking findings, none exactly when !problem. */
  predicate Extends(before: seq<Finding>, after: seq<Finding>, problem: bool) {
    && before <= after
    && (forall i :: |before| <= i < |after| ==> Blocks(after[i]))
    && (|before| < |after| <==> problem)
  }

  lemma ExtendsTransitive(a: seq<Finding>, b: seq<Finding>, c: seq<Finding>, p: bool, q: bool)
    requires Extends(a, b, p) && Extends(b, c, q)
    ensures Extends(a, c, p || q)
  {
  }

  lemma {:induction false} ReportsBlock(
    missing: map<string, seq<Obligation>>, kind: Kind, verifier: string, claim: string, keys: seq<string>)
    ensures var reports := Reports(missing, kind, verifier, claim, keys);
            |reports| == |keys| && forall i :: 0 <= i < |reports| ==> Blocks(reports[i])
  {
    hide Join, Texts;
    if keys != [] { ReportsBlock(missing, kind, verifier, claim, keys[..|keys| - 1]); }
  }

  predicate Missing(missing: map<string, seq<Obligation>>, kind: Kind) {
    exists id :: id in missing && Texts(missing[id], kind) != []
  }

  method ReportMissing(findings: seq<Finding>, missing: map<string, seq<Obligation>>, kind: Kind, verifier: string, claim: string)
    returns (after: seq<Finding>, ghost keys: seq<string>)
    ensures Ascending(keys) && forall id :: id in keys <==> id in missing && Texts(missing[id], kind) != []
    ensures after == findings + Reports(missing, kind, verifier, claim, keys)
    ensures Extends(findings, after, Missing(missing, kind))
  {
    hide LexLess, Join, Texts, Ascending;
    var bySpec := MissingTextsByKind(missing, kind);
    var sorted := SortedKeys(bySpec.Keys);
    keys := sorted;
    after := findings;
    for i := 0 to |sorted|
      invariant after == findings + Reports(missing, kind, verifier, claim, sorted[..i])
    {
      assert sorted[..i + 1][..i] == sorted[..i];
      assert sorted[i] in sorted;
      after := after + [Finding(verifier, "high", "block", sorted[i] + claim, Join(bySpec[sorted[i]], ','))];
    }
    assert sorted[..|sorted|] == sorted;
    ReportsBlock(missing, kind, verifier, claim, sorted);
    if |sorted| > 0 { assert sorted[0] in sorted; }
  }
}
