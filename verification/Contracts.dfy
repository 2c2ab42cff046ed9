/** Specs, manifests and their validation (internal/gatemole/validate.go), and
    which specs own a changed file (internal/gatemole/compiler.go:155-241).

    Error messages are structured values; each validator is characterised by
    when it has none. */
module Contracts {
  import opened Text
  import opened Paths
  import opened Obligations

  const SpecSchemaVersion := "gatemole.spec.v0"
  const ManifestSchemaVersion := "gatemole.manifest.v0"

  datatype Artifact = Artifact(
    id: string,
    kind: string,
    producer: string,
    path: string,
    sha256: string,
    evidenceBundle: string,
    signatureBundle: string,
    signerIdentity: string,
    signerIssuer: string,
    exitCode: Option<int>,
    obligations: seq<string>)

  datatype Manifest = Manifest(
    version: string,
    taskID: string,
    taskSummary: string,
    risk: string,
    specsTouched: seq<string>,
    behaviorChanged: bool,
    externalEffects: seq<string>,
    changedFiles: seq<string>,
    coversBehavior: seq<string>,
    coversTests: seq<string>,
    coversSecurity: seq<string>,
    commands: seq<string>,
    failedTests: int,
    artifacts: seq<Artifact>,
    metrics: seq<string>,
    canaryEnabled: bool,
    canaryPercent: int,
    rollbackStrategy: string,
    compensation: seq<string>)

  datatype Problem =
    | MissingField(owner: string, field: string)
    | UnsupportedVersion(owner: string)
    | InvalidRisk(owner: string)
    | EmptyList(owner: string, field: string)
    | EmptyItem(owner: string, field: string, index: nat)
    | DuplicateItem(owner: string, field: string, value: string)
    | BadOwnedPath(owner: string, index: nat)
    | BehaviorWithoutSpecs
    | UnknownSpec(id: string)
    | RiskBelowSpec(id: string)
    | BadCanary
    | BadArtifact(id: string, field: string)
    | BadChangedFile(file: string)
    | UnownedFile(file: string)
    | UntouchedOwner(file: string, id: string)
    | UnknownObligation(artifact: string, id: string)
    | WrongEvidence(artifact: string, id: string)

  predicate ValidRisk(risk: string) { risk in ["low", "medium", "high", "critical"] }

  /** riskRank; an unknown risk reads as zero, as a Go map does. */
  function Rank(risk: string): nat {
    if risk == "medium" then 1 else if risk == "high" then 2 else if risk == "critical" then 3 else 0
  }

  function EvidenceName(kind: EvidenceKind): string {
    match kind
    case BehaviorTrace => "behavior_trace"
    case SecurityCheck => "security_check"
    case TestCoverage => "test_coverage"
    case RuntimeMetric => "runtime_metric"
    case RollbackPlan => "rollback_plan"
    case VerifierOutput => "verifier_output"
  }

  predicate ValidEvidenceKind(kind: string) {
    kind in ["behavior_trace", "security_check", "test_coverage", "runtime_metric", "rollback_plan", "verifier_output"]
  }

  // ---- lists -----------------------------------------------------------------------

  predicate CleanList(values: seq<string>) {
    && (forall i :: 0 <= i < |values| ==> values[i] != "")
    && (forall i, j :: 0 <= i < j < |values| ==> values[i] != values[j])
  }

  method ValidateList(owner: string, field: string, values: seq<string>) returns (errors: seq<Problem>)
    ensures errors == [] <==> CleanList(values)
  {
    errors := [];
    var seen: set<string> := {};
    for i := 0 to |values|
      invariant errors == [] <==> CleanList(values[..i])
      invariant forall v :: v in seen <==> v in values[..i] && v != ""
    {
      if values[i] == "" {
        errors := errors + [EmptyItem(owner, field, i)];
        assert values[..i + 1][i] == "";
        continue;
      }
      if values[i] in seen {
        errors := errors + [DuplicateItem(owner, field, values[i])];
        var j :| 0 <= j < i && values[..i][j] == values[i];
        assert values[..i + 1][j] == values[..i + 1][i];
      }
      seen := seen + {values[i]};
      assert values[..i + 1] == values[..i] + [values[i]];
    }
    assert values[..|values|] == values;
  }

  // ---- specs -----------------------------------------------------------------------

  /** Inside the tree once cleaned. */
  predicate Escapes(normalized: string) {
    normalized == "." || normalized == ".." || HasPrefix(normalized, "../") || Contains(normalized, "/../")
  }

  predicate Contains(s: string, part: string) {
    exists i :: 0 <= i <= |s| && HasPrefix(s[i..], part)
  }

  predicate ValidOwnedPath(value: string) { value == "" || (!IsAbs(value) && !Escapes(Clean(value))) }

  method ValidateOwnedPaths(owner: string, values: seq<string>) returns (errors: seq<Problem>)
    ensures errors == [] <==> forall i :: 0 <= i < |values| ==> ValidOwnedPath(values[i])
  {
    errors := [];
    for i := 0 to |values|
      invariant errors == [] <==> forall j :: 0 <= j < i ==> ValidOwnedPath(values[j])
    {
      if values[i] == "" { continue; }
      if IsAbs(values[i]) {
        errors := errors + [BadOwnedPath(owner, i)];
        continue;
      }
      if Escapes(Clean(values[i])) { errors := errors + [BadOwnedPath(owner, i)]; }
    }
  }

  predicate WellFormedSpec(spec: Spec) {
    && spec.id != "" && (spec.version == "" || spec.version == SpecSchemaVersion) && spec.owner != ""
    && CleanList(spec.ownedPaths)
    && (forall i :: 0 <= i < |spec.ownedPaths| ==> ValidOwnedPath(spec.ownedPaths[i]))
    && ValidRisk(spec.risk)
    && spec.behavior != [] && CleanList(spec.behavior)
    && spec.security != [] && CleanList(spec.security)
    && spec.requiredTests != [] && CleanList(spec.requiredTests)
    && spec.metrics != [] && CleanList(spec.metrics)
    && spec.strategy != ""
  }

  method ValidateFilledList(owner: string, field: string, values: seq<string>) returns (errors: seq<Problem>)
    ensures errors == [] <==> values != [] && CleanList(values)
  {
    errors := ValidateList(owner, field, values);
    if values == [] { errors := [EmptyList(owner, field)] + errors; }
  }

  method ValidateSpec(spec: Spec) returns (errors: seq<Problem>)
    ensures errors == [] <==> WellFormedSpec(spec)
  {
    hide CleanList, ValidOwnedPath, ValidRisk;
    errors := [];
    if spec.id == "" { errors := errors + [MissingField(spec.id, "id")]; }
    if spec.version != "" && spec.version != SpecSchemaVersion { errors := errors + [UnsupportedVersion(spec.id)]; }
    if spec.owner == "" { errors := errors + [MissingField(spec.id, "owner")]; }
    var more := ValidateList(spec.id, "owned_paths", spec.ownedPaths);
    errors := errors + more;
    more := ValidateOwnedPaths(spec.id, spec.ownedPaths);
    errors := errors + more;
    if !ValidRisk(spec.risk) { errors := errors + [InvalidRisk(spec.id)]; }
    more := ValidateFilledList(spec.id, "behavior", spec.behavior);
    errors := errors + more;
    more := ValidateFilledList(spec.id, "security", spec.security);
    errors := errors + more;
    more := ValidateFilledList(spec.id, "tests.required", spec.requiredTests);
    errors := errors + more;
    more := ValidateFilledList(spec.id, "runtime.metrics", spec.metrics);
    errors := errors + more;
    if spec.strategy == "" { errors := errors + [MissingField(spec.id, "rollback.strategy")]; }
  }

  // ---- manifests -------------------------------------------------------------------

  predicate HexDigit(c: char) { '0' <= c <= '9' || 'a' <= c <= 'f' || 'A' <= c <= 'F' }

  predicate WellFormedDigest(sha256: string) {
    sha256 == "" || (|sha256| == 64 && forall i :: 0 <= i < 64 ==> HexDigit(sha256[i]))
  }

  /** Signature fields come together or not at all. */
  predicate SignedConsistently(a: Artifact) {
    (a.evidenceBundle == "" && a.signatureBundle == "" && a.signerIdentity == "" && a.signerIssuer == "")
    || (a.evidenceBundle != "" && a.signatureBundle != "" && a.signerIdentity != "" && a.signerIssuer != "")
  }

  predicate WellFormedArtifact(a: Artifact) {
    && a.id != "" && ValidEvidenceKind(a.kind) && a.producer != "" && a.path != "" && a.exitCode.Some?
    && WellFormedDigest(a.sha256) && SignedConsistently(a)
    && a.obligations != [] && CleanList(a.obligations)
  }

  predicate WellFormedArtifacts(artifacts: seq<Artifact>) {
    && (forall i :: 0 <= i < |artifacts| ==> WellFormedArtifact(artifacts[i]))
    && (forall i, j :: 0 <= i < j < |artifacts| ==> artifacts[i].id != artifacts[j].id)
  }

  method ValidateArtifact(a: Artifact, seen: set<string>) returns (errors: seq<Problem>)
    ensures errors == [] <==> WellFormedArtifact(a) && a.id !in seen
  {
    hide WellFormedDigest, CleanList, ValidEvidenceKind;
    errors := [];
    if a.id == "" { errors := errors + [BadArtifact(a.id, "id")]; }
    else if a.id in seen { errors := errors + [BadArtifact(a.id, "duplicate id")]; }
    if !ValidEvidenceKind(a.kind) { errors := errors + [BadArtifact(a.id, "kind")]; }
    if a.producer == "" { errors := errors + [BadArtifact(a.id, "producer")]; }
    if a.path == "" { errors := errors + [BadArtifact(a.id, "path")]; }
    if a.exitCode.None? { errors := errors + [BadArtifact(a.id, "exit_code")]; }
    if !WellFormedDigest(a.sha256) { errors := errors + [BadArtifact(a.id, "sha256")]; }
    var hasSignedField :=
      a.evidenceBundle != "" || a.signatureBundle != "" || a.signerIdentity != "" || a.signerIssuer != "";
    if hasSignedField && (a.evidenceBundle == "" || a.signatureBundle == "" || a.signerIdentity == "" || a.signerIssuer == "") {
      errors := errors + [BadArtifact(a.id, "signature fields")];
    }
    var more := ValidateFilledList(a.id, "obligations", a.obligations);
    errors := errors + more;
  }

  method ValidateArtifacts(artifacts: seq<Artifact>) returns (errors: seq<Problem>)
    ensures errors == [] <==> WellFormedArtifacts(artifacts)
  {
    hide WellFormedArtifact;
    errors := [];
    var seen: set<string> := {};
    for i := 0 to |artifacts|
      invariant forall k :: 0 <= k < i ==> artifacts[k].id in seen
      invariant errors == [] ==> WellFormedArtifacts(artifacts[..i])
      invariant errors != [] ==> !WellFormedArtifacts(artifacts)
      invariant forall id <- seen :: exists k :: 0 <= k < i && artifacts[k].id == id
    {
      var more := ValidateArtifact(artifacts[i], seen);
      if more == [] {
        assert artifacts[..i + 1] == artifacts[..i] + [artifacts[i]];
      }
      errors := errors + more;
      seen := seen + {artifacts[i].id};
      assert artifacts[i].id in seen;
    }
    assert artifacts[..|artifacts|] == artifacts;
  }

  /** A touched spec exists and is not riskier than the change. */
  predicate TouchesKnown(m: Manifest, specs: map<string, Spec>, id: string) {
    && id in specs
    && (ValidRisk(m.risk) && ValidRisk(specs[id].risk) ==> Rank(specs[id].risk) <= Rank(m.risk))
  }

  predicate CleanLists(m: Manifest) {
    && CleanList(m.specsTouched) && CleanList(m.externalEffects) && CleanList(m.coversBehavior)
    && CleanList(m.coversTests) && CleanList(m.coversSecurity) && CleanList(m.metrics)
    && m.commands != [] && CleanList(m.commands)
  }

  predicate WellFormedManifest(m: Manifest, specs: map<string, Spec>) {
    && (m.version == "" || m.version == ManifestSchemaVersion)
    && m.taskID != "" && m.taskSummary != "" && ValidRisk(m.risk)
    && (m.behaviorChanged ==> m.specsTouched != [])
    && (forall i :: 0 <= i < |m.specsTouched| ==> TouchesKnown(m, specs, m.specsTouched[i]))
    && CleanLists(m)
    && WellFormedArtifacts(m.artifacts)
    && (m.canaryEnabled ==> 1 <= m.canaryPercent <= 100)
  }

  method ValidateTouched(m: Manifest, specs: map<string, Spec>) returns (errors: seq<Problem>)
    ensures errors == [] <==> forall i :: 0 <= i < |m.specsTouched| ==> TouchesKnown(m, specs, m.specsTouched[i])
  {
    errors := [];
    for i := 0 to |m.specsTouched|
      invariant errors == [] <==> forall k :: 0 <= k < i ==> TouchesKnown(m, specs, m.specsTouched[k])
    {
      var id := m.specsTouched[i];
      if id !in specs {
        errors := errors + [UnknownSpec(id)];
        continue;
      }
      if ValidRisk(m.risk) && ValidRisk(specs[id].risk) && Rank(m.risk) < Rank(specs[id].risk) {
        errors := errors + [RiskBelowSpec(id)];
      }
    }
  }

  method ValidateLists(m: Manifest) returns (errors: seq<Problem>)
    ensures errors == [] <==> CleanLists(m)
  {
    hide CleanList;
    errors := ValidateList("manifest", "change.specs_touched", m.specsTouched);
    var more := ValidateList("manifest", "change.external_effects", m.externalEffects);
    errors := errors + more;
    more := ValidateList("manifest", "verification.covers_behavior", m.coversBehavior);
    errors := errors + more;
    more := ValidateList("manifest", "verification.covers_tests", m.coversTests);
    errors := errors + more;
    more := ValidateList("manifest", "verification.covers_security", m.coversSecurity);
    errors := errors + more;
    more := ValidateList("manifest", "runtime.metrics", m.metrics);
    errors := errors + more;
    more := ValidateFilledList("manifest", "verification.commands", m.commands);
    errors := errors + more;
  }

  method ValidateManifest(m: Manifest, specs: map<string, Spec>) returns (errors: seq<Problem>)
    ensures errors == [] <==> WellFormedManifest(m, specs)
  {
    hide CleanLists, TouchesKnown, WellFormedArtifacts, ValidRisk;
    errors := [];
    if m.version != "" && m.version != ManifestSchemaVersion { errors := errors + [UnsupportedVersion("manifest")]; }
    if m.taskID == "" || m.taskSummary == "" { errors := errors + [MissingField("manifest", "task")]; }
    if !ValidRisk(m.risk) { errors := errors + [InvalidRisk("manifest")]; }
    if m.behaviorChanged && |m.specsTouched| == 0 { errors := errors + [BehaviorWithoutSpecs]; }
    var more := ValidateTouched(m, specs);
    errors := errors + more;
    more := ValidateLists(m);
    errors := errors + more;
    more := ValidateArtifacts(m.artifacts);
    errors := errors + more;
    if m.canaryEnabled && (m.canaryPercent <= 0 || m.canaryPercent > 100) { errors := errors + [BadCanary]; }
  }

  // ---- ownership of changed files ----------------------------------------------------

  /** normalizeRepoPath */
  function NormalizeRepoPath(value: string): Option<string> {
    if value == "" || IsAbs(value) then None
    else
      var cleaned := Clean(value);
      var normalized := if HasPrefix(cleaned, "./") then cleaned[2..] else cleaned;
      if Escapes(normalized) then None else Some(normalized)
  }

  /** ownedPathMatches */
  predicate OwnedPathMatches(pattern: string, file: string) {
    match (NormalizeRepoPath(pattern), NormalizeRepoPath(file))
    case (Some(p), Some(f)) =>
      if HasSuffix(p, "/**") then f == p[..|p| - 3] || HasPrefix(f, p[..|p| - 3] + "/")
      else GlobMatch(p, f)
    case _ => false
  }

  datatype FileOwner = FileOwner(specID: string, pattern: string)

  /** The specs with an owned path that matches. */
  predicate Owns(specs: map<string, Spec>, id: string, file: string) {
    id in specs && exists i :: 0 <= i < |specs[id].ownedPaths| && OwnedPathMatches(specs[id].ownedPaths[i], file)
  }

  /** Every changed file has an owner and every owner is listed as touched. */
  predicate Traceable(m: Manifest, specs: map<string, Spec>) {
    forall i :: 0 <= i < |m.changedFiles| ==> FileTraceable(m, specs, m.changedFiles[i])
  }

  predicate FileTraceable(m: Manifest, specs: map<string, Spec>, file: string) {
    match NormalizeRepoPath(file)
    case None => false
    case Some(f) =>
      && (exists id :: id in specs && Owns(specs, id, f))
      && (forall id <- specs :: Owns(specs, id, f) ==> id in m.specsTouched)
  }

  /** The FileOwners part of BuildSymbolTable. */
  method BuildFileOwners(specs: map<string, Spec>) returns (table: seq<FileOwner>)
    ensures forall o <- table :: o.specID in specs && o.pattern in specs[o.specID].ownedPaths
    ensures forall id <- specs, p <- specs[id].ownedPaths :: FileOwner(id, p) in table
  {
    table := [];
    var rest := specs.Keys;
    while rest != {}
      invariant rest <= specs.Keys
      invariant forall o <- table :: o.specID in specs && o.pattern in specs[o.specID].ownedPaths
      invariant forall id <- specs, p <- specs[id].ownedPaths :: id !in rest ==> FileOwner(id, p) in table
      decreases |rest|
    {
      var id :| id in rest;
      rest := rest - {id};
      var paths := specs[id].ownedPaths;
      ghost var before := table;
      for i := 0 to |paths|
        invariant forall o <- table :: o in before || (o.specID == id && o.pattern in paths)
        invariant forall o <- before :: o in table
        invariant forall k :: 0 <= k < i ==> FileOwner(id, paths[k]) in table
      {
        table := table + [FileOwner(id, paths[i])];
        assert table[|table| - 1] == FileOwner(id, paths[i]);
      }
    }
  }

  method OwnersForFile(table: seq<FileOwner>, file: string) returns (owners: seq<string>)
    ensures forall id :: id in owners <==>
              exists i :: 0 <= i < |table| && table[i].specID == id && OwnedPathMatches(table[i].pattern, file)
    ensures forall i, j :: 0 <= i < j < |owners| ==> owners[i] != owners[j]
  {
    hide OwnedPathMatches;
    var seen: set<string> := {};
    owners := [];
    for i := 0 to |table|
      invariant forall id :: id in seen <==> id in owners
      invariant forall id :: id in owners <==>
                  exists k :: 0 <= k < i && table[k].specID == id && OwnedPathMatches(table[k].pattern, file)
      invariant forall k, j :: 0 <= k < j < |owners| ==> owners[k] != owners[j]
    {
      if OwnedPathMatches(table[i].pattern, file) && table[i].specID !in seen {
        seen := seen + {table[i].specID};
        owners := owners + [table[i].specID];
      }
    }
  }

  method ValidateFileTraceability(m: Manifest, specs: map<string, Spec>, table: seq<FileOwner>)
    returns (errors: seq<Problem>)
    requires forall o <- table :: o.specID in specs && o.pattern in specs[o.specID].ownedPaths
    requires forall id <- specs, p <- specs[id].ownedPaths :: FileOwner(id, p) in table
    ensures errors == [] <==> Traceable(m, specs)
  {
    hide OwnedPathMatches, FileTraceable, Owns;
    errors := [];
    for i := 0 to |m.changedFiles|
      invariant errors == [] <==> forall k :: 0 <= k < i ==> FileTraceable(m, specs, m.changedFiles[k])
    {
      var file := m.changedFiles[i];
      var more := CheckFile(m, specs, table, file);
      errors := errors + more;
    }
  }

  lemma OwnersAreOwners(specs: map<string, Spec>, table: seq<FileOwner>, file: string, id: string)
    requires forall o <- table :: o.specID in specs && o.pattern in specs[o.specID].ownedPaths
    requires forall id <- specs, p <- specs[id].ownedPaths :: FileOwner(id, p) in table
    ensures (exists i :: 0 <= i < |table| && table[i].specID == id && OwnedPathMatches(table[i].pattern, file))
            <==> Owns(specs, id, file)
  {
    hide OwnedPathMatches;
    if i :| 0 <= i < |table| && table[i].specID == id && OwnedPathMatches(table[i].pattern, file) {
      assert table[i] in table;
      var k :| 0 <= k < |specs[id].ownedPaths| && specs[id].ownedPaths[k] == table[i].pattern;
    }
    if Owns(specs, id, file) {
      var k :| 0 <= k < |specs[id].ownedPaths| && OwnedPathMatches(specs[id].ownedPaths[k], file);
      var o := FileOwner(id, specs[id].ownedPaths[k]);
      assert specs[id].ownedPaths[k] in specs[id].ownedPaths && o in table;
      var i :| 0 <= i < |table| && table[i] == o;
    }
  }

  method CheckFile(m: Manifest, specs: map<string, Spec>, table: seq<FileOwner>, file: string)
    returns (errors: seq<Problem>)
    requires forall o <- table :: o.specID in specs && o.pattern in specs[o.specID].ownedPaths
    requires forall id <- specs, p <- specs[id].ownedPaths :: FileOwner(id, p) in table
    ensures errors == [] <==> FileTraceable(m, specs, file)
  {
    hide OwnedPathMatches, Owns;
    var normalized := NormalizeRepoPath(file);
    if normalized.None? { return [BadChangedFile(file)]; }
    var owners := OwnersForFile(table, normalized.value);
    forall id ensures id in owners <==> Owns(specs, id, normalized.value) {
      OwnersAreOwners(specs, table, normalized.value, id);
    }
    OwnersExist(specs, normalized.value);
    if |owners| == 0 { return [UnownedFile(file)]; }
    assert owners[0] in owners;
    errors := [];
    for i := 0 to |owners|
      invariant errors == [] <==> forall k :: 0 <= k < i ==> owners[k] in m.specsTouched
    {
      if owners[i] !in m.specsTouched { errors := errors + [UntouchedOwner(file, owners[i])]; }
    }
    assert forall k :: 0 <= k < |owners| ==> owners[k] in owners;
  }

  lemma OwnersExist(specs: map<string, Spec>, file: string)
    ensures forall id :: Owns(specs, id, file) ==> id in specs
  {
  }

  lemma DotPrefix(value: string)
    requires HasPrefix(value, "./")
    ensures Components(value)[0] == "."
  {
    assert value == "." + ['/'] + value[2..];
    SplitConcat(".", '/', value[2..]);
    SplitWhole(".", '/');
  }

  lemma DotDotInside(value: string)
    requires Contains(value, "/../")
    ensures ".." in Components(value)
  {
    var i :| 0 <= i <= |value| && HasPrefix(value[i..], "/../");
    var a, tail := value[..i], value[i..];
    var b := tail[4..];
    assert tail == ['/'] + (".." + ['/'] + b);
    assert value == a + ['/'] + (".." + ['/'] + b);
    SplitConcat(a, '/', ".." + ['/'] + b);
    SplitConcat("..", '/', b);
    SplitWhole("..", '/');
    assert Components(value)[|Components(a)|] == "..";
  }

  /** Normalizing succeeds only when cleaning leaves ordinary components. */
  lemma NormalizedIsOrdinary(value: string)
    requires NormalizeRepoPath(value).Some?
    ensures NormalizeRepoPath(value).value == Clean(value) && OrdinaryPath(Clean(value))
  {
    hide StackShape, CleanComponents, Contains;
    var stack := CleanComponents([], Components(value), false);
    var cleaned := Clean(value);
    CleanStack(value, stack);
    assert stack[0] in stack;
    if HasPrefix(cleaned, "./") { DotPrefix(cleaned); }
    forall c | c in Components(cleaned) ensures Ordinary(c) {
      if c == ".." { DotDotFirst(cleaned); }
    }
  }

  /** A path inside the tree, told by its cleaned components. */
  predicate InTree(value: string) {
    value != "" && !HasPrefix(value, "/") && forall c <- Components(Clean(value)) :: c !in ["", ".", ".."]
  }

  lemma NormalizeMeaning(value: string)
    ensures NormalizeRepoPath(value) == if InTree(value) then Some(Clean(value)) else None
    ensures ValidOwnedPath(value) <==> value == "" || InTree(value)
  {
    hide Clean, Contains;
    if value != "" && !IsAbs(value) && Clean(value) != "." {
      var stack := CleanComponents([], Components(value), false);
      CleanStack(value, stack);
      assert stack[0] in stack;
      if HasPrefix(Clean(value), "./") { DotPrefix(Clean(value)); }
    }
    if NormalizeRepoPath(value).Some? { NormalizedIsOrdinary(value); }
    if InTree(value) {
      OrdinaryIsNormalized(Clean(value));
      CleanPathIsFixed(Clean(value));
    }
  }

  /** The components of a cleaned relative path other than ".". */
  lemma CleanStack(value: string, stack: seq<string>)
    requires !IsAbs(value) && Clean(value) != "." && stack == CleanComponents([], Components(value), false)
    ensures Components(Clean(value)) == stack && stack != []
    ensures forall c <- stack :: c != "" && c != "."
    ensures ".." in stack ==> stack[0] == ".."
  {
    CleanShape([], Components(value), false);
    SplitJoin(stack, '/');
    if ".." in stack {
      var i :| 0 <= i < |stack| && stack[i] == "..";
      LeadingDotDot(stack, i);
    }
  }

  lemma OrdinaryIsNormalized(value: string)
    requires OrdinaryPath(value)
    ensures NormalizeRepoPath(value) == Some(value)
  {
    hide Clean, Contains;
    CleanPathIsFixed(value);
    assert Components(value)[0] in Components(value);
    if HasPrefix(value, "./") { DotPrefix(value); }
    if Contains(value, "/../") { DotDotInside(value); }
  }

  /** Any other pattern owns what it matches: a literal path itself, and a single
      star any text within one component. */
  lemma PatternOwnership(pattern: string, file: string)
    requires OrdinaryPath(pattern) && !HasSuffix(pattern, "/**") && NormalizeRepoPath(file).Some?
    ensures Literal(pattern) ==> (OwnedPathMatches(pattern, file) <==> Clean(file) == pattern)
    ensures forall a, b | pattern == a + ("*" + b) && Literal(a) && Literal(b) ::
              OwnedPathMatches(pattern, file) <==>
              exists middle: string :: Clean(file) == a + (middle + b) && '/' !in middle
  {
    hide Literal, GlobMatch, Clean;
    OrdinaryIsNormalized(pattern);
    NormalizedIsOrdinary(file);
    if Literal(pattern) { GlobLiteral(pattern, Clean(file)); }
    forall a, b | pattern == a + ("*" + b) && Literal(a) && Literal(b)
      ensures OwnedPathMatches(pattern, file) <==>
              exists middle: string :: Clean(file) == a + (middle + b) && '/' !in middle
    {
      GlobOneStar(a, b, Clean(file));
    }
  }

  /** A subtree pattern owns exactly the files whose cleaned components extend
      its base. */
  lemma SubtreeOwnership(base: string, file: string)
    requires OrdinaryPath(base)
    ensures OwnedPathMatches(base + "/**", file) <==>
            NormalizeRepoPath(file).Some? && AtOrBelow(base, Clean(file))
  {
    var pattern := base + "/**";
    assert pattern == base + ['/'] + "**";
    SplitConcat(base, '/', "**");
    SplitWhole("**", '/');
    OrdinaryIsNormalized(pattern);
    assert pattern[..|pattern| - 3] == base && HasSuffix(pattern, "/**");
    if NormalizeRepoPath(file).Some? {
      NormalizedIsOrdinary(file);
      PrefixByComponents(base, Clean(file));
    }
  }
}
