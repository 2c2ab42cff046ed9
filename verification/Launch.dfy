/** From admission to launch: what Prepare lowers a request into
    (internal/kernel/admission/admission.go:206-411,
    internal/kernel/capability/compiler.go:20-79) and what the launch authority
    checks again (internal/kernel/authority/authority.go:102-166, 196-390).

    Digests of equal values are equal and are modelled by the values. */
module Launch {
  import opened Text
  import opened Paths
  import opened LaunchDeadline

  datatype RunState = RunCreated | Admitted | Running | WaitingForEvent | WaitingForAgent | OtherState

  datatype Conditions = Conditions(
    workspaceRoot: string, approvalRequired: bool, environments: seq<string>,
    dataClasses: seq<string>, maxOutputBytes: Option<int>)

  datatype Resource = Resource(id: string, kind: string, pattern: string, operations: seq<string>, conditions: Conditions)

  datatype Budgets = Budgets(
    maxWall: Option<int>, maxModelCalls: Option<int>, maxInputTokens: Option<int>,
    maxOutputTokens: Option<int>, maxToolCalls: Option<int>, maxCostMicros: Option<int>)

  datatype Usage = Usage(wall: int, modelCalls: int, inputTokens: int, outputTokens: int)

  datatype Profile = Profile(runtimeClass: string, imageDigest: string, commandDigest: string, entrypoint: string)

  /** Checkpoints, obligations, child limits, escalation and release contracts. */
  datatype Controls = Controls(childLimits: bool, checkpoints: bool, obligations: bool, escalation: bool, releaseContract: bool)

  const NoControls := Controls(false, false, false, false, false)

  datatype Request = Request(
    runID: string, sponsor: string, intent: string, profile: Profile, resources: seq<Resource>,
    budgets: Budgets, deadline: Option<int>, controls: Controls)

  datatype Contract = Contract(owner: string, goal: string, resources: seq<Resource>, budgets: Budgets,
                               deadline: Option<int>, controls: Controls)

  datatype Grant = Grant(
    id: string, subject: string, issuedByDaemon: bool, delegable: bool, resource: Resource,
    issuedAt: int, expiresAt: int, revoked: bool, maxUses: Option<int>, decisionID: string)

  datatype Run = Run(
    id: string, imageDigest: string, contract: Contract, delegation: seq<string>, state: RunState,
    deadline: Option<int>, budgets: Budgets, usage: Usage, capabilityIDs: seq<string>,
    createdAt: int, activeExecution: string, parent: string, checkpoint: string, approvals: seq<string>)

  datatype Task = Task(runID: string, intent: string, profile: Profile)

  datatype Transaction = Transaction(
    running: bool, stages: nat, activeExecution: bool, sponsor: string, agentRunIDs: seq<string>,
    intent: string, task: Task, bound: Contract)

  datatype Admission = Admission(task: Task, contract: Contract, run: Run, grants: seq<Grant>, transaction: Transaction)

  // ---- admission ---------------------------------------------------------------------

  const DefaultGrantTTL := 3600 * Second

  function Sooner(a: Option<int>, t: int): int { if a.Some? && a.value < t then a.value else t }

  /** The contract's deadline: the requested one or the wall budget's, whichever is first. */
  function ContractDeadline(r: Request, now: int): Option<int> {
    if r.budgets.maxWall.Some? then Some(Sooner(r.deadline, now + Duration(r.budgets.maxWall.value))) else r.deadline
  }

  function GrantFor(contract: Contract, runID: string, resource: Resource, issuedAt: int, expiresAt: int,
                    capID: string -> string, decisionID: string): Grant {
    Grant(capID(resource.id), runID, true, false, resource, issuedAt, expiresAt, false,
          contract.budgets.maxToolCalls, decisionID)
  }

  predicate ScopeOK(r: Resource) {
    r.kind == "filesystem" ==>
      ValidFilesystemScope(FilesystemResource(r.pattern, r.conditions.workspaceRoot, r.operations))
  }

  predicate Compilable(contract: Contract, deadline: Option<int>, issuedAt: int) {
    && issuedAt < Sooner(deadline, issuedAt + DefaultGrantTTL)
    && contract.resources != []
    && forall i :: 0 <= i < |contract.resources| ==> ScopeOK(contract.resources[i])
  }

  /** capability.Compile: one grant per resource, none outliving a deadline. */
  method CompileGrants(contract: Contract, runID: string, deadline: Option<int>, issuedAt: int,
                       capID: string -> string, decisionID: string)
    returns (result: Option<seq<Grant>>)
    ensures result.Some? <==> Compilable(contract, deadline, issuedAt)
    ensures result.Some? ==> result.value == GrantsOf(contract, runID, deadline, issuedAt, capID, decisionID)
  {
    hide ScopeOK;
    var expiresAt := Sooner(deadline, issuedAt + DefaultGrantTTL);
    if expiresAt <= issuedAt { return None; }
    var grants := [];
    for i := 0 to |contract.resources|
      invariant forall k :: 0 <= k < i ==> ScopeOK(contract.resources[k])
      invariant |grants| == i
      invariant forall k :: 0 <= k < i ==>
                  grants[k] == GrantFor(contract, runID, contract.resources[k], issuedAt, expiresAt, capID, decisionID)
    {
      if !ScopeOK(contract.resources[i]) { return None; }
      grants := grants + [GrantFor(contract, runID, contract.resources[i], issuedAt, expiresAt, capID, decisionID)];
    }
    if |grants| == 0 { return None; }
    return Some(grants);
  }

  function GrantsOf(contract: Contract, runID: string, deadline: Option<int>, issuedAt: int,
                    capID: string -> string, decisionID: string): seq<Grant> {
    var expiresAt := Sooner(deadline, issuedAt + DefaultGrantTTL);
    seq(|contract.resources|, i requires 0 <= i < |contract.resources| =>
      GrantFor(contract, runID, contract.resources[i], issuedAt, expiresAt, capID, decisionID))
  }

  predicate Preparable(r: Request, now: int) {
    && (r.budgets.maxWall.Some? ==> 1 <= r.budgets.maxWall.value <= MaxSeconds)
    && Compilable(Lowered(r, now), ContractDeadline(r, now), now)
  }

  function Lowered(r: Request, now: int): Contract {
    Contract(r.sponsor, r.intent, r.resources, r.budgets, ContractDeadline(r, now), r.controls)
  }

  /** What Prepare hands to the store. */
  function Prepared(r: Request, now: int, capID: string -> string, decisionID: string): Admission {
    var contract := Lowered(r, now);
    var grants := GrantsOf(contract, r.runID, contract.deadline, now, capID, decisionID);
    var task := Task(r.runID, r.intent, r.profile);
    Admission(
      task, contract,
      Run(r.runID, if r.profile.imageDigest != "" then r.profile.imageDigest else r.profile.commandDigest, contract,
          [r.sponsor], Admitted, contract.deadline, contract.budgets, Usage(0, 0, 0, 0),
          seq(|grants|, i requires 0 <= i < |grants| => grants[i].id), now, "", "", "", []),
      grants,
      Transaction(false, 0, false, r.sponsor, [r.runID], r.intent, task, contract))
  }

  method Prepare(r: Request, now: int, capID: string -> string, decisionID: string) returns (result: Option<Admission>)
    ensures result.Some? <==> Preparable(r, now)
    ensures result.Some? ==> result.value == Prepared(r, now, capID, decisionID)
  {
    hide Duration, ScopeOK;
    var deadline := r.deadline;
    if r.budgets.maxWall.Some? {
      var seconds := r.budgets.maxWall.value;
      if seconds < 1 || seconds > MaxSeconds { return None; }
      var wallTimeDeadline := now + Duration(seconds);
      if deadline.None? || wallTimeDeadline < deadline.value { deadline := Some(wallTimeDeadline); }
    }
    var contract := Contract(r.sponsor, r.intent, r.resources, r.budgets, deadline, r.controls);
    var grants := CompileGrants(contract, r.runID, deadline, now, capID, decisionID);
    if grants.None? { return None; }
    return Some(Prepared(r, now, capID, decisionID));
  }

  // ---- the launch authority ------------------------------------------------------------

  datatype Broker = Broker(provider: string, maxModelCalls: int, maxInputTokens: int, maxOutputTokens: int)

  datatype Ceilings = Ceilings(maxWall: int, allowedImages: seq<string>, broker: Option<Broker>)

  datatype Input = Input(
    a: Admission, imageDigest: Option<string>, command: seq<string>, ceilings: Ceilings, caller: Option<int>, now: int)

  predicate Bindings(x: Input) {
    var a := x.a;
    && a.task.profile.runtimeClass == "oci"
    && a.run.state in {Admitted, WaitingForAgent, WaitingForEvent}
    && a.run.activeExecution == "" && a.run.parent == "" && a.run.checkpoint == "" && a.run.approvals == []
    && a.transaction.running && a.transaction.stages == 1 && !a.transaction.activeExecution
    && a.task.runID == a.run.id && a.run.contract == a.contract && a.transaction.bound == a.contract
    && a.transaction.task == a.task && a.transaction.intent == a.task.intent
    && a.transaction.agentRunIDs == [a.run.id]
    && a.contract.owner == a.transaction.sponsor && a.run.delegation == [a.transaction.sponsor]
    && a.run.imageDigest == a.task.profile.imageDigest
    && a.run.deadline == a.contract.deadline && a.run.budgets == a.contract.budgets
    && a.contract.controls == NoControls
    && a.contract.budgets.maxToolCalls.None? && a.contract.budgets.maxCostMicros.None?
  }

  predicate Executable(x: Input, digestOf: seq<string> -> string) {
    && x.imageDigest == Some(x.a.task.profile.imageDigest) && x.imageDigest == Some(x.a.run.imageDigest)
    && x.imageDigest.value in x.ceilings.allowedImages
    && x.command != [] && digestOf(x.command) == x.a.task.profile.commandDigest
    && (x.a.task.profile.entrypoint != "" ==> x.command[0] == x.a.task.profile.entrypoint)
  }

  predicate UnsupportedConditions(c: Conditions, workspace: bool) {
    c.approvalRequired || (!workspace && c.workspaceRoot != "") || c.environments != [] || c.dataClasses != []
    || c.maxOutputBytes.Some?
  }

  predicate ExactOperations(actual: seq<string>, expected: seq<string>) {
    |actual| == |expected| && forall i :: 0 <= i < |expected| ==> expected[i] in actual
  }

  /** The one workspace rule the sandbox can enforce. */
  predicate FullWorkspace(r: Resource) {
    && r.kind == "filesystem" && r.pattern == "workspace/**"
    && ExactOperations(r.operations, ["filesystem.read", "filesystem.write"])
    && r.conditions.workspaceRoot == "workspace" && !UnsupportedConditions(r.conditions, true)
  }

  predicate BrokerModel(r: Resource, broker: Option<Broker>) {
    && r.kind == "model" && broker.Some? && r.pattern == broker.value.provider + "/*"
    && ExactOperations(r.operations, ["model.invoke"]) && !UnsupportedConditions(r.conditions, false)
  }

  predicate GrantMatches(x: Input, i: nat)
    requires i < |x.a.grants| == |x.a.contract.resources| == |x.a.run.capabilityIDs|
  {
    var g := x.a.grants[i];
    && g.id == x.a.run.capabilityIDs[i] && g.subject == x.a.run.id && g.resource == x.a.contract.resources[i]
    && g.issuedByDaemon && !g.delegable && g.issuedAt == x.a.run.createdAt && g.maxUses.None?
  }

  predicate GrantLive(x: Input, g: Grant) {
    && !g.revoked && g.issuedAt <= x.now < g.expiresAt
    && (x.a.run.deadline.Some? ==> g.expiresAt <= x.a.run.deadline.value)
  }

  predicate WithinBudget(limit: Option<int>, used: int, daemon: int) {
    limit.Some? ==> 1 <= limit.value - used && daemon <= limit.value - used
  }

  predicate ModelWithinBudget(b: Budgets, used: Usage, broker: Broker) {
    && WithinBudget(b.maxModelCalls, used.modelCalls, broker.maxModelCalls)
    && WithinBudget(b.maxInputTokens, used.inputTokens, broker.maxInputTokens)
    && WithinBudget(b.maxOutputTokens, used.outputTokens, broker.maxOutputTokens)
  }

  predicate NoModelBudgets(b: Budgets) {
    b.maxModelCalls.None? && b.maxInputTokens.None? && b.maxOutputTokens.None?
  }

  /** Exactly one full workspace, at most one brokered model, nothing else. */
  predicate Enforceable(resources: seq<Resource>, broker: Option<Broker>) {
    && (forall i :: 0 <= i < |resources| ==> FullWorkspace(resources[i]) || BrokerModel(resources[i], broker))
    && (exists i :: 0 <= i < |resources| && FullWorkspace(resources[i]))
    && (forall i, j :: 0 <= i < j < |resources| ==> resources[i].kind != resources[j].kind)
  }

  predicate HasModel(resources: seq<Resource>) {
    exists i :: 0 <= i < |resources| && resources[i].kind == "model"
  }

  predicate GrantsHold(x: Input) {
    && |x.a.grants| == |x.a.contract.resources| == |x.a.run.capabilityIDs|
    && (forall i :: 0 <= i < |x.a.grants| ==> GrantMatches(x, i) && GrantLive(x, x.a.grants[i]))
    && SameDecision(x.a.grants)
    && Enforceable(x.a.contract.resources, x.ceilings.broker)
    && (if HasModel(x.a.contract.resources)
        then x.ceilings.broker.Some? && ModelWithinBudget(x.a.contract.budgets, x.a.run.usage, x.ceilings.broker.value)
        else NoModelBudgets(x.a.contract.budgets))
  }

  /** Grants with a decision all carry the first one; decision IDs are never empty. */
  predicate SameDecision(grants: seq<Grant>) {
    forall i :: 0 <= i < |grants| ==> grants[i].decisionID == grants[0].decisionID
  }

  function LimitsOf(x: Input): Limits {
    Limits(x.ceilings.maxWall, x.a.contract.deadline, x.a.run.deadline,
           seq(|x.a.grants|, i requires 0 <= i < |x.a.grants| => x.a.grants[i].expiresAt),
           x.a.contract.budgets.maxWall, x.a.run.usage.wall)
  }

  /** validateGrants */
  method ValidateGrants(x: Input) returns (ok: bool)
    requires forall i :: 0 <= i < |x.a.grants| ==> x.a.grants[i].decisionID != ""
    ensures ok <==> GrantsHold(x)
  {
    hide FullWorkspace, BrokerModel, GrantMatches, GrantLive, ModelWithinBudget, NoModelBudgets;
    var resources := x.a.contract.resources;
    if |x.a.grants| != |resources| || |x.a.grants| != |x.a.run.capabilityIDs| { return false; }
    var workspaceSeen, modelSeen, decisionID := false, false, "";
    for i := 0 to |x.a.grants|
      invariant forall k :: 0 <= k < i ==> GrantMatches(x, k) && GrantLive(x, x.a.grants[k])
      invariant decisionID == (if i == 0 then "" else x.a.grants[0].decisionID)
      invariant forall k :: 0 <= k < i ==> x.a.grants[k].decisionID == x.a.grants[0].decisionID
      invariant forall k :: 0 <= k < i ==> FullWorkspace(resources[k]) || BrokerModel(resources[k], x.ceilings.broker)
      invariant workspaceSeen <==> exists k :: 0 <= k < i && FullWorkspace(resources[k])
      invariant modelSeen <==> exists k :: 0 <= k < i && resources[k].kind == "model"
      invariant forall k, j :: 0 <= k < j < i ==> resources[k].kind != resources[j].kind
    {
      var grant := x.a.grants[i];
      var resource := resources[i];
      if !GrantMatches(x, i) { return false; }
      if decisionID == "" { decisionID := grant.decisionID; }
      else if decisionID != grant.decisionID { return false; }
      if !GrantLive(x, grant) { return false; }
      KindsOf(resources, x.ceilings.broker, i);
      if resource.kind == "filesystem" {
        if workspaceSeen || !FullWorkspace(resource) { return false; }
        workspaceSeen := true;
      } else if resource.kind == "model" {
        if modelSeen || !BrokerModel(resource, x.ceilings.broker) { return false; }
        modelSeen := true;
      } else {
        return false;
      }
    }
    if !workspaceSeen { return false; }
    if !modelSeen { return NoModelBudgets(x.a.contract.budgets); }
    if x.ceilings.broker.None? { return false; }
    return ModelWithinBudget(x.a.contract.budgets, x.a.run.usage, x.ceilings.broker.value);
  }

  lemma KindsOf(resources: seq<Resource>, broker: Option<Broker>, i: nat)
    requires i < |resources|
    ensures forall k :: 0 <= k <= i ==>
              && (FullWorkspace(resources[k]) ==> resources[k].kind == "filesystem")
              && (BrokerModel(resources[k], broker) ==> resources[k].kind == "model" && broker.Some?)
  {
  }

  /** The authority to launch, apart from time. */
  predicate Authorized(x: Input, digestOf: seq<string> -> string) {
    Bindings(x) && Executable(x, digestOf) && GrantsHold(x)
  }

  /** The one rule a sandboxed run has for its workspace, in its own fields. */
  predicate IsWorkspace(r: Resource) {
    && r.kind == "filesystem" && r.pattern == "workspace/**"
    && (r.operations == ["filesystem.read", "filesystem.write"] || r.operations == ["filesystem.write", "filesystem.read"])
    && r.conditions == Conditions("workspace", false, [], [], None)
  }

  predicate IsModel(r: Resource, provider: string) {
    && r.kind == "model" && r.pattern == provider + "/*" && r.operations == ["model.invoke"]
    && r.conditions == Conditions("", false, [], [], None)
  }

  /** A budget, if there is one, still has room for what the daemon allows. */
  predicate Room(limit: Option<int>, used: int, daemon: int) {
    limit == None || (limit.value > used && used + daemon <= limit.value)
  }

  /** What a launch takes, in the fields of run, contract, task, transaction and
      grants: who it is for, what it may execute and what it may reach. */
  predicate Licensed(x: Input, digestOf: seq<string> -> string) {
    LicensedRun(x, digestOf) && LicensedGrants(x)
  }

  predicate LicensedRun(x: Input, digestOf: seq<string> -> string) {
    var run, contract, task, tx := x.a.run, x.a.contract, x.a.task, x.a.transaction;
    && (run.state.Admitted? || run.state.WaitingForAgent? || run.state.WaitingForEvent?)
    && run.activeExecution == run.parent == run.checkpoint == "" && run.approvals == []
    && tx.running && tx.stages == 1 && !tx.activeExecution
    && run.id == task.runID && tx.agentRunIDs == [task.runID] && tx.task == task && tx.intent == task.intent
    && run.contract == contract == tx.bound
    && run.delegation == [tx.sponsor] && contract.owner == tx.sponsor
    && run.deadline == contract.deadline && run.budgets == contract.budgets
    && !contract.controls.childLimits && !contract.controls.checkpoints && !contract.controls.obligations
    && !contract.controls.escalation && !contract.controls.releaseContract
    && contract.budgets.maxToolCalls == None && contract.budgets.maxCostMicros == None
    && task.profile.runtimeClass == "oci"
    && x.imageDigest == Some(task.profile.imageDigest) && run.imageDigest == task.profile.imageDigest
    && run.imageDigest in x.ceilings.allowedImages
    && x.command != [] && task.profile.commandDigest == digestOf(x.command)
    && task.profile.entrypoint in ["", x.command[0]]
  }

  predicate LicensedGrants(x: Input) {
    var run, contract := x.a.run, x.a.contract;
    && |x.a.grants| == |contract.resources| == |run.capabilityIDs|
    && (forall i :: 0 <= i < |x.a.grants| ==>
          var g := x.a.grants[i];
          && g.id == run.capabilityIDs[i] && g.resource == contract.resources[i] && g.subject == run.id
          && g.issuedByDaemon && !g.delegable && !g.revoked && g.maxUses == None
          && g.issuedAt == run.createdAt && g.issuedAt <= x.now && x.now < g.expiresAt
          && (run.deadline.Some? ==> g.expiresAt <= run.deadline.value))
    && (forall i, j :: 0 <= i < j < |x.a.grants| ==> x.a.grants[i].decisionID == x.a.grants[j].decisionID)
    && match |contract.resources|
       case 1 =>
         && IsWorkspace(contract.resources[0])
         && contract.budgets.maxModelCalls == contract.budgets.maxInputTokens == contract.budgets.maxOutputTokens == None
       case 2 =>
         && x.ceilings.broker.Some?
         && var b := x.ceilings.broker.value;
            && (|| (IsWorkspace(contract.resources[0]) && IsModel(contract.resources[1], b.provider))
                || (IsWorkspace(contract.resources[1]) && IsModel(contract.resources[0], b.provider)))
            && Room(contract.budgets.maxModelCalls, run.usage.modelCalls, b.maxModelCalls)
            && Room(contract.budgets.maxInputTokens, run.usage.inputTokens, b.maxInputTokens)
            && Room(contract.budgets.maxOutputTokens, run.usage.outputTokens, b.maxOutputTokens)
       case _ => false
  }

  lemma WorkspaceIsFull(r: Resource)
    ensures FullWorkspace(r) <==> IsWorkspace(r)
  {
    var ops := r.operations;
    if FullWorkspace(r) {
      assert ["filesystem.read", "filesystem.write"][0] in ops && ["filesystem.read", "filesystem.write"][1] in ops;
      assert ops == [ops[0], ops[1]];
    }
  }

  lemma ModelIsBrokered(r: Resource, broker: Option<Broker>)
    ensures BrokerModel(r, broker) <==> broker.Some? && IsModel(r, broker.value.provider)
  {
    if BrokerModel(r, broker) {
      assert ["model.invoke"][0] in r.operations;
      assert r.operations == [r.operations[0]];
    }
  }

  predicate Other(w: int, i: int) { i != w }

  lemma AtMostTwo(n: int, w: nat)
    requires forall i, j :: 0 <= i < j < n ==> !(Other(w, i) && Other(w, j))
    ensures n <= 2
  {
    assert Other(w, if w == 0 then 1 else 0) && Other(w, if w <= 1 then 2 else 1);
  }

  /** The loop's conditions on resources leave one or two of them. */
  lemma EnforceableMeaning(resources: seq<Resource>, broker: Option<Broker>)
    ensures Enforceable(resources, broker) <==>
            || (|resources| == 1 && IsWorkspace(resources[0]))
            || (|resources| == 2 && broker.Some?
                && (|| (IsWorkspace(resources[0]) && IsModel(resources[1], broker.value.provider))
                    || (IsWorkspace(resources[1]) && IsModel(resources[0], broker.value.provider))))
    ensures Enforceable(resources, broker) ==> (HasModel(resources) <==> |resources| == 2)
  {
    hide FullWorkspace, BrokerModel;
    forall i | 0 <= i < |resources|
      ensures FullWorkspace(resources[i]) <==> IsWorkspace(resources[i])
      ensures BrokerModel(resources[i], broker) <==> broker.Some? && IsModel(resources[i], broker.value.provider)
    {
      WorkspaceIsFull(resources[i]);
      ModelIsBrokered(resources[i], broker);
    }
    if Enforceable(resources, broker) {
      var w :| 0 <= w < |resources| && FullWorkspace(resources[w]);
      assert forall i :: 0 <= i < |resources| && i != w ==> resources[i].kind == "model";
      forall i, j | 0 <= i < j < |resources| ensures !(Other(w, i) && Other(w, j)) {
        assert resources[i].kind != resources[j].kind;
      }
      AtMostTwo(|resources|, w);
      var first, last := resources[0], resources[|resources| - 1];
      assert FullWorkspace(first) || BrokerModel(first, broker);
      assert FullWorkspace(last) || BrokerModel(last, broker);
      assert |resources| == 2 ==> first.kind != last.kind;
    }
  }

  /** The checks in the order of the code grant exactly what is licensed. */
  lemma AuthorizedIsLicensed(x: Input, digestOf: seq<string> -> string)
    ensures Authorized(x, digestOf) <==> Licensed(x, digestOf)
  {
    hide Bindings, Executable, GrantsHold, LicensedRun, LicensedGrants;
    RunIsLicensed(x, digestOf);
    GrantsAreLicensed(x);
  }

  lemma RunIsLicensed(x: Input, digestOf: seq<string> -> string)
    ensures Bindings(x) && Executable(x, digestOf) <==> LicensedRun(x, digestOf)
  {
  }

  lemma GrantsAreLicensed(x: Input)
    ensures GrantsHold(x) <==> LicensedGrants(x)
  {
    hide IsWorkspace, IsModel, Enforceable, HasModel;
    EnforceableMeaning(x.a.contract.resources, x.ceilings.broker);
  }

  /** authority.Compile */
  method Compile(x: Input, digestOf: seq<string> -> string) returns (r: Option<Boundary>)
    requires InRange(LimitsOf(x)) && x.ceilings.allowedImages != []
    requires forall i :: 0 <= i < |x.a.grants| ==> x.a.grants[i].decisionID != ""
    ensures r.Some? <==> Licensed(x, digestOf) && Grantable(LimitsOf(x), x.caller, x.now)
    ensures r.Some? ==> Narrows(r.value, LimitsOf(x), x.caller, x.now)
  {
    hide Bindings, Executable, GrantsHold, Grantable, Narrows, Duration, Licensed;
    AuthorizedIsLicensed(x, digestOf);
    if !Bindings(x) { return None; }
    if !Executable(x, digestOf) { return None; }
    var ok := ValidateGrants(x);
    if !ok { return None; }
    var outcome := TimeoutBoundary(LimitsOf(x), x.caller, x.now);
    match outcome
    case Granted(boundary) => return Some(boundary);
    case Denied(_) => return None;
  }

  // ---- admission is launchable -----------------------------------------------------------

  /** Requests the OCI runtime can enforce under these ceilings. */
  predicate Supported(r: Request, ceilings: Ceilings, used: Usage) {
    && r.profile.runtimeClass == "oci" && r.profile.imageDigest != ""
    && r.controls == NoControls && r.budgets.maxToolCalls.None? && r.budgets.maxCostMicros.None?
    && Enforceable(r.resources, ceilings.broker)
    && (if HasModel(r.resources)
        then ceilings.broker.Some? && ModelWithinBudget(r.budgets, used, ceilings.broker.value)
        else NoModelBudgets(r.budgets))
  }

  /** An admitted run that became launchable: its transaction runs with one stage
      and nothing but its state and usage has changed. */
  function Launchable(a: Admission, state: RunState, used: Usage): Admission {
    a.(run := a.run.(state := state, usage := used), transaction := a.transaction.(running := true, stages := 1))
  }

  /** What the launch authority re-checks, admission already established: for a
      supported request the answer depends on time alone. */
  lemma AdmissionIsLaunchable(r: Request, createdAt: int, capID: string -> string, decisionID: string,
                              state: RunState, used: Usage, ceilings: Ceilings, command: seq<string>,
                              digestOf: seq<string> -> string, caller: Option<int>, now: int)
    requires Preparable(r, createdAt) && createdAt <= now
    requires Supported(r, ceilings, used)
    requires state in {Admitted, WaitingForAgent, WaitingForEvent}
    requires r.profile.imageDigest in ceilings.allowedImages
    requires command != [] && digestOf(command) == r.profile.commandDigest
    requires r.profile.entrypoint != "" ==> command[0] == r.profile.entrypoint
    ensures var x := LaunchInput(r, createdAt, capID, decisionID, state, used, ceilings, command, caller, now);
            (forall b <- Bounds(LimitsOf(x), now) :: now < b) ==> Authorized(x, digestOf)
  {
    hide Enforceable, HasModel, ModelWithinBudget, NoModelBudgets, Duration, ScopeOK;
    var x := LaunchInput(r, createdAt, capID, decisionID, state, used, ceilings, command, caller, now);
    var a := x.a;
    if forall b <- Bounds(LimitsOf(x), now) :: now < b {
      forall i | 0 <= i < |a.grants| ensures GrantMatches(x, i) && GrantLive(x, a.grants[i]) {
        var expiries := LimitsOf(x).expiries;
        assert expiries[i] in expiries && expiries[i] in Bounds(LimitsOf(x), now);
      }
    }
  }

  /** What the daemon asks the launch authority for an admitted run. */
  function LaunchInput(r: Request, createdAt: int, capID: string -> string, decisionID: string, state: RunState,
                       used: Usage, ceilings: Ceilings, command: seq<string>, caller: Option<int>, now: int): Input {
    Input(Launchable(Prepared(r, createdAt, capID, decisionID), state, used), Some(r.profile.imageDigest), command,
          ceilings, caller, now)
  }

  /** The two ends meet: every supported admission launches exactly while at
      least one second of authority, or the caller's whole timeout, is left. */
  method LaunchAdmitted(r: Request, createdAt: int, capID: string -> string, decisionID: string, state: RunState,
                        used: Usage, ceilings: Ceilings, command: seq<string>, digestOf: seq<string> -> string,
                        caller: Option<int>, now: int)
    returns (boundary: Option<Boundary>)
    requires Preparable(r, createdAt) && createdAt <= now && decisionID != ""
    requires Supported(r, ceilings, used) && used.wall >= 0 && 1 <= ceilings.maxWall <= MaxInt64
    requires state in {Admitted, WaitingForAgent, WaitingForEvent}
    requires r.profile.imageDigest in ceilings.allowedImages
    requires command != [] && digestOf(command) == r.profile.commandDigest
    requires r.profile.entrypoint != "" ==> command[0] == r.profile.entrypoint
    ensures var limits := LimitsOf(LaunchInput(r, createdAt, capID, decisionID, state, used, ceilings, command, caller, now));
            && (boundary.Some? <==> Grantable(limits, caller, now))
            && (boundary.Some? ==> Narrows(boundary.value, limits, caller, now))
  {
    hide Supported, Duration, Narrows, Authorized, Bounds, BudgetLeft, Licensed;
    var input := LaunchInput(r, createdAt, capID, decisionID, state, used, ceilings, command, caller, now);
    AdmissionIsLaunchable(r, createdAt, capID, decisionID, state, used, ceilings, command, digestOf, caller, now);
    AuthorizedIsLicensed(input, digestOf);
    boundary := Compile(input, digestOf);
  }
}
