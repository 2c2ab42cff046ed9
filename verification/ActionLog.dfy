/** The event log of one run: which events the reducer accepts
    (internal/kernel/reducer/reducer.go), what the log says about grants and
    actions, and how an action request is decided from it
    (internal/kernel/broker/broker.go, internal/kernel/capability/compiler.go). */
module ActionLog {
  import opened Text
  import opened Paths

  type Time = int

  datatype RunState =
    | Created | Admitted | Running
    | WaitingForEvent | WaitingForAgent | WaitingForApproval
    | Blocked | Failed | Cancelled | Completed

  predicate Terminal(s: RunState) { s.Failed? || s.Cancelled? || s.Completed? }

  predicate RequiresReason(s: RunState) { s.Blocked? || s.Failed? || s.Cancelled? }

  predicate CanTransition(from: RunState, to: RunState) {
    match from
    case Created => to in {Admitted, Failed, Cancelled}
    case Admitted => to in {Running, Blocked, Failed, Cancelled}
    case Running => to in {WaitingForEvent, WaitingForAgent, WaitingForApproval,
                           Blocked, Failed, Cancelled, Completed}
    case WaitingForEvent => to in {Running, Blocked, Failed, Cancelled}
    case WaitingForAgent => to in {Running, Blocked, Failed, Cancelled}
    case WaitingForApproval => to in {Running, Blocked, Failed, Cancelled}
    case Blocked => to in {Admitted, Running, Failed, Cancelled}
    case _ => false
  }

  /** The same moves by where they lead. Nothing leaves a terminal state; anything
      else may fail or be cancelled, and is blocked unless just created. */
  lemma WaysInto(from: RunState, to: RunState)
    ensures CanTransition(from, to) <==>
            match to
            case Created => false
            case Admitted => from.Created? || from.Blocked?
            case Running => from in {Admitted, WaitingForEvent, WaitingForAgent, WaitingForApproval, Blocked}
            case WaitingForEvent => from == Running
            case WaitingForAgent => from == Running
            case WaitingForApproval => from == Running
            case Blocked => !Terminal(from) && from != Created && from != Blocked
            case Failed => !Terminal(from)
            case Cancelled => !Terminal(from)
            case Completed => from == Running
  {
  }

  predicate IdentifierStart(c: char) { 'A' <= c <= 'Z' || 'a' <= c <= 'z' || '0' <= c <= '9' }

  predicate IsIdentifier(s: string) {
    && 1 <= |s| <= 256
    && IdentifierStart(s[0])
    && forall c <- s :: IdentifierStart(c) || c in "._:/-"
  }

  datatype Grant = Grant(
    id: string,
    subjectRunID: string,
    kind: string,
    pattern: string,
    operations: seq<string>,
    issuedAt: Time,
    expiresAt: Time,
    revokedAt: Option<Time>,
    maxUses: Option<nat>,
    approvalRequired: bool)

  predicate ValidGrant(g: Grant) {
    && IsIdentifier(g.id) && IsIdentifier(g.subjectRunID) && IsIdentifier(g.kind)
    && g.pattern != "" && g.operations != []
    && g.issuedAt < g.expiresAt
    && (g.revokedAt.Some? ==> g.issuedAt <= g.revokedAt.value)
    && (g.maxUses.Some? ==> 1 <= g.maxUses.value)
  }

  datatype Request = Request(
    id: string,
    runID: string,
    idempotencyKey: string,
    operation: string,
    kind: string,
    target: string,
    hint: string)

  predicate ValidRequest(r: Request) {
    && IsIdentifier(r.id) && IsIdentifier(r.runID) && IsIdentifier(r.operation)
    && IsIdentifier(r.idempotencyKey) && IsIdentifier(r.kind) && r.target != ""
    && (r.hint == "" || IsIdentifier(r.hint))
  }

  datatype Event =
    | RunCreated(runID: string, contractDigest: string)
    | StateChanged(from: RunState, to: RunState, reason: string)
    | ExecutionStarted(executionID: string)
    | ExecutionFinished(executionID: string, succeeded: bool)
    | CapabilitiesGranted(contractDigest: string, grants: seq<Grant>)
    | ActionRequested(request: Request)
    | ActionDenied(actionID: string, capabilityID: string)
    | ActionApprovalRequired(actionID: string, capabilityID: string)
    | ActionAuthorized(actionID: string, capabilityID: string)
    | ActionExecuting(actionID: string, capabilityID: string)
    | ActionCommitted(actionID: string, capabilityID: string)
    | ActionFailed(actionID: string, capabilityID: string)
    | ActionUnknown(actionID: string, capabilityID: string)
  {
    /** Everything the broker writes after a request. */
    predicate IsOutcome() {
      ActionDenied? || ActionApprovalRequired? || ActionAuthorized? || ActionExecuting?
      || ActionCommitted? || ActionFailed? || ActionUnknown?
    }

    predicate IsAction() { ActionRequested? || IsOutcome() }

    predicate Closes(id: string) {
      (ActionDenied? || ActionApprovalRequired? || ActionCommitted? || ActionFailed? || ActionUnknown?)
      && actionID == id
    }

    predicate Binds(id: string) { (ActionAuthorized? || ActionExecuting?) && actionID == id }

    predicate Requests(id: string) { ActionRequested? && request.id == id }
  }

  type Log = seq<Event>

  datatype Projection = Projection(
    runID: string,
    sequence: nat,
    state: RunState,
    activeExecution: string,
    contractDigest: string,
    capabilityIDs: set<string>)

  /** reducer.Apply on a live projection. */
  function Apply(p: Projection, e: Event): Option<Projection> {
    var next := p.(sequence := p.sequence + 1);
    match e
    case RunCreated(_, _) => None
    case StateChanged(from, to, reason) =>
      if from != p.state || !CanTransition(from, to) || (RequiresReason(to) && reason == "")
         || (p.activeExecution != "" && to != Running)
      then None
      else Some(next.(state := to))
    case ExecutionStarted(executionID) =>
      if IsIdentifier(executionID) && p.activeExecution == ""
         && p.state in {Admitted, WaitingForAgent, WaitingForEvent}
      then Some(next.(state := Running, activeExecution := executionID))
      else None
    case ExecutionFinished(executionID, succeeded) =>
      if IsIdentifier(executionID) && p.state == Running && p.activeExecution == executionID
      then Some(next.(state := if succeeded then WaitingForEvent else WaitingForAgent,
                      activeExecution := ""))
      else None
    case CapabilitiesGranted(digest, grants) =>
      if digest != p.contractDigest || grants == [] then None
      else
        (match Install(p.capabilityIDs, p.runID, grants)
         case None => None
         case Some(ids) => Some(next.(capabilityIDs := ids)))
    case ActionRequested(request) =>
      if ValidRequest(request) && request.runID == p.runID && p.state == Running
      then Some(next) else None
    case ActionDenied(id, _) => if id != "" then Some(next) else None
    case ActionApprovalRequired(id, _) => if id != "" then Some(next) else None
    case ActionAuthorized(id, _) => if id != "" then Some(next) else None
    case _ => if e.actionID != "" && e.capabilityID != "" then Some(next) else None
  }

  function Install(installed: set<string>, runID: string, grants: seq<Grant>): Option<set<string>>
    decreases |grants|
  {
    if grants == [] then Some(installed)
    else
      var g := grants[0];
      if !ValidGrant(g) || g.subjectRunID != runID || g.id in installed then None
      else Install(installed + {g.id}, runID, grants[1..])
  }

  // ---- what is accepted ---------------------------------------------------------------

  /** Letters and digits, by their ASCII codes. */
  predicate Alphanumeric(c: char) {
    var code := c as int;
    48 <= code < 58 || 65 <= code < 91 || 97 <= code < 123
  }

  lemma IdentifierMeaning(s: string)
    ensures IsIdentifier(s) <==>
            && s != "" && |s| < 257 && Alphanumeric(s[0])
            && forall c <- s :: Alphanumeric(c) || c in ['.', '_', ':', '/', '-']
  {
    assert forall c: char :: IdentifierStart(c) <==> Alphanumeric(c);
    assert forall c: char :: c in "._:/-" <==> c in ['.', '_', ':', '/', '-'];
  }

  /** A grant that can be installed in a run, field by field. */
  predicate Installable(g: Grant, runID: string) {
    && IsIdentifier(g.id) && g.subjectRunID == runID && IsIdentifier(runID) && IsIdentifier(g.kind)
    && g.pattern != "" && |g.operations| > 0 && g.expiresAt > g.issuedAt
    && (match g.revokedAt case None => true case Some(at) => at >= g.issuedAt)
    && (match g.maxUses case None => true case Some(n) => n > 0)
  }

  lemma {:induction false} InstallMeaning(installed: set<string>, runID: string, grants: seq<Grant>)
    ensures Install(installed, runID, grants).Some? <==>
            && (forall g <- grants :: Installable(g, runID) && g.id !in installed)
            && forall i, j :: 0 <= i < j < |grants| ==> grants[i].id != grants[j].id
    ensures Install(installed, runID, grants).Some? ==>
              Install(installed, runID, grants).value == installed + set g <- grants :: g.id
    decreases |grants|
  {
    hide IsIdentifier;
    if grants != [] {
      var g, rest := grants[0], grants[1..];
      assert grants == [g] + rest;
      assert ValidGrant(g) && g.subjectRunID == runID <==> Installable(g, runID);
      InstallMeaning(installed + {g.id}, runID, rest);
      InstallOne(installed, runID, g, rest);
    }
  }

  /** Distinct IDs, one grant at a time. */
  lemma InstallOne(installed: set<string>, runID: string, g: Grant, rest: seq<Grant>)
    ensures var grants := [g] + rest;
            (&& (forall h <- grants :: Installable(h, runID) && h.id !in installed)
             && forall i, j :: 0 <= i < j < |grants| ==> grants[i].id != grants[j].id)
            <==>
            (&& Installable(g, runID) && g.id !in installed
             && (forall h <- rest :: Installable(h, runID) && h.id !in installed + {g.id})
             && forall i, j :: 0 <= i < j < |rest| ==> rest[i].id != rest[j].id)
    ensures (installed + {g.id}) + (set h <- rest :: h.id) == installed + set h <- [g] + rest :: h.id
  {
    hide Installable;
    var grants := [g] + rest;
    assert forall h :: h in grants <==> h == g || h in rest;
    DistinctOne(g, rest);
  }

  lemma DistinctOne(g: Grant, rest: seq<Grant>)
    ensures var grants := [g] + rest;
            (forall i, j :: 0 <= i < j < |grants| ==> grants[i].id != grants[j].id) <==>
            (forall h <- rest :: h.id != g.id) && forall i, j :: 0 <= i < j < |rest| ==> rest[i].id != rest[j].id
  {
    var grants := [g] + rest;
    if forall i, j :: 0 <= i < j < |grants| ==> grants[i].id != grants[j].id {
      forall h | h in rest ensures h.id != g.id {
        var i :| 0 <= i < |rest| && rest[i] == h;
        assert grants[0] == g && grants[i + 1] == h;
      }
      forall i, j | 0 <= i < j < |rest| ensures rest[i].id != rest[j].id {
        assert grants[i + 1] == rest[i] && grants[j + 1] == rest[j];
      }
    }
    if (forall h <- rest :: h.id != g.id) && forall i, j :: 0 <= i < j < |rest| ==> rest[i].id != rest[j].id {
      forall i, j | 0 <= i < j < |grants| ensures grants[i].id != grants[j].id {
        assert grants[j] == rest[j - 1] && grants[j] in rest;
        if i > 0 { assert grants[i] == rest[i - 1]; }
      }
    }
  }

  /** Which events the reducer accepts, and what each changes. */
  lemma EventAccepted(p: Projection, e: Event)
    ensures var q := Apply(p, e);
            (q.Some? ==> q.value.sequence == p.sequence + 1 && q.value.runID == p.runID
                         && q.value.contractDigest == p.contractDigest)
            && match e
               case RunCreated(_, _) => q == None
               case StateChanged(from, to, reason) =>
                 && (q.Some? <==>
                       && from == p.state && CanTransition(from, to) && (to in [Blocked, Failed, Cancelled] ==> reason != "")
                       && (p.activeExecution == "" || to == Running))
                 && (q.Some? ==> q.value == p.(sequence := p.sequence + 1, state := to))
               case ExecutionStarted(id) =>
                 && (q.Some? <==>
                       && IsIdentifier(id) && p.activeExecution == ""
                       && (p.state == Admitted || p.state == WaitingForAgent || p.state == WaitingForEvent))
                 && (q.Some? ==> q.value == p.(sequence := p.sequence + 1, state := Running, activeExecution := id))
               case ExecutionFinished(id, succeeded) =>
                 && (q.Some? <==> IsIdentifier(id) && p.state == Running && id == p.activeExecution)
                 && (q.Some? ==>
                       q.value == p.(sequence := p.sequence + 1, activeExecution := "",
                                     state := if succeeded then WaitingForEvent else WaitingForAgent))
               case CapabilitiesGranted(digest, grants) =>
                 && (q.Some? <==>
                       && digest == p.contractDigest && grants != []
                       && (forall g <- grants :: Installable(g, p.runID) && g.id !in p.capabilityIDs)
                       && forall i, j :: 0 <= i < j < |grants| ==> grants[i].id != grants[j].id)
                 && (q.Some? ==>
                       q.value == p.(sequence := p.sequence + 1, capabilityIDs := p.capabilityIDs + set g <- grants :: g.id))
               case ActionRequested(r) =>
                 && (q.Some? <==>
                       && p.state == Running && r.runID == p.runID && r.target != ""
                       && (forall name <- Names(r) :: IsIdentifier(name)))
                 && (q.Some? ==> q.value == p.(sequence := p.sequence + 1))
               case _ =>
                 && (q.Some? <==>
                       && e.actionID != ""
                       && (e.ActionExecuting? || e.ActionCommitted? || e.ActionFailed? || e.ActionUnknown? ==> e.capabilityID != ""))
                 && (q.Some? ==> q.value == p.(sequence := p.sequence + 1))
  {
    hide IsIdentifier, Install, CanTransition, Installable;
    match e
    case CapabilitiesGranted(_, grants) => InstallMeaning(p.capabilityIDs, p.runID, grants);
    case ActionRequested(r) => RequestMeaning(r);
    case _ =>
  }

  /** What must be identifiers in a request. */
  function Names(r: Request): seq<string> {
    [r.id, r.runID, r.operation, r.idempotencyKey, r.kind] + if r.hint == "" then [] else [r.hint]
  }

  lemma RequestMeaning(r: Request)
    ensures ValidRequest(r) <==> r.target != "" && forall name <- Names(r) :: IsIdentifier(name)
  {
    hide IsIdentifier;
    assert r.id in Names(r) && r.runID in Names(r) && r.operation in Names(r);
    assert r.idempotencyKey in Names(r) && r.kind in Names(r) && (r.hint != "" ==> r.hint in Names(r));
  }

  /** reducer.Replay */
  function Replay(log: Log): Option<Projection> {
    if log == [] then None
    else
      var last := log[|log| - 1];
      if |log| == 1 then
        if last.RunCreated? && IsIdentifier(last.runID)
        then Some(Projection(last.runID, 1, Created, "", last.contractDigest, {})) else None
      else
        match Replay(log[..|log| - 1])
        case None => None
        case Some(p) => Apply(p, last)
  }

  /** A history begins with the creation of an identified run, with nothing in it. */
  lemma ReplayStarts(e: Event)
    ensures Replay([e]).Some? <==> e.RunCreated? && IsIdentifier(e.runID)
    ensures Replay([e]).Some? ==> Replay([e]).value == Projection(e.runID, 1, Created, "", e.contractDigest, {})
    ensures Replay([]) == None
  {
    hide IsIdentifier;
  }

  predicate ValidLog(log: Log) { Replay(log).Some? }

  lemma {:induction false} ReplaySequence(log: Log)
    requires ValidLog(log)
    ensures Replay(log).value.sequence == |log|
  {
    if |log| > 1 { ReplaySequence(log[..|log| - 1]); }
  }

  lemma {:induction false} ValidPrefix(log: Log, n: nat)
    requires ValidLog(log) && 0 < n <= |log|
    ensures ValidLog(log[..n])
  {
    if n < |log| {
      var init := log[..|log| - 1];
      ValidPrefix(init, n);
      assert init[..n] == log[..n];
    } else {
      assert log[..n] == log;
    }
  }

  /** store.AppendEvent: compare the expected sequence, reduce, then append. */
  function Append(log: Log, expected: nat, e: Event): Option<Log> {
    match Replay(log)
    case None => None
    case Some(p) =>
      if p.sequence == expected && Apply(p, e).Some? then Some(log + [e]) else None
  }

  lemma AppendMeaning(log: Log, expected: nat, e: Event)
    requires Append(log, expected, e).Some?
    ensures |log| == expected && ValidLog(log + [e])
    ensures Append(log, expected, e).value == log + [e]
  {
    ReplaySequence(log);
    assert (log + [e])[..|log + [e]| - 1] == log;
  }

  // ---- grants and uses -------------------------------------------------

  /** The grant objects installed by a log, by ID. */
  function Grants(log: Log): map<string, Grant> {
    if log == [] then map[]
    else
      var last := log[|log| - 1];
      var before := Grants(log[..|log| - 1]);
      if last.CapabilitiesGranted? then AddGrants(before, last.grants) else before
  }

  function AddGrants(m: map<string, Grant>, grants: seq<Grant>): map<string, Grant>
    decreases |grants|
  {
    if grants == [] then m else AddGrants(m[grants[0].id := grants[0]], grants[1..])
  }

  /** How often a capability was authorized. */
  function Uses(log: Log, capabilityID: string): nat {
    if log == [] then 0
    else
      var last := log[|log| - 1];
      Uses(log[..|log| - 1], capabilityID)
      + if last.ActionAuthorized? && last.capabilityID == capabilityID then 1 else 0
  }

  lemma {:induction false} InstallAdds(
    installed: set<string>, runID: string, m: map<string, Grant>, grants: seq<Grant>)
    requires Install(installed, runID, grants).Some?
    requires m.Keys == installed && forall id <- m :: m[id].id == id && ValidGrant(m[id])
    ensures AddGrants(m, grants).Keys == Install(installed, runID, grants).value
    ensures forall id <- m :: id in AddGrants(m, grants) && AddGrants(m, grants)[id] == m[id]
    ensures forall id <- AddGrants(m, grants) ::
              AddGrants(m, grants)[id].id == id && ValidGrant(AddGrants(m, grants)[id])
    decreases |grants|
  {
    if grants != [] {
      InstallAdds(installed + {grants[0].id}, runID, m[grants[0].id := grants[0]], grants[1..]);
    }
  }

  /** In a log the reducer accepts, the projection lists exactly the installed
      grants and each is stored under its own ID. */
  lemma {:induction false} GrantsWellKeyed(log: Log)
    requires ValidLog(log)
    ensures Grants(log).Keys == Replay(log).value.capabilityIDs
    ensures forall id <- Grants(log) :: Grants(log)[id].id == id && ValidGrant(Grants(log)[id])
  {
    var init := log[..|log| - 1];
    if |log| == 1 {
      assert Grants(init) == map[];
    } else {
      GrantsWellKeyed(init);
      var last := log[|log| - 1];
      if last.CapabilitiesGranted? {
        var p := Replay(init).value;
        InstallAdds(p.capabilityIDs, p.runID, Grants(init), last.grants);
      }
    }
  }

  /** A grant, once installed, is never replaced. */
  lemma {:induction false} GrantsPersist(log: Log, n: nat, id: string)
    requires ValidLog(log) && n <= |log| && id in Grants(log[..n])
    ensures id in Grants(log) && Grants(log)[id] == Grants(log[..n])[id]
  {
    if n == |log| {
      assert log[..n] == log;
    } else if n > 0 {
      var init := log[..|log| - 1];
      assert init[..n] == log[..n];
      GrantsPersist(init, n, id);
      GrantsWellKeyed(init);
      var last := log[|log| - 1];
      if last.CapabilitiesGranted? {
        var p := Replay(init).value;
        InstallAdds(p.capabilityIDs, p.runID, Grants(init), last.grants);
      }
    }
  }

  // ---- deciding a request ----------------------------------------------

  datatype Code = CapabilityDenied | CapabilityRevoked | CapabilityExpired

  datatype Decision =
    | Allow(capabilityID: string)
    | RequireApproval(capabilityID: string)
    | Deny(code: Code, capabilityID: string)

  predicate Covers(g: Grant, r: Request) {
    && g.subjectRunID == r.runID && g.kind == r.kind
    && r.operation in g.operations
    && MatchResource(g.pattern, r.target)
  }

  /** The grant that decides a request: the hinted one, else the covering grant
      with the smallest ID. A later grant is never consulted. */
  predicate Governs(grants: map<string, Grant>, r: Request, id: string) {
    && id in grants && Covers(grants[id], r)
    && (if r.hint != "" then id == r.hint
        else forall other <- grants :: Covers(grants[other], r) ==> other == id || LexLess(id, other))
  }

  lemma GovernsUnique(grants: map<string, Grant>, r: Request)
    ensures forall a, b :: Governs(grants, r, a) && Governs(grants, r, b) ==> a == b
  {
    forall a, b | Governs(grants, r, a) && Governs(grants, r, b) ensures a == b {
      LexLessTrichotomy(a, b);
    }
  }

  /** A grant's own limits, in the order they are checked. */
  function Judge(g: Grant, uses: nat, now: Time): Decision {
    if g.revokedAt.Some? && g.revokedAt.value <= now then Deny(CapabilityRevoked, g.id)
    else if g.expiresAt <= now then Deny(CapabilityExpired, g.id)
    else if g.maxUses.Some? && uses >= g.maxUses.value then Deny(CapabilityDenied, g.id)
    else if g.approvalRequired then RequireApproval(g.id)
    else Allow(g.id)
  }

  /** What the log decides about a request at a time. */
  function Verdict(log: Log, r: Request, now: Time): Decision {
    var grants := Grants(log);
    if exists id :: id in grants && Governs(grants, r, id) then
      GovernsUnique(grants, r);
      var id :| id in grants && Governs(grants, r, id);
      Judge(grants[id], Uses(log, id), now)
    else Deny(CapabilityDenied, if r.hint != "" && r.hint !in grants then r.hint else "")
  }

  /** Allowing means an installed, covering, live, unexhausted grant that needs
      no approval. */
  lemma AllowMeaning(log: Log, r: Request, now: Time)
    requires ValidLog(log) && Verdict(log, r, now).Allow?
    ensures var id := Verdict(log, r, now).capabilityID;
            && id in Grants(log) && id != ""
            && var g := Grants(log)[id];
               && g.id == id && g.subjectRunID == r.runID && g.kind == r.kind
               && r.operation in g.operations && MatchResource(g.pattern, r.target)
               && !g.approvalRequired && now < g.expiresAt
               && (g.revokedAt.Some? ==> now < g.revokedAt.value)
               && (g.maxUses.Some? ==> Uses(log, id) < g.maxUses.value)
  {
    GrantsWellKeyed(log);
  }

  /** A decision accounted for in the fields of grants and request. A grant is
      open to the request when it is for its run, kind and operation and its
      pattern reaches the target; chosen is the hinted grant or else the open one
      with the smallest ID, and only its own limits decide. */
  predicate Accounts(log: Log, r: Request, now: Time, d: Decision) {
    var grants := Grants(log);
    var open := (g: Grant) =>
      g.subjectRunID == r.runID && g.kind == r.kind && r.operation in g.operations && MatchResource(g.pattern, r.target);
    var chosen := (id: string) =>
      id in grants && open(grants[id])
      && if r.hint != "" then id == r.hint else forall other <- grants :: open(grants[other]) ==> other == id || LexLess(id, other);
    match d
    case Allow(id) =>
      && chosen(id) && now < grants[id].expiresAt && !grants[id].approvalRequired
      && (grants[id].revokedAt.Some? ==> now < grants[id].revokedAt.value)
      && (grants[id].maxUses.Some? ==> Uses(log, id) < grants[id].maxUses.value)
    case RequireApproval(id) =>
      && chosen(id) && now < grants[id].expiresAt && grants[id].approvalRequired
      && (grants[id].revokedAt.Some? ==> now < grants[id].revokedAt.value)
      && (grants[id].maxUses.Some? ==> Uses(log, id) < grants[id].maxUses.value)
    case Deny(CapabilityRevoked, id) =>
      chosen(id) && grants[id].revokedAt.Some? && grants[id].revokedAt.value <= now
    case Deny(CapabilityExpired, id) =>
      && chosen(id) && grants[id].expiresAt <= now
      && (grants[id].revokedAt.Some? ==> now < grants[id].revokedAt.value)
    case Deny(CapabilityDenied, id) =>
      || (chosen(id) && now < grants[id].expiresAt
          && (grants[id].revokedAt.Some? ==> now < grants[id].revokedAt.value)
          && grants[id].maxUses.Some? && Uses(log, id) >= grants[id].maxUses.value)
      || (&& id == (if r.hint in grants then "" else r.hint)
          && forall other <- grants :: r.hint in ["", other] ==> !open(grants[other]))
  }

  predicate Least(id: string, ids: set<string>) {
    id in ids && forall other <- ids :: other == id || LexLess(id, other)
  }

  lemma {:induction false} LeastID(ids: set<string>)
    requires ids != {}
    ensures exists id :: Least(id, ids)
  {
    hide LexLess;
    var a :| a in ids;
    var rest := ids - {a};
    if rest == {} {
      assert forall other <- ids :: other == a || other in rest;
      assert Least(a, ids);
    } else {
      LeastID(rest);
      var b :| Least(b, rest);
      LexLessTrichotomy(a, b);
      if LexLess(a, b) {
        forall other | other in ids ensures other == a || LexLess(a, other) {
          if other != a && other != b { LexLessTransitive(a, b, other); }
        }
        assert Least(a, ids);
      } else {
        assert Least(b, ids);
      }
    }
  }

  /** Where a grant covers an unhinted request, one governs it. */
  lemma SomeGoverns(grants: map<string, Grant>, r: Request, id: string)
    requires r.hint == "" && id in grants && Covers(grants[id], r)
    ensures exists least :: least in grants && Governs(grants, r, least)
  {
    hide LexLess, Covers;
    var ids := set other | other in grants && Covers(grants[other], r);
    assert id in ids;
    LeastID(ids);
    var least :| Least(least, ids);
    assert Governs(grants, r, least);
  }

  lemma VerdictAccounted(log: Log, r: Request, now: Time)
    requires ValidLog(log)
    ensures Accounts(log, r, now, Verdict(log, r, now))
  {
    hide LexLess, MatchResource, ValidLog, Grants, Uses;
    GrantsWellKeyed(log);
    var grants := Grants(log);
    if forall id <- grants :: !Governs(grants, r, id) {
      forall other | other in grants && r.hint in ["", other] ensures !Covers(grants[other], r) {
        if r.hint == "" && Covers(grants[other], r) { SomeGoverns(grants, r, other); }
      }
    }
  }

  /** Every request has exactly one decision its log accounts for, and it is the
      verdict. */
  lemma VerdictAccounts(log: Log, r: Request, now: Time, d: Decision)
    requires ValidLog(log)
    ensures Accounts(log, r, now, d) <==> d == Verdict(log, r, now)
  {
    hide LexLess, MatchResource, ValidLog, Grants, Uses;
    GrantsWellKeyed(log);
    VerdictAccounted(log, r, now);
    if Accounts(log, r, now, d) { OneAccounted(log, r, now, d, Verdict(log, r, now)); }
  }

  lemma OneAccounted(log: Log, r: Request, now: Time, d: Decision, e: Decision)
    requires ValidLog(log) && Accounts(log, r, now, d) && Accounts(log, r, now, e)
    ensures d == e
  {
    hide LexLess, MatchResource, ValidLog, Grants, Uses;
    GrantsWellKeyed(log);
    LexLessTrichotomy(d.capabilityID, e.capabilityID);
  }

  // ---- pending actions --------------------------------------------------

  /** Requested, and not closed since. */
  predicate Pending(log: Log, id: string) {
    exists i :: 0 <= i < |log| && log[i].Requests(id)
                && forall j :: i < j < |log| ==> !log[j].Closes(id)
  }

  /** The capability bound to an action since its latest request, "" if none. */
  function Binding(log: Log, id: string): string {
    if log == [] then ""
    else
      var last := log[|log| - 1];
      if last.Requests(id) then ""
      else if last.Binds(id) then last.capabilityID
      else Binding(log[..|log| - 1], id)
  }

  /** IDs of all requests, in log order. */
  function RequestedIDs(log: Log): seq<string> {
    if log == [] then []
    else
      var last := log[|log| - 1];
      RequestedIDs(log[..|log| - 1]) + if last.ActionRequested? then [last.request.id] else []
  }

  lemma PendingStep(log: Log, e: Event, id: string)
    ensures Pending(log + [e], id) <==> e.Requests(id) || (Pending(log, id) && !e.Closes(id))
  {
    var after := log + [e];
    if e.Requests(id) {
      assert after[|log|].Requests(id);
    }
    if Pending(log, id) && !e.Closes(id) {
      var i :| 0 <= i < |log| && log[i].Requests(id) && forall j :: i < j < |log| ==> !log[j].Closes(id);
      assert after[i].Requests(id);
    }
    if Pending(after, id) && !e.Requests(id) {
      var i :| 0 <= i < |after| && after[i].Requests(id)
               && forall j :: i < j < |after| ==> !after[j].Closes(id);
      assert log[i].Requests(id);
      forall j | i < j < |log| ensures !log[j].Closes(id) { assert after[j] == log[j]; }
      assert after[|log|] == e;
    }
  }

  lemma BindingStep(log: Log, e: Event, id: string)
    ensures Binding(log + [e], id) ==
            if e.Requests(id) then "" else if e.Binds(id) then e.capabilityID else Binding(log, id)
  {
    assert (log + [e])[..|log|] == log;
  }

  lemma {:induction false} RequestedIDsComplete(log: Log, id: string)
    ensures id in RequestedIDs(log) <==> exists i :: 0 <= i < |log| && log[i].Requests(id)
  {
    if log != [] {
      var init, last := log[..|log| - 1], log[|log| - 1];
      RequestedIDsComplete(init, id);
      if exists i :: 0 <= i < |init| && init[i].Requests(id) {
        var i :| 0 <= i < |init| && init[i].Requests(id);
        assert log[i].Requests(id);
      }
      if exists i :: 0 <= i < |log| && log[i].Requests(id) {
        var i :| 0 <= i < |log| && log[i].Requests(id);
        if i < |init| { assert init[i].Requests(id); }
      }
      if last.Requests(id) { assert log[|log| - 1].Requests(id); }
    }
  }

  /** ensureUniqueAttempt's condition: no earlier request has this ID or key. */
  predicate Fresh(log: Log, r: Request) {
    forall i :: 0 <= i < |log| && log[i].ActionRequested? ==>
      log[i].request.id != r.id && log[i].request.idempotencyKey != r.idempotencyKey
  }
}
