/** The broker's own code (internal/kernel/broker/broker.go and GrantsFromEvents
    in internal/kernel/capability/compiler.go), step by step, against the
    protocol and the log specification. */
module Broker {
  import opened Text
  import opened Paths
  import opened ActionLog
  import opened BrokerProtocol
  import opened Recovery

  // ---- scanning a log -------------------------------------------------------

  method EnsureUniqueAttempt(events: Log, request: Request) returns (unique: bool)
    ensures unique <==> Fresh(events, request)
  {
    for i := 0 to |events|
      invariant Fresh(events[..i], request)
    {
      var event := events[i];
      if event.ActionRequested?
         && (event.request.id == request.id || event.request.idempotencyKey == request.idempotencyKey) {
        return false;
      }
      assert events[..i + 1] == events[..i] + [event];
    }
    assert events[..|events|] == events;
    return true;
  }

  /** The pending map holds exactly the pending actions and their bindings. */
  ghost predicate Tracks(pending: map<string, string>, log: Log) {
    && (forall id :: id in pending <==> Pending(log, id))
    && (forall id <- pending :: pending[id] == Binding(log, id))
  }

  /** What one event does to the map, key by key. */
  ghost predicate TracksEvent(before: map<string, string>, e: Event, after: map<string, string>) {
    && (forall id :: id in after <==> e.Requests(id) || (id in before && !e.Closes(id)))
    && (forall id <- after ::
          after[id] == if e.Requests(id) then "" else if e.Binds(id) then e.capabilityID
                       else if id in before then before[id] else "")
  }

  lemma TracksStep(log: Log, before: map<string, string>, e: Event, after: map<string, string>)
    requires Tracks(before, log) && TracksEvent(before, e, after)
    ensures Tracks(after, log + [e])
  {
    hide Pending, Binding;
    forall id
      ensures Pending(log + [e], id) <==> e.Requests(id) || (Pending(log, id) && !e.Closes(id))
      ensures Binding(log + [e], id) ==
              if e.Requests(id) then "" else if e.Binds(id) then e.capabilityID else Binding(log, id)
    {
      PendingStep(log, e, id);
      BindingStep(log, e, id);
    }
  }

  lemma NothingTracked()
    ensures Tracks(map[], []) && RequestedIDs([]) == []
  {
  }

  /** interruptedActions */
  method InterruptedActions(events: Log) returns (pending: map<string, string>, order: seq<string>)
    ensures order == RequestedIDs(events)
    ensures Tracks(pending, events)
  {
    hide Tracks, Pending, Binding, RequestedIDs;
    NothingTracked();
    pending, order := map[], [];
    for i := 0 to |events|
      invariant order == RequestedIDs(events[..i])
      invariant Tracks(pending, events[..i])
    {
      var event := events[i];
      ghost var before := pending;
      match event {
        case ActionRequested(request) =>
          pending := pending[request.id := ""];
          order := order + [request.id];
        case ActionAuthorized(id, c) => if id in pending { pending := pending[id := c]; }
        case ActionExecuting(id, c) => if id in pending { pending := pending[id := c]; }
        case ActionDenied(id, _) => pending := pending - {id};
        case ActionApprovalRequired(id, _) => pending := pending - {id};
        case ActionCommitted(id, _) => pending := pending - {id};
        case ActionFailed(id, _) => pending := pending - {id};
        case ActionUnknown(id, _) => pending := pending - {id};
        case _ =>
      }
      assert events[..i + 1] == events[..i] + [event];
      TracksStep(events[..i], before, event, pending);
      RequestedIDsAppend(events[..i], event);
    }
    assert events[..|events|] == events;
  }

  function UsesOf(uses: map<string, nat>, id: string): nat { if id in uses then uses[id] else 0 }

  lemma {:induction false} AddGrantsSnoc(m: map<string, Grant>, grants: seq<Grant>, g: Grant)
    ensures AddGrants(m, grants + [g]) == AddGrants(m, grants)[g.id := g]
    decreases |grants|
  {
    if grants == [] {
      assert (grants + [g])[1..] == [];
    } else {
      assert (grants + [g])[1..] == grants[1..] + [g];
      AddGrantsSnoc(m[grants[0].id := grants[0]], grants[1..], g);
    }
  }

  /** What Install refuses, grant by grant. */
  lemma {:induction false} InstallAt(
    installed: set<string>, runID: string, m: map<string, Grant>, grants: seq<Grant>, i: nat)
    requires Install(installed, runID, grants).Some? && m.Keys == installed && i < |grants|
    ensures ValidGrant(grants[i]) && grants[i].id !in AddGrants(m, grants[..i])
    decreases |grants|
  {
    if i > 0 {
      assert grants[..i][1..] == grants[1..][..i - 1];
      InstallAt(installed + {grants[0].id}, runID, m[grants[0].id := grants[0]], grants[1..], i - 1);
    }
  }

  /** A log with such a grant is no log the reducer accepted. */
  lemma AcceptedGrant(events: Log, i: nat, k: nat)
    requires ValidLog(events) && i < |events| && events[i].CapabilitiesGranted?
    requires k < |events[i].grants|
    ensures ValidGrant(events[i].grants[k])
    ensures events[i].grants[k].id !in AddGrants(Grants(events[..i]), events[i].grants[..k])
  {
    ValidPrefix(events, i + 1);
    assert events[..i + 1][..i] == events[..i];
    if i > 0 {
      ValidPrefix(events, i);
      GrantsWellKeyed(events[..i]);
      var p := Replay(events[..i]).value;
      InstallAt(p.capabilityIDs, p.runID, Grants(events[..i]), events[i].grants, k);
    }
  }

  /** GrantsFromEvents: one pass that rebuilds grants and use counts. It fails
      only on histories the reducer would not have accepted. */
  method GrantsFromEvents(events: Log) returns (ok: bool, grants: map<string, Grant>, uses: map<string, nat>)
    ensures ValidLog(events) ==> ok
    ensures ok ==> grants == Grants(events) && forall id :: UsesOf(uses, id) == Uses(events, id)
  {
    grants, uses := map[], map[];
    for i := 0 to |events|
      invariant grants == Grants(events[..i])
      invariant forall id :: UsesOf(uses, id) == Uses(events[..i], id)
    {
      var event := events[i];
      assert events[..i + 1][..i] == events[..i];
      match event {
        case CapabilitiesGranted(_, installed) =>
          ghost var before := grants;
          for k := 0 to |installed|
            invariant grants == AddGrants(before, installed[..k])
          {
            if ValidLog(events) { AcceptedGrant(events, i, k); }
            if !ValidGrant(installed[k]) || installed[k].id in grants {
              return false, map[], map[];
            }
            AddGrantsSnoc(before, installed[..k], installed[k]);
            assert installed[..k + 1] == installed[..k] + [installed[k]];
            grants := grants[installed[k].id := installed[k]];
          }
          assert installed[..|installed|] == installed;
        case ActionAuthorized(_, c) => uses := uses[c := UsesOf(uses, c) + 1];
        case _ =>
      }
    }
    assert events[..|events|] == events;
    return true, grants, uses;
  }

  // ---- authorization ----------------------------------------------------------

  predicate SortedByID(candidates: seq<Grant>) {
    forall i, j :: 0 <= i < j < |candidates| ==> LexLess(candidates[i].id, candidates[j].id)
  }

  method InsertByID(sorted: seq<Grant>, g: Grant) returns (after: seq<Grant>)
    requires SortedByID(sorted) && forall h <- sorted :: h.id != g.id
    ensures SortedByID(after) && forall h :: h in after <==> h == g || h in sorted
  {
    hide LexLess;
    var k := 0;
    while k < |sorted| && LexLess(sorted[k].id, g.id)
      invariant k <= |sorted| && forall j :: 0 <= j < k ==> LexLess(sorted[j].id, g.id)
    {
      k := k + 1;
    }
    forall j | k <= j < |sorted| ensures LexLess(g.id, sorted[j].id) {
      assert sorted[k] in sorted;
      LexLessTrichotomy(sorted[k].id, g.id);
      if j > k { LexLessTransitive(g.id, sorted[k].id, sorted[j].id); }
    }
    after := sorted[..k] + [g] + sorted[k..];
    assert sorted == sorted[..k] + sorted[k..];
  }

  /** The range over the grants map and the sort by ID. */
  method Candidates(grants: map<string, Grant>) returns (sorted: seq<Grant>)
    requires forall id <- grants :: grants[id].id == id
    ensures SortedByID(sorted)
    ensures forall g <- sorted :: g.id in grants && grants[g.id] == g
    ensures forall id <- grants :: grants[id] in sorted
  {
    sorted := [];
    var rest := grants.Keys;
    while rest != {}
      invariant rest <= grants.Keys && SortedByID(sorted)
      invariant forall g <- sorted :: g.id in grants && g.id !in rest && grants[g.id] == g
      invariant forall id <- grants :: id in rest || grants[id] in sorted
      decreases |rest|
    {
      var id :| id in rest;
      rest := rest - {id};
      sorted := InsertByID(sorted, grants[id]);
    }
  }

  /** authorize gives the one decision the log accounts for. */
  method Authorize(request: Request, grants: map<string, Grant>, uses: map<string, nat>, now: Time,
                   ghost log: Log)
    returns (d: Decision)
    requires ValidLog(log) && grants == Grants(log) && forall id :: UsesOf(uses, id) == Uses(log, id)
    ensures d == Verdict(log, request, now) && Accounts(log, request, now, d)
    ensures forall other :: Accounts(log, request, now, other) ==> other == d
  {
    hide Accounts, Verdict, Grants, Uses, ValidLog;
    forall other ensures Accounts(log, request, now, other) <==> other == Verdict(log, request, now) {
      VerdictAccounts(log, request, now, other);
    }
    d := Scan(request, grants, uses, now, log);
  }

  /** The hint or the sort, then the scan. */
  method Scan(request: Request, grants: map<string, Grant>, uses: map<string, nat>, now: Time, ghost log: Log)
    returns (d: Decision)
    requires ValidLog(log) && grants == Grants(log) && forall id :: UsesOf(uses, id) == Uses(log, id)
    ensures d == Verdict(log, request, now)
  {
    hide Covers, LexLess, Grants, Uses, ValidLog;
    GrantsWellKeyed(log);
    GovernsUnique(grants, request);
    var candidates: seq<Grant>;
    if request.hint != "" {
      if request.hint !in grants { return Deny(CapabilityDenied, request.hint); }
      candidates := [grants[request.hint]];
    } else {
      candidates := Candidates(grants);
    }
    for i := 0 to |candidates|
      invariant forall j :: 0 <= j < i ==> !Covers(candidates[j], request)
    {
      var g := candidates[i];
      assert g in candidates;
      if !Covers(g, request) { continue; }
      assert Governs(grants, request, g.id) by {
        forall other | other in grants && Covers(grants[other], request) && request.hint == ""
          ensures other == g.id || LexLess(g.id, other)
        {
          var j :| 0 <= j < |candidates| && candidates[j] == grants[other];
        }
      }
      if g.revokedAt.Some? && g.revokedAt.value <= now { return Deny(CapabilityRevoked, g.id); }
      if g.expiresAt <= now { return Deny(CapabilityExpired, g.id); }
      if g.maxUses.Some? && UsesOf(uses, g.id) >= g.maxUses.value { return Deny(CapabilityDenied, g.id); }
      if g.approvalRequired { return RequireApproval(g.id); }
      return Allow(g.id);
    }
    forall id | id in grants ensures !Governs(grants, request, id) {
      if request.hint == "" || id == request.hint {
        assert grants[id] in candidates;
      }
    }
    return Deny(CapabilityDenied, "");
  }

  // ---- executing an action ------------------------------------------------------

  datatype Rejection = InvalidRequest | RunNotFound | SequenceConflict | RunNotRunning | DuplicateAttempt

  /** What Execute reports; Unknown is the status "unknown". */
  datatype Outcome =
    | Rejected(why: Rejection)
    | Unregistered
    | Denied(code: Code, capabilityID: string)
    | ApprovalRequired(capabilityID: string)
    | Committed(capabilityID: string)
    | Failed(capabilityID: string)
    | Unknown(capabilityID: string)

  /** An undecodable input is a failure before the driver is called. */
  function Reported(inputDecodes: bool, driver: DriverOutcome): DriverOutcome {
    if inputDecodes then driver else Refused
  }

  function StatusOf(d: Decision, outcome: DriverOutcome): Outcome {
    match d
    case Deny(code, c) => Denied(code, c)
    case RequireApproval(c) => ApprovalRequired(c)
    case Allow(c) =>
      match outcome
      case Applied => Committed(c)
      case Refused => Outcome.Failed(c)
      case Ambiguous => Unknown(c)
  }

  /** The events an undisturbed call leaves behind. */
  function Trail(seen: Log, r: Request, now: Time, outcome: DriverOutcome): seq<Event> {
    var d := Verdict(seen, r, now);
    [ActionRequested(r), DecisionEvent(r, d)]
    + if d.Allow? then [ActionExecuting(r.id, d.capabilityID), Receipt(r, d.capabilityID, outcome)] else []
  }

  function EffectsOf(s: System, r: Request, now: Time, outcome: DriverOutcome, touched: bool): seq<Effect> {
    var d := Verdict(s.log, r, now);
    if d.Allow? then Drove(s.effects, Effect(r, d.capabilityID, |s.log| + 3), outcome, touched) else s.effects
  }

  predicate Admissible(worlds: map<string, System>, r: Request, expected: nat) {
    && ValidRequest(r) && r.runID in worlds
    && var log := worlds[r.runID].log;
       && |log| == expected && ValidLog(log) && Replay(log).value.state == Running && Fresh(log, r)
  }

  /** The request and its decision are durable at the expected sequence, and the
      decision is the one due on the history before it. */
  predicate Decided(log: Log, at: nat, r: Request, d: Decision, now: Time) {
    && at + 2 <= |log| && log[at] == ActionRequested(r) && log[at + 1] == DecisionEvent(r, d)
    && d == Verdict(log[..at], r, now)
  }

  /** The authorization due and the execution marker follow the request. */
  predicate Marked(log: Log, at: nat, r: Request, c: string, now: Time) {
    Decided(log, at, r, Allow(c), now) && at + 3 <= |log| && log[at + 2] == ActionExecuting(r.id, c)
  }

  /** A reported receipt is durable behind its authorization and marker. */
  predicate Receipted(log: Log, at: nat, r: Request, c: string, outcome: DriverOutcome, now: Time) {
    Marked(log, at, r, c, now) && at + 4 <= |log| && log[at + 3] == Receipt(r, c, outcome)
  }

  /** The capability a decision authorizes, if any. */
  function Authorized(d: Decision): string { if d.Allow? then d.capabilityID else "" }

  /** What an unknown outcome still means: the request is durable, the capability
      named is the one due, and an effect stands behind authorization and marker,
      unless the driver refused it. */
  predicate Uncertain(s: System, at: nat, r: Request, c: string, now: Time, reported: DriverOutcome) {
    && at < |s.log| && s.log[at] == ActionRequested(r)
    && c == Authorized(Verdict(s.log[..at], r, now))
    && (HasEffectAt(s.effects, at + 3) ==> Marked(s.log, at, r, c, now) && reported != Refused)
  }

  predicate Explains(s: System, at: nat, r: Request, now: Time, reported: DriverOutcome, outcome: Outcome) {
    match outcome
    case Denied(code, c) => Decided(s.log, at, r, Deny(code, c), now)
    case ApprovalRequired(c) => Decided(s.log, at, r, RequireApproval(c), now)
    case Committed(c) =>
      reported == Applied && Receipted(s.log, at, r, c, Applied, now) && HasEffectAt(s.effects, at + 3)
    case Failed(c) =>
      reported == Refused && Receipted(s.log, at, r, c, Refused, now) && !HasEffectAt(s.effects, at + 3)
    case Unknown(c) => Uncertain(s, at, r, c, now, reported)
    case _ => false
  }

  predicate Unaffected(s: System, r: Request) {
    forall e <- s.effects :: e.request.id != r.id
  }

  /** An outcome in terms of events, effects and grants alone. */
  ghost predicate Tells(s: System, at: nat, r: Request, now: Time, inputDecodes: bool, driver: DriverOutcome, outcome: Outcome) {
    && at < |s.log| && s.log[at] == ActionRequested(r)
    && var seen, since := s.log[..at], s.log[at + 1..];
       match outcome
       case Denied(code, c) =>
         Accounts(seen, r, now, Deny(code, c)) && [ActionDenied(r.id, c)] <= since && Unaffected(s, r)
       case ApprovalRequired(c) =>
         Accounts(seen, r, now, RequireApproval(c)) && [ActionApprovalRequired(r.id, c)] <= since && Unaffected(s, r)
       case Committed(c) =>
         && inputDecodes && driver == Applied && Accounts(seen, r, now, Allow(c)) && Effect(r, c, at + 3) in s.effects
         && [ActionAuthorized(r.id, c), ActionExecuting(r.id, c), ActionCommitted(r.id, c)] <= since
       case Failed(c) =>
         && (!inputDecodes || driver == Refused) && Accounts(seen, r, now, Allow(c)) && Unaffected(s, r)
         && [ActionAuthorized(r.id, c), ActionExecuting(r.id, c), ActionFailed(r.id, c)] <= since
       case Unknown(c) =>
         && (if c == "" then forall other :: !Accounts(seen, r, now, Allow(other)) else Accounts(seen, r, now, Allow(c)))
         && forall e <- s.effects :: e.request.id == r.id ==>
              && e == Effect(r, c, at + 3) && inputDecodes && driver != Refused
              && [ActionAuthorized(r.id, c), ActionExecuting(r.id, c)] <= since
       case _ => true
  }

  /** What an undisturbed call leaves in its run, for each outcome it reports. */
  predicate Leaves(s: System, after: System, r: Request, touched: bool, outcome: Outcome) {
    && after.threads == s.threads
    && match outcome
       case Denied(_, c) =>
         after.effects == s.effects && after.log == s.log + [ActionRequested(r), ActionDenied(r.id, c)]
       case ApprovalRequired(c) =>
         after.effects == s.effects && after.log == s.log + [ActionRequested(r), ActionApprovalRequired(r.id, c)]
       case Committed(c) =>
         && after.effects == s.effects + [Effect(r, c, |s.log| + 3)]
         && after.log == s.log + [ActionRequested(r), ActionAuthorized(r.id, c), ActionExecuting(r.id, c),
                                  ActionCommitted(r.id, c)]
       case Failed(c) =>
         && after.effects == s.effects
         && after.log == s.log + [ActionRequested(r), ActionAuthorized(r.id, c), ActionExecuting(r.id, c),
                                  ActionFailed(r.id, c)]
       case Unknown(c) =>
         && after.effects == s.effects + (if touched then [Effect(r, c, |s.log| + 3)] else [])
         && after.log == s.log + [ActionRequested(r), ActionAuthorized(r.id, c), ActionExecuting(r.id, c),
                                  ActionUnknown(r.id, c)]
       case _ => false
  }

  /** Why a call is turned away, and what every other call has passed. */
  predicate Answers(before: map<string, System>, after: map<string, System>, r: Request, expected: nat, outcome: Outcome) {
    match outcome
    case Rejected(InvalidRequest) => r.target == "" || exists name <- Names(r) :: !IsIdentifier(name)
    case Rejected(RunNotFound) => r.runID !in before
    case Rejected(SequenceConflict) => r.runID in before && |before[r.runID].log| != expected
    case Rejected(RunNotRunning) =>
      r.runID in before && !(ValidLog(before[r.runID].log) && Replay(before[r.runID].log).value.state == Running)
    case Rejected(DuplicateAttempt) =>
      r.runID in after
      && exists e <- after[r.runID].log ::
           e.ActionRequested? && (e.request.id == r.id || e.request.idempotencyKey == r.idempotencyKey)
    case _ =>
      && r.target != "" && (forall name <- Names(r) :: IsIdentifier(name))
      && r.runID in before && |before[r.runID].log| == expected
      && ValidLog(before[r.runID].log) && Replay(before[r.runID].log).value.state == Running
      && forall e <- before[r.runID].log ::
           e.ActionRequested? ==> e.request.id != r.id && e.request.idempotencyKey != r.idempotencyKey
  }

  ghost predicate AllInv(worlds: map<string, System>) {
    forall id <- worlds :: Inv(worlds[id]) && Replay(worlds[id].log).value.runID == id
  }

  lemma WorldIsValid(worlds: map<string, System>, id: string)
    requires AllInv(worlds) && id in worlds
    ensures Inv(worlds[id]) && ValidLog(worlds[id].log) && Replay(worlds[id].log).value.runID == id
  {
  }

  lemma OneStepKeeps(worlds: map<string, System>, id: string, after: System)
    requires AllInv(worlds) && id in worlds && Inv(after) && worlds[id].log <= after.log
    ensures AllInv(worlds[id := after])
  {
    assert Inv(worlds[id]);
    RunIDKept(worlds[id].log, after.log);
  }

  lemma OneMoveKeeps(worlds: map<string, System>, id: string, m: Move)
    requires AllInv(worlds) && id in worlds
    ensures AllInv(worlds[id := Perform(worlds[id], m)])
  {
    PerformKeeps(worlds[id], m);
    MoveAppends(worlds[id], m);
    OneStepKeeps(worlds, id, Perform(worlds[id], m));
  }

  lemma ReadyToDrop(log: Log, effects: seq<Effect>, th: Thread, e: Event, next: Option<Thread>)
    requires Ready(log, effects, th, e, next)
    ensures Ready(log, effects, th, e, None)
  {
  }

  lemma ReadyToStart(worlds: map<string, System>, id: string, t: nat)
    requires AllInv(worlds) && id in worlds && t in worlds[id].threads && worlds[id].threads[t].Approved?
    ensures var s := worlds[id];
            var th := s.threads[t];
            th.n == |s.log| ==> Ready(s.log, s.effects, th, ActionExecuting(th.request.id, th.capabilityID),
                                      Some(Started(th.request, th.n + 1, th.capabilityID)))
  {
    hide Inv, ThreadFacts, EffectFacts, LogFacts, Ready;
    var s := worlds[id];
    InvFacts(s, t);
    if s.threads[t].n == |s.log| { StartReady(s.log, s.effects, s.threads[t], true); }
  }

  lemma ReadyToSettle(worlds: map<string, System>, id: string, t: nat)
    requires AllInv(worlds) && id in worlds && t in worlds[id].threads && worlds[id].threads[t].Driven?
    ensures var s := worlds[id];
            var th := s.threads[t];
            && Backed(s.log, th.request, th.capabilityID, th.n)
            && (th.outcome.Applied? ==> HasEffectAt(s.effects, th.n))
            && (th.outcome.Refused? ==> !HasEffectAt(s.effects, th.n))
            && (th.n == |s.log| ==>
                  Ready(s.log, s.effects, th, Receipt(th.request, th.capabilityID, th.outcome), None))
  {
    hide Inv, EffectFacts, LogFacts, Ready;
    var s := worlds[id];
    InvFacts(s, t);
    if s.threads[t].n == |s.log| { SettleReady(s.log, s.effects, s.threads[t]); }
  }

  lemma ReadyToDecide(worlds: map<string, System>, id: string, t: nat, now: Time)
    requires AllInv(worlds) && id in worlds && t in worlds[id].threads && worlds[id].threads[t].Registered?
    ensures var s := worlds[id];
            var th := s.threads[t];
            && 1 <= th.n <= |s.log| && s.log[th.n - 1] == ActionRequested(th.request)
            && th.seen == s.log[..th.n - 1]
            && var d := Verdict(th.seen, th.request, now);
               th.n == |s.log| ==>
                 && Ready(s.log, s.effects, th, DecisionEvent(th.request, d),
                          if d.Allow? then Some(Approved(th.request, th.n + 1, d.capabilityID)) else None)
                 && (IsIdentifier(th.request.id) ==> Append(s.log, th.n, DecisionEvent(th.request, d)).Some?)
  {
    hide Inv, EffectFacts, Ready, Verdict, Justified;
    var s := worlds[id];
    InvFacts(s, t);
    var th := s.threads[t];
    if th.n == |s.log| {
      DecideReady(s.log, s.effects, th, now, true);
      if IsIdentifier(th.request.id) {
        OutcomeAccepted(s.log, DecisionEvent(th.request, Verdict(th.seen, th.request, now)));
      }
    }
  }

  lemma TrailParts(seen: Log, effects: seq<Effect>, r: Request, now: Time, reported: DriverOutcome, touched: bool)
    ensures var d := Verdict(seen, r, now);
            var log := seen + [ActionRequested(r), DecisionEvent(r, d)];
            && seen + Trail(seen, r, now, reported)
               == (if d.Allow? then log + [ActionExecuting(r.id, d.capabilityID)]
                                    + [Receipt(r, d.capabilityID, reported)] else log)
            && EffectsOf(System(seen, effects, map[]), r, now, reported, touched)
               == (if d.Allow?
                   then Drove(effects, Effect(r, d.capabilityID, |seen| + 3), reported, touched) else effects)
  {
    hide Verdict, Drove;
    var d := Verdict(seen, r, now);
    var log := seen + [ActionRequested(r), DecisionEvent(r, d)];
    if d.Allow? {
      assert seen + Trail(seen, r, now, reported)
          == log + [ActionExecuting(r.id, d.capabilityID)] + [Receipt(r, d.capabilityID, reported)];
    } else {
      assert seen + Trail(seen, r, now, reported) == log;
    }
  }

  lemma DecidedKept(log: Log, more: Log, at: nat, r: Request, d: Decision, now: Time)
    requires Decided(log, at, r, d, now) && log <= more
    ensures at + 2 <= |log| && Decided(more, at, r, d, now)
  {
    assert more[..at] == log[..at];
  }

  /** Before the marker is appended there is no effect. */
  lemma NotReached(worlds: map<string, System>, id: string, t: nat)
    requires AllInv(worlds) && id in worlds && t in worlds[id].threads
    requires worlds[id].threads[t].Registered? || worlds[id].threads[t].Approved?
    ensures var s := worlds[id];
            var th := s.threads[t];
            !HasEffectAt(s.effects, th.n + (if th.Registered? then 2 else 1))
  {
    hide Inv, LogFacts;
    var s := worlds[id];
    var th := s.threads[t];
    InvFacts(s, t);
    forall k | 0 <= k < |s.effects| ensures s.effects[k].at != th.n + (if th.Registered? then 2 else 1) {
      assert Backed(s.log, s.effects[k].request, s.effects[k].capabilityID, s.effects[k].at);
    }
  }

  lemma RefusalParts(s: System, at: nat, r: Request, now: Time, reported: DriverOutcome, d: Decision)
    requires Decided(s.log, at, r, d, now)
    ensures d.Deny? ==>
              StatusOf(d, reported) == Denied(d.code, d.capabilityID)
              && Explains(s, at, r, now, reported, Denied(d.code, d.capabilityID))
    ensures d.RequireApproval? ==>
              StatusOf(d, reported) == ApprovalRequired(d.capabilityID)
              && Explains(s, at, r, now, reported, ApprovalRequired(d.capabilityID))
  {
  }

  /** An action's effect, if it has one, stands three places after its request. */
  lemma EffectPlace(s: System, at: nat, r: Request, e: Effect)
    requires Inv(s) && at < |s.log| && s.log[at] == ActionRequested(r)
    requires e in s.effects && e.request.id == r.id
    ensures e == Effect(r, e.capabilityID, at + 3) && Backed(s.log, r, e.capabilityID, at + 3)
    ensures HasEffectAt(s.effects, at + 3)
  {
    var k :| 0 <= k < |s.effects| && s.effects[k] == e;
    assert Backed(s.log, s.effects[k].request, s.effects[k].capabilityID, s.effects[k].at);
  }

  lemma AccountsIffVerdict(seen: Log, r: Request, now: Time)
    requires ValidLog(seen)
    ensures forall d :: Accounts(seen, r, now, d) <==> d == Verdict(seen, r, now)
  {
    hide Accounts, Verdict, ValidLog;
    forall d ensures Accounts(seen, r, now, d) <==> d == Verdict(seen, r, now) { VerdictAccounts(seen, r, now, d); }
  }

  lemma EffectThere(s: System, at: nat, r: Request)
    requires Inv(s) && at < |s.log| && s.log[at] == ActionRequested(r) && HasEffectAt(s.effects, at + 3)
    ensures exists e <- s.effects :: e.request.id == r.id
  {
    var k :| 0 <= k < |s.effects| && s.effects[k].at == at + 3;
    assert Backed(s.log, s.effects[k].request, s.effects[k].capabilityID, s.effects[k].at);
    assert s.effects[k] in s.effects;
  }

  /** What the log explains can be told without the specification of the verdict. */
  lemma ExplainsTells(s: System, at: nat, r: Request, now: Time, inputDecodes: bool, driver: DriverOutcome, outcome: Outcome)
    requires Inv(s) && ValidLog(s.log) && 0 < at
    requires Explains(s, at, r, now, Reported(inputDecodes, driver), outcome)
    ensures Tells(s, at, r, now, inputDecodes, driver, outcome)
  {
    hide Inv, Accounts, Verdict, ValidLog, HasEffectAt;
    assert at < |s.log| && s.log[at] == ActionRequested(r);
    var seen, since := s.log[..at], s.log[at + 1..];
    ValidPrefix(s.log, at);
    AccountsIffVerdict(seen, r, now);
    forall e | e in s.effects && e.request.id == r.id
      ensures e == Effect(r, e.capabilityID, at + 3) && Backed(s.log, r, e.capabilityID, at + 3)
      ensures HasEffectAt(s.effects, at + 3)
    {
      EffectPlace(s, at, r, e);
    }
    if HasEffectAt(s.effects, at + 3) { EffectThere(s, at, r); }
    match outcome
    case Unknown(c) =>
      if Verdict(seen, r, now).Allow? { AllowMeaning(seen, r, now); }
    case _ =>
  }

  lemma FreshBefore(log: Log, more: Log, r: Request)
    requires log <= more && Fresh(more, r)
    ensures Fresh(log, r)
  {
    assert forall i :: 0 <= i < |log| ==> log[i] == more[i];
  }

  lemma AnswersInvalid(before: map<string, System>, r: Request, expected: nat)
    requires !ValidRequest(r)
    ensures Answers(before, before, r, expected, Rejected(InvalidRequest))
  {
    hide IsIdentifier;
    RequestMeaning(r);
  }

  lemma AnswersTurned(before: map<string, System>, after: map<string, System>, r: Request, expected: nat, outcome: Outcome)
    requires ValidRequest(r) && r.runID in before && r.runID in after && ValidLog(before[r.runID].log)
    requires |before[r.runID].log| == expected && Replay(before[r.runID].log).value.state == Running
    requires outcome.Rejected? ==> outcome.why == DuplicateAttempt && !Fresh(after[r.runID].log, r)
    requires !outcome.Rejected? ==> Fresh(before[r.runID].log, r)
    ensures Answers(before, after, r, expected, outcome)
  {
    hide ValidLog, Replay, IsIdentifier;
  }

  lemma TrailLeaves(s: System, r: Request, now: Time, reported: DriverOutcome, touched: bool)
    ensures Leaves(s, System(s.log + Trail(s.log, r, now, reported),
                             EffectsOf(System(s.log, s.effects, map[]), r, now, reported, touched), s.threads),
                   r, touched, StatusOf(Verdict(s.log, r, now), reported))
    ensures !StatusOf(Verdict(s.log, r, now), reported).Rejected?
    ensures !StatusOf(Verdict(s.log, r, now), reported).Unregistered?
  {
    hide Verdict;
  }

  /** What a call needs to take its first two phases. */
  lemma EntryFacts(s: System, r: Request, n: nat)
    requires n <= |s.log|
    ensures ValidRequest(r) ==> IsIdentifier(r.id)
    ensures ThreadFacts(s.log, s.effects, Loaded(r, n)) && forall t :: SlotFree(s.threads, t, Loaded(r, n))
    ensures Fresh(s.log, r) ==>
              ThreadFacts(s.log, s.effects, Vetted(r, n, s.log))
              && forall t :: SlotFree(s.threads, t, Vetted(r, n, s.log))
  {
  }

  lemma ReadyToRegister(worlds: map<string, System>, id: string, t: nat)
    requires AllInv(worlds) && id in worlds && t in worlds[id].threads && worlds[id].threads[t].Vetted?
    ensures var s := worlds[id];
            var th := s.threads[t];
            && th.n <= |th.seen| && th.seen <= s.log
            && (th.n == |s.log| ==>
                  Ready(s.log, s.effects, th, ActionRequested(th.request),
                        Some(Registered(th.request, th.n + 1, th.seen))))
            && (th.n == |s.log| && ValidRequest(th.request) && th.request.runID == id
                && Replay(s.log).value.state == Running ==>
                  Append(s.log, th.n, ActionRequested(th.request)).Some?)
  {
    hide Inv, EffectFacts, LogFacts, Ready, Fresh;
    var s := worlds[id];
    InvFacts(s, t);
    WorldIsValid(worlds, id);
    ReplaySequence(s.log);
    if s.threads[t].n == |s.log| { RegisterReady(s.log, s.effects, s.threads[t], true); }
  }

  /** How many events a list of runs gained. */
  function Appended(ids: seq<string>, before: map<string, System>, after: map<string, System>): int
    requires forall id <- ids :: id in before && id in after
  {
    if ids == [] then 0
    else
      var last := ids[|ids| - 1];
      Appended(ids[..|ids| - 1], before, after) + |after[last].log| - |before[last].log|
  }

  /** What recovery will lead to, before it has begun. */
  lemma BeforeRecovery(worlds: map<string, System>)
    requires AllInv(worlds)
    ensures Appended([], worlds, worlds) == 0
    ensures forall id <- worlds ::
              && worlds[id].log <= Recovered(worlds[id]).log
              && Closed(Recovered(worlds[id]).log) && Recovered(Recovered(worlds[id])) == Recovered(worlds[id])
  {
    hide Inv, AllInv, Closed, LogFacts;
    forall id | id in worlds
      ensures Closed(Recovered(worlds[id]).log) && Recovered(Recovered(worlds[id])) == Recovered(worlds[id])
    {
      WorldIsValid(worlds, id);
      InvLog(worlds[id]);
      RecoveredIsClosed(worlds[id]);
    }
  }

  lemma {:induction false} AppendedSame(
    ids: seq<string>, first: map<string, System>, before: map<string, System>, after: map<string, System>)
    requires forall id <- ids :: id in first && id in before && id in after && before[id] == after[id]
    ensures Appended(ids, first, before) == Appended(ids, first, after)
  {
    if ids != [] { AppendedSame(ids[..|ids| - 1], first, before, after); }
  }

  lemma AppendedNext(ids: seq<string>, i: nat, first: map<string, System>, before: map<string, System>,
                     after: map<string, System>)
    requires Distinct(ids) && i < |ids|
    requires forall id <- ids :: id in first && id in before && id in after
    requires forall id <- ids :: id != ids[i] ==> before[id] == after[id]
    ensures forall id <- ids[..i + 1] :: id in first && id in after
    ensures Appended(ids[..i + 1], first, after) ==
            Appended(ids[..i], first, before) + |after[ids[i]].log| - |first[ids[i]].log|
  {
    assert ids[..i + 1][..i] == ids[..i];
    AppendedSame(ids[..i], first, before, after);
  }

  /** The head of the work list, as the loop over the request order meets it. */
  lemma NextDangling(events: Log, order: seq<string>, i: nat, pending: map<string, string>, log: Log)
    requires i < |order| && Tracks(pending, events)
    ensures var dangling, rest := DanglingOf(events, order[i..]), DanglingOf(events, order[i + 1..]);
            if order[i] in pending then
              var x := Interrupted(order[i], pending[order[i]]);
              && dangling == [x] + rest && dangling[1..] == rest
              && log + Closings(dangling) == log + [ClosingEvent(x)] + Closings(rest)
            else dangling == rest
  {
    hide Pending, Binding;
    assert order[i..][1..] == order[i + 1..];
    if order[i] in pending {
      var x := Interrupted(order[i], pending[order[i]]);
      var rest := DanglingOf(events, order[i + 1..]);
      assert ([x] + rest)[1..] == rest;
    }
  }

  lemma NothingLeft(events: Log, order: seq<string>)
    ensures order[0..] == order && Closings(DanglingOf(events, order[|order|..])) == []
  {
  }

  class Broker {
    /** A quiet store neither fails nor serves anybody else. */
    const quiet: bool
    var worlds: map<string, System>

    constructor (worlds: map<string, System>, quiet: bool)
      requires AllInv(worlds)
      ensures Valid() && this.worlds == worlds && this.quiet == quiet
    {
      this.worlds, this.quiet := worlds, quiet;
    }

    ghost predicate Valid()
      reads this
    {
      AllInv(worlds)
    }

    /** What the invariant every method keeps says about every run of the store. */
    lemma Guarantees(id: string)
      requires Valid() && id in worlds
      ensures OncePerAction(worlds[id].effects) && Truthful(worlds[id])
      ensures AuthorizationsFinal(worlds[id].log) && WithinUseLimits(worlds[id].log)
    {
      hide Inv, OncePerAction, Truthful, AuthorizationsFinal, WithinUseLimits, LogFacts;
      WorldIsValid(worlds, id);
      InvLog(worlds[id]);
      InvOncePerAction(worlds[id]);
      InvTruthful(worlds[id]);
      FactsAuthorizationsFinal(worlds[id].log);
      FactsWithinUseLimits(worlds[id].log);
    }

    /** Any number of steps of anybody else, on any run. */
    method Interfere(id: string, t: nat)
      requires Valid() && id in worlds && t in worlds[id].threads
      modifies this
      ensures Valid() && worlds.Keys == old(worlds).Keys
      ensures t in worlds[id].threads && worlds[id].threads[t] == old(worlds)[id].threads[t]
      ensures old(worlds)[id].log <= worlds[id].log && old(worlds)[id].effects <= worlds[id].effects
      ensures quiet ==> worlds == old(worlds)
    {
      var steps: nat := *;
      if quiet { steps := 0; }
      while steps > 0
        invariant Valid() && worlds.Keys == old(worlds).Keys
        invariant t in worlds[id].threads && worlds[id].threads[t] == old(worlds)[id].threads[t]
        invariant old(worlds)[id].log <= worlds[id].log && old(worlds)[id].effects <= worlds[id].effects
        invariant quiet ==> worlds == old(worlds)
      {
        var other: string := *;
        var move: Move := *;
        if other in worlds && !quiet && (other == id ==> !Touches(move, t)) {
          OneMoveKeeps(worlds, other, move);
          MoveAppends(worlds[other], move);
          if other == id { MoveSpares(worlds[id], move, t); }
          worlds := worlds[other := Perform(worlds[other], move)];
        }
        steps := steps - 1;
      }
    }

    /** Thread t's bookkeeping, without touching the store. */
    method Enter(id: string, t: nat, thread: Thread)
      requires Valid() && id in worlds
      requires ThreadFacts(worlds[id].log, worlds[id].effects, thread) && SlotFree(worlds[id].threads, t, thread)
      modifies this
      ensures Valid() && worlds == old(worlds)[id := Put(old(worlds)[id], t, thread)]
    {
      hide Inv, ThreadFacts, SlotFree;
      PutKeeps(worlds[id], t, thread);
      worlds := worlds[id := Put(worlds[id], t, thread)];
    }

    method Leave(id: string, t: nat)
      requires Valid() && id in worlds
      modifies this
      ensures Valid() && worlds == old(worlds)[id := Forget(old(worlds)[id], t)]
    {
      hide Inv;
      ForgetKeeps(worlds[id], t);
      worlds := worlds[id := Forget(worlds[id], t)];
    }

    /** store.AppendEvent as thread t sees it: compare, reduce, append; the answer
        may be lost after the append became durable. */
    method AppendEvent(id: string, t: nat, n: nat, e: Event, next: Option<Thread>) returns (ok: bool)
      requires Valid() && id in worlds && t in worlds[id].threads
      requires n == |worlds[id].log| ==>
                 Ready(worlds[id].log, worlds[id].effects, worlds[id].threads[t], e, next)
      modifies this
      ensures Valid() && worlds.Keys == old(worlds).Keys
      ensures ok ==> Append(old(worlds)[id].log, n, e).Some?
                     && worlds == old(worlds)[id := Advance(old(worlds)[id], t, n, e, next)]
      ensures quiet && !ok ==> Append(old(worlds)[id].log, n, e).None?
      ensures worlds[id].log == old(worlds)[id].log || worlds[id].log == old(worlds)[id].log + [e]
      ensures worlds[id].effects == old(worlds)[id].effects
      ensures forall other <- worlds :: other != id ==> worlds[other] == old(worlds)[other]
    {
      hide Inv, Ready;
      var s := worlds[id];
      var fault, lost := *, *;
      if quiet { fault, lost := false, false; }
      assert ValidLog(s.log) by { WorldIsValid(worlds, id); }
      ReplaySequence(s.log);
      var current := Replay(s.log).value;
      if fault || current.sequence != n || Apply(current, e).None? {
        Leave(id, t);
        return false;
      }
      if lost { ReadyToDrop(s.log, s.effects, s.threads[t], e, next); }
      AdvanceKeeps(s, t, n, e, if lost then None else next);
      OneStepKeeps(worlds, id, Advance(s, t, n, e, if lost then None else next));
      var after := System(s.log + [e], s.effects, s.threads - {t});
      if !lost && next.Some? { after := after.(threads := after.threads[t := next.value]); }
      worlds := worlds[id := after];
      return !lost;
    }

    /** The filesystem driver: Applied had its effect, Refused had none, and an
        Ambiguous answer covers both. */
    method CallDriver(id: string, t: nat, r: Request, n: nat, c: string, outcome: DriverOutcome, touched: bool)
      requires Valid() && id in worlds && t in worlds[id].threads && worlds[id].threads[t] == Started(r, n, c)
      modifies this
      ensures Valid()
      ensures var s := old(worlds)[id];
              worlds == old(worlds)[id := System(
                s.log, Drove(s.effects, Effect(r, c, n), outcome, touched),
                s.threads[t := Driven(r, n, c, outcome)])]
    {
      hide Inv;
      var s := worlds[id];
      DriveKeeps(s, t, outcome, touched);
      var after := System(s.log, Drove(s.effects, Effect(r, c, n), outcome, touched),
                          s.threads[t := Driven(r, n, c, outcome)]);
      OneStepKeeps(worlds, id, after);
      worlds := worlds[id := after];
    }

    /** The receipt: committed, or recordFailure's failed or unknown. A receipt
        that cannot be stored is reported as unknown. */
    method RecordReceipt(id: string, t: nat, r: Request, n: nat, c: string, reported: DriverOutcome,
                         ghost now: Time)
      returns (outcome: Outcome)
      requires Valid() && id in worlds && t in worlds[id].threads
      requires worlds[id].threads[t] == Driven(r, n, c, reported) && 3 <= n <= |worlds[id].log|
      requires IsIdentifier(r.id) && c != ""
      requires Decided(worlds[id].log, n - 3, r, Allow(c), now)
      modifies this
      ensures Valid() && worlds.Keys == old(worlds).Keys
      ensures Explains(worlds[id], n - 3, r, now, reported, outcome)
      ensures quiet && |old(worlds)[id].log| == n ==>
                && outcome == StatusOf(Allow(c), reported)
                && worlds == old(worlds)[id := Advance(old(worlds)[id], t, n, Receipt(r, c, reported), None)]
                && Append(old(worlds)[id].log, n, Receipt(r, c, reported)).Some?
    {
      hide Inv, Verdict, AllInv, Ready;
      var receipt := Receipt(r, c, reported);
      ghost var log := worlds[id].log;
      ReadyToSettle(worlds, id, t);
      assert |log| == n ==> Append(log, n, receipt).Some? by {
        WorldIsValid(worlds, id);
        if |log| == n { OutcomeAccepted(log, receipt); }
      }
      var ok := AppendEvent(id, t, n, receipt, None);
      assert worlds[id].log[..n - 3] == log[..n - 3];
      assert Marked(worlds[id].log, n - 3, r, c, now);
      if !ok { return Unknown(c); }
      AppendMeaning(log, n, receipt);
      match reported
      case Applied => return Committed(c);
      case Refused => return Outcome.Failed(c);
      case Ambiguous => return Unknown(c);
    }

    /** The execution marker. */
    method Mark(id: string, t: nat, r: Request, n: nat, c: string) returns (ok: bool)
      requires Valid() && id in worlds && t in worlds[id].threads
      requires worlds[id].threads[t] == Approved(r, n, c) && IsIdentifier(r.id) && c != ""
      modifies this
      ensures Valid() && worlds.Keys == old(worlds).Keys
      ensures old(worlds)[id].log <= worlds[id].log
      ensures ok ==>
                var s := old(worlds)[id];
                && n == |s.log|
                && worlds == old(worlds)[id := System(
                     s.log + [ActionExecuting(r.id, c)], s.effects, s.threads[t := Started(r, n + 1, c)])]
      ensures !ok ==> !HasEffectAt(worlds[id].effects, n + 1)
      ensures quiet && |old(worlds)[id].log| == n ==> ok
    {
      hide Inv, AllInv, Ready, ValidLog, Append, HasEffectAt;
      var executing := ActionExecuting(r.id, c);
      ghost var log, threads := worlds[id].log, worlds[id].threads;
      ReadyToStart(worlds, id, t);
      NotReached(worlds, id, t);
      assert |log| == n ==> Append(log, n, executing).Some? by {
        WorldIsValid(worlds, id);
        if |log| == n { OutcomeAccepted(log, executing); }
      }
      ok := AppendEvent(id, t, n, executing, Some(Started(r, n + 1, c)));
      if ok {
        AppendMeaning(log, n, executing);
        assert (threads - {t})[t := Started(r, n + 1, c)] == threads[t := Started(r, n + 1, c)];
      }
    }

    /** The execution marker, then the driver. */
    method Launch(id: string, t: nat, r: Request, n: nat, c: string, reported: DriverOutcome,
                  touched: bool, ghost now: Time)
      returns (ok: bool)
      requires Valid() && id in worlds && t in worlds[id].threads
      requires worlds[id].threads[t] == Approved(r, n, c) && 2 <= n <= |worlds[id].log|
      requires IsIdentifier(r.id) && c != ""
      requires Decided(worlds[id].log, n - 2, r, Allow(c), now)
      modifies this
      ensures Valid() && worlds.Keys == old(worlds).Keys
      ensures n <= |worlds[id].log| && Decided(worlds[id].log, n - 2, r, Allow(c), now)
      ensures ok ==> n < |worlds[id].log| && t in worlds[id].threads
                     && worlds[id].threads[t] == Driven(r, n + 1, c, reported)
      ensures !ok ==> !HasEffectAt(worlds[id].effects, n + 1)
      ensures quiet && |old(worlds)[id].log| == n ==>
                var s := old(worlds)[id];
                && ok
                && worlds == old(worlds)[id := System(
                     s.log + [ActionExecuting(r.id, c)], Drove(s.effects, Effect(r, c, n + 1), reported, touched),
                     s.threads[t := Driven(r, n + 1, c, reported)])]
    {
      hide Inv, AllInv, Decided, Drove, IsIdentifier, HasEffectAt;
      ghost var log, threads := worlds[id].log, worlds[id].threads;
      ok := Mark(id, t, r, n, c);
      DecidedKept(log, worlds[id].log, n - 2, r, Allow(c), now);
      if !ok { return; }
      Interfere(id, t);
      CallDriver(id, t, r, n + 1, c, reported, touched);
      Interfere(id, t);
      DecidedKept(log, worlds[id].log, n - 2, r, Allow(c), now);
      if quiet && |log| == n {
        var after := System(log + [ActionExecuting(r.id, c)],
                            Drove(old(worlds)[id].effects, Effect(r, c, n + 1), reported, touched),
                            threads[t := Driven(r, n + 1, c, reported)]);
        assert worlds[id] == after;
        assert worlds == old(worlds)[id := after];
      }
    }

    /** From the authorization to the receipt. */
    method CarryOut(id: string, t: nat, r: Request, n: nat, c: string, reported: DriverOutcome,
                    touched: bool, ghost now: Time)
      returns (outcome: Outcome)
      requires Valid() && id in worlds && t in worlds[id].threads
      requires worlds[id].threads[t] == Approved(r, n, c) && 2 <= n <= |worlds[id].log|
      requires IsIdentifier(r.id) && c != ""
      requires Decided(worlds[id].log, n - 2, r, Allow(c), now)
      modifies this
      ensures Valid() && worlds.Keys == old(worlds).Keys
      ensures Explains(worlds[id], n - 2, r, now, reported, outcome)
      ensures quiet && |old(worlds)[id].log| == n ==>
                var s := old(worlds)[id];
                && outcome == StatusOf(Allow(c), reported)
                && worlds == old(worlds)[id := System(
                     s.log + [ActionExecuting(r.id, c)] + [Receipt(r, c, reported)],
                     Drove(s.effects, Effect(r, c, n + 1), reported, touched), s.threads - {t})]
    {
      hide Inv, Verdict, AllInv, ValidLog, Drove, IsIdentifier, Receipt, StatusOf;
      var ok := Launch(id, t, r, n, c, reported, touched, now);
      if !ok { return Unknown(c); }
      ghost var log := worlds[id].log;
      outcome := RecordReceipt(id, t, r, n + 1, c, reported, now);
      if quiet && |old(worlds)[id].log| == n {
        AppendMeaning(log, n + 1, Receipt(r, c, reported));
        var s := old(worlds)[id];
        assert s.threads[t := Driven(r, n + 1, c, reported)] - {t} == s.threads - {t};
        var after := System(s.log + [ActionExecuting(r.id, c)] + [Receipt(r, c, reported)],
                            Drove(s.effects, Effect(r, c, n + 1), reported, touched), s.threads - {t});
        assert worlds[id] == after;
        assert worlds == old(worlds)[id := after];
      }
    }

    /** An authorized action is carried out, whatever happened since. */
    method GoOn(id: string, t: nat, r: Request, n: nat, c: string, reported: DriverOutcome, touched: bool,
                ghost now: Time)
      returns (outcome: Outcome)
      requires Valid() && id in worlds && t in worlds[id].threads
      requires worlds[id].threads[t] == Approved(r, n, c) && 2 <= n && IsIdentifier(r.id) && c != ""
      requires Decided(worlds[id].log, n - 2, r, Allow(c), now)
      modifies this
      ensures Valid() && worlds.Keys == old(worlds).Keys
      ensures Explains(worlds[id], n - 2, r, now, reported, outcome)
      ensures quiet && |old(worlds)[id].log| == n ==>
                var s := old(worlds)[id];
                && outcome == StatusOf(Allow(c), reported)
                && worlds == old(worlds)[id := System(
                     s.log + [ActionExecuting(r.id, c)] + [Receipt(r, c, reported)],
                     Drove(s.effects, Effect(r, c, n + 1), reported, touched), s.threads - {t})]
    {
      hide Inv, AllInv, Decided, Explains, IsIdentifier, StatusOf, Drove, Receipt, HasEffectAt;
      ghost var log := worlds[id].log;
      Interfere(id, t);
      DecidedKept(log, worlds[id].log, n - 2, r, Allow(c), now);
      outcome := CarryOut(id, t, r, n, c, reported, touched, now);
    }

    /** The decision event: denied, approval required or authorized. */
    method RecordDecision(id: string, t: nat, r: Request, n: nat, seen: Log, d: Decision, now: Time)
      returns (ok: bool)
      requires Valid() && id in worlds && t in worlds[id].threads
      requires worlds[id].threads[t] == Registered(r, n, seen) && IsIdentifier(r.id)
      requires d == Verdict(seen, r, now)
      modifies this
      ensures Valid() && worlds.Keys == old(worlds).Keys && 1 <= n
      ensures n <= |worlds[id].log| && worlds[id].log[n - 1] == ActionRequested(r) && |seen| == n - 1
      ensures worlds[id].log[..n - 1] == seen
      ensures ok ==> Decided(worlds[id].log, n - 1, r, d, now)
      ensures !ok ==> !HasEffectAt(worlds[id].effects, n + 2)
      ensures ok && d.Allow? ==> t in worlds[id].threads
                                 && worlds[id].threads[t] == Approved(r, n + 1, d.capabilityID)
      ensures quiet && |old(worlds)[id].log| == n ==>
                var before := old(worlds)[id];
                && ok
                && worlds == old(worlds)[id := System(
                     seen + [ActionRequested(r), DecisionEvent(r, d)], before.effects,
                     if d.Allow? then before.threads[t := Approved(r, n + 1, d.capabilityID)]
                     else before.threads - {t})]
    {
      hide Inv, Verdict, AllInv, Ready, ValidLog, Append, IsIdentifier, DecisionEvent, HasEffectAt;
      ghost var before := worlds[id];
      var next := if d.Allow? then Some(Approved(r, n + 1, d.capabilityID)) else None;
      ReadyToDecide(worlds, id, t, now);
      NotReached(worlds, id, t);
      ok := AppendEvent(id, t, n, DecisionEvent(r, d), next);
      if ok {
        AppendMeaning(before.log, n, DecisionEvent(r, d));
        assert worlds[id].log[..n - 1] == seen;
        assert worlds[id].log == seen + [ActionRequested(r), DecisionEvent(r, d)];
        assert d.Allow? ==> (before.threads - {t})[t := next.value] == before.threads[t := next.value];
      }
    }

    /** From the request to its decision, and on when it is allowed. */
    method Resolve(id: string, t: nat, r: Request, n: nat, seen: Log, grants: map<string, Grant>,
                   uses: map<string, nat>, now: Time, reported: DriverOutcome, touched: bool)
      returns (outcome: Outcome)
      requires Valid() && id in worlds && t in worlds[id].threads
      requires worlds[id].threads[t] == Registered(r, n, seen) && IsIdentifier(r.id)
      requires ValidLog(seen) && grants == Grants(seen) && forall c :: UsesOf(uses, c) == Uses(seen, c)
      modifies this
      ensures Valid() && worlds.Keys == old(worlds).Keys && 1 <= n
      ensures Explains(worlds[id], n - 1, r, now, reported, outcome)
      ensures quiet && |old(worlds)[id].log| == n ==>
                && outcome == StatusOf(Verdict(seen, r, now), reported)
                && |seen| == n - 1
                && worlds == old(worlds)[id := System(
                     seen + Trail(seen, r, now, reported),
                     EffectsOf(System(seen, old(worlds)[id].effects, map[]), r, now, reported, touched),
                     old(worlds)[id].threads - {t})]
    {
      hide Inv, Verdict, AllInv, ValidLog, Drove, Grants, Uses, IsIdentifier, Receipt, DecisionEvent,
           Trail, EffectsOf, Decided, Receipted, StatusOf, UsesOf, HasEffectAt, Marked;
      ghost var before := worlds[id];
      ghost var quietly := quiet && |before.log| == n;
      var d := Authorize(r, grants, uses, now, seen);
      var ok := RecordDecision(id, t, r, n, seen, d, now);
      if !ok {
        assert Uncertain(worlds[id], n - 1, r, Authorized(d), now, reported);
        return Unknown(if d.Allow? then d.capabilityID else "");
      }
      RefusalParts(worlds[id], n - 1, r, now, reported, d);
      TrailParts(seen, before.effects, r, now, reported, touched);
      match d
      case Deny(code, c) => outcome := Denied(code, c);
      case RequireApproval(c) => outcome := ApprovalRequired(c);
      case Allow(c) =>
        AllowMeaning(seen, r, now);
        outcome := GoOn(id, t, r, n + 1, c, reported, touched, now);
        assert before.threads[t := Approved(r, n + 1, c)] - {t} == before.threads - {t};
    }

    /** The history, read after the projection. */
    method Vet(id: string, t: nat, r: Request, expected: nat)
      returns (unique: bool, events: Log, grants: map<string, Grant>, uses: map<string, nat>)
      requires Valid() && id in worlds && t in worlds[id].threads
      requires worlds[id].threads[t] == Loaded(r, expected) && expected <= |worlds[id].log|
      modifies this
      ensures Valid() && worlds.Keys == old(worlds).Keys
      ensures old(worlds)[id].log <= worlds[id].log && unique == Fresh(worlds[id].log, r)
      ensures unique ==>
                && t in worlds[id].threads && worlds[id].threads[t] == Vetted(r, expected, events)
                && ValidLog(events) && grants == Grants(events)
                && forall c :: UsesOf(uses, c) == Uses(events, c)
      ensures quiet ==>
                var s := old(worlds)[id];
                && unique == Fresh(s.log, r) && (unique ==> events == s.log)
                && worlds == old(worlds)[id :=
                     if unique then Put(s, t, Vetted(r, expected, s.log)) else Forget(s, t)]
    {
      hide Inv, AllInv, ThreadFacts, Fresh, ValidLog, Grants, Uses, UsesOf, SlotFree;
      Interfere(id, t);
      events := worlds[id].log;
      WorldIsValid(worlds, id);
      unique := EnsureUniqueAttempt(events, r);
      if !unique {
        Leave(id, t);
        return false, [], map[], map[];
      }
      var ok;
      ok, grants, uses := GrantsFromEvents(events);
      EntryFacts(worlds[id], r, expected);
      Enter(id, t, Vetted(r, expected, events));
    }

    /** The request itself, once vetted. */
    method Register(id: string, t: nat, r: Request, expected: nat, events: Log) returns (ok: bool)
      requires Valid() && id in worlds && t in worlds[id].threads
      requires worlds[id].threads[t] == Vetted(r, expected, events)
      modifies this
      ensures Valid() && worlds.Keys == old(worlds).Keys
      ensures ok ==> t in worlds[id].threads
                     && worlds[id].threads[t] == Registered(r, expected + 1, events)
      ensures quiet && Admissible(old(worlds), r, expected) && r.runID == id ==>
                var s := old(worlds)[id];
                && ok && expected == |s.log| && events == s.log
                && worlds == old(worlds)[id := System(
                     s.log + [ActionRequested(r)], s.effects,
                     s.threads[t := Registered(r, expected + 1, events)])]
    {
      hide Inv, AllInv, ThreadFacts, Ready, Fresh, ValidRequest, Append, ValidLog;
      Interfere(id, t);
      ghost var s := worlds[id];
      ReadyToRegister(worlds, id, t);
      ok := AppendEvent(id, t, expected, ActionRequested(r), Some(Registered(r, expected + 1, events)));
      if ok {
        AppendMeaning(s.log, expected, ActionRequested(r));
        var th := Registered(r, expected + 1, events);
        assert (s.threads - {t})[t := th] == s.threads[t := th];
      }
    }

    /** Execute from the loaded projection on. */
    method Undertake(t: nat, r: Request, expected: nat, now: Time, reported: DriverOutcome, touched: bool)
      returns (outcome: Outcome)
      requires Valid() && r.runID in worlds && t !in worlds[r.runID].threads && ValidRequest(r)
      requires expected == |worlds[r.runID].log| && Replay(worlds[r.runID].log).value.state == Running
      modifies this
      ensures Valid() && worlds.Keys == old(worlds).Keys
      ensures outcome.Rejected? ==> outcome.why == DuplicateAttempt && !Fresh(worlds[r.runID].log, r)
      ensures !outcome.Rejected? ==> Fresh(old(worlds)[r.runID].log, r)
      ensures !outcome.Rejected? && !outcome.Unregistered? ==>
                Explains(worlds[r.runID], expected, r, now, reported, outcome)
      ensures quiet && Fresh(old(worlds)[r.runID].log, r) ==>
                var s := old(worlds)[r.runID];
                && outcome == StatusOf(Verdict(s.log, r, now), reported)
                && worlds == old(worlds)[r.runID := System(
                     s.log + Trail(s.log, r, now, reported),
                     EffectsOf(System(s.log, s.effects, map[]), r, now, reported, touched), s.threads)]
      ensures quiet && !Fresh(old(worlds)[r.runID].log, r) ==> outcome.Rejected? && worlds == old(worlds)
    {
      hide Inv, AllInv, ThreadFacts, SlotFree, Fresh, Trail, EffectsOf, Verdict, StatusOf, ValidRequest, ValidLog, Grants,
           Uses, UsesOf, Decided, Receipted, Uncertain, HasEffectAt, IsIdentifier;
      var id := r.runID;
      WorldIsValid(worlds, id);
      ghost var s := worlds[id];
      EntryFacts(worlds[id], r, expected);
      Enter(id, t, Loaded(r, expected));
      var unique, events, grants, uses := Vet(id, t, r, expected);
      if unique { FreshBefore(s.log, worlds[id].log, r); }
      assert (s.threads[t := Loaded(r, expected)] - {t}) == s.threads && old(worlds)[id := s] == old(worlds);
      if !unique { return Rejected(DuplicateAttempt); }
      var ok := Register(id, t, r, expected, events);
      if !ok { return Unregistered; }
      Interfere(id, t);
      ghost var th := Registered(r, expected + 1, events);
      assert s.threads[t := Loaded(r, expected)][t := Vetted(r, expected, events)][t := th] - {t} == s.threads;
      outcome := Resolve(id, t, r, expected + 1, events, grants, uses, now, reported, touched);
    }

    /** Execute: whatever else happens meanwhile, a reported outcome is what grants,
        log and driver say; undisturbed, the whole effect on the store is known. */
    method Execute(t: nat, r: Request, expected: nat, now: Time, inputDecodes: bool,
                   driver: DriverOutcome, touched: bool)
      returns (outcome: Outcome)
      requires Valid() && forall id <- worlds :: t !in worlds[id].threads
      modifies this
      ensures Valid() && worlds.Keys == old(worlds).Keys
      ensures !outcome.Rejected? && !outcome.Unregistered? ==>
                r.runID in worlds && Tells(worlds[r.runID], expected, r, now, inputDecodes, driver, outcome)
      ensures quiet && Admissible(old(worlds), r, expected) ==>
                && !outcome.Rejected? && !outcome.Unregistered?
                && Leaves(old(worlds)[r.runID], worlds[r.runID], r, touched, outcome)
                && forall other <- worlds :: other != r.runID ==> worlds[other] == old(worlds)[other]
      ensures quiet && !Admissible(old(worlds), r, expected) ==> outcome.Rejected? && worlds == old(worlds)
      ensures Answers(old(worlds), worlds, r, expected, outcome)
    {
      hide Inv, AllInv, Fresh, Trail, EffectsOf, Verdict, StatusOf, Explains, Tells, Leaves, Reported, IsIdentifier;
      if !ValidRequest(r) {
        AnswersInvalid(worlds, r, expected);
        return Rejected(InvalidRequest);
      }
      if r.runID !in worlds { return Rejected(RunNotFound); }
      WorldIsValid(worlds, r.runID);
      ghost var s := worlds[r.runID];
      ReplaySequence(worlds[r.runID].log);
      var projection := Replay(worlds[r.runID].log).value;
      if projection.sequence != expected { return Rejected(SequenceConflict); }
      if projection.state != Running { return Rejected(RunNotRunning); }
      outcome := Undertake(t, r, expected, now, Reported(inputDecodes, driver), touched);
      AnswersTurned(old(worlds), worlds, r, expected, outcome);
      if !outcome.Rejected? && !outcome.Unregistered? {
        WorldIsValid(worlds, r.runID);
        ExplainsTells(worlds[r.runID], expected, r, now, inputDecodes, driver, outcome);
      }
      TrailLeaves(s, r, now, Reported(inputDecodes, driver), touched);
    }

    /** store.AppendEvent for recovery, which runs before anything is served. */
    method AppendClosing(id: string, n: nat, e: Event, ghost dangling: seq<Interrupted>) returns (ok: bool)
      requires Valid() && id in worlds && worlds[id].threads == map[] && n == |worlds[id].log|
      requires dangling != [] && e == ClosingEvent(dangling[0]) && DanglingFacts(worlds[id].log, dangling)
      modifies this
      ensures Valid()
      ensures worlds == old(worlds) ||
              worlds == old(worlds)[id := old(worlds)[id].(log := old(worlds)[id].log + [e])]
      ensures ok ==> DanglingFacts(worlds[id].log, dangling[1..]) && |worlds[id].log| == n + 1
      ensures quiet ==> ok
    {
      hide Inv, AllInv, DanglingFacts, Append;
      WorldIsValid(worlds, id);
      CloseOneKeeps(worlds[id], dangling);
      ReplaySequence(worlds[id].log);
      var fault, lost := *, *;
      if quiet { fault, lost := false, false; }
      if fault { return false; }
      OneStepKeeps(worlds, id, worlds[id].(log := worlds[id].log + [e]));
      worlds := worlds[id := worlds[id].(log := worlds[id].log + [e])];
      return !lost;
    }

    /** One run of Recover's loop. */
    method RecoverRun(id: string) returns (ok: bool, closed: nat)
      requires Valid() && id in worlds && worlds[id].threads == map[]
      modifies this
      ensures quiet ==> ok
      ensures Valid() && worlds.Keys == old(worlds).Keys
      ensures forall other <- worlds :: other != id ==> worlds[other] == old(worlds)[other]
      ensures worlds[id].threads == map[] && worlds[id].effects == old(worlds)[id].effects
      ensures worlds[id].log <= Recovered(old(worlds)[id]).log && old(worlds)[id].log <= worlds[id].log
      ensures ok ==> worlds[id] == Recovered(old(worlds)[id])
      ensures ok ==> |worlds[id].log| == |old(worlds)[id].log| + closed
    {
      hide Inv, AllInv, DanglingFacts, Tracks, RequestedIDs, LogFacts, ValidLog, DanglingOf, Closings;
      WorldIsValid(worlds, id);
      ghost var before := worlds[id];
      var projection := Replay(worlds[id].log).value;
      ReplaySequence(worlds[id].log);
      if Terminal(projection.state) { return true, 0; }
      var events := worlds[id].log;
      var pending, order := InterruptedActions(events);
      InvLog(before);
      DanglingOfFacts(events, order);
      NothingLeft(events, order);
      closed := 0;
      for i := 0 to |order|
        invariant Valid() && worlds.Keys == old(worlds).Keys
        invariant forall other <- worlds :: other != id ==> worlds[other] == old(worlds)[other]
        invariant worlds[id].threads == map[] && worlds[id].effects == before.effects
        invariant worlds[id].log + Closings(DanglingOf(events, order[i..])) == Recovered(before).log
        invariant before.log <= worlds[id].log && |worlds[id].log| == |events| + closed
        invariant DanglingFacts(worlds[id].log, DanglingOf(events, order[i..]))
      {
        var actionID := order[i];
        ghost var log := worlds[id].log;
        NextDangling(events, order, i, pending, log);
        if actionID in pending {
          var event := if pending[actionID] == "" then ActionDenied(actionID, "")
                       else ActionUnknown(actionID, pending[actionID]);
          var recorded := AppendClosing(id, projection.sequence + closed, event, DanglingOf(events, order[i..]));
          if !recorded { return false, closed; }
          closed := closed + 1;
        }
      }
      return true, closed;
    }

    /** Recover: on success every run is closed, nothing else has changed, and a
        second recovery would write nothing. */
    method Recover(projections: seq<string>) returns (ok: bool, recovered: nat)
      requires Valid() && forall id <- worlds :: worlds[id].threads == map[]
      requires Distinct(projections) && forall id :: id in projections <==> id in worlds
      modifies this
      ensures Valid() && worlds.Keys == old(worlds).Keys
      ensures quiet ==> ok
      ensures ok ==> forall id <- worlds :: worlds[id] == Recovered(old(worlds)[id])
      ensures ok ==> forall id <- worlds :: Closed(worlds[id].log) && Recovered(worlds[id]) == worlds[id]
      ensures ok ==> recovered == Appended(projections, old(worlds), worlds)
      ensures forall id <- worlds ::
                old(worlds)[id].log <= worlds[id].log <= Recovered(old(worlds)[id]).log
                && worlds[id].effects == old(worlds)[id].effects
    {
      hide Inv, AllInv, Recovered, Appended, Closed;
      recovered := 0;
      BeforeRecovery(worlds);
      for i := 0 to |projections|
        invariant Valid() && worlds.Keys == old(worlds).Keys
        invariant forall k :: 0 <= k < i ==> worlds[projections[k]] == Recovered(old(worlds)[projections[k]])
        invariant forall k :: i <= k < |projections| ==> worlds[projections[k]] == old(worlds)[projections[k]]
        invariant forall id <- worlds :: worlds[id].threads == map[]
        invariant forall id <- worlds ::
                    old(worlds)[id].log <= worlds[id].log <= Recovered(old(worlds)[id]).log
                    && worlds[id].effects == old(worlds)[id].effects
        invariant recovered == Appended(projections[..i], old(worlds), worlds)
      {
        ghost var before := worlds;
        var closed;
        ok, closed := RecoverRun(projections[i]);
        if !ok { return false, recovered; }
        recovered := recovered + closed;
        AppendedNext(projections, i, old(worlds), before, worlds);
      }
      assert projections[..|projections|] == projections;
      return true, recovered;
    }
  }
}
