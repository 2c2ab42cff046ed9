/** The action broker as a protocol (internal/kernel/broker/broker.go:59-290).

    A system is one run's durable log, the effects its driver really had, and
    the executors and recoveries in flight. Each move is one step of one of
    them: a read, a compare-and-append, a driver call, a crash. Moves interleave
    freely and no lock is assumed. An append may also be durable and yet be
    reported as an error (acknowledged = false). */
module BrokerProtocol {
  import opened Text
  import opened ActionLog

  /** What the driver reported. Refused is an error without Unknown. */
  datatype DriverOutcome = Applied | Refused | Ambiguous

  datatype Effect = Effect(request: Request, capabilityID: string, at: nat)

  datatype Interrupted = Interrupted(id: string, capabilityID: string)

  /** The local state of a call in flight; n is the sequence it will append at. */
  datatype Thread =
    | Loaded(request: Request, n: nat)
    | Vetted(request: Request, n: nat, seen: Log)
    | Registered(request: Request, n: nat, seen: Log)
    | Approved(request: Request, n: nat, capabilityID: string)
    | Started(request: Request, n: nat, capabilityID: string)
    | Driven(request: Request, n: nat, capabilityID: string, outcome: DriverOutcome)
    | Listed(n: nat)
    | Recovering(n: nat, dangling: seq<Interrupted>)

  datatype System = System(log: Log, effects: seq<Effect>, threads: map<nat, Thread>)

  datatype Move =
    | Begin(t: nat, request: Request, expected: nat)
    | ReadEvents(t: nat)
    | Register(t: nat, acknowledged: bool)
    | Decide(t: nat, now: Time, acknowledged: bool)
    | Start(t: nat, acknowledged: bool)
    | Drive(t: nat, outcome: DriverOutcome, touched: bool)
    | Settle(t: nat)
    | Abandon(t: nat)
    | List(t: nat)
    | Scan(t: nat)
    | CloseNext(t: nat, acknowledged: bool)
    | Environment(event: Event)
    | Crash

  function DecisionEvent(r: Request, d: Decision): Event {
    match d
    case Allow(c) => ActionAuthorized(r.id, c)
    case RequireApproval(c) => ActionApprovalRequired(r.id, c)
    case Deny(_, c) => ActionDenied(r.id, c)
  }

  function Receipt(r: Request, capabilityID: string, outcome: DriverOutcome): Event {
    match outcome
    case Applied => ActionCommitted(r.id, capabilityID)
    case Refused => ActionFailed(r.id, capabilityID)
    case Ambiguous => ActionUnknown(r.id, capabilityID)
  }

  function ClosingEvent(x: Interrupted): Event {
    if x.capabilityID == "" then ActionDenied(x.id, "") else ActionUnknown(x.id, x.capabilityID)
  }

  /** The interrupted actions Recover will close, in request order. */
  function Dangling(log: Log): seq<Interrupted> { DanglingOf(log, RequestedIDs(log)) }

  function DanglingOf(log: Log, ids: seq<string>): seq<Interrupted> {
    if ids == [] then []
    else (if Pending(log, ids[0]) then [Interrupted(ids[0], Binding(log, ids[0]))] else [])
         + DanglingOf(log, ids[1..])
  }

  /** The effect list a driver call leaves behind. */
  function Drove(effects: seq<Effect>, effect: Effect, outcome: DriverOutcome, touched: bool): seq<Effect> {
    effects + if outcome.Applied? || (outcome.Ambiguous? && touched) then [effect] else []
  }

  // ---- moves --------------------------------------------------------------

  function Forget(s: System, t: nat): System { s.(threads := s.threads - {t}) }

  function Put(s: System, t: nat, thread: Thread): System {
    s.(threads := s.threads[t := thread])
  }

  /** Thread t appends e at n and goes on as next, or is gone. */
  function Advance(s: System, t: nat, n: nat, e: Event, next: Option<Thread>): System {
    match Append(s.log, n, e)
    case None => Forget(s, t)
    case Some(log) =>
      var after := Forget(s, t).(log := log);
      if next.Some? then Put(after, t, next.value) else after
  }

  function When<T>(acknowledged: bool, value: T): Option<T> {
    if acknowledged then Some(value) else None
  }

  function BeginMove(s: System, t: nat, r: Request, expected: nat): System {
    if t in s.threads || !ValidRequest(r) || !ValidLog(s.log) then s
    else
      var p := Replay(s.log).value;
      if p.runID != r.runID || p.sequence != expected || p.state != Running then s
      else Put(s, t, Loaded(r, expected))
  }

  /** What a thread does next; a thread in another phase has no such move. */
  function ThreadMove(s: System, m: Move, t: nat, th: Thread): System {
    match (m, th)
    case (ReadEvents(_), Loaded(r, n)) =>
      if Fresh(s.log, r) then Put(s, t, Vetted(r, n, s.log)) else Forget(s, t)
    case (Register(_, ack), Vetted(r, n, seen)) =>
      Advance(s, t, n, ActionRequested(r), When(ack, Registered(r, n + 1, seen)))
    case (Decide(_, now, ack), Registered(r, n, seen)) =>
      var d := Verdict(seen, r, now);
      Advance(s, t, n, DecisionEvent(r, d), When(ack && d.Allow?, Approved(r, n + 1, d.capabilityID)))
    case (Start(_, ack), Approved(r, n, c)) =>
      Advance(s, t, n, ActionExecuting(r.id, c), When(ack, Started(r, n + 1, c)))
    case (Drive(_, outcome, touched), Started(r, n, c)) =>
      Put(s, t, Driven(r, n, c, outcome)).(effects := Drove(s.effects, Effect(r, c, n), outcome, touched))
    case (Settle(_), Driven(r, n, c, outcome)) =>
      Advance(s, t, n, Receipt(r, c, outcome), None)
    case (Scan(_), Listed(n)) => Put(s, t, Recovering(n, Dangling(s.log)))
    case (CloseNext(_, ack), Recovering(n, dangling)) =>
      if dangling == [] then Forget(s, t)
      else Advance(s, t, n, ClosingEvent(dangling[0]), When(ack, Recovering(n + 1, dangling[1..])))
    case (Abandon(_), _) => Forget(s, t)
    case _ => s
  }

  function Perform(s: System, m: Move): System {
    match m
    case Begin(t, r, expected) => BeginMove(s, t, r, expected)
    case List(t) =>
      if t !in s.threads && ValidLog(s.log) && !Terminal(Replay(s.log).value.state)
      then Put(s, t, Listed(|s.log|)) else s
    case Environment(e) =>
      if !e.IsAction() && Append(s.log, |s.log|, e).Some? then s.(log := s.log + [e]) else s
    case Crash => s.(threads := map[])
    case _ => if m.t in s.threads then ThreadMove(s, m, m.t, s.threads[m.t]) else s
  }

  /** A run that has been created and has seen no action yet. */
  ghost predicate Init(s: System) {
    && ValidLog(s.log) && (forall e <- s.log :: !e.IsAction())
    && s.effects == [] && s.threads == map[]
  }

  ghost function Run(s: System, moves: seq<Move>): System {
    if moves == [] then s
    else Perform(Run(s, moves[..|moves| - 1]), moves[|moves| - 1])
  }

  // ---- the invariant --------------------------------------------------------

  ghost predicate Bound(log: Log, j: nat, id: string) {
    exists i :: 0 <= i < j && i < |log| && log[i].Binds(id)
  }

  ghost predicate AuthorizedBefore(log: Log, j: nat, id: string, capabilityID: string) {
    exists i :: 0 <= i < j && i < |log| && log[i] == ActionAuthorized(id, capabilityID)
  }

  /** At some time the log allowed the request under this capability. */
  ghost predicate Allowable(log: Log, r: Request, capabilityID: string) {
    exists now: Time {:trigger Verdict(log, r, now)} :: Verdict(log, r, now) == Allow(capabilityID)
  }

  /** Why the event at j may stand where it stands. */
  ghost predicate Justified(log: Log, j: nat)
    requires j < |log|
  {
    match log[j]
    case ActionDenied(id, _) => id in RequestedIDs(log[..j]) && !Bound(log, j, id)
    case ActionApprovalRequired(id, _) => 1 <= j && log[j - 1].Requests(id)
    case ActionAuthorized(id, c) =>
      && 1 <= j && log[j - 1].Requests(id)
      && Allowable(log[..j - 1], log[j - 1].request, c)
    case ActionExecuting(id, c) => 1 <= j && log[j - 1] == ActionAuthorized(id, c)
    case ActionCommitted(id, c) => 1 <= j && log[j - 1] == ActionExecuting(id, c)
    case ActionFailed(id, c) => 1 <= j && log[j - 1] == ActionExecuting(id, c)
    case ActionUnknown(id, c) => AuthorizedBefore(log, j, id, c)
    case _ => true
  }

  ghost predicate DistinctRequests(log: Log) {
    forall i, j :: 0 <= i < j < |log| && log[i].ActionRequested? && log[j].ActionRequested? ==>
      log[i].request.id != log[j].request.id
      && log[i].request.idempotencyKey != log[j].request.idempotencyKey
  }

  ghost predicate LogFacts(log: Log) {
    ValidLog(log) && DistinctRequests(log) && forall j: nat :: j < |log| ==> Justified(log, j)
  }

  /** The three durable events an effect rests on end at position at. */
  predicate Backed(log: Log, r: Request, c: string, at: nat) {
    && 3 <= at <= |log|
    && log[at - 3] == ActionRequested(r)
    && log[at - 2] == ActionAuthorized(r.id, c)
    && log[at - 1] == ActionExecuting(r.id, c)
  }

  predicate HasEffectAt(effects: seq<Effect>, at: nat) {
    exists k :: 0 <= k < |effects| && effects[k].at == at
  }

  /** The events only the executor of a request appends for it. */
  predicate Claims(e: Event) {
    e.ActionAuthorized? || e.ActionExecuting? || e.ActionCommitted? || e.ActionFailed?
  }

  /** Nobody has gone on in the place of the executor that is due at n. */
  predicate Unclaimed(log: Log, n: nat) {
    n < |log| ==> !Claims(log[n])
  }

  ghost predicate DanglingFacts(log: Log, dangling: seq<Interrupted>) {
    forall x <- dangling ::
      && x.id != "" && x.id in RequestedIDs(log)
      && if x.capabilityID == "" then !Bound(log, |log|, x.id)
         else AuthorizedBefore(log, |log|, x.id, x.capabilityID)
  }

  ghost predicate ThreadFacts(log: Log, effects: seq<Effect>, th: Thread) {
    && th.n <= |log|
    && match th
       case Loaded(_, _) => true
       case Vetted(r, n, seen) => n <= |seen| && seen <= log && Fresh(seen, r)
       case Registered(r, n, seen) =>
         1 <= n && log[n - 1] == ActionRequested(r) && seen == log[..n - 1] && seen != [] && Unclaimed(log, n)
       case Approved(r, n, c) =>
         2 <= n && log[n - 2] == ActionRequested(r) && log[n - 1] == ActionAuthorized(r.id, c) && Unclaimed(log, n)
       case Started(r, n, c) => Backed(log, r, c, n) && Unclaimed(log, n) && !HasEffectAt(effects, n)
       case Driven(r, n, c, outcome) =>
         && Backed(log, r, c, n) && Unclaimed(log, n)
         && (outcome.Applied? ==> HasEffectAt(effects, n))
         && (outcome.Refused? ==> !HasEffectAt(effects, n))
       case Listed(_) => true
       case Recovering(n, dangling) => n == |log| ==> DanglingFacts(log, dangling)
  }

  /** The log position of the thread's own request, once it has one. */
  function Slot(th: Thread): Option<int> {
    match th
    case Registered(_, n, _) => Some(n - 1)
    case Approved(_, n, _) => Some(n - 2)
    case Started(_, n, _) => Some(n - 3)
    case Driven(_, n, _, _) => Some(n - 3)
    case _ => None
  }

  predicate EffectFacts(log: Log, effects: seq<Effect>) {
    && (forall k :: 0 <= k < |effects| ==>
          Backed(log, effects[k].request, effects[k].capabilityID, effects[k].at))
    && (forall j, k :: 0 <= j < k < |effects| ==> effects[j].at != effects[k].at)
  }

  predicate ReceiptFacts(log: Log, effects: seq<Effect>) {
    forall j: nat :: j < |log| ==>
      && (log[j].ActionCommitted? ==> HasEffectAt(effects, j))
      && (log[j].ActionFailed? ==> !HasEffectAt(effects, j))
  }

  ghost predicate AllThreadFacts(log: Log, effects: seq<Effect>, threads: map<nat, Thread>) {
    forall t <- threads :: ThreadFacts(log, effects, threads[t])
  }

  predicate DistinctSlots(threads: map<nat, Thread>) {
    forall t, u | t in threads && u in threads && t != u && Slot(threads[t]).Some? ::
      Slot(threads[t]) != Slot(threads[u])
  }

  ghost predicate Inv(s: System) {
    && LogFacts(s.log) && EffectFacts(s.log, s.effects) && ReceiptFacts(s.log, s.effects)
    && AllThreadFacts(s.log, s.effects, s.threads) && DistinctSlots(s.threads)
  }

  // ---- extending the log ------------------------------------------------------

  lemma {:induction false} RequestedIDsAppend(log: Log, e: Event)
    ensures RequestedIDs(log + [e]) == RequestedIDs(log) + if e.ActionRequested? then [e.request.id] else []
  {
    assert (log + [e])[..|log|] == log;
  }

  lemma JustifiedKept(log: Log, e: Event, j: nat)
    requires j < |log| && Justified(log, j)
    ensures Justified(log + [e], j)
  {
    var after := log + [e];
    assert after[..j] == log[..j];
    if 1 <= j { assert after[..j - 1] == log[..j - 1]; }
    match log[j]
    case ActionUnknown(id, c) =>
      var i :| 0 <= i < j && log[i] == ActionAuthorized(id, c);
      assert after[i] == ActionAuthorized(id, c);
    case _ =>
  }

  lemma LogFactsKept(log: Log, e: Event)
    requires LogFacts(log) && ValidLog(log + [e])
    requires e.ActionRequested? ==> Fresh(log, e.request)
    requires Justified(log + [e], |log|)
    ensures LogFacts(log + [e])
  {
    var after := log + [e];
    forall j: nat | j < |after| ensures Justified(after, j) {
      if j < |log| { JustifiedKept(log, e, j); }
    }
  }

  predicate Driving(th: Thread) { th.Started? || th.Driven? }

  lemma ThreadFactsKept(log: Log, effects: seq<Effect>, e: Event, th: Thread)
    requires ThreadFacts(log, effects, th)
    requires Slot(th).Some? && th.n == |log| ==> !Claims(e)
    ensures ThreadFacts(log + [e], effects, th)
  {
    match th
    case Registered(r, n, seen) => assert (log + [e])[..n - 1] == log[..n - 1];
    case Started(r, n, c) => assert Backed(log + [e], r, c, n);
    case Driven(r, n, c, outcome) => assert Backed(log + [e], r, c, n);
    case _ =>
  }

  /** One more event keeps the invariant, provided it is justified and does not
      take the turn of a live executor. */
  lemma Extend(s: System, e: Event)
    requires Inv(s) && ValidLog(s.log + [e])
    requires e.ActionRequested? ==> Fresh(s.log, e.request)
    requires Justified(s.log + [e], |s.log|)
    requires e.ActionCommitted? ==> HasEffectAt(s.effects, |s.log|)
    requires e.ActionFailed? ==> !HasEffectAt(s.effects, |s.log|)
    requires Claims(e) ==> forall t <- s.threads :: Slot(s.threads[t]).Some? ==> s.threads[t].n != |s.log|
    ensures Inv(s.(log := s.log + [e]))
  {
    LogFactsKept(s.log, e);
    forall t | t in s.threads ensures ThreadFacts(s.log + [e], s.effects, s.threads[t]) {
      ThreadFactsKept(s.log, s.effects, e, s.threads[t]);
    }
  }

  lemma ForgetKeeps(s: System, t: nat)
    requires Inv(s)
    ensures Inv(Forget(s, t))
  {
  }

  predicate SlotFree(threads: map<nat, Thread>, t: nat, th: Thread) {
    Slot(th).Some? ==> forall u <- threads :: u != t ==> Slot(threads[u]) != Slot(th)
  }

  lemma PutKeeps(s: System, t: nat, th: Thread)
    requires Inv(s) && ThreadFacts(s.log, s.effects, th) && SlotFree(s.threads, t, th)
    ensures Inv(Put(s, t, th))
  {
  }

  /** What thread th may append, and which phase that leads to. */
  ghost predicate Ready(log: Log, effects: seq<Effect>, th: Thread, e: Event, next: Option<Thread>) {
    var after := log + [e];
    && (e.ActionRequested? ==> Fresh(log, e.request))
    && Justified(after, |log|)
    && (e.ActionCommitted? ==> HasEffectAt(effects, |log|))
    && (e.ActionFailed? ==> !HasEffectAt(effects, |log|))
    && (Claims(e) ==> Slot(th).Some? && th.n == |log|)
    && (next.Some? ==>
          && ThreadFacts(after, effects, next.value)
          && (Slot(next.value).None? || Slot(next.value) == Slot(th)
              || Slot(next.value) == Some(|log|)))
  }

  /** The last event tells which request it is the turn of. */
  lemma OneTurn(log: Log, effects: seq<Effect>, a: Thread, b: Thread)
    requires ThreadFacts(log, effects, a) && ThreadFacts(log, effects, b)
    requires Slot(a).Some? && Slot(b).Some? && a.n == b.n == |log|
    ensures Slot(a) == Slot(b)
  {
  }

  /** The invariant survives such an append, whether it is refused,
      acknowledged or durable but unacknowledged. */
  lemma AdvanceKeeps(s: System, t: nat, n: nat, e: Event, next: Option<Thread>)
    requires Inv(s) && t in s.threads
    requires n == |s.log| ==> Ready(s.log, s.effects, s.threads[t], e, next)
    ensures Inv(Advance(s, t, n, e, next))
  {
    ForgetKeeps(s, t);
    if Append(s.log, n, e).Some? {
      AppendMeaning(s.log, n, e);
      var rest := Forget(s, t);
      if Claims(e) {
        forall u | u in rest.threads && Slot(rest.threads[u]).Some? ensures rest.threads[u].n != n {
          assert Slot(rest.threads[u]) != Slot(s.threads[t]);
          if rest.threads[u].n == n { OneTurn(s.log, s.effects, s.threads[t], rest.threads[u]); }
        }
      }
      Extend(rest, e);
      if next.Some? {
        var after := rest.(log := s.log + [e]);
        forall u | u in rest.threads && Slot(next.value).Some?
          ensures Slot(rest.threads[u]) != Slot(next.value)
        {
          assert ThreadFacts(s.log, s.effects, s.threads[u]);
        }
        PutKeeps(after, t, next.value);
      }
    }
  }

  // ---- each move keeps the invariant ------------------------------------------

  /** An authorization or execution event sits one or two places after its request. */
  lemma BindsAfterRequest(log: Log, i: nat, id: string)
    requires LogFacts(log) && i < |log| && log[i].Binds(id)
    ensures log[i].ActionAuthorized? ==> 1 <= i && log[i - 1].Requests(id)
    ensures log[i].ActionExecuting? ==>
              2 <= i && log[i - 1] == ActionAuthorized(id, log[i].capabilityID) && log[i - 2].Requests(id)
  {
    assert Justified(log, i);
    if log[i].ActionExecuting? { assert Justified(log, i - 1); }
  }

  /** The broker's own append after its request leaves nothing bound before. */
  lemma JustRequestedUnbound(log: Log, id: string)
    requires LogFacts(log) && log != [] && log[|log| - 1].Requests(id)
    ensures !Bound(log, |log|, id) && id in RequestedIDs(log)
  {
    if Bound(log, |log|, id) {
      var i :| 0 <= i < |log| && log[i].Binds(id);
      BindsAfterRequest(log, i, id);
    }
    RequestedIDsComplete(log, id);
  }

  lemma BoundAppend(log: Log, e: Event, id: string)
    ensures Bound(log + [e], |log|, id) <==> Bound(log, |log|, id)
  {
    if Bound(log + [e], |log|, id) {
      var i :| 0 <= i < |log| && (log + [e])[i].Binds(id);
      assert log[i].Binds(id);
    }
    if Bound(log, |log|, id) {
      var i :| 0 <= i < |log| && log[i].Binds(id);
      assert (log + [e])[i].Binds(id);
    }
  }

  lemma RegisterReady(log: Log, effects: seq<Effect>, th: Thread, ack: bool)
    requires LogFacts(log) && ThreadFacts(log, effects, th) && th.Vetted? && th.n == |log|
    ensures Ready(log, effects, th, ActionRequested(th.request),
                  When(ack, Registered(th.request, th.n + 1, th.seen)))
  {
    assert (log + [ActionRequested(th.request)])[..|log|] == log;
  }

  lemma DecisionJustified(log: Log, r: Request, seen: Log, now: Time)
    requires LogFacts(log) && log != [] && log[|log| - 1] == ActionRequested(r) && seen == log[..|log| - 1]
    ensures Justified(log + [DecisionEvent(r, Verdict(seen, r, now))], |log|)
  {
    var e := DecisionEvent(r, Verdict(seen, r, now));
    var after := log + [e];
    assert after[..|log|] == log && after[..|log| - 1] == seen;
    match Verdict(seen, r, now)
    case Deny(_, _) =>
      JustRequestedUnbound(log, r.id);
      BoundAppend(log, e, r.id);
    case Allow(c) => assert Allowable(after[..|log| - 1], r, c);
    case _ =>
  }

  lemma DecideReady(log: Log, effects: seq<Effect>, th: Thread, now: Time, ack: bool)
    requires LogFacts(log) && ThreadFacts(log, effects, th) && th.Registered? && th.n == |log|
    ensures var d := Verdict(th.seen, th.request, now);
            Ready(log, effects, th, DecisionEvent(th.request, d),
                  When(ack && d.Allow?, Approved(th.request, th.n + 1, d.capabilityID)))
  {
    DecisionJustified(log, th.request, th.seen, now);
  }

  lemma NoEffectYet(log: Log, effects: seq<Effect>)
    requires EffectFacts(log, effects)
    ensures !HasEffectAt(effects, |log| + 1)
  {
    forall k | 0 <= k < |effects| ensures effects[k].at <= |log| {
      assert Backed(log, effects[k].request, effects[k].capabilityID, effects[k].at);
    }
  }

  lemma StartReady(log: Log, effects: seq<Effect>, th: Thread, ack: bool)
    requires ThreadFacts(log, effects, th) && th.Approved? && th.n == |log| && EffectFacts(log, effects)
    ensures Ready(log, effects, th, ActionExecuting(th.request.id, th.capabilityID),
                  When(ack, Started(th.request, th.n + 1, th.capabilityID)))
  {
    NoEffectYet(log, effects);
  }

  lemma EffectAppend(effects: seq<Effect>, effect: Effect, at: nat)
    ensures HasEffectAt(effects + [effect], at) <==> HasEffectAt(effects, at) || at == effect.at
  {
    var after := effects + [effect];
    assert after[|effects|] == effect;
    if k :| 0 <= k < |effects| && effects[k].at == at {
      assert after[k].at == at;
    }
    if k :| 0 <= k < |after| && after[k].at == at {
      if k < |effects| { assert effects[k].at == at; }
    }
  }

  lemma EffectKeeps(s: System, effect: Effect)
    requires Inv(s) && Backed(s.log, effect.request, effect.capabilityID, effect.at)
    requires !HasEffectAt(s.effects, effect.at) && Unclaimed(s.log, effect.at)
    requires forall t <- s.threads :: Driving(s.threads[t]) ==> s.threads[t].n != effect.at
    ensures Inv(s.(effects := s.effects + [effect]))
  {
    forall at: nat
      ensures HasEffectAt(s.effects + [effect], at) <==> HasEffectAt(s.effects, at) || at == effect.at
    {
      EffectAppend(s.effects, effect, at);
    }
    forall t | t in s.threads ensures ThreadFacts(s.log, s.effects + [effect], s.threads[t]) {
      assert ThreadFacts(s.log, s.effects, s.threads[t]);
    }
  }

  lemma DriveEffectKeeps(s: System, th: Thread, outcome: DriverOutcome, touched: bool)
    requires Inv(s) && ThreadFacts(s.log, s.effects, th) && th.Started?
    requires forall u <- s.threads :: Slot(s.threads[u]) != Slot(th)
    ensures var effects := Drove(s.effects, Effect(th.request, th.capabilityID, th.n), outcome, touched);
            && Inv(s.(effects := effects))
            && ThreadFacts(s.log, effects, Driven(th.request, th.n, th.capabilityID, outcome))
  {
    var effect := Effect(th.request, th.capabilityID, th.n);
    assert Backed(s.log, th.request, th.capabilityID, th.n) && !HasEffectAt(s.effects, th.n);
    if outcome.Applied? || (outcome.Ambiguous? && touched) {
      forall u | u in s.threads && Driving(s.threads[u]) ensures s.threads[u].n != th.n {
        assert Slot(s.threads[u]) != Slot(th);
      }
      EffectKeeps(s, effect);
      EffectAppend(s.effects, effect, th.n);
    } else {
      assert s.effects + [] == s.effects;
    }
  }

  lemma OtherSlots(s: System, t: nat)
    requires Inv(s) && t in s.threads
    ensures Slot(s.threads[t]).Some? ==>
              forall u <- s.threads - {t} :: Slot(s.threads[u]) != Slot(s.threads[t])
  {
  }

  lemma DriveKeeps(s: System, t: nat, outcome: DriverOutcome, touched: bool)
    requires Inv(s) && t in s.threads && s.threads[t].Started?
    ensures Inv(ThreadMove(s, Drive(t, outcome, touched), t, s.threads[t]))
  {
    hide Inv, ThreadFacts, LogFacts, EffectFacts, Drove;
    var th := s.threads[t];
    InvFacts(s, t);
    var next := Driven(th.request, th.n, th.capabilityID, outcome);
    var effects := Drove(s.effects, Effect(th.request, th.capabilityID, th.n), outcome, touched);
    var rest := Forget(s, t);
    ForgetKeeps(s, t);
    OtherSlots(s, t);
    DriveEffectKeeps(rest, th, outcome, touched);
    assert Slot(next) == Slot(th) && SlotFree(rest.threads, t, next);
    PutKeeps(rest.(effects := effects), t, next);
    assert rest.threads[t := next] == s.threads[t := next];
  }

  lemma SettleReady(log: Log, effects: seq<Effect>, th: Thread)
    requires ThreadFacts(log, effects, th) && th.Driven? && th.n == |log|
    ensures Ready(log, effects, th, Receipt(th.request, th.capabilityID, th.outcome), None)
  {
    var after := log + [Receipt(th.request, th.capabilityID, th.outcome)];
    assert after[th.n - 2] == ActionAuthorized(th.request.id, th.capabilityID);
  }

  /** What the scan found is still true of every pending action. */
  lemma {:induction false} BindingFacts(log: Log, k: nat, id: string)
    requires LogFacts(log) && k <= |log|
    ensures Binding(log[..k], id) != "" ==> AuthorizedBefore(log, |log|, id, Binding(log[..k], id))
  {
    if k > 0 {
      var last := log[k - 1];
      assert log[..k][..k - 1] == log[..k - 1];
      if last.Binds(id) {
        BindsAfterRequest(log, k - 1, id);
        if last.ActionExecuting? { assert log[k - 2] == ActionAuthorized(id, last.capabilityID); }
        if last.ActionAuthorized? { assert log[k - 1] == ActionAuthorized(id, last.capabilityID); }
      } else if !last.Requests(id) {
        BindingFacts(log, k - 1, id);
      }
    }
  }

  lemma AllowedGrant(log: Log, n: nat, r: Request, now: Time)
    requires ValidLog(log) && n <= |log| && Verdict(log[..n], r, now).Allow?
    ensures var id := Verdict(log[..n], r, now).capabilityID;
            && id != "" && id in Grants(log[..n])
            && var g := Grants(log[..n])[id];
               g.maxUses.Some? ==> Uses(log[..n], id) < g.maxUses.value
  {
    if n > 0 {
      ValidPrefix(log, n);
      AllowMeaning(log[..n], r, now);
    }
  }

  lemma AuthorizedNonempty(log: Log, i: nat)
    requires LogFacts(log) && i < |log| && log[i].ActionAuthorized?
    ensures log[i].capabilityID != ""
  {
    hide Verdict;
    assert Justified(log, i);
    var now :| Verdict(log[..i - 1], log[i - 1].request, now) == Allow(log[i].capabilityID);
    AllowedGrant(log, i - 1, log[i - 1].request, now);
  }

  /** Binding is empty exactly for actions that were never authorized. */
  lemma {:induction false} UnboundFacts(log: Log, k: nat, id: string)
    requires LogFacts(log) && k <= |log| && Binding(log[..k], id) == ""
    ensures !Bound(log, k, id)
  {
    if k > 0 {
      var last := log[k - 1];
      assert log[..k][..k - 1] == log[..k - 1];
      if last.Requests(id) {
        if Bound(log, k, id) {
          var i :| 0 <= i < k && log[i].Binds(id);
          BindsAfterRequest(log, i, id);
        }
      } else {
        if last.Binds(id) {
          BindsAfterRequest(log, k - 1, id);
          AuthorizedNonempty(log, if last.ActionExecuting? then k - 2 else k - 1);
        }
        UnboundFacts(log, k - 1, id);
      }
    }
  }

  lemma RequestedNonempty(log: Log, i: nat)
    requires ValidLog(log) && i < |log| && log[i].ActionRequested?
    ensures ValidRequest(log[i].request)
  {
    ValidPrefix(log, i + 1);
    assert log[..i + 1][..i] == log[..i];
  }

  lemma {:induction false} DanglingOfFacts(log: Log, ids: seq<string>)
    requires LogFacts(log) && forall id <- ids :: id in RequestedIDs(log)
    ensures DanglingFacts(log, DanglingOf(log, ids))
  {
    if ids != [] {
      var id := ids[0];
      DanglingOfFacts(log, ids[1..]);
      assert log[..|log|] == log;
      RequestedIDsComplete(log, id);
      var i :| 0 <= i < |log| && log[i].Requests(id);
      RequestedNonempty(log, i);
      if Binding(log, id) == "" {
        UnboundFacts(log, |log|, id);
      } else {
        BindingFacts(log, |log|, id);
      }
    }
  }

  lemma DanglingFactsKept(log: Log, dangling: seq<Interrupted>, e: Event)
    requires DanglingFacts(log, dangling) && (e.ActionDenied? || e.ActionUnknown?)
    ensures DanglingFacts(log + [e], dangling)
  {
    var after := log + [e];
    RequestedIDsAppend(log, e);
    forall x | x in dangling
      ensures x.id != "" && x.id in RequestedIDs(after)
      ensures if x.capabilityID == "" then !Bound(after, |after|, x.id)
              else AuthorizedBefore(after, |after|, x.id, x.capabilityID)
    {
      if x.capabilityID == "" {
        BoundAppend(log, e, x.id);
      } else {
        var i :| 0 <= i < |log| && log[i] == ActionAuthorized(x.id, x.capabilityID);
        assert after[i] == log[i];
      }
    }
  }

  lemma CloseReady(log: Log, effects: seq<Effect>, th: Thread, ack: bool)
    requires ThreadFacts(log, effects, th) && th.Recovering? && th.n == |log| && th.dangling != []
    ensures Ready(log, effects, th, ClosingEvent(th.dangling[0]),
                  When(ack, Recovering(th.n + 1, th.dangling[1..])))
  {
    var x := th.dangling[0];
    var e := ClosingEvent(x);
    var after := log + [e];
    assert x in th.dangling && after[..|log|] == log;
    DanglingFactsKept(log, th.dangling[1..], e);
    if x.capabilityID == "" {
      BoundAppend(log, e, x.id);
    } else {
      var i :| 0 <= i < |log| && log[i] == ActionAuthorized(x.id, x.capabilityID);
      assert after[i] == ActionAuthorized(x.id, x.capabilityID);
    }
  }

  lemma InvFacts(s: System, t: nat)
    requires Inv(s) && t in s.threads
    ensures LogFacts(s.log) && EffectFacts(s.log, s.effects)
    ensures ThreadFacts(s.log, s.effects, s.threads[t])
  {
  }

  lemma ReadEventsKeeps(s: System, t: nat, r: Request, n: nat)
    requires Inv(s) && t in s.threads && s.threads[t] == Loaded(r, n)
    ensures Inv(ThreadMove(s, ReadEvents(t), t, Loaded(r, n)))
  {
    hide Inv, LogFacts, EffectFacts, Fresh;
    InvFacts(s, t);
    if Fresh(s.log, r) {
      PutKeeps(s, t, Vetted(r, n, s.log));
    } else {
      ForgetKeeps(s, t);
    }
  }

  lemma RegisterKeeps(s: System, t: nat, r: Request, n: nat, seen: Log, ack: bool)
    requires Inv(s) && t in s.threads && s.threads[t] == Vetted(r, n, seen)
    ensures Inv(ThreadMove(s, Register(t, ack), t, Vetted(r, n, seen)))
  {
    hide Inv, Ready, ThreadFacts, LogFacts, EffectFacts;
    var next := When(ack, Registered(r, n + 1, seen));
    InvFacts(s, t);
    if n == |s.log| { RegisterReady(s.log, s.effects, s.threads[t], ack); }
    AdvanceKeeps(s, t, n, ActionRequested(r), next);
  }

  lemma DecideKeeps(s: System, t: nat, r: Request, n: nat, seen: Log, now: Time, ack: bool)
    requires Inv(s) && t in s.threads && s.threads[t] == Registered(r, n, seen)
    ensures Inv(ThreadMove(s, Decide(t, now, ack), t, Registered(r, n, seen)))
  {
    hide Inv, Ready, ThreadFacts, LogFacts, EffectFacts, Verdict, Justified;
    var d := Verdict(seen, r, now);
    var next := When(ack && d.Allow?, Approved(r, n + 1, d.capabilityID));
    InvFacts(s, t);
    if n == |s.log| { DecideReady(s.log, s.effects, s.threads[t], now, ack); }
    AdvanceKeeps(s, t, n, DecisionEvent(r, d), next);
  }

  lemma StartKeeps(s: System, t: nat, r: Request, n: nat, c: string, ack: bool)
    requires Inv(s) && t in s.threads && s.threads[t] == Approved(r, n, c)
    ensures Inv(ThreadMove(s, Start(t, ack), t, Approved(r, n, c)))
  {
    hide Inv, Ready, ThreadFacts, LogFacts, EffectFacts;
    var next := When(ack, Started(r, n + 1, c));
    InvFacts(s, t);
    if n == |s.log| { StartReady(s.log, s.effects, s.threads[t], ack); }
    AdvanceKeeps(s, t, n, ActionExecuting(r.id, c), next);
  }

  lemma SettleKeeps(s: System, t: nat, r: Request, n: nat, c: string, outcome: DriverOutcome)
    requires Inv(s) && t in s.threads && s.threads[t] == Driven(r, n, c, outcome)
    ensures Inv(ThreadMove(s, Settle(t), t, Driven(r, n, c, outcome)))
  {
    hide Inv, Ready, ThreadFacts, LogFacts, EffectFacts;
    InvFacts(s, t);
    if n == |s.log| { SettleReady(s.log, s.effects, s.threads[t]); }
    AdvanceKeeps(s, t, n, Receipt(r, c, outcome), None);
  }

  lemma ScanKeeps(s: System, t: nat, n: nat)
    requires Inv(s) && t in s.threads && s.threads[t] == Listed(n)
    ensures Inv(ThreadMove(s, Scan(t), t, Listed(n)))
  {
    hide Inv, LogFacts, EffectFacts, DanglingFacts;
    InvFacts(s, t);
    DanglingOfFacts(s.log, RequestedIDs(s.log));
    PutKeeps(s, t, Recovering(n, Dangling(s.log)));
  }

  lemma CloseNextKeeps(s: System, t: nat, n: nat, dangling: seq<Interrupted>, ack: bool)
    requires Inv(s) && t in s.threads && s.threads[t] == Recovering(n, dangling)
    ensures Inv(ThreadMove(s, CloseNext(t, ack), t, Recovering(n, dangling)))
  {
    hide Inv, Ready, ThreadFacts, LogFacts, EffectFacts;
    if dangling == [] {
      ForgetKeeps(s, t);
    } else {
      var e, next := ClosingEvent(dangling[0]), When(ack, Recovering(n + 1, dangling[1..]));
      InvFacts(s, t);
      if n == |s.log| { CloseReady(s.log, s.effects, s.threads[t], ack); }
      AdvanceKeeps(s, t, n, e, next);
    }
  }

  lemma ThreadMoveKeeps(s: System, m: Move, t: nat, th: Thread)
    requires Inv(s) && t in s.threads && th == s.threads[t]
    ensures Inv(ThreadMove(s, m, t, th))
  {
    hide Inv, Advance, Drove, Verdict, Dangling, Fresh;
    match (m, th)
    case (ReadEvents(_), Loaded(r, n)) => ReadEventsKeeps(s, t, r, n);
    case (Register(_, ack), Vetted(r, n, seen)) => RegisterKeeps(s, t, r, n, seen, ack);
    case (Decide(_, now, ack), Registered(r, n, seen)) => DecideKeeps(s, t, r, n, seen, now, ack);
    case (Start(_, ack), Approved(r, n, c)) => StartKeeps(s, t, r, n, c, ack);
    case (Drive(_, outcome, touched), Started(_, _, _)) => DriveKeeps(s, t, outcome, touched);
    case (Settle(_), Driven(r, n, c, outcome)) => SettleKeeps(s, t, r, n, c, outcome);
    case (Scan(_), Listed(n)) => ScanKeeps(s, t, n);
    case (CloseNext(_, ack), Recovering(n, dangling)) => CloseNextKeeps(s, t, n, dangling, ack);
    case (Abandon(_), _) => ForgetKeeps(s, t);
    case _ =>
  }

  lemma PerformKeeps(s: System, m: Move)
    requires Inv(s)
    ensures Inv(Perform(s, m))
  {
    ReplaySequence(s.log);
    match m
    case Begin(t, r, expected) =>
      if BeginMove(s, t, r, expected) != s { PutKeeps(s, t, Loaded(r, expected)); }
    case List(t) => if Perform(s, m) != s { PutKeeps(s, t, Listed(|s.log|)); }
    case Environment(e) =>
      if !e.IsAction() && Append(s.log, |s.log|, e).Some? {
        AppendMeaning(s.log, |s.log|, e);
        Extend(s, e);
      }
    case Crash =>
    case _ => if m.t in s.threads { ThreadMoveKeeps(s, m, m.t, s.threads[m.t]); }
  }

  lemma {:induction false} RunKeeps(s: System, moves: seq<Move>)
    requires Init(s)
    ensures Inv(Run(s, moves))
  {
    if moves == [] {
      assert forall j: nat :: j < |s.log| ==> s.log[j] in s.log;
    } else {
      RunKeeps(s, moves[..|moves| - 1]);
      PerformKeeps(Run(s, moves[..|moves| - 1]), moves[|moves| - 1]);
    }
  }

  // ---- what every run guarantees ------------------------------------------------

  /** A state some sequence of moves leads to. */
  ghost predicate Reachable(s: System) {
    exists start, moves :: Init(start) && s == Run(start, moves)
  }

  lemma ReachableInv(s: System)
    requires Reachable(s)
    ensures Inv(s)
  {
    var start, moves :| Init(start) && s == Run(start, moves);
    RunKeeps(start, moves);
  }

  /** No two effects share an action ID or an idempotency key. */
  predicate OncePerAction(effects: seq<Effect>) {
    forall j, k :: 0 <= j < k < |effects| ==>
      && effects[j].request.id != effects[k].request.id
      && effects[j].request.idempotencyKey != effects[k].request.idempotencyKey
  }

  lemma InvOncePerAction(s: System)
    requires Inv(s)
    ensures OncePerAction(s.effects)
  {
    forall j, k | 0 <= j < k < |s.effects|
      ensures s.effects[j].request.id != s.effects[k].request.id
      ensures s.effects[j].request.idempotencyKey != s.effects[k].request.idempotencyKey
    {
      var a, b := s.effects[j], s.effects[k];
      assert Backed(s.log, a.request, a.capabilityID, a.at);
      assert Backed(s.log, b.request, b.capabilityID, b.at);
      assert s.log[a.at - 3].request == a.request && s.log[b.at - 3].request == b.request;
    }
  }

  /** At most one effect per action ID and per idempotency key, over every
      interleaving of executors, crashes and recoveries. */
  lemma AtMostOnce(s: System)
    requires Reachable(s)
    ensures OncePerAction(s.effects)
  {
    ReachableInv(s);
    InvOncePerAction(s);
  }

  lemma BackedIsAllowed(log: Log, effect: Effect)
    requires LogFacts(log) && Backed(log, effect.request, effect.capabilityID, effect.at)
    ensures Allowable(log[..effect.at - 3], effect.request, effect.capabilityID)
  {
    assert Justified(log, effect.at - 2);
    assert effect.at - 2 - 1 == effect.at - 3;
  }

  lemma OnlyDriveActs(s: System, m: Move)
    requires Perform(s, m).effects != s.effects
    ensures m.Drive? && m.t in s.threads && s.threads[m.t].Started?
    ensures var th := s.threads[m.t];
            Perform(s, m).effects == s.effects + [Effect(th.request, th.capabilityID, th.n)]
  {
  }

  /** A step that performs an effect finds the request, an authorization that
      really was due, and the execution marker already durable. */
  lemma EffectsAreAuthorized(s: System, m: Move)
    requires Reachable(s) && Perform(s, m).effects != s.effects
    ensures exists effect: Effect ::
              && Perform(s, m).effects == s.effects + [effect]
              && Backed(s.log, effect.request, effect.capabilityID, effect.at)
              && Allowable(s.log[..effect.at - 3], effect.request, effect.capabilityID)
  {
    ReachableInv(s);
    OnlyDriveActs(s, m);
    var th := s.threads[m.t];
    assert ThreadFacts(s.log, s.effects, th);
    BackedIsAllowed(s.log, Effect(th.request, th.capabilityID, th.n));
  }

  predicate Affected(s: System, id: string) {
    exists k :: 0 <= k < |s.effects| && s.effects[k].request.id == id
  }

  lemma CommittedHasEffect(s: System, j: nat)
    requires Inv(s) && j < |s.log| && s.log[j].ActionCommitted?
    ensures Affected(s, s.log[j].actionID)
  {
    assert HasEffectAt(s.effects, j) && Justified(s.log, j);
    var k :| 0 <= k < |s.effects| && s.effects[k].at == j;
    assert Backed(s.log, s.effects[k].request, s.effects[k].capabilityID, j);
    assert s.effects[k].request.id == s.log[j].actionID;
  }

  lemma RefusedHasNone(s: System, j: nat)
    requires Inv(s) && j < |s.log|
    requires s.log[j].ActionDenied? || s.log[j].ActionApprovalRequired? || s.log[j].ActionFailed?
    ensures !Affected(s, s.log[j].actionID)
  {
    var id := s.log[j].actionID;
    assert Justified(s.log, j);
    if k :| 0 <= k < |s.effects| && s.effects[k].request.id == id {
      var f := s.effects[k];
      assert Backed(s.log, f.request, f.capabilityID, f.at);
      if s.log[j].ActionFailed? {
        BindsAfterRequest(s.log, j - 1, id);
      } else {
        AuthorizedIsFinal(s.log, f.at - 2, j);
      }
    }
  }

  /** What committed, denied, approval required and failed say about the effect. */
  predicate Truthful(s: System) {
    forall j :: 0 <= j < |s.log| ==>
      && (s.log[j].ActionCommitted? ==> Affected(s, s.log[j].actionID))
      && (s.log[j].ActionDenied? || s.log[j].ActionApprovalRequired? || s.log[j].ActionFailed? ==>
            !Affected(s, s.log[j].actionID))
  }

  lemma InvTruthful(s: System)
    requires Inv(s)
    ensures Truthful(s)
  {
    hide Inv, Affected;
    forall j | 0 <= j < |s.log|
      ensures s.log[j].ActionCommitted? ==> Affected(s, s.log[j].actionID)
      ensures s.log[j].ActionDenied? || s.log[j].ActionApprovalRequired? || s.log[j].ActionFailed? ==>
                !Affected(s, s.log[j].actionID)
    {
      if s.log[j].ActionCommitted? { CommittedHasEffect(s, j); }
      if s.log[j].ActionDenied? || s.log[j].ActionApprovalRequired? || s.log[j].ActionFailed? {
        RefusedHasNone(s, j);
      }
    }
  }

  /** Receipts tell the truth about the effect. */
  lemma ReceiptsAreTruthful(s: System)
    requires Reachable(s)
    ensures Truthful(s)
  {
    ReachableInv(s);
    InvTruthful(s);
  }

  /** Once authorized, an action is never denied nor sent for approval,
      neither before nor after. */
  lemma AuthorizedIsFinal(log: Log, i: nat, j: nat)
    requires LogFacts(log) && i < |log| && j < |log|
    requires log[i].ActionAuthorized? && log[j].IsOutcome() && log[i].actionID == log[j].actionID
    ensures !log[j].ActionDenied? && !log[j].ActionApprovalRequired?
  {
    var id := log[i].actionID;
    BindsAfterRequest(log, i, id);
    assert Justified(log, j);
    RequestedIDsComplete(log[..j], id);
  }

  /** No action is both authorized and refused, in either order. */
  predicate AuthorizationsFinal(log: Log) {
    forall i, j :: 0 <= i < |log| && 0 <= j < |log| && log[i].ActionAuthorized?
                   && (log[j].ActionDenied? || log[j].ActionApprovalRequired?) ==>
      log[i].actionID != log[j].actionID
  }

  lemma FactsAuthorizationsFinal(log: Log)
    requires LogFacts(log)
    ensures AuthorizationsFinal(log)
  {
    forall i: nat, j: nat | i < |log| && j < |log| && log[i].ActionAuthorized?
                            && (log[j].ActionDenied? || log[j].ActionApprovalRequired?)
      ensures log[i].actionID != log[j].actionID
    {
      if log[i].actionID == log[j].actionID { AuthorizedIsFinal(log, i, j); }
    }
  }

  lemma NeverDeniedOnceAuthorized(s: System)
    requires Reachable(s)
    ensures AuthorizationsFinal(s.log)
  {
    ReachableInv(s);
    FactsAuthorizationsFinal(s.log);
  }

  /** No grant is authorized more often than its limit, at any prefix. */
  lemma {:induction false} UseBoundAt(log: Log, n: nat, id: string)
    requires LogFacts(log) && n <= |log| && id in Grants(log) && Grants(log)[id].maxUses.Some?
    ensures Uses(log[..n], id) <= Grants(log)[id].maxUses.value
  {
    if n > 0 {
      UseBoundAt(log, n - 1, id);
      var last := log[n - 1];
      assert log[..n][..n - 1] == log[..n - 1];
      if last.ActionAuthorized? && last.capabilityID == id { UseLeft(log, n - 1, id); }
    }
  }

  /** An authorization finds at least one use left. */
  lemma UseLeft(log: Log, j: nat, id: string)
    requires LogFacts(log) && j < |log| && log[j].ActionAuthorized? && log[j].capabilityID == id
    requires id in Grants(log) && Grants(log)[id].maxUses.Some?
    ensures Uses(log[..j], id) < Grants(log)[id].maxUses.value
  {
    assert Justified(log, j);
    var seen, r := log[..j - 1], log[j - 1].request;
    var now :| Verdict(seen, r, now) == Allow(id);
    assert log[..j][..j - 1] == seen;
    AllowedGrant(log, j - 1, r, now);
    GrantsPersist(log, j - 1, id);
  }

  predicate WithinUseLimits(log: Log) {
    forall id <- Grants(log) :: Grants(log)[id].maxUses.Some? ==> Uses(log, id) <= Grants(log)[id].maxUses.value
  }

  lemma FactsWithinUseLimits(log: Log)
    requires LogFacts(log)
    ensures WithinUseLimits(log)
  {
    assert log[..|log|] == log;
    forall id | id in Grants(log) && Grants(log)[id].maxUses.Some?
      ensures Uses(log, id) <= Grants(log)[id].maxUses.value
    {
      UseBoundAt(log, |log|, id);
    }
  }

  lemma UseBound(s: System)
    requires Reachable(s)
    ensures WithinUseLimits(s.log)
  {
    ReachableInv(s);
    FactsWithinUseLimits(s.log);
  }

  // ---- what a move leaves alone ---------------------------------------------------

  predicate Touches(m: Move, t: nat) { m.Crash? || (!m.Environment? && m.t == t) }

  lemma MoveAppends(s: System, m: Move)
    ensures s.log <= Perform(s, m).log && s.effects <= Perform(s, m).effects
  {
  }

  lemma MoveSpares(s: System, m: Move, t: nat)
    requires !Touches(m, t) && t in s.threads
    ensures t in Perform(s, m).threads && Perform(s, m).threads[t] == s.threads[t]
  {
  }

  /** Every event keeps the run's identity. */
  lemma {:induction false} RunIDKept(log: Log, more: Log)
    requires ValidLog(log) && ValidLog(more) && log <= more
    ensures Replay(more).value.runID == Replay(log).value.runID
    decreases |more|
  {
    if log != more {
      var init := more[..|more| - 1];
      ValidPrefix(more, |init|);
      RunIDKept(log, init);
    }
  }

  /** The reducer never refuses a well-formed outcome, in any run state. */
  lemma OutcomeAccepted(log: Log, e: Event)
    requires ValidLog(log) && e.IsOutcome() && e.actionID != ""
    requires e.capabilityID != "" || e.ActionDenied? || e.ActionApprovalRequired? || e.ActionAuthorized?
    ensures Append(log, |log|, e).Some?
  {
    ReplaySequence(log);
  }
}
