/** Hash-chained, clock-monotone run events (internal/kernel/eventlog/event.go),
    the checks the reducer and the store make on them
    (internal/kernel/reducer/reducer.go:119-166, 376-428,
    internal/kernel/store/sqlite.go:359-395, 667-676), and the re-digest that
    follows a late policy decision (internal/kernel/broker/broker.go:278-289,
    internal/kernel/admission/admission.go:310-330).

    Digests are functions given from outside; only injectivity is used. */
module EventChain {
  import opened Text

  /** Everything an event's digest covers. */
  datatype Body<P> = Body(
    id: string,
    runID: string,
    sequence: int,
    created: bool,
    occurredAt: int,
    payload: P,
    policyDecisionID: string,
    previousDigest: string)

  datatype Event<P> = Event(body: Body<P>, digest: string)

  /** The part of the projection events are built from and checked against. */
  datatype Head = Head(runID: string, sequence: int, updatedAt: int, lastDigest: string)

  function HeadOf<P>(e: Event<P>): Head {
    Head(e.body.runID, e.body.sequence, e.body.occurredAt, e.digest)
  }

  type Digest<!P> = Body<P> -> string

  ghost predicate Injective<P(!new)>(digest: Digest<P>) {
    forall a, b {:trigger digest(a), digest(b)} :: digest(a) == digest(b) ==> a == b
  }

  /** eventlog.ID; runHash stands for the truncated hash of the run ID. */
  function ID(runHash: string, sequence: nat): string {
    "event:" + runHash + ":" + Decimal(sequence)
  }

  /** eventlog.Next: the clock may run backwards, the event's time may not. */
  function Next<P>(digest: Digest<P>, runHash: string, head: Head, now: int, payload: P): Event<P>
    requires 0 <= head.sequence
  {
    var occurredAt := if now < head.updatedAt then head.updatedAt else now;
    var sequence := head.sequence + 1;
    var body := Body(ID(runHash, sequence), head.runID, sequence, false, occurredAt, payload, "", head.lastDigest);
    Event(body, digest(body))
  }

  /** The broker's append: a policy decision is added after Next, so the digest
      is computed again. */
  function Build<P>(digest: Digest<P>, runHash: string, head: Head, now: int, payload: P, decision: string): Event<P>
    requires 0 <= head.sequence
  {
    var e := Next(digest, runHash, head, now, payload);
    if decision == "" then e
    else
      var body := e.body.(policyDecisionID := decision);
      Event(body, digest(body))
  }

  /** createRunEvent */
  function Create<P>(digest: Digest<P>, runHash: string, runID: string, now: int, payload: P): Event<P> {
    var body := Body(ID(runHash, 1), runID, 1, true, now, payload, "", "");
    Event(body, digest(body))
  }

  /** The store's digest check and the reducer's chain checks. */
  predicate Accepts<P>(digest: Digest<P>, head: Head, e: Event<P>) {
    && e.digest == digest(e.body)
    && e.body.runID == head.runID
    && e.body.sequence == head.sequence + 1
    && e.body.previousDigest == head.lastDigest
    && e.body.occurredAt >= head.updatedAt
    && !e.body.created
  }

  predicate AcceptsFirst<P>(digest: Digest<P>, e: Event<P>) {
    e.digest == digest(e.body) && e.body.sequence == 1 && e.body.created && e.body.previousDigest == ""
  }

  /** A history the store holds: every event was accepted on top of the last. */
  predicate Accepted<P>(digest: Digest<P>, log: seq<Event<P>>) {
    if log == [] then false
    else if |log| == 1 then AcceptsFirst(digest, log[0])
    else Accepted(digest, log[..|log| - 1])
         && Accepts(digest, HeadOf(log[|log| - 2]), log[|log| - 1])
  }

  /** Event i carries the next sequence and the digest of the event before it. */
  predicate Linked<P>(digest: Digest<P>, log: seq<Event<P>>, i: nat)
    requires i < |log|
  {
    && log[i].body.sequence == i + 1
    && log[i].body.runID == log[0].body.runID
    && log[i].digest == digest(log[i].body)
    && (log[i].body.created <==> i == 0)
    && log[i].body.previousDigest == (if i == 0 then "" else log[i - 1].digest)
  }

  /** Acceptance, stated about positions. */
  predicate Chained<P>(digest: Digest<P>, log: seq<Event<P>>) {
    && log != []
    && (forall i: nat :: i < |log| ==> Linked(digest, log, i))
    && (forall i, j :: 0 <= i < j < |log| ==> log[i].body.occurredAt <= log[j].body.occurredAt)
  }

  lemma ChainedStep<P>(digest: Digest<P>, init: seq<Event<P>>, last: Event<P>)
    requires init != []
    ensures Chained(digest, init + [last]) <==>
            Chained(digest, init) && Accepts(digest, HeadOf(init[|init| - 1]), last)
  {
    var log := init + [last];
    forall i: nat | i < |init| ensures Linked(digest, init, i) <==> Linked(digest, log, i) {}
    if Chained(digest, log) {
      assert Linked(digest, log, |init|) && Linked(digest, log, |init| - 1);
      assert log[|init| - 1].body.occurredAt <= log[|init|].body.occurredAt;
      forall i: nat | i < |init| ensures Linked(digest, init, i) { assert Linked(digest, log, i); }
      forall i, j | 0 <= i < j < |init| ensures init[i].body.occurredAt <= init[j].body.occurredAt {
        assert log[i].body.occurredAt <= log[j].body.occurredAt;
      }
    }
    if Chained(digest, init) && Accepts(digest, HeadOf(init[|init| - 1]), last) {
      assert Linked(digest, init, |init| - 1);
      assert Linked(digest, log, |init|);
      forall i, j | 0 <= i < j < |log| ensures log[i].body.occurredAt <= log[j].body.occurredAt {
        if j == |init| && i < |init| - 1 {
          assert init[i].body.occurredAt <= init[|init| - 1].body.occurredAt;
        }
      }
    }
  }

  lemma {:induction false} AcceptedIsChained<P>(digest: Digest<P>, log: seq<Event<P>>)
    ensures Accepted(digest, log) <==> Chained(digest, log)
  {
    if |log| > 1 {
      var init, last := log[..|log| - 1], log[|log| - 1];
      AcceptedIsChained(digest, init);
      ChainedStep(digest, init, last);
      assert log == init + [last] && init[|init| - 1] == log[|log| - 2];
    } else if |log| == 1 {
      if AcceptsFirst(digest, log[0]) { assert Linked(digest, log, 0); }
      if Chained(digest, log) { assert Linked(digest, log, 0); }
    }
  }

  lemma LastLinked<P>(digest: Digest<P>, log: seq<Event<P>>)
    requires Accepted(digest, log)
    ensures Linked(digest, log, |log| - 1) && log[|log| - 1].body.sequence == |log|
  {
    AcceptedIsChained(digest, log);
    assert Linked(digest, log, |log| - 1);
  }

  /** What was requested of a growing history. */
  datatype Entry<P> = Entry(now: int, payload: P, decision: string)

  function Grow<P>(digest: Digest<P>, runHash: string, first: Event<P>, entries: seq<Entry<P>>): (log: seq<Event<P>>)
    requires AcceptsFirst(digest, first)
    ensures |log| == |entries| + 1 && Accepted(digest, log)
  {
    if entries == [] then [first]
    else
      var log := Grow(digest, runHash, first, entries[..|entries| - 1]);
      var entry := entries[|entries| - 1];
      LastLinked(digest, log);
      log + [Build(digest, runHash, HeadOf(log[|log| - 1]), entry.now, entry.payload, entry.decision)]
  }

  /** An event built on the current head is accepted whatever the clock says,
      with or without a policy decision, and its time is the later of the two. */
  lemma BuiltIsAccepted<P>(
    digest: Digest<P>, runHash: string, log: seq<Event<P>>, now: int, payload: P, decision: string)
    requires Accepted(digest, log)
    ensures 0 <= HeadOf(log[|log| - 1]).sequence
    ensures var head := HeadOf(log[|log| - 1]);
            var e := Build(digest, runHash, head, now, payload, decision);
            && Accepts(digest, head, e) && Accepted(digest, log + [e])
            && e.body.payload == payload && e.body.policyDecisionID == decision
            && e.body.occurredAt >= now && e.body.occurredAt in {now, head.updatedAt}
  {
    LastLinked(digest, log);
    var e := Build(digest, runHash, HeadOf(log[|log| - 1]), now, payload, decision);
    assert (log + [e])[..|log|] == log;
  }

  /** Setting the decision without computing the digest again is refused. */
  lemma StaleDigestRefused<P(!new)>(digest: Digest<P>, runHash: string, head: Head, now: int, payload: P, decision: string)
    requires Injective(digest) && 0 <= head.sequence
    ensures var e := Next(digest, runHash, head, now, payload);
            Accepts(digest, head, Event(e.body.(policyDecisionID := decision), e.digest)) <==> decision == ""
  {
    var e := Next(digest, runHash, head, now, payload);
    assert digest(e.body.(policyDecisionID := decision)) == digest(e.body)
           ==> e.body.(policyDecisionID := decision) == e.body;
  }

  lemma IDInjective(runHash: string, m: nat, n: nat)
    requires ID(runHash, m) == ID(runHash, n)
    ensures m == n
  {
    var prefix := "event:" + runHash + ":";
    assert ID(runHash, m)[|prefix|..] == Decimal(m) && ID(runHash, n)[|prefix|..] == Decimal(n);
    DecimalInjective(m, n);
  }

  lemma {:induction false} GrownIDs<P>(
    digest: Digest<P>, runHash: string, first: Event<P>, entries: seq<Entry<P>>, i: nat)
    requires AcceptsFirst(digest, first) && first.body.id == ID(runHash, 1) && i <= |entries|
    ensures Grow(digest, runHash, first, entries)[i].body.id == ID(runHash, i + 1)
  {
    if entries != [] {
      var init := entries[..|entries| - 1];
      var log := Grow(digest, runHash, first, init);
      if i < |entries| {
        GrownIDs(digest, runHash, first, init, i);
      } else {
        LastLinked(digest, log);
      }
    }
  }

  /** A history grown only through Next has contiguous sequences, unique IDs,
      times that never go back and linked, verified digests. */
  lemma GrownIsChained<P>(
    digest: Digest<P>, runHash: string, runID: string, now: int, payload: P, entries: seq<Entry<P>>)
    ensures var log := Grow(digest, runHash, Create(digest, runHash, runID, now, payload), entries);
            && Chained(digest, log)
            && forall i, j :: 0 <= i < j < |log| ==> log[i].body.id != log[j].body.id
  {
    var first := Create(digest, runHash, runID, now, payload);
    var log := Grow(digest, runHash, first, entries);
    AcceptedIsChained(digest, log);
    forall i, j | 0 <= i < j < |log| ensures log[i].body.id != log[j].body.id {
      GrownIDs(digest, runHash, first, entries, i);
      GrownIDs(digest, runHash, first, entries, j);
      if log[i].body.id == log[j].body.id { IDInjective(runHash, i + 1, j + 1); }
    }
  }

  lemma SameBody<P(!new)>(digest: Digest<P>, a: Body<P>, b: Body<P>)
    requires Injective(digest) && digest(a) == digest(b)
    ensures a == b
  {
  }

  /** What the last event says about the history below it. */
  lemma LastOf<P>(digest: Digest<P>, log: seq<Event<P>>)
    requires Accepted(digest, log)
    ensures var last := log[|log| - 1];
            && last.digest == digest(last.body) && last.body.sequence == |log|
            && (|log| > 1 ==> Accepted(digest, log[..|log| - 1])
                              && last.body.previousDigest == log[..|log| - 1][|log| - 2].digest)
  {
    LastLinked(digest, log);
  }

  /** The head digest determines the whole history. */
  lemma {:induction false} HeadDeterminesLog<P(!new)>(digest: Digest<P>, a: seq<Event<P>>, b: seq<Event<P>>)
    requires Injective(digest) && Accepted(digest, a) && Accepted(digest, b)
    requires a != [] && b != [] && a[|a| - 1].digest == b[|b| - 1].digest
    ensures a == b
    decreases |a|
  {
    hide Injective, Accepted, Linked;
    LastOf(digest, a);
    LastOf(digest, b);
    SameBody(digest, a[|a| - 1].body, b[|b| - 1].body);
    assert |a| == |b|;
    if |a| > 1 { HeadDeterminesLog(digest, a[..|a| - 1], b[..|b| - 1]); }
    assert a == a[..|a| - 1] + [a[|a| - 1]] && b == b[..|b| - 1] + [b[|b| - 1]];
  }

  /** Hence a store that keeps the head notices any change below it: altering,
      dropping or reordering events either breaks acceptance or moves the head. */
  lemma TamperingShows<P(!new)>(digest: Digest<P>, log: seq<Event<P>>, other: seq<Event<P>>)
    requires Injective(digest) && Accepted(digest, log) && other != log && other != []
    ensures !Accepted(digest, other) || other[|other| - 1].digest != log[|log| - 1].digest
  {
    if Accepted(digest, other) && other[|other| - 1].digest == log[|log| - 1].digest {
      HeadDeterminesLog(digest, log, other);
    }
  }
}
