/** What Recover leaves behind (internal/kernel/broker/broker.go:59-110): the
    closing events of a log, and why they close it. */
module Recovery {
  import opened Text
  import opened ActionLog
  import opened BrokerProtocol

  function Closings(dangling: seq<Interrupted>): seq<Event> {
    if dangling == [] then [] else [ClosingEvent(dangling[0])] + Closings(dangling[1..])
  }

  /** A run after an undisturbed recovery; terminal runs are skipped. */
  function Recovered(s: System): System {
    if !ValidLog(s.log) || Terminal(Replay(s.log).value.state) then s
    else s.(log := s.log + Closings(Dangling(s.log)))
  }

  lemma {:induction false} ClosingsAt(dangling: seq<Interrupted>, k: nat)
    requires k < |dangling|
    ensures |Closings(dangling)| == |dangling| && Closings(dangling)[k] == ClosingEvent(dangling[k])
    decreases |dangling|
  {
    if k > 0 {
      ClosingsAt(dangling[1..], k - 1);
    } else if |dangling| > 1 {
      ClosingsAt(dangling[1..], 0);
    }
  }

  /** Closing actions removes exactly them from the pending set. */
  lemma {:induction false} ClosingsClear(log: Log, dangling: seq<Interrupted>, id: string)
    ensures Pending(log + Closings(dangling), id) <==> Pending(log, id) && forall x <- dangling :: x.id != id
    decreases |dangling|
  {
    hide Pending;
    if dangling == [] {
      assert log + Closings(dangling) == log;
    } else {
      var e := ClosingEvent(dangling[0]);
      ClosingsClear(log + [e], dangling[1..], id);
      PendingStep(log, e, id);
      assert log + Closings(dangling) == log + [e] + Closings(dangling[1..]);
    }
  }

  lemma {:induction false} DanglingMembers(log: Log, ids: seq<string>, x: Interrupted)
    ensures x in DanglingOf(log, ids) <==>
            x.id in ids && Pending(log, x.id) && x.capabilityID == Binding(log, x.id)
  {
    if ids != [] { DanglingMembers(log, ids[1..], x); }
  }

  predicate Distinct<T(==)>(s: seq<T>) {
    forall i, j :: 0 <= i < j < |s| ==> s[i] != s[j]
  }

  predicate DistinctIDs(dangling: seq<Interrupted>) {
    forall i, j :: 0 <= i < j < |dangling| ==> dangling[i].id != dangling[j].id
  }

  lemma {:induction false} RequestedIDsDistinct(log: Log)
    requires DistinctRequests(log)
    ensures Distinct(RequestedIDs(log))
  {
    if log != [] {
      var init, last := log[..|log| - 1], log[|log| - 1];
      RequestedIDsDistinct(init);
      if last.ActionRequested? {
        RequestedIDsComplete(init, last.request.id);
        assert forall i :: 0 <= i < |init| ==> !init[i].Requests(last.request.id) by {
          assert forall i :: 0 <= i < |init| ==> init[i] == log[i];
        }
      }
    }
  }

  lemma {:induction false} DanglingDistinct(log: Log, ids: seq<string>)
    requires Distinct(ids)
    ensures DistinctIDs(DanglingOf(log, ids))
  {
    if ids != [] {
      DanglingDistinct(log, ids[1..]);
      forall x | x in DanglingOf(log, ids[1..]) ensures x.id != ids[0] {
        DanglingMembers(log, ids[1..], x);
      }
    }
  }

  lemma {:induction false} NothingToDo(log: Log, ids: seq<string>)
    requires forall id :: !Pending(log, id)
    ensures DanglingOf(log, ids) == []
  {
    if ids != [] { NothingToDo(log, ids[1..]); }
  }

  /** Every pending action of a log the broker wrote appears once in the list. */
  lemma DanglingIsPending(log: Log, id: string)
    requires LogFacts(log)
    ensures Pending(log, id) <==> exists k :: 0 <= k < |Dangling(log)| && Dangling(log)[k].id == id
    ensures DistinctIDs(Dangling(log))
  {
    RequestedIDsDistinct(log);
    DanglingDistinct(log, RequestedIDs(log));
    if Pending(log, id) {
      RequestedIDsComplete(log, id);
      var x := Interrupted(id, Binding(log, id));
      DanglingMembers(log, RequestedIDs(log), x);
      var k :| 0 <= k < |Dangling(log)| && Dangling(log)[k] == x;
    }
    if k :| 0 <= k < |Dangling(log)| && Dangling(log)[k].id == id {
      DanglingMembers(log, RequestedIDs(log), Dangling(log)[k]);
    }
  }

  /** Recovery closure: afterwards nothing is pending, and a second recovery of
      the same log finds nothing to close. */
  lemma RecoveryCloses(log: Log)
    requires LogFacts(log)
    ensures forall id :: !Pending(log + Closings(Dangling(log)), id)
    ensures Dangling(log + Closings(Dangling(log))) == []
  {
    var after := log + Closings(Dangling(log));
    forall id ensures !Pending(after, id) {
      ClosingsClear(log, Dangling(log), id);
      DanglingIsPending(log, id);
    }
    NothingToDo(after, RequestedIDs(after));
  }

  /** A run that is not over has no pending action and nothing left to recover. */
  ghost predicate Closed(log: Log) {
    ValidLog(log) && !Terminal(Replay(log).value.state) ==>
      Dangling(log) == [] && forall id :: !Pending(log, id)
  }

  /** A recovered run is closed, and recovering it again changes nothing. */
  lemma RecoveredIsClosed(s: System)
    requires LogFacts(s.log) && ValidLog(s.log)
    ensures Closed(Recovered(s).log) && Recovered(Recovered(s)) == Recovered(s)
  {
    hide LogFacts, Replay, Pending, DanglingOf, RequestedIDs;
    if !Terminal(Replay(s.log).value.state) {
      RecoveryCloses(s.log);
      assert Recovered(s).log + [] == Recovered(s).log;
    }
  }

  /** Every action that was pending is closed by exactly one new event, which
      denies it when it was never authorized and calls it unknown otherwise. */
  lemma ClosedExactlyOnce(log: Log, id: string)
    requires LogFacts(log) && Pending(log, id)
    ensures var after := log + Closings(Dangling(log));
            exists k ::
              && |log| <= k < |after| && after[k].Closes(id)
              && (forall j :: |log| <= j < |after| && after[j].Closes(id) ==> j == k)
              && after[k] == (if Binding(log, id) == "" then ActionDenied(id, "")
                              else ActionUnknown(id, Binding(log, id)))
  {
    hide Pending, Binding, LogFacts, DanglingOf, RequestedIDs;
    var dangling := Dangling(log);
    var after := log + Closings(dangling);
    DanglingIsPending(log, id);
    var k :| 0 <= k < |dangling| && dangling[k].id == id;
    DanglingMembers(log, RequestedIDs(log), dangling[k]);
    ClosingsAt(dangling, k);
    forall j | |log| <= j < |after| && after[j].Closes(id) ensures j == |log| + k {
      ClosingsAt(dangling, j - |log|);
    }
    assert after[|log| + k] == ClosingEvent(dangling[k]);
  }

  /** No other action gets an event. */
  lemma OnlyPendingClosed(log: Log, j: nat)
    requires LogFacts(log) && j < |Closings(Dangling(log))|
    ensures Closings(Dangling(log))[j].IsOutcome() && Pending(log, Closings(Dangling(log))[j].actionID)
  {
    var dangling := Dangling(log);
    ClosingsLength(dangling);
    ClosingsAt(dangling, j);
    DanglingMembers(log, RequestedIDs(log), dangling[j]);
  }

  lemma {:induction false} ClosingsLength(dangling: seq<Interrupted>)
    ensures |Closings(dangling)| == |dangling|
  {
    if dangling != [] { ClosingsAt(dangling, 0); }
  }

  /** One closing event keeps the invariant and what is still to do, and the
      reducer accepts it. */
  lemma CloseOneKeeps(s: System, dangling: seq<Interrupted>)
    requires Inv(s) && s.threads == map[] && DanglingFacts(s.log, dangling) && dangling != []
    ensures var e := ClosingEvent(dangling[0]);
            && Append(s.log, |s.log|, e).Some?
            && Inv(s.(log := s.log + [e])) && DanglingFacts(s.log + [e], dangling[1..])
  {
    hide Inv, Ready, LogFacts, EffectFacts;
    var e := ClosingEvent(dangling[0]);
    assert dangling[0] in dangling;
    var th := Recovering(|s.log|, dangling);
    InvLog(s);
    OutcomeAccepted(s.log, e);
    CloseReady(s.log, s.effects, th, false);
    DanglingFactsKept(s.log, dangling[1..], e);
    AdvanceAlone(s, th, e);
  }

  lemma InvLog(s: System)
    requires Inv(s)
    ensures LogFacts(s.log) && ValidLog(s.log)
  {
  }

  lemma AdvanceAlone(s: System, th: Thread, e: Event)
    requires Inv(s) && s.threads == map[] && Ready(s.log, s.effects, th, e, None) && th.Recovering?
    requires Append(s.log, |s.log|, e).Some?
    ensures Inv(s.(log := s.log + [e]))
  {
    AppendMeaning(s.log, |s.log|, e);
    Extend(s, e);
  }

  /** The scan's empty binding means exactly: never authorized. */
  lemma UnboundIsUnauthorized(log: Log, id: string)
    requires LogFacts(log)
    ensures Binding(log, id) == "" <==>
            forall i :: 0 <= i < |log| && log[i].ActionAuthorized? ==> log[i].actionID != id
  {
    assert log[..|log|] == log;
    BindingFacts(log, |log|, id);
    if Binding(log, id) == "" {
      UnboundFacts(log, |log|, id);
      assert forall i :: 0 <= i < |log| && log[i].ActionAuthorized? && log[i].actionID == id ==> log[i].Binds(id);
    }
  }
}
