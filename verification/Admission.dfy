/** Exactly-once task admission (internal/kernel/api/admission.go:12-168,
    internal/kernel/admission/admission.go:87-125,
    internal/kernel/store/admission_store.go:58-284).

    The store inserts one row per namespace and idempotency key, atomically and
    only when absent. Any number of handlers run between a handler's steps, and
    an insert may be durable and still be reported as an error. */
module Admission {
  import opened Text

  /** A deadline as the caller wrote it: an instant and the zone it was given in. */
  datatype Deadline = Deadline(instant: int, zone: int)

  datatype Actor = Actor(id: string, kind: string, issuer: string, claimsDigest: string)

  /** legacy is the request version; authority stands for every other field. */
  datatype Request = Request(
    legacy: bool, idempotencyKey: string, transactionID: string, runtimeID: string, enforcementProfile: string,
    actor: Actor, deadline: Option<Deadline>, authority: string)

  type Key = (string, string)

  /** What the request digest covers. */
  datatype Material = Material(namespace: string, request: Request)

  function Normalized(r: Request): Request {
    r.(idempotencyKey := "", actor := r.actor.(claimsDigest := ""),
       deadline := match r.deadline case None => None case Some(d) => Some(Deadline(d.instant, 0)))
  }

  type Digest = Material -> string

  ghost predicate Injective(digest: Digest) {
    forall a, b {:trigger digest(a), digest(b)} :: digest(a) == digest(b) ==> a == b
  }

  /** ComputeRequestDigest */
  function RequestDigest(digest: Digest, namespace: string, r: Request): string {
    digest(Material(namespace, Normalized(r)))
  }

  /** Equal but for the idempotency key, the actor's claims and the deadline's zone. */
  predicate SameAdmission(a: Request, b: Request) {
    && a.legacy == b.legacy && a.transactionID == b.transactionID && a.runtimeID == b.runtimeID
    && a.enforcementProfile == b.enforcementProfile && a.authority == b.authority
    && a.actor.id == b.actor.id && a.actor.kind == b.actor.kind && a.actor.issuer == b.actor.issuer
    && a.deadline.Some? == b.deadline.Some?
    && (a.deadline.Some? ==> a.deadline.value.instant == b.deadline.value.instant)
  }

  lemma DigestMeaning(digest: Digest, namespace: string, a: Request, b: Request)
    requires Injective(digest)
    ensures RequestDigest(digest, namespace, a) == RequestDigest(digest, namespace, b) <==> SameAdmission(a, b)
  {
    var x, y := Material(namespace, Normalized(a)), Material(namespace, Normalized(b));
    assert digest(x) == digest(y) ==> x == y;
    if SameAdmission(a, b) { assert Normalized(a) == Normalized(b); }
  }

  datatype Result = Result(legacy: bool, idempotencyKey: string, transactionID: string, content: string)

  datatype Row = Row(requestDigest: string, result: Result)

  datatype Reply =
    | Created(result: Result)
    | Replayed(result: Result)
    | IdempotencyConflict
    | Refused
    | StoreFailed

  /** One call of admitTask and the policy and clock it meets. */
  datatype Attempt = Attempt(request: Request, known: bool, runtimeAllowed: bool, now: int)

  predicate Success(r: Reply) { r.Created? || r.Replayed? }

  /** Rows never change once written. */
  predicate Grows(before: map<Key, Row>, after: map<Key, Row>) {
    forall k <- before :: k in after && after[k] == before[k]
  }

  type Preparer = (string, Request, int) -> Option<Result>

  class AdmissionService {
    const digest: Digest
    const prepare: Preparer
    /** Whether the daemon has a runtime identity; then it admits no legacy request. */
    const configured: bool
    var rows: map<Key, Row>
    /** The keys of all inserts so far, in order. */
    ghost var insertions: seq<Key>

    ghost predicate Valid()
      reads this
    {
      && (forall k :: k in insertions <==> k in rows)
      && forall i, j :: 0 <= i < j < |insertions| ==> insertions[i] != insertions[j]
    }

    constructor (digest: Digest, prepare: Preparer, configured: bool, stored: map<Key, Row>, ghost order: seq<Key>)
      requires forall k :: k in order <==> k in stored
      requires forall i, j :: 0 <= i < j < |order| ==> order[i] != order[j]
      ensures Valid() && rows == stored && insertions == order
      ensures this.digest == digest && this.prepare == prepare && this.configured == configured
    {
      this.digest, this.prepare, this.configured := digest, prepare, configured;
      rows, insertions := stored, order;
    }

    /** store.AdmitTask: one transaction that inserts when the key is absent. Unless
        calm, it may fail, or insert and report a failure. */
    method AdmitTask(namespace: string, key: string, requestDigest: string, result: Result, calm: bool)
      returns (reply: Reply)
      requires Valid()
      modifies this
      ensures Valid() && Grows(old(rows), rows)
      ensures Success(reply) ==>
                && (namespace, key) in rows
                && rows[(namespace, key)] == Row(requestDigest, reply.result)
                && (reply.Created? <==> (namespace, key) !in old(rows))
                && (reply.Created? ==> reply.result == result)
      ensures reply.IdempotencyConflict? ==>
                (namespace, key) in old(rows) && old(rows)[(namespace, key)].requestDigest != requestDigest
      ensures !reply.Refused? && (calm ==> !reply.StoreFailed?)
      ensures (reply.Replayed? || reply.IdempotencyConflict? ==> rows == old(rows))
              && (reply.Created? ==> rows == old(rows)[(namespace, key) := Row(requestDigest, result)])
      ensures rows == old(rows) || rows == old(rows)[(namespace, key) := Row(requestDigest, result)]
    {
      var k := (namespace, key);
      if k in rows {
        if rows[k].requestDigest != requestDigest { return IdempotencyConflict; }
        return Replayed(rows[k].result);
      }
      var fault, lost := *, *;
      if calm { fault, lost := false, false; }
      if fault { return StoreFailed; }
      rows := rows[k := Row(requestDigest, result)];
      insertions := insertions + [k];
      if lost { return StoreFailed; }
      return Created(result);
    }

    /** Any number of steps of other handlers, none when it is calm. */
    method Interfere(calm: bool)
      requires Valid()
      modifies this
      ensures Valid() && Grows(old(rows), rows) && (calm ==> rows == old(rows))
    {
      var steps: nat := *;
      if calm { steps := 0; }
      while steps > 0
        invariant Valid() && Grows(old(rows), rows) && (calm ==> rows == old(rows))
      {
        var namespace: string, key: string, requestDigest: string, result: Result := *, *, *, *;
        var _ := AdmitTask(namespace, key, requestDigest, result, false);
        steps := steps - 1;
      }
    }

    /** The stored answer to a request, as both paths give it. */
    function Answer(row: Row, namespace: string, r: Request): Reply {
      if row.requestDigest == RequestDigest(digest, namespace, r) && (r.legacy && configured ==> row.result.legacy)
      then Replayed(row.result) else IdempotencyConflict
    }

    /** replayLegacyTaskAdmission: a legacy request is answered from a legacy row
        or not at all. */
    method ReplayLegacy(namespace: string, r: Request, known: bool, calm: bool) returns (reply: Reply)
      requires Valid() && r.legacy && configured
      modifies this
      ensures calm ==> rows == old(rows)
      ensures Valid() && Grows(old(rows), rows)
      ensures !known ==> reply == Refused && rows == old(rows)
      ensures known ==>
                var k := (namespace, r.idempotencyKey);
                reply == if k in rows then Answer(rows[k], namespace, r) else Refused
    {
      if !known { return Refused; }
      var k := (namespace, r.idempotencyKey);
      Interfere(calm);
      if k !in rows { return Refused; }
      if !rows[k].result.legacy { return IdempotencyConflict; }
      if rows[k].requestDigest != RequestDigest(digest, namespace, r) { return IdempotencyConflict; }
      return Replayed(rows[k].result);
    }

    /** admitTask. The index is consulted before policy and clock, so a retry is
        answered from the stored row whatever those say now; known says that the
        request names this runtime and its enforcement profile. */
    method Admit(namespace: string, r: Request, known: bool, runtimeAllowed: bool, now: int, calm: bool)
      returns (reply: Reply)
      requires Valid()
      modifies this
      ensures Valid() && Grows(old(rows), rows)
      ensures Success(reply) ==>
                var k := (namespace, r.idempotencyKey);
                && k in rows && rows[k] == Row(RequestDigest(digest, namespace, r), reply.result)
                && (r.legacy && configured ==> reply.result.legacy)
      ensures reply.Created? ==>
                && (namespace, r.idempotencyKey) !in old(rows)
                && !(r.legacy && configured) && runtimeAllowed && prepare(namespace, r, now) == Some(reply.result)
      ensures reply.Refused? && !(r.legacy && configured) ==> !known || !runtimeAllowed || prepare(namespace, r, now) == None
      ensures calm && known && runtimeAllowed && !(r.legacy && configured) && (namespace, r.idempotencyKey) !in old(rows)
              && prepare(namespace, r, now).Some? ==>
                var result := prepare(namespace, r, now).value;
                && reply == Created(result)
                && rows == old(rows)[(namespace, r.idempotencyKey) := Row(RequestDigest(digest, namespace, r), result)]
      ensures calm ==> !reply.StoreFailed? && (!reply.Created? ==> rows == old(rows))
      ensures calm && known && r.legacy && configured && (namespace, r.idempotencyKey) !in old(rows) ==> reply.Refused?
      ensures known && (namespace, r.idempotencyKey) in old(rows) ==>
                reply == Answer(old(rows)[(namespace, r.idempotencyKey)], namespace, r)
      ensures !known ==> reply.Refused? && rows == old(rows)
      ensures reply.IdempotencyConflict? ==>
                var k := (namespace, r.idempotencyKey);
                k in rows && (rows[k].requestDigest != RequestDigest(digest, namespace, r)
                              || (r.legacy && configured && !rows[k].result.legacy))
    {
      if r.legacy && configured {
        reply := ReplayLegacy(namespace, r, known, calm);
        return;
      }
      if !known { return Refused; }
      var requestDigest := RequestDigest(digest, namespace, r);
      var k := (namespace, r.idempotencyKey);
      Interfere(calm);
      if k in rows {
        if rows[k].requestDigest != requestDigest { return IdempotencyConflict; }
        return Replayed(rows[k].result);
      }
      if !runtimeAllowed { return Refused; }
      var prepared := prepare(namespace, r, now);
      if prepared.None? { return Refused; }
      Interfere(calm);
      reply := AdmitTask(namespace, r.idempotencyKey, requestDigest, prepared.value, calm);
    }

    /** What a reply says once an earlier attempt has succeeded. */
    predicate Follows(first: Attempt, later: Attempt, reply: Reply) {
      if !later.known then reply.Refused?
      else if SameAdmission(first.request, later.request) then Success(reply)
      else reply.IdempotencyConflict?
    }

    /** Retries of one key, under any interleaving, at any times, in either version
        and for any runtime: the key is inserted at most once, and every success
        carries the identical result. */
    method Retry(namespace: string, key: string, attempts: seq<Attempt>) returns (replies: seq<Reply>)
      requires Valid() && forall i :: 0 <= i < |attempts| ==> attempts[i].request.idempotencyKey == key
      modifies this
      ensures Valid() && |replies| == |attempts|
      ensures forall i :: 0 <= i < |replies| && Success(replies[i]) ==>
                attempts[i].known && (namespace, key) in rows
                && rows[(namespace, key)] == Row(RequestDigest(digest, namespace, attempts[i].request), replies[i].result)
      ensures forall i, j :: 0 <= i < j < |replies| && Success(replies[i]) && Success(replies[j]) ==>
                replies[i].result == replies[j].result && !replies[j].Created?
      ensures Injective(digest) ==>
                forall i, j :: 0 <= i < j < |replies| && Success(replies[i]) ==> Follows(attempts[i], attempts[j], replies[j])
    {
      hide RequestDigest, Injective;
      replies := [];
      for n := 0 to |attempts|
        invariant Valid() && |replies| == n
        invariant forall i :: 0 <= i < n && Success(replies[i]) ==>
                    attempts[i].known && (namespace, key) in rows
                    && rows[(namespace, key)] == Row(RequestDigest(digest, namespace, attempts[i].request), replies[i].result)
                    && (attempts[i].request.legacy && configured ==> replies[i].result.legacy)
        invariant forall i, j :: 0 <= i < j < n && Success(replies[i]) && Success(replies[j]) ==>
                    replies[i].result == replies[j].result && !replies[j].Created?
        invariant Injective(digest) ==>
                    forall i, j :: 0 <= i < j < n && Success(replies[i]) ==> Follows(attempts[i], attempts[j], replies[j])
      {
        var attempt := attempts[n];
        var reply := Admit(namespace, attempt.request, attempt.known, attempt.runtimeAllowed, attempt.now, false);
        if Injective(digest) {
          forall i | 0 <= i < n && Success(replies[i]) ensures Follows(attempts[i], attempt, reply) {
            DigestMeaning(digest, namespace, attempts[i].request, attempt.request);
          }
        }
        replies := replies + [reply];
      }
    }
  }
}
