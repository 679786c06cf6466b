/** The approval tables and the transactions of the approval service on them. */
module Approval {
  import opened Wrappers

  const GRACE_MS: int := 15_000
  const MIN_RETRY_MS: int := 1_000

  datatype Status = Pending | Approved | Rejected | Expired | Executed

  datatype Verdict = Approve | Reject

  datatype Policy = Policy(approvalsRequired: nat, forbidSelfApproval: bool, requireRejectionReason: bool)

  datatype Request = Request(
    policyId: string, actionType: string, requesterId: string, idempotencyKey: string, status: Status,
    createAt: int, updateAt: int, decidedAt: int, executedAt: int, expiresAt: int)

  datatype OutboxStatus = Waiting | Failed | Succeeded

  datatype Outbox = Outbox(status: OutboxStatus, attempts: nat, availableAt: int, createAt: int, updateAt: int)

  datatype Error = NotFound | Forbidden | SelfReview | AlreadyDecided | Invalid | ReviewCheckFailed

  /** The four tables; `posts` is the unique index on the approval request id of a created post. */
  datatype Tables = Tables(
    policies: map<string, Policy>,
    requests: map<string, Request>,
    decisions: map<(string, string), Verdict>,
    outbox: map<string, Outbox>,
    posts: map<string, string>)

  /** The protected actions: the only ones submitted, and the only ones the executor carries out. */
  predicate KnownAction(actionType: string) {
    actionType == "mcp.create_post" || actionType == "mcp.reply_to_thread"
  }

  /** Reviewers whose current decision on the request is to approve. */
  function Approvers(decisions: map<(string, string), Verdict>, requestId: string): set<string> {
    set k | k in decisions && k.0 == requestId && decisions[k] == Approve :: k.1
  }

  predicate Known(t: Tables, requestId: string) {
    requestId in t.requests && t.requests[requestId].policyId in t.policies
  }

  predicate ExpiredAt(r: Request, now: int) {
    r.expiresAt > 0 && r.expiresAt <= now
  }

  // ------------------------------------------------------------------ what each transaction does

  /** One vote by a permitted reviewer on a pending, unexpired request. */
  function Vote(t: Tables, requestId: string, reviewerId: string, verdict: Verdict, now: int): Tables
    requires Known(t, requestId)
  {
    var r := t.requests[requestId];
    var decisions := t.decisions[(requestId, reviewerId) := verdict];
    var quorum := |Approvers(decisions, requestId)| >= t.policies[r.policyId].approvalsRequired;
    var status := if verdict == Reject then Rejected else if quorum then Approved else Pending;
    t.(decisions := decisions,
    requests := t.requests[requestId :=
      r.(status := status, updateAt := now, decidedAt := if status == Pending then 0 else now)],
    outbox := if status == Approved && requestId !in t.outbox
              then t.outbox[requestId := Outbox(Waiting, 0, now + GRACE_MS, now, now)] else t.outbox)
  }

  function Expire(t: Tables, requestId: string, now: int): Tables
    requires requestId in t.requests
  {
    t.(requests := t.requests[requestId :=
      t.requests[requestId].(status := Expired, updateAt := now, decidedAt := now)])
  }

  /**
   * The checks of Decide in their order. `checkedAt` is the clock sample of the expiry test, `now` the
   * later sample that is stored; `review` is the answer of the reviewer authorizer, None its failure.
   */
  function DecideError(t: Tables, requestId: string, reviewerId: string, verdict: Option<Verdict>, hasReason: bool,
                       review: Option<bool>, checkedAt: int): Option<Error>
  {
    if verdict.None? then Some(Invalid)
    else if !Known(t, requestId) then Some(NotFound)
    else
      var r := t.requests[requestId];
      var p := t.policies[r.policyId];
      if r.status != Pending || ExpiredAt(r, checkedAt) then Some(AlreadyDecided)
      else if p.forbidSelfApproval && r.requesterId == reviewerId then Some(SelfReview)
      else if review.None? then Some(ReviewCheckFailed)
      else if !review.value then Some(Forbidden)
      else if verdict.value == Reject && !hasReason && p.requireRejectionReason then Some(Invalid)
      else None
  }

  function AfterDecide(t: Tables, requestId: string, reviewerId: string, verdict: Option<Verdict>, hasReason: bool,
                       review: Option<bool>, checkedAt: int, now: int): Tables
  {
    var error := DecideError(t, requestId, reviewerId, verdict, hasReason, review, checkedAt);
    if error.None? then Vote(t, requestId, reviewerId, verdict.value, now)
    else if verdict.Some? && Known(t, requestId) && t.requests[requestId].status == Pending
            && ExpiredAt(t.requests[requestId], checkedAt) then Expire(t, requestId, now)
    else t
  }

  function MarkError(t: Tables, requestId: string): Option<Error> {
    if requestId !in t.requests then Some(NotFound)
    else if t.requests[requestId].status == Approved || t.requests[requestId].status == Executed then None
    else Some(AlreadyDecided)
  }

  function AfterMark(t: Tables, requestId: string, now: int): Tables {
    if MarkError(t, requestId).Some? then t
    else
      var r := t.requests[requestId];
      t.(requests := if r.status == Approved
                     then t.requests[requestId := r.(status := Executed, executedAt := now, updateAt := now)] else t.requests,
      outbox := if requestId in t.outbox
                then t.outbox[requestId := t.outbox[requestId].(status := Succeeded, updateAt := now)] else t.outbox)
  }

  function AfterFailure(t: Tables, requestId: string, retryAfter: int, now: int): Tables {
    if requestId in t.outbox && t.outbox[requestId].status != Succeeded then
      var o := t.outbox[requestId];
      t.(outbox := t.outbox[requestId := o.(status := Failed, attempts := o.attempts + 1,
        availableAt := now + Max(retryAfter, MIN_RETRY_MS), updateAt := now)])
    else t
  }

  /** The request a repeated submission resolves to. */
  function Submitted(t: Tables, requesterId: string, actionType: string, key: string): set<string> {
    set id | id in t.requests && key != "" && t.requests[id].requesterId == requesterId
             && t.requests[id].actionType == actionType && t.requests[id].idempotencyKey == key
  }

  function AfterSubmit(t: Tables, freshId: string, policyId: string, requesterId: string, actionType: string,
                       key: string, expiresAfter: int, now: int): Tables
  {
    if Submitted(t, requesterId, actionType, key) != {} then t
    else t.(requests := t.requests[freshId := Request(policyId, actionType, requesterId, key, Pending, now, now, 0, 0,
        if expiresAfter > 0 then now + expiresAfter * 1000 else 0)])
  }

  /** The unique index makes the second creator read the first creator's post. */
  function AfterPost(t: Tables, requestId: string, freshPost: string): Tables {
    if requestId in t.posts then t else t.(posts := t.posts[requestId := freshPost])
  }

  // ------------------------------------------------------------------ recovery scan

  predicate Eligible(t: Tables, requestId: string, now: int) {
    && requestId in t.requests && t.requests[requestId].status == Approved
    && requestId in t.outbox && t.outbox[requestId].status != Succeeded && t.outbox[requestId].availableAt <= now
  }

  predicate ScansBefore(t: Tables, a: string, b: string)
    requires a in t.outbox && b in t.outbox
  {
    t.outbox[a].availableAt < t.outbox[b].availableAt ||
    (t.outbox[a].availableAt == t.outbox[b].availableAt && t.outbox[a].createAt <= t.outbox[b].createAt)
  }

  function EligibleRows(t: Tables, now: int): set<string> {
    set id | id in t.outbox && Eligible(t, id, now)
  }

  /** `ids` is a result of the scan: eligible rows only, nothing skipped, ties in any order. */
  ghost predicate IsScan(t: Tables, ids: seq<string>, now: int, limit: nat) {
    var rows := EligibleRows(t, now);
    && (forall i | 0 <= i < |ids| :: ids[i] in rows)
    && (forall i, j | 0 <= i < j < |ids| :: ids[i] != ids[j])
    && |ids| == Min(limit, |rows|)
    && (forall id, i | id in rows && id !in ids && 0 <= i < |ids| :: ScansBefore(t, ids[i], id))
  }

  function ClampLimit(limit: int): nat {
    if limit <= 0 || limit > 200 then 100 else limit
  }

  class ApprovalStore {
    var policies: map<string, Policy>
    var requests: map<string, Request>
    var decisions: map<(string, string), Verdict>
    var outbox: map<string, Outbox>
    var posts: map<string, string>

    function View(): Tables
      reads this
    {
      Tables(policies, requests, decisions, outbox, posts)
    }

    constructor (policies: map<string, Policy>)
      ensures View() == Tables(policies, map[], map[], map[], map[])
    {
      this.policies := policies;
      requests, decisions, outbox, posts := map[], map[], map[], map[];
    }

    method Submit(freshId: string, policyId: string, requesterId: string, actionType: string, key: string,
                  expiresAfterSeconds: int, now: int) returns (id: string)
      requires freshId !in requests
      modifies this
      ensures View() == AfterSubmit(old(View()), freshId, policyId, requesterId, actionType, key, expiresAfterSeconds, now)
      ensures id == freshId || id in Submitted(old(View()), requesterId, actionType, key)
      ensures id in requests
    {
      var existing := Submitted(View(), requesterId, actionType, key);
      if existing != {} {
        id :| id in existing;
        return;
      }
      var expiresAt := 0;
      if expiresAfterSeconds > 0 {
        expiresAt := now + expiresAfterSeconds * 1000;
      }
      requests := requests[freshId := Request(policyId, actionType, requesterId, key, Pending, now, now, 0, 0, expiresAt)];
      id := freshId;
    }

    method Decide(requestId: string, reviewerId: string, verdict: Option<Verdict>, hasReason: bool, review: Option<bool>,
                  checkedAt: int, now: int) returns (result: Result<Request, Error>)
      modifies this
      ensures View() == AfterDecide(old(View()), requestId, reviewerId, verdict, hasReason, review, checkedAt, now)
      ensures match DecideError(old(View()), requestId, reviewerId, verdict, hasReason, review, checkedAt)
              case Some(e) => result == Err(e)
              case None => requestId in requests && result == Ok(requests[requestId])
      ensures result.Ok? ==>
                requestId in old(requests) && old(requests)[requestId].status == Pending
                && (old(requests)[requestId].expiresAt <= 0 || checkedAt < old(requests)[requestId].expiresAt)
      ensures verdict.Some? && requestId in old(requests) && old(requests)[requestId].policyId in policies
              && old(requests)[requestId].status == Pending && 0 < old(requests)[requestId].expiresAt <= checkedAt ==>
                requestId in requests && requests[requestId].status == Expired && result == Err(AlreadyDecided)
    {
      if verdict.None? {
        return Err(Invalid);
      }
      if requestId !in requests || requests[requestId].policyId !in policies {
        return Err(NotFound);
      }
      var request := requests[requestId];
      var policy := policies[request.policyId];
      if request.status != Pending {
        return Err(AlreadyDecided);
      }
      if request.expiresAt > 0 && request.expiresAt <= checkedAt {
        requests := requests[requestId := request.(status := Expired, updateAt := now, decidedAt := now)];
        return Err(AlreadyDecided);
      }
      if policy.forbidSelfApproval && request.requesterId == reviewerId {
        return Err(SelfReview);
      }
      if review.None? {
        return Err(ReviewCheckFailed);
      }
      if !review.value {
        return Err(Forbidden);
      }
      if verdict.value == Reject && !hasReason && policy.requireRejectionReason {
        return Err(Invalid);
      }
      decisions := decisions[(requestId, reviewerId) := verdict.value];
      var status := Pending;
      if verdict.value == Reject {
        status := Rejected;
      } else if |Approvers(decisions, requestId)| >= policy.approvalsRequired {
        status := Approved;
      }
      var decidedAt := 0;
      if status != Pending {
        decidedAt := now;
      }
      request := request.(status := status, updateAt := now, decidedAt := decidedAt);
      requests := requests[requestId := request];
      if status == Approved && requestId !in outbox {
        outbox := outbox[requestId := Outbox(Waiting, 0, now + GRACE_MS, now, now)];
      }
      return Ok(request);
    }

    method MarkExecuted(requestId: string, now: int) returns (result: Result<Request, Error>)
      modifies this
      ensures View() == AfterMark(old(View()), requestId, now)
      ensures match MarkError(old(View()), requestId)
              case Some(e) => result == Err(e)
              case None => requestId in requests && result == Ok(requests[requestId])
    {
      if requestId in requests && requests[requestId].status == Approved {
        requests := requests[requestId := requests[requestId].(status := Executed, executedAt := now, updateAt := now)];
      } else {
        if requestId !in requests {
          return Err(NotFound);
        }
        if requests[requestId].status != Executed {
          return Err(AlreadyDecided);
        }
      }
      if requestId in outbox {
        outbox := outbox[requestId := outbox[requestId].(status := Succeeded, updateAt := now)];
      }
      return Ok(requests[requestId]);
    }

    method RecordExecutionFailure(requestId: string, retryAfter: int, now: int)
      modifies this
      ensures View() == AfterFailure(old(View()), requestId, retryAfter, now)
    {
      var wait := retryAfter;
      if wait < MIN_RETRY_MS {
        wait := MIN_RETRY_MS;
      }
      if requestId in outbox && outbox[requestId].status != Succeeded {
        var o := outbox[requestId];
        outbox := outbox[requestId := Outbox(Failed, o.attempts + 1, now + wait, o.createAt, now)];
      }
    }

    method PendingExecutions(now: int, limit: int) returns (ids: seq<string>)
      ensures IsScan(View(), ids, now, ClampLimit(limit))
    {
      var rows := EligibleRows(View(), now);
      var remaining := rows;
      ids := [];
      while |ids| < ClampLimit(limit) && remaining != {}
        invariant remaining <= rows && |ids| + |remaining| == |rows| && |ids| <= ClampLimit(limit)
        invariant forall i | 0 <= i < |ids| :: ids[i] in rows && ids[i] !in remaining
        invariant forall i, j | 0 <= i < j < |ids| :: ids[i] != ids[j]
        invariant forall id | id in rows && id !in remaining :: id in ids
        invariant forall id, i | id in remaining && 0 <= i < |ids| :: ScansBefore(View(), ids[i], id)
        decreases |remaining|
      {
        var first := Earliest(remaining);
        remaining := remaining - {first};
        ids := ids + [first];
      }
    }

    method Earliest(rows: set<string>) returns (first: string)
      requires rows != {} && rows <= outbox.Keys
      ensures first in rows && forall id | id in rows :: ScansBefore(View(), first, id)
    {
      first :| first in rows;
      var rest := rows - {first};
      while rest != {}
        invariant first in rows && rest <= rows
        invariant forall id | id in rows && id !in rest :: ScansBefore(View(), first, id)
        decreases |rest|
      {
        var id :| id in rest;
        rest := rest - {id};
        if !ScansBefore(View(), first, id) {
          first := id;
        }
      }
    }
  }
}
