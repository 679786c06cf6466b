/** What the approval service answers and stores, said in plain columns and numbers of its tables. */
module ApprovalOutcomes {
  import opened Wrappers
  import opened Approval
  import opened ApprovalRuns

  // ------------------------------------------------------------------ submitting

  /**
   * A submission under a key that its requester already used for the action changes nothing; any other adds one pending
   * request. It expires the given number of seconds after its creation, or never.
   */
  lemma SubmitOutcome(t: Tables, freshId: string, policyId: string, requesterId: string, actionType: string, key: string,
                      seconds: int, now: int, id: string)
    requires freshId !in t.requests
    ensures var t' := AfterSubmit(t, freshId, policyId, requesterId, actionType, key, seconds, now);
            var repeated := key != "" && exists r :: r in t.requests && t.requests[r].requesterId == requesterId
                                                     && t.requests[r].actionType == actionType && t.requests[r].idempotencyKey == key;
            && (repeated ==> t' == t)
            && (!repeated ==> freshId in t'.requests)
            && (id in t.requests ==> id in t'.requests && t'.requests[id] == t.requests[id])
            && (id in t'.requests && id !in t.requests ==>
                  var r := t'.requests[id];
                  && id == freshId && r.status == Pending && r.requesterId == requesterId && r.policyId == policyId
                  && r.actionType == actionType && r.idempotencyKey == key && r.createAt == now && r.updateAt == now
                  && r.decidedAt == 0 && r.executedAt == 0
                  && (r.expiresAt == 0 <==> seconds <= 0 || now + 1000 * seconds == 0)
                  && (seconds > 0 ==> r.expiresAt == now + 1000 * seconds))
            && t'.decisions == t.decisions && t'.outbox == t.outbox && t'.posts == t.posts
  {
    if key != "" && exists r :: r in t.requests && t.requests[r].requesterId == requesterId
                                && t.requests[r].actionType == actionType && t.requests[r].idempotencyKey == key {
      var r :| r in t.requests && t.requests[r].requesterId == requesterId
               && t.requests[r].actionType == actionType && t.requests[r].idempotencyKey == key;
      assert r in Submitted(t, requesterId, actionType, key);
    }
  }

  // ------------------------------------------------------------------ deciding

  /** The request and its policy exist. */
  predicate Exists(t: Tables, id: string) {
    id in t.requests && t.requests[id].policyId in t.policies
  }

  /** Time is up for the request at `now`: it has an expiry and the expiry is not in the future. */
  predicate TimeIsUp(t: Tables, id: string, now: int) {
    id in t.requests && 0 < t.requests[id].expiresAt <= now
  }

  predicate SelfReviewForbidden(t: Tables, id: string, reviewerId: string) {
    Exists(t, id) && t.policies[t.requests[id].policyId].forbidSelfApproval && t.requests[id].requesterId == reviewerId
  }

  predicate ReasonMissing(t: Tables, id: string, verdict: Verdict, hasReason: bool) {
    Exists(t, id) && verdict == Reject && !hasReason && t.policies[t.requests[id].policyId].requireRejectionReason
  }

  /** Exactly when a decision is accepted, and exactly when each error is answered. */
  lemma DecisionAnswers(t: Tables, id: string, reviewerId: string, verdict: Verdict, hasReason: bool, review: Option<bool>, checkedAt: int)
    ensures var e := DecideError(t, id, reviewerId, Some(verdict), hasReason, review, checkedAt);
            var open := Exists(t, id) && t.requests[id].status == Pending && !TimeIsUp(t, id, checkedAt);
            && (e == Some(NotFound) <==> !Exists(t, id))
            && (e == Some(AlreadyDecided) <==> Exists(t, id) && !open)
            && (e == Some(SelfReview) <==> open && SelfReviewForbidden(t, id, reviewerId))
            && (e == Some(ReviewCheckFailed) <==> open && !SelfReviewForbidden(t, id, reviewerId) && review == None)
            && (e == Some(Forbidden) <==> open && !SelfReviewForbidden(t, id, reviewerId) && review == Some(false))
            && (e == Some(Invalid) <==> open && !SelfReviewForbidden(t, id, reviewerId) && review == Some(true)
                                        && ReasonMissing(t, id, verdict, hasReason))
            && (e == None <==> open && !SelfReviewForbidden(t, id, reviewerId) && review == Some(true)
                               && !ReasonMissing(t, id, verdict, hasReason))
    ensures DecideError(t, id, reviewerId, None, hasReason, review, checkedAt) == Some(Invalid)
  {
  }

  /** A decision on a pending request whose time is up only marks it expired. */
  lemma LateDecisionExpires(t: Tables, id: string, reviewerId: string, verdict: Verdict, hasReason: bool, review: Option<bool>,
                            checkedAt: int, now: int)
    requires Exists(t, id) && t.requests[id].status == Pending && 0 < t.requests[id].expiresAt <= checkedAt
    ensures var t' := AfterDecide(t, id, reviewerId, Some(verdict), hasReason, review, checkedAt, now);
            && id in t'.requests
            && t'.requests[id] == t.requests[id].(status := Expired, updateAt := now, decidedAt := now)
            && t' == t.(requests := t'.requests) && (forall other | other != id && other in t.requests ::
                                                       other in t'.requests && t'.requests[other] == t.requests[other])
            && DecideError(t, id, reviewerId, Some(verdict), hasReason, review, checkedAt) == Some(AlreadyDecided)
  {
  }

  /** Any other refused decision changes nothing. */
  lemma RefusedDecisionChangesNothing(t: Tables, id: string, reviewerId: string, verdict: Option<Verdict>, hasReason: bool,
                                      review: Option<bool>, checkedAt: int, now: int)
    requires DecideError(t, id, reviewerId, verdict, hasReason, review, checkedAt).Some?
    requires !(verdict.Some? && Exists(t, id) && t.requests[id].status == Pending && TimeIsUp(t, id, checkedAt))
    ensures AfterDecide(t, id, reviewerId, verdict, hasReason, review, checkedAt, now) == t
  {
  }

  /**
   * An accepted decision is recorded once per reviewer. A rejection rejects; an approval approves exactly if the distinct
   * approving reviewers, with this one, reach the required number, and then holds the execution back by 15 seconds.
   */
  lemma AcceptedDecision(t: Tables, id: string, reviewerId: string, verdict: Verdict, hasReason: bool, review: Option<bool>,
                         checkedAt: int, now: int)
    requires DecideError(t, id, reviewerId, Some(verdict), hasReason, review, checkedAt) == None
    ensures var t' := AfterDecide(t, id, reviewerId, Some(verdict), hasReason, review, checkedAt, now);
            && Exists(t, id) && id in t'.requests && t'.decisions == t.decisions[(id, reviewerId) := verdict]
            && var approving := (set k | k in t.decisions && k.0 == id && t.decisions[k] == Approve :: k.1) + {reviewerId};
               var r, r', required := t.requests[id], t'.requests[id], t.policies[t.requests[id].policyId].approvalsRequired;
               && (r'.status == Rejected <==> verdict == Reject)
               && (r'.status == Approved <==> verdict == Approve && |approving| >= required)
               && (r'.status == Pending <==> verdict == Approve && |approving| < required)
               && r'.updateAt == now && r'.decidedAt == (if r'.status == Pending then 0 else now)
               && r'.expiresAt == r.expiresAt && r'.requesterId == r.requesterId && r'.createAt == r.createAt
               && (r'.status == Approved && id !in t.outbox ==>
                     id in t'.outbox && t'.outbox[id] == Outbox(Waiting, 0, now + 15_000, now, now))
               && (r'.status != Approved || id in t.outbox ==> t'.outbox == t.outbox)
               && t'.posts == t.posts
  {
    if verdict == Approve {
      ApproveAdds(t.decisions, id, reviewerId, id);
    }
  }

  /** Over every run: an approving decision read its first clock before the expiry of the request, if there is one. */
  lemma ApprovedInTime(s: System, steps: seq<Step>, id: string) returns (i: nat)
    requires (id in s.t.requests ==> s.t.requests[id].status == Pending)
    requires id in Exec(s, steps).t.requests
    requires Exec(s, steps).t.requests[id].status == Approved || Exec(s, steps).t.requests[id].status == Executed
    ensures i < |steps| && steps[i].DecideRequest? && steps[i].requestId == id
    ensures var r := Exec(s, steps).t.requests[id];
            (r.expiresAt <= 0 || steps[i].checkedAt < r.expiresAt) && r.decidedAt == steps[i].now
  {
    i := ApprovalBeforeExpiry(s, steps, id);
  }

  // ------------------------------------------------------------------ executing

  /** Closing a request after its side effect: approved becomes executed, executed stays, anything else is an error. */
  lemma MarkOutcome(t: Tables, id: string, now: int, other: string)
    ensures MarkError(t, id) == Some(NotFound) <==> id !in t.requests
    ensures MarkError(t, id) == Some(AlreadyDecided) <==>
              id in t.requests && t.requests[id].status != Approved && t.requests[id].status != Executed
    ensures MarkError(t, id).Some? ==> AfterMark(t, id, now) == t
    ensures MarkError(t, id).None? ==>
              var t' := AfterMark(t, id, now);
              && id in t.requests && id in t'.requests && t'.requests[id].status == Executed
              && (t.requests[id].status == Approved ==>
                    t'.requests[id] == t.requests[id].(status := Executed, executedAt := now, updateAt := now))
              && (t.requests[id].status == Executed ==> t'.requests[id] == t.requests[id])
              && (id in t.outbox ==> id in t'.outbox && t'.outbox[id] == t.outbox[id].(status := Succeeded, updateAt := now))
              && (id !in t.outbox ==> t'.outbox == t.outbox)
              && (other != id && other in t.requests ==> other in t'.requests && t'.requests[other] == t.requests[other])
              && (other != id && other in t.outbox ==> other in t'.outbox && t'.outbox[other] == t.outbox[other])
              && t'.decisions == t.decisions && t'.posts == t.posts
  {
  }

  /** A recorded failure puts an unfinished execution off by the given time, at least a second, and counts it. */
  lemma FailureOutcome(t: Tables, id: string, retryAfter: int, now: int)
    ensures var t' := AfterFailure(t, id, retryAfter, now);
            && (id in t.outbox && t.outbox[id].status != Succeeded ==>
                  && t'.requests == t.requests && t'.decisions == t.decisions && t'.posts == t.posts
                  && id in t'.outbox && t'.outbox == t.outbox[id := t'.outbox[id]]
                  && t'.outbox[id].status == Failed && t'.outbox[id].attempts == t.outbox[id].attempts + 1
                  && t'.outbox[id].availableAt == now + (if retryAfter < 1000 then 1000 else retryAfter)
                  && t'.outbox[id].updateAt == now && t'.outbox[id].createAt == t.outbox[id].createAt)
            && (!(id in t.outbox && t.outbox[id].status != Succeeded) ==> t' == t)
  {
  }

  /** One post per request: the first one made stays. */
  lemma PostOutcome(t: Tables, id: string, post: string)
    ensures var t' := AfterPost(t, id, post);
            && id in t'.posts && t'.posts[id] == (if id in t.posts then t.posts[id] else post)
            && t' == t.(posts := t.posts[id := t'.posts[id]])
  {
    assert id in t.posts ==> t.posts == t.posts[id := t.posts[id]];
  }

  // ------------------------------------------------------------------ scanning

  /** Approved, with an outbox row that has not succeeded and whose time has come. */
  predicate AwaitsExecution(t: Tables, id: string, now: int) {
    && id in t.requests && t.requests[id].status == Approved
    && id in t.outbox && (t.outbox[id].status == Waiting || t.outbox[id].status == Failed) && t.outbox[id].availableAt <= now
  }

  /**
   * A scan lists only requests that await execution, none twice, by available time and then age; and it lists every such
   * request unless it is full of requests that come no later.
   */
  lemma ScanOutcome(t: Tables, ids: seq<string>, now: int, limit: nat, id: string)
    requires IsScan(t, ids, now, limit)
    ensures |ids| <= limit && (id in ids ==> AwaitsExecution(t, id, now))
    ensures AwaitsExecution(t, id, now) && id !in ids ==>
              |ids| == limit && forall i | 0 <= i < |ids| ::
                ids[i] in t.outbox && (t.outbox[ids[i]].availableAt < t.outbox[id].availableAt ||
                  (t.outbox[ids[i]].availableAt == t.outbox[id].availableAt && t.outbox[ids[i]].createAt <= t.outbox[id].createAt))
  {
    if AwaitsExecution(t, id, now) {
      assert id in EligibleRows(t, now);
      ScanReturnsUnlessOutranked(t, ids, now, limit, id);
    }
  }

  lemma ScanLimit(limit: int)
    ensures ClampLimit(limit) == if 1 <= limit <= 200 then limit else 100
  {
  }

  // ------------------------------------------------------------------ executors

  /** An inline executor starts exactly with the approval; a recovery executor with a request that awaits execution. */
  lemma ExecutorsStart(s: System, step: Step, e: nat)
    requires e !in s.executors && e in Apply(s, step).executors
    ensures var x, t := Apply(s, step).executors[e], Apply(s, step).t;
            && x.phase == Holding && x.requestId in t.requests && t.requests[x.requestId].status == Approved
            && (x.recovery <==> step.Scan?)
            && (step.Scan? ==> step.e == e && AwaitsExecution(s.t, x.requestId, step.now))
            && (!step.Scan? ==> step.DecideRequest? && step.e == e && step.requestId == x.requestId
                                && x.requestId in s.t.requests && s.t.requests[x.requestId].status == Pending)
  {
  }

  /** An executor posts once, then closes the request, and reports success exactly if the request could be closed. */
  lemma ExecutorMoves(s: System, e: nat, freshPost: string, retryAfter: int, now: int)
    requires e in s.executors
    ensures var x, id := s.executors[e], s.executors[e].requestId; var posted := Apply(s, CreatePost(e, freshPost));
            && (x.phase == Holding ==> posted == s.(t := AfterPost(s.t, id, freshPost), executors := s.executors[e := x.(phase := Posted)]))
            && (x.phase != Holding ==> posted == s)
    ensures var x, id := s.executors[e], s.executors[e].requestId; var marked := Apply(s, Mark(e, now));
            var closes := id in s.t.requests && (s.t.requests[id].status == Approved || s.t.requests[id].status == Executed);
            && (x.phase == Posted ==> marked == s.(t := AfterMark(s.t, id, now), executors := s.executors[e := x.(phase := Closed(closes))]))
            && (x.phase != Posted ==> marked == s)
    ensures var x, id := s.executors[e], s.executors[e].requestId; var gaveUp := Apply(s, GiveUp(e, retryAfter, now));
            && (x.phase.Closed? ==> gaveUp == s)
            && (!x.phase.Closed? ==> gaveUp.executors == s.executors[e := x.(phase := Closed(false))])
            && (!x.phase.Closed? && x.recovery ==> gaveUp.t == AfterFailure(s.t, id, retryAfter, now))
            && (!x.recovery ==> gaveUp.t == s.t)
  {
  }
}
