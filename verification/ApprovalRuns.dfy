/**
 * Every interleaving of submissions, reviewers, the inline executor, the recovery worker, crashes and
 * recorded failures, under fixed policies and a fixed reviewer authorizer.
 */
module ApprovalRuns {
  import opened Wrappers
  import opened Ordering
  import opened Counting
  import opened Approval

  /** Both callers of Submit pass one of the two protected actions, so a submission of any other is no step. */
  ghost predicate AllKnown(t: Tables) {
    forall id | id in t.requests :: KnownAction(t.requests[id].actionType)
  }

  /** An executor read its request as approved; a crash is an executor that takes no further step. */
  datatype Phase = Holding | Posted | Closed(reported: bool)

  datatype Executor = Executor(requestId: string, recovery: bool, phase: Phase)

  datatype System = System(t: Tables, permitted: set<(string, string)>, executors: map<nat, Executor>)

  datatype Step =
    | SubmitRequest(freshId: string, policyId: string, requesterId: string, actionType: string, key: string,
                    expiresAfter: int, now: int)
    | DecideRequest(e: nat, requestId: string, reviewerId: string, verdict: Option<Verdict>, hasReason: bool,
                    reviewFails: bool, checkedAt: int, now: int)
    | Scan(e: nat, requestId: string, now: int)
    | CreatePost(e: nat, freshPost: string)
    | Mark(e: nat, now: int)
    | GiveUp(e: nat, retryAfter: int, now: int)

  function ReviewAnswer(s: System, requestId: string, reviewerId: string, fails: bool): Option<bool> {
    if fails then None else Some((requestId, reviewerId) in s.permitted)
  }

  function DoDecide(s: System, e: nat, requestId: string, reviewerId: string, verdict: Option<Verdict>, hasReason: bool,
                    fails: bool, checkedAt: int, now: int): System
  {
    var review := ReviewAnswer(s, requestId, reviewerId, fails);
    var t := AfterDecide(s.t, requestId, reviewerId, verdict, hasReason, review, checkedAt, now);
    var approved := DecideError(s.t, requestId, reviewerId, verdict, hasReason, review, checkedAt).None?
                    && requestId in t.requests && t.requests[requestId].status == Approved;
    s.(t := t,
    executors := if approved && e !in s.executors
                 then s.executors[e := Executor(requestId, false, Holding)] else s.executors)
  }

  function Close(s: System, e: nat, t: Tables, reported: bool): System
    requires e in s.executors
  {
    s.(t := t, executors := s.executors[e := s.executors[e].(phase := Closed(reported))])
  }

  function Apply(s: System, step: Step): System {
    match step
    case SubmitRequest(freshId, policyId, requesterId, actionType, key, expiresAfter, now) =>
      if freshId in s.t.requests || !KnownAction(actionType) then s
      else s.(t := AfterSubmit(s.t, freshId, policyId, requesterId, actionType, key, expiresAfter, now))
    case DecideRequest(e, requestId, reviewerId, verdict, hasReason, fails, checkedAt, now) =>
      DoDecide(s, e, requestId, reviewerId, verdict, hasReason, fails, checkedAt, now)
    case Scan(e, requestId, now) =>
      if e !in s.executors && Eligible(s.t, requestId, now)
      then s.(executors := s.executors[e := Executor(requestId, true, Holding)]) else s
    case CreatePost(e, freshPost) =>
      if e in s.executors && s.executors[e].phase == Holding
      then s.(t := AfterPost(s.t, s.executors[e].requestId, freshPost),
              executors := s.executors[e := s.executors[e].(phase := Posted)]) else s
    case Mark(e, now) =>
      if e in s.executors && s.executors[e].phase == Posted
      then Close(s, e, AfterMark(s.t, s.executors[e].requestId, now), MarkError(s.t, s.executors[e].requestId).None?) else s
    case GiveUp(e, retryAfter, now) =>
      if e in s.executors && !s.executors[e].phase.Closed?
      then Close(s, e, if s.executors[e].recovery then AfterFailure(s.t, s.executors[e].requestId, retryAfter, now) else s.t, false)
      else s
  }

  function Exec(s: System, steps: seq<Step>): System {
    if steps == [] then s else Apply(Exec(s, steps[..|steps| - 1]), steps[|steps| - 1])
  }

  function Start(policies: map<string, Policy>, permitted: set<(string, string)>): System {
    System(Tables(policies, map[], map[], map[], map[]), permitted, map[])
  }

  // ------------------------------------------------------------------ invariant

  predicate EverApproved(r: Request) {
    r.status == Approved || r.status == Executed
  }

  /** Quorum bookkeeping of one request. */
  predicate QuorumOk(t: Tables, id: string)
    requires id in t.requests && t.requests[id].policyId in t.policies
  {
    var r := t.requests[id];
    var required := t.policies[r.policyId].approvalsRequired;
    && (r.status == Pending ==>
          |Approvers(t.decisions, id)| < required && forall k | k in t.decisions && k.0 == id :: t.decisions[k] == Approve)
    && (EverApproved(r) ==> |Approvers(t.decisions, id)| == required)
    && (r.status == Rejected ==> exists k | k in t.decisions :: k.0 == id && t.decisions[k] == Reject)
  }

  /** Every stored decision was made by a permitted reviewer, never by the requester where that is forbidden. */
  predicate DecisionOk(s: System, k: (string, string)) {
    && k in s.permitted
    && Known(s.t, k.0)
    && !(s.t.policies[s.t.requests[k.0].policyId].forbidSelfApproval && s.t.requests[k.0].requesterId == k.1)
  }

  predicate RequestOk(s: System, id: string)
    requires id in s.t.requests
  {
    var r := s.t.requests[id];
    && (r.policyId in s.t.policies ==> QuorumOk(s.t, id))
    && (r.policyId !in s.t.policies ==> r.status == Pending)
    && (id in s.t.outbox <==> EverApproved(r))
    && (id in s.t.outbox ==> (s.t.outbox[id].status == Succeeded <==> r.status == Executed))
    && (r.status == Executed ==> id in s.t.posts)
  }

  predicate ExecutorOk(s: System, e: nat)
    requires e in s.executors
  {
    var x := s.executors[e];
    && x.requestId in s.t.requests && EverApproved(s.t.requests[x.requestId])
    && (x.phase == Posted ==> x.requestId in s.t.posts)
  }

  ghost predicate Inv(s: System) {
    && (forall p | p in s.t.policies :: s.t.policies[p].approvalsRequired >= 1)
    && (forall id | id in s.t.requests :: RequestOk(s, id))
    && (forall k | k in s.t.decisions :: DecisionOk(s, k))
    && (forall id | id in s.t.outbox :: id in s.t.requests)
    && (forall id | id in s.t.posts :: id in s.t.requests && EverApproved(s.t.requests[id]))
    && (forall e | e in s.executors :: ExecutorOk(s, e))
  }

  // ------------------------------------------------------------------ counting distinct reviewers

  /** An approval adds its reviewer to the approvers and changes no other request's approvers. */
  lemma ApproveAdds(decisions: map<(string, string), Verdict>, requestId: string, reviewerId: string, other: string)
    ensures var after := decisions[(requestId, reviewerId) := Approve];
            && Approvers(after, requestId) == Approvers(decisions, requestId) + {reviewerId}
            && (other != requestId ==> Approvers(after, other) == Approvers(decisions, other))
  {
    var after := decisions[(requestId, reviewerId) := Approve];
    forall v | v in Approvers(decisions, requestId) + {reviewerId} ensures v in Approvers(after, requestId) {
      assert (requestId, v) in after && after[(requestId, v)] == Approve;
    }
    forall v | v in Approvers(decisions, other) && other != requestId ensures v in Approvers(after, other) {
      assert (other, v) in after && after[(other, v)] == Approve;
    }
  }

  lemma RejectElsewhere(decisions: map<(string, string), Verdict>, requestId: string, reviewerId: string, other: string)
    requires other != requestId
    ensures Approvers(decisions[(requestId, reviewerId) := Reject], other) == Approvers(decisions, other)
  {
    var after := decisions[(requestId, reviewerId) := Reject];
    forall v | v in Approvers(decisions, other) ensures v in Approvers(after, other) {
      assert (other, v) in after && after[(other, v)] == Approve;
    }
  }

  lemma QuorumElsewhere(t: Tables, requestId: string, reviewerId: string, verdict: Verdict, now: int, other: string)
    requires Known(t, requestId) && other in t.requests && other != requestId
    requires t.requests[other].policyId in t.policies && QuorumOk(t, other)
    ensures QuorumOk(Vote(t, requestId, reviewerId, verdict, now), other)
  {
    var after := Vote(t, requestId, reviewerId, verdict, now);
    if verdict == Approve {
      ApproveAdds(t.decisions, requestId, reviewerId, other);
    } else {
      RejectElsewhere(t.decisions, requestId, reviewerId, other);
    }
    if t.requests[other].status == Rejected {
      var k :| k in t.decisions && k.0 == other && t.decisions[k] == Reject;
      assert k in after.decisions && after.decisions[k] == Reject;
    }
  }

  /**
   * The quorum step: on a pending request an approval by a reviewer who has already approved changes
   * neither the count nor the status, and one by a new reviewer approves exactly when it is the last needed.
   */
  lemma VoteReachesQuorum(t: Tables, requestId: string, reviewerId: string, now: int)
    requires Known(t, requestId) && t.requests[requestId].status == Pending && QuorumOk(t, requestId)
    ensures var after := Vote(t, requestId, reviewerId, Approve, now);
            var required := t.policies[t.requests[requestId].policyId].approvalsRequired;
            var count := |Approvers(t.decisions, requestId)|;
            var repeated := reviewerId in Approvers(t.decisions, requestId);
            && |Approvers(after.decisions, requestId)| == (if repeated then count else count + 1)
            && (repeated ==> after.requests[requestId].status == Pending)
            && (after.requests[requestId].status == Approved <==> !repeated && count + 1 == required)
            && (after.requests[requestId].status == Approved || after.requests[requestId].status == Pending)
  {
    ApproveAdds(t.decisions, requestId, reviewerId, requestId);
    if reviewerId in Approvers(t.decisions, requestId) {
      assert Approvers(t.decisions, requestId) + {reviewerId} == Approvers(t.decisions, requestId);
    }
  }

  lemma VoteQuorumOk(t: Tables, requestId: string, reviewerId: string, verdict: Verdict, now: int)
    requires Known(t, requestId) && t.requests[requestId].status == Pending && QuorumOk(t, requestId)
    ensures QuorumOk(Vote(t, requestId, reviewerId, verdict, now), requestId)
  {
    var after := Vote(t, requestId, reviewerId, verdict, now);
    if verdict == Approve {
      VoteReachesQuorum(t, requestId, reviewerId, now);
    } else {
      assert (requestId, reviewerId) in after.decisions && after.decisions[(requestId, reviewerId)] == Reject;
    }
  }

  // ------------------------------------------------------------------ preservation

  lemma VoteRequestsOk(s: System, requestId: string, reviewerId: string, verdict: Verdict, now: int)
    requires Inv(s) && Known(s.t, requestId) && s.t.requests[requestId].status == Pending
    ensures var s' := s.(t := Vote(s.t, requestId, reviewerId, verdict, now));
            forall id | id in s'.t.requests :: RequestOk(s', id)
  {
    var s' := s.(t := Vote(s.t, requestId, reviewerId, verdict, now));
    assert RequestOk(s, requestId);
    VoteQuorumOk(s.t, requestId, reviewerId, verdict, now);
    forall id | id in s'.t.requests ensures RequestOk(s', id) {
      assert RequestOk(s, id);
      if id != requestId && s.t.requests[id].policyId in s.t.policies {
        QuorumElsewhere(s.t, requestId, reviewerId, verdict, now, id);
      }
    }
  }

  lemma VoteKeepsInv(s: System, requestId: string, reviewerId: string, verdict: Verdict, now: int)
    requires Inv(s) && Known(s.t, requestId) && s.t.requests[requestId].status == Pending
    requires (requestId, reviewerId) in s.permitted
    requires !(s.t.policies[s.t.requests[requestId].policyId].forbidSelfApproval && s.t.requests[requestId].requesterId == reviewerId)
    ensures Inv(s.(t := Vote(s.t, requestId, reviewerId, verdict, now)))
  {
    var s' := s.(t := Vote(s.t, requestId, reviewerId, verdict, now));
    VoteRequestsOk(s, requestId, reviewerId, verdict, now);
    forall k | k in s'.t.decisions ensures DecisionOk(s', k) {
      if k in s.t.decisions { assert DecisionOk(s, k); }
    }
    forall x | x in s'.executors ensures ExecutorOk(s', x) {
      assert ExecutorOk(s, x);
    }
  }

  /** A step on one request that keeps policies and decisions. */
  lemma RowStepKeepsInv(s: System, s': System)
    requires Inv(s) && s'.permitted == s.permitted
    requires s'.t.policies == s.t.policies && s'.t.decisions == s.t.decisions
    requires forall id | id in s.t.requests :: id in s'.t.requests
               && s'.t.requests[id].policyId == s.t.requests[id].policyId && s'.t.requests[id].requesterId == s.t.requests[id].requesterId
               && (EverApproved(s.t.requests[id]) ==> EverApproved(s'.t.requests[id]))
    requires forall id | id in s'.t.requests :: RequestOk(s', id)
    requires forall id | id in s'.t.outbox :: id in s'.t.requests
    requires forall id | id in s'.t.posts :: id in s'.t.requests && EverApproved(s'.t.requests[id])
    requires forall e | e in s'.executors :: ExecutorOk(s', e)
    ensures Inv(s')
  {
    forall k | k in s'.t.decisions ensures DecisionOk(s', k) {
      assert DecisionOk(s, k);
    }
  }

  lemma ExpireKeepsInv(s: System, requestId: string, now: int)
    requires Inv(s) && Known(s.t, requestId) && s.t.requests[requestId].status == Pending
    ensures Inv(s.(t := Expire(s.t, requestId, now)))
  {
    var s' := s.(t := Expire(s.t, requestId, now));
    forall id | id in s'.t.requests ensures RequestOk(s', id) {
      assert RequestOk(s, id);
    }
    forall e | e in s'.executors ensures ExecutorOk(s', e) {
      assert ExecutorOk(s, e);
    }
    RowStepKeepsInv(s, s');
  }

  lemma DecideKeepsInv(s: System, step: Step)
    requires Inv(s) && step.DecideRequest?
    ensures Inv(Apply(s, step))
  {
    var s' := Apply(s, step);
    var review := ReviewAnswer(s, step.requestId, step.reviewerId, step.reviewFails);
    var error := DecideError(s.t, step.requestId, step.reviewerId, step.verdict, step.hasReason, review, step.checkedAt);
    if error.None? {
      VoteKeepsInv(s, step.requestId, step.reviewerId, step.verdict.value, step.now);
      StartExecutor(s.(t := s'.t), step.e, step.requestId, false, s'.executors);
    } else if s'.t != s.t {
      ExpireKeepsInv(s, step.requestId, step.now);
    }
  }

  lemma StartExecutor(s: System, e: nat, requestId: string, recovery: bool, executors: map<nat, Executor>)
    requires Inv(s)
    requires executors == s.executors ||
             (requestId in s.t.requests && EverApproved(s.t.requests[requestId])
              && executors == s.executors[e := Executor(requestId, recovery, Holding)])
    ensures Inv(s.(executors := executors))
  {
    var s' := s.(executors := executors);
    forall x | x in s'.executors ensures ExecutorOk(s', x) {
      if x in s.executors { assert ExecutorOk(s, x); }
    }
    forall id | id in s'.t.requests ensures RequestOk(s', id) {
      assert RequestOk(s, id);
    }
    RowStepKeepsInv(s, s');
  }

  lemma SubmitKeepsInv(s: System, step: Step)
    requires Inv(s) && step.SubmitRequest?
    ensures Inv(Apply(s, step))
  {
    var s' := Apply(s, step);
    if s' != s {
      NoDecisionsYet(s, step.freshId);
      forall id | id in s'.t.requests ensures RequestOk(s', id) {
        if id in s.t.requests { assert RequestOk(s, id); }
      }
      forall e | e in s'.executors ensures ExecutorOk(s', e) {
        assert ExecutorOk(s, e);
      }
      RowStepKeepsInv(s, s');
    }
  }

  lemma NoDecisionsYet(s: System, id: string)
    requires Inv(s) && id !in s.t.requests
    ensures Approvers(s.t.decisions, id) == {} && forall k | k in s.t.decisions :: k.0 != id
  {
    forall k | k in s.t.decisions ensures k.0 != id {
      assert DecisionOk(s, k);
    }
  }

  lemma SetExecutorKeepsInv(s: System, e: nat, x: Executor)
    requires Inv(s) && ExecutorOk(s.(executors := s.executors[e := x]), e)
    ensures Inv(s.(executors := s.executors[e := x]))
  {
    var s' := s.(executors := s.executors[e := x]);
    forall y | y in s'.executors ensures ExecutorOk(s', y) {
      if y != e { assert ExecutorOk(s, y); }
    }
    forall id | id in s'.t.requests ensures RequestOk(s', id) {
      assert RequestOk(s, id);
    }
    RowStepKeepsInv(s, s');
  }

  lemma PostKeepsInv(s: System, id: string, freshPost: string)
    requires Inv(s) && id in s.t.requests && EverApproved(s.t.requests[id])
    ensures Inv(s.(t := AfterPost(s.t, id, freshPost)))
  {
    var s' := s.(t := AfterPost(s.t, id, freshPost));
    forall i | i in s'.t.requests ensures RequestOk(s', i) {
      assert RequestOk(s, i);
    }
    forall e | e in s'.executors ensures ExecutorOk(s', e) {
      assert ExecutorOk(s, e);
    }
    RowStepKeepsInv(s, s');
  }

  lemma FailureKeepsInv(s: System, id: string, retryAfter: int, now: int)
    requires Inv(s)
    ensures Inv(s.(t := AfterFailure(s.t, id, retryAfter, now)))
  {
    var s' := s.(t := AfterFailure(s.t, id, retryAfter, now));
    forall i | i in s'.t.requests ensures RequestOk(s', i) {
      assert RequestOk(s, i);
    }
    forall e | e in s'.executors ensures ExecutorOk(s', e) {
      assert ExecutorOk(s, e);
    }
    RowStepKeepsInv(s, s');
  }

  lemma MarkTableKeepsInv(s: System, id: string, now: int)
    requires Inv(s) && id in s.t.requests && EverApproved(s.t.requests[id]) && id in s.t.posts
    ensures Inv(s.(t := AfterMark(s.t, id, now)))
    ensures MarkError(s.t, id).None?
  {
    assert RequestOk(s, id);
    var o := s.t.outbox[id].(status := Succeeded, updateAt := now);
    if s.t.requests[id].status == Approved {
      var r := s.t.requests[id].(status := Executed, executedAt := now, updateAt := now);
      assert AfterMark(s.t, id, now) == s.t.(requests := s.t.requests[id := r], outbox := s.t.outbox[id := o]);
      FirstMarkKeepsInv(s, id, r, o);
    } else {
      assert AfterMark(s.t, id, now) == s.t.(outbox := s.t.outbox[id := o]);
      RepeatedMarkKeepsInv(s, id, o);
    }
  }

  lemma FirstMarkKeepsInv(s: System, id: string, r: Request, o: Outbox)
    requires Inv(s) && id in s.t.requests && s.t.requests[id].status == Approved && id in s.t.posts
    requires r.status == Executed && r.policyId == s.t.requests[id].policyId && r.requesterId == s.t.requests[id].requesterId
    requires o.status == Succeeded
    ensures Inv(s.(t := s.t.(requests := s.t.requests[id := r], outbox := s.t.outbox[id := o])))
  {
    var s' := s.(t := s.t.(requests := s.t.requests[id := r], outbox := s.t.outbox[id := o]));
    assert RequestOk(s, id);
    forall i | i in s'.t.requests ensures RequestOk(s', i) {
      assert RequestOk(s, i);
    }
    forall e | e in s'.executors ensures ExecutorOk(s', e) {
      assert ExecutorOk(s, e);
    }
    RowStepKeepsInv(s, s');
  }

  lemma RepeatedMarkKeepsInv(s: System, id: string, o: Outbox)
    requires Inv(s) && id in s.t.requests && s.t.requests[id].status == Executed && o.status == Succeeded
    ensures Inv(s.(t := s.t.(outbox := s.t.outbox[id := o])))
  {
    var s' := s.(t := s.t.(outbox := s.t.outbox[id := o]));
    assert RequestOk(s, id);
    forall i | i in s'.t.requests ensures RequestOk(s', i) {
      assert RequestOk(s, i);
    }
    forall e | e in s'.executors ensures ExecutorOk(s', e) {
      assert ExecutorOk(s, e);
    }
    RowStepKeepsInv(s, s');
  }

  lemma CreatePostKeepsInv(s: System, e: nat, freshPost: string)
    requires Inv(s)
    ensures Inv(Apply(s, CreatePost(e, freshPost)))
  {
    if e in s.executors && s.executors[e].phase == Holding {
      var x := s.executors[e];
      assert ExecutorOk(s, e);
      PostKeepsInv(s, x.requestId, freshPost);
      SetExecutorKeepsInv(s.(t := AfterPost(s.t, x.requestId, freshPost)), e, x.(phase := Posted));
    }
  }

  lemma MarkKeepsInv(s: System, e: nat, now: int)
    requires Inv(s)
    ensures Inv(Apply(s, Mark(e, now)))
  {
    if e in s.executors && s.executors[e].phase == Posted {
      var x := s.executors[e];
      assert ExecutorOk(s, e);
      MarkTableKeepsInv(s, x.requestId, now);
      SetExecutorKeepsInv(s.(t := AfterMark(s.t, x.requestId, now)), e, x.(phase := Closed(true)));
    }
  }

  lemma CloseKeepsInv(s: System, e: nat, t: Tables, reported: bool)
    requires e in s.executors && Inv(s.(t := t))
    ensures Inv(Close(s, e, t, reported))
  {
    var u := s.(t := t);
    assert ExecutorOk(u, e);
    SetExecutorKeepsInv(u, e, u.executors[e].(phase := Closed(reported)));
  }

  lemma GiveUpKeepsInv(s: System, e: nat, retryAfter: int, now: int)
    requires Inv(s)
    ensures Inv(Apply(s, GiveUp(e, retryAfter, now)))
  {
    if e in s.executors && !s.executors[e].phase.Closed? {
      if s.executors[e].recovery {
        FailureKeepsInv(s, s.executors[e].requestId, retryAfter, now);
        CloseKeepsInv(s, e, AfterFailure(s.t, s.executors[e].requestId, retryAfter, now), false);
      } else {
        assert s.(t := s.t) == s;
        CloseKeepsInv(s, e, s.t, false);
      }
    }
  }

  lemma StepKeepsInv(s: System, step: Step)
    requires Inv(s)
    ensures Inv(Apply(s, step))
  {
    match step
    case SubmitRequest(_, _, _, _, _, _, _) => SubmitKeepsInv(s, step);
    case DecideRequest(_, _, _, _, _, _, _, _) => DecideKeepsInv(s, step);
    case Scan(e, requestId, now) => StartExecutor(s, e, requestId, true, Apply(s, step).executors);
    case CreatePost(e, freshPost) => CreatePostKeepsInv(s, e, freshPost);
    case Mark(e, now) => MarkKeepsInv(s, e, now);
    case GiveUp(e, retryAfter, now) => GiveUpKeepsInv(s, e, retryAfter, now);
  }

  predicate ValidPolicies(policies: map<string, Policy>) {
    forall p | p in policies :: policies[p].approvalsRequired >= 1
  }

  lemma {:induction false} ReachableInv(policies: map<string, Policy>, permitted: set<(string, string)>, steps: seq<Step>)
    requires ValidPolicies(policies)
    ensures Inv(Exec(Start(policies, permitted), steps))
  {
    if steps != [] {
      ReachableInv(policies, permitted, steps[..|steps| - 1]);
      StepKeepsInv(Exec(Start(policies, permitted), steps[..|steps| - 1]), steps[|steps| - 1]);
    }
  }

  // ------------------------------------------------------------------ guarantees

  predicate Moves(before: Status, after: Status) {
    || before == after
    || (before == Pending && (after == Approved || after == Rejected || after == Expired))
    || (before == Approved && after == Executed)
  }

  lemma StatusStep(s: System, step: Step, id: string)
    requires id in s.t.requests
    ensures id in Apply(s, step).t.requests && Moves(s.t.requests[id].status, Apply(s, step).t.requests[id].status)
    ensures id in s.t.posts ==> id in Apply(s, step).t.posts && Apply(s, step).t.posts[id] == s.t.posts[id]
  {
  }

  predicate Decided(status: Status) {
    status == Rejected || status == Expired || status == Executed
  }

  /** A request only ever moves forward, and the post created for it is never replaced. */
  lemma {:induction false} RequestsOnlyMoveForward(s: System, steps: seq<Step>, id: string)
    requires id in s.t.requests
    ensures var s' := Exec(s, steps);
            && id in s'.t.requests
            && (Decided(s.t.requests[id].status) ==> s'.t.requests[id].status == s.t.requests[id].status)
            && (EverApproved(s.t.requests[id]) ==> EverApproved(s'.t.requests[id]))
            && (id in s.t.posts ==> id in s'.t.posts && s'.t.posts[id] == s.t.posts[id])
  {
    if steps != [] {
      RequestsOnlyMoveForward(s, steps[..|steps| - 1], id);
      StatusStep(Exec(s, steps[..|steps| - 1]), steps[|steps| - 1], id);
    }
  }

  /** The outbox mirrors the request: a row exactly when ever approved, succeeded exactly when executed. */
  lemma OutboxMirrorsRequest(policies: map<string, Policy>, permitted: set<(string, string)>, steps: seq<Step>, id: string)
    requires ValidPolicies(policies) && id in Exec(Start(policies, permitted), steps).t.requests
    ensures var t := Exec(Start(policies, permitted), steps).t;
            && (id in t.outbox <==> EverApproved(t.requests[id]))
            && (t.requests[id].status == Executed <==> id in t.outbox && t.outbox[id].status == Succeeded)
            && (t.requests[id].status == Executed ==> id in t.posts)
            && (id in t.posts ==> EverApproved(t.requests[id]))
  {
    ReachableInv(policies, permitted, steps);
    assert RequestOk(Exec(Start(policies, permitted), steps), id);
  }

  /** Both executors succeed: whoever has the post in hand closes the request without an error. */
  lemma MarkNeverFails(policies: map<string, Policy>, permitted: set<(string, string)>, steps: seq<Step>, e: nat, now: int)
    requires ValidPolicies(policies)
    requires var s := Exec(Start(policies, permitted), steps); e in s.executors && s.executors[e].phase == Posted
    ensures var s := Exec(Start(policies, permitted), steps); var s' := Apply(s, Mark(e, now)); var id := s.executors[e].requestId;
            && MarkError(s.t, id).None? && s'.executors[e].phase == Closed(true)
            && id in s'.t.requests && s'.t.requests[id].status == Executed && id in s'.t.posts
  {
    ReachableInv(policies, permitted, steps);
    MarkSucceeds(Exec(Start(policies, permitted), steps), e, now);
  }

  lemma MarkSucceeds(s: System, e: nat, now: int)
    requires Inv(s) && e in s.executors && s.executors[e].phase == Posted
    ensures var s' := Apply(s, Mark(e, now)); var id := s.executors[e].requestId;
            && MarkError(s.t, id).None? && s'.executors[e].phase == Closed(true)
            && id in s'.t.requests && s'.t.requests[id].status == Executed && id in s'.t.posts
  {
    assert ExecutorOk(s, e);
  }

  /** A crash loses nothing: an approved request that was not executed is eligible from `available_at` on. */
  lemma ApprovedStaysEligible(policies: map<string, Policy>, permitted: set<(string, string)>, steps: seq<Step>,
                              id: string, now: int)
    requires ValidPolicies(policies)
    requires var t := Exec(Start(policies, permitted), steps).t; id in t.requests && t.requests[id].status == Approved
    ensures var t := Exec(Start(policies, permitted), steps).t;
            id in t.outbox && (Eligible(t, id, now) <==> t.outbox[id].availableAt <= now)
  {
    ReachableInv(policies, permitted, steps);
    assert RequestOk(Exec(Start(policies, permitted), steps), id);
  }

  /** The scan returns an eligible request unless `limit` eligible rows come no later than it. */
  lemma ScanReturnsUnlessOutranked(t: Tables, ids: seq<string>, now: int, limit: nat, id: string)
    requires IsScan(t, ids, now, limit) && id in EligibleRows(t, now)
    ensures id in ids || (|ids| == limit && forall i | 0 <= i < |ids| :: ids[i] in t.outbox && ScansBefore(t, ids[i], id))
  {
    if id !in ids && |ids| == |EligibleRows(t, now)| {
      DistinctElements(ids);
      FullSubset(Elements(ids), EligibleRows(t, now));
    }
  }

  /** The quorum in every reachable state. */
  lemma QuorumInvariant(policies: map<string, Policy>, permitted: set<(string, string)>, steps: seq<Step>, id: string)
    requires ValidPolicies(policies)
    requires Known(Exec(Start(policies, permitted), steps).t, id)
    ensures var t := Exec(Start(policies, permitted), steps).t;
            var p := t.policies[t.requests[id].policyId];
            && QuorumOk(t, id)
            && (forall v | v in Approvers(t.decisions, id) ::
                (id, v) in permitted && !(p.forbidSelfApproval && v == t.requests[id].requesterId))
  {
    ReachableInv(policies, permitted, steps);
    PermittedConstant(policies, permitted, steps);
    var s := Exec(Start(policies, permitted), steps);
    assert RequestOk(s, id);
    forall v | v in Approvers(s.t.decisions, id)
      ensures (id, v) in permitted && !(s.t.policies[s.t.requests[id].policyId].forbidSelfApproval && v == s.t.requests[id].requesterId)
    {
      assert DecisionOk(s, (id, v));
    }
  }

  lemma {:induction false} PermittedConstant(policies: map<string, Policy>, permitted: set<(string, string)>,
                                             steps: seq<Step>)
    ensures Exec(Start(policies, permitted), steps).permitted == permitted
  {
    if steps != [] {
      PermittedConstant(policies, permitted, steps[..|steps| - 1]);
    }
  }

  predicate ApprovedIn(t: Tables, id: string) {
    id in t.requests && EverApproved(t.requests[id])
  }

  lemma SubmitApprovesNothing(t: Tables, freshId: string, policyId: string, requesterId: string, actionType: string,
                              key: string, expiresAfter: int, now: int, id: string)
    requires ApprovedIn(AfterSubmit(t, freshId, policyId, requesterId, actionType, key, expiresAfter, now), id)
    requires freshId !in t.requests
    ensures ApprovedIn(t, id)
  {
  }

  lemma MarkApprovesNothing(t: Tables, requestId: string, now: int, id: string)
    requires ApprovedIn(AfterMark(t, requestId, now), id)
    ensures ApprovedIn(t, id)
  {
  }

  /** No other step than a decision approves a request. */
  lemma OnlyDecisionsApprove(s: System, step: Step, id: string)
    requires !step.DecideRequest? && ApprovedIn(Apply(s, step).t, id)
    ensures ApprovedIn(s.t, id)
  {
    match step
    case SubmitRequest(freshId, policyId, requesterId, actionType, key, expiresAfter, now) =>
      if freshId !in s.t.requests && KnownAction(actionType) {
        SubmitApprovesNothing(s.t, freshId, policyId, requesterId, actionType, key, expiresAfter, now, id);
      }
    case Mark(e, now) =>
      if e in s.executors && s.executors[e].phase == Posted { MarkApprovesNothing(s.t, s.executors[e].requestId, now, id); }
    case Scan(_, _, _) =>
    case CreatePost(_, _) =>
    case GiveUp(_, _, _) =>
  }

  lemma ApprovingVote(t: Tables, requestId: string, reviewerId: string, verdict: Option<Verdict>, hasReason: bool,
                      review: Option<bool>, checkedAt: int, now: int, id: string)
    requires var after := AfterDecide(t, requestId, reviewerId, verdict, hasReason, review, checkedAt, now);
      id in after.requests && EverApproved(after.requests[id])
    requires id in t.requests ==> !EverApproved(t.requests[id])
    ensures id in t.requests && t.requests[id].status == Pending && requestId == id
    ensures var r := AfterDecide(t, requestId, reviewerId, verdict, hasReason, review, checkedAt, now).requests[id];
            r.status == Approved && !ExpiredAt(r, checkedAt) && r.decidedAt == now
  {
  }

  /** The deciding step of a request that is approved by it. */
  lemma ApprovingStep(s: System, step: Step, id: string)
    requires ApprovedIn(Apply(s, step).t, id) && !ApprovedIn(s.t, id)
    ensures step.DecideRequest? && step.requestId == id
    ensures id in s.t.requests && s.t.requests[id].status == Pending
    ensures var r := Apply(s, step).t.requests[id];
            r.status == Approved && !ExpiredAt(r, step.checkedAt) && r.decidedAt == step.now
  {
    if !step.DecideRequest? { OnlyDecisionsApprove(s, step, id); }
    ApprovingVote(s.t, step.requestId, step.reviewerId, step.verdict, step.hasReason,
                  ReviewAnswer(s, step.requestId, step.reviewerId, step.reviewFails), step.checkedAt, step.now, id);
  }

  lemma ApprovedTimesKept(s: System, step: Step, id: string)
    requires id in s.t.requests && EverApproved(s.t.requests[id])
    ensures id in Apply(s, step).t.requests
    ensures var r, r' := s.t.requests[id], Apply(s, step).t.requests[id];
            r'.decidedAt == r.decidedAt && r'.expiresAt == r.expiresAt
  {
  }

  /** Step `i` is a decision that approved the pending request before its expiry, by its first clock sample. */
  predicate ApprovedAt(s: System, steps: seq<Step>, id: string, i: nat) {
    && i < |steps| && steps[i].DecideRequest? && steps[i].requestId == id
    && var before, after := Exec(s, steps[..i]).t, Exec(s, steps[..i + 1]).t;
       && id in before.requests && before.requests[id].status == Pending
       && id in after.requests && after.requests[id].status == Approved
       && !ExpiredAt(before.requests[id], steps[i].checkedAt)
  }

  lemma ApprovedAtLonger(s: System, steps: seq<Step>, id: string, i: nat)
    requires steps != [] && ApprovedAt(s, steps[..|steps| - 1], id, i)
    ensures ApprovedAt(s, steps, id, i) && steps[..|steps| - 1][..i] == steps[..i]
  {
    var front := steps[..|steps| - 1];
    assert front[..i] == steps[..i] && front[..i + 1] == steps[..i + 1];
  }

  /**
   * Expiry, over every run: a request that was ever approved was approved by one decision whose first clock sample
   * was before the expiry. The stored decision time is that step's second sample and is never written again, so it
   * is before the expiry exactly if the second sample was.
   */
  lemma {:induction false} ApprovalBeforeExpiry(s: System, steps: seq<Step>, id: string) returns (i: nat)
    requires !ApprovedIn(s.t, id) && ApprovedIn(Exec(s, steps).t, id)
    ensures ApprovedAt(s, steps, id, i)
    ensures var r := Exec(s, steps).t.requests[id];
            && (r.expiresAt <= 0 || steps[i].checkedAt < r.expiresAt)
            && (0 < r.expiresAt <= r.decidedAt <==> 0 < Exec(s, steps[..i]).t.requests[id].expiresAt <= steps[i].now)
            && r.decidedAt == steps[i].now
  {
    var last := |steps| - 1;
    var front := steps[..last];
    var t := Exec(s, front);
    if ApprovedIn(t.t, id) {
      i := ApprovalBeforeExpiry(s, front, id);
      ApprovedTimesKept(t, steps[last], id);
      ApprovedAtLonger(s, steps, id, i);
    } else {
      i := last;
      ApprovingStep(t, steps[last], id);
      ExpiryKept(t, steps[last], id);
      assert steps[..last + 1] == steps;
    }
  }

  lemma ExpiryKept(s: System, step: Step, id: string)
    requires id in s.t.requests
    ensures id in Apply(s, step).t.requests && Apply(s, step).t.requests[id].expiresAt == s.t.requests[id].expiresAt
  {
  }

  const DemoPolicy: map<string, Policy> := map["p" := Policy(1, true, false)]
  const DemoSystem: System := System(
    Tables(DemoPolicy, map["q" := Request("p", "mcp.create_post", "alice", "", Pending, 0, 0, 0, 0, 1000)], map[], map[], map[]),
    {("q", "bob")}, map[])

  /** A decision that starts just in time can be stored with a decision time at the expiry. */
  lemma DecisionTimeCanReachExpiry()
    ensures var s := Apply(DemoSystem, DecideRequest(1, "q", "bob", Some(Approve), false, false, 999, 1000));
            && s.t.requests["q"].status == Approved && ExpiredAt(s.t.requests["q"], s.t.requests["q"].decidedAt)
  {
    var after := DemoSystem.t.decisions[("q", "bob") := Approve];
    ApproveAdds(DemoSystem.t.decisions, "q", "bob", "q");
    assert Approvers(after, "q") == {"bob"};
  }

  // ------------------------------------------------------------------ known actions

  lemma ActionsStep(s: System, step: Step)
    requires AllKnown(s.t)
    ensures AllKnown(Apply(s, step).t)
  {
    var t := Apply(s, step).t;
    forall id | id in t.requests ensures KnownAction(t.requests[id].actionType) {
      if id in s.t.requests { KeyColumnsKept(s, step, id); }
    }
  }

  /** In every reachable state every request asks for a protected action. */
  lemma {:induction false} OnlyKnownActions(policies: map<string, Policy>, permitted: set<(string, string)>, steps: seq<Step>)
    ensures AllKnown(Exec(Start(policies, permitted), steps).t)
  {
    if steps != [] {
      OnlyKnownActions(policies, permitted, steps[..|steps| - 1]);
      ActionsStep(Exec(Start(policies, permitted), steps[..|steps| - 1]), steps[|steps| - 1]);
    }
  }

  // ------------------------------------------------------------------ idempotent submission

  ghost predicate KeysUnique(t: Tables) {
    forall a, b | a in t.requests && b in t.requests && t.requests[a].idempotencyKey != ""
                  && t.requests[a].requesterId == t.requests[b].requesterId && t.requests[a].actionType == t.requests[b].actionType
                  && t.requests[a].idempotencyKey == t.requests[b].idempotencyKey :: a == b
  }

  predicate SameKey(r: Request, requesterId: string, actionType: string, key: string) {
    r.requesterId == requesterId && r.actionType == actionType && r.idempotencyKey == key
  }

  lemma KeyColumnsKept(s: System, step: Step, id: string)
    requires id in s.t.requests
    ensures id in Apply(s, step).t.requests
    ensures var r, r' := s.t.requests[id], Apply(s, step).t.requests[id];
            SameKey(r', r.requesterId, r.actionType, r.idempotencyKey)
  {
  }

  lemma KeysStep(s: System, step: Step)
    requires KeysUnique(s.t)
    ensures KeysUnique(Apply(s, step).t)
  {
    var t := Apply(s, step).t;
    forall id | id in s.t.requests {
      KeyColumnsKept(s, step, id);
    }
    if step.SubmitRequest? {
      SubmitKeysStep(s.t, step);
    } else {
      assert t.requests.Keys == s.t.requests.Keys;
    }
  }

  lemma SubmitKeysStep(t: Tables, step: Step)
    requires KeysUnique(t) && step.SubmitRequest?
    ensures step.freshId !in t.requests ==>
              KeysUnique(AfterSubmit(t, step.freshId, step.policyId, step.requesterId, step.actionType, step.key, step.expiresAfter, step.now))
  {
    if Submitted(t, step.requesterId, step.actionType, step.key) == {} && step.key != "" {
      forall a | a in t.requests ensures !SameKey(t.requests[a], step.requesterId, step.actionType, step.key) {
        assert a !in Submitted(t, step.requesterId, step.actionType, step.key);
      }
    }
  }

  /** At most one request per requester, action and idempotency key, over every run. */
  lemma {:induction false} OneRequestPerKey(policies: map<string, Policy>, permitted: set<(string, string)>,
                                            steps: seq<Step>)
    ensures KeysUnique(Exec(Start(policies, permitted), steps).t)
  {
    if steps != [] {
      OneRequestPerKey(policies, permitted, steps[..|steps| - 1]);
      KeysStep(Exec(Start(policies, permitted), steps[..|steps| - 1]), steps[|steps| - 1]);
    }
  }
}
