/**
 * Every run in which passes of the recovery worker interleave with the steps of submitters, reviewers and other
 * executors: what a pass finds is always executable, and nothing that is due waits for ever.
 */
module RecoveryRuns {
  import opened Wrappers
  import opened Ordering
  import opened Counting
  import opened Approval
  import opened ApprovalRuns
  import opened Recovery

  /** One pass of the worker: what it scanned, what was refused, and the posts it would create. */
  datatype Pass = Pass(ids: seq<string>, refused: set<string>, postOf: string -> string)

  datatype Event = Do(step: Step) | RunPass(p: Pass, at: int)

  /** The system after a pass that nothing interrupts. */
  function PassSystem(s: System, ids: seq<string>, refused: set<string>, postOf: string -> string, now: int): (after: System)
    requires forall i | 0 <= i < |ids| :: ids[i] in s.t.requests
    ensures after == System(AfterPass(s.t, ids, refused, postOf, now), s.permitted, s.executors)
  {
    if ids == [] then s
    else
      var last := |ids| - 1;
      var before := PassSystem(s, ids[..last], refused, postOf, now);
      before.(t := Attempted(before.t, ids[last], ids[last] in refused, postOf(ids[last]), now))
  }

  ghost predicate Next(s: System, e: Event, s': System) {
    match e
    case Do(step) => s' == Apply(s, step)
    case RunPass(p, at) =>
      && IsScan(s.t, p.ids, at, SCAN_LIMIT) && (forall i | 0 <= i < |p.ids| :: p.ids[i] in s.t.requests)
      && s' == PassSystem(s, p.ids, p.refused, p.postOf, at)
  }

  /** `states` holds the state before and after each event, from the start. */
  ghost predicate Run(policies: map<string, Policy>, permitted: set<(string, string)>, events: seq<Event>, states: seq<System>) {
    && ValidPolicies(policies) && |states| == |events| + 1 && states[0] == Start(policies, permitted)
    && forall i | 0 <= i < |events| :: Next(states[i], events[i], states[i + 1])
  }

  // ------------------------------------------------------------------ the invariant with passes

  lemma AttemptKeepsInv(s: System, id: string, refused: bool, freshPost: string, now: int)
    requires Inv(s) && ApprovedIn(s.t, id)
    ensures Inv(s.(t := Attempted(s.t, id, refused, freshPost, now)))
  {
    if KnownAction(s.t.requests[id].actionType) {
      if refused {
        FailureKeepsInv(s, id, RETRY_AFTER_MS, now);
      } else {
        PostKeepsInv(s, id, freshPost);
        MarkTableKeepsInv(s.(t := AfterPost(s.t, id, freshPost)), id, now);
      }
    }
  }

  predicate AllApproved(t: Tables, ids: seq<string>) {
    forall i | 0 <= i < |ids| :: ApprovedIn(t, ids[i])
  }

  lemma {:induction false} PassKeepsApproved(t: Tables, ids: seq<string>, refused: set<string>, postOf: string -> string,
                                             now: int, id: string)
    requires (forall i | 0 <= i < |ids| :: ids[i] in t.requests) && ApprovedIn(t, id)
    ensures ApprovedIn(AfterPass(t, ids, refused, postOf, now), id)
  {
    if ids != [] {
      PassKeepsApproved(t, ids[..|ids| - 1], refused, postOf, now, id);
    }
  }

  lemma LastIsApproved(t: Tables, ids: seq<string>, refused: set<string>, postOf: string -> string, now: int)
    requires ids != [] && (forall i | 0 <= i < |ids| :: ids[i] in t.requests) && AllApproved(t, ids)
    ensures ApprovedIn(AfterPass(t, ids[..|ids| - 1], refused, postOf, now), ids[|ids| - 1])
    ensures AllApproved(t, ids[..|ids| - 1])
  {
    PassKeepsApproved(t, ids[..|ids| - 1], refused, postOf, now, ids[|ids| - 1]);
  }

  lemma {:induction false} PassKeepsInv(s: System, ids: seq<string>, refused: set<string>, postOf: string -> string, now: int)
    requires Inv(s) && (forall i | 0 <= i < |ids| :: ids[i] in s.t.requests) && AllApproved(s.t, ids)
    ensures Inv(PassSystem(s, ids, refused, postOf, now))
  {
    if ids != [] {
      var last := |ids| - 1;
      LastIsApproved(s.t, ids, refused, postOf, now);
      PassKeepsInv(s, ids[..last], refused, postOf, now);
      var before := PassSystem(s, ids[..last], refused, postOf, now);
      AttemptKeepsInv(before, ids[last], ids[last] in refused, postOf(ids[last]), now);
    }
  }

  lemma NextKeepsInv(s: System, e: Event, s': System)
    requires Inv(s) && AllKnown(s.t) && Next(s, e, s')
    ensures Inv(s') && AllKnown(s'.t)
  {
    match e
    case Do(step) =>
      StepKeepsInv(s, step);
      ActionsStep(s, step);
    case RunPass(p, at) =>
      assert forall i | 0 <= i < |p.ids| :: p.ids[i] in EligibleRows(s.t, at);
      PassKeepsInv(s, p.ids, p.refused, p.postOf, at);
      PassKeepsActions(s.t, p.ids, p.refused, p.postOf, at);
  }

  /** Consistency and known actions in every state of every run with passes. */
  lemma {:induction false} RunInv(policies: map<string, Policy>, permitted: set<(string, string)>, events: seq<Event>,
                                  states: seq<System>, n: nat)
    requires Run(policies, permitted, events, states) && n < |states|
    ensures Inv(states[n]) && AllKnown(states[n].t)
  {
    if n > 0 {
      RunInv(policies, permitted, events, states, n - 1);
      assert Next(states[n - 1], events[n - 1], states[n]);
      NextKeepsInv(states[n - 1], events[n - 1], states[n]);
    }
  }

  /** In every reachable state a pass takes its scan off the due requests and adds nothing to them. */
  lemma PassShrinksQueue(policies: map<string, Policy>, permitted: set<(string, string)>, events: seq<Event>,
                         states: seq<System>, n: nat)
    requires Run(policies, permitted, events, states) && n < |events| && events[n].RunPass?
    ensures var t, t', p, at := states[n].t, states[n + 1].t, events[n].p, events[n].at;
            && EligibleRows(t', at) == EligibleRows(t, at) - Elements(p.ids)
            && |EligibleRows(t', at)| == |EligibleRows(t, at)| - |p.ids|
  {
    RunInv(policies, permitted, events, states, n);
    var e := events[n];
    assert Next(states[n], e, states[n + 1]);
    ScanIsTaken(states[n].t, e.p.ids, e.p.refused, e.p.postOf, e.at);
  }

  // ------------------------------------------------------------------ nothing due waits for ever

  /** Approved, not executed, and its outbox row not finished. */
  predicate Open(t: Tables, id: string) {
    ApprovedIn(t, id) && t.requests[id].status == Approved && id in t.outbox && t.outbox[id].status != Succeeded
  }

  /** The open requests that the scan may return no later than `id`, with `id` itself. */
  function Ahead(t: Tables, id: string): set<string> {
    set r | r in t.outbox && id in t.outbox && Open(t, r) && ScansBefore(t, r, id)
  }

  /** No clock sample that an event stores is before `from`. */
  predicate NotBefore(e: Event, from: int) {
    match e
    case Do(step) => (step.DecideRequest? ==> from <= step.now) && (step.GiveUp? ==> from <= step.now)
    case RunPass(_, at) => from <= at
  }

  /** The event leaves the request waiting as it was: neither executed nor put off. */
  predicate Undisturbed(t: Tables, t': Tables, id: string) {
    Open(t, id) && Open(t', id) && t'.outbox[id] == t.outbox[id]
  }

  /** One row under one step: it is as before, or closed, or waits for a time after the step. */
  predicate RowMovesBack(t: Tables, t': Tables, r: string, from: int) {
    Open(t', r) ==> (Open(t, r) && t'.outbox[r] == t.outbox[r]) || t'.outbox[r].availableAt > from
  }

  lemma DecideMovesBack(t: Tables, requestId: string, reviewerId: string, verdict: Option<Verdict>, hasReason: bool,
                        review: Option<bool>, checkedAt: int, now: int, r: string, from: int)
    requires from <= now && (r in t.requests && r in t.outbox ==> ApprovedIn(t, r))
    ensures RowMovesBack(t, AfterDecide(t, requestId, reviewerId, verdict, hasReason, review, checkedAt, now), r, from)
  {
  }

  lemma FailureMovesBack(t: Tables, id: string, retryAfter: int, now: int, r: string, from: int)
    requires from <= now
    ensures RowMovesBack(t, AfterFailure(t, id, retryAfter, now), r, from)
  {
  }

  lemma MarkMovesBack(t: Tables, id: string, now: int, r: string, from: int)
    ensures RowMovesBack(t, AfterMark(t, id, now), r, from)
  {
  }

  lemma SubmitMovesBack(t: Tables, freshId: string, policyId: string, requesterId: string, actionType: string, key: string,
                        expiresAfter: int, now: int, r: string, from: int)
    requires freshId !in t.requests
    ensures RowMovesBack(t, AfterSubmit(t, freshId, policyId, requesterId, actionType, key, expiresAfter, now), r, from)
  {
  }

  lemma OnlyApprovedInOutbox(s: System, r: string)
    requires Inv(s)
    ensures r in s.t.requests && r in s.t.outbox ==> ApprovedIn(s.t, r)
  {
    if r in s.t.requests { assert RequestOk(s, r); }
  }

  lemma DecideStepMovesBack(s: System, step: Step, r: string, from: int)
    requires step.DecideRequest? && from <= step.now && (r in s.t.requests && r in s.t.outbox ==> ApprovedIn(s.t, r))
    ensures RowMovesBack(s.t, Apply(s, step).t, r, from)
  {
    var review := ReviewAnswer(s, step.requestId, step.reviewerId, step.reviewFails);
    DecideMovesBack(s.t, step.requestId, step.reviewerId, step.verdict, step.hasReason, review, step.checkedAt, step.now, r, from);
  }

  lemma ExecutorStepMovesBack(s: System, step: Step, r: string, from: int)
    requires step.Mark? || (step.GiveUp? && from <= step.now)
    ensures RowMovesBack(s.t, Apply(s, step).t, r, from)
  {
    if step.e in s.executors {
      if step.Mark? {
        MarkMovesBack(s.t, s.executors[step.e].requestId, step.now, r, from);
      } else {
        FailureMovesBack(s.t, s.executors[step.e].requestId, step.retryAfter, step.now, r, from);
      }
    }
  }

  lemma SubmitStepMovesBack(s: System, step: Step, r: string, from: int)
    requires step.SubmitRequest?
    ensures RowMovesBack(s.t, Apply(s, step).t, r, from)
  {
    if step.freshId !in s.t.requests {
      SubmitMovesBack(s.t, step.freshId, step.policyId, step.requesterId, step.actionType, step.key, step.expiresAfter, step.now, r, from);
    }
  }

  lemma StepMovesBack(s: System, step: Step, r: string, from: int)
    requires Inv(s) && NotBefore(Do(step), from)
    ensures RowMovesBack(s.t, Apply(s, step).t, r, from)
  {
    OnlyApprovedInOutbox(s, r);
    match step
    case SubmitRequest(_, _, _, _, _, _, _) => SubmitStepMovesBack(s, step, r, from);
    case DecideRequest(_, _, _, _, _, _, _, _) => DecideStepMovesBack(s, step, r, from);
    case Mark(_, _) => ExecutorStepMovesBack(s, step, r, from);
    case GiveUp(_, _, _) => ExecutorStepMovesBack(s, step, r, from);
    case Scan(_, _, _) =>
    case CreatePost(_, _) =>
  }

  /** In a pass every scanned request is closed or put off, and every other stays. */
  lemma PassMovesBack(t: Tables, ids: seq<string>, refused: set<string>, postOf: string -> string, now: int, r: string)
    requires IsScan(t, ids, now, SCAN_LIMIT) && AllKnown(t)
    ensures forall i | 0 <= i < |ids| :: ids[i] in t.requests
    ensures RowMovesBack(t, AfterPass(t, ids, refused, postOf, now), r, now)
    ensures r in ids && Open(AfterPass(t, ids, refused, postOf, now), r) ==>
              AfterPass(t, ids, refused, postOf, now).outbox[r].availableAt > now
  {
    assert forall i | 0 <= i < |ids| :: ids[i] in EligibleRows(t, now);
    if r in ids { PassSettles(t, ids, refused, postOf, now, r); } else { PassTouchesOnly(t, ids, refused, postOf, now, r); }
  }

  /** Whatever happens, no request gets ahead of one that was due and stays undisturbed. */
  lemma StepKeepsAhead(s: System, step: Step, id: string, from: int)
    requires Inv(s) && NotBefore(Do(step), from)
    requires Undisturbed(s.t, Apply(s, step).t, id) && s.t.outbox[id].availableAt <= from
    ensures Ahead(Apply(s, step).t, id) <= Ahead(s.t, id)
  {
    forall r | r in Ahead(Apply(s, step).t, id) ensures r in Ahead(s.t, id) {
      StepMovesBack(s, step, r, from);
    }
  }

  /** A pass that does not scan it takes a hundred requests from ahead of it. */
  lemma PassShortensAhead(t: Tables, p: Pass, at: int, id: string)
    requires AllKnown(t) && IsScan(t, p.ids, at, SCAN_LIMIT) && Open(t, id) && t.outbox[id].availableAt <= at && id !in p.ids
    ensures forall i | 0 <= i < |p.ids| :: p.ids[i] in t.requests
    ensures |Ahead(AfterPass(t, p.ids, p.refused, p.postOf, at), id)| <= |Ahead(t, id)| - SCAN_LIMIT
  {
    ScanReturnsUnlessOutranked(t, p.ids, at, SCAN_LIMIT, id);
    assert forall i | 0 <= i < |p.ids| :: p.ids[i] in EligibleRows(t, at);
    var after := AfterPass(t, p.ids, p.refused, p.postOf, at);
    PassTouchesOnly(t, p.ids, p.refused, p.postOf, at, id);
    assert Elements(p.ids) <= Ahead(t, id);
    forall r | r in Ahead(after, id) ensures r in Ahead(t, id) - Elements(p.ids) {
      PassMovesBack(t, p.ids, p.refused, p.postOf, at, r);
    }
    DistinctElements(p.ids);
    SubsetCount(Ahead(after, id), Ahead(t, id) - Elements(p.ids));
  }

  /** The passes among the events from `m` to before `n`. */
  function PassCount(events: seq<Event>, m: nat, n: nat): nat
    requires m <= n <= |events|
    decreases n
  {
    if m == n then 0 else PassCount(events, m, n - 1) + (if events[n - 1].RunPass? then 1 else 0)
  }

  /** The event scans the request, or another executor executes it or puts it off. */
  predicate Reaches(e: Event, t: Tables, t': Tables, id: string) {
    (e.RunPass? && id in e.p.ids) || !Undisturbed(t, t', id)
  }

  /** An event that does not reach the request lets nothing get ahead of it; a pass then takes a hundred from ahead. */
  lemma EventShrinksAhead(s: System, e: Event, s': System, id: string, from: int)
    requires Inv(s) && AllKnown(s.t) && Next(s, e, s') && NotBefore(e, from) && !Reaches(e, s.t, s'.t, id)
    requires s.t.outbox[id].availableAt <= from
    ensures |Ahead(s'.t, id)| + (if e.RunPass? then 100 else 0) <= |Ahead(s.t, id)|
    ensures Open(s'.t, id) && s'.t.outbox[id] == s.t.outbox[id]
  {
    match e
    case Do(step) =>
      StepKeepsAhead(s, step, id, from);
      SubsetCount(Ahead(s'.t, id), Ahead(s.t, id));
    case RunPass(p, at) => PassShortensAhead(s.t, p, at, id);
  }

  /** Event `i` of a run does not reach the request. */
  predicate Unreached(events: seq<Event>, states: seq<System>, id: string, i: nat)
    requires i < |events| && |states| == |events| + 1
  {
    !Reaches(events[i], states[i].t, states[i + 1].t, id)
  }

  lemma {:induction false} StillWaits(events: seq<Event>, states: seq<System>, id: string, m: nat, n: nat)
    requires |states| == |events| + 1 && m <= n <= |events| && Open(states[m].t, id)
    requires forall i | m <= i < n :: Unreached(events, states, id, i)
    ensures Open(states[n].t, id) && states[n].t.outbox[id] == states[m].t.outbox[id]
    decreases n
  {
    if m < n {
      StillWaits(events, states, id, m, n - 1);
      assert Unreached(events, states, id, n - 1);
    }
  }

  /** Event `i` lets nothing get ahead of the request, and takes a hundred from ahead if it is a pass. */
  predicate Shortens(events: seq<Event>, states: seq<System>, id: string, i: nat)
    requires i < |events| && |states| == |events| + 1
  {
    |Ahead(states[i + 1].t, id)| + (if events[i].RunPass? then 100 else 0) <= |Ahead(states[i].t, id)|
  }

  lemma {:induction false} AheadShrinks(events: seq<Event>, states: seq<System>, id: string, m: nat, n: nat)
    requires |states| == |events| + 1 && m <= n <= |events|
    requires forall i | m <= i < n :: Shortens(events, states, id, i)
    ensures |Ahead(states[n].t, id)| + 100 * PassCount(events, m, n) <= |Ahead(states[m].t, id)|
    decreases n
  {
    if m < n {
      AheadShrinks(events, states, id, m, n - 1);
      assert Shortens(events, states, id, n - 1);
    }
  }

  lemma EventInRun(policies: map<string, Policy>, permitted: set<(string, string)>, events: seq<Event>, states: seq<System>, n: nat)
    requires Run(policies, permitted, events, states) && 0 < n <= |events|
    ensures Inv(states[n - 1]) && AllKnown(states[n - 1].t) && Next(states[n - 1], events[n - 1], states[n])
  {
    RunInv(policies, permitted, events, states, n - 1);
    assert Next(states[n - 1], events[n - 1], states[n - 1 + 1]);
  }

  lemma LastEventShrinksAhead(policies: map<string, Policy>, permitted: set<(string, string)>, events: seq<Event>,
                              states: seq<System>, id: string, from: int, n: nat)
    requires Run(policies, permitted, events, states) && 0 < n <= |events| && NotBefore(events[n - 1], from)
    requires !Reaches(events[n - 1], states[n - 1].t, states[n].t, id) && states[n - 1].t.outbox[id].availableAt <= from
    ensures Open(states[n].t, id) && states[n].t.outbox[id] == states[n - 1].t.outbox[id]
    ensures |Ahead(states[n].t, id)| + (if events[n - 1].RunPass? then 100 else 0) <= |Ahead(states[n - 1].t, id)|
  {
    EventInRun(policies, permitted, events, states, n);
    EventShrinksAhead(states[n - 1], events[n - 1], states[n], id, from);
  }

  /**
   * Every request that is due at some time is scanned, or executed or put off by another executor, before as many
   * passes as the queue due at that time holds hundreds have run, whatever else happens and however late they run.
   */
  lemma DueIsAttempted(policies: map<string, Policy>, permitted: set<(string, string)>, events: seq<Event>, states: seq<System>,
                       id: string, from: int, m: nat, n: nat)
    requires Run(policies, permitted, events, states) && m <= n <= |events|
    requires Eligible(states[m].t, id, from) && (forall i | m <= i < n :: NotBefore(events[i], from))
    requires |EligibleRows(states[m].t, from)| <= 100 * PassCount(events, m, n)
    ensures exists i :: m <= i < n && Reaches(events[i], states[i].t, states[i + 1].t, id)
  {
    if forall i | m <= i < n :: Unreached(events, states, id, i) {
      StillWaits(events, states, id, m, n);
      forall i | m <= i < n ensures Shortens(events, states, id, i) {
        StillWaits(events, states, id, m, i);
        assert Unreached(events, states, id, i);
        LastEventShrinksAhead(policies, permitted, events, states, id, from, i + 1);
      }
      AheadShrinks(events, states, id, m, n);
      SubsetCount(Ahead(states[m].t, id), EligibleRows(states[m].t, from));
      AheadOfItself(states[n].t, id);
    }
  }

  lemma AheadOfItself(t: Tables, id: string)
    requires Open(t, id)
    ensures |Ahead(t, id)| >= 1
  {
    SubsetCount({id}, Ahead(t, id));
  }
}
