/** What every run of the automation workers guarantees, and exactly when the cap on claims and the single reminder hold. */
module AutomationSafety {
  import opened Wrappers
  import opened Automations
  import opened AutomationRuns

  predicate Finalises(step: Step, token: nat) {
    (step.Succeed? || step.Fail?) && step.token == token
  }

  predicate ReadyFor(s: State, step: Step)
    requires step.Succeed? || step.Fail?
  {
    && step.token in s.claims
    && (step.Succeed? ==> s.claims[step.token].phase.Effected?)
    && (step.Fail? ==> s.claims[step.token].phase.Failed?)
  }

  /**
   * Fencing: a finalising statement lands exactly when its holder has the newest claim of a run that
   * is still processing, and then it changes that run only.
   */
  lemma OnlyLatestClaimFinalises(s: State, step: Step, token: nat, t: State)
    requires Inv(s) && Finalises(step, token) && ReadyFor(s, step) && t == Apply(s, step)
    ensures var id := s.claims[token].runId;
            && id in s.runs && t.runs.Keys == s.runs.Keys
            && (t.runs != s.runs <==> LatestClaim(s, id, token) && s.runs[id].status == Processing)
            && (forall i | i in s.runs && i != id :: t.runs[i] == s.runs[i])
            && (t.runs != s.runs ==> t.runs[id].status != Processing)
  {
    var id := s.claims[token].runId;
    TokensInRange(s);
    HeldByLatest(s, id, token);
    if Holds(s.runs, id, token) {
      assert t.runs[id].status != Processing;
    } else {
      assert t.runs == s.runs;
    }
  }

  lemma HeldByLatest(s: State, id: RunId, token: nat)
    requires Inv(s) && id in s.runs
    ensures Holds(s.runs, id, token) <==> s.runs[id].status == Processing && LatestClaim(s, id, token)
  {
    assert RunOk(s, id);
    TokensInRange(s);
    if s.runs[id].status == Processing {
      assert LatestClaim(s, id, s.runs[id].claimToken);
    }
  }

  lemma TerminalStep(s: State, step: Step, id: RunId)
    requires id in s.runs && Terminal(s.runs[id])
    ensures id in Apply(s, step).runs && Apply(s, step).runs[id] == s.runs[id]
  {
  }

  /** Succeeded, dead and cancelled runs never change again, whatever stale workers still do. */
  lemma {:induction false} TerminalRunsNeverChange(s: State, steps: seq<Step>, id: RunId)
    requires id in s.runs && Terminal(s.runs[id])
    ensures id in Exec(s, steps).runs && Exec(s, steps).runs[id] == s.runs[id]
  {
    if steps != [] {
      TerminalRunsNeverChange(s, steps[..|steps| - 1], id);
      TerminalStep(Exec(s, steps[..|steps| - 1]), steps[|steps| - 1], id);
    }
  }

  lemma EmptyInv()
    ensures Inv(Empty)
  {
  }

  lemma ReachableInv(steps: seq<Step>)
    ensures Inv(Exec(Empty, steps))
  {
    EmptyInv();
    ExecKeepsInv(Empty, steps);
  }

  /** Runs correspond one to one to (rule, action, post) triples. */
  lemma OneRunPerTriple(steps: seq<Step>, a: RunId, b: RunId)
    requires var s := Exec(Empty, steps); a in s.runs && b in s.runs
    ensures var s := Exec(Empty, steps); var ra, rb := s.runs[a], s.runs[b];
            a == b <==> ra.ruleId == rb.ruleId && ra.actionId == rb.actionId && ra.postId == rb.postId
  {
    ReachableInv(steps);
    var s := Exec(Empty, steps);
    assert RunOk(s, a) && RunOk(s, b);
    var ra, rb := s.runs[a], s.runs[b];
    if a == b {
      RunIdInjective(ra.ruleId, ra.actionId, ra.postId, rb.ruleId, rb.actionId, rb.postId);
    }
  }

  lemma EffectKeysDiffer(a: RunId, ra: Run, b: RunId, rb: Run)
    requires EffectKeyOf(a, ra) == EffectKeyOf(b, rb)
    ensures a == b
  {
    var prefix := if ra.kind == Reminder then REMINDER_ID_PREFIX else ITEM_KEY_PREFIX;
    assert (prefix + a)[|prefix|..] == a;
    assert (prefix + b)[|prefix|..] == b;
  }

  /** The step inserts the reminder of the run. */
  predicate InsertsReminder(s: State, step: Step, id: RunId) {
    && step.CreateReminder? && step.token in s.claims && s.claims[step.token].phase == Checked
    && s.claims[step.token].runId == id && id in s.runs && s.runs[id].kind == Reminder
    && ReminderKey(ReminderIdOf(id)) !in s.effects
  }

  /** The insert comes after a user cancelled an earlier reminder of the run. */
  predicate Recreates(s: State, step: Step, id: RunId) {
    InsertsReminder(s, step, id) && Count(s.removals, ReminderKey(ReminderIdOf(id))) >= 1
  }

  predicate NeverRecreates(s: State, steps: seq<Step>, id: RunId) {
    steps == [] ||
    (NeverRecreates(s, steps[..|steps| - 1], id) && !Recreates(Exec(s, steps[..|steps| - 1]), steps[|steps| - 1], id))
  }

  lemma ReminderIdInjective(a: RunId, b: RunId)
    requires ReminderIdOf(a) == ReminderIdOf(b)
    ensures a == b
  {
    assert ReminderIdOf(a)[|REMINDER_ID_PREFIX|..] == a && ReminderIdOf(b)[|REMINDER_ID_PREFIX|..] == b;
  }

  /** Only the insert of a run's own reminder is counted under its key. */
  lemma ReminderCount(s: State, step: Step, id: RunId)
    ensures var key := ReminderKey(ReminderIdOf(id));
            Count(Apply(s, step).creations, key) == Count(s.creations, key) + (if InsertsReminder(s, step, id) then 1 else 0)
  {
    match step
    case CreateReminder(token, lost) => CreateReminderCount(s, token, lost, id);
    case CreateItem(token, fingerprint, freshId, lost) => CreateItemCount(s, token, fingerprint, freshId, lost, id);
    case _ =>
  }

  lemma CreateReminderCount(s: State, token: nat, lost: bool, id: RunId)
    ensures var key := ReminderKey(ReminderIdOf(id));
            (Count(DoCreateReminder(s, token, lost).creations, key)
             == Count(s.creations, key) + (if InsertsReminder(s, CreateReminder(token, lost), id) then 1 else 0))
  {
    if token in s.claims && ReminderIdOf(s.claims[token].runId) == ReminderIdOf(id) {
      ReminderIdInjective(s.claims[token].runId, id);
    }
  }

  lemma CreateItemCount(s: State, token: nat, fingerprint: string, freshId: string, lost: bool, id: RunId)
    ensures var key := ReminderKey(ReminderIdOf(id));
            Count(DoCreateItem(s, token, fingerprint, freshId, lost).creations, key) == Count(s.creations, key)
  {
  }

  /** A reminder is created at most once exactly if it is never inserted after a user has cancelled it. */
  lemma {:induction false} ReminderOnceExactlyUnlessRecreated(steps: seq<Step>, id: RunId)
    ensures Count(Exec(Empty, steps).creations, ReminderKey(ReminderIdOf(id))) <= 1 <==> NeverRecreates(Empty, steps, id)
  {
    if steps != [] {
      var before, step := steps[..|steps| - 1], steps[|steps| - 1];
      var s, key := Exec(Empty, before), ReminderKey(ReminderIdOf(id));
      ReminderOnceExactlyUnlessRecreated(before, id);
      ReachableInv(before);
      assert Count(s.creations, key) == Count(s.removals, key) + (if key in s.effects then 1 else 0);
      ReminderCount(s, step, id);
    }
  }

  /**
   * At-most-once effects: over any run, a task or decision is created at most once for its triple, and a
   * reminder exactly if it is never inserted again after a cancellation. No other run shares the key.
   */
  lemma EffectsAtMostOnce(steps: seq<Step>, id: RunId)
    requires id in Exec(Empty, steps).runs
    ensures var s := Exec(Empty, steps); var key := EffectKeyOf(id, s.runs[id]);
            && (s.runs[id].kind != Reminder ==> Count(s.creations, key) <= 1)
            && (s.runs[id].kind == Reminder ==> (Count(s.creations, key) <= 1 <==> NeverRecreates(Empty, steps, id)))
            && Count(s.creations, key) <= Count(s.removals, key) + 1
            && (forall other | other in s.runs && EffectKeyOf(other, s.runs[other]) == key :: other == id)
  {
    ReachableInv(steps);
    ReminderOnceExactlyUnlessRecreated(steps, id);
    var s := Exec(Empty, steps);
    var key := EffectKeyOf(id, s.runs[id]);
    assert Count(s.creations, key) == Count(s.removals, key) + (if key in s.effects then 1 else 0);
    forall other | other in s.runs && EffectKeyOf(other, s.runs[other]) == key ensures other == id {
      EffectKeysDiffer(other, s.runs[other], id, s.runs[id]);
    }
  }

  /** A succeeded run names the object that was created under its own key. */
  lemma SucceededRunNamesItsEffect(steps: seq<Step>, id: RunId)
    requires var s := Exec(Empty, steps); id in s.runs && s.runs[id].status == Succeeded
    ensures var s := Exec(Empty, steps); var r := s.runs[id];
            ResultNames(s, id, r, r.resultType, r.resultId) && Count(s.creations, EffectKeyOf(id, r)) >= 1
  {
    ReachableInv(steps);
    var s := Exec(Empty, steps);
    assert RunOk(s, id);
    var key := EffectKeyOf(id, s.runs[id]);
    assert Count(s.creations, key) == Count(s.removals, key) + (if key in s.effects then 1 else 0);
  }

  /** The row invariant: status against attempts, token, lease and backoff, in every reachable state. */
  lemma ReachableRowsAreWellFormed(steps: seq<Step>, id: RunId)
    requires id in Exec(Empty, steps).runs
    ensures RowOk(Exec(Empty, steps).runs[id])
  {
    ReachableInv(steps);
    assert RunOk(Exec(Empty, steps), id);
  }

  // ------------------------------------------------------------------ the store's batch claim as steps

  function ClaimSteps(ids: seq<RunId>, now: int): seq<Step> {
    if ids == [] then [] else ClaimSteps(ids[..|ids| - 1], now) + [ClaimOne(ids[|ids| - 1], now)]
  }

  /** The one-statement batch claim of the run store is a series of single claims at one instant. */
  lemma {:induction false} BatchClaimIsSteps(s: State, ids: seq<RunId>, now: int)
    requires forall id | id in ids :: id in s.runs && Due(s.runs[id], now)
    requires forall i, j | 0 <= i < j < |ids| :: ids[i] != ids[j]
    ensures var t := Exec(s, ClaimSteps(ids, now));
            t.runs == ClaimAll(s.runs, ids, now, s.nextToken) && t.nextToken == s.nextToken + |ids|
  {
    if ids != [] {
      var earlier, last := ids[..|ids| - 1], ids[|ids| - 1];
      BatchClaimIsSteps(s, earlier, now);
      ExecAppend(s, ClaimSteps(earlier, now), ClaimOne(last, now));
      assert last !in earlier && last in ids;
      ClaimAllOthers(s.runs, earlier, now, s.nextToken, last);
    }
  }

  // ------------------------------------------------------------------ attempts and termination

  function ClaimsOf(s: State, id: RunId): set<nat> {
    set t | t in s.claims && s.claims[t].runId == id
  }

  /** Only a claim issues a token. */
  lemma NoClaimFrame(s: State, step: Step)
    requires !step.ClaimOne?
    ensures SameClaims(s, Apply(s, step))
  {
    match step
    case CheckAccess(token, readable, authorized) => CheckFrame(s, token, readable, authorized);
    case ActionError(token, code, permanent) => ErrorFrame(s, token, code, permanent);
    case CreateItem(token, fingerprint, freshId, lost) => CreateItemFrame(s, token, fingerprint, freshId, lost);
    case CreateReminder(token, lost) => CreateReminderFrame(s, token, lost);
    case Succeed(token, at) => SucceedFrame(s, token, at);
    case Fail(token, at) => FailFrame(s, token, at);
    case EnqueueRun(c, postId, at) =>
    case SaveRule(ruleId, enabled, at) =>
    case DeleteRule(ruleId, at) =>
    case TrashItem(key) =>
    case CancelReminder(id) =>
  }

  lemma CheckFrame(s: State, token: nat, readable: bool, authorized: bool)
    ensures SameClaims(s, DoCheck(s, token, readable, authorized))
  {
  }

  lemma ErrorFrame(s: State, token: nat, code: ErrorCode, permanent: bool)
    ensures SameClaims(s, DoError(s, token, code, permanent))
  {
  }

  lemma CreateItemFrame(s: State, token: nat, fingerprint: string, freshId: string, lost: bool)
    ensures SameClaims(s, DoCreateItem(s, token, fingerprint, freshId, lost))
  {
  }

  lemma CreateReminderFrame(s: State, token: nat, lost: bool)
    ensures SameClaims(s, DoCreateReminder(s, token, lost))
  {
  }

  lemma SucceedFrame(s: State, token: nat, at: int)
    ensures SameClaims(s, DoSucceed(s, token, at))
  {
  }

  lemma FailFrame(s: State, token: nat, at: int)
    ensures SameClaims(s, DoFail(s, token, at))
  {
  }

  lemma CountStep(s: State, step: Step, id: RunId)
    requires Inv(s) && id in Apply(s, step).runs
    requires id in s.runs ==> |ClaimsOf(s, id)| == s.runs[id].attempts
    ensures |ClaimsOf(Apply(s, step), id)| == Apply(s, step).runs[id].attempts
  {
    TokensInRange(s);
    if step.ClaimOne? {
      CountClaim(s, step.id, step.now, id);
    } else {
      NoClaimFrame(s, step);
      SameClaimsCount(s, Apply(s, step), id);
      if id in s.runs { StepRowChange(s, step, id); HolderAttempts(s, step, id); } else { NewRowIsPending(s, step, id); }
    }
  }

  lemma SameClaimsCount(s: State, t: State, id: RunId)
    requires SameClaims(s, t)
    ensures ClaimsOf(t, id) == ClaimsOf(s, id)
    ensures (forall k | k in s.claims :: s.claims[k].runId != id) ==> ClaimsOf(t, id) == {}
  {
  }

  lemma CountClaim(s: State, claimed: RunId, now: int, id: RunId)
    requires s.nextToken !in s.claims && id in s.runs
    requires |ClaimsOf(s, id)| == s.runs[id].attempts
    ensures id in DoClaim(s, claimed, now).runs
    ensures |ClaimsOf(DoClaim(s, claimed, now), id)| == DoClaim(s, claimed, now).runs[id].attempts
  {
    var t := DoClaim(s, claimed, now);
    if t != s && claimed == id {
      assert ClaimsOf(t, id) == ClaimsOf(s, id) + {s.nextToken};
    } else {
      assert ClaimsOf(t, id) == ClaimsOf(s, id);
    }
  }

  /** `attempt_count` is the number of claims ever issued for the run. */
  lemma {:induction false} AttemptsCountClaims(steps: seq<Step>, id: RunId)
    requires id in Exec(Empty, steps).runs
    ensures |ClaimsOf(Exec(Empty, steps), id)| == Exec(Empty, steps).runs[id].attempts
  {
    if steps != [] {
      var before := steps[..|steps| - 1];
      ReachableInv(before);
      if id in Exec(Empty, before).runs {
        AttemptsCountClaims(before, id);
      }
      CountStep(Exec(Empty, before), steps[|steps| - 1], id);
    }
  }

  /** The step takes over an expired lease of the run although its last attempt was the fifth. */
  predicate ClaimsPastCap(s: State, step: Step, id: RunId) {
    && step.ClaimOne? && step.id == id && id in s.runs && Due(s.runs[id], step.now)
    && s.runs[id].status == Processing && s.runs[id].attempts >= MAX_ATTEMPTS
  }

  predicate NeverClaimedPastCap(s: State, steps: seq<Step>, id: RunId) {
    steps == [] ||
    (NeverClaimedPastCap(s, steps[..|steps| - 1], id) && !ClaimsPastCap(Exec(s, steps[..|steps| - 1]), steps[|steps| - 1], id))
  }

  /** Claims and finalising statements left before the run must be terminal. */
  function Remaining(r: Run): int {
    if Terminal(r) then 0
    else if r.status == Processing then 2 * (MAX_ATTEMPTS - r.attempts) + 1
    else 2 * (MAX_ATTEMPTS - r.attempts)
  }

  /** The ways in which one step can rewrite one row. */
  ghost predicate RowChange(s: State, step: Step, id: RunId, r: Run)
    requires id in s.runs
  {
    || r == s.runs[id]
    || (step.ClaimOne? && step.id == id && Due(s.runs[id], step.now) && r == ClaimRow(s.runs[id], step.now, s.nextToken))
    || (Waiting(s.runs[id]) && r.status == Cancelled && r.attempts == s.runs[id].attempts)
    || (step.Succeed? && Holds(s.runs, id, step.token) && r.status == Succeeded && r.attempts == s.runs[id].attempts)
    || (step.Fail? && Holds(s.runs, id, step.token) && step.token in s.claims && s.claims[step.token].runId == id
        && s.claims[step.token].phase.Failed?
        && r == FailRow(s.runs[id], s.claims[step.token].attempts, s.claims[step.token].phase.code,
                        s.claims[step.token].phase.permanent, step.at))
  }

  lemma StepRowChange(s: State, step: Step, id: RunId)
    requires id in s.runs
    ensures id in Apply(s, step).runs && RowChange(s, step, id, Apply(s, step).runs[id])
  {
    match step
    case Succeed(token, at) => SucceedRowChange(s, token, at, id);
    case Fail(token, at) => FailRowChange(s, token, at, id);
    case _ =>
  }

  lemma SucceedRowChange(s: State, token: nat, at: int, id: RunId)
    requires id in s.runs
    ensures id in DoSucceed(s, token, at).runs && RowChange(s, Succeed(token, at), id, DoSucceed(s, token, at).runs[id])
  {
  }

  lemma FailRowChange(s: State, token: nat, at: int, id: RunId)
    requires id in s.runs
    ensures id in DoFail(s, token, at).runs && RowChange(s, Fail(token, at), id, DoFail(s, token, at).runs[id])
  {
  }

  /** A step raises a run above the cap exactly if it claims past it; every other change descends to a terminal status. */
  lemma ChangeDescends(s: State, step: Step, id: RunId)
    requires Inv(s) && id in s.runs && s.runs[id].attempts <= MAX_ATTEMPTS
    ensures id in Apply(s, step).runs
    ensures var r, r' := s.runs[id], Apply(s, step).runs[id];
            && (r'.attempts <= MAX_ATTEMPTS <==> !ClaimsPastCap(s, step, id))
            && (!ClaimsPastCap(s, step, id) ==>
                  0 <= Remaining(r') <= Remaining(r) && (r' == r || Remaining(r') < Remaining(r)))
  {
    assert RunOk(s, id);
    StepRowChange(s, step, id);
    HolderAttempts(s, step, id);
  }

  lemma AttemptsNeverFall(s: State, step: Step, id: RunId)
    requires Inv(s) && id in s.runs
    ensures id in Apply(s, step).runs && s.runs[id].attempts <= Apply(s, step).runs[id].attempts
  {
    StepRowChange(s, step, id);
    HolderAttempts(s, step, id);
  }

  lemma HolderAttempts(s: State, step: Step, id: RunId)
    requires Inv(s) && id in s.runs
    ensures step.Fail? && Holds(s.runs, id, step.token) && step.token in s.claims ==>
              s.claims[step.token].attempts == s.runs[id].attempts
  {
    assert RunOk(s, id);
  }

  /** The cap of five claims holds for a run exactly if no expired lease of its fifth attempt is ever taken over. */
  lemma {:induction false} FiveClaimsExactlyUnlessPastCap(steps: seq<Step>, id: RunId)
    requires id in Exec(Empty, steps).runs
    ensures Exec(Empty, steps).runs[id].attempts <= MAX_ATTEMPTS <==> NeverClaimedPastCap(Empty, steps, id)
    ensures |ClaimsOf(Exec(Empty, steps), id)| == Exec(Empty, steps).runs[id].attempts
    ensures NeverClaimedPastCap(Empty, steps, id) ==> 0 <= Remaining(Exec(Empty, steps).runs[id]) <= 10
  {
    AttemptsCountClaims(steps, id);
    if steps != [] {
      var before, step := steps[..|steps| - 1], steps[|steps| - 1];
      var s := Exec(Empty, before);
      ReachableInv(before);
      if id in s.runs {
        FiveClaimsExactlyUnlessPastCap(before, id);
        AttemptsNeverFall(s, step, id);
        if s.runs[id].attempts <= MAX_ATTEMPTS { ChangeDescends(s, step, id); }
      } else {
        NewRowIsPending(s, step, id);
        NeverClaimedBeforeInsert(before, id);
      }
    }
  }

  lemma {:induction false} NeverClaimedBeforeInsert(steps: seq<Step>, id: RunId)
    requires id !in Exec(Empty, steps).runs
    ensures NeverClaimedPastCap(Empty, steps, id)
  {
    if steps != [] {
      var s := Exec(Empty, steps[..|steps| - 1]);
      if id in s.runs { StepRowChange(s, steps[|steps| - 1], id); }
      NeverClaimedBeforeInsert(steps[..|steps| - 1], id);
    }
  }

  /** Once a run has been claimed five times it is held or terminal, never waiting. */
  lemma FifthClaimIsLast(steps: seq<Step>, id: RunId)
    requires id in Exec(Empty, steps).runs && Exec(Empty, steps).runs[id].attempts >= MAX_ATTEMPTS
    ensures Exec(Empty, steps).runs[id].status == Processing || Terminal(Exec(Empty, steps).runs[id])
  {
    ReachableInv(steps);
    assert RunOk(Exec(Empty, steps), id);
  }

  lemma NewRowIsPending(s: State, step: Step, id: RunId)
    requires id !in s.runs && id in Apply(s, step).runs
    ensures Apply(s, step).runs[id].status == Pending && Apply(s, step).runs[id].attempts == 0
  {
  }

  function Steal(id: RunId, n: nat): seq<Step> {
    if n == 0 then [] else Steal(id, n - 1) + [ClaimOne(id, (n - 1) * LEASE_MS)]
  }

  const DemoCandidate: Candidate := Candidate("rule", "action", "user", Reminder, true)
  const DemoId: RunId := DeterministicRunId("rule", "action", "post")
  const DemoSetup: seq<Step> := [SaveRule("rule", true, 0), EnqueueRun(DemoCandidate, "post", 0)]

  lemma DemoState()
    ensures var s := Exec(Empty, DemoSetup);
            && s.runs == map[DemoId := NewRun(DemoCandidate, "post", 0)] && s.nextToken == 1
            && s.claims == map[] && s.effects == map[] && s.creations == map[] && s.removals == map[]
            && s.rules == map["rule" := RuleState(true, false)]
  {
    assert DemoSetup[..1] == [SaveRule("rule", true, 0)];
    assert DemoSetup[..1][..0] == [];
    assert Exec(Empty, DemoSetup[..1]) == Apply(Empty, SaveRule("rule", true, 0));
  }

  lemma ExecAppend(s: State, steps: seq<Step>, step: Step)
    ensures Exec(s, steps + [step]) == Apply(Exec(s, steps), step)
  {
    assert (steps + [step])[..|steps|] == steps;
  }

  lemma {:induction false} StealRepeats(n: nat)
    ensures var s := Exec(Empty, DemoSetup + Steal(DemoId, n));
            && DemoId in s.runs && s.runs[DemoId].attempts == n
            && (n == 0 ==> s.runs[DemoId].status == Pending && s.runs[DemoId].nextAttemptAt == 0)
            && (n > 0 ==> s.runs[DemoId].status == Processing && s.runs[DemoId].leaseUntil == n * LEASE_MS)
  {
    if n == 0 {
      DemoState();
      assert DemoSetup + Steal(DemoId, 0) == DemoSetup;
    } else {
      StealRepeats(n - 1);
      var step := ClaimOne(DemoId, (n - 1) * LEASE_MS);
      assert DemoSetup + Steal(DemoId, n) == (DemoSetup + Steal(DemoId, n - 1)) + [step];
      ExecAppend(Empty, DemoSetup + Steal(DemoId, n - 1), step);
      StealOnce(Exec(Empty, DemoSetup + Steal(DemoId, n - 1)), n - 1);
    }
  }

  lemma StealOnce(s: State, n: nat)
    requires DemoId in s.runs && s.runs[DemoId].attempts == n && Due(s.runs[DemoId], n * LEASE_MS)
    ensures var t := DoClaim(s, DemoId, n * LEASE_MS);
            && DemoId in t.runs && t.runs[DemoId].attempts == n + 1 && t.runs[DemoId].status == Processing
            && t.runs[DemoId].leaseUntil == (n + 1) * LEASE_MS
  {
  }

  /** The cap binds failures only: a run whose workers die holding the lease can be claimed without limit. */
  lemma StolenLeasesAreUncapped(n: nat)
    ensures exists steps: seq<Step> ::
              DemoId in Exec(Empty, steps).runs && Exec(Empty, steps).runs[DemoId].attempts == n
  {
    StealRepeats(n);
  }

  const DemoKey: EffectKey := ReminderKey(ReminderIdOf(DemoId))
  const ReminderCreated: seq<Step> :=
    DemoSetup + [ClaimOne(DemoId, 0)] + [CheckAccess(1, true, true)] + [CreateReminder(1, true)]
  const FirstAttempt: seq<Step> :=
    ReminderCreated + [CancelReminder(ReminderIdOf(DemoId))] + [Fail(1, 0)]
  const CancelledReminderRun: seq<Step> :=
    FirstAttempt + [ClaimOne(DemoId, 30_000)] + [CheckAccess(2, true, true)] + [CreateReminder(2, false)]
    + [Succeed(2, 30_000)]

  lemma ReminderIsCreated()
    ensures var s := Exec(Empty, ReminderCreated);
            && s.runs == map[DemoId := ClaimRow(NewRun(DemoCandidate, "post", 0), 0, 1)] && s.nextToken == 2
            && s.claims == map[1 := Claim(DemoId, 1, Failed(ExecutionFailed, false))]
            && s.effects == map[DemoKey := Effect(ReminderIdOf(DemoId), "", false)]
            && s.creations == map[DemoKey := 1] && s.removals == map[]
            && s.rules == map["rule" := RuleState(true, false)]
  {
    DemoState();
    var p1 := DemoSetup + [ClaimOne(DemoId, 0)];
    ExecAppend(Empty, DemoSetup, ClaimOne(DemoId, 0));
    var s1 := Exec(Empty, p1);
    assert s1.claims == map[1 := Claim(DemoId, 1, Claimed)] && s1.runs[DemoId].claimToken == 1;
    var p2 := p1 + [CheckAccess(1, true, true)];
    ExecAppend(Empty, p1, CheckAccess(1, true, true));
    var s2 := Exec(Empty, p2);
    assert s2 == s1.(claims := map[1 := Claim(DemoId, 1, Checked)]);
    ExecAppend(Empty, p2, CreateReminder(1, true));
    assert DoCreateReminder(s2, 1, true) ==
           SetPhase(AddEffect(s2, DemoKey, Effect(ReminderIdOf(DemoId), "", false)), 1, Failed(ExecutionFailed, false));
  }

  lemma ReminderIsCancelled()
    ensures Exec(Empty, ReminderCreated + [CancelReminder(ReminderIdOf(DemoId))])
         == Exec(Empty, ReminderCreated).(effects := map[], removals := map[DemoKey := 1])
  {
    ReminderIsCreated();
    ExecAppend(Empty, ReminderCreated, CancelReminder(ReminderIdOf(DemoId)));
  }

  lemma FirstAttemptFails()
    ensures var s := Exec(Empty, FirstAttempt);
            && DemoId in s.runs && s.runs[DemoId].status == Retry && s.runs[DemoId].nextAttemptAt == 30_000
            && s.runs[DemoId].kind == Reminder && s.runs[DemoId].ruleId == "rule"
            && s.nextToken == 2 && RuleActive(s, "rule") && DemoKey !in s.effects
            && Count(s.creations, DemoKey) == 1 && Count(s.removals, DemoKey) == 1
  {
    ReminderIsCreated();
    ReminderIsCancelled();
    ExecAppend(Empty, ReminderCreated + [CancelReminder(ReminderIdOf(DemoId))], Fail(1, 0));
  }

  /** The bound for reminders is tight: one cancelled between two attempts is created a second time. */
  lemma CancelledReminderIsRecreated()
    ensures var s := Exec(Empty, CancelledReminderRun);
            && DemoId in s.runs && s.runs[DemoId].status == Succeeded
            && Count(s.creations, DemoKey) == 2 && Count(s.removals, DemoKey) == 1 && DemoKey in s.effects
  {
    FirstAttemptFails();
    var s0 := Exec(Empty, FirstAttempt);
    var p1 := FirstAttempt + [ClaimOne(DemoId, 30_000)];
    ExecAppend(Empty, FirstAttempt, ClaimOne(DemoId, 30_000));
    var s1 := Exec(Empty, p1);
    assert s1.claims[2] == Claim(DemoId, s0.runs[DemoId].attempts + 1, Claimed) && Holds(s1.runs, DemoId, 2);
    var p2 := p1 + [CheckAccess(2, true, true)];
    ExecAppend(Empty, p1, CheckAccess(2, true, true));
    assert Exec(Empty, p2) == SetPhase(s1, 2, Checked);
    var p3 := p2 + [CreateReminder(2, false)];
    ExecAppend(Empty, p2, CreateReminder(2, false));
    assert Count(Exec(Empty, p3).creations, DemoKey) == 2;
    ExecAppend(Empty, p3, Succeed(2, 30_000));
  }
}
