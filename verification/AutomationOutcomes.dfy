/** What the run queue does, said in plain columns and numbers of the table. */
module AutomationOutcomes {
  import opened Wrappers
  import opened Ordering
  import opened Automations
  import opened AutomationRuns
  import opened AutomationSafety

  // ------------------------------------------------------------------ when a run may be claimed

  /** A claim takes a row exactly if it is unfinished and the time it waits for has come; it counts and leases it for two minutes. */
  lemma ClaimChanges(s: State, id: RunId, now: int)
    requires Inv(s) && id in s.runs
    ensures var r, t := s.runs[id], DoClaim(s, id, now);
            && id in t.runs
            && (t.runs[id] != r <==> Unfinished(r) && WaitsUntil(r) <= now)
            && (t.runs[id] != r ==>
                  t.runs[id] == r.(status := Processing, attempts := r.attempts + 1, claimedAt := now, updateAt := now,
                                   leaseUntil := now + 120_000, claimToken := s.nextToken))
  {
  }

  /** A new run is due when it is made, a retry after its backoff, a processing run two minutes after its claim. */
  predicate TimeHasCome(r: Run, now: int) {
    || (r.status == Pending && r.createAt <= now)
    || (r.status == Retry && r.attempts >= 1 && r.updateAt + Min(30_000 * Pow2(r.attempts - 1), 900_000) <= now)
    || (r.status == Processing && r.claimedAt + 120_000 <= now)
  }

  /** The columns a claim looks at say exactly that. */
  lemma WaitingTimes(s: State, id: RunId, now: int)
    requires Inv(s) && id in s.runs
    ensures Unfinished(s.runs[id]) && WaitsUntil(s.runs[id]) <= now <==> TimeHasCome(s.runs[id], now)
  {
    assert RunOk(s, id);
  }

  lemma ClaimTakesExactly(s: State, t: State, id: RunId, now: int)
    requires Inv(s) && id in s.runs && t == DoClaim(s, id, now)
    ensures id in t.runs && (t.runs[id] != s.runs[id] <==> TimeHasCome(s.runs[id], now))
  {
    ClaimChanges(s, id, now);
    WaitingTimes(s, id, now);
  }

  /** Over every run: a claim takes a row exactly if its time has come. */
  lemma ClaimedExactlyWhenDue(steps: seq<Step>, id: RunId, now: int)
    requires id in Exec(Empty, steps).runs
    ensures var s, t := Exec(Empty, steps), Exec(Empty, steps + [ClaimOne(id, now)]);
            id in t.runs && (t.runs[id] != s.runs[id] <==> TimeHasCome(s.runs[id], now))
  {
    ReachableInv(steps);
    ExecAppend(Empty, steps, ClaimOne(id, now));
    ClaimTakesExactly(Exec(Empty, steps), Exec(Empty, steps + [ClaimOne(id, now)]), id, now);
  }

  /** The batch size that a claim uses. */
  lemma ClaimLimit(limit: int)
    ensures ClampLimit(limit) == if limit < 1 then 50 else Min(limit, 200)
  {
  }

  /** The delays: 30 s, 1, 2, 4 and 8 minutes, then 15 minutes for ever. */
  lemma BackoffValues(n: int)
    ensures Backoff(n) == if n <= 1 then 30_000 else if n == 2 then 60_000 else if n == 3 then 120_000
                          else if n == 4 then 240_000 else if n == 5 then 480_000 else 900_000
  {
    if n > 5 { Pow2Monotone(5, n - 1); }
    assert Pow2(1) == 2 && Pow2(2) == 4 && Pow2(3) == 8 && Pow2(4) == 16 && Pow2(5) == 32;
  }

  // ------------------------------------------------------------------ how a run ends

  /** The row a failure leaves: dead if it is permanent or the fifth attempt, else waiting for the backoff. */
  lemma FailedRow(r: Run, attempts: nat, code: ErrorCode, permanent: bool, at: int)
    ensures var r' := FailRow(r, attempts, code, permanent, at); var over := permanent || attempts >= 5;
            && r'.status == (if over then Dead else Retry)
            && r'.nextAttemptAt == (if over then 0 else at + Backoff(attempts))
            && r'.completedAt == (if over then at else 0)
            && r' == r.(status := r'.status, nextAttemptAt := r'.nextAttemptAt, completedAt := r'.completedAt, updateAt := at,
                        claimedAt := 0, leaseUntil := 0, claimToken := 0, errorCode := code)
  {
  }

  /** The row a success leaves: finished, naming its result. */
  lemma SucceededRow(r: Run, resultType: ResultType, resultId: string, at: int)
    ensures SucceedRow(r, resultType, resultId, at)
         == r.(status := Succeeded, resultType := resultType, resultId := resultId, completedAt := at, updateAt := at,
               nextAttemptAt := 0, claimedAt := 0, leaseUntil := 0, claimToken := 0, errorCode := NoError)
  {
  }

  /** Over every run: a failure reported by the holder counts the attempts of the row, and is final at the fifth. */
  lemma FailureOutcome(steps: seq<Step>, token: nat, at: int)
    requires var s := Exec(Empty, steps);
      token in s.claims && s.claims[token].phase.Failed? && Holds(s.runs, s.claims[token].runId, token)
    ensures var s, t := Exec(Empty, steps), Exec(Empty, steps + [Fail(token, at)]); var c := s.claims[token];
            && c.runId in t.runs
            && (t.runs[c.runId].status == Dead <==> c.phase.permanent || s.runs[c.runId].attempts >= 5)
            && (t.runs[c.runId].status == Retry <==> !c.phase.permanent && s.runs[c.runId].attempts < 5)
            && t.runs[c.runId].errorCode == c.phase.code
  {
    ReachableInv(steps);
    var s := Exec(Empty, steps);
    var c := s.claims[token];
    assert RunOk(s, c.runId);
    FailedRow(s.runs[c.runId], c.attempts, c.phase.code, c.phase.permanent, at);
    ExecAppend(Empty, steps, Fail(token, at));
  }

  /** A success reported by the holder names the object its execution found or made. */
  lemma SuccessOutcome(s: State, token: nat, at: int)
    requires token in s.claims && s.claims[token].phase.Effected? && Holds(s.runs, s.claims[token].runId, token)
    ensures var c, t := s.claims[token], DoSucceed(s, token, at);
            && c.runId in t.runs && t.runs[c.runId].status == Succeeded
            && t.runs[c.runId].resultType == c.phase.resultType && t.runs[c.runId].resultId == c.phase.resultId
            && t.claims[token].phase == Finished
  {
    SucceededRow(s.runs[s.claims[token].runId], s.claims[token].phase.resultType, s.claims[token].phase.resultId, at);
  }

  /** The row is held by the token: processing, under that token, which is not the empty one. */
  lemma HeldMeans(runs: map<RunId, Run>, id: RunId, token: nat)
    ensures Holds(runs, id, token) <==>
              token != 0 && id in runs && runs[id].status == Processing && runs[id].claimToken == token
  {
  }

  /** Switching a rule off or deleting it cancels exactly its pending and retrying runs; saving it enabled cancels none. */
  lemma CancelOutcome(s: State, ruleId: string, enabled: bool, at: int, id: RunId)
    requires id in s.runs
    ensures var r, r' := s.runs[id], DoSaveRule(s, ruleId, enabled, at).runs[id];
            var live := !(ruleId in s.rules && s.rules[ruleId].deleted);
            var hit := live && !enabled && r.ruleId == ruleId && (r.status == Pending || r.status == Retry);
            && id in DoSaveRule(s, ruleId, enabled, at).runs
            && (hit ==> r' == r.(status := Cancelled, updateAt := at, completedAt := at, claimedAt := 0, leaseUntil := 0, claimToken := 0))
            && (!hit ==> r' == r)
    ensures var r, r' := s.runs[id], DoDeleteRule(s, ruleId, at).runs[id];
            var live := ruleId in s.rules && !s.rules[ruleId].deleted;
            var hit := live && r.ruleId == ruleId && (r.status == Pending || r.status == Retry);
            && id in DoDeleteRule(s, ruleId, at).runs
            && (hit ==> r' == r.(status := Cancelled, updateAt := at, completedAt := at, claimedAt := 0, leaseUntil := 0, claimToken := 0))
            && (!hit ==> r' == r)
  {
  }

  /** A rule is active after a save exactly if it was saved enabled and is not deleted; a deleted one stays off for ever. */
  lemma RuleOutcome(s: State, ruleId: string, enabled: bool, at: int)
    ensures RuleActive(DoSaveRule(s, ruleId, enabled, at), ruleId) <==>
              enabled && !(ruleId in s.rules && s.rules[ruleId].deleted)
    ensures ruleId in s.rules && !s.rules[ruleId].deleted ==>
              var t := DoDeleteRule(s, ruleId, at);
              ruleId in t.rules && t.rules[ruleId].deleted && !t.rules[ruleId].enabled && !RuleActive(DoSaveRule(t, ruleId, true, at), ruleId)
  {
  }

  // ------------------------------------------------------------------ which runs a post creates

  /** Some matching action names the run for this post. */
  predicate MatchedBy(candidates: seq<Candidate>, postId: string, id: RunId) {
    exists k :: 0 <= k < |candidates| && candidates[k].matches
                && id == candidates[k].ruleId + ['\0'] + candidates[k].actionId + ['\0'] + postId
  }

  /**
   * A post creates a run for every matching action that has none yet, and no other. The run is pending, due at the
   * post's time, with no attempts, for the actor and action of its rule.
   */
  lemma {:induction false} EnqueueOutcome(runs: map<RunId, Run>, candidates: seq<Candidate>, postId: string, at: int, id: RunId)
    ensures var after := EnqueueAll(runs, candidates, postId, at);
            && (id in runs ==> id in after && after[id] == runs[id])
            && (id in after <==> id in runs || MatchedBy(candidates, postId, id))
            && (id in after && id !in runs ==>
                  && after[id].status == Pending && after[id].attempts == 0 && after[id].nextAttemptAt == at
                  && after[id].createAt == at && after[id].updateAt == at && after[id].claimToken == 0 && after[id].postId == postId
                  && (exists k :: 0 <= k < |candidates| && candidates[k].matches
                                  && after[id].ruleId == candidates[k].ruleId && after[id].actionId == candidates[k].actionId
                                  && after[id].actorId == candidates[k].actorId && after[id].kind == candidates[k].kind))
  {
    if candidates != [] {
      var last := |candidates| - 1;
      EnqueueOutcome(runs, candidates[..last], postId, at, id);
      assert forall k | 0 <= k < last :: candidates[..last][k] == candidates[k];
    }
  }

  /** A rule that is switched off or deleted makes no runs for new posts. */
  lemma InactiveRuleEnqueuesNothing(s: State, c: Candidate, postId: string, at: int)
    requires !(c.ruleId in s.rules && s.rules[c.ruleId].enabled && !s.rules[c.ruleId].deleted)
    ensures DoEnqueue(s, c, postId, at) == s
  {
  }

  // ------------------------------------------------------------------ no effect without a check

  /** Step `j` checked the token's run: post readable, actor a member, rule enabled and not deleted. */
  predicate CheckedAt(steps: seq<Step>, token: nat, j: nat) {
    && j < |steps| && steps[j] == CheckAccess(token, true, true)
    && var s := Exec(Empty, steps[..j]);
       && token in s.claims && s.claims[token].runId in s.runs
       && var ruleId := s.runs[s.claims[token].runId].ruleId;
          ruleId in s.rules && s.rules[ruleId].enabled && !s.rules[ruleId].deleted
  }

  lemma CheckedAtLonger(steps: seq<Step>, token: nat, j: nat)
    requires steps != [] && CheckedAt(steps[..|steps| - 1], token, j)
    ensures CheckedAt(steps, token, j)
  {
    assert steps[..|steps| - 1][..j] == steps[..j];
  }

  lemma PhaseMoves(s: State, step: Step, token: nat)
    requires token in Apply(s, step).claims && Apply(s, step).claims[token].phase == Checked
    requires token in s.claims ==> s.claims[token].phase != Checked
    requires s.nextToken !in s.claims
    ensures step == CheckAccess(token, true, true) && token in s.claims && s.claims[token].runId in s.runs
    ensures RuleActive(s, s.runs[s.claims[token].runId].ruleId)
  {
    match step
    case CreateItem(t, fingerprint, freshId, lost) =>
    case CreateReminder(t, lost) =>
    case _ =>
  }

  /** Over every run: a claim that may act has passed the checks. */
  lemma {:induction false} CheckedClaimWasChecked(steps: seq<Step>, token: nat) returns (j: nat)
    requires var s := Exec(Empty, steps); token in s.claims && s.claims[token].phase == Checked
    ensures CheckedAt(steps, token, j)
  {
    assert steps != [];
    var before, last := steps[..|steps| - 1], steps[|steps| - 1];
    var s := Exec(Empty, before);
    ReachableInv(before);
    TokensInRange(s);
    if token in s.claims && s.claims[token].phase == Checked {
      j := CheckedClaimWasChecked(before, token);
      CheckedAtLonger(steps, token, j);
    } else {
      PhaseMoves(s, last, token);
      j := |before|;
      assert steps[..j] == before;
    }
  }

  /** Over every run: a step creates an object only for a claim whose run was checked by an earlier step. */
  lemma EffectNeedsCheck(steps: seq<Step>, step: Step, key: EffectKey) returns (token: nat, j: nat)
    requires Count(Exec(Empty, steps + [step]).creations, key) != Count(Exec(Empty, steps).creations, key)
    ensures (step.CreateItem? || step.CreateReminder?) && step.token == token && CheckedAt(steps, token, j)
    ensures var s := Exec(Empty, steps);
            token in s.claims && s.claims[token].runId in s.runs && key == EffectKeyOf(s.claims[token].runId, s.runs[s.claims[token].runId])
  {
    ExecAppend(Empty, steps, step);
    var s := Exec(Empty, steps);
    CreationStep(s, step, key);
    token := step.token;
    j := CheckedClaimWasChecked(steps, token);
  }

  lemma CreationStep(s: State, step: Step, key: EffectKey)
    requires Count(Apply(s, step).creations, key) != Count(s.creations, key)
    ensures step.CreateItem? || step.CreateReminder?
    ensures step.token in s.claims && s.claims[step.token].phase == Checked && s.claims[step.token].runId in s.runs
    ensures key == EffectKeyOf(s.claims[step.token].runId, s.runs[s.claims[step.token].runId])
  {
    match step
    case CreateItem(t, fingerprint, freshId, lost) =>
    case CreateReminder(t, lost) =>
    case _ =>
  }

  /** A failed check makes the claim fail for good: a lost membership or post, or an inactive rule. */
  lemma RefusedCheck(s: State, token: nat, readable: bool, authorized: bool)
    requires token in s.claims && s.claims[token].phase == Claimed && s.claims[token].runId in s.runs
    ensures var t := DoCheck(s, token, readable, authorized); var ruleId := s.runs[s.claims[token].runId].ruleId;
            var active := ruleId in s.rules && s.rules[ruleId].enabled && !s.rules[ruleId].deleted;
            && token in t.claims
            && (!readable || !authorized ==> t.claims[token].phase == Failed(AuthorizationRevoked, true))
            && (readable && authorized && !active ==> t.claims[token].phase == Failed(RuleInactive, true))
            && (readable && authorized && active ==> t.claims[token].phase == Checked)
  {
  }

  /** An action that goes wrong before or after the checks makes the claim fail with the given code. */
  lemma FailedAction(s: State, token: nat, code: ErrorCode, permanent: bool)
    requires token in s.claims && (s.claims[token].phase == Claimed || s.claims[token].phase == Checked)
    ensures token in DoError(s, token, code, permanent).claims
    ensures DoError(s, token, code, permanent).claims[token] == s.claims[token].(phase := Failed(code, permanent))
  {
  }

  /**
   * What an execution leaves: under the run's own key there is an object, old or new. A work item is the result unless it
   * was trashed or made from another request, which is a failure that may be retried.
   */
  lemma ItemOutcome(s: State, token: nat, fingerprint: string, freshId: string)
    requires token in s.claims && s.claims[token].phase == Checked && s.claims[token].runId in s.runs
    requires s.runs[s.claims[token].runId].kind != Reminder
    ensures var t := DoCreateItem(s, token, fingerprint, freshId, false);
            var key := ItemKey(s.runs[s.claims[token].runId].actorId, "automation:" + s.claims[token].runId);
            && token in t.claims && key in t.effects
            && (key !in s.effects ==> t.effects[key] == Effect(freshId, fingerprint, false))
            && (key in s.effects ==> t.effects == s.effects)
            && (t.claims[token].phase == (if t.effects[key].deleted || t.effects[key].fingerprint != fingerprint
                                          then Failed(ExecutionFailed, false) else Effected(WorkItemResult, t.effects[key].id)))
  {
  }

  lemma ReminderOutcome(s: State, token: nat)
    requires token in s.claims && s.claims[token].phase == Checked && s.claims[token].runId in s.runs
    requires s.runs[s.claims[token].runId].kind == Reminder
    ensures var t := DoCreateReminder(s, token, false); var id := "automation-" + s.claims[token].runId;
            && token in t.claims && ReminderKey(id) in t.effects
            && (ReminderKey(id) in s.effects ==> t.effects == s.effects)
            && t.claims[token].phase == Effected(ReminderResult, id)
  {
  }
}
