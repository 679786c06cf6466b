/**
 * Every run of the automation workers: any number of workers, crashes (a holder that simply stops),
 * pauses (a holder that acts late), stolen leases, rule edits and deletions of the created objects,
 * in any order and with no timing assumption.
 */
module AutomationRuns {
  import opened Wrappers
  import opened Automations

  /** How far the holder of one claim token has got. */
  datatype Phase =
    | Claimed
    | Checked
    | Effected(resultType: ResultType, resultId: string)
    | Failed(code: ErrorCode, permanent: bool)
    | Finished

  /** The worker's copy of the claimed row. */
  datatype Claim = Claim(runId: RunId, attempts: nat, phase: Phase)

  /** Unique keys of the created objects: (created_by, idempotency_key), or the reminder's primary key. */
  datatype EffectKey = ItemKey(createdBy: string, idempotencyKey: string) | ReminderKey(id: string)

  datatype Effect = Effect(id: string, fingerprint: string, deleted: bool)

  datatype RuleState = RuleState(enabled: bool, deleted: bool)

  datatype State = State(
    runs: map<RunId, Run>,
    effects: map<EffectKey, Effect>,
    rules: map<string, RuleState>,
    claims: map<nat, Claim>,
    nextToken: nat,
    creations: map<EffectKey, nat>,
    removals: map<EffectKey, nat>)

  const Empty: State := State(map[], map[], map[], map[], 1, map[], map[])

  datatype Step =
    | EnqueueRun(candidate: Candidate, postId: string, at: int)
    | ClaimOne(id: RunId, now: int)
    | CheckAccess(token: nat, readable: bool, authorized: bool)
    | ActionError(token: nat, code: ErrorCode, permanent: bool)
    | CreateItem(token: nat, fingerprint: string, freshId: string, responseLost: bool)
    | CreateReminder(token: nat, responseLost: bool)
    | Succeed(token: nat, at: int)
    | Fail(token: nat, at: int)
    | SaveRule(ruleId: string, enabled: bool, at: int)
    | DeleteRule(ruleId: string, at: int)
    | TrashItem(key: EffectKey)
    | CancelReminder(id: string)

  function Count(m: map<EffectKey, nat>, k: EffectKey): nat {
    if k in m then m[k] else 0
  }

  const ITEM_KEY_PREFIX: string := "automation:"
  const REMINDER_ID_PREFIX: string := "automation-"

  function ItemKeyOf(id: RunId): string {
    ITEM_KEY_PREFIX + id
  }

  function ReminderIdOf(id: RunId): string {
    REMINDER_ID_PREFIX + id
  }

  function EffectKeyOf(id: RunId, r: Run): EffectKey {
    if r.kind == Reminder then ReminderKey(ReminderIdOf(id)) else ItemKey(r.actorId, ItemKeyOf(id))
  }

  predicate RuleActive(s: State, ruleId: string) {
    ruleId in s.rules && s.rules[ruleId].enabled && !s.rules[ruleId].deleted
  }

  function SetPhase(s: State, token: nat, phase: Phase): (t: State)
    requires token in s.claims
    ensures t.runs == s.runs
  {
    s.(claims := s.claims[token := s.claims[token].(phase := phase)])
  }

  function AddEffect(s: State, key: EffectKey, e: Effect): (t: State)
    ensures t.runs == s.runs && t.claims == s.claims && t.nextToken == s.nextToken
  {
    s.(effects := s.effects[key := e], creations := s.creations[key := Count(s.creations, key) + 1])
  }

  function DoEnqueue(s: State, c: Candidate, postId: string, at: int): State {
    if RuleActive(s, c.ruleId) && NoNul(c.ruleId) && NoNul(c.actionId) && NoNul(postId)
    then s.(runs := Enqueue(s.runs, c, postId, at)) else s
  }

  function DoClaim(s: State, id: RunId, now: int): State {
    if id in s.runs && Due(s.runs[id], now) then
      s.(runs := s.runs[id := ClaimRow(s.runs[id], now, s.nextToken)],
      claims := s.claims[s.nextToken := Claim(id, s.runs[id].attempts + 1, Claimed)],
      nextToken := s.nextToken + 1)
    else s
  }

  /** The membership and rule checks at the head of `executeAction`. */
  function DoCheck(s: State, token: nat, readable: bool, authorized: bool): (t: State)
    ensures t.runs == s.runs
  {
    if token in s.claims && s.claims[token].phase == Claimed && s.claims[token].runId in s.runs then
      SetPhase(s, token,
        if !readable || !authorized then Failed(AuthorizationRevoked, true)
        else if !RuleActive(s, s.runs[s.claims[token].runId].ruleId) then Failed(RuleInactive, true)
        else Checked)
    else s
  }

  function DoError(s: State, token: nat, code: ErrorCode, permanent: bool): (t: State)
    ensures t.runs == s.runs
  {
    if token in s.claims && (s.claims[token].phase == Claimed || s.claims[token].phase == Checked)
    then SetPhase(s, token, Failed(code, permanent)) else s
  }

  /** Inserting a work item under its idempotency key; a different or trashed earlier item is a conflict. */
  function DoCreateItem(s: State, token: nat, fingerprint: string, freshId: string, responseLost: bool): (t: State)
    ensures t.runs == s.runs
  {
    if token in s.claims && s.claims[token].phase == Checked && s.claims[token].runId in s.runs
       && s.runs[s.claims[token].runId].kind != Reminder then
      var key := EffectKeyOf(s.claims[token].runId, s.runs[s.claims[token].runId]);
      var conflict := key in s.effects && (s.effects[key].deleted || s.effects[key].fingerprint != fingerprint);
      var t := if key in s.effects then s else AddEffect(s, key, Effect(freshId, fingerprint, false));
      SetPhase(t, token,
        if conflict || responseLost then Failed(ExecutionFailed, false) else Effected(WorkItemResult, t.effects[key].id))
    else s
  }

  /** `INSERT INTO post_reminders ... ON CONFLICT (id) DO NOTHING`. */
  function DoCreateReminder(s: State, token: nat, responseLost: bool): (t: State)
    ensures t.runs == s.runs
  {
    if token in s.claims && s.claims[token].phase == Checked && s.claims[token].runId in s.runs
       && s.runs[s.claims[token].runId].kind == Reminder then
      var id := ReminderIdOf(s.claims[token].runId);
      var t := if ReminderKey(id) in s.effects then s else AddEffect(s, ReminderKey(id), Effect(id, "", false));
      SetPhase(t, token, if responseLost then Failed(ExecutionFailed, false) else Effected(ReminderResult, id))
    else s
  }

  function DoSucceed(s: State, token: nat, at: int): State {
    if token in s.claims && s.claims[token].phase.Effected? then
      var c := s.claims[token];
      var runs := if Holds(s.runs, c.runId, token)
                  then s.runs[c.runId := SucceedRow(s.runs[c.runId], c.phase.resultType, c.phase.resultId, at)] else s.runs;
      SetPhase(s.(runs := runs), token, Finished)
    else s
  }

  function DoFail(s: State, token: nat, at: int): State {
    if token in s.claims && s.claims[token].phase.Failed? then
      var c := s.claims[token];
      var runs := if Holds(s.runs, c.runId, token)
                  then s.runs[c.runId := FailRow(s.runs[c.runId], c.attempts, c.phase.code, c.phase.permanent, at)] else s.runs;
      SetPhase(s.(runs := runs), token, Finished)
    else s
  }

  function DoSaveRule(s: State, ruleId: string, enabled: bool, at: int): State {
    if ruleId in s.rules && s.rules[ruleId].deleted then s
    else s.(rules := s.rules[ruleId := RuleState(enabled, false)],
            runs := if enabled then s.runs else CancelWaiting(s.runs, ruleId, at))
  }

  function DoDeleteRule(s: State, ruleId: string, at: int): State {
    if ruleId in s.rules && !s.rules[ruleId].deleted then
      s.(rules := s.rules[ruleId := RuleState(false, true)], runs := CancelWaiting(s.runs, ruleId, at))
    else s
  }

  /** Work items are only soft-deleted. */
  function DoTrashItem(s: State, key: EffectKey): (t: State)
    ensures t.runs == s.runs
  {
    if key.ItemKey? && key in s.effects then s.(effects := s.effects[key := s.effects[key].(deleted := true)]) else s
  }

  /** A user cancelling a reminder removes its row. */
  function DoCancelReminder(s: State, id: string): (t: State)
    ensures t.runs == s.runs
  {
    var key := ReminderKey(id);
    if key in s.effects then
      s.(effects := s.effects - {key}, removals := s.removals[key := Count(s.removals, key) + 1])
    else s
  }

  function Apply(s: State, step: Step): State {
    match step
    case EnqueueRun(c, postId, at) => DoEnqueue(s, c, postId, at)
    case ClaimOne(id, now) => DoClaim(s, id, now)
    case CheckAccess(token, readable, authorized) => DoCheck(s, token, readable, authorized)
    case ActionError(token, code, permanent) => DoError(s, token, code, permanent)
    case CreateItem(token, fingerprint, freshId, lost) => DoCreateItem(s, token, fingerprint, freshId, lost)
    case CreateReminder(token, lost) => DoCreateReminder(s, token, lost)
    case Succeed(token, at) => DoSucceed(s, token, at)
    case Fail(token, at) => DoFail(s, token, at)
    case SaveRule(ruleId, enabled, at) => DoSaveRule(s, ruleId, enabled, at)
    case DeleteRule(ruleId, at) => DoDeleteRule(s, ruleId, at)
    case TrashItem(key) => DoTrashItem(s, key)
    case CancelReminder(id) => DoCancelReminder(s, id)
  }

  function Exec(s: State, steps: seq<Step>): State {
    if steps == [] then s else Apply(Exec(s, steps[..|steps| - 1]), steps[|steps| - 1])
  }

  // ------------------------------------------------------------------ invariant

  /** What each status says about the other columns of the row. */
  ghost predicate RowOk(r: Run) {
    && (r.claimToken != 0 <==> r.status == Processing)
    && (r.status == Pending ==> r.attempts == 0 && r.nextAttemptAt == r.createAt)
    && (r.status == Processing ==> r.attempts >= 1 && r.leaseUntil == r.claimedAt + LEASE_MS && r.claimedAt == r.updateAt)
    && (r.status == Retry ==> 1 <= r.attempts < MAX_ATTEMPTS && r.nextAttemptAt == r.updateAt + Backoff(r.attempts))
    && (r.status == Succeeded || r.status == Dead ==> r.attempts >= 1)
  }

  ghost predicate IdOk(id: RunId, r: Run) {
    && NoNul(r.ruleId) && NoNul(r.actionId) && NoNul(r.postId)
    && id == DeterministicRunId(r.ruleId, r.actionId, r.postId)
  }

  /** `token` is the newest claim ever issued for the run. */
  ghost predicate LatestClaim(s: State, id: RunId, token: nat) {
    && token in s.claims && s.claims[token].runId == id
    && forall t | t in s.claims && s.claims[t].runId == id :: t <= token
  }

  ghost predicate HolderOk(s: State, id: RunId)
    requires id in s.runs
  {
    var r := s.runs[id];
    r.status == Processing ==>
      LatestClaim(s, id, r.claimToken) && s.claims[r.claimToken].attempts == r.attempts
      && s.claims[r.claimToken].phase != Finished
  }

  /** The named result exists; a reminder may have been cancelled since it was created. */
  ghost predicate ResultNames(s: State, id: RunId, r: Run, resultType: ResultType, resultId: string) {
    var key := EffectKeyOf(id, r);
    if r.kind == Reminder
    then resultType == ReminderResult && resultId == ReminderIdOf(id) && Count(s.creations, key) >= 1
    else resultType == WorkItemResult && key in s.effects && s.effects[key].id == resultId
  }

  ghost predicate ClaimOk(s: State, token: nat)
    requires token in s.claims
  {
    var c := s.claims[token];
    && 1 <= token < s.nextToken
    && c.runId in s.runs
    && (c.phase.Effected? ==> ResultNames(s, c.runId, s.runs[c.runId], c.phase.resultType, c.phase.resultId))
  }

  ghost predicate RunOk(s: State, id: RunId)
    requires id in s.runs
  {
    var r := s.runs[id];
    && RowOk(r) && IdOk(id, r) && HolderOk(s, id)
    && (r.status == Succeeded ==> ResultNames(s, id, r, r.resultType, r.resultId))
  }

  /** Created objects minus removed objects are the objects that exist, and only reminders are removed. */
  ghost predicate EffectsConserved(s: State) {
    forall k: EffectKey ::
      && Count(s.creations, k) == Count(s.removals, k) + (if k in s.effects then 1 else 0)
      && (k.ItemKey? ==> Count(s.removals, k) == 0)
  }

  ghost predicate Inv(s: State) {
    && s.nextToken >= 1
    && (forall id | id in s.runs :: RunOk(s, id))
    && (forall t | t in s.claims :: ClaimOk(s, t))
    && EffectsConserved(s)
  }

  /** Created objects are never replaced, and creation counts never fall. */
  ghost predicate EffectsKept(s: State, t: State) {
    forall k: EffectKey ::
      && Count(s.creations, k) <= Count(t.creations, k)
      && (k.ItemKey? && k in s.effects ==> k in t.effects && t.effects[k].id == s.effects[k].id)
  }

  ghost predicate SameClaims(s: State, t: State) {
    && t.claims.Keys == s.claims.Keys && t.nextToken == s.nextToken
    && forall k | k in s.claims :: t.claims[k].runId == s.claims[k].runId && t.claims[k].attempts == s.claims[k].attempts
  }

  lemma TokensInRange(s: State)
    requires Inv(s)
    ensures forall t | t in s.claims :: 1 <= t < s.nextToken && s.claims[t].runId in s.runs
  {
    forall t | t in s.claims ensures 1 <= t < s.nextToken && s.claims[t].runId in s.runs {
      assert ClaimOk(s, t);
    }
  }

  lemma UntouchedRun(s: State, t: State, id: RunId)
    requires id in s.runs && id in t.runs && t.runs[id] == s.runs[id] && RunOk(s, id)
    requires SameClaims(s, t) && EffectsKept(s, t)
    requires s.runs[id].claimToken in t.claims ==> t.claims[s.runs[id].claimToken].phase != Finished
    ensures RunOk(t, id)
  {
    var r := s.runs[id];
    if r.status == Processing {
      assert LatestClaim(s, id, r.claimToken);
      assert LatestClaim(t, id, r.claimToken);
    }
  }

  lemma UntouchedClaim(s: State, t: State, k: nat)
    requires k in s.claims && k in t.claims && t.claims[k] == s.claims[k] && ClaimOk(s, k)
    requires s.nextToken <= t.nextToken && EffectsKept(s, t) && s.claims[k].runId in t.runs
    requires EffectKeyOf(s.claims[k].runId, t.runs[s.claims[k].runId]) == EffectKeyOf(s.claims[k].runId, s.runs[s.claims[k].runId])
    requires t.runs[s.claims[k].runId].kind == s.runs[s.claims[k].runId].kind
    ensures ClaimOk(t, k)
  {
  }

  /** Moving the phase of one claim that has not been finalised. */
  lemma PhaseKeepsInv(s: State, token: nat, phase: Phase)
    requires Inv(s) && token in s.claims && phase != Finished
    requires phase.Effected? ==> ResultNamesOf(s, token, phase.resultType, phase.resultId)
    ensures Inv(SetPhase(s, token, phase))
  {
    var t := SetPhase(s, token, phase);
    forall i | i in t.runs ensures RunOk(t, i) {
      assert RunOk(s, i);
      UntouchedRun(s, t, i);
    }
    forall k | k in t.claims ensures ClaimOk(t, k) {
      assert ClaimOk(s, k);
      if k != token { UntouchedClaim(s, t, k); }
    }
  }

  ghost predicate ResultNamesOf(s: State, token: nat, resultType: ResultType, resultId: string) {
    && token in s.claims && s.claims[token].runId in s.runs
    && ResultNames(s, s.claims[token].runId, s.runs[s.claims[token].runId], resultType, resultId)
  }

  /** A change of the created objects and of the rules alone. */
  lemma EffectsChangeKeepsInv(s: State, t: State)
    requires Inv(s) && t.runs == s.runs && t.claims == s.claims && t.nextToken == s.nextToken
    requires EffectsKept(s, t) && EffectsConserved(t)
    ensures Inv(t)
  {
    forall i | i in t.runs ensures RunOk(t, i) {
      assert RunOk(s, i);
      UntouchedRun(s, t, i);
    }
    forall k | k in t.claims ensures ClaimOk(t, k) {
      assert ClaimOk(s, k);
      UntouchedClaim(s, t, k);
    }
  }

  lemma CheckKeepsInv(s: State, token: nat, readable: bool, authorized: bool)
    requires Inv(s)
    ensures Inv(DoCheck(s, token, readable, authorized))
  {
    var t := DoCheck(s, token, readable, authorized);
    if t != s {
      PhaseKeepsInv(s, token, t.claims[token].phase);
    }
  }

  lemma ErrorKeepsInv(s: State, token: nat, code: ErrorCode, permanent: bool)
    requires Inv(s)
    ensures Inv(DoError(s, token, code, permanent))
  {
    if token in s.claims {
      PhaseKeepsInv(s, token, Failed(code, permanent));
    }
  }

  lemma AddEffectKeepsInv(s: State, key: EffectKey, e: Effect)
    requires Inv(s) && key !in s.effects
    ensures Inv(AddEffect(s, key, e))
  {
    var t := AddEffect(s, key, e);
    forall k: EffectKey
      ensures Count(t.creations, k) == Count(t.removals, k) + (if k in t.effects then 1 else 0)
      ensures k.ItemKey? ==> Count(t.removals, k) == 0
    {
      assert Count(s.creations, k) == Count(s.removals, k) + (if k in s.effects then 1 else 0);
    }
    EffectsChangeKeepsInv(s, t);
  }

  lemma CreateItemKeepsInv(s: State, token: nat, fingerprint: string, freshId: string, lost: bool)
    requires Inv(s)
    ensures Inv(DoCreateItem(s, token, fingerprint, freshId, lost))
  {
    var t := DoCreateItem(s, token, fingerprint, freshId, lost);
    if t != s {
      var key := EffectKeyOf(s.claims[token].runId, s.runs[s.claims[token].runId]);
      var e := Effect(freshId, fingerprint, false);
      if key !in s.effects { AddEffectKeepsInv(s, key, e); }
      PhaseKeepsInv(if key in s.effects then s else AddEffect(s, key, e), token, t.claims[token].phase);
    }
  }

  lemma CreateReminderKeepsInv(s: State, token: nat, lost: bool)
    requires Inv(s)
    ensures Inv(DoCreateReminder(s, token, lost))
  {
    var t := DoCreateReminder(s, token, lost);
    if t != s {
      var id := ReminderIdOf(s.claims[token].runId);
      var key := ReminderKey(id);
      var u := if key in s.effects then s else AddEffect(s, key, Effect(id, "", false));
      if key !in s.effects { AddEffectKeepsInv(s, key, Effect(id, "", false)); }
      assert Count(u.creations, key) == Count(u.removals, key) + (if key in u.effects then 1 else 0);
      PhaseKeepsInv(u, token, t.claims[token].phase);
    }
  }

  lemma TrashKeepsInv(s: State, key: EffectKey)
    requires Inv(s)
    ensures Inv(DoTrashItem(s, key))
  {
    if key.ItemKey? && key in s.effects {
      var t := DoTrashItem(s, key);
      TrashConserves(s, key);
      EffectsChangeKeepsInv(s, t);
    }
  }

  lemma TrashConserves(s: State, key: EffectKey)
    requires EffectsConserved(s) && key.ItemKey? && key in s.effects
    ensures EffectsConserved(DoTrashItem(s, key)) && EffectsKept(s, DoTrashItem(s, key))
  {
    var t := DoTrashItem(s, key);
    assert t.creations == s.creations && t.removals == s.removals;
    assert t.effects == s.effects[key := s.effects[key].(deleted := true)];
    forall k: EffectKey
      ensures Count(t.creations, k) == Count(t.removals, k) + (if k in t.effects then 1 else 0)
      ensures k.ItemKey? ==> Count(t.removals, k) == 0
    {
      assert Count(s.creations, k) == Count(s.removals, k) + (if k in s.effects then 1 else 0);
      assert k in t.effects <==> k in s.effects;
    }
  }

  lemma CancelReminderKeepsInv(s: State, id: string)
    requires Inv(s)
    ensures Inv(DoCancelReminder(s, id))
  {
    var t := DoCancelReminder(s, id);
    forall k: EffectKey
      ensures Count(t.creations, k) == Count(t.removals, k) + (if k in t.effects then 1 else 0)
      ensures k.ItemKey? ==> Count(t.removals, k) == 0
    {
      assert Count(s.creations, k) == Count(s.removals, k) + (if k in s.effects then 1 else 0);
    }
    EffectsChangeKeepsInv(s, t);
  }

  lemma ClaimKeepsInv(s: State, id: RunId, now: int)
    requires Inv(s)
    ensures Inv(DoClaim(s, id, now))
  {
    var t := DoClaim(s, id, now);
    if t != s {
      assert RunOk(s, id);
      forall k | k in t.claims ensures ClaimOk(t, k) {
        if k != s.nextToken {
          assert ClaimOk(s, k);
          UntouchedClaim(s, t, k);
        }
      }
      forall i | i in t.runs ensures RunOk(t, i) {
        assert RunOk(s, i);
        if i == id || s.runs[i].status == Processing {
          assert LatestClaim(t, i, t.runs[i].claimToken);
        }
      }
    }
  }

  /** Replacing a row by a well-formed version that nobody holds. */
  lemma ReplaceRowKeepsInv(s: State, id: RunId, row: Run)
    requires Inv(s) && id in s.runs && RowOk(row) && row.status != Processing && SameRun(s.runs[id], row)
    requires row.status == Succeeded ==> ResultNames(s, id, s.runs[id], row.resultType, row.resultId)
    ensures Inv(s.(runs := s.runs[id := row]))
  {
    var t := s.(runs := s.runs[id := row]);
    assert RunOk(s, id);
    forall i | i in t.runs ensures RunOk(t, i) {
      assert RunOk(s, i);
    }
    forall k | k in t.claims ensures ClaimOk(t, k) {
      assert ClaimOk(s, k);
      UntouchedClaim(s, t, k);
    }
  }

  predicate SameRun(r: Run, row: Run) {
    && row.ruleId == r.ruleId && row.actionId == r.actionId && row.postId == r.postId
    && row.actorId == r.actorId && row.kind == r.kind
  }

  /** A finalising statement by the holder of the run. */
  lemma FinaliseKeepsInv(s: State, token: nat, row: Run)
    requires Inv(s) && token in s.claims && Holds(s.runs, s.claims[token].runId, token)
    requires RowOk(row) && row.status != Processing && SameRun(s.runs[s.claims[token].runId], row)
    requires row.status == Succeeded ==> ResultNamesOf(s, token, row.resultType, row.resultId)
    ensures Inv(SetPhase(s.(runs := s.runs[s.claims[token].runId := row]), token, Finished))
  {
    var id := s.claims[token].runId;
    ReplaceRowKeepsInv(s, id, row);
    StaleKeepsInv(s.(runs := s.runs[id := row]), token);
  }

  /** A finalising statement that matched no row only ends its holder. */
  lemma StaleKeepsInv(s: State, token: nat)
    requires Inv(s) && token in s.claims && !Holds(s.runs, s.claims[token].runId, token)
    ensures Inv(SetPhase(s, token, Finished))
  {
    var t := SetPhase(s, token, Finished);
    forall i | i in t.runs ensures RunOk(t, i) {
      assert RunOk(s, i);
      if s.runs[i].status == Processing { assert LatestClaim(s, i, s.runs[i].claimToken); }
      assert ClaimOk(s, token);
      UntouchedRun(s, t, i);
    }
    forall k | k in t.claims ensures ClaimOk(t, k) {
      assert ClaimOk(s, k);
      if k != token { UntouchedClaim(s, t, k); }
    }
  }

  lemma SucceedKeepsInv(s: State, token: nat, at: int)
    requires Inv(s)
    ensures Inv(DoSucceed(s, token, at))
  {
    if token in s.claims && s.claims[token].phase.Effected? {
      var c := s.claims[token];
      assert ClaimOk(s, token) && RunOk(s, c.runId);
      if Holds(s.runs, c.runId, token) {
        FinaliseKeepsInv(s, token, SucceedRow(s.runs[c.runId], c.phase.resultType, c.phase.resultId, at));
      } else {
        StaleKeepsInv(s, token);
      }
    }
  }

  lemma FailKeepsInv(s: State, token: nat, at: int)
    requires Inv(s)
    ensures Inv(DoFail(s, token, at))
  {
    if token in s.claims && s.claims[token].phase.Failed? {
      var c := s.claims[token];
      assert ClaimOk(s, token) && RunOk(s, c.runId);
      if Holds(s.runs, c.runId, token) {
        FinaliseKeepsInv(s, token, FailRow(s.runs[c.runId], c.attempts, c.phase.code, c.phase.permanent, at));
      } else {
        StaleKeepsInv(s, token);
      }
    }
  }

  lemma CancelKeepsInv(s: State, rules: map<string, RuleState>, ruleId: string, at: int)
    requires Inv(s)
    ensures Inv(s.(rules := rules, runs := CancelWaiting(s.runs, ruleId, at)))
  {
    var t := s.(rules := rules, runs := CancelWaiting(s.runs, ruleId, at));
    forall i | i in t.runs ensures RunOk(t, i) {
      assert RunOk(s, i);
      if t.runs[i] == s.runs[i] {
        if s.runs[i].status == Processing { assert LatestClaim(s, i, s.runs[i].claimToken); }
        TokensInRange(s);
        UntouchedRun(s, t, i);
      }
    }
    forall k | k in t.claims ensures ClaimOk(t, k) {
      assert ClaimOk(s, k);
      UntouchedClaim(s, t, k);
    }
  }

  lemma EnqueueKeepsInv(s: State, c: Candidate, postId: string, at: int)
    requires Inv(s)
    ensures Inv(DoEnqueue(s, c, postId, at))
  {
    var t := DoEnqueue(s, c, postId, at);
    forall i | i in t.runs ensures RunOk(t, i) {
      if i in s.runs {
        assert RunOk(s, i);
        if s.runs[i].status == Processing { assert LatestClaim(s, i, s.runs[i].claimToken); }
        TokensInRange(s);
        UntouchedRun(s, t, i);
      }
    }
    forall k | k in t.claims ensures ClaimOk(t, k) {
      assert ClaimOk(s, k);
      UntouchedClaim(s, t, k);
    }
  }

  lemma StepKeepsInv(s: State, step: Step)
    requires Inv(s)
    ensures Inv(Apply(s, step))
  {
    match step
    case EnqueueRun(c, postId, at) => EnqueueKeepsInv(s, c, postId, at);
    case ClaimOne(id, now) => ClaimKeepsInv(s, id, now);
    case CheckAccess(token, readable, authorized) => CheckKeepsInv(s, token, readable, authorized);
    case ActionError(token, code, permanent) => ErrorKeepsInv(s, token, code, permanent);
    case CreateItem(token, fingerprint, freshId, lost) => CreateItemKeepsInv(s, token, fingerprint, freshId, lost);
    case CreateReminder(token, lost) => CreateReminderKeepsInv(s, token, lost);
    case Succeed(token, at) => SucceedKeepsInv(s, token, at);
    case Fail(token, at) => FailKeepsInv(s, token, at);
    case SaveRule(ruleId, enabled, at) =>
      CancelKeepsInv(s, s.rules[ruleId := RuleState(enabled, false)], ruleId, at);
      EffectsChangeKeepsInv(s, s.(rules := s.rules[ruleId := RuleState(enabled, false)]));
    case DeleteRule(ruleId, at) => CancelKeepsInv(s, s.rules[ruleId := RuleState(false, true)], ruleId, at);
    case TrashItem(key) => TrashKeepsInv(s, key);
    case CancelReminder(id) => CancelReminderKeepsInv(s, id);
  }

  lemma {:induction false} ExecKeepsInv(s: State, steps: seq<Step>)
    requires Inv(s)
    ensures Inv(Exec(s, steps))
  {
    if steps != [] {
      ExecKeepsInv(s, steps[..|steps| - 1]);
      StepKeepsInv(Exec(s, steps[..|steps| - 1]), steps[|steps| - 1]);
    }
  }
}
