/**
 * Workers on one clock whose bounded calls end in time. A tick claims at most four runs with a 10 s
 * limit, then gives each run a 20 s action and a 5 s finalising call; everything else in the tick
 * shares the slack that the two-minute lease leaves over.
 */
module LeaseTiming {
  import opened Automations
  import opened AutomationRuns
  import opened AutomationSafety

  const CLAIM_TIMEOUT: int := 10_000
  const ACTION_TIMEOUT: int := 20_000
  const FINAL_TIMEOUT: int := 5_000
  const BATCH: nat := 4
  const SLACK: int := LEASE_MS - CLAIM_TIMEOUT - BATCH * (ACTION_TIMEOUT + FINAL_TIMEOUT) - 1

  datatype Stage = InClaim | BeforeAction | Executing | BeforeFinal | Finalising(marked: bool)

  /** A worker: idle, or inside the tick that passed `sampled` to its claim. */
  datatype Worker =
    | Idle
    | Busy(sampled: int, queue: seq<nat>, index: nat, stage: Stage, since: int, slackUsed: int)

  datatype Timed = Timed(db: State, clock: int, workers: map<nat, Worker>)

  datatype TimedStep =
    | Advance(ms: nat)
    | BeginTick(w: nat)
    | ClaimRun(w: nat, id: RunId)
    | ClaimReturns(w: nat)
    | BeginAction(w: nat)
    | Act(w: nat, step: Step)
    | ActionReturns(w: nat)
    | BeginFinal(w: nat)
    | Finalise(w: nat, at: int)
    | FinalReturns(w: nat)
    | EndTick(w: nat)
    | Crash(w: nat)
    | Environment(step: Step)

  predicate At(s: Timed, w: nat, stage: Stage) {
    w in s.workers && s.workers[w].Busy? && s.workers[w].stage == stage
  }

  /** Every bounded call ends within its limit, and the gaps of one tick fit the slack. */
  predicate OnTime(k: Worker, clock: int) {
    k.Busy? ==>
      match k.stage
      case InClaim => clock <= k.since + CLAIM_TIMEOUT
      case BeforeAction => k.slackUsed + (clock - k.since) <= SLACK
      case Executing => clock <= k.since + ACTION_TIMEOUT
      case BeforeFinal => k.slackUsed + (clock - k.since) <= SLACK
      case Finalising(_) => clock <= k.since + FINAL_TIMEOUT
  }

  predicate ActionStep(step: Step, token: nat) {
    match step
    case CheckAccess(t, _, _) => t == token
    case ActionError(t, _, _) => t == token
    case CreateItem(t, _, _, _) => t == token
    case CreateReminder(t, _) => t == token
    case _ => false
  }

  predicate EnvironmentStep(step: Step) {
    step.EnqueueRun? || step.SaveRule? || step.DeleteRule? || step.TrashItem? || step.CancelReminder?
  }

  /** The finalising call that `execute` makes for the outcome of the action. */
  function FinalStep(db: State, token: nat, at: int): Step
    requires token in db.claims
  {
    if db.claims[token].phase.Effected? then Succeed(token, at) else Fail(token, at)
  }

  predicate Enabled(s: Timed, step: TimedStep) {
    match step
    case Advance(ms) => forall w | w in s.workers :: OnTime(s.workers[w], s.clock + ms)
    case BeginTick(w) => w !in s.workers || s.workers[w].Idle?
    case ClaimRun(w, id) =>
      At(s, w, InClaim) && |s.workers[w].queue| < BATCH && id in s.db.runs && Due(s.db.runs[id], s.workers[w].sampled)
    case ClaimReturns(w) => At(s, w, InClaim)
    case BeginAction(w) => At(s, w, BeforeAction) && s.workers[w].index < |s.workers[w].queue|
    case Act(w, st) => At(s, w, Executing) && s.workers[w].index < |s.workers[w].queue|
                       && ActionStep(st, s.workers[w].queue[s.workers[w].index])
    case ActionReturns(w) =>
      At(s, w, Executing) && s.workers[w].index < |s.workers[w].queue|
      && var token := s.workers[w].queue[s.workers[w].index];
         token in s.db.claims && (s.db.claims[token].phase.Effected? || s.db.claims[token].phase.Failed?)
    case BeginFinal(w) => At(s, w, BeforeFinal)
    case Finalise(w, _) => At(s, w, Finalising(false)) && s.workers[w].index < |s.workers[w].queue|
                           && s.workers[w].queue[s.workers[w].index] in s.db.claims
    case FinalReturns(w) => At(s, w, Finalising(false)) || At(s, w, Finalising(true))
    case EndTick(w) => At(s, w, BeforeAction) && s.workers[w].index == |s.workers[w].queue|
    case Crash(w) => w in s.workers
    case Environment(st) => EnvironmentStep(st)
  }

  function Next(s: Timed, step: TimedStep): Timed
    requires Enabled(s, step)
  {
    match step
    case Advance(ms) => s.(clock := s.clock + ms)
    case BeginTick(w) => s.(workers := s.workers[w := Busy(s.clock, [], 0, InClaim, s.clock, 0)])
    case ClaimRun(w, id) =>
      s.(db := DoClaim(s.db, id, s.workers[w].sampled),
      workers := s.workers[w := s.workers[w].(queue := s.workers[w].queue + [s.db.nextToken])])
    case ClaimReturns(w) => s.(workers := s.workers[w := s.workers[w].(stage := BeforeAction, since := s.clock)])
    case BeginAction(w) => s.(workers := s.workers[w := EndGap(s.workers[w], Executing, s.clock)])
    case Act(w, st) => s.(db := Apply(s.db, st))
    case ActionReturns(w) => s.(workers := s.workers[w := s.workers[w].(stage := BeforeFinal, since := s.clock)])
    case BeginFinal(w) => s.(workers := s.workers[w := EndGap(s.workers[w], Finalising(false), s.clock)])
    case Finalise(w, at) =>
      s.(db := Apply(s.db, FinalStep(s.db, s.workers[w].queue[s.workers[w].index], at)),
      workers := s.workers[w := s.workers[w].(stage := Finalising(true))])
    case FinalReturns(w) =>
      s.(workers := s.workers[w := s.workers[w].(stage := BeforeAction, index := s.workers[w].index + 1, since := s.clock)])
    case EndTick(w) => s.(workers := s.workers[w := Idle])
    case Crash(w) => s.(workers := s.workers[w := Idle])
    case Environment(st) => s.(db := Apply(s.db, st))
  }

  function EndGap(k: Worker, stage: Stage, clock: int): Worker
    requires k.Busy?
  {
    k.(stage := stage, since := clock, slackUsed := k.slackUsed + (clock - k.since))
  }

  /** Latest moment the current stage can have begun, counted from the worker's clock sample. */
  function StageStart(k: Worker): int
    requires k.Busy?
  {
    var turn := k.index * (ACTION_TIMEOUT + FINAL_TIMEOUT);
    match k.stage
    case InClaim => 0
    case BeforeAction => CLAIM_TIMEOUT + turn
    case Executing => CLAIM_TIMEOUT + turn
    case BeforeFinal => CLAIM_TIMEOUT + turn + ACTION_TIMEOUT
    case Finalising(_) => CLAIM_TIMEOUT + turn + ACTION_TIMEOUT
  }

  predicate BudgetOk(k: Worker, clock: int) {
    k.Busy? ==>
      && OnTime(k, clock)
      && k.sampled <= k.since <= clock
      && k.since <= k.sampled + StageStart(k) + k.slackUsed
      && 0 <= k.slackUsed <= SLACK
      && k.index <= |k.queue| <= BATCH
      && (k.stage == InClaim ==> k.index == 0)
      && (k.stage == Executing || k.stage == BeforeFinal || k.stage.Finalising? ==> k.index < |k.queue|)
  }

  /** Queue position `j` still has to be executed or finalised by the worker. */
  predicate Outstanding(k: Worker, j: nat) {
    k.Busy? && j < |k.queue| && (k.index < j || (k.index == j && k.stage != Finalising(true)))
  }

  /** The worker's token is the one in the row, and its lease is the worker's own. */
  predicate OwnsRun(db: State, token: nat, sampled: int) {
    && token in db.claims
    && Holds(db.runs, db.claims[token].runId, token)
    && db.runs[db.claims[token].runId].leaseUntil == sampled + LEASE_MS
  }

  ghost predicate QueuesDisjoint(s: Timed) {
    forall v, w, i, j | v in s.workers && w in s.workers && s.workers[v].Busy? && s.workers[w].Busy?
                        && 0 <= i < |s.workers[v].queue| && 0 <= j < |s.workers[w].queue|
                        && s.workers[v].queue[i] == s.workers[w].queue[j] :: v == w && i == j
  }

  ghost predicate WorkerOk(s: Timed, w: nat)
    requires w in s.workers
  {
    var k := s.workers[w];
    && BudgetOk(k, s.clock)
    && (k.Busy? ==> forall j | 0 <= j < |k.queue| :: k.queue[j] < s.db.nextToken)
    && (k.Busy? ==> forall j | 0 <= j < |k.queue| && Outstanding(k, j) :: OwnsRun(s.db, k.queue[j], k.sampled))
  }

  ghost predicate TimedInv(s: Timed) {
    && Inv(s.db)
    && QueuesDisjoint(s)
    && (forall w | w in s.workers :: WorkerOk(s, w))
  }

  /** The arithmetic of the lease: outstanding work always ends before the lease does. */
  lemma LeaseOutlivesWork(k: Worker, clock: int, j: nat)
    requires BudgetOk(k, clock) && Outstanding(k, j)
    ensures clock < k.sampled + LEASE_MS
  {
    assert k.index <= 3;
    assert k.index * (ACTION_TIMEOUT + FINAL_TIMEOUT) <= 3 * (ACTION_TIMEOUT + FINAL_TIMEOUT);
  }

  /** A held row survives every step except a steal and its holder's own finalising call. */
  lemma HeldRowSurvives(db: State, step: Step, token: nat, sampled: int)
    requires Inv(db) && OwnsRun(db, token, sampled)
    requires step.ClaimOne? ==> step.now < sampled + LEASE_MS
    requires !Finalises(step, token)
    ensures OwnsRun(Apply(db, step), token, sampled)
  {
    var id := db.claims[token].runId;
    StepRowChange(db, step, id);
    TokensInRange(db);
    if step.ClaimOne? {
      assert token != db.nextToken;
    } else {
      NoClaimFrame(db, step);
    }
  }

  lemma TokensOnlyGrow(db: State, step: Step)
    requires Inv(db)
    ensures db.nextToken <= Apply(db, step).nextToken
  {
    if !step.ClaimOne? {
      NoClaimFrame(db, step);
    }
  }

  /** A database step that is no steal and finalises at most `except` leaves the other workers in order. */
  lemma OthersKeepRuns(s: Timed, step: Step, except: nat, w: nat)
    requires TimedInv(s) && w in s.workers
    requires step.ClaimOne? ==> step.now <= s.clock
    requires (step.Succeed? || step.Fail?) ==> step.token == except
    requires s.workers[w].Busy? ==>
               forall j | 0 <= j < |s.workers[w].queue| && Outstanding(s.workers[w], j) :: s.workers[w].queue[j] != except
    ensures WorkerOk(s.(db := Apply(s.db, step)), w)
  {
    var k := s.workers[w];
    assert WorkerOk(s, w);
    TokensOnlyGrow(s.db, step);
    if k.Busy? {
      forall j | 0 <= j < |k.queue| && Outstanding(k, j) ensures OwnsRun(Apply(s.db, step), k.queue[j], k.sampled) {
        LeaseOutlivesWork(k, s.clock, j);
        HeldRowSurvives(s.db, step, k.queue[j], k.sampled);
      }
    }
  }

  lemma DatabaseStepKeeps(s: Timed, step: Step)
    requires TimedInv(s) && !step.ClaimOne? && !step.Succeed? && !step.Fail?
    ensures TimedInv(s.(db := Apply(s.db, step)))
  {
    StepKeepsInv(s.db, step);
    forall w | w in s.workers ensures WorkerOk(s.(db := Apply(s.db, step)), w) {
      assert WorkerOk(s, w);
      OthersKeepRuns(s, step, s.db.nextToken, w);
    }
  }

  /** Replacing one worker by a worker with the same queue and no new obligations. */
  lemma WorkerStepKeeps(s: Timed, w: nat, k: Worker)
    requires TimedInv(s) && BudgetOk(k, s.clock)
    requires k.Busy? ==> (k.queue == [] ||
               (w in s.workers && s.workers[w].Busy? && k.queue == s.workers[w].queue && k.sampled == s.workers[w].sampled
                && forall j | 0 <= j < |k.queue| && Outstanding(k, j) :: Outstanding(s.workers[w], j)))
    ensures TimedInv(s.(workers := s.workers[w := k]))
  {
    var t := s.(workers := s.workers[w := k]);
    if w in s.workers { assert WorkerOk(s, w); }
    forall v | v in t.workers ensures WorkerOk(t, v) {
      if v != w { assert WorkerOk(s, v); }
    }
  }

  lemma ClaimRunKeeps(s: Timed, w: nat, id: RunId)
    requires TimedInv(s) && Enabled(s, ClaimRun(w, id))
    ensures TimedInv(Next(s, ClaimRun(w, id)))
  {
    var t := Next(s, ClaimRun(w, id));
    var step := ClaimOne(id, s.workers[w].sampled);
    assert WorkerOk(s, w);
    StepKeepsInv(s.db, step);
    TokensInRange(s.db);
    forall v | v in t.workers ensures WorkerOk(t, v) {
      assert WorkerOk(s, v);
      OthersKeepRuns(s, step, s.db.nextToken, v);
      assert WorkerOk(s.(db := t.db), v);
      if v == w {
        assert OwnsRun(t.db, s.db.nextToken, s.workers[w].sampled);
        QueueGrows(s.(db := t.db), w, s.db.nextToken);
      }
    }
    FreshTokenDisjoint(s, w, t);
  }

  lemma QueueGrows(s: Timed, w: nat, token: nat)
    requires At(s, w, InClaim) && WorkerOk(s, w) && |s.workers[w].queue| < BATCH
    requires token < s.db.nextToken && OwnsRun(s.db, token, s.workers[w].sampled)
    ensures WorkerOk(s.(workers := s.workers[w := s.workers[w].(queue := s.workers[w].queue + [token])]), w)
  {
    var k := s.workers[w];
    var grown := k.(queue := k.queue + [token]);
    forall j | 0 <= j < |grown.queue| && Outstanding(grown, j) ensures OwnsRun(s.db, grown.queue[j], grown.sampled) {
      if j < |k.queue| { assert Outstanding(k, j); }
    }
  }

  lemma FreshTokenDisjoint(s: Timed, w: nat, t: Timed)
    requires TimedInv(s) && w in s.workers && s.workers[w].Busy?
    requires t.workers == s.workers[w := s.workers[w].(queue := s.workers[w].queue + [s.db.nextToken])]
    ensures QueuesDisjoint(t)
  {
    forall v | v in s.workers ensures WorkerOk(s, v) {
    }
  }

  lemma FinaliseKeeps(s: Timed, w: nat, at: int)
    requires TimedInv(s) && Enabled(s, Finalise(w, at))
    ensures TimedInv(Next(s, Finalise(w, at)))
  {
    var k := s.workers[w];
    var token := k.queue[k.index];
    var step := FinalStep(s.db, token, at);
    var t := Next(s, Finalise(w, at));
    StepKeepsInv(s.db, step);
    assert t.workers[w].queue == k.queue && QueuesDisjoint(t);
    forall v | v in t.workers ensures WorkerOk(t, v) {
      assert WorkerOk(s, v);
      if v != w {
        OthersKeepRuns(s, step, token, v);
        assert WorkerOk(s.(db := t.db), v);
      } else {
        FinaliserKeepsRest(s, w, at);
      }
    }
  }

  lemma FinaliserKeepsRest(s: Timed, w: nat, at: int)
    requires TimedInv(s) && Enabled(s, Finalise(w, at))
    ensures WorkerOk(Next(s, Finalise(w, at)), w)
  {
    var k := s.workers[w];
    var token := k.queue[k.index];
    var step := FinalStep(s.db, token, at);
    var t := Next(s, Finalise(w, at));
    assert WorkerOk(s, w);
    TokensOnlyGrow(s.db, step);
    forall j | 0 <= j < |k.queue| && Outstanding(t.workers[w], j) ensures OwnsRun(t.db, k.queue[j], k.sampled) {
      assert Outstanding(k, j) && k.queue[j] != token;
      HeldRowSurvives(s.db, step, k.queue[j], k.sampled);
    }
  }

  lemma TimedStepKeeps(s: Timed, step: TimedStep)
    requires TimedInv(s) && Enabled(s, step)
    ensures TimedInv(Next(s, step))
  {
    match step
    case Advance(ms) =>
      var t := Next(s, step);
      forall w | w in t.workers ensures WorkerOk(t, w) {
        assert WorkerOk(s, w);
      }
    case BeginTick(w) => WorkerStepKeeps(s, w, Busy(s.clock, [], 0, InClaim, s.clock, 0));
    case ClaimRun(w, id) => ClaimRunKeeps(s, w, id);
    case Act(w, st) => DatabaseStepKeeps(s, st);
    case Environment(st) => DatabaseStepKeeps(s, st);
    case Finalise(w, at) => FinaliseKeeps(s, w, at);
    case EndTick(w) => WorkerStepKeeps(s, w, Idle);
    case Crash(w) => WorkerStepKeeps(s, w, Idle);
    case ClaimReturns(w) => StageStepKeeps(s, step, w);
    case BeginAction(w) => StageStepKeeps(s, step, w);
    case ActionReturns(w) => StageStepKeeps(s, step, w);
    case BeginFinal(w) => StageStepKeeps(s, step, w);
    case FinalReturns(w) => StageStepKeeps(s, step, w);
  }

  predicate StageStep(step: TimedStep, w: nat) {
    || (step.ClaimReturns? && step.w == w)
    || (step.BeginAction? && step.w == w)
    || (step.ActionReturns? && step.w == w)
    || (step.BeginFinal? && step.w == w)
    || (step.FinalReturns? && step.w == w)
  }

  /** Moving to the next stage spends at most what the budget of the tick still holds. */
  lemma StageBudget(s: Timed, step: TimedStep, w: nat)
    requires Enabled(s, step) && StageStep(step, w) && w in s.workers && BudgetOk(s.workers[w], s.clock)
    ensures w in Next(s, step).workers && BudgetOk(Next(s, step).workers[w], s.clock)
  {
    assert (s.workers[w].index + 1) * (ACTION_TIMEOUT + FINAL_TIMEOUT)
        == s.workers[w].index * (ACTION_TIMEOUT + FINAL_TIMEOUT) + (ACTION_TIMEOUT + FINAL_TIMEOUT);
  }

  lemma StageStepKeeps(s: Timed, step: TimedStep, w: nat)
    requires TimedInv(s) && Enabled(s, step) && StageStep(step, w)
    ensures TimedInv(Next(s, step))
  {
    assert WorkerOk(s, w);
    StageBudget(s, step, w);
    WorkerStepKeeps(s, w, Next(s, step).workers[w]);
  }

  // ------------------------------------------------------------------ timed runs

  predicate TimedNext(s: Timed, step: TimedStep, t: Timed) {
    Enabled(s, step) && t == Next(s, step)
  }

  /** `states` is a run from the empty system, one state before and after each step. */
  predicate TimedRun(steps: seq<TimedStep>, states: seq<Timed>) {
    && |states| == |steps| + 1
    && states[0] == Timed(Empty, 0, map[])
    && forall i | 0 <= i < |steps| :: TimedNext(states[i], steps[i], states[i + 1])
  }

  lemma {:induction false} TimedRunInv(steps: seq<TimedStep>, states: seq<Timed>, i: nat)
    requires TimedRun(steps, states) && i < |states|
    ensures TimedInv(states[i])
  {
    if i == 0 {
      EmptyInv();
    } else {
      TimedRunInv(steps, states, i - 1);
      assert TimedNext(states[i - 1], steps[i - 1], states[i]);
      TimedStepKeeps(states[i - 1], steps[i - 1]);
    }
  }

  /** Exclusion: in no state of a run do two queue positions still have work to do on one run. */
  lemma NoRunHasTwoWorkers(steps: seq<TimedStep>, states: seq<Timed>, n: nat, v: nat, i: nat, w: nat, j: nat)
    requires TimedRun(steps, states) && n < |states|
    requires var s := states[n];
      && v in s.workers && w in s.workers
      && Outstanding(s.workers[v], i) && Outstanding(s.workers[w], j)
      && var a, b := s.workers[v].queue[i], s.workers[w].queue[j];
         a in s.db.claims && b in s.db.claims && s.db.claims[a].runId == s.db.claims[b].runId
    ensures v == w && i == j
  {
    TimedRunInv(steps, states, n);
    var s := states[n];
    assert WorkerOk(s, v) && WorkerOk(s, w);
    assert OwnsRun(s.db, s.workers[v].queue[i], s.workers[v].sampled);
    assert OwnsRun(s.db, s.workers[w].queue[j], s.workers[w].sampled);
  }

  /** ErrStaleClaim is never reached: every finalising call of a timed run finds its own claim in the row. */
  lemma FinalisingNeverStale(steps: seq<TimedStep>, states: seq<Timed>, n: nat, w: nat, at: int)
    requires TimedRun(steps, states) && n < |states| && Enabled(states[n], Finalise(w, at))
    ensures var s := states[n];
            var token := s.workers[w].queue[s.workers[w].index];
            && Holds(s.db.runs, s.db.claims[token].runId, token)
            && s.clock < s.db.runs[s.db.claims[token].runId].leaseUntil
  {
    TimedRunInv(steps, states, n);
    var s := states[n];
    assert WorkerOk(s, w);
    var k := s.workers[w];
    assert Outstanding(k, k.index);
    LeaseOutlivesWork(k, s.clock, k.index);
  }

  // ------------------------------------------------------------------ what a tick achieves

  /** The limits of one tick, in milliseconds, and what its four runs leave of the lease. */
  lemma TickBudget()
    ensures CLAIM_TIMEOUT == 10_000 && ACTION_TIMEOUT == 20_000 && FINAL_TIMEOUT == 5_000 && BATCH == 4 && SLACK == 9_999
  {
  }

  /** How long a worker may stay in each stage. */
  lemma StageLimits(k: Worker, clock: int)
    requires k.Busy?
    ensures OnTime(k, clock) <==>
              match k.stage
              case InClaim => clock - k.since <= 10_000
              case Executing => clock - k.since <= 20_000
              case Finalising(_) => clock - k.since <= 5_000
              case _ => k.slackUsed + (clock - k.since) <= 9_999
  {
  }

  /** The finalising call stores the outcome of the action: succeeded, dead, or to be retried. */
  lemma FinaliseStores(s: Timed, w: nat, at: int)
    requires TimedInv(s) && Enabled(s, Finalise(w, at))
    ensures var token := s.workers[w].queue[s.workers[w].index]; var c := s.db.claims[token];
            var runs := Next(s, Finalise(w, at)).db.runs;
            && c.runId in s.db.runs && c.runId in runs
            && (c.phase.Effected? ==> runs[c.runId].status == Succeeded && runs[c.runId].resultId == c.phase.resultId)
            && (c.phase.Failed? ==> runs[c.runId].errorCode == c.phase.code
                                    && (runs[c.runId].status == Dead <==> c.phase.permanent || s.db.runs[c.runId].attempts >= 5)
                                    && (runs[c.runId].status == Dead || runs[c.runId].status == Retry))
  {
    assert WorkerOk(s, w) && Outstanding(s.workers[w], s.workers[w].index);
    var token := s.workers[w].queue[s.workers[w].index];
    assert OwnsRun(s.db, token, s.workers[w].sampled) && RunOk(s.db, s.db.claims[token].runId);
  }

  /** A due run is taken up by any idle worker: its tick claims the run and starts on its action. */
  lemma DueRunIsTakenUp(s: Timed, w: nat, id: RunId) returns (s1: Timed, s2: Timed, s3: Timed, t: Timed)
    requires TimedInv(s) && w in s.workers && s.workers[w].Idle? && id in s.db.runs
    requires s.db.runs[id].status == Pending && s.db.runs[id].nextAttemptAt <= s.clock
    ensures TimedNext(s, BeginTick(w), s1) && TimedNext(s1, ClaimRun(w, id), s2) && TimedNext(s2, ClaimReturns(w), s3)
    ensures TimedNext(s3, BeginAction(w), t)
    ensures At(t, w, Executing) && t.workers[w].queue == [s.db.nextToken] && t.workers[w].index == 0
    ensures s.db.nextToken in t.db.claims && t.db.claims[s.db.nextToken].runId == id && t.db.claims[s.db.nextToken].phase == Claimed
  {
    s1 := Next(s, BeginTick(w));
    s2 := Next(s1, ClaimRun(w, id));
    s3 := Next(s2, ClaimReturns(w));
    t := Next(s3, BeginAction(w));
  }

  /** An action that has ended leads to its finalising call. */
  lemma EndedActionIsFinalised(s: Timed, w: nat, at: int) returns (s1: Timed, t: Timed)
    requires TimedInv(s) && At(s, w, Executing) && s.workers[w].index < |s.workers[w].queue|
    requires var token := s.workers[w].queue[s.workers[w].index];
      token in s.db.claims && (s.db.claims[token].phase.Effected? || s.db.claims[token].phase.Failed?)
    ensures TimedNext(s, ActionReturns(w), s1) && TimedNext(s1, BeginFinal(w), t)
    ensures TimedInv(t) && Enabled(t, Finalise(w, at)) && t.db == s.db
    ensures t.workers[w].queue == s.workers[w].queue && t.workers[w].index == s.workers[w].index
  {
    s1 := Next(s, ActionReturns(w));
    t := Next(s1, BeginFinal(w));
    TimedStepKeeps(s, ActionReturns(w));
    TimedStepKeeps(s1, BeginFinal(w));
  }

  /** The finalising call takes the run out of processing, and the worker turns to the next one. */
  lemma FinalCallEndsTurn(s: Timed, w: nat, at: int) returns (s1: Timed, t: Timed)
    requires TimedInv(s) && Enabled(s, Finalise(w, at))
    requires var token := s.workers[w].queue[s.workers[w].index];
      s.db.claims[token].phase.Effected? || s.db.claims[token].phase.Failed?
    ensures TimedNext(s, Finalise(w, at), s1) && TimedNext(s1, FinalReturns(w), t)
    ensures At(t, w, BeforeAction) && t.workers[w].index == s.workers[w].index + 1 && t.workers[w].queue == s.workers[w].queue
    ensures var id := s.db.claims[s.workers[w].queue[s.workers[w].index]].runId;
            id in t.db.runs && (t.db.runs[id].status == Succeeded || t.db.runs[id].status == Dead || t.db.runs[id].status == Retry)
  {
    s1 := Next(s, Finalise(w, at));
    t := Next(s1, FinalReturns(w));
    FinaliseStores(s, w, at);
  }
}
