/**
 * The durable queue of automation runs (`automation_runs`): row transitions, retry backoff,
 * the batch claim, and the statements that workers and rule edits execute on the table.
 */
module Automations {
  import opened Wrappers
  import opened Ordering
  import Counting

  const LEASE_MS: int := 120_000
  const MAX_ATTEMPTS: nat := 5
  const INITIAL_BACKOFF_MS: int := 30_000
  const MAXIMUM_BACKOFF_MS: int := 900_000

  datatype Status = Pending | Processing | Retry | Succeeded | Dead | Cancelled

  datatype ActionKind = Task | Decision | Reminder

  /** `last_error_code`; NoError is the empty text. */
  datatype ErrorCode =
    | NoError | RuleInactive | AuthorizationRevoked | SourceUnavailable
    | AssigneeForbidden | InvalidAction | ExecutionFailed

  /** `result_type`; NoResult is the empty text. */
  datatype ResultType = NoResult | WorkItemResult | ReminderResult

  type RunId = string

  /** A row of `automation_runs`. Token 0 is the empty `claim_token`. */
  datatype Run = Run(
    ruleId: string, actionId: string, postId: string, actorId: string, kind: ActionKind,
    status: Status, attempts: nat, nextAttemptAt: int,
    claimedAt: int, leaseUntil: int, claimToken: nat,
    resultType: ResultType, resultId: string, errorCode: ErrorCode,
    createAt: int, updateAt: int, completedAt: int)

  predicate Terminal(r: Run) {
    r.status == Succeeded || r.status == Dead || r.status == Cancelled
  }

  predicate Waiting(r: Run) {
    r.status == Pending || r.status == Retry
  }

  // ------------------------------------------------------------------ run identifiers

  /** The text whose SHA-1 names a run; the digest itself is taken as collision-free. */
  function DeterministicRunId(ruleId: string, actionId: string, postId: string): RunId {
    ruleId + ['\0'] + actionId + ['\0'] + postId
  }

  predicate NoNul(s: string) {
    '\0' !in s
  }

  lemma {:induction false} SplitAtNul(a: string, x: string, b: string, y: string)
    requires NoNul(a) && NoNul(b) && a + ['\0'] + x == b + ['\0'] + y
    ensures a == b && x == y
  {
    var s, t := a + ['\0'] + x, b + ['\0'] + y;
    assert s[|a|] == '\0' && forall i | 0 <= i < |a| :: s[i] == a[i] && s[i] != '\0';
    assert t[|b|] == '\0' && forall i | 0 <= i < |b| :: t[i] == b[i] && t[i] != '\0';
    assert |a| == |b|;
    assert a == s[..|a|] && b == t[..|b|];
    assert x == s[|a| + 1..] && y == t[|b| + 1..];
  }

  /** Distinct (rule, action, post) triples hash distinct texts, because no identifier holds a NUL. */
  lemma RunIdInjective(r1: string, a1: string, p1: string, r2: string, a2: string, p2: string)
    requires NoNul(r1) && NoNul(a1) && NoNul(r2) && NoNul(a2)
    requires DeterministicRunId(r1, a1, p1) == DeterministicRunId(r2, a2, p2)
    ensures r1 == r2 && a1 == a2 && p1 == p2
  {
    assert DeterministicRunId(r1, a1, p1) == r1 + ['\0'] + (a1 + ['\0'] + p1);
    assert DeterministicRunId(r2, a2, p2) == r2 + ['\0'] + (a2 + ['\0'] + p2);
    SplitAtNul(r1, a1 + ['\0'] + p1, r2, a2 + ['\0'] + p2);
    SplitAtNul(a1, p1, a2, p2);
  }

  // ------------------------------------------------------------------ retry backoff

  function Pow2(n: nat): (p: nat)
    ensures p >= 1
  {
    if n == 0 then 1 else 2 * Pow2(n - 1)
  }

  lemma {:induction false} Pow2Monotone(m: nat, n: nat)
    requires m <= n
    ensures Pow2(m) <= Pow2(n)
    decreases n
  {
    if m < n {
      Pow2Monotone(m, n - 1);
    }
  }

  /** Capped exponential backoff: 30 s doubled once per earlier attempt, at most 15 minutes. */
  function Backoff(attempt: int): int {
    if attempt <= 1 then INITIAL_BACKOFF_MS
    else Min(INITIAL_BACKOFF_MS * Pow2(attempt - 1), MAXIMUM_BACKOFF_MS)
  }

  lemma BackoffMonotone(m: int, n: int)
    requires m <= n
    ensures INITIAL_BACKOFF_MS <= Backoff(m) <= Backoff(n) <= MAXIMUM_BACKOFF_MS
  {
    if m > 1 {
      Pow2Monotone(1, m - 1);
      Pow2Monotone(m - 1, n - 1);
    } else if n > 1 {
      Pow2Monotone(1, n - 1);
    }
  }

  method RetryDelay(attempt: int) returns (delay: int)
    ensures delay == Backoff(attempt)
  {
    delay := INITIAL_BACKOFF_MS;
    var index := 1;
    while index < attempt && delay < MAXIMUM_BACKOFF_MS
      invariant 1 <= index <= Max(1, attempt)
      invariant delay == INITIAL_BACKOFF_MS * Pow2(index - 1) <= MAXIMUM_BACKOFF_MS
      decreases attempt - index
    {
      delay := delay * 2;
      index := index + 1;
      if delay > MAXIMUM_BACKOFF_MS {
        Pow2Monotone(index - 1, attempt - 1);
        return MAXIMUM_BACKOFF_MS;
      }
    }
  }

  // ------------------------------------------------------------------ row transitions

  predicate Due(r: Run, now: int) {
    (Waiting(r) && r.nextAttemptAt <= now) || (r.status == Processing && r.leaseUntil <= now)
  }

  function ClaimRow(r: Run, now: int, token: nat): Run {
    r.(status := Processing, attempts := r.attempts + 1, claimedAt := now,
    leaseUntil := now + LEASE_MS, claimToken := token, updateAt := now)
  }

  function SucceedRow(r: Run, resultType: ResultType, resultId: string, at: int): Run {
    r.(status := Succeeded, resultType := resultType, resultId := resultId, completedAt := at,
    updateAt := at, nextAttemptAt := 0, claimedAt := 0, leaseUntil := 0, claimToken := 0, errorCode := NoError)
  }

  /** `attempts` is the count in the worker's copy of the run, not a fresh read. */
  function FailRow(r: Run, attempts: nat, code: ErrorCode, permanent: bool, at: int): Run {
    var dead := permanent || attempts >= MAX_ATTEMPTS;
    r.(status := if dead then Dead else Retry,
    nextAttemptAt := if dead then 0 else at + Backoff(attempts),
    completedAt := if dead then at else 0,
    updateAt := at, claimedAt := 0, leaseUntil := 0, claimToken := 0, errorCode := code)
  }

  function CancelRow(r: Run, at: int): Run {
    r.(status := Cancelled, updateAt := at, completedAt := at, claimedAt := 0, leaseUntil := 0, claimToken := 0)
  }

  // ------------------------------------------------------------------ table statements

  /** The guard `WHERE id=$ AND status='processing' AND claim_token=$` of both finalising statements. */
  predicate Holds(runs: map<RunId, Run>, id: RunId, token: nat) {
    token != 0 && id in runs && runs[id].status == Processing && runs[id].claimToken == token
  }

  function CancelWaiting(runs: map<RunId, Run>, ruleId: string, at: int): map<RunId, Run> {
    map id | id in runs :: if runs[id].ruleId == ruleId && Waiting(runs[id]) then CancelRow(runs[id], at) else runs[id]
  }

  /** An enabled rule's action, as selected for a new post in the rule's channel. */
  datatype Candidate = Candidate(ruleId: string, actionId: string, actorId: string, kind: ActionKind, matches: bool)

  function NewRun(c: Candidate, postId: string, at: int): Run {
    Run(c.ruleId, c.actionId, postId, c.actorId, c.kind, Pending, 0, at, 0, 0, 0, NoResult, "", NoError, at, at, 0)
  }

  /** One `INSERT ... ON CONFLICT (rule_id, action_id, post_id) DO NOTHING`. */
  function Enqueue(runs: map<RunId, Run>, c: Candidate, postId: string, at: int): map<RunId, Run> {
    var id := DeterministicRunId(c.ruleId, c.actionId, postId);
    if !c.matches || id in runs then runs else runs[id := NewRun(c, postId, at)]
  }

  function EnqueueAll(runs: map<RunId, Run>, candidates: seq<Candidate>, postId: string, at: int): map<RunId, Run> {
    if candidates == [] then runs
    else
      var last := |candidates| - 1;
      Enqueue(EnqueueAll(runs, candidates[..last], postId, at), candidates[last], postId, at)
  }

  function SortTime(r: Run): int {
    if r.status == Processing then r.leaseUntil else r.nextAttemptAt
  }

  /** `ORDER BY CASE WHEN status='processing' THEN lease_until ELSE next_attempt_at END, create_at, id`. */
  predicate ClaimsBefore(runs: map<RunId, Run>, a: RunId, b: RunId)
    requires a in runs && b in runs
  {
    var ra, rb := runs[a], runs[b];
    SortTime(ra) < SortTime(rb) ||
    (SortTime(ra) == SortTime(rb) && (ra.createAt < rb.createAt || (ra.createAt == rb.createAt && TextLess(a, b))))
  }

  lemma ClaimsBeforeTotal(runs: map<RunId, Run>, a: RunId, b: RunId)
    requires a in runs && b in runs && a != b
    ensures ClaimsBefore(runs, a, b) <==> !ClaimsBefore(runs, b, a)
  {
    TextLessTotal(a, b);
  }

  lemma ClaimsBeforeTransitive(runs: map<RunId, Run>, a: RunId, b: RunId, c: RunId)
    requires a in runs && b in runs && c in runs
    requires ClaimsBefore(runs, a, b) && ClaimsBefore(runs, b, c)
    ensures ClaimsBefore(runs, a, c)
  {
    if TextLess(a, b) && TextLess(b, c) {
      TextLessTransitive(a, b, c);
    }
  }

  /** Rows a claim may take: due, and not locked by a concurrent claim (`FOR UPDATE SKIP LOCKED`). */
  function Claimable(runs: map<RunId, Run>, now: int, locked: set<RunId>): set<RunId> {
    set id | id in runs && Due(runs[id], now) && id !in locked
  }

  /** `ids` are the first `limit` claimable rows, in order. */
  ghost predicate FirstDue(runs: map<RunId, Run>, ids: seq<RunId>, now: int, limit: nat, locked: set<RunId>) {
    var rows := Claimable(runs, now, locked);
    && Elements(ids) <= rows
    && |ids| == Min(limit, |rows|)
    && (forall i, j | 0 <= i < j < |ids| :: ClaimsBefore(runs, ids[i], ids[j]))
    && (forall id, i | id in rows && id !in ids && 0 <= i < |ids| :: ClaimsBefore(runs, ids[i], id))
  }

  /** The time a row waits for: its next attempt, or the end of its lease while it is processing. */
  function WaitsUntil(r: Run): int {
    if r.status == Processing then r.leaseUntil else r.nextAttemptAt
  }

  predicate Unfinished(r: Run) {
    r.status == Pending || r.status == Retry || r.status == Processing
  }

  /** A row that can be claimed stays so until it is changed. */
  lemma DueStaysDue(r: Run, now: int, later: int)
    requires Due(r, now) && now <= later
    ensures Due(r, later) && WaitsUntil(r) <= now
  {
  }

  /** Every listed row is unfinished, unlocked and due, and they come by the time they waited for, then age, then id. */
  lemma SelectedAreDue(runs: map<RunId, Run>, ids: seq<RunId>, now: int, limit: nat, locked: set<RunId>, i: nat)
    requires FirstDue(runs, ids, now, limit, locked) && i < |ids|
    ensures ids[i] in runs && ids[i] !in locked && Unfinished(runs[ids[i]]) && WaitsUntil(runs[ids[i]]) <= now
    ensures forall j | i < j < |ids| :: ids[j] in runs && ids[i] != ids[j] && (
                var a, b := runs[ids[i]], runs[ids[j]];
                WaitsUntil(a) < WaitsUntil(b) || (WaitsUntil(a) == WaitsUntil(b) &&
                  (a.createAt < b.createAt || (a.createAt == b.createAt && TextLess(ids[i], ids[j])))))
  {
    assert ids[i] in Elements(ids);
    forall j | i < j < |ids| ensures ids[j] in runs && ids[i] != ids[j] {
      assert ids[j] in Elements(ids);
      assert ClaimsBefore(runs, ids[i], ids[j]);
      TextLessTotal(ids[i], ids[i]);
    }
  }

  /** Every unlocked row whose time has come is listed, unless the list is full of rows that come before it. */
  lemma DueIsSelected(runs: map<RunId, Run>, ids: seq<RunId>, now: int, limit: nat, locked: set<RunId>, id: RunId)
    requires FirstDue(runs, ids, now, limit, locked) && id in runs && id !in locked
    requires Unfinished(runs[id]) && WaitsUntil(runs[id]) <= now
    ensures id in ids || (|ids| == limit && forall i | 0 <= i < |ids| :: ids[i] in runs && WaitsUntil(runs[ids[i]]) <= WaitsUntil(runs[id]))
  {
    var rows := Claimable(runs, now, locked);
    assert id in rows;
    if id !in ids {
      DistinctIds(runs, ids);
      assert Elements(ids) <= rows - {id};
      Counting.SubsetCount(Elements(ids), rows - {id});
      forall i | 0 <= i < |ids| ensures ids[i] in runs && WaitsUntil(runs[ids[i]]) <= WaitsUntil(runs[id]) {
        assert ids[i] in Elements(ids) && ClaimsBefore(runs, ids[i], id);
      }
    }
  }

  lemma DistinctIds(runs: map<RunId, Run>, ids: seq<RunId>)
    requires Elements(ids) <= runs.Keys
    requires forall i, j | 0 <= i < j < |ids| :: ids[i] in runs && ids[j] in runs && ClaimsBefore(runs, ids[i], ids[j])
    ensures |Elements(ids)| == |ids|
  {
    forall i, j | 0 <= i < j < |ids| ensures ids[i] != ids[j] {
      TextLessTotal(ids[i], ids[i]);
    }
    Counting.DistinctElements(ids);
  }

  /** What a selection holds and what it leaves out. */
  lemma SelectionOutcome(runs: map<RunId, Run>, ids: seq<RunId>, now: int, limit: nat, locked: set<RunId>)
    requires FirstDue(runs, ids, now, limit, locked)
    ensures forall id | id in ids :: id in runs && id !in locked && Unfinished(runs[id]) && WaitsUntil(runs[id]) <= now
    ensures forall id | id in runs && id !in locked && Unfinished(runs[id]) && WaitsUntil(runs[id]) <= now && id !in ids ::
              |ids| == limit && forall i | 0 <= i < |ids| :: ids[i] in runs && WaitsUntil(runs[ids[i]]) <= WaitsUntil(runs[id])
  {
    forall id | id in ids ensures id in runs && id !in locked && Unfinished(runs[id]) && WaitsUntil(runs[id]) <= now {
      var i :| 0 <= i < |ids| && ids[i] == id;
      SelectedAreDue(runs, ids, now, limit, locked, i);
    }
    forall id | id in runs && id !in locked && Unfinished(runs[id]) && WaitsUntil(runs[id]) <= now && id !in ids
      ensures |ids| == limit && forall i | 0 <= i < |ids| :: ids[i] in runs && WaitsUntil(runs[ids[i]]) <= WaitsUntil(runs[id])
    {
      DueIsSelected(runs, ids, now, limit, locked, id);
    }
  }

  /** Loop state of the selection: `ids` in claim order, everything in `remaining` after them. */
  ghost predicate Selected(runs: map<RunId, Run>, ids: seq<RunId>, due: set<RunId>, remaining: set<RunId>) {
    && due <= runs.Keys
    && Elements(ids) == due - remaining
    && (forall i | 0 <= i < |ids| :: ids[i] in due)
    && (forall i, j | 0 <= i < j < |ids| :: ClaimsBefore(runs, ids[i], ids[j]))
    && (forall id, i | id in due && id in remaining && 0 <= i < |ids| :: ClaimsBefore(runs, ids[i], id))
  }

  lemma SelectNext(runs: map<RunId, Run>, ids: seq<RunId>, due: set<RunId>, remaining: set<RunId>, first: RunId)
    requires remaining <= due && Selected(runs, ids, due, remaining) && first in remaining
    requires forall id | id in remaining && id != first :: ClaimsBefore(runs, first, id)
    ensures Selected(runs, ids + [first], due, remaining - {first})
  {
    assert Elements(ids + [first]) == Elements(ids) + {first};
  }

  /** Claims the listed rows one after another with consecutive fresh tokens. */
  function ClaimAll(runs: map<RunId, Run>, ids: seq<RunId>, now: int, token: nat): (r: map<RunId, Run>)
    requires forall id | id in ids :: id in runs
    ensures r.Keys == runs.Keys
  {
    if ids == [] then runs
    else
      var last := |ids| - 1;
      var earlier := ClaimAll(runs, ids[..last], now, token);
      earlier[ids[last] := ClaimRow(earlier[ids[last]], now, token + last)]
  }

  /** A batch claim touches no row outside its list. */
  lemma {:induction false} ClaimAllOthers(runs: map<RunId, Run>, ids: seq<RunId>, now: int, token: nat, id: RunId)
    requires forall id | id in ids :: id in runs
    requires id in runs && id !in ids
    ensures ClaimAll(runs, ids, now, token)[id] == runs[id]
  {
    if ids != [] {
      ClaimAllOthers(runs, ids[..|ids| - 1], now, token, id);
    }
  }

  /** A batch claim rewrites each listed row exactly once, with its own token. */
  lemma {:induction false} ClaimAllRow(runs: map<RunId, Run>, ids: seq<RunId>, now: int, token: nat, i: nat)
    requires forall id | id in ids :: id in runs
    requires forall i, j | 0 <= i < j < |ids| :: ids[i] != ids[j]
    requires i < |ids|
    ensures ClaimAll(runs, ids, now, token)[ids[i]] == ClaimRow(runs[ids[i]], now, token + i)
  {
    var last := |ids| - 1;
    if i < last {
      ClaimAllRow(runs, ids[..last], now, token, i);
    } else {
      ClaimAllOthers(runs, ids[..last], now, token, ids[last]);
    }
  }

  function ClampLimit(limit: int): nat {
    if limit < 1 then 50 else if limit > 200 then 200 else limit
  }

  /** The run table as the service and the workers use it. */
  class RunStore {
    var runs: map<RunId, Run>
    var nextToken: nat // stands for gen_random_uuid(): never handed out before

    constructor ()
      ensures runs == map[] && nextToken == 1
    {
      runs := map[];
      nextToken := 1;
    }

    method PickFirst(rows: set<RunId>) returns (first: RunId)
      requires rows != {} && rows <= runs.Keys
      ensures first in rows && forall id | id in rows && id != first :: ClaimsBefore(runs, first, id)
    {
      first :| first in rows;
      var rest := rows - {first};
      while rest != {}
        invariant first in rows && rest <= rows && first !in rest
        invariant forall id | id in rows && id !in rest && id != first :: ClaimsBefore(runs, first, id)
        decreases |rest|
      {
        var id :| id in rest;
        rest := rest - {id};
        ClaimsBeforeTotal(runs, first, id);
        if ClaimsBefore(runs, id, first) {
          forall other | other in rows && other !in rest && other != id && other != first
            ensures ClaimsBefore(runs, id, other)
          {
            ClaimsBeforeTransitive(runs, id, first, other);
          }
          first := id;
        }
      }
    }

    /** The `due` subquery: the first `limit` claimable rows. */
    method SelectDue(now: int, limit: nat, locked: set<RunId>) returns (ids: seq<RunId>)
      ensures FirstDue(runs, ids, now, limit, locked)
      ensures forall id | id in ids :: id in runs && id !in locked && Unfinished(runs[id]) && WaitsUntil(runs[id]) <= now
      ensures forall id | id in runs && id !in locked && Unfinished(runs[id]) && WaitsUntil(runs[id]) <= now && id !in ids ::
                |ids| == limit && forall i | 0 <= i < |ids| :: ids[i] in runs && WaitsUntil(runs[ids[i]]) <= WaitsUntil(runs[id])
    {
      var due := Claimable(runs, now, locked);
      var remaining := due;
      ids := [];
      while |ids| < limit && remaining != {}
        invariant remaining <= due && Selected(runs, ids, due, remaining)
        invariant |ids| <= limit && |remaining| == |due| - |ids|
        decreases |remaining|
      {
        var first := PickFirst(remaining);
        SelectNext(runs, ids, due, remaining, first);
        ids := ids + [first];
        remaining := remaining - {first};
      }
      SelectionOutcome(runs, ids, now, limit, locked);
    }

    method ClaimDue(now: int, limit: int, locked: set<RunId>) returns (ids: seq<RunId>)
      modifies this
      ensures FirstDue(old(runs), ids, now, ClampLimit(limit), locked)
      ensures |ids| <= (if limit < 1 then 50 else Min(limit, 200))
      ensures forall id | id in ids ::
                id in old(runs) && id !in locked && Unfinished(old(runs)[id]) && WaitsUntil(old(runs)[id]) <= now
      ensures forall id | id in old(runs) && id !in locked && Unfinished(old(runs)[id]) && WaitsUntil(old(runs)[id]) <= now && id !in ids ::
                |ids| == ClampLimit(limit) && forall i | 0 <= i < |ids| ::
                  ids[i] in old(runs) && WaitsUntil(old(runs)[ids[i]]) <= WaitsUntil(old(runs)[id])
      ensures runs == ClaimAll(old(runs), ids, now, old(nextToken))
      ensures nextToken == old(nextToken) + |ids|
    {
      ids := SelectDue(now, ClampLimit(limit), locked);
      ClaimRows(ids, now);
    }

    /** The update half of the claim: each selected row gets a token of its own. */
    method ClaimRows(ids: seq<RunId>, now: int)
      requires forall id | id in ids :: id in runs
      modifies this
      ensures forall id | id in ids :: id in old(runs)
      ensures runs == ClaimAll(old(runs), ids, now, old(nextToken))
      ensures nextToken == old(nextToken) + |ids|
    {
      var index := 0;
      while index < |ids|
        invariant 0 <= index <= |ids|
        invariant forall id | id in ids :: id in old(runs)
        invariant runs == ClaimAll(old(runs), ids[..index], now, old(nextToken))
        invariant nextToken == old(nextToken) + index
      {
        assert ids[..index + 1][..index] == ids[..index];
        assert ids[index] in ids;
        runs := runs[ids[index] := ClaimRow(runs[ids[index]], now, nextToken)];
        nextToken := nextToken + 1;
        index := index + 1;
      }
      assert ids[..index] == ids;
    }

    /** False is ErrStaleClaim. */
    method MarkSucceeded(id: RunId, token: nat, resultType: ResultType, resultId: string, at: int) returns (ok: bool)
      modifies this
      ensures ok == Holds(old(runs), id, token)
      ensures runs == if ok then old(runs)[id := SucceedRow(old(runs)[id], resultType, resultId, at)] else old(runs)
      ensures nextToken == old(nextToken)
    {
      if token == 0 {
        return false;
      }
      ok := id in runs && runs[id].status == Processing && runs[id].claimToken == token;
      if ok {
        runs := runs[id := runs[id].(status := Succeeded, resultType := resultType, resultId := resultId,
        completedAt := at, updateAt := at, nextAttemptAt := 0, claimedAt := 0, leaseUntil := 0, claimToken := 0,
        errorCode := NoError)];
      }
    }

    /** False is ErrStaleClaim. */
    method MarkFailed(id: RunId, token: nat, attempts: nat, code: ErrorCode, permanent: bool, at: int) returns (ok: bool)
      modifies this
      ensures ok == Holds(old(runs), id, token)
      ensures runs == if ok then old(runs)[id := FailRow(old(runs)[id], attempts, code, permanent, at)] else old(runs)
      ensures nextToken == old(nextToken)
    {
      if token == 0 {
        return false;
      }
      var status := Retry;
      var delay := RetryDelay(attempts);
      var next := at + delay;
      var completedAt := 0;
      if permanent || attempts >= MAX_ATTEMPTS {
        status := Dead;
        next := 0;
        completedAt := at;
      }
      ok := id in runs && runs[id].status == Processing && runs[id].claimToken == token;
      if ok {
        runs := runs[id := runs[id].(status := status, nextAttemptAt := next, completedAt := completedAt,
        updateAt := at, claimedAt := 0, leaseUntil := 0, claimToken := 0, errorCode := code)];
      }
    }

    method EnqueuePost(candidates: seq<Candidate>, postId: string, at: int)
      modifies this
      ensures runs == EnqueueAll(old(runs), candidates, postId, at) && nextToken == old(nextToken)
    {
      var index := 0;
      while index < |candidates|
        invariant 0 <= index <= |candidates|
        invariant runs == EnqueueAll(old(runs), candidates[..index], postId, at) && nextToken == old(nextToken)
      {
        assert candidates[..index + 1][..index] == candidates[..index];
        var c := candidates[index];
        index := index + 1;
        if !c.matches {
          continue;
        }
        var id := DeterministicRunId(c.ruleId, c.actionId, postId);
        if id !in runs {
          runs := runs[id := NewRun(c, postId, at)];
        }
      }
      assert candidates[..index] == candidates;
    }

    /** Disabling or deleting a rule cancels its waiting runs and leaves running ones to their holder. */
    method CancelRule(ruleId: string, at: int)
      modifies this
      ensures runs == CancelWaiting(old(runs), ruleId, at) && nextToken == old(nextToken)
    {
      var todo := runs.Keys;
      while todo != {}
        invariant todo <= old(runs).Keys && runs.Keys == old(runs).Keys && nextToken == old(nextToken)
        invariant forall id | id in todo :: runs[id] == old(runs)[id]
        invariant forall id | id in runs && id !in todo :: runs[id] == CancelWaiting(old(runs), ruleId, at)[id]
        decreases |todo|
      {
        var id :| id in todo;
        todo := todo - {id};
        if runs[id].ruleId == ruleId && (runs[id].status == Pending || runs[id].status == Retry) {
          runs := runs[id := runs[id].(status := Cancelled, updateAt := at, completedAt := at,
          claimedAt := 0, leaseUntil := 0, claimToken := 0)];
        }
      }
    }
  }
}
