/** Every run of creations, exchanges, cleanups, revocations and account changes, with the history of each code. */
module LoginHandoffRuns {
  import opened Wrappers
  import opened LoginHandoff

  /** A successful exchange as its caller saw it. */
  datatype Grant = Grant(code: string, binding: string, token: string, at: int)

  /** What was inserted for a code, kept after the row is gone. */
  datatype Issue = Issue(binding: string, userId: string, expiresAt: int)

  datatype State = State(
    t: Tables,
    issued: map<string, Issue>,
    minted: map<string, seq<string>>,
    firstExchange: map<string, Grant>,
    grants: seq<Grant>,
    outcomes: seq<Result<string, Error>>)

  const Empty: State := State(Tables(map[], map[], map[]), map[], map[], map[], [], [])

  datatype Step =
    | SetUser(id: string, user: User)
    | DropUser(id: string)
    | Cleanup(at: int)
    | Start(code: string, binding: string, userId: string, at: int)
    | Exchange(given: Option<string>, presented: Option<string>, freshId: string, login: Session, at: int)
    | OtherLogin(id: string, session: Session)
    | Revoke(ids: set<string>)

  function Minted(s: State, code: string): seq<string> {
    if code in s.minted then s.minted[code] else []
  }

  /** Deleting an account deletes its handoffs and sessions. */
  function WithoutUser(t: Tables, id: string): Tables {
    var revoked := AfterRevoke(t, set sid | sid in t.sessions && t.sessions[sid].userId == id);
    revoked.(users := t.users - {id},
    handoffs := map code | code in revoked.handoffs && revoked.handoffs[code].userId != id :: revoked.handoffs[code])
  }

  /** Codes are random, so a code is never issued twice; session ids are fresh. */
  function DoStart(s: State, code: string, binding: string, userId: string, at: int): State {
    if code in s.issued || !MayStart(s.t, userId, at) then s
    else s.(t := AfterCreate(s.t, code, binding, userId, at), issued := s.issued[code := Issue(binding, userId, at + TTL_MS)])
  }

  function DoExchange(s: State, code: Option<string>, binding: Option<string>, freshId: string, login: Session,
                      at: int): State {
    if freshId in s.t.sessions then s
    else
      var result := ExchangeResult(s.t, code, binding, login, at);
      var s1 := s.(t := AfterExchange(s.t, code, binding, freshId, login, at), outcomes := s.outcomes + [result]);
      if result.Err? then s1
      else
        var c := code.value;
        var grant := Grant(c, binding.value, result.value, at);
        var first := s.t.handoffs[c].sessionId.None?;
        s1.(grants := s.grants + [grant],
        minted := if first then s.minted[c := Minted(s, c) + [freshId]] else s.minted,
        firstExchange := if first then s.firstExchange[c := grant] else s.firstExchange)
  }

  ghost function Apply(s: State, step: Step): State {
    match step
    case SetUser(id, user) => s.(t := s.t.(users := s.t.users[id := user]))
    case DropUser(id) => s.(t := WithoutUser(s.t, id))
    case Cleanup(at) => s.(t := AfterCleanup(s.t, at))
    case Start(code, binding, userId, at) => DoStart(s, code, binding, userId, at)
    case Exchange(code, binding, freshId, login, at) => DoExchange(s, code, binding, freshId, login, at)
    case OtherLogin(id, session) => if id in s.t.sessions then s else s.(t := s.t.(sessions := s.t.sessions[id := session]))
    case Revoke(ids) => s.(t := AfterRevoke(s.t, ids))
  }

  ghost function Exec(s: State, steps: seq<Step>): State {
    if steps == [] then s else Apply(Exec(s, steps[..|steps| - 1]), steps[|steps| - 1])
  }

  // ------------------------------------------------------------------ invariant

  /** A row still in the table agrees with what was issued and with the one session made from it. */
  ghost predicate RowOk(s: State, code: string)
    requires code in s.t.handoffs
  {
    var h := s.t.handoffs[code];
    && code in s.issued && s.issued[code] == Issue(h.binding, h.userId, h.expiresAt)
    && (h.sessionId.None? <==> h.exchangedAt.None?)
    && (h.sessionId.None? <==> code !in s.firstExchange)
    && (h.sessionId.Some? ==>
          && Minted(s, code) == [h.sessionId.value]
          && h.sessionId.value in s.t.sessions
          && s.t.sessions[h.sessionId.value].userId == h.userId
          && s.t.sessions[h.sessionId.value].token == s.firstExchange[code].token
          && h.exchangedAt.value == s.firstExchange[code].at)
  }

  /** What is known of a code for ever: at most one session, made by its first exchange. */
  ghost predicate CodeOk(s: State, code: string) {
    && (code in s.minted <==> code in s.firstExchange)
    && (code in s.firstExchange ==> code in s.issued && |s.minted[code]| == 1 && s.firstExchange[code] in s.grants)
  }

  predicate GrantOk(s: State, g: Grant) {
    && g.code in s.issued && g.code in s.firstExchange
    && g.binding == s.issued[g.code].binding
    && g.token == s.firstExchange[g.code].token
    && g.at < s.issued[g.code].expiresAt
    && g.at <= s.firstExchange[g.code].at + RETRY_WINDOW_MS
  }

  ghost predicate Inv(s: State) {
    && (forall code {:trigger RowOk(s, code)} | code in s.t.handoffs :: RowOk(s, code))
    && (forall code {:trigger CodeOk(s, code)} :: CodeOk(s, code))
    && (forall i {:trigger s.grants[i]} | 0 <= i < |s.grants| :: GrantOk(s, s.grants[i]))
    && (forall i | 0 <= i < |s.outcomes| :: s.outcomes[i] != Err(Inconsistent))
  }

  /** A step that removes handoffs and leaves the history alone. */
  lemma RemovalKeepsInv(s: State, t: Tables)
    requires Inv(s) && t.handoffs.Keys <= s.t.handoffs.Keys
    requires forall code | code in t.handoffs :: t.handoffs[code] == s.t.handoffs[code]
    requires forall code | code in t.handoffs && t.handoffs[code].sessionId.Some? && t.handoffs[code].sessionId.value in s.t.sessions ::
               var id := t.handoffs[code].sessionId.value;
               id in t.sessions && t.sessions[id] == s.t.sessions[id]
    ensures Inv(s.(t := t))
  {
    var s' := s.(t := t);
    forall code | code in s'.t.handoffs ensures RowOk(s', code) {
      assert RowOk(s, code);
    }
    forall code ensures CodeOk(s', code) {
      assert CodeOk(s, code);
    }
    forall i | 0 <= i < |s'.grants| ensures GrantOk(s', s'.grants[i]) {
      assert GrantOk(s, s.grants[i]);
    }
  }

  lemma StartKeepsInv(s: State, code: string, binding: string, userId: string, at: int)
    requires Inv(s)
    ensures Inv(DoStart(s, code, binding, userId, at))
  {
    var s' := DoStart(s, code, binding, userId, at);
    forall c | c in s'.t.handoffs ensures RowOk(s', c) {
      if c in s.t.handoffs { assert RowOk(s, c); }
      assert CodeOk(s, c);
    }
    forall c ensures CodeOk(s', c) {
      assert CodeOk(s, c);
    }
    forall i | 0 <= i < |s'.grants| ensures GrantOk(s', s'.grants[i]) {
      assert GrantOk(s, s.grants[i]);
    }
  }

  /** A first exchange: one session, one completed row, one grant. */
  function FirstExchange(s: State, code: string, freshId: string, login: Session, at: int): State
    requires code in s.t.handoffs
  {
    var h := s.t.handoffs[code];
    var grant := Grant(code, h.binding, login.token, at);
    s.(t := s.t.(sessions := s.t.sessions[freshId := login.(userId := h.userId)],
                 handoffs := s.t.handoffs[code := h.(sessionId := Some(freshId), exchangedAt := Some(at))]),
       minted := s.minted[code := Minted(s, code) + [freshId]],
       firstExchange := s.firstExchange[code := grant],
       grants := s.grants + [grant], outcomes := s.outcomes + [Ok(login.token)])
  }

  lemma FirstExchangeKeepsInv(s: State, code: string, freshId: string, login: Session, at: int)
    requires Inv(s) && code in s.t.handoffs && s.t.handoffs[code].sessionId.None? && freshId !in s.t.sessions
    requires at < s.t.handoffs[code].expiresAt
    ensures Inv(FirstExchange(s, code, freshId, login, at))
  {
    var s' := FirstExchange(s, code, freshId, login, at);
    assert RowOk(s, code) && CodeOk(s, code);
    forall c | c in s'.t.handoffs ensures RowOk(s', c) {
      assert RowOk(s, c);
    }
    assert s'.grants[|s.grants|] in s'.grants;
    forall c ensures CodeOk(s', c) {
      assert CodeOk(s, c);
    }
    forall i | 0 <= i < |s'.grants| ensures GrantOk(s', s'.grants[i]) {
      if i < |s.grants| { assert GrantOk(s, s.grants[i]); }
    }
  }

  /** An exchange that changes no table: a refusal, or a replay of the first exchange. */
  lemma ReplayKeepsInv(s: State, outcome: Result<string, Error>, grants: seq<Grant>)
    requires Inv(s) && outcome != Err(Inconsistent)
    requires grants == s.grants || (|grants| == |s.grants| + 1 && grants[..|s.grants|] == s.grants && GrantOk(s, grants[|s.grants|]))
    ensures Inv(s.(outcomes := s.outcomes + [outcome], grants := grants))
  {
    var s' := s.(outcomes := s.outcomes + [outcome], grants := grants);
    forall c | c in s'.t.handoffs ensures RowOk(s', c) {
      assert RowOk(s, c);
    }
    forall c ensures CodeOk(s', c) {
      assert CodeOk(s, c);
      if c in s.firstExchange {
        var k :| 0 <= k < |s.grants| && s.grants[k] == s.firstExchange[c];
        assert grants[k] == grants[..|s.grants|][k];
      }
    }
    forall i | 0 <= i < |s'.grants| ensures GrantOk(s', s'.grants[i]) {
      if i < |s.grants| {
        assert grants[i] == grants[..|s.grants|][i] && GrantOk(s, s.grants[i]);
      }
    }
  }

  lemma ExchangeKeepsInv(s: State, code: Option<string>, binding: Option<string>, freshId: string, login: Session, at: int)
    requires Inv(s)
    ensures Inv(DoExchange(s, code, binding, freshId, login, at))
  {
    if freshId !in s.t.sessions {
      var result := ExchangeResult(s.t, code, binding, login, at);
      if code.Some? && code.value in s.t.handoffs { assert RowOk(s, code.value); }
      if result.Err? {
        ReplayKeepsInv(s, result, s.grants);
      } else if s.t.handoffs[code.value].sessionId.None? {
        FirstExchangeKeepsInv(s, code.value, freshId, login, at);
      } else {
        ReplayKeepsInv(s, result, s.grants + [Grant(code.value, binding.value, result.value, at)]);
      }
    }
  }

  lemma StepKeepsInv(s: State, step: Step)
    requires Inv(s)
    ensures Inv(Apply(s, step))
  {
    match step
    case Start(code, binding, userId, at) => StartKeepsInv(s, code, binding, userId, at);
    case Exchange(code, binding, freshId, login, at) => ExchangeKeepsInv(s, code, binding, freshId, login, at);
    case _ =>
      if Apply(s, step) != s {
        RemovalKeepsInv(s, Apply(s, step).t);
      }
  }

  lemma {:induction false} ReachableInv(steps: seq<Step>)
    ensures Inv(Exec(Empty, steps))
  {
    if steps != [] {
      ReachableInv(steps[..|steps| - 1]);
      StepKeepsInv(Exec(Empty, steps[..|steps| - 1]), steps[|steps| - 1]);
    } else {
      forall code ensures CodeOk(Empty, code) {
      }
    }
  }

  // ------------------------------------------------------------------ what every run guarantees

  /**
   * A code makes at most one session. All its successful exchanges return that session's token, present the
   * binding it was issued with, and happen before its expiry and within a minute of the first.
   */
  lemma OneSessionPerCode(steps: seq<Step>, code: string)
    ensures var s := Exec(Empty, steps);
            && |Minted(s, code)| <= 1
            && (forall i | 0 <= i < |s.grants| && s.grants[i].code == code ::
                  && code in s.issued && code in s.firstExchange && s.firstExchange[code] in s.grants
                  && |Minted(s, code)| == 1
                  && s.grants[i].binding == s.issued[code].binding
                  && s.grants[i].token == s.firstExchange[code].token
                  && s.grants[i].at < s.issued[code].expiresAt
                  && s.grants[i].at <= s.firstExchange[code].at + RETRY_WINDOW_MS)
  {
    ReachableInv(steps);
    var s := Exec(Empty, steps);
    assert CodeOk(s, code);
    forall i | 0 <= i < |s.grants| && s.grants[i].code == code
      ensures GrantOk(s, s.grants[i]) && s.firstExchange[code] in s.grants
    {
      assert GrantOk(s, s.grants[i]);
    }
  }

  /** The branch for an inconsistent completion is never taken. */
  lemma NeverInconsistent(steps: seq<Step>, given: Option<string>, presented: Option<string>, login: Session, at: int)
    ensures ExchangeResult(Exec(Empty, steps).t, given, presented, login, at) != Err(Inconsistent)
  {
    ReachableInv(steps);
    var s := Exec(Empty, steps);
    if given.Some? && given.value in s.t.handoffs {
      assert RowOk(s, given.value);
    }
  }

  /** The session made from the code has not expired. */
  predicate SessionLive(t: Tables, code: string, at: int) {
    && code in t.handoffs && t.handoffs[code].sessionId.Some? && t.handoffs[code].sessionId.value in t.sessions
    && at < t.sessions[t.handoffs[code].sessionId.value].expiresAt
  }

  /** Exactly when an exchange succeeds, and with which token. */
  lemma ExchangeSucceedsExactlyWhen(steps: seq<Step>, code: string, binding: string, login: Session, at: int)
    ensures var s := Exec(Empty, steps);
            var result := ExchangeResult(s.t, Some(code), Some(binding), login, at);
            && (result.Ok? <==>
                  && Reachable(s.t, code, binding, at) && UserValid(s.t, s.t.handoffs[code].userId, at)
                  && (code in s.firstExchange ==>
                        at <= s.firstExchange[code].at + RETRY_WINDOW_MS
                        && SessionLive(s.t, code, at)))
            && (result.Ok? ==> result.value == if code in s.firstExchange then s.firstExchange[code].token else login.token)
  {
    ReachableInv(steps);
    var s := Exec(Empty, steps);
    if code in s.t.handoffs {
      assert RowOk(s, code);
    }
  }

  // ------------------------------------------------------------------ revocation

  predicate Dead(s: State, code: string) {
    code in s.issued && code !in s.t.handoffs
  }

  lemma DeadStep(s: State, step: Step, code: string)
    requires Dead(s, code)
    ensures Dead(Apply(s, step), code)
  {
  }

  lemma {:induction false} DeadStays(s: State, steps: seq<Step>, code: string)
    requires Dead(s, code)
    ensures Dead(Exec(s, steps), code)
  {
    if steps != [] {
      DeadStays(s, steps[..|steps| - 1], code);
      DeadStep(Exec(s, steps[..|steps| - 1]), steps[|steps| - 1], code);
    }
  }

  /** Once the session that a code made is gone, no later exchange of the code succeeds. */
  lemma RevokedSessionEndsItsCode(steps: seq<Step>, code: string, later: seq<Step>, presented: Option<string>,
                                  login: Session, at: int)
    requires var s := Exec(Empty, steps); code in s.minted && s.minted[code] != [] && s.minted[code][0] !in s.t.sessions
    ensures ExchangeResult(Exec(Exec(Empty, steps), later).t, Some(code), presented, login, at) == Err(InvalidHandoff)
  {
    ReachableInv(steps);
    var s := Exec(Empty, steps);
    assert CodeOk(s, code);
    assert code in s.t.handoffs ==> RowOk(s, code);
    DeadStays(s, later, code);
  }

  // ------------------------------------------------------------------ what a cleanup can change

  lemma ReachableResult(steps: seq<Step>, code: string, binding: string, login: Session, at: int)
    ensures var s := Exec(Empty, steps);
            var result := ExchangeResult(s.t, Some(code), Some(binding), login, at);
            (result.Ok? <==> Admits(s.t, code, binding, at)) && (result.Err? ==> result == Err(InvalidHandoff))
  {
    ReachableInv(steps);
    var s := Exec(Empty, steps);
    if code in s.t.handoffs { assert RowOk(s, code); }
    SucceedsExactlyIfAdmitted(s.t, code, binding, login, at);
  }

  /**
   * A cleanup at `c` changes the outcome of an exchange exactly if it deletes the exchange's row and the exchange
   * was admitted; then a success becomes a refusal, and the exchange read its clock before an expiry not after `c`.
   */
  lemma CleanupChangesExactly(steps: seq<Step>, c: int, code: string, binding: string, login: Session, at: int)
    ensures var t := Exec(Empty, steps).t;
            var before, after := ExchangeResult(t, Some(code), Some(binding), login, at),
                                 ExchangeResult(AfterCleanup(t, c), Some(code), Some(binding), login, at);
            && (after != before <==> code in CleanupCodes(t.handoffs, c) && Admits(t, code, binding, at))
            && (after != before ==> before.Ok? && after == Err(InvalidHandoff) && at < t.handoffs[code].expiresAt <= c)
  {
    ReachableResult(steps, code, binding, login, at);
    ReachableInv(steps);
    var s := Exec(Empty, steps);
    if code in s.t.handoffs { assert RowOk(s, code); }
  }

  // ------------------------------------------------------------------ cleanups over a whole run

  function WithoutCleanup(steps: seq<Step>): seq<Step> {
    if steps == [] then []
    else if steps[|steps| - 1].Cleanup? then WithoutCleanup(steps[..|steps| - 1])
    else WithoutCleanup(steps[..|steps| - 1]) + [steps[|steps| - 1]]
  }

  function CleanupTimes(steps: seq<Step>): set<int> {
    set i | 0 <= i < |steps| && steps[i].Cleanup? :: steps[i].at
  }

  /** No exchange reads a clock earlier than a cleanup that ran before it. */
  predicate ExchangesAfterCleanups(steps: seq<Step>) {
    forall i, j | 0 <= i < j < |steps| && steps[i].Cleanup? && steps[j].Exchange? :: steps[i].at <= steps[j].at
  }

  ghost predicate Expired(u: State, code: string, cleanups: set<int>) {
    code in u.t.handoffs && exists c :: c in cleanups && u.t.handoffs[code].expiresAt <= c
  }

  /** `s` is `u` without some rows that a cleanup has seen expired. */
  ghost predicate SameButExpired(s: State, u: State, cleanups: set<int>) {
    && s == u.(t := u.t.(handoffs := s.t.handoffs))
    && (forall code | code in s.t.handoffs :: code in u.t.handoffs && u.t.handoffs[code] == s.t.handoffs[code])
    && (forall code | code in u.t.handoffs && code !in s.t.handoffs :: Expired(u, code, cleanups))
  }

  /** The exchange is admitted without the cleanups, and a cleanup has deleted its row. */
  ghost predicate Spoiled(s: State, u: State, step: Step) {
    && step.Exchange? && step.freshId !in s.t.sessions && step.given.Some? && step.presented.Some?
    && step.given.value !in s.t.handoffs && Admits(u.t, step.given.value, step.presented.value, step.at)
  }

  ghost predicate NoneSpoiled(steps: seq<Step>) {
    steps == [] ||
    (NoneSpoiled(steps[..|steps| - 1])
     && !Spoiled(Exec(Empty, steps[..|steps| - 1]), Exec(Empty, WithoutCleanup(steps[..|steps| - 1])), steps[|steps| - 1]))
  }

  /** The only outcomes in question: the same on both sides unless the exchange is spoiled, and then a refusal for a success. */
  lemma SameResult(s: State, u: State, cleanups: set<int>, step: Step)
    requires SameButExpired(s, u, cleanups) && Inv(u) && step.Exchange? && step.freshId !in s.t.sessions
    ensures var a, b := ExchangeResult(s.t, step.given, step.presented, step.login, step.at),
                        ExchangeResult(u.t, step.given, step.presented, step.login, step.at);
            if Spoiled(s, u, step) then a == Err(InvalidHandoff) && b.Ok? else a == b
  {
    if step.given.Some? && step.presented.Some? {
      if step.given.value in u.t.handoffs { assert RowOk(u, step.given.value); }
      SucceedsExactlyIfAdmitted(u.t, step.given.value, step.presented.value, step.login, step.at);
    }
  }

  /** The same row completed, or nothing, on both sides. */
  lemma SameWrite(s: State, u: State, cleanups: set<int>, s': State, u': State, code: string, h: Handoff)
    requires SameButExpired(s, u, cleanups) && code in s.t.handoffs && h.expiresAt == s.t.handoffs[code].expiresAt
    requires s' == u'.(t := u'.t.(handoffs := s'.t.handoffs))
    requires s'.t.handoffs == s.t.handoffs[code := h] && u'.t.handoffs == u.t.handoffs[code := h]
    ensures SameButExpired(s', u', cleanups)
  {
    forall c | c in u'.t.handoffs && c !in s'.t.handoffs ensures Expired(u', c, cleanups) {
      assert Expired(u, c, cleanups);
    }
  }

  lemma SameHistory(s: State, u: State, cleanups: set<int>, s': State, u': State)
    requires SameButExpired(s, u, cleanups) && s' == u'.(t := u'.t.(handoffs := s'.t.handoffs))
    requires s'.t.handoffs == s.t.handoffs && u'.t.handoffs == u.t.handoffs
    ensures SameButExpired(s', u', cleanups)
  {
    forall c | c in u'.t.handoffs && c !in s'.t.handoffs ensures Expired(u', c, cleanups) {
      assert Expired(u, c, cleanups);
    }
  }

  lemma SameExchange(s: State, u: State, cleanups: set<int>, step: Step)
    requires SameButExpired(s, u, cleanups) && Inv(u) && step.Exchange? && !Spoiled(s, u, step)
    ensures SameButExpired(Apply(s, step), Apply(u, step), cleanups)
  {
    var s', u' := Apply(s, step), Apply(u, step);
    if step.freshId !in s.t.sessions {
      SameResult(s, u, cleanups, step);
      var first := ExchangeResult(s.t, step.given, step.presented, step.login, step.at).Ok?
                   && s.t.handoffs[step.given.value].sessionId.None?;
      if first {
        SameWrite(s, u, cleanups, s', u', step.given.value, s'.t.handoffs[step.given.value]);
      } else {
        SameHistory(s, u, cleanups, s', u');
      }
    }
  }

  lemma SameStep(s: State, u: State, cleanups: set<int>, step: Step)
    requires SameButExpired(s, u, cleanups) && Inv(u) && !step.Cleanup? && !Spoiled(s, u, step)
    ensures SameButExpired(Apply(s, step), Apply(u, step), cleanups)
  {
    if step.Exchange? {
      SameExchange(s, u, cleanups, step);
    } else {
      var s', u' := Apply(s, step), Apply(u, step);
      forall code | code in u'.t.handoffs && code !in s'.t.handoffs ensures Expired(u', code, cleanups) {
        assert Expired(u, code, cleanups);
      }
    }
  }

  lemma MoreCleanups(s: State, u: State, cleanups: set<int>, more: set<int>)
    requires SameButExpired(s, u, cleanups) && cleanups <= more
    ensures SameButExpired(s, u, more)
  {
    forall code | code in u.t.handoffs && code !in s.t.handoffs ensures Expired(u, code, more) {
      assert Expired(u, code, cleanups);
    }
  }

  lemma CleanupStep(s: State, u: State, cleanups: set<int>, at: int)
    requires SameButExpired(s, u, cleanups) && at in cleanups
    ensures SameButExpired(Apply(s, Cleanup(at)), u, cleanups)
  {
    var s' := Apply(s, Cleanup(at));
    forall code | code in u.t.handoffs && code !in s'.t.handoffs ensures Expired(u, code, cleanups) {
      if code !in s.t.handoffs { assert Expired(u, code, cleanups); }
    }
  }

  /** Some exchange of both histories has different outcomes. */
  predicate Differ(a: seq<Result<string, Error>>, b: seq<Result<string, Error>>) {
    exists k :: 0 <= k < |a| && k < |b| && a[k] != b[k]
  }

  lemma OutcomesGrow(s: State, step: Step)
    ensures s.outcomes <= Apply(s, step).outcomes
  {
  }

  lemma DifferStays(a: seq<Result<string, Error>>, b: seq<Result<string, Error>>, a': seq<Result<string, Error>>,
                    b': seq<Result<string, Error>>)
    requires Differ(a, b) && a <= a' && b <= b'
    ensures Differ(a', b')
  {
    var k :| 0 <= k < |a| && k < |b| && a[k] != b[k];
    assert a'[k] == a[k] && b'[k] == b[k];
  }

  lemma SpoiledDiffers(s: State, u: State, cleanups: set<int>, step: Step)
    requires SameButExpired(s, u, cleanups) && Inv(u) && Spoiled(s, u, step)
    ensures Differ(Apply(s, step).outcomes, Apply(u, step).outcomes)
  {
    SameResult(s, u, cleanups, step);
    var a, b := Apply(s, step).outcomes, Apply(u, step).outcomes;
    assert a[|s.outcomes|] != b[|s.outcomes|];
  }

  lemma TimesGrow(steps: seq<Step>)
    requires steps != []
    ensures CleanupTimes(steps[..|steps| - 1]) <= CleanupTimes(steps)
    ensures steps[|steps| - 1].Cleanup? ==> steps[|steps| - 1].at in CleanupTimes(steps)
  {
    var before := steps[..|steps| - 1];
    forall i | 0 <= i < |before| && before[i].Cleanup? ensures before[i].at in CleanupTimes(steps) {
      assert steps[i] == before[i];
    }
  }

  lemma {:induction false} RunsAgree(steps: seq<Step>)
    ensures var s, u := Exec(Empty, steps), Exec(Empty, WithoutCleanup(steps));
            if NoneSpoiled(steps) then SameButExpired(s, u, CleanupTimes(steps)) else Differ(s.outcomes, u.outcomes)
  {
    if steps != [] {
      var before, last := steps[..|steps| - 1], steps[|steps| - 1];
      var s, u := Exec(Empty, before), Exec(Empty, WithoutCleanup(before));
      RunsAgree(before);
      TimesGrow(steps);
      ReachableInv(WithoutCleanup(before));
      OutcomesGrow(s, last);
      if !last.Cleanup? {
        assert (WithoutCleanup(before) + [last])[..|WithoutCleanup(before)|] == WithoutCleanup(before);
        OutcomesGrow(u, last);
      }
      AgreeStep(steps, s, u);
    }
  }

  lemma AgreeStep(steps: seq<Step>, s: State, u: State)
    requires steps != [] && Inv(u)
    requires var before := steps[..|steps| - 1]; s == Exec(Empty, before) && u == Exec(Empty, WithoutCleanup(before))
    requires var before := steps[..|steps| - 1];
      if NoneSpoiled(before) then SameButExpired(s, u, CleanupTimes(before)) else Differ(s.outcomes, u.outcomes)
    ensures var step := steps[|steps| - 1];
            var s', u' := Apply(s, step), if step.Cleanup? then u else Apply(u, step);
            if NoneSpoiled(steps) then SameButExpired(s', u', CleanupTimes(steps)) else Differ(s'.outcomes, u'.outcomes)
  {
    var before, step := steps[..|steps| - 1], steps[|steps| - 1];
    OutcomesGrow(s, step);
    OutcomesGrow(u, step);
    if !NoneSpoiled(before) {
      DifferStays(s.outcomes, u.outcomes, Apply(s, step).outcomes, if step.Cleanup? then u.outcomes else Apply(u, step).outcomes);
    } else if Spoiled(s, u, step) {
      SpoiledDiffers(s, u, CleanupTimes(before), step);
    } else {
      TimesGrow(steps);
      MoreCleanups(s, u, CleanupTimes(before), CleanupTimes(steps));
      if step.Cleanup? {
        CleanupStep(s, u, CleanupTimes(steps), step.at);
      } else {
        SameStep(s, u, CleanupTimes(steps), step);
      }
    }
  }

  /**
   * Running the same steps without any cleanup gives every exchange the same outcome exactly if no cleanup deletes
   * the row of an exchange that would then have been admitted; in that case the sessions are the same too.
   */
  lemma CleanupInvisible(steps: seq<Step>)
    ensures var s, u := Exec(Empty, steps), Exec(Empty, WithoutCleanup(steps));
            && (s.outcomes == u.outcomes <==> NoneSpoiled(steps))
            && (NoneSpoiled(steps) ==> s.t.sessions == u.t.sessions && s.grants == u.grants)
  {
    RunsAgree(steps);
  }

  /** In particular cleanups are invisible to a run whose exchanges all read a clock no earlier than the cleanups before them. */
  lemma {:induction false} LaterSamplesAreNeverSpoiled(steps: seq<Step>)
    requires ExchangesAfterCleanups(steps)
    ensures NoneSpoiled(steps)
  {
    if steps != [] {
      var before, last := steps[..|steps| - 1], steps[|steps| - 1];
      LaterSamplesAreNeverSpoiled(before);
      RunsAgree(before);
      var s, u := Exec(Empty, before), Exec(Empty, WithoutCleanup(before));
      if last.Exchange? && last.given.Some? && last.given.value in u.t.handoffs && last.given.value !in s.t.handoffs {
        assert Expired(u, last.given.value, CleanupTimes(before));
        forall c | c in CleanupTimes(before) ensures c <= last.at {
          var i :| 0 <= i < |before| && before[i].Cleanup? && before[i].at == c;
          assert steps[i] == before[i];
        }
      }
    }
  }

  // ------------------------------------------------------------------ a cleanup that is seen

  const Visitor: User := User(false, false, 0)
  const Login: Session := Session("user", "token", 1_000_000)
  const Opened: seq<Step> := [SetUser("user", Visitor), Start("code", "binding", "user", 0)]
  const LateSweep: Step := Cleanup(TTL_MS)
  const EarlySample: Step := Exchange(Some("code"), Some("binding"), "session", Login, TTL_MS - 1)

  lemma ExecAppend(s: State, steps: seq<Step>, step: Step)
    ensures Exec(s, steps + [step]) == Apply(Exec(s, steps), step)
  {
    assert (steps + [step])[..|steps|] == steps;
  }

  lemma OpenedState()
    ensures Exec(Empty, Opened).t
         == Tables(map["user" := Visitor], map["code" := Handoff("binding", "user", TTL_MS, 0, None, None)], map[])
    ensures Exec(Empty, Opened).outcomes == []
  {
    assert Opened == [] + [SetUser("user", Visitor)] + [Start("code", "binding", "user", 0)];
    ExecAppend(Empty, [], SetUser("user", Visitor));
    ExecAppend(Empty, [] + [SetUser("user", Visitor)], Start("code", "binding", "user", 0));
  }

  /** An exchange that read its clock just before expiry but ran after a cleanup at expiry is refused because of it. */
  lemma EarlySampleSeesCleanup()
    ensures Exec(Empty, Opened + [LateSweep] + [EarlySample]).outcomes == [Err(InvalidHandoff)]
    ensures Exec(Empty, Opened + [EarlySample]).outcomes == [Ok("token")]
  {
    OpenedState();
    var s := Exec(Empty, Opened);
    ExecAppend(Empty, Opened, EarlySample);
    ExecAppend(Empty, Opened, LateSweep);
    ExecAppend(Empty, Opened + [LateSweep], EarlySample);
    CleanupTakesEarliest(s.t.handoffs, TTL_MS);
    assert ExpiredRows(s.t.handoffs, TTL_MS) == {Expiry(TTL_MS, "code")};
    assert "code" !in AfterCleanup(s.t, TTL_MS).handoffs;
  }
}
