/** One-time login handoffs: the tables, bounded cleanup, creation and exchange. */
module LoginHandoff {
  import opened Wrappers
  import opened Ordering

  const TTL_MS: int := 300_000
  const RETRY_WINDOW_MS: int := 60_000
  const CLEANUP_LIMIT: nat := 256

  datatype User = User(deleted: bool, guest: bool, guestExpiresAt: int)

  datatype Handoff = Handoff(binding: string, userId: string, expiresAt: int, createAt: int,
                             sessionId: Option<string>, exchangedAt: Option<int>)

  datatype Session = Session(userId: string, token: string, expiresAt: int)

  /** Handoffs are keyed by the digest of their code; a handoff that names a session is deleted with it. */
  datatype Tables = Tables(users: map<string, User>, handoffs: map<string, Handoff>, sessions: map<string, Session>)

  datatype Error = NotFound | InvalidSession | InvalidHandoff | Inconsistent

  predicate GuestAccessValid(u: User, now: int) {
    !u.guest || (u.guestExpiresAt > 0 && u.guestExpiresAt > now)
  }

  // ------------------------------------------------------------------ cleanup

  datatype Expiry = Expiry(at: int, code: string)

  predicate ExpiresBefore(a: Expiry, b: Expiry) {
    a.at < b.at || (a.at == b.at && TextLess(a.code, b.code))
  }

  const EarliestExpiry: (Expiry, Expiry) -> bool := (a, b) => ExpiresBefore(a, b)

  function ExpiredRows(handoffs: map<string, Handoff>, now: int): set<Expiry> {
    set code | code in handoffs && handoffs[code].expiresAt <= now :: Expiry(handoffs[code].expiresAt, code)
  }

  lemma ExpiryTotal(rows: set<Expiry>)
    ensures StrictTotalOn(EarliestExpiry, rows)
  {
    forall a, b | a in rows && b in rows && a != b ensures ExpiresBefore(a, b) || ExpiresBefore(b, a) {
      TextLessTotal(a.code, b.code);
    }
    forall a | a in rows ensures !ExpiresBefore(a, a) {
      TextLessTotal(a.code, a.code);
    }
    forall a, b, c | a in rows && b in rows && c in rows && ExpiresBefore(a, b) && ExpiresBefore(b, c) ensures ExpiresBefore(a, c) {
      if a.at == b.at == c.at {
        TextLessTransitive(a.code, b.code, c.code);
      }
    }
  }

  function CodesOf(rows: seq<Expiry>): set<string> {
    set i | 0 <= i < |rows| :: rows[i].code
  }

  /** The codes that one cleanup deletes: the earliest 256 of the expired rows. */
  ghost function CleanupCodes(handoffs: map<string, Handoff>, now: int): (codes: set<string>)
    ensures forall code | code in codes :: code in handoffs && handoffs[code].expiresAt <= now
  {
    var rows := ExpiredRows(handoffs, now);
    ExpiryTotal(rows);
    var first := Limited(Sorted(EarliestExpiry, rows), CLEANUP_LIMIT);
    assert forall i | 0 <= i < |first| :: first[i] in Elements(Sorted(EarliestExpiry, rows)) && first[i] in rows;
    CodesOf(first)
  }

  /** A cleanup deletes all expired rows if they fit the limit; what it leaves expired later than what it took. */
  lemma CleanupTakesEarliest(handoffs: map<string, Handoff>, now: int)
    ensures var codes := CleanupCodes(handoffs, now);
            && (|ExpiredRows(handoffs, now)| <= CLEANUP_LIMIT ==>
                  forall code | code in handoffs && handoffs[code].expiresAt <= now :: code in codes)
            && (forall a, b | a in codes && b in handoffs && b !in codes && handoffs[b].expiresAt <= now ::
                  ExpiresBefore(Expiry(handoffs[a].expiresAt, a), Expiry(handoffs[b].expiresAt, b)))
  {
    var rows := ExpiredRows(handoffs, now);
    ExpiryTotal(rows);
    var l := Sorted(EarliestExpiry, rows);
    var first := Limited(l, CLEANUP_LIMIT);
    assert forall i | 0 <= i < |first| :: first[i] == l[i];
    forall code | code in handoffs && handoffs[code].expiresAt <= now
      ensures exists j :: 0 <= j < |l| && l[j] == Expiry(handoffs[code].expiresAt, code) && (j < |first| ==> code in CodesOf(first))
    {
      assert Expiry(handoffs[code].expiresAt, code) in Elements(l);
      var j :| 0 <= j < |l| && l[j] == Expiry(handoffs[code].expiresAt, code);
      assert j < |first| ==> first[j].code in CodesOf(first);
    }
    forall a, b | a in CodesOf(first) && b in handoffs && b !in CodesOf(first) && handoffs[b].expiresAt <= now
      ensures ExpiresBefore(Expiry(handoffs[a].expiresAt, a), Expiry(handoffs[b].expiresAt, b))
    {
      var i :| 0 <= i < |first| && first[i].code == a;
      assert l[i] in Elements(l);
      var j :| 0 <= j < |l| && l[j] == Expiry(handoffs[b].expiresAt, b) && (j < |first| ==> b in CodesOf(first));
      assert EarliestExpiry(l[i], l[j]);
    }
  }

  ghost function AfterCleanup(t: Tables, now: int): Tables {
    t.(handoffs := t.handoffs - CleanupCodes(t.handoffs, now))
  }

  // ------------------------------------------------------------------ creation, exchange, revocation

  /** The guard of the insert. */
  predicate MayStart(t: Tables, userId: string, now: int) {
    userId in t.users && !t.users[userId].deleted && (!t.users[userId].guest || t.users[userId].guestExpiresAt > now)
  }

  function CreateError(t: Tables, userId: string, now: int): Option<Error> {
    if MayStart(t, userId, now) then None
    else if userId in t.users && !t.users[userId].deleted && !GuestAccessValid(t.users[userId], now) then Some(InvalidSession)
    else Some(NotFound)
  }

  function AfterCreate(t: Tables, code: string, binding: string, userId: string, now: int): Tables {
    if MayStart(t, userId, now)
    then t.(handoffs := t.handoffs[code := Handoff(binding, userId, now + TTL_MS, now, None, None)]) else t
  }

  /** The row a caller with this code and binding reaches. */
  predicate Reachable(t: Tables, code: string, binding: string, now: int) {
    code in t.handoffs && t.handoffs[code].binding == binding && t.handoffs[code].expiresAt > now
  }

  predicate UserValid(t: Tables, userId: string, now: int) {
    userId in t.users && !t.users[userId].deleted && GuestAccessValid(t.users[userId], now)
  }

  /** The token of an exchange; `login` is the session it would insert. */
  function ExchangeResult(t: Tables, code: Option<string>, binding: Option<string>, login: Session,
                          now: int): Result<string, Error> {
    if code.None? || binding.None? || !Reachable(t, code.value, binding.value, now) then Err(InvalidHandoff)
    else
      var h := t.handoffs[code.value];
      if h.sessionId.None? != h.exchangedAt.None? then Err(Inconsistent)
      else if !UserValid(t, h.userId, now) then Err(InvalidHandoff)
      else if h.sessionId.None? then Ok(login.token)
      else if now - h.exchangedAt.value > RETRY_WINDOW_MS then Err(InvalidHandoff)
      else if h.sessionId.value !in t.sessions || t.sessions[h.sessionId.value].userId != h.userId
              || t.sessions[h.sessionId.value].expiresAt <= now then Err(InvalidHandoff)
      else Ok(t.sessions[h.sessionId.value].token)
  }

  /** The session that a completed handoff names can still be handed out again. */
  predicate Replayable(t: Tables, h: Handoff, now: int) {
    && h.sessionId.Some? && h.exchangedAt.Some? && now - h.exchangedAt.value <= RETRY_WINDOW_MS
    && h.sessionId.value in t.sessions && t.sessions[h.sessionId.value].userId == h.userId
    && now < t.sessions[h.sessionId.value].expiresAt
  }

  /** The conditions for an exchange, as a caller could check them beforehand. */
  predicate Admits(t: Tables, code: string, binding: string, now: int) {
    && Reachable(t, code, binding, now) && UserValid(t, t.handoffs[code].userId, now)
    && ((t.handoffs[code].sessionId.None? && t.handoffs[code].exchangedAt.None?) || Replayable(t, t.handoffs[code], now))
  }

  /** On a consistent row an exchange succeeds exactly under these conditions; its other outcome is one refusal. */
  lemma SucceedsExactlyIfAdmitted(t: Tables, code: string, binding: string, login: Session, now: int)
    requires code in t.handoffs ==> (t.handoffs[code].sessionId.None? <==> t.handoffs[code].exchangedAt.None?)
    ensures ExchangeResult(t, Some(code), Some(binding), login, now).Ok? <==> Admits(t, code, binding, now)
    ensures ExchangeResult(t, Some(code), Some(binding), login, now).Err? ==>
              ExchangeResult(t, Some(code), Some(binding), login, now) == Err(InvalidHandoff)
  {
  }

  function AfterExchange(t: Tables, code: Option<string>, binding: Option<string>, freshId: string, login: Session,
                         now: int): Tables {
    if ExchangeResult(t, code, binding, login, now).Ok? && t.handoffs[code.value].sessionId.None? then
      var h := t.handoffs[code.value];
      t.(sessions := t.sessions[freshId := login.(userId := h.userId)],
      handoffs := t.handoffs[code.value := h.(sessionId := Some(freshId), exchangedAt := Some(now))])
    else t
  }

  /** Deleting sessions deletes the handoffs that name them. */
  function AfterRevoke(t: Tables, ids: set<string>): Tables {
    t.(sessions := t.sessions - ids,
    handoffs := map code | code in t.handoffs && !NamesOneOf(t, t.handoffs[code], ids) :: t.handoffs[code])
  }

  predicate NamesOneOf(t: Tables, h: Handoff, ids: set<string>) {
    h.sessionId.Some? && h.sessionId.value in ids && h.sessionId.value in t.sessions
  }

  class HandoffStore {
    var users: map<string, User>
    var handoffs: map<string, Handoff>
    var sessions: map<string, Session>

    function View(): Tables
      reads this
    {
      Tables(users, handoffs, sessions)
    }

    constructor (users: map<string, User>)
      ensures View() == Tables(users, map[], map[])
    {
      this.users := users;
      handoffs, sessions := map[], map[];
    }

    method Cleanup(now: int)
      modifies this`handoffs
      ensures View() == AfterCleanup(old(View()), now)
    {
      var rows := ExpiredRows(handoffs, now);
      ExpiryTotal(rows);
      var first := OrderedRows(EarliestExpiry, rows, CLEANUP_LIMIT);
      handoffs := handoffs - CodesOf(first);
    }

    /** The cleanup may fail without consequence; the clock is read again before the insert. */
    method CreateLoginHandoff(code: string, binding: string, userId: string, cleanupFails: bool, cleanupAt: int, now: int)
      returns (result: Result<int, Error>)
      requires code !in handoffs
      modifies this`handoffs
      ensures var cleaned := if cleanupFails then old(View()) else AfterCleanup(old(View()), cleanupAt);
              View() == AfterCreate(cleaned, code, binding, userId, now)
      ensures match CreateError(old(View()), userId, now)
              case Some(e) => result == Err(e)
              case None => result == Ok(now + TTL_MS)
    {
      if !cleanupFails {
        Cleanup(cleanupAt);
      }
      var expiresAt := now + TTL_MS;
      if userId in users && !users[userId].deleted && (!users[userId].guest || users[userId].guestExpiresAt > now) {
        handoffs := handoffs[code := Handoff(binding, userId, expiresAt, now, None, None)];
        return Ok(expiresAt);
      }
      if userId in users && !users[userId].deleted {
        if !GuestAccessValid(users[userId], now) {
          return Err(InvalidSession);
        }
      }
      return Err(NotFound);
    }

    method ExchangeLoginHandoff(code: Option<string>, binding: Option<string>, freshId: string, login: Session, now: int)
      returns (result: Result<string, Error>)
      requires freshId !in sessions
      modifies this
      ensures View() == AfterExchange(old(View()), code, binding, freshId, login, now)
      ensures result == ExchangeResult(old(View()), code, binding, login, now)
      ensures result.Ok? ==>
                && code.Some? && binding.Some? && code.value in old(handoffs)
                && old(handoffs)[code.value].binding == binding.value && now < old(handoffs)[code.value].expiresAt
                && old(handoffs)[code.value].userId in users && !users[old(handoffs)[code.value].userId].deleted
    {
      if code.None? {
        return Err(InvalidHandoff);
      }
      if binding.None? {
        return Err(InvalidHandoff);
      }
      if code.value !in handoffs || handoffs[code.value].binding != binding.value || handoffs[code.value].expiresAt <= now {
        return Err(InvalidHandoff);
      }
      var h := handoffs[code.value];
      if h.sessionId.None? != h.exchangedAt.None? {
        return Err(Inconsistent);
      }
      if h.userId !in users || users[h.userId].deleted {
        return Err(InvalidHandoff);
      }
      if !GuestAccessValid(users[h.userId], now) {
        return Err(InvalidHandoff);
      }
      var token: string;
      if h.sessionId.Some? {
        if now - h.exchangedAt.value > RETRY_WINDOW_MS {
          return Err(InvalidHandoff);
        }
        var id := h.sessionId.value;
        if id !in sessions || sessions[id].userId != h.userId || sessions[id].expiresAt <= now {
          return Err(InvalidHandoff);
        }
        token := sessions[id].token;
      } else {
        sessions := sessions[freshId := Session(h.userId, login.token, login.expiresAt)];
        handoffs := handoffs[code.value := h.(sessionId := Some(freshId), exchangedAt := Some(now))];
        token := login.token;
      }
      return Ok(token);
    }

    method RevokeSessions(ids: set<string>)
      modifies this
      ensures View() == AfterRevoke(old(View()), ids)
    {
      var named := set code | code in handoffs && handoffs[code].sessionId.Some?
                              && handoffs[code].sessionId.value in ids && handoffs[code].sessionId.value in sessions;
      sessions := sessions - ids;
      handoffs := handoffs - named;
    }
  }
}
