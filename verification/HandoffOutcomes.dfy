/** What a login handoff answers and changes, said in plain columns and numbers of its tables. */
module HandoffOutcomes {
  import opened Wrappers
  import opened Ordering
  import opened Counting
  import opened LoginHandoff
  import opened LoginHandoffRuns

  /** The account exists, is not deleted, and is no guest whose access has ended. */
  predicate MaySignIn(t: Tables, userId: string, now: int) {
    && userId in t.users && !t.users[userId].deleted
    && (t.users[userId].guest ==> 0 < t.users[userId].guestExpiresAt && now < t.users[userId].guestExpiresAt)
  }

  // ------------------------------------------------------------------ creation

  /** Exactly who gets a handoff, and what the others are told. */
  lemma CreateAnswers(t: Tables, userId: string, now: int)
    ensures var e := CreateError(t, userId, now); var known := userId in t.users && !t.users[userId].deleted;
            && (e == None <==> known && (t.users[userId].guest ==> now < t.users[userId].guestExpiresAt))
            && (e == Some(InvalidSession) <==> known && t.users[userId].guest && t.users[userId].guestExpiresAt <= now)
            && (e == Some(NotFound) <==> !known)
  {
  }

  /** The row lives for five minutes and has not been exchanged; a refused creation adds none. */
  lemma CreateEffect(t: Tables, code: string, binding: string, userId: string, now: int)
    ensures var t' := AfterCreate(t, code, binding, userId, now);
            && (CreateError(t, userId, now).None? ==>
                  && code in t'.handoffs && t' == t.(handoffs := t.handoffs[code := t'.handoffs[code]])
                  && var h := t'.handoffs[code];
                     && h.binding == binding && h.userId == userId && h.createAt == now && h.expiresAt == now + 300_000
                     && h.sessionId == None && h.exchangedAt == None)
            && (CreateError(t, userId, now).Some? ==> t' == t)
  {
  }

  // ------------------------------------------------------------------ exchange

  /** The code and its binding were presented in time. */
  predicate Presented(t: Tables, code: Option<string>, binding: Option<string>, now: int) {
    && code.Some? && binding.Some? && code.value in t.handoffs
    && t.handoffs[code.value].binding == binding.value && now < t.handoffs[code.value].expiresAt
  }

  /** The session made by the first exchange, at most a minute ago, is still there for the same account. */
  predicate SessionStillThere(t: Tables, h: Handoff, now: int) {
    && h.sessionId.Some? && h.exchangedAt.Some? && now - h.exchangedAt.value <= 60_000
    && h.sessionId.value in t.sessions && t.sessions[h.sessionId.value].userId == h.userId
    && now < t.sessions[h.sessionId.value].expiresAt
  }

  /** Exactly when an exchange succeeds, with which token, and how it fails otherwise. */
  lemma ExchangeAnswers(t: Tables, code: Option<string>, binding: Option<string>, login: Session, now: int)
    ensures var r := ExchangeResult(t, code, binding, login, now);
            if !Presented(t, code, binding, now) then r == Err(InvalidHandoff)
            else
              var h := t.handoffs[code.value];
              && (r == Err(Inconsistent) <==> (h.sessionId.None? && h.exchangedAt.Some?) || (h.sessionId.Some? && h.exchangedAt.None?))
              && (r.Ok? <==> MaySignIn(t, h.userId, now) &&
                             ((h.sessionId.None? && h.exchangedAt.None?) || SessionStillThere(t, h, now)))
              && (r.Err? ==> r == Err(Inconsistent) || r == Err(InvalidHandoff))
              && (r.Ok? && h.sessionId.None? ==> r.value == login.token)
              && (r.Ok? && h.sessionId.Some? ==> h.sessionId.value in t.sessions && r.value == t.sessions[h.sessionId.value].token)
  {
  }

  /** The first exchange makes the session of the handoff's account and marks the row; any other changes nothing. */
  lemma ExchangeEffect(t: Tables, code: Option<string>, binding: Option<string>, freshId: string, login: Session, now: int)
    ensures var r, t' := ExchangeResult(t, code, binding, login, now), AfterExchange(t, code, binding, freshId, login, now);
            if r.Ok? && code.Some? && code.value in t.handoffs && t.handoffs[code.value].sessionId.None? then
              var h := t.handoffs[code.value];
              && t'.users == t.users
              && t'.sessions == t.sessions[freshId := Session(h.userId, login.token, login.expiresAt)]
              && t'.handoffs == t.handoffs[code.value := Handoff(h.binding, h.userId, h.expiresAt, h.createAt, Some(freshId), Some(now))]
            else t' == t
  {
  }

  /** A code exchanged once answers with the same token for a minute and never again, as long as nothing else changes. */
  lemma ExchangedCodeRepeats(t: Tables, code: string, binding: string, freshId: string, login: Session, now: int, again: Session, later: int)
    requires ExchangeResult(t, Some(code), Some(binding), login, now).Ok? && t.handoffs[code].sessionId.None?
    requires now <= later && MaySignIn(t, t.handoffs[code].userId, later)
    ensures var t' := AfterExchange(t, Some(code), Some(binding), freshId, login, now);
            var lives := later < t.handoffs[code].expiresAt && later <= now + 60_000 && later < login.expiresAt;
            ExchangeResult(t', Some(code), Some(binding), again, later) == (if lives then Ok(login.token) else Err(InvalidHandoff))
  {
  }

  // ------------------------------------------------------------------ cleanup and removal

  function ExpiredCodes(handoffs: map<string, Handoff>, now: int): set<string> {
    set code | code in handoffs && handoffs[code].expiresAt <= now
  }

  lemma {:induction false} RowsOfCodes(handoffs: map<string, Handoff>, codes: set<string>)
    requires codes <= handoffs.Keys
    ensures |set code | code in codes :: Expiry(handoffs[code].expiresAt, code)| == |codes|
    decreases |codes|
  {
    if codes != {} {
      var x :| x in codes;
      RowsOfCodes(handoffs, codes - {x});
      assert (set code | code in codes :: Expiry(handoffs[code].expiresAt, code))
          == (set code | code in codes - {x} :: Expiry(handoffs[code].expiresAt, code)) + {Expiry(handoffs[x].expiresAt, x)};
    }
  }

  lemma {:induction false} CodesCount(rows: seq<Expiry>)
    requires forall i, j | 0 <= i < j < |rows| :: rows[i].code != rows[j].code
    ensures |CodesOf(rows)| == |rows|
  {
    if rows != [] {
      var last := |rows| - 1;
      CodesCount(rows[..last]);
      assert CodesOf(rows) == CodesOf(rows[..last]) + {rows[last].code} by {
        forall i | 0 <= i < last ensures rows[i].code in CodesOf(rows[..last]) {
          assert rows[..last][i] == rows[i];
        }
      }
      assert rows[last].code !in CodesOf(rows[..last]);
    }
  }

  lemma CleanupCount(handoffs: map<string, Handoff>, now: int)
    ensures |CleanupCodes(handoffs, now)| == Min(256, |ExpiredCodes(handoffs, now)|)
  {
    var rows := ExpiredRows(handoffs, now);
    RowsOfCodes(handoffs, ExpiredCodes(handoffs, now));
    assert rows == set c | c in ExpiredCodes(handoffs, now) :: Expiry(handoffs[c].expiresAt, c);
    ExpiryTotal(rows);
    var l := Sorted(EarliestExpiry, rows);
    var first := Limited(l, CLEANUP_LIMIT);
    forall i, j | 0 <= i < j < |first| ensures first[i].code != first[j].code {
      assert l[i] in Elements(l) && l[j] in Elements(l) && EarliestExpiry(l[i], l[j]);
      TextLessTotal(l[i].code, l[i].code);
    }
    CodesCount(first);
  }

  /** A cleanup deletes the expired handoffs, the earliest 256 if there are more, and touches nothing else. */
  lemma CleanupOutcome(t: Tables, now: int, code: string)
    ensures var t' := AfterCleanup(t, now);
            && t'.users == t.users && t'.sessions == t.sessions
            && |t.handoffs.Keys - t'.handoffs.Keys| == Min(256, |ExpiredCodes(t.handoffs, now)|)
            && (code in t'.handoffs ==> code in t.handoffs && t'.handoffs[code] == t.handoffs[code])
            && (code in t.handoffs && now < t.handoffs[code].expiresAt ==> code in t'.handoffs)
            && (forall gone | gone in t.handoffs && gone !in t'.handoffs && code in t'.handoffs && t.handoffs[code].expiresAt <= now ::
                  t.handoffs[gone].expiresAt <= t.handoffs[code].expiresAt)
  {
    CleanupTakesEarliest(t.handoffs, now);
    CleanupCount(t.handoffs, now);
    assert t.handoffs.Keys - AfterCleanup(t, now).handoffs.Keys == CleanupCodes(t.handoffs, now);
  }

  /** Deleting sessions deletes them and exactly the handoffs that were exchanged for one of them. */
  lemma RevokeOutcome(t: Tables, ids: set<string>, code: string, sid: string)
    ensures var t' := AfterRevoke(t, ids);
            && t'.users == t.users
            && (sid in t'.sessions <==> sid in t.sessions && sid !in ids)
            && (sid in t'.sessions ==> t'.sessions[sid] == t.sessions[sid])
            && (code in t'.handoffs <==>
                  code in t.handoffs && !(exists id :: id in ids && id in t.sessions && t.handoffs[code].sessionId == Some(id)))
            && (code in t'.handoffs ==> t'.handoffs[code] == t.handoffs[code])
  {
  }

  /** Deleting an account deletes its sessions and handoffs, and the handoffs exchanged for its sessions. */
  lemma DropUserOutcome(t: Tables, userId: string, code: string, sid: string, other: string)
    ensures var t' := WithoutUser(t, userId);
            && (other in t'.users <==> other in t.users && other != userId)
            && (other in t'.users ==> t'.users[other] == t.users[other])
            && (sid in t'.sessions <==> sid in t.sessions && t.sessions[sid].userId != userId)
            && (sid in t'.sessions ==> t'.sessions[sid] == t.sessions[sid])
            && (code in t'.handoffs <==>
                  && code in t.handoffs && t.handoffs[code].userId != userId
                  && !(exists id :: id in t.sessions && t.sessions[id].userId == userId && t.handoffs[code].sessionId == Some(id)))
            && (code in t'.handoffs ==> t'.handoffs[code] == t.handoffs[code])
  {
  }

  /** What the record of a run keeps of an exchange: its answer, and for a success the code, its binding, the token and the time. */
  lemma ExchangeIsRecorded(s: State, code: Option<string>, binding: Option<string>, freshId: string, login: Session, at: int)
    requires freshId !in s.t.sessions
    ensures var r, s' := ExchangeResult(s.t, code, binding, login, at), Apply(s, Exchange(code, binding, freshId, login, at));
            && s'.t == AfterExchange(s.t, code, binding, freshId, login, at)
            && s'.outcomes == s.outcomes + [r] && s'.issued == s.issued
            && (r.Err? ==> s'.grants == s.grants && s'.minted == s.minted && s'.firstExchange == s.firstExchange)
            && (r.Ok? ==> code.Some? && binding.Some? && s'.grants == s.grants + [Grant(code.value, binding.value, r.value, at)])
  {
  }
}
