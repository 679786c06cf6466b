/** When keys can be used and what each transaction does to them, said in plain columns and numbers. */
module KeyOutcomes {
  import opened Wrappers
  import opened ApiKeys

  // ------------------------------------------------------------------ use

  /**
   * A key can be used exactly before its expiry, if it has one, while it is active or in the grace period after a
   * rotation, and was never revoked.
   */
  lemma UsableExactlyWhen(k: Key, now: int)
    ensures UsableAt(k, now) <==>
              && (k.expiresAt == 0 || now < k.expiresAt) && k.revokedAt == 0
              && (k.status == Active || (k.status == Retiring && now < k.validUntil))
  {
  }

  /** The last use is written when the stored one is more than a minute old. */
  lemma UseOutcome(keys: map<string, Key>, id: string, now: int)
    ensures Touched(keys, id, now) == if id in keys && now - keys[id].lastUsedAt > 60_000
                                      then keys[id := keys[id].(lastUsedAt := now)] else keys
  {
  }

  // ------------------------------------------------------------------ rotation

  /** The locked test: the owner's key is active, not revoked and not past its expiry. */
  lemma RotationAnswers(keys: map<string, Key>, id: string, owner: string, now: int)
    ensures RotateError(keys, id, owner, now) == Some(NotFound) <==> id !in keys || keys[id].owner != owner
    ensures RotateError(keys, id, owner, now) == None <==>
              && id in keys && keys[id].owner == owner && keys[id].status == Active && keys[id].revokedAt == 0
              && (keys[id].expiresAt == 0 || now < keys[id].expiresAt)
    ensures RotateError(keys, id, owner, now).Some? ==>
              RotateError(keys, id, owner, now) == Some(NotFound) || RotateError(keys, id, owner, now) == Some(RotationConflict)
  {
  }

  /** The earlier test on the snapshot, which also turns away keys without an expiry. */
  lemma PreflightExactlyWhen(snapshot: Key, now: int)
    ensures PreflightPasses(snapshot, now) <==> snapshot.status == Active && now < snapshot.expiresAt
  {
  }

  /**
   * A rotation leaves the old key usable until the end of its grace period and the new one until the common expiry. The
   * new key has the old one's owner, grant and group, the next version, and the prefix and creator asked for.
   */
  lemma RotationOutcome(keys: map<string, Key>, id: string, owner: string, snapshot: Key, prefix: string, createdBy: string,
                        newId: string, graceUntil: int, now: int, t: int)
    requires RotateError(keys, id, owner, now).None? && newId !in keys && now <= t
    ensures var after := AfterRotate(keys, id, owner, Prepared(snapshot, id, prefix, createdBy, now), newId, graceUntil, now);
            && id in after && newId in after && id != newId
            && (UsableAt(after[id], t) <==> t < graceUntil && (keys[id].expiresAt == 0 || t < keys[id].expiresAt))
            && (UsableAt(after[newId], t) <==> keys[id].expiresAt == 0 || t < keys[id].expiresAt)
            && (forall other | other in keys && other != id :: other in after && after[other] == keys[other])
            && after.Keys == keys.Keys + {newId}
            && var k, old', new' := keys[id], after[id], after[newId];
               && old' == k.(status := Retiring, validUntil := graceUntil, updateAt := now, revision := k.revision + 1)
               && new'.owner == k.owner && new'.grant == k.grant && new'.expiresAt == k.expiresAt
               && new'.group == (if k.group != "" then k.group else id) && new'.version == k.version + 1 && new'.rotatedFrom == id
               && new'.prefix == prefix && new'.createdBy == createdBy && new'.createAt == now && new'.updateAt == now
               && new'.status == Active && new'.validUntil == 0 && new'.lastUsedAt == 0 && new'.revokedAt == 0 && new'.revision == 1
  {
  }

  /** A rotation that is refused changes nothing. */
  lemma RefusedRotation(keys: map<string, Key>, id: string, owner: string, prepared: Key, newId: string, graceUntil: int, now: int)
    requires RotateError(keys, id, owner, now).Some?
    ensures AfterRotate(keys, id, owner, prepared, newId, graceUntil, now) == keys
  {
  }

  /** A rotation started by the service: the grace period counts from the clock sample after the preflight. */
  lemma BegunRotation(s: System, op: nat, id: string, owner: string, prefix: string, createdBy: string, checkedAt: int, grace: nat, now: int)
    ensures var s' := Apply(s, BeginRotate(op, id, owner, prefix, createdBy, checkedAt, grace, now));
            var passes := id in s.keys && s.keys[id].owner == owner && s.keys[id].status == Active && checkedAt < s.keys[id].expiresAt;
            && s'.keys == s.keys
            && (passes ==> op in s'.pending && s'.pending[op].keyId == id && s'.pending[op].owner == owner
                           && s'.pending[op].graceUntil == now + grace && s'.pending[op].now == now
                           && s'.pending[op].prepared.version == s.keys[id].version + 1
                           && s'.pending[op].prepared.prefix == prefix && s'.pending[op].prepared.createdBy == createdBy)
            && (!passes ==> s' == s)
  {
  }

  /** The step revokes the key, or retires it by a rotation. */
  predicate EndsUse(step: Step, id: string, s: System) {
    || (step.Revoke? && step.keyId == id)
    || (step.CommitRotate? && step.op in s.pending && s.pending[step.op].keyId == id)
  }

  predicate NeverEnded(s: System, steps: seq<Step>, id: string) {
    steps == [] || (NeverEnded(s, steps[..|steps| - 1], id) && !EndsUse(steps[|steps| - 1], id, Exec(s, steps[..|steps| - 1])))
  }

  /** Over any steps that neither revoke nor rotate it, a key stays usable at exactly the times it was usable at. */
  lemma {:induction false} UseUnchangedOtherwise(s: System, steps: seq<Step>, id: string, t: int)
    requires id in s.keys && NeverEnded(s, steps, id)
    ensures id in Exec(s, steps).keys && (UsableAt(Exec(s, steps).keys[id], t) <==> UsableAt(s.keys[id], t))
  {
    if steps != [] {
      UseUnchangedOtherwise(s, steps[..|steps| - 1], id, t);
      UseStep(Exec(s, steps[..|steps| - 1]), steps[|steps| - 1], id, t);
    }
  }

  lemma UseStep(s: System, step: Step, id: string, t: int)
    requires id in s.keys && !EndsUse(step, id, s)
    ensures id in Apply(s, step).keys && (UsableAt(Apply(s, step).keys[id], t) <==> UsableAt(s.keys[id], t))
  {
  }

  /**
   * Over every run: a committed rotation leaves the old key usable exactly until the end of its grace period or its
   * expiry, and the new one until that expiry, through any later steps that neither revoke nor rotate them.
   */
  lemma GraceIsKept(steps: seq<Step>, op: nat, newId: string, later: seq<Step>, t: int)
    requires op in Exec(Empty, steps).pending && newId != "" && newId !in Exec(Empty, steps).keys
    requires var s := Exec(Empty, steps); var p := s.pending[op];
      && p.now <= t && RotateError(s.keys, p.keyId, p.owner, p.now).None?
      && NeverEnded(Apply(s, CommitRotate(op, newId)), later, p.keyId) && NeverEnded(Apply(s, CommitRotate(op, newId)), later, newId)
    ensures var s := Exec(Empty, steps); var p := s.pending[op];
            var keys := Exec(Apply(s, CommitRotate(op, newId)), later).keys;
            && p.keyId in s.keys && p.keyId in keys && newId in keys
            && var expiry := s.keys[p.keyId].expiresAt;
               && (UsableAt(keys[p.keyId], t) <==> t < p.graceUntil && (expiry == 0 || t < expiry))
               && (UsableAt(keys[newId], t) <==> expiry == 0 || t < expiry)
  {
    ReachableInv(steps);
    var s := Exec(Empty, steps);
    var s1 := Apply(s, CommitRotate(op, newId));
    UseUnchangedOtherwise(s1, later, s.pending[op].keyId, t);
    UseUnchangedOtherwise(s1, later, newId, t);
  }

  // ------------------------------------------------------------------ creation, edits, revocation

  lemma CreationOutcome(id: string, owner: string, grant: Grant, prefix: string, createdBy: string, expiresAt: int, now: int, t: int)
    ensures var k := NewKey(id, owner, grant, prefix, createdBy, expiresAt, now);
            && (UsableAt(k, t) <==> expiresAt == 0 || t < expiresAt)
            && k.owner == owner && k.grant == grant && k.prefix == prefix && k.createdBy == createdBy && k.expiresAt == expiresAt
            && k.group == id && k.version == 1 && k.rotatedFrom == "" && k.createAt == now && k.updateAt == now
            && k.lastUsedAt == 0 && k.revision == 1
  {
  }

  /** An edit is accepted exactly for the owner's key that is not revoked, at the expected revision if one is given. */
  lemma EditAnswers(keys: map<string, Key>, id: string, owner: string, expected: Option<nat>)
    ensures EditError(keys, id, owner, expected) == None <==>
              && id in keys && keys[id].owner == owner && keys[id].status != Revoked
              && (expected.Some? ==> keys[id].revision == expected.value)
    ensures EditError(keys, id, owner, expected) == Some(RevisionConflict) <==>
              && id in keys && keys[id].owner == owner && keys[id].status != Revoked
              && expected.Some? && keys[id].revision != expected.value
    ensures EditError(keys, id, owner, expected) == Some(NotFound) <==>
              id !in keys || keys[id].owner != owner || keys[id].status == Revoked
  {
  }

  /** Of two edits that expect the same revision of a key, the second is refused. */
  lemma StaleEditLoses(keys: map<string, Key>, id: string, owner: string, revision: nat, permissions: seq<string>,
                       teamIds: seq<string>, channelIds: seq<string>, now: int)
    requires EditError(keys, id, owner, Some(revision)).None?
    ensures var after := keys[id := Edited(keys[id], permissions, teamIds, channelIds, now)];
            && EditError(after, id, owner, Some(revision)) == Some(RevisionConflict)
            && EditError(after, id, owner, Some(revision + 1)) == None
            && after[id] == keys[id].(grant := after[id].grant, updateAt := now, revision := revision + 1)
            && after[id].grant == keys[id].grant.(permissions := permissions, teamIds := teamIds, channelIds := channelIds)
  {
  }

  /** A revocation is accepted exactly for the owner's key that is not revoked, and ends its use for ever. */
  lemma RevocationOutcome(keys: map<string, Key>, id: string, owner: string, now: int, t: int)
    ensures RevokeError(keys, id, owner) == None <==> id in keys && keys[id].owner == owner && keys[id].status != Revoked
    ensures RevokeError(keys, id, owner).Some? ==> RevokeError(keys, id, owner) == Some(NotFound)
    ensures id in keys ==>
              var k := RevokedKey(keys[id], now);
              !UsableAt(k, t) && k == keys[id].(status := Revoked, revokedAt := now, validUntil := 0, updateAt := now,
                                                revision := keys[id].revision + 1)
  {
  }
}
