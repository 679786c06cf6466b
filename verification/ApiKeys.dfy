/** API keys: the locked transactions of the repository and the rotation built on a preflight snapshot. */
module ApiKeys {
  import opened Wrappers

  datatype Status = Active | Retiring | Revoked

  /** The columns a rotation must inherit from the locked row. */
  datatype Grant = Grant(name: string, description: string, kind: string, permissions: seq<string>,
                         teamIds: seq<string>, channelIds: seq<string>)

  /** A row of `api_keys` with its permission rows; the id is the key of the table map. */
  datatype Key = Key(
    owner: string, grant: Grant, prefix: string, status: Status, expiresAt: int, validUntil: int,
    group: string, version: nat, rotatedFrom: string,
    createdBy: string, createAt: int, updateAt: int, lastUsedAt: int, revokedAt: int, revision: nat)

  datatype Error = NotFound | RotationConflict | RevisionConflict

  predicate UsableAt(k: Key, now: int) {
    if k.expiresAt != 0 && k.expiresAt <= now then false
    else match k.status
         case Active => k.revokedAt == 0
         case Retiring => k.revokedAt == 0 && k.validUntil > now
         case Revoked => false
  }

  function FirstNonEmpty(a: string, b: string): string {
    if a != "" then a else b
  }

  predicate OwnedBy(keys: map<string, Key>, id: string, owner: string) {
    id in keys && keys[id].owner == owner
  }

  // ------------------------------------------------------------------ what each transaction does

  /** The replacement that the service prepares from its snapshot of the old key. */
  function Prepared(snapshot: Key, keyId: string, prefix: string, createdBy: string, now: int): Key {
    snapshot.(prefix := prefix, status := Active, validUntil := 0,
    group := FirstNonEmpty(snapshot.group, keyId), version := snapshot.version + 1, rotatedFrom := keyId,
    createdBy := createdBy, createAt := now, updateAt := now, lastUsedAt := 0, revokedAt := 0, revision := 1)
  }

  /** The service's own test on the snapshot, before anything is locked. */
  predicate PreflightPasses(snapshot: Key, now: int) {
    snapshot.status == Active && snapshot.expiresAt > now
  }

  function RotateError(keys: map<string, Key>, keyId: string, owner: string, now: int): Option<Error> {
    if !OwnedBy(keys, keyId, owner) then Some(NotFound)
    else
      var row := keys[keyId];
      if row.status != Active || row.revokedAt != 0 || (row.expiresAt != 0 && row.expiresAt <= now)
      then Some(RotationConflict) else None
  }

  function Retire(k: Key, graceUntil: int, now: int): Key {
    k.(status := Retiring, validUntil := graceUntil, updateAt := now, revision := k.revision + 1)
  }

  function Successor(k: Key, oldId: string, prepared: Key): Key {
    prepared.(owner := k.owner, grant := k.grant, expiresAt := k.expiresAt,
    group := FirstNonEmpty(k.group, oldId), version := k.version + 1, rotatedFrom := oldId)
  }

  function AfterRotate(keys: map<string, Key>, keyId: string, owner: string, prepared: Key, freshId: string,
                       graceUntil: int, now: int): map<string, Key>
  {
    if RotateError(keys, keyId, owner, now).Some? then keys
    else keys[keyId := Retire(keys[keyId], graceUntil, now)][freshId := Successor(keys[keyId], keyId, prepared)]
  }

  function EditError(keys: map<string, Key>, keyId: string, owner: string, expectedRevision: Option<nat>): Option<Error> {
    if !OwnedBy(keys, keyId, owner) || keys[keyId].status == Revoked then Some(NotFound)
    else if expectedRevision.Some? && expectedRevision.value != keys[keyId].revision then Some(RevisionConflict)
    else None
  }

  function Edited(k: Key, permissions: seq<string>, teamIds: seq<string>, channelIds: seq<string>, now: int): Key {
    k.(grant := k.grant.(permissions := permissions, teamIds := teamIds, channelIds := channelIds),
    updateAt := now, revision := k.revision + 1)
  }

  function RevokeError(keys: map<string, Key>, keyId: string, owner: string): Option<Error> {
    if OwnedBy(keys, keyId, owner) && keys[keyId].status != Revoked then None else Some(NotFound)
  }

  function RevokedKey(k: Key, now: int): Key {
    k.(status := Revoked, revokedAt := now, validUntil := 0, updateAt := now, revision := k.revision + 1)
  }

  function NewKey(id: string, owner: string, grant: Grant, prefix: string, createdBy: string, expiresAt: int,
                  now: int): Key {
    Key(owner, grant, prefix, Active, expiresAt, 0, id, 1, "", createdBy, now, now, 0, 0, 1)
  }

  class KeyStore {
    var keys: map<string, Key>

    constructor ()
      ensures keys == map[]
    {
      keys := map[];
    }

    method Create(id: string, owner: string, grant: Grant, prefix: string, createdBy: string, expiresAt: int, now: int)
      requires id !in keys
      modifies this
      ensures keys == old(keys)[id := NewKey(id, owner, grant, prefix, createdBy, expiresAt, now)]
    {
      keys := keys[id := Key(owner, grant, prefix, Active, expiresAt, 0, id, 1, "", createdBy, now, now, 0, 0, 1)];
    }

    method Rotate(keyId: string, owner: string, prepared: Key, freshId: string, graceUntil: int, now: int)
      returns (result: Result<(Key, Key), Error>)
      requires freshId !in keys
      modifies this
      ensures keys == AfterRotate(old(keys), keyId, owner, prepared, freshId, graceUntil, now)
      ensures match RotateError(old(keys), keyId, owner, now)
              case Some(e) => result == Err(e)
              case None => keyId in keys && freshId in keys && result == Ok((keys[keyId], keys[freshId]))
      ensures result.Ok? ==>
                keyId in old(keys) && keyId != freshId
                && keys[keyId] == old(keys)[keyId].(status := Retiring, validUntil := graceUntil, updateAt := now,
                                                    revision := old(keys)[keyId].revision + 1)
    {
      if keyId !in keys || keys[keyId].owner != owner {
        return Err(NotFound);
      }
      var locked := keys[keyId];
      if locked.status != Active || locked.revokedAt != 0 || (locked.expiresAt != 0 && locked.expiresAt <= now) {
        return Err(RotationConflict);
      }
      var replacement := prepared;
      replacement := replacement.(owner := locked.owner);
      replacement := replacement.(grant := prepared.grant.(name := locked.grant.name, description := locked.grant.description,
      kind := locked.grant.kind, teamIds := locked.grant.teamIds, channelIds := locked.grant.channelIds));
      replacement := replacement.(expiresAt := locked.expiresAt);
      replacement := replacement.(group := FirstNonEmpty(locked.group, keyId));
      replacement := replacement.(version := locked.version + 1);
      replacement := replacement.(rotatedFrom := keyId);
      locked := locked.(status := Retiring);
      locked := locked.(validUntil := graceUntil);
      locked := locked.(updateAt := now);
      locked := locked.(revision := locked.revision + 1);
      keys := keys[keyId := locked];
      replacement := replacement.(grant := replacement.grant.(permissions := locked.grant.permissions));
      keys := keys[freshId := replacement];
      return Ok((locked, replacement));
    }

    method ReplacePermissions(keyId: string, owner: string, permissions: seq<string>, teamIds: seq<string>,
                              channelIds: seq<string>, expectedRevision: Option<nat>, now: int) returns (error: Option<Error>)
      modifies this
      ensures error == EditError(old(keys), keyId, owner, expectedRevision)
      ensures keys == if error.None? then old(keys)[keyId := Edited(old(keys)[keyId], permissions, teamIds, channelIds, now)] else old(keys)
    {
      if keyId !in keys || keys[keyId].owner != owner {
        return Some(NotFound);
      }
      var row := keys[keyId];
      if row.status == Revoked {
        return Some(NotFound);
      }
      if expectedRevision.Some? && expectedRevision.value != row.revision {
        return Some(RevisionConflict);
      }
      row := row.(grant := row.grant.(permissions := permissions));
      row := row.(grant := row.grant.(teamIds := teamIds, channelIds := channelIds), updateAt := now, revision := row.revision + 1);
      keys := keys[keyId := row];
      return None;
    }

    method Revoke(keyId: string, owner: string, now: int) returns (error: Option<Error>)
      modifies this
      ensures error == RevokeError(old(keys), keyId, owner)
      ensures keys == if error.None? then old(keys)[keyId := RevokedKey(old(keys)[keyId], now)] else old(keys)
    {
      if keyId !in keys || keys[keyId].owner != owner || keys[keyId].status == Revoked {
        return Some(NotFound);
      }
      keys := keys[keyId := keys[keyId].(status := Revoked, revokedAt := now, validUntil := 0, updateAt := now,
      revision := keys[keyId].revision + 1)];
      return None;
    }

    /** At most one `last_used_at` write per minute. */
    method MarkUsed(keyId: string, now: int)
      modifies this
      ensures keys == Touched(old(keys), keyId, now)
    {
      if keyId in keys && keys[keyId].lastUsedAt < now - 60_000 {
        keys := keys[keyId := keys[keyId].(lastUsedAt := now)];
      }
    }
  }

  function Touched(keys: map<string, Key>, keyId: string, now: int): map<string, Key> {
    if keyId in keys && keys[keyId].lastUsedAt < now - 60_000
    then keys[keyId := keys[keyId].(lastUsedAt := now)] else keys
  }

  // ------------------------------------------------------------------ interleavings

  /** A rotation between its preflight read and its locked transaction. */
  datatype Preflight = Preflight(keyId: string, owner: string, prepared: Key, graceUntil: int, now: int)

  datatype System = System(keys: map<string, Key>, pending: map<nat, Preflight>)

  datatype Step =
    | CreateKey(id: string, owner: string, grant: Grant, prefix: string, createdBy: string, expiresAt: int, now: int)
    | BeginRotate(op: nat, keyId: string, owner: string, prefix: string, createdBy: string, checkedAt: int, grace: nat, now: int)
    | CommitRotate(op: nat, freshId: string)
    | Edit(keyId: string, owner: string, permissions: seq<string>, teamIds: seq<string>, channelIds: seq<string>,
           expectedRevision: Option<nat>, now: int)
    | Revoke(keyId: string, owner: string, now: int)
    | Use(keyId: string, now: int)

  function Apply(s: System, step: Step): System {
    match step
    case CreateKey(id, owner, grant, prefix, createdBy, expiresAt, now) =>
      if id == "" || id in s.keys then s
      else s.(keys := s.keys[id := NewKey(id, owner, grant, prefix, createdBy, expiresAt, now)])
    case BeginRotate(op, keyId, owner, prefix, createdBy, checkedAt, grace, now) =>
      if OwnedBy(s.keys, keyId, owner) && PreflightPasses(s.keys[keyId], checkedAt)
      then s.(pending := s.pending[op := Preflight(keyId, owner, Prepared(s.keys[keyId], keyId, prefix, createdBy, now), now + grace, now)])
      else s
    case CommitRotate(op, freshId) =>
      if op in s.pending && freshId != "" && freshId !in s.keys then
        var p := s.pending[op];
        System(AfterRotate(s.keys, p.keyId, p.owner, p.prepared, freshId, p.graceUntil, p.now), s.pending - {op})
      else s
    case Edit(keyId, owner, permissions, teamIds, channelIds, expected, now) =>
      if EditError(s.keys, keyId, owner, expected).None?
      then s.(keys := s.keys[keyId := Edited(s.keys[keyId], permissions, teamIds, channelIds, now)]) else s
    case Revoke(keyId, owner, now) =>
      if RevokeError(s.keys, keyId, owner).None? then s.(keys := s.keys[keyId := RevokedKey(s.keys[keyId], now)]) else s
    case Use(keyId, now) => s.(keys := Touched(s.keys, keyId, now))
  }

  function Exec(s: System, steps: seq<Step>): System {
    if steps == [] then s else Apply(Exec(s, steps[..|steps| - 1]), steps[|steps| - 1])
  }

  const Empty: System := System(map[], map[])

  // ------------------------------------------------------------------ rotation chains

  /** A key is the first of its group or directly succeeds its predecessor on the same terms. */
  predicate LinkOk(keys: map<string, Key>, id: string)
    requires id in keys
  {
    var k := keys[id];
    && id != "" && k.version >= 1
    && (k.version == 1 ==> k.rotatedFrom == "" && k.group == id)
    && (k.version > 1 ==>
          && k.rotatedFrom in keys
          && var p := keys[k.rotatedFrom];
             p.group == k.group && p.version + 1 == k.version && p.expiresAt == k.expiresAt && p.owner == k.owner)
    && k.group in keys && keys[k.group].version == 1 && keys[k.group].expiresAt == k.expiresAt
    && (k.status != Revoked ==> k.revokedAt == 0)
  }

  /** Two keys of a group differ in version, and an active one is the newest. */
  predicate PairOk(keys: map<string, Key>, a: string, b: string)
    requires a in keys && b in keys
  {
    keys[a].group == keys[b].group ==>
      && (keys[a].version == keys[b].version ==> a == b)
      && (keys[a].status == Active ==> keys[b].version <= keys[a].version)
  }

  ghost predicate ChainInv(keys: map<string, Key>) {
    && (forall id {:trigger LinkOk(keys, id)} | id in keys :: LinkOk(keys, id))
    && (forall a, b {:trigger PairOk(keys, a, b)} | a in keys && b in keys :: PairOk(keys, a, b))
  }

  /** The columns that place a key in its chain. */
  predicate SamePlace(k: Key, m: Key) {
    && m.group == k.group && m.version == k.version && m.rotatedFrom == k.rotatedFrom
    && m.expiresAt == k.expiresAt && m.owner == k.owner
  }

  /** Rewriting one row without moving it in its chain or activating it. */
  lemma RowUpdateKeepsChain(keys: map<string, Key>, id: string, k: Key)
    requires ChainInv(keys) && id in keys && SamePlace(keys[id], k)
    requires k.status == Active ==> keys[id].status == Active
    requires k.status != Revoked ==> k.revokedAt == 0
    ensures ChainInv(keys[id := k])
  {
    var after := keys[id := k];
    forall i | i in after ensures LinkOk(after, i) {
      assert LinkOk(keys, i);
    }
    forall a, b | a in after && b in after ensures PairOk(after, a, b) {
      assert PairOk(keys, a, b);
    }
  }

  lemma RotateKeepsChain(keys: map<string, Key>, keyId: string, prepared: Key, freshId: string, graceUntil: int, now: int)
    requires ChainInv(keys) && keyId in keys && keys[keyId].status == Active && freshId != "" && freshId !in keys
    requires prepared.revokedAt == 0 && prepared.status == Active
    ensures ChainInv(keys[keyId := Retire(keys[keyId], graceUntil, now)][freshId := Successor(keys[keyId], keyId, prepared)])
  {
    var row := keys[keyId];
    var retired := keys[keyId := Retire(row, graceUntil, now)];
    var after := retired[freshId := Successor(row, keyId, prepared)];
    assert LinkOk(keys, keyId) && LinkOk(keys, row.group);
    RowUpdateKeepsChain(keys, keyId, Retire(row, graceUntil, now));
    forall i | i in after ensures LinkOk(after, i) {
      if i in keys { assert LinkOk(retired, i); }
    }
    forall a, b | a in after && b in after ensures PairOk(after, a, b) {
      if a in keys { assert PairOk(keys, keyId, a) && PairOk(keys, a, keyId); }
      if b in keys { assert PairOk(keys, keyId, b) && PairOk(keys, b, keyId); }
      if a in keys && b in keys { assert PairOk(retired, a, b); }
    }
  }

  ghost predicate Inv(s: System) {
    && ChainInv(s.keys)
    && forall op | op in s.pending :: s.pending[op].prepared.revokedAt == 0 && s.pending[op].prepared.status == Active
  }

  lemma CreateKeepsChain(keys: map<string, Key>, id: string, k: Key)
    requires ChainInv(keys) && id != "" && id !in keys
    requires k.group == id && k.version == 1 && k.rotatedFrom == "" && k.revokedAt == 0
    ensures ChainInv(keys[id := k])
  {
    var after := keys[id := k];
    forall i | i in after ensures LinkOk(after, i) {
      if i in keys { assert LinkOk(keys, i); }
    }
    forall a, b | a in after && b in after ensures PairOk(after, a, b) {
      if a in keys { assert LinkOk(keys, a); }
      if b in keys { assert LinkOk(keys, b); }
      if a in keys && b in keys { assert PairOk(keys, a, b); }
    }
  }

  lemma StepKeepsInv(s: System, step: Step)
    requires Inv(s)
    ensures Inv(Apply(s, step))
  {
    match step
    case CreateKey(id, owner, grant, prefix, createdBy, expiresAt, now) =>
      if id != "" && id !in s.keys {
        CreateKeepsChain(s.keys, id, NewKey(id, owner, grant, prefix, createdBy, expiresAt, now));
      }
    case BeginRotate(op, keyId, owner, prefix, createdBy, checkedAt, grace, now) =>
      if keyId in s.keys { assert LinkOk(s.keys, keyId); }
    case CommitRotate(op, freshId) =>
      if op in s.pending && freshId != "" && freshId !in s.keys {
        var p := s.pending[op];
        if RotateError(s.keys, p.keyId, p.owner, p.now).None? {
          RotateKeepsChain(s.keys, p.keyId, p.prepared, freshId, p.graceUntil, p.now);
        }
      }
    case Edit(keyId, owner, permissions, teamIds, channelIds, expected, now) =>
      if EditError(s.keys, keyId, owner, expected).None? {
        assert LinkOk(s.keys, keyId);
        RowUpdateKeepsChain(s.keys, keyId, Edited(s.keys[keyId], permissions, teamIds, channelIds, now));
      }
    case Revoke(keyId, owner, now) =>
      if RevokeError(s.keys, keyId, owner).None? {
        RowUpdateKeepsChain(s.keys, keyId, RevokedKey(s.keys[keyId], now));
      }
    case Use(keyId, now) =>
      if keyId in s.keys {
        assert LinkOk(s.keys, keyId);
        RowUpdateKeepsChain(s.keys, keyId, s.keys[keyId].(lastUsedAt := now));
      }
  }

  lemma {:induction false} ReachableInv(steps: seq<Step>)
    ensures Inv(Exec(Empty, steps))
  {
    if steps != [] {
      ReachableInv(steps[..|steps| - 1]);
      StepKeepsInv(Exec(Empty, steps[..|steps| - 1]), steps[|steps| - 1]);
    }
  }

  /** Walking back from a key meets every lower version of its group. */
  lemma {:induction false} Ancestor(keys: map<string, Key>, id: string, version: nat) returns (ancestor: string)
    requires ChainInv(keys) && id in keys && 1 <= version <= keys[id].version
    ensures ancestor in keys && keys[ancestor].group == keys[id].group && keys[ancestor].version == version
    ensures keys[ancestor].expiresAt == keys[id].expiresAt && keys[ancestor].owner == keys[id].owner
    decreases keys[id].version
  {
    assert LinkOk(keys, id);
    if version == keys[id].version {
      ancestor := id;
    } else {
      ancestor := Ancestor(keys, keys[id].rotatedFrom, version);
    }
  }

  function Members(keys: map<string, Key>, group: string): set<string> {
    set id | id in keys && keys[id].group == group
  }

  lemma {:induction false} NewestMember(keys: map<string, Key>, members: set<string>) returns (newest: string)
    requires members != {} && members <= keys.Keys
    ensures newest in members && forall id | id in members :: keys[id].version <= keys[newest].version
    decreases |members|
  {
    var first :| first in members;
    var rest := members - {first};
    newest := first;
    if rest != {} {
      var other := NewestMember(keys, rest);
      newest := if keys[first].version < keys[other].version then other else first;
    }
    forall id | id in members ensures keys[id].version <= keys[newest].version {
      assert id == first || id in rest;
    }
  }

  ghost predicate HasVersion(keys: map<string, Key>, group: string, version: nat) {
    exists id | id in keys :: keys[id].group == group && keys[id].version == version
  }

  /** `newest` heads the chain of its group: versions exactly 1..n, one expiry, no other active key. */
  ghost predicate HeadsChain(keys: map<string, Key>, group: string, newest: string) {
    && newest in keys && keys[newest].group == group
    && (forall v | 1 <= v <= keys[newest].version :: HasVersion(keys, group, v))
    && (forall id | id in Members(keys, group) ::
          && 1 <= keys[id].version <= keys[newest].version
          && keys[id].expiresAt == keys[newest].expiresAt
          && (keys[id].status == Active ==> id == newest)
          && (keys[id].version > 1 ==> keys[id].rotatedFrom in Members(keys, group)
                                       && keys[keys[id].rotatedFrom].version + 1 == keys[id].version))
    && (forall a, b | a in Members(keys, group) && b in Members(keys, group) && keys[a].version == keys[b].version :: a == b)
  }

  lemma ChainShape(keys: map<string, Key>, group: string) returns (newest: string)
    requires ChainInv(keys) && Members(keys, group) != {}
    ensures HeadsChain(keys, group, newest)
  {
    newest := NewestMember(keys, Members(keys, group));
    assert LinkOk(keys, newest);
    forall v | 1 <= v <= keys[newest].version ensures HasVersion(keys, group, v) {
      var id := Ancestor(keys, newest, v);
    }
    forall id | id in Members(keys, group)
      ensures 1 <= keys[id].version <= keys[newest].version && keys[id].expiresAt == keys[newest].expiresAt
      ensures keys[id].status == Active ==> id == newest
      ensures keys[id].version > 1 ==> keys[id].rotatedFrom in Members(keys, group)
                                       && keys[keys[id].rotatedFrom].version + 1 == keys[id].version
    {
      assert LinkOk(keys, id) && PairOk(keys, id, newest);
    }
    forall a, b | a in Members(keys, group) && b in Members(keys, group) && keys[a].version == keys[b].version
      ensures a == b
    {
      assert PairOk(keys, a, b);
    }
  }

  /** The rotation chain of every group in every reachable state. */
  lemma RotationChain(steps: seq<Step>, group: string) returns (newest: string)
    requires Members(Exec(Empty, steps).keys, group) != {}
    ensures HeadsChain(Exec(Empty, steps).keys, group, newest)
  {
    ReachableInv(steps);
    newest := ChainShape(Exec(Empty, steps).keys, group);
  }

  // ------------------------------------------------------------------ no lost edit

  /** The committed rotation does not depend on what the preflight snapshot said: any two snapshots give the same tables. */
  lemma SnapshotIrrelevant(keys: map<string, Key>, keyId: string, owner: string, snapshot: Key, other: Key, prefix: string,
                           createdBy: string, freshId: string, graceUntil: int, now: int)
    ensures AfterRotate(keys, keyId, owner, Prepared(snapshot, keyId, prefix, createdBy, now), freshId, graceUntil, now)
         == AfterRotate(keys, keyId, owner, Prepared(other, keyId, prefix, createdBy, now), freshId, graceUntil, now)
  {
    if RotateError(keys, keyId, owner, now).None? {
      assert Successor(keys[keyId], keyId, Prepared(snapshot, keyId, prefix, createdBy, now))
          == Successor(keys[keyId], keyId, Prepared(other, keyId, prefix, createdBy, now));
    }
  }

  /** An edit changes the grant of the key it names and of no other; no other step changes an existing grant. */
  lemma GrantChangesOnlyByEdit(s: System, step: Step, id: string)
    requires id in s.keys && !(step.Edit? && step.keyId == id)
    ensures id in Apply(s, step).keys && Apply(s, step).keys[id].grant == s.keys[id].grant
  {
  }

  predicate EditsKey(steps: seq<Step>, keyId: string) {
    exists i | 0 <= i < |steps| :: steps[i].Edit? && steps[i].keyId == keyId
  }

  lemma {:induction false} GrantStable(s: System, steps: seq<Step>, id: string)
    requires id in s.keys && !EditsKey(steps, id)
    ensures id in Exec(s, steps).keys && Exec(s, steps).keys[id].grant == s.keys[id].grant
  {
    if steps != [] {
      var before, last := steps[..|steps| - 1], steps[|steps| - 1];
      assert !EditsKey(before, id) by {
        assert forall i | 0 <= i < |before| :: before[i] == steps[i];
      }
      GrantStable(s, before, id);
      assert !(last.Edit? && last.keyId == id);
      GrantChangesOnlyByEdit(Exec(s, before), last, id);
    }
  }

  /**
   * No lost edit: begin a rotation, let anything happen, commit an edit of the key, let anything but
   * another edit of it happen, commit the rotation. The replacement carries the edited permissions and
   * constraints although the snapshot was read before the edit.
   */
  lemma EditBeforeCommitIsInherited(s: System, op: nat, edit: Step, between: seq<Step>, freshId: string)
    requires Inv(s) && op in s.pending && edit.Edit? && edit.keyId == s.pending[op].keyId
    requires EditError(s.keys, edit.keyId, edit.owner, edit.expectedRevision).None?
    requires !EditsKey(between, edit.keyId)
    requires var t := Exec(Apply(s, edit), between);
      && op in t.pending && t.pending[op] == s.pending[op]
      && freshId != "" && freshId !in t.keys
      && RotateError(t.keys, edit.keyId, s.pending[op].owner, s.pending[op].now).None?
    ensures var t := Apply(Exec(Apply(s, edit), between), CommitRotate(op, freshId));
            && freshId in t.keys && edit.keyId in t.keys
            && t.keys[freshId].grant.permissions == edit.permissions
            && t.keys[freshId].grant.teamIds == edit.teamIds && t.keys[freshId].grant.channelIds == edit.channelIds
            && t.keys[freshId].rotatedFrom == edit.keyId && t.keys[edit.keyId].status == Retiring
  {
    GrantStable(Apply(s, edit), between, edit.keyId);
  }

  // ------------------------------------------------------------------ no revival

  lemma UnusableStep(s: System, step: Step, id: string, at: int, later: int)
    requires id in s.keys && !UsableAt(s.keys[id], at) && at <= later
    ensures id in Apply(s, step).keys && !UsableAt(Apply(s, step).keys[id], later)
  {
  }

  /** Once a key is unusable it stays unusable at every later time under every later step. */
  lemma {:induction false} UnusableForever(s: System, steps: seq<Step>, id: string, at: int, later: int)
    requires id in s.keys && !UsableAt(s.keys[id], at) && at <= later
    ensures id in Exec(s, steps).keys && !UsableAt(Exec(s, steps).keys[id], later)
  {
    if steps != [] {
      UnusableForever(s, steps[..|steps| - 1], id, at, at);
      UnusableStep(Exec(s, steps[..|steps| - 1]), steps[|steps| - 1], id, at, later);
    }
  }

  /** No member of a group outlives the expiry its first key was created with. */
  lemma GroupExpires(steps: seq<Step>, id: string, now: int)
    requires id in Exec(Empty, steps).keys && UsableAt(Exec(Empty, steps).keys[id], now)
    ensures var keys := Exec(Empty, steps).keys;
            keys[id].group in keys && (keys[keys[id].group].expiresAt == 0 || now < keys[keys[id].group].expiresAt)
  {
    ReachableInv(steps);
    assert LinkOk(Exec(Empty, steps).keys, id);
  }
}
