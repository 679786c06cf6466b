/** The recovery worker: one pass over the approved requests whose execution is still due. */
module Recovery {
  import opened Wrappers
  import opened Ordering
  import opened Counting
  import opened Approval
  import opened ApprovalRuns

  const SCAN_LIMIT: nat := 100
  const RETRY_AFTER_MS: int := 30_000

  /**
   * One request of a pass; on an action it does not know the executor does nothing, without an error. `refused`
   * stands for a lost permission, a bad payload or a failing insert.
   */
  function Attempted(t: Tables, id: string, refused: bool, freshPost: string, now: int): (after: Tables)
    requires id in t.requests
    ensures after.requests.Keys == t.requests.Keys
  {
    if !KnownAction(t.requests[id].actionType) then t
    else if refused then AfterFailure(t, id, RETRY_AFTER_MS, now)
    else
      var posted := AfterPost(t, id, freshPost);
      if MarkError(posted, id).Some? then AfterFailure(posted, id, RETRY_AFTER_MS, now) else AfterMark(posted, id, now)
  }

  function AfterPass(t: Tables, ids: seq<string>, refused: set<string>, postOf: string -> string, now: int): (after: Tables)
    requires forall i | 0 <= i < |ids| :: ids[i] in t.requests
    ensures after.requests.Keys == t.requests.Keys
  {
    if ids == [] then t
    else
      var last := |ids| - 1;
      Attempted(AfterPass(t, ids[..last], refused, postOf, now), ids[last], ids[last] in refused, postOf(ids[last]), now)
  }

  method ExecuteApproved(store: ApprovalStore, id: string, refused: bool, freshPost: string, now: int) returns (failed: bool)
    requires id in store.requests
    modifies store
    ensures var t := old(store.View());
            var after := if failed then AfterFailure(store.View(), id, RETRY_AFTER_MS, now) else store.View();
            after == Attempted(t, id, refused, freshPost, now)
    ensures store.requests.Keys == old(store.requests.Keys)
  {
    if !KnownAction(store.requests[id].actionType) {
      return false;
    }
    if refused {
      return true;
    }
    if id !in store.posts {
      store.posts := store.posts[id := freshPost];
    }
    var marked := store.MarkExecuted(id, now);
    return marked.Err?;
  }

  /** The loop body of a pass: execute, and record a failure. */
  method AttemptRequest(store: ApprovalStore, id: string, refused: bool, freshPost: string, now: int)
    requires id in store.requests
    modifies store
    ensures store.View() == Attempted(old(store.View()), id, refused, freshPost, now)
  {
    var failed := ExecuteApproved(store, id, refused, freshPost, now);
    if failed {
      store.RecordExecutionFailure(id, RETRY_AFTER_MS, now);
    }
  }

  lemma PassNext(t: Tables, ids: seq<string>, i: nat, refused: set<string>, postOf: string -> string, now: int)
    requires (forall k | 0 <= k < |ids| :: ids[k] in t.requests) && i < |ids|
    ensures AfterPass(t, ids[..i + 1], refused, postOf, now)
         == Attempted(AfterPass(t, ids[..i], refused, postOf, now), ids[i], ids[i] in refused, postOf(ids[i]), now)
  {
    assert ids[..i + 1][..i] == ids[..i];
  }

  method RunOnce(store: ApprovalStore, refused: set<string>, postOf: string -> string, now: int) returns (ids: seq<string>)
    modifies store
    ensures IsScan(old(store.View()), ids, now, SCAN_LIMIT)
    ensures forall i | 0 <= i < |ids| :: ids[i] in old(store.requests)
    ensures store.View() == AfterPass(old(store.View()), ids, refused, postOf, now)
  {
    ghost var t := store.View();
    ids := store.PendingExecutions(now, 100);
    assert forall i | 0 <= i < |ids| :: ids[i] in EligibleRows(t, now) && ids[i] in t.requests;
    AttemptAll(store, ids, refused, postOf, now);
  }

  /** The loop over the scanned requests. */
  method AttemptAll(store: ApprovalStore, ids: seq<string>, refused: set<string>, postOf: string -> string, now: int)
    requires forall i | 0 <= i < |ids| :: ids[i] in store.requests
    modifies store
    ensures forall i | 0 <= i < |ids| :: ids[i] in old(store.requests)
    ensures store.View() == AfterPass(old(store.View()), ids, refused, postOf, now)
  {
    ghost var t := store.View();
    for i := 0 to |ids|
      invariant store.View() == AfterPass(t, ids[..i], refused, postOf, now)
    {
      PassNext(t, ids, i, refused, postOf, now);
      assert ids[i] in store.View().requests;
      AttemptRequest(store, ids[i], ids[i] in refused, postOf(ids[i]), now);
    }
    assert ids[..|ids|] == ids;
  }

  // ------------------------------------------------------------------ what one pass does to each request

  /** The request, its outbox row and its post are the same in both tables. */
  predicate SameRequest(t: Tables, u: Tables, id: string) {
    && (id in u.requests <==> id in t.requests) && (id in t.requests ==> u.requests[id] == t.requests[id])
    && (id in u.outbox <==> id in t.outbox) && (id in t.outbox ==> u.outbox[id] == t.outbox[id])
    && (id in u.posts <==> id in t.posts) && (id in t.posts ==> u.posts[id] == t.posts[id])
  }

  lemma FailureTouchesOnly(t: Tables, id: string, now: int, other: string)
    requires other != id
    ensures SameRequest(t, AfterFailure(t, id, RETRY_AFTER_MS, now), other)
  {
  }

  lemma MarkTouchesOnly(t: Tables, id: string, now: int, other: string)
    requires other != id
    ensures SameRequest(t, AfterMark(t, id, now), other)
  {
  }

  lemma AttemptTouchesOnly(t: Tables, id: string, refused: bool, freshPost: string, now: int, other: string)
    requires id in t.requests && other != id
    ensures SameRequest(t, Attempted(t, id, refused, freshPost, now), other)
  {
    var posted := AfterPost(t, id, freshPost);
    assert SameRequest(t, posted, other);
    FailureTouchesOnly(t, id, now, other);
    FailureTouchesOnly(posted, id, now, other);
    MarkTouchesOnly(posted, id, now, other);
  }

  lemma {:induction false} PassTouchesOnly(t: Tables, ids: seq<string>, refused: set<string>, postOf: string -> string,
                                           now: int, other: string)
    requires (forall i | 0 <= i < |ids| :: ids[i] in t.requests) && other !in ids
    ensures SameRequest(t, AfterPass(t, ids, refused, postOf, now), other)
  {
    if ids != [] {
      var last := |ids| - 1;
      PassTouchesOnly(t, ids[..last], refused, postOf, now, other);
      AttemptTouchesOnly(AfterPass(t, ids[..last], refused, postOf, now), ids[last], ids[last] in refused, postOf(ids[last]), now, other);
    }
  }

  /** How a pass leaves a scanned request: executed with its post, put off by 30 seconds, or untouched if its action is unknown. */
  predicate Settled(t: Tables, u: Tables, id: string, refused: bool, now: int)
    requires id in t.requests
  {
    if !KnownAction(t.requests[id].actionType) then SameRequest(t, u, id)
    else if refused then
      && id in t.outbox && id in u.requests && u.requests[id].status == Approved
      && id in u.outbox && u.outbox[id].status == Failed && u.outbox[id].attempts == t.outbox[id].attempts + 1
      && u.outbox[id].availableAt == now + RETRY_AFTER_MS
    else
      && id in u.requests && u.requests[id].status == Executed && id in u.posts
      && id in u.outbox && u.outbox[id].status == Succeeded
  }

  /**
   * One attempt in plain columns: an action other than the two protected ones is left alone; a refused or unclosable
   * request is put off by 30 seconds; any other is executed, with one post.
   */
  lemma AttemptOutcome(t: Tables, id: string, refused: bool, freshPost: string, now: int)
    requires id in t.requests
    ensures var r, t' := t.requests[id], Attempted(t, id, refused, freshPost, now);
            var known := r.actionType == "mcp.create_post" || r.actionType == "mcp.reply_to_thread";
            var closes := known && !refused && (r.status == Approved || r.status == Executed);
            var putOff := known && !closes && id in t.outbox && t.outbox[id].status != Succeeded;
            && (!known ==> t' == t)
            && (closes ==> id in t'.requests && t'.requests[id].status == Executed && id in t'.posts
                           && t'.posts[id] == (if id in t.posts then t.posts[id] else freshPost)
                           && (id in t.outbox ==> id in t'.outbox && t'.outbox[id].status == Succeeded))
            && (putOff ==> id in t'.outbox && t'.outbox[id].status == Failed && t'.outbox[id].availableAt == now + 30_000
                           && t'.outbox[id].attempts == t.outbox[id].attempts + 1 && t'.requests == t.requests)
            && (known && refused ==> t'.posts == t.posts)
  {
  }

  lemma AttemptSettles(t: Tables, u: Tables, id: string, refused: bool, freshPost: string, now: int, scanned: int)
    requires Eligible(t, id, scanned) && SameRequest(t, u, id)
    ensures Settled(t, Attempted(u, id, refused, freshPost, now), id, refused, now)
  {
  }

  lemma {:induction false} PassSettles(t: Tables, ids: seq<string>, refused: set<string>, postOf: string -> string,
                                       now: int, id: string)
    requires forall i | 0 <= i < |ids| :: ids[i] in t.requests && Eligible(t, ids[i], now)
    requires forall i, j | 0 <= i < j < |ids| :: ids[i] != ids[j]
    requires id in ids
    ensures Settled(t, AfterPass(t, ids, refused, postOf, now), id, id in refused, now)
  {
    var last := |ids| - 1;
    var before := AfterPass(t, ids[..last], refused, postOf, now);
    if id == ids[last] {
      PassTouchesOnly(t, ids[..last], refused, postOf, now, id);
      AttemptSettles(t, before, id, id in refused, postOf(id), now, now);
    } else {
      assert id in ids[..last];
      PassSettles(t, ids[..last], refused, postOf, now, id);
      AttemptTouchesOnly(before, ids[last], ids[last] in refused, postOf(ids[last]), now, id);
    }
  }

  /** A scanned request is due again at once exactly when the executor does not know its action. */
  lemma DueAgainExactlyIfUnknown(t: Tables, ids: seq<string>, refused: set<string>, postOf: string -> string, now: int,
                                 id: string)
    requires IsScan(t, ids, now, SCAN_LIMIT) && id in ids
    ensures forall i | 0 <= i < |ids| :: ids[i] in t.requests
    ensures Eligible(AfterPass(t, ids, refused, postOf, now), id, now) <==> !KnownAction(t.requests[id].actionType)
  {
    assert forall i | 0 <= i < |ids| :: ids[i] in EligibleRows(t, now);
    PassSettles(t, ids, refused, postOf, now, id);
  }

  // ------------------------------------------------------------------ what a pass leaves due

  lemma AttemptKeepsActions(t: Tables, id: string, refused: bool, freshPost: string, now: int)
    requires id in t.requests && AllKnown(t)
    ensures AllKnown(Attempted(t, id, refused, freshPost, now))
  {
  }

  lemma {:induction false} PassKeepsActions(t: Tables, ids: seq<string>, refused: set<string>,
                                            postOf: string -> string, now: int)
    requires (forall i | 0 <= i < |ids| :: ids[i] in t.requests) && AllKnown(t)
    ensures AllKnown(AfterPass(t, ids, refused, postOf, now))
  {
    if ids != [] {
      var last := |ids| - 1;
      PassKeepsActions(t, ids[..last], refused, postOf, now);
      AttemptKeepsActions(AfterPass(t, ids[..last], refused, postOf, now), ids[last], ids[last] in refused, postOf(ids[last]), now);
    }
  }

  /** When every action is known, a pass takes its scan off the queue of due requests and adds nothing to it. */
  lemma ScanIsTaken(t: Tables, ids: seq<string>, refused: set<string>, postOf: string -> string, now: int)
    requires IsScan(t, ids, now, SCAN_LIMIT) && AllKnown(t)
    ensures forall i | 0 <= i < |ids| :: ids[i] in t.requests
    ensures |ids| == Min(100, |EligibleRows(t, now)|)
    ensures EligibleRows(AfterPass(t, ids, refused, postOf, now), now) == EligibleRows(t, now) - Elements(ids)
    ensures |EligibleRows(AfterPass(t, ids, refused, postOf, now), now)| == |EligibleRows(t, now)| - |ids|
  {
    assert forall i | 0 <= i < |ids| :: ids[i] in EligibleRows(t, now);
    var after := AfterPass(t, ids, refused, postOf, now);
    forall id ensures id in EligibleRows(after, now) <==> id in EligibleRows(t, now) && id !in ids {
      if id in ids {
        DueAgainExactlyIfUnknown(t, ids, refused, postOf, now, id);
      } else {
        PassTouchesOnly(t, ids, refused, postOf, now, id);
      }
    }
    DistinctElements(ids);
    assert EligibleRows(t, now) == EligibleRows(after, now) + Elements(ids);
  }
}
