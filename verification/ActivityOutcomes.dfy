/** What a page of the activity inbox holds, said in plain columns of the events. */
module ActivityOutcomes {
  import opened Wrappers
  import opened Ordering
  import opened ActivityInbox
  import opened ActivityPages

  /** The event comes after the given place in the listing, newest first; without a place every event does. */
  predicate ComesAfter(place: Option<Cursor>, e: Event) {
    || place == None || e.createAt < place.value.createAt
    || (e.createAt == place.value.createAt && TextLess(e.id, place.value.id))
  }

  /** The range of a page: after its cursor, and up to the next one if there is one. */
  predicate InRange(cursor: Option<Cursor>, next: Option<Cursor>, e: Event) {
    ComesAfter(cursor, e) && (next == None || !ComesAfter(next, e))
  }

  predicate PresentThroughout(tables: seq<set<Event>>, e: Event) {
    forall k | 0 <= k < |tables| :: e in tables[k]
  }

  predicate IsPlain(e: Event) {
    e.subject == Plain
  }

  /** The event reviews the request, whose id is not blank. */
  predicate Reviews(e: Event, requestId: string) {
    e.subject == ReviewOf(requestId) && requestId != ""
  }

  /** A plain event that is there for the whole call and in the range of the page is on the page. */
  lemma PlainIsReturned(tables: seq<set<Event>>, decisions: map<string, Answer>, cursor: Option<Cursor>, limit: nat, page: Page, e: Event)
    requires PageOk(tables, decisions, cursor, limit, page)
    requires IsPlain(e) && PresentThroughout(tables, e) && InRange(cursor, page.next, e)
    ensures e in page.events
  {
    assert Throughout(tables, e) && Below(cursor, e);
  }

  /** A review event in the range of the page was decided by the call, and is on the page exactly if the answer was yes. */
  lemma ReviewIsReturnedExactlyIfAllowed(tables: seq<set<Event>>, decisions: map<string, Answer>, cursor: Option<Cursor>, limit: nat,
                                         page: Page, e: Event, requestId: string)
    requires PageOk(tables, decisions, cursor, limit, page)
    requires Reviews(e, requestId) && PresentThroughout(tables, e) && InRange(cursor, page.next, e)
    ensures requestId in decisions && (e in page.events <==> decisions[requestId] == Allowed)
  {
    assert Throughout(tables, e) && Below(cursor, e);
  }

  /** If the authorizer keeps its mind, its own answer decides. */
  lemma AuthorizerDecides(tables: seq<set<Event>>, canReview: (string, nat) -> Answer, decisions: map<string, Answer>,
                          cursor: Option<Cursor>, limit: nat, page: Page, e: Event, requestId: string)
    requires PageOk(tables, decisions, cursor, limit, page) && CacheOk(canReview, decisions)
    requires Reviews(e, requestId) && PresentThroughout(tables, e) && InRange(cursor, page.next, e)
    requires forall n: nat :: canReview(requestId, n) == canReview(requestId, 0)
    ensures e in page.events <==> canReview(requestId, 0) == Allowed
  {
    ReviewIsReturnedExactlyIfAllowed(tables, decisions, cursor, limit, page, e, requestId);
    var n: nat :| decisions[requestId] == canReview(requestId, n);
  }

  /**
   * Whatever is on a page is an event of the table in the range of the page, plain or allowed, never a review of a blank
   * request; the page is in order, no longer than asked for, and ends where the next one starts.
   */
  lemma PageHolds(tables: seq<set<Event>>, decisions: map<string, Answer>, cursor: Option<Cursor>, limit: nat, page: Page, i: nat, j: nat)
    requires PageOk(tables, decisions, cursor, limit, page) && i < |page.events|
    ensures var e := page.events[i];
            && (exists k :: 0 <= k < |tables| && e in tables[k])
            && InRange(cursor, page.next, e)
            && (IsPlain(e) || (Reviews(e, e.subject.requestId) && e.subject.requestId in decisions
                               && decisions[e.subject.requestId] == Allowed))
    ensures i < j < |page.events| ==> ComesAfter(Some(Cursor(page.events[i].createAt, page.events[i].id)), page.events[j])
    ensures |page.events| <= limit
    ensures page.next.Some? ==>
              |page.events| == limit && page.next == Some(Cursor(page.events[limit - 1].createAt, page.events[limit - 1].id))
  {
    var e := page.events[i];
    assert e in page.events && e in AllRows(tables);
    LastIsOldest(page, e);
    assert i < j < |page.events| ==> Newest(page.events[i], page.events[j]);
  }

  /** A next cursor is handed out only if some event that may be shown was left. */
  lemma NextMeansMore(tables: seq<set<Event>>, decisions: map<string, Answer>, cursor: Option<Cursor>, limit: nat, page: Page)
    returns (e: Event)
    requires PageOk(tables, decisions, cursor, limit, page) && page.next.Some?
    ensures (exists k :: 0 <= k < |tables| && e in tables[k]) && ComesAfter(page.next, e) && e !in page.events
    ensures IsPlain(e) || (Reviews(e, e.subject.requestId) && e.subject.requestId in decisions && decisions[e.subject.requestId] == Allowed)
  {
    e :| e in AllRows(tables) && Below(page.next, e) && Shown(decisions, e);
    if e in page.events { LastIsOldest(page, e); }
  }

  lemma PageSize(requested: int)
    ensures PageLimit(requested) == if requested <= 0 then 50 else if requested > 100 then 100 else requested
  {
  }

  // ------------------------------------------------------------------ all pages

  /** A plain event that is there throughout is returned by following the cursors. */
  lemma PlainIsReturnedByCursors(calls: seq<Call>, e: Event)
    requires Chain(calls) && calls != [] && calls[0].cursor.None? && calls[|calls| - 1].page.next.None?
    requires IsPlain(e) && forall i | 0 <= i < |calls| :: PresentThroughout(calls[i].tables, e)
    ensures e in Returned(calls)
  {
    forall i | 0 <= i < |calls| ensures Throughout(calls[i].tables, e) {
      assert PresentThroughout(calls[i].tables, e);
    }
    FollowingCursors(calls);
    assert VisibleThroughout(calls, e);
  }

  /** So is a review event that no call refused. */
  lemma AllowedReviewIsReturnedByCursors(calls: seq<Call>, e: Event, requestId: string)
    requires Chain(calls) && calls != [] && calls[0].cursor.None? && calls[|calls| - 1].page.next.None?
    requires Reviews(e, requestId)
    requires forall i | 0 <= i < |calls| ::
               PresentThroughout(calls[i].tables, e) && (requestId in calls[i].decisions ==> calls[i].decisions[requestId] == Allowed)
    ensures e in Returned(calls)
  {
    forall i | 0 <= i < |calls|
      ensures Throughout(calls[i].tables, e) && (Asked(calls[i].decisions, e) ==> Shown(calls[i].decisions, e))
    {
      assert PresentThroughout(calls[i].tables, e);
    }
    FollowingCursors(calls);
    assert VisibleThroughout(calls, e);
  }

  /** And whatever is returned is plain, or a review that the call which returned it was allowed. */
  lemma {:induction false} ReturnedMayBeShown(calls: seq<Call>, e: Event) returns (i: nat)
    requires Chain(calls) && e in Returned(calls)
    ensures i < |calls| && e in calls[i].page.events && (exists k :: 0 <= k < |calls[i].tables| && e in calls[i].tables[k])
    ensures IsPlain(e) || (Reviews(e, e.subject.requestId) && e.subject.requestId in calls[i].decisions
                           && calls[i].decisions[e.subject.requestId] == Allowed)
  {
    var last := |calls| - 1;
    if e in calls[last].page.events {
      i := last;
      var k :| 0 <= k < |calls[last].page.events| && calls[last].page.events[k] == e;
      PageHolds(calls[last].tables, calls[last].decisions, calls[last].cursor, calls[last].limit, calls[last].page, k, 0);
    } else {
      assert Chain(calls[..last]);
      i := ReturnedMayBeShown(calls[..last], e);
    }
  }

  /** Nothing is returned twice, and everything from the newest to the oldest. */
  lemma ReturnedInOrder(calls: seq<Call>, i: nat, j: nat)
    requires Chain(calls) && calls != [] && calls[0].cursor.None? && calls[|calls| - 1].page.next.None?
    requires i < j < |Returned(calls)|
    ensures ComesAfter(Some(Cursor(Returned(calls)[i].createAt, Returned(calls)[i].id)), Returned(calls)[j])
    ensures Returned(calls)[i] != Returned(calls)[j]
  {
    FollowingCursors(calls);
    assert Newest(Returned(calls)[i], Returned(calls)[j]);
  }
}
