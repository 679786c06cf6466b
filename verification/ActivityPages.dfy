/** Following `NextCursor` from page to page, and what one page is on an unchanging table. */
module ActivityPages {
  import opened Wrappers
  import opened Ordering
  import opened ActivityInbox

  /** One successful call of the list handler. */
  datatype Call = Call(tables: seq<set<Event>>, decisions: map<string, Answer>, cursor: Option<Cursor>, limit: nat, page: Page)

  /** Consecutive calls that hand each cursor to the next call; rows may change between and during calls. */
  ghost predicate Chain(calls: seq<Call>) {
    && (forall i | 0 <= i < |calls| :: PageOk(calls[i].tables, calls[i].decisions, calls[i].cursor, calls[i].limit, calls[i].page))
    && (forall i | 0 <= i < |calls| - 1 :: calls[i].page.next.Some? && calls[i + 1].cursor == calls[i].page.next)
  }

  function Returned(calls: seq<Call>): seq<Event> {
    if calls == [] then [] else Returned(calls[..|calls| - 1]) + calls[|calls| - 1].page.events
  }

  /** Present in every state any of the calls read, and never refused by a review decision. */
  ghost predicate VisibleThroughout(calls: seq<Call>, e: Event) {
    forall i | 0 <= i < |calls| :: Throughout(calls[i].tables, e) && (Asked(calls[i].decisions, e) ==> Shown(calls[i].decisions, e))
  }

  lemma LastIsOldest(page: Page, e: Event)
    requires Ascending(Newest, page.events) && e in page.events
    requires page.next.Some? ==> page.events != [] && page.next.value == KeyOf(page.events[|page.events| - 1])
    ensures page.next.Some? ==> !Below(page.next, e)
  {
    var k :| 0 <= k < |page.events| && page.events[k] == e;
    NotBelowLater(page.events, k, |page.events| - 1);
  }

  /** Whatever was returned so far lies at or above the next cursor. */
  lemma {:induction false} ReturnedAboveCursor(calls: seq<Call>, e: Event)
    requires Chain(calls) && e in Returned(calls) && calls[|calls| - 1].page.next.Some?
    ensures !Below(calls[|calls| - 1].page.next, e)
    decreases |calls|
  {
    var last := |calls| - 1;
    if e in calls[last].page.events {
      LastIsOldest(calls[last].page, e);
    } else {
      var before := calls[..last];
      assert Chain(before);
      ReturnedAboveCursor(before, e);
      var page := calls[last].page;
      assert page.events[|page.events| - 1] in page.events;
      if Below(page.next, e) {
        DeeperRow(calls[last].cursor, page.events[|page.events| - 1]);
      }
    }
  }

  lemma {:induction false} ReturnedDescends(calls: seq<Call>)
    requires Chain(calls)
    ensures Ascending(Newest, Returned(calls))
  {
    if calls != [] {
      var last := |calls| - 1;
      var before, page := calls[..last], calls[last].page;
      assert Chain(before);
      ReturnedDescends(before);
      forall i, j | 0 <= i < |Returned(before)| && 0 <= j < |page.events|
        ensures NewerThan(Returned(before)[i], page.events[j])
      {
        assert Returned(before)[i] in Returned(before) && page.events[j] in page.events;
        assert before[last - 1].page.next == calls[last].cursor;
        ReturnedAboveCursor(before, Returned(before)[i]);
        BelowIsOlder(calls[last].cursor.value, Returned(before)[i], page.events[j]);
      }
    }
  }

  lemma {:induction false} ChainReturns(calls: seq<Call>, e: Event)
    requires Chain(calls) && calls != [] && VisibleThroughout(calls, e) && Below(calls[0].cursor, e)
    ensures e in Returned(calls) || (calls[|calls| - 1].page.next.Some? && Below(calls[|calls| - 1].page.next, e))
    decreases |calls|
  {
    var last := |calls| - 1;
    var before := calls[..last];
    if last > 0 {
      assert Chain(before) && before[0] == calls[0] && before[last - 1] == calls[last - 1];
      assert VisibleThroughout(before, e);
      ChainReturns(before, e);
    }
    if e !in Returned(before) {
      assert Below(calls[last].cursor, e);
    }
  }

  /**
   * Reading all pages from the first, with rows inserted, removed and re-decided in between: the result is
   * strictly descending, so nothing is returned twice, and holds every event that stayed visible.
   */
  lemma FollowingCursors(calls: seq<Call>)
    requires Chain(calls) && calls != [] && calls[0].cursor.None? && calls[|calls| - 1].page.next.None?
    ensures Ascending(Newest, Returned(calls))
    ensures forall i, j | 0 <= i < j < |Returned(calls)| :: Returned(calls)[i] != Returned(calls)[j]
    ensures forall e | VisibleThroughout(calls, e) :: e in Returned(calls)
  {
    ReturnedDescends(calls);
    forall i, j | 0 <= i < j < |Returned(calls)| ensures Returned(calls)[i] != Returned(calls)[j] {
      assert Newest(Returned(calls)[i], Returned(calls)[j]);
      TextLessTotal(Returned(calls)[i].id, Returned(calls)[i].id);
    }
    forall e | VisibleThroughout(calls, e) ensures e in Returned(calls) {
      ChainReturns(calls, e);
    }
  }

  // ------------------------------------------------------------------ one page of an unchanging table

  /** Filter: the rows below the cursor that may be shown. */
  function Matching(table: set<Event>, decisions: map<string, Answer>, cursor: Option<Cursor>): set<Event> {
    set e | e in table && Below(cursor, e) && Shown(decisions, e)
  }

  /** An ascending part of a set that precedes all the rest is the front of its listing. */
  lemma FrontOfListing<T(!new)>(less: (T, T) -> bool, s: set<T>, front: seq<T>)
    requires StrictTotalOn(less, s) && Ascending(less, front) && Elements(front) <= s
    requires forall i, x | 0 <= i < |front| && x in s && x !in front :: less(front[i], x)
    ensures |front| <= |s| && Sorted(less, s)[..|front|] == front
    ensures |front| < |s| <==> exists x :: x in s && x !in front
  {
    var rest := s - Elements(front);
    TotalOnSubset(less, s, rest);
    var l := front + Sorted(less, rest);
    forall i, j | 0 <= i < j < |l| ensures less(l[i], l[j]) {
      if i < |front| <= j {
        assert l[j] in Elements(Sorted(less, rest));
      }
    }
    assert Elements(l) == s by {
      assert Elements(Sorted(less, rest)) == rest;
      forall x | x in s ensures x in l {
        assert x in front || x in Elements(Sorted(less, rest));
      }
      forall x | x in l ensures x in s {
        assert x in Elements(front) || x in Elements(Sorted(less, rest));
      }
    }
    ListingIsSorted(less, l, s);
    ListingLength(less, l, s);
    if |front| < |s| {
      var x := l[|front|];
      assert x == Sorted(less, rest)[0] && x in Elements(Sorted(less, rest));
    }
    if x :| x in s && x !in front {
      assert x in rest && |Sorted(less, rest)| > 0;
    }
  }

  /** On a table that does not change, a page is: filter, sort, cut; and a cursor is returned exactly when rows are left. */
  lemma PageIsFilterSortCut(table: set<Event>, decisions: map<string, Answer>, cursor: Option<Cursor>, limit: nat,
                            page: Page)
    requires PageOk([table], decisions, cursor, limit, page) && IdsUnique(table)
    ensures StrictTotalOn(Newest, Matching(table, decisions, cursor))
    ensures page.events == Limited(Sorted(Newest, Matching(table, decisions, cursor)), limit)
    ensures page.next.Some? <==> |Matching(table, decisions, cursor)| > limit
  {
    var rows := Matching(table, decisions, cursor);
    NewestTotal(rows);
    assert forall e | e in AllRows([table]) :: e in table;
    forall e | e in Elements(page.events) ensures e in rows {
      assert e in page.events;
    }
    forall i, e | 0 <= i < |page.events| && e in rows && e !in page.events ensures NewerThan(page.events[i], e) {
      assert Throughout([table], e);
      assert Below(page.next, e) && page.events[i] in page.events;
      LastIsOldest(page, page.events[i]);
      BelowIsOlder(page.next.value, page.events[i], e);
    }
    FrontOfListing(Newest, rows, page.events);
    if page.next.Some? {
      var e :| e in AllRows([table]) && Below(page.next, e) && Shown(decisions, e);
      DeeperRow(cursor, page.events[limit - 1]);
      assert e in rows;
      if e in page.events { LastIsOldest(page, e); }
    } else {
      forall e | e in rows ensures e in page.events {
        assert Throughout([table], e);
      }
    }
  }
}
