/** Keyset paging of the activity inbox with a review filter that runs after the query. */
module ActivityInbox {
  import opened Wrappers
  import opened Ordering
  import opened Counting

  const DEFAULT_PAGE_SIZE: nat := 50
  const MAX_PAGE_SIZE: nat := 100

  /** What an approval_review event refers to; the id is already trimmed. */
  datatype Subject = Plain | ReviewOf(requestId: string)

  /** The columns of an event that never change; read and snooze marks only decide whether a query sees it. */
  datatype Event = Event(id: string, createAt: int, subject: Subject)

  datatype Cursor = Cursor(createAt: int, id: string)

  datatype Answer = Allowed | Denied | Failed

  datatype Page = Page(events: seq<Event>, next: Option<Cursor>)

  datatype Error = ReviewFailed

  /** `ORDER BY create_at DESC, id DESC`. */
  predicate NewerThan(a: Event, b: Event) {
    b.createAt < a.createAt || (b.createAt == a.createAt && TextLess(b.id, a.id))
  }

  const Newest: (Event, Event) -> bool := (a, b) => NewerThan(a, b)

  function KeyOf(e: Event): Cursor {
    Cursor(e.createAt, e.id)
  }

  /** `(create_at, id) < cursor`; no cursor admits every row. */
  predicate Below(cursor: Option<Cursor>, e: Event) {
    cursor.Some? ==>
      e.createAt < cursor.value.createAt || (e.createAt == cursor.value.createAt && TextLess(e.id, cursor.value.id))
  }

  function BelowRows(table: set<Event>, cursor: Option<Cursor>): set<Event> {
    set e | e in table && Below(cursor, e)
  }

  /** The id is the primary key. */
  predicate IdsUnique(rows: set<Event>) {
    forall a, b | a in rows && b in rows && a.id == b.id :: a == b
  }

  function AllRows(tables: seq<set<Event>>): set<Event> {
    set k, e | 0 <= k < |tables| && e in tables[k] :: e
  }

  lemma NewestTotal(rows: set<Event>)
    requires IdsUnique(rows)
    ensures StrictTotalOn(Newest, rows)
  {
    forall a, b | a in rows && b in rows && a != b ensures NewerThan(a, b) || NewerThan(b, a) {
      TextLessTotal(a.id, b.id);
    }
    forall a | a in rows ensures !NewerThan(a, a) {
      TextLessTotal(a.id, a.id);
    }
    forall a, b, c | a in rows && b in rows && c in rows && NewerThan(a, b) && NewerThan(b, c) ensures NewerThan(a, c) {
      NewerTransitive(a, b, c);
    }
  }

  lemma NewerTransitive(a: Event, b: Event, c: Event)
    requires NewerThan(a, b) && NewerThan(b, c)
    ensures NewerThan(a, c)
  {
    if a.createAt == b.createAt == c.createAt {
      TextLessTransitive(c.id, b.id, a.id);
    }
  }

  function PageLimit(requested: int): nat {
    if requested <= 0 then DEFAULT_PAGE_SIZE else Min(requested, MAX_PAGE_SIZE)
  }

  // ------------------------------------------------------------------ what a page promises

  /** The review decision of one call; a request that was never asked about is not shown. */
  predicate Shown(decisions: map<string, Answer>, e: Event) {
    match e.subject
    case Plain => true
    case ReviewOf(r) => r != "" && r in decisions && decisions[r] == Allowed
  }

  predicate Asked(decisions: map<string, Answer>, e: Event) {
    e.subject.ReviewOf? && e.subject.requestId != "" ==> e.subject.requestId in decisions
  }

  /** The row was there for every query of the call. */
  predicate Throughout(tables: seq<set<Event>>, e: Event) {
    forall k | 0 <= k < |tables| :: e in tables[k]
  }

  /**
   * One call that read the table in the states `tables` and decided reviews as `decisions`: newest first, only
   * rows below the cursor that may be shown, and every row present throughout down to the next cursor
   * is returned exactly when it may be shown.
   */
  ghost predicate PageOk(tables: seq<set<Event>>, decisions: map<string, Answer>, cursor: Option<Cursor>, limit: nat,
                         page: Page) {
    && Ascending(Newest, page.events)
    && |page.events| <= limit
    && (forall e | e in page.events :: e in AllRows(tables) && Below(cursor, e) && Shown(decisions, e))
    && (page.next.Some? ==>
          && |page.events| == limit > 0 && page.next.value == KeyOf(page.events[limit - 1])
          && exists e :: e in AllRows(tables) && Below(page.next, e) && Shown(decisions, e))
    && (forall e | Throughout(tables, e) && Below(cursor, e) && (page.next.Some? ==> !Below(page.next, e)) ::
          Asked(decisions, e) && (Shown(decisions, e) ==> e in page.events))
  }

  /** Every row of the call that has been passed, down to `bound`, has been decided and kept if it may be shown. */
  ghost predicate Covered(tables: seq<set<Event>>, decisions: map<string, Answer>, cursor: Option<Cursor>,
                          bound: Option<Cursor>, events: seq<Event>) {
    forall e | Throughout(tables, e) && Below(cursor, e) && !Below(bound, e) ::
      Asked(decisions, e) && (Shown(decisions, e) ==> e in events)
  }

  /** Each stored answer was given by the authorizer at some point of the call. */
  ghost predicate CacheOk(canReview: (string, nat) -> Answer, cache: map<string, Answer>) {
    forall r | r in cache :: exists n: nat :: cache[r] == canReview(r, n)
  }

  // ------------------------------------------------------------------ the loop

  method ListBatch(table: set<Event>, cursor: Option<Cursor>, limit: nat) returns (batch: seq<Event>)
    requires IdsUnique(table) && limit > 0
    ensures Ascending(Newest, batch) && |batch| <= limit
    ensures forall e | e in batch :: e in table && Below(cursor, e)
    ensures |batch| < limit ==> forall e | e in table && Below(cursor, e) :: e in batch
    ensures |batch| == limit ==> forall e | e in table && Below(cursor, e) && e !in batch :: NewerThan(batch[limit - 1], e)
  {
    var rows := BelowRows(table, cursor);
    NewestTotal(rows);
    batch := OrderedRows(Newest, rows, limit);
    ghost var l := Sorted(Newest, rows);
    forall e | e in batch ensures e in rows {
      assert e in Elements(l);
    }
    forall e | e in rows && e !in batch ensures |batch| == limit && NewerThan(batch[limit - 1], e) {
      assert e in Elements(l);
      assert forall k | 0 <= k < |batch| :: batch[k] == l[k] && batch[k] in batch;
      var j :| 0 <= j < |l| && l[j] == e;
      assert Newest(l[limit - 1], l[j]);
    }
  }

  /** One authorizer question per request and call; its answer is kept. */
  method ReviewAccessAllowed(canReview: (string, nat) -> Answer, e: Event, cache: map<string, Answer>, asked: nat)
    returns (answer: Answer, cache': map<string, Answer>, asked': nat)
    requires CacheOk(canReview, cache)
    ensures CacheOk(canReview, cache') && cache.Keys <= cache'.Keys && forall r | r in cache :: cache'[r] == cache[r]
    ensures Asked(cache', e) && (answer == Allowed <==> Shown(cache', e))
    ensures e.subject.Plain? ==> answer == Allowed && cache' == cache && asked' == asked
    ensures e.subject == ReviewOf("") ==> answer == Denied && cache' == cache && asked' == asked
    ensures e.subject.ReviewOf? && e.subject.requestId != "" ==>
              var r := e.subject.requestId;
              && r in cache' && answer == cache'[r]
              && (r in cache ==> cache' == cache && asked' == asked)
              && (r !in cache ==> cache' == cache[r := canReview(r, asked)] && asked' == asked + 1)
    ensures answer == Failed ==> exists r: string, n: nat :: canReview(r, n) == Failed
  {
    cache', asked' := cache, asked;
    if e.subject.Plain? {
      return Allowed, cache', asked';
    }
    var requestId := e.subject.requestId;
    if requestId == "" {
      return Denied, cache', asked';
    }
    if requestId !in cache {
      cache' := cache[requestId := canReview(requestId, asked)];
      asked' := asked + 1;
    }
    answer := cache'[requestId];
  }

  /** What one pass over a batch has established after its first `i` rows. */
  ghost predicate Kept(decisions: map<string, Answer>, before: seq<Event>, batch: seq<Event>, i: nat, events: seq<Event>)
    requires i <= |batch|
  {
    && before <= events
    && (forall k | |before| <= k < |events| :: events[k] in batch[..i] && Shown(decisions, events[k]))
    && (forall k | 0 <= k < i :: Asked(decisions, batch[k]) && (Shown(decisions, batch[k]) ==> batch[k] in events))
    && Ascending(Newest, events)
  }

  lemma DecisionsGrow(decisions: map<string, Answer>, more: map<string, Answer>, e: Event)
    requires decisions.Keys <= more.Keys && forall r | r in decisions :: more[r] == decisions[r]
    ensures Shown(decisions, e) ==> Shown(more, e)
    ensures Asked(decisions, e) ==> Asked(more, e) && (Shown(more, e) ==> Shown(decisions, e))
  {
  }

  lemma KeptGrows(decisions: map<string, Answer>, more: map<string, Answer>, before: seq<Event>, batch: seq<Event>,
                  i: nat, events: seq<Event>)
    requires i <= |batch| && Kept(decisions, before, batch, i, events)
    requires decisions.Keys <= more.Keys && forall r | r in decisions :: more[r] == decisions[r]
    ensures Kept(more, before, batch, i, events)
  {
    forall k | |before| <= k < |events| ensures Shown(more, events[k]) {
      DecisionsGrow(decisions, more, events[k]);
    }
    forall k | 0 <= k < i ensures Asked(more, batch[k]) && (Shown(more, batch[k]) ==> batch[k] in events) {
      DecisionsGrow(decisions, more, batch[k]);
    }
  }

  lemma CoveredGrows(tables: seq<set<Event>>, decisions: map<string, Answer>, more: map<string, Answer>,
                     cursor: Option<Cursor>, bound: Option<Cursor>, events: seq<Event>, longer: seq<Event>)
    requires Covered(tables, decisions, cursor, bound, events) && events <= longer
    requires decisions.Keys <= more.Keys && forall r | r in decisions :: more[r] == decisions[r]
    ensures Covered(tables, more, cursor, bound, longer)
  {
    forall e | Throughout(tables, e) && Below(cursor, e) && !Below(bound, e)
      ensures Asked(more, e) && (Shown(more, e) ==> e in longer)
    {
      DecisionsGrow(decisions, more, e);
    }
  }

  /** Keep the rows of a batch that may be shown, until one more than a page is held. */
  method FilterBatch(canReview: (string, nat) -> Answer, batch: seq<Event>, before: seq<Event>, limit: nat,
                     cache: map<string, Answer>, asked: nat)
    returns (failed: bool, events: seq<Event>, examined: nat, cache': map<string, Answer>, asked': nat)
    requires CacheOk(canReview, cache) && |before| <= limit && Ascending(Newest, before) && Ascending(Newest, batch)
    requires forall e, b | e in before && b in batch :: NewerThan(e, b)
    ensures CacheOk(canReview, cache') && cache.Keys <= cache'.Keys && forall r | r in cache :: cache'[r] == cache[r]
    ensures failed ==> exists r: string, n: nat :: canReview(r, n) == Failed
    ensures !failed ==>
              && examined <= |batch| && Kept(cache', before, batch, examined, events) && |events| <= limit + 1
              && (if |events| <= limit then examined == |batch| else examined > 0 && events[limit] == batch[examined - 1])
  {
    failed, events, examined, cache', asked' := false, before, 0, cache, asked;
    while examined < |batch|
      invariant examined <= |batch| && |events| <= limit && CacheOk(canReview, cache')
      invariant cache.Keys <= cache'.Keys && forall r | r in cache :: cache'[r] == cache[r]
      invariant Kept(cache', before, batch, examined, events)
    {
      var e := batch[examined];
      ghost var known := cache';
      var answer: Answer;
      answer, cache', asked' := ReviewAccessAllowed(canReview, e, cache', asked');
      if answer == Failed {
        return true, events, examined, cache', asked';
      }
      KeptGrows(known, cache', before, batch, examined, events);
      if answer == Allowed {
        KeptSnoc(cache', before, batch, examined, events);
        events := events + [e];
      }
      examined := examined + 1;
      if |events| == limit + 1 {
        break;
      }
    }
  }

  lemma KeptSnoc(decisions: map<string, Answer>, before: seq<Event>, batch: seq<Event>, i: nat, events: seq<Event>)
    requires i < |batch| && Kept(decisions, before, batch, i, events) && Ascending(Newest, batch)
    requires Shown(decisions, batch[i]) && Asked(decisions, batch[i])
    requires forall e, b | e in before && b in batch :: NewerThan(e, b)
    ensures Kept(decisions, before, batch, i + 1, events + [batch[i]])
  {
    forall k | 0 <= k < |events| ensures Newest(events[k], batch[i]) {
      if k >= |before| {
        var j :| 0 <= j < i && batch[..i][j] == events[k];
        assert Newest(batch[j], batch[i]);
      } else {
        assert events[k] == before[k];
      }
    }
  }

  /** Passing over the first `i` rows of a batch moves the covered bound to the last of them. */
  lemma CoverBatch(tables: seq<set<Event>>, table: set<Event>, decisions: map<string, Answer>, cursor: Option<Cursor>,
                   position: Option<Cursor>, before: seq<Event>, batch: seq<Event>, i: nat, events: seq<Event>)
    requires Covered(tables, decisions, cursor, position, before) && table in tables && 0 < i <= |batch|
    requires Kept(decisions, before, batch, i, events) && Ascending(Newest, batch)
    requires forall e | e in table && Below(position, e) && e !in batch :: NewerThan(batch[|batch| - 1], e)
    ensures Covered(tables, decisions, cursor, Some(KeyOf(batch[i - 1])), events)
  {
    forall e | Throughout(tables, e) && Below(cursor, e) && !Below(Some(KeyOf(batch[i - 1])), e)
      ensures Asked(decisions, e) && (Shown(decisions, e) ==> e in events)
    {
      assert e in table by {
        var k :| 0 <= k < |tables| && tables[k] == table;
        assert e in tables[k];
      }
      if Below(position, e) {
        if e !in batch {
          assert NewerThan(batch[|batch| - 1], e);
          if i < |batch| {
            assert Newest(batch[i - 1], batch[|batch| - 1]);
            NewerTransitive(batch[i - 1], batch[|batch| - 1], e);
          }
          assert false;
        }
        assert forall k | i <= k < |batch| :: Newest(batch[i - 1], batch[k]);
        var j :| 0 <= j < |batch| && batch[j] == e;
      }
    }
  }

  /** A batch row is below every row already held, which the position separates. */
  lemma BelowIsOlder(position: Cursor, e: Event, b: Event)
    requires !Below(Some(position), e) && Below(Some(position), b)
    ensures NewerThan(e, b)
  {
    if e.createAt == position.createAt {
      TextLessTotal(e.id, position.id);
      if b.createAt == position.createAt && e.id != position.id {
        TextLessTransitive(b.id, position.id, e.id);
      }
    }
  }

  /** Everything visible throughout has been decided and kept if it may be shown. */
  ghost predicate CoveredAll(tables: seq<set<Event>>, decisions: map<string, Answer>, cursor: Option<Cursor>,
                             events: seq<Event>) {
    forall e | Throughout(tables, e) && Below(cursor, e) :: Asked(decisions, e) && (Shown(decisions, e) ==> e in events)
  }

  /** A batch that is not full was the rest of the table. */
  lemma CoverRest(tables: seq<set<Event>>, table: set<Event>, known: map<string, Answer>, decisions: map<string, Answer>,
                  cursor: Option<Cursor>, position: Option<Cursor>, before: seq<Event>, batch: seq<Event>, events: seq<Event>)
    requires Covered(tables, known, cursor, position, before) && table in tables
    requires known.Keys <= decisions.Keys && forall r | r in known :: decisions[r] == known[r]
    requires Kept(decisions, before, batch, |batch|, events)
    requires forall e | e in table && Below(position, e) :: e in batch
    ensures CoveredAll(tables, decisions, cursor, events)
  {
    CoveredGrows(tables, known, decisions, cursor, position, before, events);
    forall e | Throughout(tables, e) && Below(cursor, e)
      ensures Asked(decisions, e) && (Shown(decisions, e) ==> e in events)
    {
      if Below(position, e) {
        var k :| 0 <= k < |tables| && tables[k] == table;
        assert e in tables[k];
        var j :| 0 <= j < |batch| && batch[j] == e;
      }
    }
  }

  ghost predicate Deeper(cursor: Option<Cursor>, position: Option<Cursor>) {
    forall e: Event :: Below(position, e) ==> Below(cursor, e)
  }

  lemma DeeperRow(cursor: Option<Cursor>, e: Event)
    requires Below(cursor, e)
    ensures Deeper(cursor, Some(KeyOf(e)))
  {
    forall x: Event | Below(Some(KeyOf(e)), x) ensures Below(cursor, x) {
      if cursor.Some? && x.createAt == e.createAt == cursor.value.createAt {
        TextLessTransitive(x.id, e.id, cursor.value.id);
      }
    }
  }

  /** Rows held so far: shown rows of the table below the cursor and not below the position. */
  ghost predicate Held(tables: seq<set<Event>>, decisions: map<string, Answer>, cursor: Option<Cursor>,
                       position: Option<Cursor>,
                       events: seq<Event>) {
    && Ascending(Newest, events)
    && forall e | e in events :: e in AllRows(tables) && Below(cursor, e) && !Below(position, e) && Shown(decisions, e)
  }

  /** What the batches so far have established. */
  ghost predicate Progress(tables: seq<set<Event>>, decisions: map<string, Answer>, cursor: Option<Cursor>,
                           position: Option<Cursor>,
                           events: seq<Event>) {
    Deeper(cursor, position) && Held(tables, decisions, cursor, position, events) && Covered(tables, decisions, cursor, position, events)
  }

  /** After the rows `batch[..i]` the held rows are those of before and of the batch. */
  lemma HoldBatch(tables: seq<set<Event>>, table: set<Event>, before: seq<Event>, known: map<string, Answer>,
                  decisions: map<string, Answer>,
                  cursor: Option<Cursor>, position: Option<Cursor>, batch: seq<Event>, i: nat, events: seq<Event>)
    requires Held(tables, known, cursor, position, before) && table in tables && Deeper(cursor, position) && 0 < i <= |batch|
    requires known.Keys <= decisions.Keys && forall r | r in known :: decisions[r] == known[r]
    requires Kept(decisions, before, batch, i, events) && Ascending(Newest, batch)
    requires forall e | e in batch :: e in table && Below(position, e)
    requires IdsUnique(AllRows(tables))
    ensures Held(tables, decisions, cursor, Some(KeyOf(batch[i - 1])), events)
    ensures batch[i - 1] in BelowRows(AllRows(tables), position)
  {
    var t :| 0 <= t < |tables| && tables[t] == table;
    assert batch[i - 1] in batch && batch[i - 1] in AllRows(tables);
    var last := Some(KeyOf(batch[i - 1]));
    DeeperRow(position, batch[i - 1]);
    forall e | e in events ensures e in AllRows(tables) && Below(cursor, e) && !Below(last, e) && Shown(decisions, e) {
      var k :| 0 <= k < |events| && events[k] == e;
      if k < |before| {
        assert e == before[k] && e in before;
        DecisionsGrow(known, decisions, e);
      } else {
        var j :| 0 <= j < i && batch[..i][j] == e;
        assert batch[j] == e && e in batch;
        NotBelowLater(batch, j, i - 1);
      }
    }
  }

  lemma NotBelowLater(batch: seq<Event>, j: nat, i: nat)
    requires Ascending(Newest, batch) && j <= i < |batch|
    ensures !Below(Some(KeyOf(batch[i])), batch[j])
  {
    TextLessTotal(batch[j].id, batch[i].id);
    assert j < i ==> Newest(batch[j], batch[i]);
  }

  /** The next batch starts among fewer rows. */
  lemma FewerBelow(rows: set<Event>, position: Option<Cursor>, last: Event)
    requires last in BelowRows(rows, position)
    ensures |BelowRows(rows, Some(KeyOf(last)))| < |BelowRows(rows, position)|
  {
    DeeperRow(position, last);
    TextLessTotal(last.id, last.id);
    assert BelowRows(rows, Some(KeyOf(last))) <= BelowRows(rows, position) - {last};
    SubsetCount(BelowRows(rows, Some(KeyOf(last))), BelowRows(rows, position) - {last});
  }

  lemma CutPage(tables: seq<set<Event>>, decisions: map<string, Answer>, cursor: Option<Cursor>, limit: nat,
                events: seq<Event>)
    requires |events| == limit + 1 && limit > 0 && Covered(tables, decisions, cursor, Some(KeyOf(events[limit])), events)
    requires Held(tables, decisions, cursor, Some(KeyOf(events[limit])), events)
    ensures PageOk(tables, decisions, cursor, limit, Page(events[..limit], Some(KeyOf(events[limit - 1]))))
  {
    var next := Some(KeyOf(events[limit - 1]));
    assert Newest(events[limit - 1], events[limit]) && events[limit] in events;
    forall e | Throughout(tables, e) && Below(cursor, e) && !Below(next, e)
      ensures Asked(decisions, e) && (Shown(decisions, e) ==> e in events[..limit])
    {
      assert !Below(Some(KeyOf(events[limit])), e) by {
        if Below(Some(KeyOf(events[limit])), e) {
          DeeperRow(next, events[limit]);
        }
      }
      if Shown(decisions, e) {
        var k :| 0 <= k < |events| && events[k] == e;
        assert k != limit;
        assert events[..limit][k] == e;
      }
    }
  }

  lemma WholePage(tables: seq<set<Event>>, decisions: map<string, Answer>, cursor: Option<Cursor>, limit: nat,
                  events: seq<Event>)
    requires |events| <= limit && CoveredAll(tables, decisions, cursor, events) && HeldAll(tables, decisions, cursor, events)
    ensures PageOk(tables, decisions, cursor, limit, Page(events, None))
  {
  }

  ghost predicate HeldAll(tables: seq<set<Event>>, decisions: map<string, Answer>, cursor: Option<Cursor>,
                          events: seq<Event>) {
    Ascending(Newest, events) && forall e | e in events :: e in AllRows(tables) && Below(cursor, e) && Shown(decisions, e)
  }

  /** Every plain event that was there throughout, after the cursor and not left to the next page, is on the page. */
  ghost predicate PlainReturned(tables: seq<set<Event>>, cursor: Option<Cursor>, page: Page) {
    forall e: Event | e.subject.Plain? && Throughout(tables, e) && Below(cursor, e) && (page.next.Some? ==> !Below(page.next, e)) ::
      e in page.events
  }

  lemma PageReturnsPlain(tables: seq<set<Event>>, decisions: map<string, Answer>, cursor: Option<Cursor>, limit: nat, page: Page)
    requires PageOk(tables, decisions, cursor, limit, page)
    ensures PlainReturned(tables, cursor, page)
  {
  }

  /** The page size, and the size of the batches that fill it. */
  method Limits(requested: int) returns (limit: nat, batchLimit: nat)
    ensures limit == if requested <= 0 then 50 else Min(requested, 100)
    ensures batchLimit == if limit < 50 then 51 else limit + 1
  {
    var size := requested;
    if size <= 0 {
      size := DEFAULT_PAGE_SIZE;
    }
    if size > MAX_PAGE_SIZE {
      size := MAX_PAGE_SIZE;
    }
    var batch := size + 1;
    if batch < DEFAULT_PAGE_SIZE + 1 {
      batch := DEFAULT_PAGE_SIZE + 1;
    }
    if batch > MAX_PAGE_SIZE + 1 {
      batch := MAX_PAGE_SIZE + 1;
    }
    return size, batch;
  }

  /** One row too many means that there is a next page: cut it off and point at the last row kept. */
  method FinishPage(ghost tables: seq<set<Event>>, ghost decisions: map<string, Answer>, ghost cursor: Option<Cursor>, limit: nat,
                    events: seq<Event>) returns (page: Page)
    requires 0 < limit && |events| <= limit + 1
    requires |events| <= limit ==> CoveredAll(tables, decisions, cursor, events) && HeldAll(tables, decisions, cursor, events)
    requires |events| > limit ==>
               var bound := Some(KeyOf(events[limit]));
               Covered(tables, decisions, cursor, bound, events) && Held(tables, decisions, cursor, bound, events)
    ensures PageOk(tables, decisions, cursor, limit, page) && PlainReturned(tables, cursor, page)
    ensures page.next.Some? <==> |events| > limit
  {
    page := Page(events, None);
    if |events| > limit {
      CutPage(tables, decisions, cursor, limit, events);
      page := Page(events[..limit], Some(KeyOf(events[limit - 1])));
    } else {
      WholePage(tables, decisions, cursor, limit, events);
    }
    PageReturnsPlain(tables, decisions, cursor, limit, page);
  }

  /** The list handler: fetch bounded batches until one row more than a page may be shown or the rows end. */
  method ListForPrincipal(tables: seq<set<Event>>, canReview: (string, nat) -> Answer, cursor: Option<Cursor>,
                          requested: int)
    returns (result: Result<Page, Error>, ghost decisions: map<string, Answer>)
    requires tables != [] && IdsUnique(AllRows(tables))
    ensures CacheOk(canReview, decisions)
    ensures result.Ok? ==> PageOk(tables, decisions, cursor, PageLimit(requested), result.value)
    ensures result.Ok? ==> PlainReturned(tables, cursor, result.value)
    ensures result.Err? ==> exists r: string, n: nat :: canReview(r, n) == Failed
  {
    var limit, batchLimit := Limits(requested);
    var events: seq<Event>, cache: map<string, Answer>, asked, fetched := [], map[], 0, 0;
    var position := cursor;
    while |events| < limit + 1
      invariant |events| <= limit && CacheOk(canReview, cache)
      invariant Progress(tables, cache, cursor, position, events)
      decreases |BelowRows(AllRows(tables), position)|
    {
      var table := tables[Min(fetched, |tables| - 1)];
      fetched := fetched + 1;
      var batch := ListBatch(table, position, batchLimit);
      if |batch| == 0 {
        CoverRest(tables, table, cache, cache, cursor, position, events, batch, events);
        assert HeldAll(tables, cache, cursor, events);
        break;
      }
      ghost var before, known := events, cache;
      BatchIsOlder(tables, cache, cursor, position, events, batch);
      var failed, examined;
      failed, events, examined, cache, asked := FilterBatch(canReview, batch, events, limit, cache, asked);
      if failed {
        return Err(ReviewFailed), cache;
      }
      AfterBatch(tables, table, before, known, cache, cursor, position, batch, examined, events);
      if |events| == limit + 1 || |batch| < batchLimit {
        if |events| <= limit {
          CoverRest(tables, table, known, cache, cursor, position, before, batch, events);
          assert HeldAll(tables, cache, cursor, events);
        }
        break;
      }
      var last := batch[|batch| - 1];
      position := Some(KeyOf(last));
    }
    var page := FinishPage(tables, cache, cursor, limit, events);
    return Ok(page), cache;
  }

  /** One batch moves the held rows, the covered bound and the termination measure to its last examined row. */
  lemma AfterBatch(tables: seq<set<Event>>, table: set<Event>, before: seq<Event>, known: map<string, Answer>,
                   decisions: map<string, Answer>,
                   cursor: Option<Cursor>, position: Option<Cursor>, batch: seq<Event>, i: nat, events: seq<Event>)
    requires Progress(tables, known, cursor, position, before)
    requires table in tables && 0 < i <= |batch| && IdsUnique(AllRows(tables))
    requires known.Keys <= decisions.Keys && forall r | r in known :: decisions[r] == known[r]
    requires Kept(decisions, before, batch, i, events) && Ascending(Newest, batch)
    requires forall e | e in batch :: e in table && Below(position, e)
    requires forall e | e in table && Below(position, e) && e !in batch :: NewerThan(batch[|batch| - 1], e)
    ensures var bound := Some(KeyOf(batch[i - 1]));
            && Progress(tables, decisions, cursor, bound, events)
            && |BelowRows(AllRows(tables), bound)| < |BelowRows(AllRows(tables), position)|
  {
    CoveredGrows(tables, known, decisions, cursor, position, before, before);
    HoldBatch(tables, table, before, known, decisions, cursor, position, batch, i, events);
    CoverBatch(tables, table, decisions, cursor, position, before, batch, i, events);
    FewerBelow(AllRows(tables), position, batch[i - 1]);
    assert batch[i - 1] in batch;
    DeeperRow(cursor, batch[i - 1]);
  }

  lemma BatchIsOlder(tables: seq<set<Event>>, decisions: map<string, Answer>, cursor: Option<Cursor>,
                     position: Option<Cursor>,
                     events: seq<Event>, batch: seq<Event>)
    requires Held(tables, decisions, cursor, position, events)
    requires forall b | b in batch :: Below(position, b)
    ensures forall e, b | e in events && b in batch :: NewerThan(e, b)
  {
    forall e, b | e in events && b in batch ensures NewerThan(e, b) {
      BelowIsOlder(position.value, e, b);
    }
  }
}
