/** The post and document tables, the live view of a thread, staleness, and the document transactions. */
module Documents {
  import opened Wrappers
  import opened Ordering
  import opened SourceStream

  const MAX_SOURCE_POSTS: nat := 200
  const MAX_SOURCE_RUNES: nat := 120_000

  datatype Post = Post(channelId: string, rootId: string, message: string, createAt: int, updateAt: int, deleted: bool)

  datatype Document = Document(
    title: string, body: string, createdBy: string, teamId: string, channelId: string, threadId: string,
    cursor: int, key: string, fingerprint: nat, revision: nat, createAt: int, updateAt: int, deleted: bool)

  /** A row of `document_sources`. */
  datatype Captured = Captured(position: nat, digest: string)

  datatype Tables = Tables(posts: map<string, Post>, documents: map<string, Document>,
                           sources: map<string, map<string, Captured>>)

  /** A caller and the live channels it may read now, with their teams. */
  datatype Viewer = Viewer(userId: string, channels: map<string, string>)

  datatype Bundle = Bundle(teamId: string, channelId: string, threadId: string, cursor: int, posts: seq<SourcePost>)

  datatype Error = Invalid | NotFound | Forbidden | RevisionConflict | SourceChanged | SourceTooLarge | IdempotencyConflict

  /** SHA-256 as a number and the md5 text function. */
  datatype Digests = Digests(sha: seq<int> -> nat, md5: string -> string)

  // ------------------------------------------------------------------ the live thread

  function SourceOf(id: string, p: Post): SourcePost {
    SourcePost(id, p.channelId, p.rootId, p.createAt, p.message)
  }

  predicate InThread(id: string, p: Post, thread: string, channel: string) {
    (id == thread || p.rootId == thread) && p.channelId == channel && !p.deleted
  }

  function ThreadIds(posts: map<string, Post>, thread: string, channel: string): set<string> {
    set id | id in posts && InThread(id, posts[id], thread, channel)
  }

  function ThreadRows(posts: map<string, Post>, thread: string, channel: string): set<SourcePost> {
    set id | id in ThreadIds(posts, thread, channel) :: SourceOf(id, posts[id])
  }

  /** Root first, then by creation time, then by id. */
  predicate Precedes(thread: string, a: SourcePost, b: SourcePost) {
    if a.id == thread || b.id == thread then a.id == thread && b.id != thread
    else a.createAt < b.createAt || (a.createAt == b.createAt && TextLess(a.id, b.id))
  }

  function ThreadOrder(thread: string): (SourcePost, SourcePost) -> bool {
    (a, b) => Precedes(thread, a, b)
  }

  predicate DistinctIds(rows: set<SourcePost>) {
    forall a, b | a in rows && b in rows && a.id == b.id :: a == b
  }

  lemma ThreadOrderTotal(thread: string, rows: set<SourcePost>)
    requires DistinctIds(rows)
    ensures StrictTotalOn(ThreadOrder(thread), rows)
  {
    forall a, b | a in rows && b in rows && a != b ensures Precedes(thread, a, b) || Precedes(thread, b, a) {
      TextLessTotal(a.id, b.id);
    }
    forall a | a in rows ensures !Precedes(thread, a, a) {
      TextLessTotal(a.id, a.id);
    }
    forall a, b, c | a in rows && b in rows && c in rows && Precedes(thread, a, b) && Precedes(thread, b, c)
      ensures Precedes(thread, a, c)
    {
      if a.id != thread && a.createAt == b.createAt == c.createAt {
        TextLessTransitive(a.id, b.id, c.id);
      }
    }
  }

  ghost function Listing(posts: map<string, Post>, thread: string, channel: string): (l: seq<SourcePost>)
    ensures StrictTotalOn(ThreadOrder(thread), ThreadRows(posts, thread, channel))
    ensures IsListing(ThreadOrder(thread), l, ThreadRows(posts, thread, channel))
    ensures |l| == |ThreadRows(posts, thread, channel)|
  {
    ThreadOrderTotal(thread, ThreadRows(posts, thread, channel));
    Sorted(ThreadOrder(thread), ThreadRows(posts, thread, channel))
  }

  /** Code points of a UTF-8 text given as bytes: the bytes that are not continuation bytes. */
  function Runes(s: string): nat {
    if s == "" then 0 else Runes(s[1..]) + (if 0x80 <= s[0] as int < 0xC0 then 0 else 1)
  }

  function TotalRunes(posts: seq<SourcePost>): nat {
    if posts == [] then 0 else TotalRunes(posts[..|posts| - 1]) + Runes(posts[|posts| - 1].message)
  }

  lemma {:induction false} TotalRunesPrefix(posts: seq<SourcePost>, n: nat)
    requires n <= |posts|
    ensures TotalRunes(posts[..n]) <= TotalRunes(posts)
    decreases |posts|
  {
    if n < |posts| {
      TotalRunesPrefix(posts[..|posts| - 1], n);
      assert posts[..|posts| - 1][..n] == posts[..n];
    } else {
      assert posts[..n] == posts;
    }
  }

  predicate TooLarge(posts: seq<SourcePost>) {
    |posts| > MAX_SOURCE_POSTS || TotalRunes(posts) > MAX_SOURCE_RUNES
  }

  /** Reading one row more than the limit is enough to see that a thread is too large. */
  lemma LimitedTooLarge(l: seq<SourcePost>)
    ensures TooLarge(Limited(l, MAX_SOURCE_POSTS + 1)) <==> TooLarge(l)
    ensures !TooLarge(l) ==> Limited(l, MAX_SOURCE_POSTS + 1) == l
  {
  }

  function CanonicalRoot(posts: map<string, Post>, postId: string): string
    requires postId in posts
  {
    if posts[postId].rootId == "" then postId else posts[postId].rootId
  }

  /** The complete live thread that contains a post, as the caller may see it. */
  ghost function Resolve(dg: Digests, posts: map<string, Post>, viewer: Viewer, postId: string): Result<Bundle, Error> {
    if postId !in posts || posts[postId].deleted || posts[postId].channelId !in viewer.channels then Err(NotFound)
    else
      var channel := posts[postId].channelId;
      var root := CanonicalRoot(posts, postId);
      var l := Listing(posts, root, channel);
      if TooLarge(l) then Err(SourceTooLarge)
      else if l == [] || l[0].id != root then Err(NotFound)
      else Ok(Bundle(viewer.channels[channel], channel, root, Revision(dg.sha, l), l))
  }

  // ------------------------------------------------------------------ staleness as the query computes it

  predicate RootMissing(posts: map<string, Post>, d: Document) {
    !(d.threadId in posts && posts[d.threadId].rootId == "" && posts[d.threadId].channelId == d.channelId
      && !posts[d.threadId].deleted)
  }

  predicate SourceBroken(md5: string -> string, posts: map<string, Post>, d: Document, postId: string, c: Captured) {
    || postId !in posts || posts[postId].deleted || posts[postId].channelId != d.channelId
    || !((postId == d.threadId && posts[postId].rootId == "") || posts[postId].rootId == d.threadId)
    || md5(posts[postId].message) != c.digest
  }

  predicate Stale(md5: string -> string, posts: map<string, Post>, d: Document, captured: map<string, Captured>) {
    || RootMissing(posts, d)
    || (exists id | id in captured :: SourceBroken(md5, posts, d, id, captured[id]))
    || |ThreadIds(posts, d.threadId, d.channelId)| != |captured|
  }

  // ------------------------------------------------------------------ transactions

  function Capture(md5: string -> string, posts: seq<SourcePost>): map<string, Captured> {
    if posts == [] then map[]
    else
      var last := |posts| - 1;
      Capture(md5, posts[..last])[posts[last].id := Captured(last, md5(posts[last].message))]
  }

  /** Documents of a creator under one idempotency key. */
  function Existing(t: Tables, createdBy: string, key: string): set<string> {
    set id | id in t.documents && t.documents[id].createdBy == createdBy && t.documents[id].key == key
  }

  /** The unique index on (created_by, idempotency_key). */
  ghost predicate KeysUnique(documents: map<string, Document>) {
    forall a, b | a in documents && b in documents && documents[a].createdBy == documents[b].createdBy
                  && documents[a].key == documents[b].key :: a == b
  }

  /** Inserting under a key that its creator has not used. */
  lemma FreshKeyKeepsUnique(t: Tables, id: string, d: Document)
    requires KeysUnique(t.documents) && id !in t.documents && Existing(t, d.createdBy, d.key) == {}
    ensures KeysUnique(t.documents[id := d])
  {
    forall other | other in t.documents ensures t.documents[other].createdBy != d.createdBy || t.documents[other].key != d.key {
      assert other !in Existing(t, d.createdBy, d.key);
    }
  }

  datatype Creation = Creation(title: string, body: string, postId: string, cursor: int, key: string)

  datatype Created = Created(id: string, replayed: bool)

  function RequestOf(viewer: Viewer, c: Creation, b: Bundle): Request {
    Request(c.title, c.body, viewer.userId, b.teamId, b.channelId, b.threadId, c.cursor)
  }

  function NewDocument(dg: Digests, viewer: Viewer, c: Creation, b: Bundle, now: int): Document {
    Document(c.title, c.body, viewer.userId, b.teamId, b.channelId, b.threadId, b.cursor, c.key,
             Fingerprint(dg.sha, RequestOf(viewer, c, b)), 1, now, now, false)
  }

  ghost function CreateOutcome(dg: Digests, t: Tables, viewer: Viewer, c: Creation, freshId: string): Result<Created,
                               Error> {
    if c.cursor <= 0 then Err(Invalid)
    else match Resolve(dg, t.posts, viewer, c.postId)
         case Err(e) => Err(e)
         case Ok(b) =>
           var existing := Existing(t, viewer.userId, c.key);
           if existing != {} then
             var id :| id in existing;
             if t.documents[id].deleted || t.documents[id].fingerprint != Fingerprint(dg.sha, RequestOf(viewer, c, b))
             then Err(IdempotencyConflict) else Ok(Created(id, true))
           else if b.cursor != c.cursor then Err(SourceChanged)
           else Ok(Created(freshId, false))
  }

  ghost function AfterCreate(dg: Digests, t: Tables, viewer: Viewer, c: Creation, freshId: string, now: int): Tables {
    var outcome := CreateOutcome(dg, t, viewer, c, freshId);
    if outcome.Ok? && !outcome.value.replayed then
      var b := Resolve(dg, t.posts, viewer, c.postId).value;
      t.(documents := t.documents[freshId := NewDocument(dg, viewer, c, b, now)],
      sources := t.sources[freshId := Capture(dg.md5, b.posts)])
    else t
  }

  predicate Accessible(t: Tables, viewer: Viewer, id: string) {
    && id in t.documents && !t.documents[id].deleted
    && t.documents[id].channelId in viewer.channels
    && viewer.channels[t.documents[id].channelId] == t.documents[id].teamId
  }

  datatype Patch = Patch(title: Option<string>, body: Option<string>, cursor: Option<int>, expected: int)

  function WriteError(t: Tables, viewer: Viewer, id: string, expected: int): Option<Error> {
    if !Accessible(t, viewer, id) then Some(NotFound)
    else if t.documents[id].createdBy != viewer.userId then Some(Forbidden)
    else if t.documents[id].revision != expected then Some(RevisionConflict)
    else None
  }

  predicate PatchMalformed(p: Patch) {
    || p.expected <= 0 || (p.title.None? && p.body.None? && p.cursor.None?)
    || (p.cursor.Some? && (p.body.None? || p.cursor.value <= 0))
  }

  /** The source a patch captures again: still the same thread, at the revision the caller saw. */
  ghost function Refreshed(dg: Digests, posts: map<string, Post>, viewer: Viewer, d: Document,
                           cursor: int): Result<Bundle, Error> {
    match Resolve(dg, posts, viewer, d.threadId)
    case Err(e) => Err(e)
    case Ok(b) =>
      if b.teamId != d.teamId || b.channelId != d.channelId || b.threadId != d.threadId || b.cursor != cursor
      then Err(SourceChanged) else Ok(b)
  }

  ghost function PatchError(dg: Digests, t: Tables, viewer: Viewer, id: string, p: Patch): Option<Error> {
    if PatchMalformed(p) then Some(Invalid)
    else
      var e := WriteError(t, viewer, id, p.expected);
      if e.Some? then e
      else if p.cursor.None? then None
      else
        var refreshed := Refreshed(dg, t.posts, viewer, t.documents[id], p.cursor.value);
        if refreshed.Err? then Some(refreshed.error) else None
  }

  function Patched(d: Document, p: Patch, now: int): Document {
    d.(title := if p.title.Some? then p.title.value else d.title,
    body := if p.body.Some? then p.body.value else d.body,
    cursor := if p.cursor.Some? then p.cursor.value else d.cursor,
    revision := d.revision + 1, updateAt := now)
  }

  ghost function AfterPatch(dg: Digests, t: Tables, viewer: Viewer, id: string, p: Patch, now: int): Tables {
    if PatchError(dg, t, viewer, id, p).Some? then t
    else
      t.(documents := t.documents[id := Patched(t.documents[id], p, now)],
      sources := if p.cursor.None? then t.sources
                 else t.sources[id := Capture(dg.md5, Refreshed(dg, t.posts, viewer, t.documents[id], p.cursor.value).value.posts)])
  }

  /** The parts that the patch names are replaced, the others stay, and the revision that its writer expected is used up. */
  predicate PartsWritten(before: map<string, Document>, after: map<string, Document>, id: string, p: Patch) {
    && id in before && id in after
    && after[id].title == (if p.title.Some? then p.title.value else before[id].title)
    && after[id].body == (if p.body.Some? then p.body.value else before[id].body)
    && after[id].cursor == (if p.cursor.Some? then p.cursor.value else before[id].cursor)
    && after[id].revision == before[id].revision + 1 && before[id].revision == p.expected
  }

  lemma PatchWritesParts(dg: Digests, t: Tables, viewer: Viewer, id: string, p: Patch, now: int)
    requires PatchError(dg, t, viewer, id, p).None?
    ensures PartsWritten(t.documents, AfterPatch(dg, t, viewer, id, p, now).documents, id, p)
  {
  }

  function DeleteError(t: Tables, viewer: Viewer, id: string, expected: int): Option<Error> {
    if expected <= 0 then Some(Invalid) else WriteError(t, viewer, id, expected)
  }

  function AfterDelete(t: Tables, viewer: Viewer, id: string, expected: int, now: int): Tables {
    if DeleteError(t, viewer, id, expected).Some? then t
    else
      var d := t.documents[id];
      t.(documents := t.documents[id := d.(deleted := true, updateAt := now, revision := d.revision + 1)])
  }

  class DocumentStore {
    var posts: map<string, Post>
    var documents: map<string, Document>
    var sources: map<string, map<string, Captured>>

    ghost function View(): Tables
      reads this
    {
      Tables(posts, documents, sources)
    }

    constructor (posts: map<string, Post>)
      ensures View() == Tables(posts, map[], map[])
    {
      this.posts := posts;
      documents, sources := map[], map[];
    }

    /** One row more than the limit, in thread order. */
    method SelectThread(root: string, channel: string) returns (rows: seq<SourcePost>)
      ensures rows == Limited(Listing(posts, root, channel), MAX_SOURCE_POSTS + 1)
    {
      ThreadOrderTotal(root, ThreadRows(posts, root, channel));
      rows := OrderedRows(ThreadOrder(root), ThreadRows(posts, root, channel), MAX_SOURCE_POSTS + 1);
    }

    /** The rows arrive in order and both limits are checked on the way. */
    static method CollectRows(rows: seq<SourcePost>) returns (result: Result<seq<SourcePost>, Error>)
      ensures result == if TooLarge(rows) then Err(SourceTooLarge) else Ok(rows)
    {
      var found: seq<SourcePost>, runes := [], 0;
      for i := 0 to |rows|
        invariant found == rows[..i] && runes == TotalRunes(found) && !TooLarge(found)
      {
        found := found + [rows[i]];
        runes := runes + Runes(rows[i].message);
        assert found[..i] == rows[..i];
        if |found| > MAX_SOURCE_POSTS || runes > MAX_SOURCE_RUNES {
          TotalRunesPrefix(rows, i + 1);
          assert found == rows[..i + 1];
          return Err(SourceTooLarge);
        }
      }
      assert found == rows;
      return Ok(found);
    }

    method ResolveSource(dg: Digests, viewer: Viewer, postId: string) returns (result: Result<Bundle, Error>)
      ensures result == Resolve(dg, posts, viewer, postId)
    {
      if postId !in posts || posts[postId].deleted || posts[postId].channelId !in viewer.channels {
        return Err(NotFound);
      }
      var channel := posts[postId].channelId;
      var root := CanonicalRoot(posts, postId);
      var rows := SelectThread(root, channel);
      LimitedTooLarge(Listing(posts, root, channel));
      var read := CollectRows(rows);
      if read.Err? {
        return Err(read.error);
      }
      if |read.value| == 0 || read.value[0].id != root {
        return Err(NotFound);
      }
      var cursor := SourceRevision(dg.sha, read.value);
      return Ok(Bundle(viewer.channels[channel], channel, root, cursor, read.value));
    }

    method ReplaceSources(dg: Digests, documentId: string, bundle: Bundle)
      modifies this`sources
      ensures sources == old(sources)[documentId := Capture(dg.md5, bundle.posts)]
    {
      var rows: map<string, Captured> := map[];
      for position := 0 to |bundle.posts|
        invariant rows == Capture(dg.md5, bundle.posts[..position])
      {
        var source := bundle.posts[position];
        assert bundle.posts[..position + 1][..position] == bundle.posts[..position];
        rows := rows[source.id := Captured(position, dg.md5(source.message))];
      }
      assert bundle.posts[..|bundle.posts|] == bundle.posts;
      sources := sources[documentId := rows];
    }

    /** One row of the document table, and its source rows when it is written from a bundle. */
    method WriteDocument(dg: Digests, id: string, row: Document, bundle: Option<Bundle>)
      modifies this
      ensures posts == old(posts) && documents == old(documents)[id := row]
      ensures sources == if bundle.Some? then old(sources)[id := Capture(dg.md5, bundle.value.posts)] else old(sources)
    {
      documents := documents[id := row];
      if bundle.Some? {
        ReplaceSources(dg, id, bundle.value);
      }
    }

    method Create(dg: Digests, viewer: Viewer, c: Creation, freshId: string, now: int) returns (result: Result<Created,
                  Error>)
      requires freshId !in documents && KeysUnique(documents)
      modifies this
      ensures View() == AfterCreate(dg, old(View()), viewer, c, freshId, now)
      ensures result == CreateOutcome(dg, old(View()), viewer, c, freshId)
      ensures KeysUnique(documents)
    {
      if c.cursor <= 0 {
        return Err(Invalid);
      }
      var resolved := ResolveSource(dg, viewer, c.postId);
      if resolved.Err? {
        return Err(resolved.error);
      }
      var b := resolved.value;
      var fingerprint := CreateFingerprint(dg.sha, RequestOf(viewer, c, b));
      var existing := Existing(Tables(posts, documents, sources), viewer.userId, c.key);
      if existing != {} {
        var id :| id in existing;
        if documents[id].deleted || documents[id].fingerprint != fingerprint {
          return Err(IdempotencyConflict);
        }
        return Ok(Created(id, true));
      }
      if b.cursor != c.cursor {
        return Err(SourceChanged);
      }
      FreshKeyKeepsUnique(View(), freshId, NewDocument(dg, viewer, c, b, now));
      var row := Document(c.title, c.body, viewer.userId, b.teamId, b.channelId, b.threadId, b.cursor, c.key, fingerprint, 1, now, now, false);
      WriteDocument(dg, freshId, row, Some(b));
      return Ok(Created(freshId, false));
    }

    method RefreshSource(dg: Digests, viewer: Viewer, row: Document, cursor: int) returns (result: Result<Bundle, Error>)
      ensures result == Refreshed(dg, posts, viewer, row, cursor)
      ensures result.Ok? ==> result.value.cursor == cursor
    {
      result := ResolveSource(dg, viewer, row.threadId);
      if result.Ok? {
        var b := result.value;
        if b.teamId != row.teamId || b.channelId != row.channelId || b.threadId != row.threadId {
          return Err(SourceChanged);
        }
        if b.cursor != cursor {
          return Err(SourceChanged);
        }
      }
    }

    method PatchDocument(dg: Digests, viewer: Viewer, id: string, p: Patch, now: int) returns (error: Option<Error>)
      modifies this
      ensures View() == AfterPatch(dg, old(View()), viewer, id, p, now)
      ensures error == PatchError(dg, old(View()), viewer, id, p)
      ensures error.None? ==> PartsWritten(old(documents), documents, id, p)
    {
      if p.expected <= 0 || (p.title.None? && p.body.None? && p.cursor.None?) {
        return Some(Invalid);
      }
      if p.cursor.Some? && (p.body.None? || p.cursor.value <= 0) {
        return Some(Invalid);
      }
      if !Accessible(Tables(posts, documents, sources), viewer, id) {
        return Some(NotFound);
      }
      var row := documents[id];
      if row.createdBy != viewer.userId {
        return Some(Forbidden);
      }
      if row.revision != p.expected {
        return Some(RevisionConflict);
      }
      var title, body, cursor := row.title, row.body, row.cursor;
      if p.title.Some? {
        title := p.title.value;
      }
      if p.body.Some? {
        body := p.body.value;
      }
      var bundle: Option<Bundle> := None;
      if p.cursor.Some? {
        var refreshed := RefreshSource(dg, viewer, row, p.cursor.value);
        if refreshed.Err? {
          return Some(refreshed.error);
        }
        var b := refreshed.value;
        cursor := b.cursor;
        bundle := Some(b);
      }
      WriteDocument(dg, id, row.(title := title, body := body, cursor := cursor, revision := row.revision + 1, updateAt := now), bundle);
      PatchWritesParts(dg, old(View()), viewer, id, p, now);
      return None;
    }

    method Delete(viewer: Viewer, id: string, expected: int, now: int) returns (error: Option<Error>)
      modifies this`documents
      ensures View() == AfterDelete(old(View()), viewer, id, expected, now)
      ensures error == DeleteError(old(View()), viewer, id, expected)
    {
      if expected <= 0 {
        return Some(Invalid);
      }
      if !Accessible(Tables(posts, documents, sources), viewer, id) {
        return Some(NotFound);
      }
      if documents[id].createdBy != viewer.userId {
        return Some(Forbidden);
      }
      if documents[id].revision != expected {
        return Some(RevisionConflict);
      }
      documents := documents[id := documents[id].(deleted := true, updateAt := now, revision := documents[id].revision + 1)];
      return None;
    }
  }
}
