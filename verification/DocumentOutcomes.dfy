/** What documents hold and which requests succeed, said in plain columns and numbers of the tables. */
module DocumentOutcomes {
  import opened Wrappers
  import opened Ordering
  import opened SourceStream
  import opened Documents
  import opened DocumentSources
  import opened DocumentRuns

  // ------------------------------------------------------------------ what a document holds after any run

  /** What its creator last put into a document. */
  datatype Content = Content(title: string, body: string, cursor: int, updateAt: int, deleted: bool)

  /**
   * Read off the requests and their answers alone: the creation gives the content, every successful patch replaces the
   * parts it names, a successful deletion marks it.
   */
  ghost function Given(dg: Digests, steps: seq<Step>, id: string): Content {
    if steps == [] then Content("", "", 0, 0, false)
    else
      var s, step := Exec(dg, Empty, steps[..|steps| - 1]), steps[|steps| - 1];
      var before := Given(dg, steps[..|steps| - 1], id);
      match step
      case CreateDoc(viewer, c, freshId, at) =>
        if freshId == id && id !in s.t.documents then Content(c.title, c.body, c.cursor, at, false) else before
      case PatchDoc(viewer, i, p, at) =>
        if i == id && PatchError(dg, s.t, viewer, id, p).None? then
          Content(if p.title.Some? then p.title.value else before.title,
                  if p.body.Some? then p.body.value else before.body,
                  if p.cursor.Some? then p.cursor.value else before.cursor, at, before.deleted)
        else before
      case DeleteDoc(viewer, i, expected, at) =>
        if i == id && DeleteError(s.t, viewer, id, expected).None? then before.(updateAt := at, deleted := true) else before
      case _ => before
  }

  predicate Holds(d: Document, c: Content) {
    d.title == c.title && d.body == c.body && d.cursor == c.cursor && d.updateAt == c.updateAt && d.deleted == c.deleted
  }

  /** A document that a step brings into being is new, and holds what its creation gave. */
  lemma StepMakesDocument(dg: Digests, s: State, step: Step, id: string)
    requires id !in s.t.documents && id in Apply(dg, s, step).t.documents
    ensures step.CreateDoc? && step.freshId == id
    ensures Holds(Apply(dg, s, step).t.documents[id], Content(step.c.title, step.c.body, step.c.cursor, step.at, false))
  {
  }

  lemma StepWritesDocument(dg: Digests, s: State, step: Step, id: string)
    requires id in s.t.documents
    ensures id in Apply(dg, s, step).t.documents
    ensures var d, e := s.t.documents[id], Apply(dg, s, step).t.documents[id];
            match step
            case PatchDoc(viewer, i, p, at) =>
              if i == id && PatchError(dg, s.t, viewer, id, p).None? then
                && e.title == (if p.title.Some? then p.title.value else d.title)
                && e.body == (if p.body.Some? then p.body.value else d.body)
                && e.cursor == (if p.cursor.Some? then p.cursor.value else d.cursor)
                && e.updateAt == at && e.deleted == d.deleted && e.revision == d.revision + 1
              else e == d
            case DeleteDoc(viewer, i, expected, at) =>
              if i == id && DeleteError(s.t, viewer, id, expected).None?
              then e == d.(deleted := true, updateAt := at, revision := d.revision + 1) else e == d
            case _ => e == d
  {
  }

  /** Over every run, a document holds the title, body and cursor last given to it. */
  lemma {:induction false} DocumentHoldsWhatWasGiven(dg: Digests, steps: seq<Step>, id: string)
    requires id in Exec(dg, Empty, steps).t.documents
    ensures Holds(Exec(dg, Empty, steps).t.documents[id], Given(dg, steps, id))
  {
    if steps != [] {
      var s := Exec(dg, Empty, steps[..|steps| - 1]);
      if id in s.t.documents {
        DocumentHoldsWhatWasGiven(dg, steps[..|steps| - 1], id);
        StepWritesDocument(dg, s, steps[|steps| - 1], id);
      } else {
        StepMakesDocument(dg, s, steps[|steps| - 1], id);
      }
    }
  }

  // ------------------------------------------------------------------ resolving a source

  /** The live posts of a thread in a channel: its root and its replies. */
  function LivePosts(posts: map<string, Post>, root: string, channel: string): set<string> {
    set id | id in posts && (id == root || posts[id].rootId == root) && posts[id].channelId == channel && !posts[id].deleted
  }

  /** The caller may read the channel of a live post. */
  predicate Readable(posts: map<string, Post>, viewer: Viewer, postId: string) {
    postId in posts && !posts[postId].deleted && posts[postId].channelId in viewer.channels
  }

  function RootOf(posts: map<string, Post>, postId: string): string {
    if postId in posts && posts[postId].rootId != "" then posts[postId].rootId else postId
  }

  /** The listing of a thread holds its live posts as they are, the root first and the replies by time and id. */
  lemma ListingOutcome(posts: map<string, Post>, root: string, channel: string, id: string, i: nat, j: nat)
    ensures var l := Listing(posts, root, channel);
            && |l| == |LivePosts(posts, root, channel)|
            && (id in LivePosts(posts, root, channel) <==> exists k :: 0 <= k < |l| && l[k].id == id)
            && (i < |l| ==> l[i].id in posts && l[i].message == posts[l[i].id].message && l[i].createAt == posts[l[i].id].createAt
                            && l[i].channelId == posts[l[i].id].channelId && l[i].rootId == posts[l[i].id].rootId)
            && (i < j < |l| ==> l[j].id != root)
            && (i < j < |l| && l[i].id != root ==>
                  l[i].createAt < l[j].createAt || (l[i].createAt == l[j].createAt && TextLess(l[i].id, l[j].id)))
            && (root in LivePosts(posts, root, channel) <==> l != [] && l[0].id == root)
  {
    var l := Listing(posts, root, channel);
    ThreadCount(posts, root, channel);
    assert LivePosts(posts, root, channel) == ThreadIds(posts, root, channel);
    forall k | 0 <= k < |l| ensures l[k] in ThreadRows(posts, root, channel) {
    }
    if id in LivePosts(posts, root, channel) {
      assert SourceOf(id, posts[id]) in Elements(l);
    }
    if root in LivePosts(posts, root, channel) {
      assert SourceOf(root, posts[root]) in Elements(l);
      var k :| 0 <= k < |l| && l[k] == SourceOf(root, posts[root]);
      assert !ThreadOrder(root)(l[0], l[k]);
    }
    if i < j < |l| { assert ThreadOrder(root)(l[i], l[j]); }
  }

  /**
   * A source resolves exactly if the caller may read the post, the root of its thread is live in the same channel, and
   * the live thread has at most 200 posts and 120000 runes. It is that whole thread.
   */
  lemma ResolveOutcome(dg: Digests, posts: map<string, Post>, viewer: Viewer, postId: string)
    ensures var r := Resolve(dg, posts, viewer, postId);
            if !Readable(posts, viewer, postId) then r == Err(NotFound)
            else
              var root, channel := RootOf(posts, postId), posts[postId].channelId;
              var l := Listing(posts, root, channel);
              && (r == Err(SourceTooLarge) <==> |LivePosts(posts, root, channel)| > 200 || TotalRunes(l) > 120_000)
              && (r.Ok? <==> |LivePosts(posts, root, channel)| <= 200 && TotalRunes(l) <= 120_000
                             && root in LivePosts(posts, root, channel))
              && (r.Err? ==> r == Err(SourceTooLarge) || r == Err(NotFound))
              && (r.Ok? ==> r.value == Bundle(viewer.channels[channel], channel, root, Revision(dg.sha, l), l))
  {
    if Readable(posts, viewer, postId) {
      ListingOutcome(posts, RootOf(posts, postId), posts[postId].channelId, postId, 0, 0);
    }
  }

  /** The runes of a text are those of its parts, and a byte counts exactly if it does not continue a character. */
  lemma {:induction false} RunesAdd(a: string, b: string, c: char)
    ensures Runes(a + b) == Runes(a) + Runes(b)
    ensures Runes([c]) == if c as int < 128 || c as int >= 192 then 1 else 0
  {
    assert [c][1..] == "";
    if a == "" {
      assert a + b == b;
    } else {
      RunesAdd(a[1..], b, c);
      assert (a + b)[0] == a[0] && (a + b)[1..] == a[1..] + b;
    }
  }

  /** The size of a thread is the sum over its posts, in whatever parts it is added up. */
  lemma {:induction false} TotalRunesAdds(a: seq<SourcePost>, b: seq<SourcePost>, p: SourcePost)
    ensures TotalRunes(a + b) == TotalRunes(a) + TotalRunes(b)
    ensures TotalRunes([p]) == Runes(p.message)
    decreases |b|
  {
    assert [p][..0] == [];
    if b == [] {
      assert a + b == a;
    } else {
      var last := |b| - 1;
      TotalRunesAdds(a, b[..last], p);
      assert (a + b)[..|a + b| - 1] == a + b[..last];
    }
  }

  // ------------------------------------------------------------------ creation

  /** Some document of the creator has the key. */
  predicate KeyTaken(t: Tables, userId: string, key: string) {
    exists id :: id in t.documents && t.documents[id].createdBy == userId && t.documents[id].key == key
  }

  /** Exactly when a creation succeeds, is answered from an earlier one, or fails, once its source has resolved. */
  lemma CreateAnswers(dg: Digests, t: Tables, viewer: Viewer, c: Creation, freshId: string)
    requires KeysUnique(t.documents)
    ensures var r := CreateOutcome(dg, t, viewer, c, freshId); var source := Resolve(dg, t.posts, viewer, c.postId);
            && (r == Err(Invalid) <==> c.cursor <= 0)
            && (c.cursor > 0 && source.Err? ==> r == Err(source.error))
            && (c.cursor > 0 && source.Ok? ==>
                  var b := source.value;
                  var asked := Fingerprint(dg.sha, Request(c.title, c.body, viewer.userId, b.teamId, b.channelId, b.threadId, c.cursor));
                  && (r == Ok(Created(freshId, false)) <==> !KeyTaken(t, viewer.userId, c.key) && b.cursor == c.cursor)
                  && (r == Err(SourceChanged) <==> !KeyTaken(t, viewer.userId, c.key) && b.cursor != c.cursor)
                  && (forall id | id in t.documents && t.documents[id].createdBy == viewer.userId && t.documents[id].key == c.key ::
                        r == if !t.documents[id].deleted && t.documents[id].fingerprint == asked
                             then Ok(Created(id, true)) else Err(IdempotencyConflict)))
  {
    if KeyTaken(t, viewer.userId, c.key) {
      var id :| id in t.documents && t.documents[id].createdBy == viewer.userId && t.documents[id].key == c.key;
      assert id in Existing(t, viewer.userId, c.key);
    }
  }

  /** The columns of a new document, its source rows, and nothing else changed. */
  lemma CreateEffect(dg: Digests, t: Tables, viewer: Viewer, c: Creation, freshId: string, now: int)
    requires freshId !in t.documents
    ensures var r, t' := CreateOutcome(dg, t, viewer, c, freshId), AfterCreate(dg, t, viewer, c, freshId, now);
            var source := Resolve(dg, t.posts, viewer, c.postId);
            if r == Ok(Created(freshId, false)) then
              && source.Ok? && freshId in t'.documents && freshId in t'.sources
              && t' == t.(documents := t.documents[freshId := t'.documents[freshId]], sources := t.sources[freshId := t'.sources[freshId]])
              && var d, b := t'.documents[freshId], source.value;
                 && d.title == c.title && d.body == c.body && d.createdBy == viewer.userId && d.key == c.key && d.cursor == c.cursor
                 && d.teamId == b.teamId && d.channelId == b.channelId && d.threadId == b.threadId
                 && d.fingerprint == Fingerprint(dg.sha, Request(c.title, c.body, viewer.userId, b.teamId, b.channelId, b.threadId, c.cursor))
                 && d.revision == 1 && d.createAt == now && d.updateAt == now && !d.deleted
                 && t'.sources[freshId] == Capture(dg.md5, b.posts)
            else t' == t
  {
    if r :| r in Existing(t, viewer.userId, c.key) { assert r in t.documents; }
  }

  // ------------------------------------------------------------------ patches and deletions

  /** The document exists, is not deleted, and its channel is readable in its team. */
  predicate Visible(t: Tables, viewer: Viewer, id: string) {
    && id in t.documents && !t.documents[id].deleted
    && t.documents[id].channelId in viewer.channels && viewer.channels[t.documents[id].channelId] == t.documents[id].teamId
  }

  /** Its creator sees it and expects its present revision. */
  predicate MayWrite(t: Tables, viewer: Viewer, id: string, expected: int) {
    Visible(t, viewer, id) && t.documents[id].createdBy == viewer.userId && t.documents[id].revision == expected
  }

  /** A patch names a part and a positive revision; a new cursor is positive and comes with a body. */
  predicate WellFormed(p: Patch) {
    && p.expected > 0 && (p.title.Some? || p.body.Some? || p.cursor.Some?)
    && (p.cursor.Some? ==> p.cursor.value > 0 && p.body.Some?)
  }

  /** The thread resolves where the document was made from, at the offered cursor. */
  ghost predicate SourceAt(dg: Digests, posts: map<string, Post>, viewer: Viewer, d: Document, cursor: int) {
    var now := Resolve(dg, posts, viewer, d.threadId);
    && now.Ok? && now.value.teamId == d.teamId && now.value.channelId == d.channelId && now.value.threadId == d.threadId
    && now.value.cursor == cursor
  }

  /** A refresh is accepted exactly from the place the document was made from, at the offered cursor. */
  lemma RefreshAnswers(dg: Digests, posts: map<string, Post>, viewer: Viewer, d: Document, cursor: int)
    ensures var r, now := Refreshed(dg, posts, viewer, d, cursor), Resolve(dg, posts, viewer, d.threadId);
            && (r.Ok? <==> SourceAt(dg, posts, viewer, d, cursor))
            && (r.Ok? ==> r == now)
            && (now.Err? ==> r == now)
            && (now.Ok? && r.Err? ==> r == Err(SourceChanged))
  {
  }

  /** Exactly when a patch succeeds, and exactly when it is refused for what reason. */
  lemma PatchAnswers(dg: Digests, t: Tables, viewer: Viewer, id: string, p: Patch)
    ensures var e := PatchError(dg, t, viewer, id, p);
            && (e == Some(Invalid) <==> !WellFormed(p))
            && (e == None <==> WellFormed(p) && MayWrite(t, viewer, id, p.expected)
                               && (p.cursor.Some? ==> SourceAt(dg, t.posts, viewer, t.documents[id], p.cursor.value)))
            && (WellFormed(p) && !Visible(t, viewer, id) ==> e == Some(NotFound))
            && (e == Some(Forbidden) <==> WellFormed(p) && Visible(t, viewer, id) && t.documents[id].createdBy != viewer.userId)
            && (e == Some(RevisionConflict) <==> WellFormed(p) && Visible(t, viewer, id)
                                                 && t.documents[id].createdBy == viewer.userId && t.documents[id].revision != p.expected)
            && (WellFormed(p) && MayWrite(t, viewer, id, p.expected) && p.cursor.Some? ==>
                  var now := Resolve(dg, t.posts, viewer, t.documents[id].threadId);
                  && (now.Err? ==> e == Some(now.error))
                  && (e == Some(SourceChanged) <==> now.Ok? && !SourceAt(dg, t.posts, viewer, t.documents[id], p.cursor.value)))
  {
  }

  /** A patch writes one document, and its source rows exactly when it brings a cursor; a refused one writes nothing. */
  lemma PatchEffect(dg: Digests, t: Tables, viewer: Viewer, id: string, p: Patch, now: int)
    ensures var t' := AfterPatch(dg, t, viewer, id, p, now);
            && (PatchError(dg, t, viewer, id, p).Some? ==> t' == t)
            && (PatchError(dg, t, viewer, id, p).None? ==>
                  && id in t.documents && id in t'.documents && t'.posts == t.posts
                  && t'.documents == t.documents[id := t'.documents[id]]
                  && t'.documents[id] == t.documents[id].(
                       title := if p.title.Some? then p.title.value else t.documents[id].title,
                       body := if p.body.Some? then p.body.value else t.documents[id].body,
                       cursor := if p.cursor.Some? then p.cursor.value else t.documents[id].cursor,
                       revision := t.documents[id].revision + 1, updateAt := now)
                  && (p.cursor.None? ==> t'.sources == t.sources)
                  && (p.cursor.Some? ==>
                        var source := Resolve(dg, t.posts, viewer, t.documents[id].threadId);
                        source.Ok? && t'.sources == t.sources[id := Capture(dg.md5, source.value.posts)]))
  {
  }

  lemma DeleteAnswers(t: Tables, viewer: Viewer, id: string, expected: int, now: int)
    ensures var e := DeleteError(t, viewer, id, expected);
            && (e == Some(Invalid) <==> expected <= 0)
            && (e == None <==> expected > 0 && MayWrite(t, viewer, id, expected))
            && (e == Some(NotFound) <==> expected > 0 && !Visible(t, viewer, id))
            && (e == Some(Forbidden) <==> expected > 0 && Visible(t, viewer, id) && t.documents[id].createdBy != viewer.userId)
            && (e.None? ==> AfterDelete(t, viewer, id, expected, now) == t.(documents := t.documents[id :=
                              t.documents[id].(deleted := true, updateAt := now, revision := t.documents[id].revision + 1)]))
            && (e.Some? ==> AfterDelete(t, viewer, id, expected, now) == t)
  {
  }

  /** A successful write makes the revision its writer expected out of date for everyone else. */
  lemma SecondWriterConflicts(dg: Digests, t: Tables, viewer: Viewer, id: string, p: Patch, now: int, other: Patch)
    requires PatchError(dg, t, viewer, id, p).None? && WellFormed(other) && other.expected == p.expected
    ensures PatchError(dg, AfterPatch(dg, t, viewer, id, p, now), viewer, id, other) == Some(RevisionConflict)
    ensures DeleteError(AfterPatch(dg, t, viewer, id, p, now), viewer, id, p.expected) == Some(RevisionConflict)
    ensures DeleteError(AfterPatch(dg, t, viewer, id, p, now), viewer, id, p.expected + 1) == None
  {
  }

  /** A deleted document is gone for every later request. */
  lemma DeletedIsGone(dg: Digests, t: Tables, viewer: Viewer, id: string, expected: int, now: int, reader: Viewer, p: Patch)
    requires DeleteError(t, viewer, id, expected).None? && WellFormed(p)
    ensures var t' := AfterDelete(t, viewer, id, expected, now);
            && !Accessible(t', reader, id) && PatchError(dg, t', reader, id, p) == Some(NotFound)
            && (forall other | other in t.documents && other != id :: Accessible(t', reader, other) <==> Accessible(t, reader, other))
  {
  }

  // ------------------------------------------------------------------ when a document is stale

  /** A captured post is still there, live, in its place, with the text it had. */
  predicate Intact(md5: string -> string, posts: map<string, Post>, d: Document, id: string, digest: string) {
    && id in posts && !posts[id].deleted && posts[id].channelId == d.channelId && md5(posts[id].message) == digest
    && (posts[id].rootId == d.threadId || (id == d.threadId && posts[id].rootId == ""))
  }

  /** The query reports no change exactly if the root is live, every captured post is intact, and no post was added. */
  lemma FreshExactlyWhen(md5: string -> string, posts: map<string, Post>, d: Document, captured: map<string, Captured>)
    ensures !Stale(md5, posts, d, captured) <==>
              && d.threadId in posts && !posts[d.threadId].deleted && posts[d.threadId].rootId == ""
              && posts[d.threadId].channelId == d.channelId
              && (forall id | id in captured :: Intact(md5, posts, d, id, captured[id].digest))
              && |LivePosts(posts, d.threadId, d.channelId)| == |captured|
  {
    assert LivePosts(posts, d.threadId, d.channelId) == ThreadIds(posts, d.threadId, d.channelId);
    forall id | id in captured ensures SourceBroken(md5, posts, d, id, captured[id]) <==> !Intact(md5, posts, d, id, captured[id].digest) {
    }
  }

  // ------------------------------------------------------------------ posts

  /** What a step of the post service does to a post that exists, column by column. */
  lemma PostStepOutcome(posts: map<string, Post>, step: Step, id: string)
    requires id in posts
    ensures id in AfterPostStep(posts, step)
    ensures var p, q, live := posts[id], AfterPostStep(posts, step)[id], !posts[id].deleted;
            match step
            case EditPost(i, message, at) =>
              q == if i == id && live && |message| < TWO_63 then p.(message := message, updateAt := at) else p
            case TouchPost(i, at) => q == if i == id then p.(updateAt := at) else p
            case RemovePost(i, at) => q == if i == id && live then p.(deleted := true, updateAt := at) else p
            case RestorePost(i, at) => q == if i == id && !live then p.(deleted := false, updateAt := at) else p
            case MoveThread(i, channel, at) =>
              var moves := i in posts && !posts[i].deleted && |channel| < TWO_63 && live && p.channelId != channel
                           && (id == RootOf(posts, i) || p.rootId == RootOf(posts, i));
              q == if moves then p.(channelId := channel, updateAt := at) else p
            case _ => q == p
  {
  }

  /** A post is added under a fresh id, as a root or under a live root of the same channel. */
  lemma AddedPost(posts: map<string, Post>, id: string, channel: string, rootId: string, message: string, at: int, other: string)
    ensures var after := AfterPostStep(posts, AddPost(id, channel, rootId, message, at));
            && (id in after && id !in posts ==>
                  && id != "" && after[id] == Post(channel, rootId, message, at, at, false)
                  && (rootId != "" ==> rootId in posts && posts[rootId].rootId == "" && !posts[rootId].deleted
                                       && posts[rootId].channelId == channel))
            && (other in posts ==> other in after && after[other] == posts[other])
            && (other in after && other !in posts ==> other == id)
  {
  }
}
