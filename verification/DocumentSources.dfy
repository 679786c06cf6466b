/** Why the staleness query and the change token agree on one document and one table of posts. */
module DocumentSources {
  import opened Wrappers
  import opened Ordering
  import opened Counting
  import opened SourceStream
  import opened Documents

  /** Replies belong to a root that exists, and everything fits a database row. */
  ghost predicate PostsOk(posts: map<string, Post>) {
    forall id {:trigger posts[id]} | id in posts ::
      && id != "" && StorablePost(SourceOf(id, posts[id]))
      && (posts[id].rootId != "" ==> posts[id].rootId in posts && posts[posts[id].rootId].rootId == "")
  }

  /** `w` was once the complete thread: its fixed columns are still those of the post table. */
  ghost predicate CaptureFits(posts: map<string, Post>, thread: string, channel: string, w: seq<SourcePost>) {
    && w != [] && !TooLarge(w) && w[0].id == thread && w[0].rootId == ""
    && Ascending(ThreadOrder(thread), w)
    && forall i | 0 <= i < |w| :: CapturedPostOk(posts, thread, channel, w[i])
  }

  predicate CapturedPostOk(posts: map<string, Post>, thread: string, channel: string, p: SourcePost) {
    && StorablePost(p) && p.channelId == channel && (p.id == thread || p.rootId == thread)
    && p.id in posts && posts[p.id].rootId == p.rootId && posts[p.id].createAt == p.createAt
  }

  lemma CapturedIdsDistinct(posts: map<string, Post>, thread: string, channel: string, w: seq<SourcePost>)
    requires CaptureFits(posts, thread, channel, w)
    ensures forall i, j | 0 <= i < j < |w| :: w[i].id != w[j].id
  {
    forall i, j | 0 <= i < j < |w| ensures w[i].id != w[j].id {
      assert ThreadOrder(thread)(w[i], w[j]);
      assert CapturedPostOk(posts, thread, channel, w[i]) && CapturedPostOk(posts, thread, channel, w[j]);
      TextLessTotal(w[i].id, w[i].id);
    }
  }

  function Ids(w: seq<SourcePost>): set<string> {
    set i | 0 <= i < |w| :: w[i].id
  }

  lemma {:induction false} IdCount(w: seq<SourcePost>)
    requires forall i, j | 0 <= i < j < |w| :: w[i].id != w[j].id
    ensures |Ids(w)| == |w|
  {
    if w != [] {
      var last := |w| - 1;
      IdCount(w[..last]);
      IdsSnoc(w);
      assert w[last].id !in Ids(w[..last]);
    }
  }

  lemma {:induction false} CaptureKeys(md5: string -> string, w: seq<SourcePost>)
    ensures Capture(md5, w).Keys == Ids(w)
  {
    if w != [] {
      var last := |w| - 1;
      CaptureKeys(md5, w[..last]);
      IdsSnoc(w);
    }
  }

  lemma IdsSnoc(w: seq<SourcePost>)
    requires w != []
    ensures Ids(w) == Ids(w[..|w| - 1]) + {w[|w| - 1].id}
  {
    var last := |w| - 1;
    forall i | 0 <= i < last ensures w[i].id in Ids(w[..last]) {
      assert w[..last][i] == w[i];
    }
  }

  /** The source row of a post holds its position and its digest. */
  lemma {:induction false} CaptureAt(md5: string -> string, w: seq<SourcePost>, i: nat)
    requires i < |w| && forall i, j | 0 <= i < j < |w| :: w[i].id != w[j].id
    ensures w[i].id in Capture(md5, w) && Capture(md5, w)[w[i].id] == Captured(i, md5(w[i].message))
  {
    var last := |w| - 1;
    if i < last {
      CaptureAt(md5, w[..last], i);
      assert w[i].id != w[last].id;
    }
  }

  function RowsOf(posts: map<string, Post>, ids: set<string>): set<SourcePost>
    requires ids <= posts.Keys
  {
    set id | id in ids :: SourceOf(id, posts[id])
  }

  lemma {:induction false} RowCount(posts: map<string, Post>, ids: set<string>)
    requires ids <= posts.Keys
    ensures |RowsOf(posts, ids)| == |ids|
    decreases |ids|
  {
    if ids != {} {
      var id :| id in ids;
      RowCount(posts, ids - {id});
      assert RowsOf(posts, ids) == RowsOf(posts, ids - {id}) + {SourceOf(id, posts[id])};
      assert SourceOf(id, posts[id]) !in RowsOf(posts, ids - {id});
    }
  }

  lemma ThreadCount(posts: map<string, Post>, thread: string, channel: string)
    ensures |ThreadRows(posts, thread, channel)| == |ThreadIds(posts, thread, channel)|
  {
    RowCount(posts, ThreadIds(posts, thread, channel));
    assert ThreadRows(posts, thread, channel) == RowsOf(posts, ThreadIds(posts, thread, channel));
  }

  // ------------------------------------------------------------------ resolving captures a fitting list

  lemma ResolvedFits(dg: Digests, posts: map<string, Post>, viewer: Viewer, postId: string)
    requires PostsOk(posts) && Resolve(dg, posts, viewer, postId).Ok?
    ensures var b := Resolve(dg, posts, viewer, postId).value;
            && CaptureFits(posts, b.threadId, b.channelId, b.posts)
            && b.cursor == Revision(dg.sha, b.posts)
            && b.threadId == CanonicalRoot(posts, postId)
            && b.channelId in viewer.channels && b.teamId == viewer.channels[b.channelId]
  {
    var b := Resolve(dg, posts, viewer, postId).value;
    var w := b.posts;
    assert posts[postId] == posts[postId];
    forall i | 0 <= i < |w| ensures CapturedPostOk(posts, b.threadId, b.channelId, w[i]) {
      assert w[i] in ThreadRows(posts, b.threadId, b.channelId);
    }
    assert CapturedPostOk(posts, b.threadId, b.channelId, w[0]);
    assert posts[w[0].id].rootId == "";
  }

  // ------------------------------------------------------------------ the two directions

  /** If the query reports no change, every captured post is in the live thread as it was. */
  lemma CapturedIsLive(md5: string -> string, posts: map<string, Post>, d: Document, w: seq<SourcePost>, i: nat)
    requires CaptureFits(posts, d.threadId, d.channelId, w) && i < |w|
    requires !Stale(md5, posts, d, Capture(md5, w))
    requires w[i].id in posts && (md5(w[i].message) == md5(posts[w[i].id].message) ==> w[i].message == posts[w[i].id].message)
    ensures w[i].id in ThreadIds(posts, d.threadId, d.channelId) && w[i] == SourceOf(w[i].id, posts[w[i].id])
  {
    CapturedIdsDistinct(posts, d.threadId, d.channelId, w);
    CaptureAt(md5, w, i);
    assert CapturedPostOk(posts, d.threadId, d.channelId, w[i]);
    assert !SourceBroken(md5, posts, d, w[i].id, Capture(md5, w)[w[i].id]);
  }

  /** A captured list that is live and as long as the thread is the whole thread: subset and equal count. */
  lemma LiveCaptureIsThread(posts: map<string, Post>, thread: string, channel: string, w: seq<SourcePost>)
    requires CaptureFits(posts, thread, channel, w) && |ThreadIds(posts, thread, channel)| == |w|
    requires forall i | 0 <= i < |w| :: w[i].id in ThreadIds(posts, thread, channel) && w[i] == SourceOf(w[i].id, posts[w[i].id])
    ensures Listing(posts, thread, channel) == w
  {
    var rows := ThreadRows(posts, thread, channel);
    CapturedIdsDistinct(posts, thread, channel, w);
    IdCount(w);
    FullSubset(Ids(w), ThreadIds(posts, thread, channel));
    forall x | x in rows ensures x in w {
      assert x.id in Ids(w);
      var i :| 0 <= i < |w| && w[i].id == x.id;
    }
    assert Elements(w) == rows;
    ThreadOrderTotal(thread, rows);
    ListingIsSorted(ThreadOrder(thread), w, rows);
  }

  /** If the query reports no change, the live thread is exactly the captured list. */
  lemma FreshThreadIsCapture(md5: string -> string, posts: map<string, Post>, d: Document, w: seq<SourcePost>)
    requires CaptureFits(posts, d.threadId, d.channelId, w)
    requires !Stale(md5, posts, d, Capture(md5, w))
    requires forall i | 0 <= i < |w| && w[i].id in posts ::
               md5(w[i].message) == md5(posts[w[i].id].message) ==> w[i].message == posts[w[i].id].message
    ensures Listing(posts, d.threadId, d.channelId) == w
  {
    forall i | 0 <= i < |w|
      ensures w[i].id in ThreadIds(posts, d.threadId, d.channelId) && w[i] == SourceOf(w[i].id, posts[w[i].id])
    {
      assert CapturedPostOk(posts, d.threadId, d.channelId, w[i]);
      CapturedIsLive(md5, posts, d, w, i);
    }
    CapturedIdsDistinct(posts, d.threadId, d.channelId, w);
    CaptureKeys(md5, w);
    IdCount(w);
    LiveCaptureIsThread(posts, d.threadId, d.channelId, w);
  }

  /** If the live thread is the captured list, the query reports no change. */
  lemma CaptureIsFresh(md5: string -> string, posts: map<string, Post>, d: Document, w: seq<SourcePost>)
    requires CaptureFits(posts, d.threadId, d.channelId, w)
    requires Listing(posts, d.threadId, d.channelId) == w
    ensures !Stale(md5, posts, d, Capture(md5, w))
  {
    var captured := Capture(md5, w);
    CapturedIdsDistinct(posts, d.threadId, d.channelId, w);
    CaptureKeys(md5, w);
    IdCount(w);
    ThreadCount(posts, d.threadId, d.channelId);
    forall i | 0 <= i < |w| ensures !SourceBroken(md5, posts, d, w[i].id, captured[w[i].id]) {
      CaptureAt(md5, w, i);
      assert w[i] in ThreadRows(posts, d.threadId, d.channelId);
      assert CapturedPostOk(posts, d.threadId, d.channelId, w[i]);
    }
    assert w[0] in ThreadRows(posts, d.threadId, d.channelId);
    forall id | id in captured ensures !SourceBroken(md5, posts, d, id, captured[id]) {
      assert id in Ids(w);
      var i :| 0 <= i < |w| && w[i].id == id;
    }
  }

  lemma ListingStorable(posts: map<string, Post>, thread: string, channel: string)
    requires PostsOk(posts)
    ensures forall i | 0 <= i < |Listing(posts, thread, channel)| :: StorablePost(Listing(posts, thread, channel)[i])
  {
    var l := Listing(posts, thread, channel);
    forall i | 0 <= i < |l| ensures StorablePost(l[i]) {
      assert l[i] in ThreadRows(posts, thread, channel);
    }
  }

  /** No digest collision between what a document captured and what its thread holds now. */
  ghost predicate NoCollision(dg: Digests, posts: map<string, Post>, thread: string, w: seq<SourcePost>) {
    && (forall i | 0 <= i < |w| && w[i].id in posts ::
          dg.md5(w[i].message) == dg.md5(posts[w[i].id].message) ==> w[i].message == posts[w[i].id].message)
    && (thread in posts ==>
          var l := Listing(posts, thread, posts[thread].channelId);
          Revision(dg.sha, w) == Revision(dg.sha, l) ==> Stream(w) == Stream(l))
  }

  /** The token of the live thread equals the stored cursor exactly when the query reports no change. */
  lemma TokenMatchesQuery(dg: Digests, posts: map<string, Post>, d: Document, w: seq<SourcePost>, viewer: Viewer)
    requires PostsOk(posts) && CaptureFits(posts, d.threadId, d.channelId, w)
    requires d.cursor == Revision(dg.sha, w) && NoCollision(dg, posts, d.threadId, w)
    ensures var now := Resolve(dg, posts, viewer, d.threadId);
            (now.Ok? && now.value.cursor == d.cursor) <==> (!Stale(dg.md5, posts, d, Capture(dg.md5, w)) && d.channelId in viewer.channels)
  {
    assert CapturedPostOk(posts, d.threadId, d.channelId, w[0]);
    var channel := posts[d.threadId].channelId;
    var l := Listing(posts, d.threadId, channel);
    var now := Resolve(dg, posts, viewer, d.threadId);
    if now.Ok? && now.value.cursor == d.cursor {
      ListingStorable(posts, d.threadId, channel);
      forall i | 0 <= i < |w| ensures StorablePost(w[i]) {
        assert CapturedPostOk(posts, d.threadId, d.channelId, w[i]);
      }
      StreamInjective(w, l);
      assert l[0] in ThreadRows(posts, d.threadId, channel);
      CaptureIsFresh(dg.md5, posts, d, w);
    }
    if !Stale(dg.md5, posts, d, Capture(dg.md5, w)) && d.channelId in viewer.channels {
      forall i | 0 <= i < |w| ensures w[i].id in posts {
        assert CapturedPostOk(posts, d.threadId, d.channelId, w[i]);
      }
      FreshThreadIsCapture(dg.md5, posts, d, w);
    }
  }
}
