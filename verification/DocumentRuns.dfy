/** Every run of post changes and document transactions, with a record of what each document captured. */
module DocumentRuns {
  import opened Wrappers
  import opened Ordering
  import opened SourceStream
  import opened Documents
  import opened DocumentSources

  /** `captures` remembers, for each document, the posts its sources were last written from. */
  datatype State = State(t: Tables, captures: map<string, seq<SourcePost>>)

  const Empty: State := State(Tables(map[], map[], map[]), map[])

  datatype Step =
    | AddPost(id: string, channel: string, rootId: string, message: string, at: int)
    | EditPost(id: string, message: string, at: int)
    | TouchPost(id: string, at: int)
    | RemovePost(id: string, at: int)
    | RestorePost(id: string, at: int)
    | MoveThread(id: string, channel: string, at: int)
    | CreateDoc(viewer: Viewer, c: Creation, freshId: string, at: int)
    | PatchDoc(viewer: Viewer, id: string, p: Patch, at: int)
    | DeleteDoc(viewer: Viewer, id: string, expected: int, at: int)

  predicate LiveRoot(posts: map<string, Post>, rootId: string, channel: string) {
    rootId in posts && posts[rootId].channelId == channel && !posts[rootId].deleted && posts[rootId].rootId == ""
  }

  function Moved(posts: map<string, Post>, thread: string, channel: string, at: int): map<string, Post> {
    map id | id in posts ::
      if (id == thread || posts[id].rootId == thread) && posts[id].channelId != channel && !posts[id].deleted
      then posts[id].(channelId := channel, updateAt := at) else posts[id]
  }

  predicate LivePost(posts: map<string, Post>, id: string) {
    id in posts && !posts[id].deleted
  }

  /** The post service; a post is only changed in ways its own transactions allow. */
  function AfterPostStep(posts: map<string, Post>, step: Step): map<string, Post> {
    match step
    case AddPost(id, channel, rootId, message, at) =>
      var p := Post(channel, rootId, message, at, at, false);
      if id != "" && id !in posts && StorablePost(SourceOf(id, p)) && (rootId == "" || LiveRoot(posts, rootId, channel))
      then posts[id := p] else posts
    case EditPost(id, message, at) =>
      if LivePost(posts, id) && Storable(message) then posts[id := posts[id].(message := message, updateAt := at)] else posts
    case TouchPost(id, at) => if id in posts then posts[id := posts[id].(updateAt := at)] else posts
    case RemovePost(id, at) => if LivePost(posts, id) then posts[id := posts[id].(deleted := true, updateAt := at)] else posts
    case RestorePost(id, at) =>
      if id in posts && posts[id].deleted then posts[id := posts[id].(deleted := false, updateAt := at)] else posts
    case MoveThread(id, channel, at) =>
      if LivePost(posts, id) && Storable(channel) then Moved(posts, CanonicalRoot(posts, id), channel, at) else posts
    case CreateDoc(_, _, _, _) => posts
    case PatchDoc(_, _, _, _) => posts
    case DeleteDoc(_, _, _, _) => posts
  }

  ghost function ApplyCreate(dg: Digests, s: State, viewer: Viewer, c: Creation, freshId: string, at: int): State {
    if freshId in s.t.documents then s
    else
      var outcome := CreateOutcome(dg, s.t, viewer, c, freshId);
      State(AfterCreate(dg, s.t, viewer, c, freshId, at),
            if outcome.Ok? && !outcome.value.replayed
            then s.captures[freshId := Resolve(dg, s.t.posts, viewer, c.postId).value.posts] else s.captures)
  }

  ghost function ApplyPatch(dg: Digests, s: State, viewer: Viewer, id: string, p: Patch, at: int): State {
    State(AfterPatch(dg, s.t, viewer, id, p, at),
          if PatchError(dg, s.t, viewer, id, p).None? && p.cursor.Some?
          then s.captures[id := Refreshed(dg, s.t.posts, viewer, s.t.documents[id], p.cursor.value).value.posts] else s.captures)
  }

  ghost function Apply(dg: Digests, s: State, step: Step): State {
    match step
    case CreateDoc(viewer, c, freshId, at) => ApplyCreate(dg, s, viewer, c, freshId, at)
    case PatchDoc(viewer, id, p, at) => ApplyPatch(dg, s, viewer, id, p, at)
    case DeleteDoc(viewer, id, expected, at) => s.(t := AfterDelete(s.t, viewer, id, expected, at))
    case _ => s.(t := s.t.(posts := AfterPostStep(s.t.posts, step)))
  }

  ghost function Exec(dg: Digests, s: State, steps: seq<Step>): State {
    if steps == [] then s else Apply(dg, Exec(dg, s, steps[..|steps| - 1]), steps[|steps| - 1])
  }

  // ------------------------------------------------------------------ invariant

  /** The document's cursor and source rows were both taken from one complete, fitting read of its thread. */
  ghost predicate DocOk(dg: Digests, s: State, id: string)
    requires id in s.t.documents
  {
    var d := s.t.documents[id];
    && id in s.captures && id in s.t.sources
    && CaptureFits(s.t.posts, d.threadId, d.channelId, s.captures[id])
    && d.cursor == Revision(dg.sha, s.captures[id])
    && s.t.sources[id] == Capture(dg.md5, s.captures[id])
    && d.revision >= 1
  }

  ghost predicate Inv(dg: Digests, s: State) {
    && PostsOk(s.t.posts)
    && KeysUnique(s.t.documents)
    && forall id {:trigger DocOk(dg, s, id)} | id in s.t.documents :: DocOk(dg, s, id)
  }

  /** What no step changes about a post. */
  ghost predicate PostsGrow(before: map<string, Post>, after: map<string, Post>) {
    forall id {:trigger after[id]} {:trigger before[id]} | id in before ::
      id in after && after[id].rootId == before[id].rootId && after[id].createAt == before[id].createAt
  }

  lemma RewritePost(posts: map<string, Post>, id: string, p: Post)
    requires PostsOk(posts) && id in posts && StorablePost(SourceOf(id, p))
    requires p.rootId == posts[id].rootId && p.createAt == posts[id].createAt
    ensures PostsOk(posts[id := p]) && PostsGrow(posts, posts[id := p])
  {
    assert posts[id] == posts[id];
  }

  lemma InsertPost(posts: map<string, Post>, id: string, p: Post)
    requires PostsOk(posts) && id != "" && id !in posts && StorablePost(SourceOf(id, p))
    requires p.rootId == "" || LiveRoot(posts, p.rootId, p.channelId)
    ensures PostsOk(posts[id := p]) && PostsGrow(posts, posts[id := p])
  {
  }

  lemma MovePosts(posts: map<string, Post>, thread: string, channel: string, at: int)
    requires PostsOk(posts) && Storable(channel)
    ensures PostsOk(Moved(posts, thread, channel, at)) && PostsGrow(posts, Moved(posts, thread, channel, at))
  {
    var after := Moved(posts, thread, channel, at);
    forall id | id in after
      ensures id != "" && StorablePost(SourceOf(id, after[id]))
      ensures after[id].rootId != "" ==> after[id].rootId in after && after[after[id].rootId].rootId == ""
    {
      assert posts[id] == posts[id];
    }
  }

  lemma PostStepGrows(posts: map<string, Post>, step: Step)
    requires PostsOk(posts)
    ensures PostsOk(AfterPostStep(posts, step)) && PostsGrow(posts, AfterPostStep(posts, step))
  {
    var after := AfterPostStep(posts, step);
    if after != posts {
      match step
      case AddPost(id, channel, rootId, message, at) => InsertPost(posts, id, after[id]);
      case EditPost(id, message, at) => assert posts[id] == posts[id]; RewritePost(posts, id, after[id]);
      case TouchPost(id, at) => assert posts[id] == posts[id]; RewritePost(posts, id, after[id]);
      case RemovePost(id, at) => assert posts[id] == posts[id]; RewritePost(posts, id, after[id]);
      case RestorePost(id, at) => assert posts[id] == posts[id]; RewritePost(posts, id, after[id]);
      case MoveThread(id, channel, at) => MovePosts(posts, CanonicalRoot(posts, id), channel, at);
    }
  }

  lemma FitsAfterGrowth(before: map<string, Post>, after: map<string, Post>, thread: string, channel: string,
                        w: seq<SourcePost>)
    requires CaptureFits(before, thread, channel, w) && PostsGrow(before, after)
    ensures CaptureFits(after, thread, channel, w)
  {
    forall i | 0 <= i < |w| ensures CapturedPostOk(after, thread, channel, w[i]) {
      assert CapturedPostOk(before, thread, channel, w[i]);
      assert before[w[i].id] == before[w[i].id];
    }
  }

  lemma PostStepKeepsInv(dg: Digests, s: State, step: Step)
    requires Inv(dg, s)
    ensures Inv(dg, s.(t := s.t.(posts := AfterPostStep(s.t.posts, step))))
  {
    var s' := s.(t := s.t.(posts := AfterPostStep(s.t.posts, step)));
    PostStepGrows(s.t.posts, step);
    forall id | id in s'.t.documents ensures DocOk(dg, s', id) {
      assert DocOk(dg, s, id);
      FitsAfterGrowth(s.t.posts, s'.t.posts, s.t.documents[id].threadId, s.t.documents[id].channelId, s.captures[id]);
    }
  }

  /** One document row written, and its sources when `w` is given. */
  function Written(dg: Digests, s: State, id: string, d: Document, w: Option<seq<SourcePost>>): State {
    State(s.t.(documents := s.t.documents[id := d],
               sources := if w.Some? then s.t.sources[id := Capture(dg.md5, w.value)] else s.t.sources),
          if w.Some? then s.captures[id := w.value] else s.captures)
  }

  lemma WriteKeepsDocs(dg: Digests, s: State, id: string, d: Document, w: Option<seq<SourcePost>>)
    requires Inv(dg, s) && d.revision >= 1
    requires w.Some? ==> CaptureFits(s.t.posts, d.threadId, d.channelId, w.value) && d.cursor == Revision(dg.sha, w.value)
    requires w.None? ==> id in s.t.documents && d.threadId == s.t.documents[id].threadId
                         && d.channelId == s.t.documents[id].channelId && d.cursor == s.t.documents[id].cursor
    requires KeysUnique(s.t.documents[id := d])
    ensures Inv(dg, Written(dg, s, id, d, w))
  {
    var s' := Written(dg, s, id, d, w);
    forall i | i in s'.t.documents ensures DocOk(dg, s', i) {
      if i in s.t.documents { assert DocOk(dg, s, i); }
    }
  }

  lemma CreateKeepsInv(dg: Digests, s: State, viewer: Viewer, c: Creation, freshId: string, at: int)
    requires Inv(dg, s)
    ensures Inv(dg, ApplyCreate(dg, s, viewer, c, freshId, at))
  {
    if freshId !in s.t.documents {
      var outcome := CreateOutcome(dg, s.t, viewer, c, freshId);
      if outcome.Ok? && !outcome.value.replayed {
        var b := Resolve(dg, s.t.posts, viewer, c.postId).value;
        var d := NewDocument(dg, viewer, c, b, at);
        ResolvedFits(dg, s.t.posts, viewer, c.postId);
        FreshKeyKeepsUnique(s.t, freshId, d);
        WriteKeepsDocs(dg, s, freshId, d, Some(b.posts));
      }
    }
  }

  lemma RewriteKeepsUnique(documents: map<string, Document>, id: string, d: Document)
    requires KeysUnique(documents) && id in documents && d.createdBy == documents[id].createdBy && d.key == documents[id].key
    ensures KeysUnique(documents[id := d])
  {
  }

  lemma PatchKeepsInv(dg: Digests, s: State, viewer: Viewer, id: string, p: Patch, at: int)
    requires Inv(dg, s)
    ensures Inv(dg, ApplyPatch(dg, s, viewer, id, p, at))
  {
    if PatchError(dg, s.t, viewer, id, p).None? {
      var d := s.t.documents[id];
      assert DocOk(dg, s, id);
      RewriteKeepsUnique(s.t.documents, id, Patched(d, p, at));
      if p.cursor.Some? {
        RefreshedFits(dg, s.t.posts, viewer, d, p.cursor.value);
        WriteKeepsDocs(dg, s, id, Patched(d, p, at), Some(Refreshed(dg, s.t.posts, viewer, d, p.cursor.value).value.posts));
      } else {
        WriteKeepsDocs(dg, s, id, Patched(d, p, at), None);
      }
    }
  }

  lemma RefreshedFits(dg: Digests, posts: map<string, Post>, viewer: Viewer, d: Document, cursor: int)
    requires PostsOk(posts) && Refreshed(dg, posts, viewer, d, cursor).Ok?
    ensures var b := Refreshed(dg, posts, viewer, d, cursor).value;
            CaptureFits(posts, d.threadId, d.channelId, b.posts) && cursor == Revision(dg.sha, b.posts)
  {
    ResolvedFits(dg, posts, viewer, d.threadId);
  }

  lemma DeleteKeepsInv(dg: Digests, s: State, viewer: Viewer, id: string, expected: int, at: int)
    requires Inv(dg, s)
    ensures Inv(dg, s.(t := AfterDelete(s.t, viewer, id, expected, at)))
  {
    var t := AfterDelete(s.t, viewer, id, expected, at);
    if DeleteError(s.t, viewer, id, expected).None? {
      assert DocOk(dg, s, id);
      RewriteKeepsUnique(s.t.documents, id, t.documents[id]);
      WriteKeepsDocs(dg, s, id, t.documents[id], None);
      assert Written(dg, s, id, t.documents[id], None) == s.(t := t);
    } else {
      assert s.(t := t) == s;
    }
  }

  lemma StepKeepsInv(dg: Digests, s: State, step: Step)
    requires Inv(dg, s)
    ensures Inv(dg, Apply(dg, s, step))
  {
    match step
    case CreateDoc(viewer, c, freshId, at) => CreateKeepsInv(dg, s, viewer, c, freshId, at);
    case PatchDoc(viewer, id, p, at) => PatchKeepsInv(dg, s, viewer, id, p, at);
    case DeleteDoc(viewer, id, expected, at) => DeleteKeepsInv(dg, s, viewer, id, expected, at);
    case _ => PostStepKeepsInv(dg, s, step);
  }

  lemma {:induction false} ExecKeepsInv(dg: Digests, s: State, steps: seq<Step>)
    requires Inv(dg, s)
    ensures Inv(dg, Exec(dg, s, steps))
  {
    if steps != [] {
      ExecKeepsInv(dg, s, steps[..|steps| - 1]);
      StepKeepsInv(dg, Exec(dg, s, steps[..|steps| - 1]), steps[|steps| - 1]);
    }
  }

  // ------------------------------------------------------------------ the two change detectors

  /**
   * In every reachable state and for every document: re-reading the thread yields the stored token exactly
   * when the staleness query reports no change and the reader can read the document's channel.
   */
  lemma DetectorsAgree(dg: Digests, steps: seq<Step>, id: string, viewer: Viewer)
    requires id in Exec(dg, Empty, steps).t.documents
    requires var s := Exec(dg, Empty, steps);
      id in s.captures && NoCollision(dg, s.t.posts, s.t.documents[id].threadId, s.captures[id])
    ensures var t := Exec(dg, Empty, steps).t;
            var d := t.documents[id];
            var now := Resolve(dg, t.posts, viewer, d.threadId);
            id in t.sources &&
            ((now.Ok? && now.value.cursor == d.cursor) <==> (!Stale(dg.md5, t.posts, d, t.sources[id]) && d.channelId in viewer.channels))
  {
    ExecKeepsInv(dg, Empty, steps);
    var s := Exec(dg, Empty, steps);
    assert DocOk(dg, s, id);
    TokenMatchesQuery(dg, s.t.posts, s.t.documents[id], s.captures[id], viewer);
  }

  /** While its root is in place, a document's thread resolves in the document's channel. */
  lemma RootInPlace(dg: Digests, posts: map<string, Post>, d: Document, viewer: Viewer)
    requires Resolve(dg, posts, viewer, d.threadId).Ok? && !RootMissing(posts, d)
    ensures Resolve(dg, posts, viewer, d.threadId).value.channelId == d.channelId
    ensures Resolve(dg, posts, viewer, d.threadId).value.threadId == d.threadId
  {
  }

  /** A refresh that offers the stored token is accepted exactly when the document is not stale. */
  lemma RefreshAcceptsStoredToken(dg: Digests, s: State, id: string, viewer: Viewer)
    requires Inv(dg, s) && Accessible(s.t, viewer, id) && id in s.captures && id in s.t.sources
    requires NoCollision(dg, s.t.posts, s.t.documents[id].threadId, s.captures[id])
    ensures var d := s.t.documents[id];
            Refreshed(dg, s.t.posts, viewer, d, d.cursor).Ok? <==> !Stale(dg.md5, s.t.posts, d, s.t.sources[id])
  {
    var d := s.t.documents[id];
    assert DocOk(dg, s, id);
    TokenMatchesQuery(dg, s.t.posts, d, s.captures[id], viewer);
    var now := Resolve(dg, s.t.posts, viewer, d.threadId);
    if now.Ok? {
      ResolvedFits(dg, s.t.posts, viewer, d.threadId);
      assert now.value.cursor == d.cursor ==> now.value.channelId == d.channelId by {
        if now.value.cursor == d.cursor { RootInPlace(dg, s.t.posts, d, viewer); }
      }
    }
  }

  // ------------------------------------------------------------------ idempotent creation

  lemma OneDocumentPerKey(dg: Digests, steps: seq<Step>)
    ensures KeysUnique(Exec(dg, Empty, steps).t.documents)
  {
    ExecKeepsInv(dg, Empty, steps);
  }

  /** The columns that no step changes once a document exists; its revision and deletion only grow. */
  predicate DocKept(d: Document, e: Document) {
    && e.createdBy == d.createdBy && e.key == d.key && e.fingerprint == d.fingerprint
    && e.channelId == d.channelId && e.teamId == d.teamId && e.threadId == d.threadId
    && d.revision <= e.revision && (d.deleted ==> e.deleted)
  }

  lemma StepKeepsDocument(dg: Digests, s: State, step: Step, id: string)
    requires id in s.t.documents
    ensures id in Apply(dg, s, step).t.documents && DocKept(s.t.documents[id], Apply(dg, s, step).t.documents[id])
  {
  }

  lemma {:induction false} ExecKeepsDocument(dg: Digests, s: State, steps: seq<Step>, id: string)
    requires id in s.t.documents
    ensures id in Exec(dg, s, steps).t.documents && DocKept(s.t.documents[id], Exec(dg, s, steps).t.documents[id])
  {
    if steps != [] {
      ExecKeepsDocument(dg, s, steps[..|steps| - 1], id);
      StepKeepsDocument(dg, Exec(dg, s, steps[..|steps| - 1]), steps[|steps| - 1], id);
    }
  }

  lemma ApplyPosts(dg: Digests, s: State, step: Step)
    ensures Apply(dg, s, step).t.posts == AfterPostStep(s.t.posts, step)
  {
  }

  lemma GrowthComposes(a: map<string, Post>, b: map<string, Post>, c: map<string, Post>)
    requires PostsGrow(a, b) && PostsGrow(b, c)
    ensures PostsGrow(a, c)
  {
    forall id | id in a ensures id in c && c[id].rootId == a[id].rootId && c[id].createAt == a[id].createAt {
      assert a[id] == a[id] && b[id] == b[id];
    }
  }

  lemma {:induction false} ExecGrowsPosts(dg: Digests, s: State, steps: seq<Step>)
    requires Inv(dg, s)
    ensures PostsGrow(s.t.posts, Exec(dg, s, steps).t.posts)
  {
    if steps != [] {
      var before := steps[..|steps| - 1];
      ExecGrowsPosts(dg, s, before);
      ExecKeepsInv(dg, s, before);
      ApplyPosts(dg, Exec(dg, s, before), steps[|steps| - 1]);
      PostStepGrows(Exec(dg, s, before).t.posts, steps[|steps| - 1]);
      GrowthComposes(s.t.posts, Exec(dg, s, before).t.posts, Exec(dg, s, steps).t.posts);
    }
  }

  /** The source is still where the document was created from, as far as this caller can see. */
  ghost predicate SourceInPlace(dg: Digests, posts: map<string, Post>, viewer: Viewer, postId: string, d: Document) {
    var now := Resolve(dg, posts, viewer, postId);
    now.Ok? && now.value.channelId == d.channelId && now.value.teamId == d.teamId
  }

  /** Both requests fit in memory and are told apart by the digest. */
  ghost predicate NoFingerprintCollision(dg: Digests, r: Request, q: Request) {
    && StorableRequest(r) && StorableRequest(q)
    && (Fingerprint(dg.sha, r) == Fingerprint(dg.sha, q) ==> RequestStream(r) == RequestStream(q))
  }

  /** One retry against a table that still holds the original document. */
  lemma RetryOutcome(dg: Digests, t: Tables, viewer: Viewer, c: Creation, original: Request, id: string, freshId: string)
    requires KeysUnique(t.documents) && id in t.documents && c.cursor > 0
    requires var d := t.documents[id];
      && d.createdBy == viewer.userId && d.key == c.key && d.fingerprint == Fingerprint(dg.sha, original)
      && original == Request(c.title, c.body, viewer.userId, d.teamId, d.channelId, d.threadId, c.cursor)
    requires Resolve(dg, t.posts, viewer, c.postId).Ok? ==>
               var b := Resolve(dg, t.posts, viewer, c.postId).value;
               b.threadId == original.threadId && NoFingerprintCollision(dg, original, RequestOf(viewer, c, b))
    ensures CreateOutcome(dg, t, viewer, c, freshId) == Ok(Created(id, true))
       <==> !t.documents[id].deleted && SourceInPlace(dg, t.posts, viewer, c.postId, t.documents[id])
    ensures CreateOutcome(dg, t, viewer, c, freshId).Ok? ==> CreateOutcome(dg, t, viewer, c, freshId) == Ok(Created(id, true))
  {
    var resolved := Resolve(dg, t.posts, viewer, c.postId);
    if resolved.Ok? {
      var b := resolved.value;
      var existing := Existing(t, viewer.userId, c.key);
      assert id in existing;
      assert forall other | other in existing :: other == id;
      if t.documents[id].fingerprint == Fingerprint(dg.sha, RequestOf(viewer, c, b)) {
        RequestStreamInjective(original, RequestOf(viewer, c, b));
      }
    }
  }

  /**
   * A creation that succeeded and whose answer was lost: whatever happened since, retrying it returns the same
   * document exactly when the document is not deleted and the caller still resolves the source in the same
   * channel; it never creates a second document.
   */
  lemma RetryReturnsTheDocument(dg: Digests, s: State, viewer: Viewer, c: Creation, id: string, at: int,
                                between: seq<Step>, retrier: Viewer, freshId: string)
    requires Inv(dg, s) && id !in s.t.documents
    requires CreateOutcome(dg, s.t, viewer, c, id) == Ok(Created(id, false))
    requires retrier.userId == viewer.userId
    requires var posts := Exec(dg, Apply(dg, s, CreateDoc(viewer, c, id, at)), between).t.posts;
      Resolve(dg, posts, retrier, c.postId).Ok? ==>
        var original := RequestOf(viewer, c, Resolve(dg, s.t.posts, viewer, c.postId).value);
        var retry := RequestOf(retrier, c, Resolve(dg, posts, retrier, c.postId).value);
        NoFingerprintCollision(dg, original, retry)
    ensures var t := Exec(dg, Apply(dg, s, CreateDoc(viewer, c, id, at)), between).t;
            && id in t.documents
            && (CreateOutcome(dg, t, retrier, c, freshId) == Ok(Created(id, true))
                <==> !t.documents[id].deleted && SourceInPlace(dg, t.posts, retrier, c.postId, t.documents[id]))
            && (CreateOutcome(dg, t, retrier, c, freshId).Ok? ==>
                  CreateOutcome(dg, t, retrier, c, freshId) == Ok(Created(id, true)))
  {
    var s1 := Apply(dg, s, CreateDoc(viewer, c, id, at));
    var b := Resolve(dg, s.t.posts, viewer, c.postId).value;
    var original := RequestOf(viewer, c, b);
    assert s1.t.documents[id] == NewDocument(dg, viewer, c, b, at);
    StepKeepsInv(dg, s, CreateDoc(viewer, c, id, at));
    ExecKeepsInv(dg, s1, between);
    ExecKeepsDocument(dg, s1, between, id);
    ExecGrowsPosts(dg, s1, between);
    ResolvedFits(dg, s.t.posts, viewer, c.postId);
    var t := Exec(dg, s1, between).t;
    assert s1.t.posts == s.t.posts && s.t.posts[c.postId] == s1.t.posts[c.postId];
    if Resolve(dg, t.posts, retrier, c.postId).Ok? { ResolvedFits(dg, t.posts, retrier, c.postId); }
    RetryOutcome(dg, t, retrier, c, original, id, freshId);
  }

  // ------------------------------------------------------------------ revisions

  /** The step is a successful Patch or Delete of the document. */
  ghost predicate Writes(dg: Digests, s: State, step: Step, id: string) {
    match step
    case PatchDoc(viewer, i, p, at) => i == id && PatchError(dg, s.t, viewer, id, p).None?
    case DeleteDoc(viewer, i, expected, at) => i == id && DeleteError(s.t, viewer, id, expected).None?
    case _ => false
  }

  function Expected(step: Step): int
    requires step.PatchDoc? || step.DeleteDoc?
  {
    if step.PatchDoc? then step.p.expected else step.expected
  }

  ghost function WriteCount(dg: Digests, s: State, steps: seq<Step>, id: string): nat {
    if steps == [] then 0
    else WriteCount(dg, s, steps[..|steps| - 1], id)
         + (if Writes(dg, Exec(dg, s, steps[..|steps| - 1]), steps[|steps| - 1], id) then 1 else 0)
  }

  lemma RevisionStep(dg: Digests, s: State, step: Step, id: string)
    requires id in s.t.documents
    ensures id in Apply(dg, s, step).t.documents
    ensures Apply(dg, s, step).t.documents[id].revision == s.t.documents[id].revision + (if Writes(dg, s, step, id) then 1 else 0)
    ensures Writes(dg, s, step, id) ==> Expected(step) == s.t.documents[id].revision
  {
  }

  /** The revision of a document is its revision at creation plus the number of successful writes since. */
  lemma {:induction false} RevisionCountsWrites(dg: Digests, s: State, steps: seq<Step>, id: string)
    requires id in s.t.documents
    ensures id in Exec(dg, s, steps).t.documents
    ensures Exec(dg, s, steps).t.documents[id].revision == s.t.documents[id].revision + WriteCount(dg, s, steps, id)
  {
    if steps != [] {
      RevisionCountsWrites(dg, s, steps[..|steps| - 1], id);
      RevisionStep(dg, Exec(dg, s, steps[..|steps| - 1]), steps[|steps| - 1], id);
    }
  }

  /** A document's revision is one plus the number of successful writes since it was created. */
  lemma RevisionSinceCreation(dg: Digests, s: State, viewer: Viewer, c: Creation, id: string, at: int, between: seq<Step>)
    requires id !in s.t.documents && CreateOutcome(dg, s.t, viewer, c, id) == Ok(Created(id, false))
    ensures var s1 := Apply(dg, s, CreateDoc(viewer, c, id, at));
            && id in Exec(dg, s1, between).t.documents
            && Exec(dg, s1, between).t.documents[id].revision == 1 + WriteCount(dg, s1, between, id)
  {
    var s1 := Apply(dg, s, CreateDoc(viewer, c, id, at));
    assert s1.t.documents[id] == NewDocument(dg, viewer, c, Resolve(dg, s.t.posts, viewer, c.postId).value, at);
    RevisionCountsWrites(dg, s1, between, id);
  }

  /** Successful writers of one document saw strictly increasing revisions, so no two saw the same one. */
  lemma {:induction false} OneWinnerPerRevision(dg: Digests, s: State, steps: seq<Step>, id: string, i: nat, j: nat)
    requires id in s.t.documents && i < j < |steps|
    requires Writes(dg, Exec(dg, s, steps[..i]), steps[i], id) && Writes(dg, Exec(dg, s, steps[..j]), steps[j], id)
    ensures Expected(steps[i]) < Expected(steps[j])
  {
    RevisionCountsWrites(dg, s, steps[..i], id);
    RevisionStep(dg, Exec(dg, s, steps[..i]), steps[i], id);
    assert steps[..i + 1][..i] == steps[..i];
    assert Exec(dg, s, steps[..i + 1]) == Apply(dg, Exec(dg, s, steps[..i]), steps[i]);
    ExecSplit(dg, s, steps[..j], i + 1);
    assert steps[..j][..i + 1] == steps[..i + 1];
    RevisionCountsWrites(dg, Exec(dg, s, steps[..i + 1]), steps[..j][i + 1..], id);
    RevisionStep(dg, Exec(dg, s, steps[..j]), steps[j], id);
  }

  lemma SplitBeforeLast<T>(steps: seq<T>, n: nat)
    requires n < |steps|
    ensures var last := |steps| - 1;
            && steps[..last][..n] == steps[..n]
            && steps[..last][n..] == steps[n..][..|steps[n..]| - 1] && steps[n..][|steps[n..]| - 1] == steps[last]
  {
  }

  lemma {:induction false} ExecSplit(dg: Digests, s: State, steps: seq<Step>, n: nat)
    requires n <= |steps|
    ensures Exec(dg, s, steps) == Exec(dg, Exec(dg, s, steps[..n]), steps[n..])
  {
    if n == |steps| {
      assert steps[..n] == steps;
    } else {
      ExecSplit(dg, s, steps[..|steps| - 1], n);
      SplitBeforeLast(steps, n);
    }
  }

  // ------------------------------------------------------------------ where a retry is lost

  const Author: Viewer := Viewer("author", map["town" := ""])
  const MAX_REPLIES: nat := 1_000
  const Root: SourcePost := SourcePost("x", "town", "", 0, "m")

  function ReplyId(k: nat): (id: string)
    ensures |id| == k + 2
  {
    seq(k + 2, _ => 'r')
  }

  function Replies(n: nat): seq<Step> {
    seq(n, k requires 0 <= k < n => AddPost(ReplyId(k), "town", "x", "m", k + 1))
  }

  function Note(dg: Digests): Creation {
    Creation("title", "body", "x", Revision(dg.sha, [Root]), "key")
  }

  ghost function Noted(dg: Digests): State {
    Apply(dg, Apply(dg, Empty, AddPost("x", "town", "", "m", 0)), CreateDoc(Author, Note(dg), "doc", 0))
  }

  const RootPost: Post := Post("town", "", "m", 0, 0, false)

  lemma SinglePostResolves(dg: Digests)
    ensures Resolve(dg, map["x" := RootPost], Author, "x") == Ok(Bundle("", "town", "x", Revision(dg.sha, [Root]), [Root]))
  {
    var posts := map["x" := RootPost];
    var l := Listing(posts, "x", "town");
    assert ThreadIds(posts, "x", "town") == {"x"};
    assert ThreadRows(posts, "x", "town") == {Root};
    assert |l| == 1 && l[0] in ThreadRows(posts, "x", "town");
    assert l == [Root] && TotalRunes(l[..0]) == 0 && Runes("m"[1..]) == 0;
  }

  lemma NoteIsCreated(dg: Digests)
    ensures var s := Noted(dg);
            && s.t.posts == map["x" := RootPost]
            && "doc" in s.t.documents && s.t.documents["doc"].createdBy == "author" && s.t.documents["doc"].key == "key"
            && Accessible(s.t, Author, "doc")
  {
    var s := Apply(dg, Empty, AddPost("x", "town", "", "m", 0));
    assert s.t.posts == map["x" := RootPost];
    SinglePostResolves(dg);
    assert Existing(s.t, "author", "key") == {};
    assert CreateOutcome(dg, s.t, Author, Note(dg), "doc") == Ok(Created("doc", false));
  }

  function GrownPosts(n: nat): map<string, Post> {
    if n == 0 then map["x" := RootPost]
    else GrownPosts(n - 1)[ReplyId(n - 1) := Post("town", "x", "m", n, n, false)]
  }

  lemma MoreRows(posts: map<string, Post>, id: string, p: Post)
    requires id !in posts
    ensures |posts[id := p]| == |posts| + 1
  {
    assert posts[id := p].Keys == posts.Keys + {id};
  }

  lemma {:induction false} GrownThread(n: nat)
    ensures var posts := GrownPosts(n);
            && LiveRoot(posts, "x", "town") && |posts| == n + 1
            && forall id | id in posts :: InThread(id, posts[id], "x", "town") && |id| <= n + 1
  {
    if n > 0 {
      GrownThread(n - 1);
      var before, reply := GrownPosts(n - 1), ReplyId(n - 1);
      assert reply !in before;
      MoreRows(before, reply, Post("town", "x", "m", n, n, false));
    }
  }

  lemma AddReply(s: State, k: nat)
    requires s.t.posts == GrownPosts(k) && k < MAX_REPLIES
    ensures AfterPostStep(s.t.posts, AddPost(ReplyId(k), "town", "x", "m", k + 1)) == GrownPosts(k + 1)
  {
    GrownThread(k);
    assert ReplyId(k) !in s.t.posts;
  }

  lemma {:induction false} RepliesAreAdded(dg: Digests, s: State, n: nat)
    requires n <= MAX_REPLIES && s.t.posts == GrownPosts(0)
    ensures Exec(dg, s, Replies(n)) == s.(t := s.t.(posts := GrownPosts(n)))
  {
    if n > 0 {
      RepliesAreAdded(dg, s, n - 1);
      assert Replies(n)[..n - 1] == Replies(n - 1);
      assert Replies(n)[n - 1] == AddPost(ReplyId(n - 1), "town", "x", "m", n);
      AddReply(Exec(dg, s, Replies(n - 1)), n - 1);
    }
  }

  lemma GrownThreadIsTooLarge(dg: Digests, n: nat)
    requires n >= MAX_SOURCE_POSTS
    ensures Resolve(dg, GrownPosts(n), Author, "x") == Err(SourceTooLarge)
  {
    GrownThread(n);
    var posts := GrownPosts(n);
    assert ThreadIds(posts, "x", "town") == posts.Keys;
    ThreadCount(posts, "x", "town");
  }

  /**
   * The service promises that a lost answer can be retried even if the thread changed; but once the thread has
   * grown past 200 live posts the retry fails, although the document exists and the caller may still read it.
   */
  lemma LongThreadLosesReplay(dg: Digests, replies: nat)
    requires MAX_SOURCE_POSTS <= replies <= MAX_REPLIES
    ensures var t := Exec(dg, Noted(dg), Replies(replies)).t;
            && Accessible(t, Author, "doc") && "doc" in Existing(t, "author", "key")
            && CreateOutcome(dg, t, Author, Note(dg), "other") == Err(SourceTooLarge)
  {
    NoteIsCreated(dg);
    RepliesAreAdded(dg, Noted(dg), replies);
    GrownThreadIsTooLarge(dg, replies);
  }
}
