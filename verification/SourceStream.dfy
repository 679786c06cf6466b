/** The byte streams that the document service hashes, and what it keeps of the digests. */
module SourceStream {

  /** Source text of one post as far as the change token looks at it. */
  datatype SourcePost = SourcePost(id: string, channelId: string, rootId: string, createAt: int, message: string)

  /** The fields of a normalised creation request. */
  datatype Request = Request(title: string, body: string, createdBy: string, teamId: string, channelId: string,
                             threadId: string, cursor: int)

  const TWO_63: int := 0x8000_0000_0000_0000
  const TWO_64: int := 0x1_0000_0000_0000_0000
  const TWO_192: int := 0x1_0000_0000_0000_0000_0000_0000_0000_0000_0000_0000_0000_0000

  /** A Go string is shorter than 2^63 bytes. */
  predicate Storable(s: string) {
    |s| < TWO_63
  }

  predicate Int64(v: int) {
    -TWO_63 <= v < TWO_63
  }

  predicate StorablePost(p: SourcePost) {
    Storable(p.id) && Storable(p.channelId) && Storable(p.rootId) && Int64(p.createAt) && Storable(p.message)
  }

  function BigEndian(n: nat, width: nat): (bytes: seq<int>)
    ensures |bytes| == width
  {
    if width == 0 then [] else BigEndian(n / 256, width - 1) + [n % 256]
  }

  function Bytes(s: string): (bytes: seq<int>)
    ensures |bytes| == |s|
  {
    seq(|s|, i requires 0 <= i < |s| => s[i] as int)
  }

  function Prefixed(s: string): seq<int> {
    BigEndian(|s|, 8) + Bytes(s)
  }

  /** A signed 64-bit value reinterpreted as unsigned. */
  function Timestamp(v: int): (bytes: seq<int>)
    ensures |bytes| == 8
  {
    BigEndian(v % TWO_64, 8)
  }

  /** The stream hashed for a list of posts; the number of posts is not part of it. */
  function Stream(posts: seq<SourcePost>): (bytes: seq<int>)
    ensures |bytes| >= 40 * |posts|
  {
    if posts == [] then []
    else
      var p := posts[0];
      Prefixed(p.id) + (Prefixed(p.channelId) + (Prefixed(p.rootId) + (Timestamp(p.createAt)
      + (Prefixed(p.message) + Stream(posts[1..])))))
  }

  function RequestStream(r: Request): seq<int> {
    Prefixed(r.title) + (Prefixed(r.body) + (Prefixed(r.createdBy) + (Prefixed(r.teamId)
    + (Prefixed(r.channelId) + (Prefixed(r.threadId) + Timestamp(r.cursor))))))
  }

  /** First eight digest bytes with the sign bit cleared, and never zero; `sha` yields the 256-bit digest as a number. */
  function Revision(sha: seq<int> -> nat, posts: seq<SourcePost>): (r: int)
    ensures 0 < r < TWO_63
  {
    var r := sha(Stream(posts)) / TWO_192 % TWO_64 % TWO_63;
    if r == 0 then 1 else r
  }

  function Fingerprint(sha: seq<int> -> nat, r: Request): nat {
    sha(RequestStream(r))
  }

  lemma Regroup(w: seq<int>, a: seq<int>, b: seq<int>, c: seq<int>, d: seq<int>, e: seq<int>, rest: seq<int>)
    ensures w + a + b + c + d + e + rest == w + (a + (b + (c + (d + (e + rest)))))
  {
    assert w + a + b + c + d + e + rest == w + a + b + c + (d + (e + rest));
    assert w + a + b + c + (d + (e + rest)) == w + (a + (b + (c + (d + (e + rest)))));
  }

  method SourceRevision(sha: seq<int> -> nat, posts: seq<SourcePost>) returns (revision: int)
    ensures revision == Revision(sha, posts)
  {
    var written: seq<int> := [];
    for i := 0 to |posts|
      invariant written + Stream(posts[i..]) == Stream(posts)
    {
      var p, rest := posts[i], Stream(posts[i + 1..]);
      assert posts[i..][1..] == posts[i + 1..];
      Regroup(written, Prefixed(p.id), Prefixed(p.channelId), Prefixed(p.rootId), Timestamp(p.createAt), Prefixed(p.message), rest);
      written := written + Prefixed(p.id);
      written := written + Prefixed(p.channelId);
      written := written + Prefixed(p.rootId);
      written := written + Timestamp(p.createAt);
      written := written + Prefixed(p.message);
    }
    assert posts[|posts|..] == [];
    assert written == Stream(posts);
    revision := sha(written) / TWO_192 % TWO_64;
    revision := revision % TWO_63;
    if revision == 0 {
      revision := 1;
    }
  }

  method CreateFingerprint(sha: seq<int> -> nat, r: Request) returns (fingerprint: nat)
    ensures fingerprint == Fingerprint(sha, r)
  {
    Regroup(Prefixed(r.title), Prefixed(r.body), Prefixed(r.createdBy), Prefixed(r.teamId), Prefixed(r.channelId),
            Prefixed(r.threadId), Timestamp(r.cursor));
    var written := Prefixed(r.title);
    written := written + Prefixed(r.body);
    written := written + Prefixed(r.createdBy);
    written := written + Prefixed(r.teamId);
    written := written + Prefixed(r.channelId);
    written := written + Prefixed(r.threadId);
    written := written + Timestamp(r.cursor);
    fingerprint := sha(written);
  }

  // ------------------------------------------------------------------ injectivity

  function Power256(k: nat): nat {
    if k == 0 then 1 else 256 * Power256(k - 1)
  }

  lemma {:induction false} BigEndianInjective(m: nat, n: nat, width: nat)
    requires m < Power256(width) && n < Power256(width)
    requires BigEndian(m, width) == BigEndian(n, width)
    ensures m == n
  {
    if width > 0 {
      var a, b := BigEndian(m, width), BigEndian(n, width);
      assert a[..width - 1] == BigEndian(m / 256, width - 1) && b[..width - 1] == BigEndian(n / 256, width - 1);
      assert a[width - 1] == m % 256 && b[width - 1] == n % 256;
      BigEndianInjective(m / 256, n / 256, width - 1);
    }
  }

  lemma EightBytes()
    ensures Power256(8) == TWO_64
  {
    assert Power256(4) == 0x1_0000_0000;
    assert Power256(6) == 0x1_0000_0000_0000;
  }

  lemma BytesInjective(a: string, b: string)
    requires Bytes(a) == Bytes(b)
    ensures a == b
  {
    forall i | 0 <= i < |a| ensures a[i] == b[i] {
      assert Bytes(a)[i] == a[i] as int && Bytes(b)[i] == b[i] as int;
    }
  }

  /** A length-prefixed string can be read back from the front of a stream. */
  lemma ParsePrefixed(a: string, b: string, x: seq<int>, y: seq<int>)
    requires Storable(a) && Storable(b) && Prefixed(a) + x == Prefixed(b) + y
    ensures a == b && x == y
  {
    var s, t := Prefixed(a) + x, Prefixed(b) + y;
    assert s[..8] == BigEndian(|a|, 8) && t[..8] == BigEndian(|b|, 8);
    EightBytes();
    BigEndianInjective(|a|, |b|, 8);
    assert s[8..8 + |a|] == Bytes(a) && t[8..8 + |a|] == Bytes(b);
    BytesInjective(a, b);
    assert x == s[8 + |a|..] && y == t[8 + |a|..];
  }

  lemma ParseTimestamp(u: int, v: int, x: seq<int>, y: seq<int>)
    requires Int64(u) && Int64(v) && Timestamp(u) + x == Timestamp(v) + y
    ensures u == v && x == y
  {
    var s, t := Timestamp(u) + x, Timestamp(v) + y;
    assert s[..8] == Timestamp(u) && t[..8] == Timestamp(v);
    EightBytes();
    BigEndianInjective(u % TWO_64, v % TWO_64, 8);
    assert x == s[8..] && y == t[8..];
  }

  lemma ParsePost(a: seq<SourcePost>, b: seq<SourcePost>)
    requires a != [] && b != [] && StorablePost(a[0]) && StorablePost(b[0]) && Stream(a) == Stream(b)
    ensures a[0] == b[0] && Stream(a[1..]) == Stream(b[1..])
  {
    var p, q := a[0], b[0];
    var p5, q5 := Prefixed(p.message) + Stream(a[1..]), Prefixed(q.message) + Stream(b[1..]);
    var p4, q4 := Timestamp(p.createAt) + p5, Timestamp(q.createAt) + q5;
    var p3, q3 := Prefixed(p.rootId) + p4, Prefixed(q.rootId) + q4;
    var p2, q2 := Prefixed(p.channelId) + p3, Prefixed(q.channelId) + q3;
    ParsePrefixed(p.id, q.id, p2, q2);
    ParsePrefixed(p.channelId, q.channelId, p3, q3);
    ParsePrefixed(p.rootId, q.rootId, p4, q4);
    ParseTimestamp(p.createAt, q.createAt, p5, q5);
    ParsePrefixed(p.message, q.message, Stream(a[1..]), Stream(b[1..]));
  }

  /** Different lists of posts are hashed from different streams, even of different lengths. */
  lemma {:induction false} StreamInjective(a: seq<SourcePost>, b: seq<SourcePost>)
    requires (forall i | 0 <= i < |a| :: StorablePost(a[i])) && (forall i | 0 <= i < |b| :: StorablePost(b[i]))
    requires Stream(a) == Stream(b)
    ensures a == b
  {
    if a != [] && b != [] {
      ParsePost(a, b);
      StreamInjective(a[1..], b[1..]);
      assert a == [a[0]] + a[1..] && b == [b[0]] + b[1..];
    }
  }

  predicate StorableRequest(r: Request) {
    Storable(r.title) && Storable(r.body) && Storable(r.createdBy) && Storable(r.teamId) && Storable(r.channelId)
    && Storable(r.threadId) && Int64(r.cursor)
  }

  /** Different creation requests are fingerprinted from different streams. */
  lemma RequestStreamInjective(r: Request, q: Request)
    requires StorableRequest(r) && StorableRequest(q) && RequestStream(r) == RequestStream(q)
    ensures r == q
  {
    var r6, q6 := Prefixed(r.threadId) + Timestamp(r.cursor), Prefixed(q.threadId) + Timestamp(q.cursor);
    var r5, q5 := Prefixed(r.channelId) + r6, Prefixed(q.channelId) + q6;
    var r4, q4 := Prefixed(r.teamId) + r5, Prefixed(q.teamId) + q5;
    var r3, q3 := Prefixed(r.createdBy) + r4, Prefixed(q.createdBy) + q4;
    var r2, q2 := Prefixed(r.body) + r3, Prefixed(q.body) + q3;
    ParsePrefixed(r.title, q.title, r2, q2);
    ParsePrefixed(r.body, q.body, r3, q3);
    ParsePrefixed(r.createdBy, q.createdBy, r4, q4);
    ParsePrefixed(r.teamId, q.teamId, r5, q5);
    ParsePrefixed(r.channelId, q.channelId, r6, q6);
    ParsePrefixed(r.threadId, q.threadId, Timestamp(r.cursor), Timestamp(q.cursor));
    assert Timestamp(r.cursor) + [] == Timestamp(r.cursor) && Timestamp(q.cursor) + [] == Timestamp(q.cursor);
    ParseTimestamp(r.cursor, q.cursor, [], []);
  }

  // ------------------------------------------------------------------ what the bytes say

  /** The number that bytes write, the highest first. */
  function Number(bytes: seq<int>): int {
    if bytes == [] then 0 else 256 * Number(bytes[..|bytes| - 1]) + bytes[|bytes| - 1]
  }

  lemma {:induction false} BigEndianWritesNumber(n: nat, width: nat, i: nat)
    requires n < Power256(width)
    ensures Number(BigEndian(n, width)) == n
    ensures i < width ==> 0 <= BigEndian(n, width)[i] < 256
  {
    if width > 0 {
      BigEndianWritesNumber(n / 256, width - 1, i);
      assert BigEndian(n, width)[..width - 1] == BigEndian(n / 256, width - 1);
    }
  }

  /** A length is written in eight bytes, a time as its 64-bit two's complement. */
  lemma FieldsAreWritten(s: string, v: int, i: nat)
    requires Storable(s) && Int64(v)
    ensures |Prefixed(s)| == 8 + |s| && Number(Prefixed(s)[..8]) == |s|
    ensures i < |s| ==> Prefixed(s)[8 + i] == s[i] as int
    ensures Number(Timestamp(v)) == if v >= 0 then v else v + 0x1_0000_0000_0000_0000
  {
    EightBytes();
    BigEndianWritesNumber(|s|, 8, 0);
    assert Prefixed(s)[..8] == BigEndian(|s|, 8);
    BigEndianWritesNumber(v % TWO_64, 8, 0);
  }

  /** Of each post the id, channel, root, creation time and message are written in this order, then the next post. */
  lemma StreamInOrder(p: SourcePost, rest: seq<SourcePost>)
    ensures Stream([p] + rest)
         == Prefixed(p.id) + Prefixed(p.channelId) + Prefixed(p.rootId) + Timestamp(p.createAt) + Prefixed(p.message) + Stream(rest)
    ensures Stream([]) == []
  {
    assert ([p] + rest)[1..] == rest;
    Regroup([], Prefixed(p.id), Prefixed(p.channelId), Prefixed(p.rootId), Timestamp(p.createAt), Prefixed(p.message), Stream(rest));
    assert [] + Prefixed(p.id) == Prefixed(p.id);
  }

  lemma RequestInOrder(r: Request)
    ensures RequestStream(r) == Prefixed(r.title) + Prefixed(r.body) + Prefixed(r.createdBy) + Prefixed(r.teamId)
                                + Prefixed(r.channelId) + Prefixed(r.threadId) + Timestamp(r.cursor)
  {
    Regroup(Prefixed(r.title), Prefixed(r.body), Prefixed(r.createdBy), Prefixed(r.teamId), Prefixed(r.channelId),
            Prefixed(r.threadId), Timestamp(r.cursor));
  }

  /** The token is the number in the first eight of the 32 digest bytes without its highest bit, or one if that is zero. */
  lemma RevisionIsFirstEightBytes(sha: seq<int> -> nat, posts: seq<SourcePost>, first: nat, others: nat)
    requires first < 0x1_0000_0000_0000_0000
    requires others < 0x1_0000_0000_0000_0000_0000_0000_0000_0000_0000_0000_0000_0000
    requires sha(Stream(posts)) == first * 0x1_0000_0000_0000_0000_0000_0000_0000_0000_0000_0000_0000_0000 + others
    ensures Revision(sha, posts) == if first % 0x8000_0000_0000_0000 == 0 then 1 else first % 0x8000_0000_0000_0000
  {
  }
}
