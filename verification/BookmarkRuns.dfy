/** Interleavings of the read and the write of reorders with creations, patches and deletions. */
module BookmarkRuns {
  import opened Wrappers
  import opened Bookmarks

  /** A reorder between its read and its write. */
  datatype Pending = Pending(channel: string, ordered: seq<string>)

  datatype State = State(rows: map<string, Row>, pending: map<nat, Pending>)

  datatype Step =
    | Read(op: nat, channel: string, id: string, newPos: int, list: seq<string>)
    | Write(op: nat)
    | Remove(channel: string, id: string)
    | Place(channel: string, id: string, position: int)
    | Insert(id: string, channel: string, requested: int, highest: int, at: int)

  /** The list query may answer with any order of rows that tie; `highest` is what a creation read before its insert. */
  ghost function Apply(s: State, step: Step): State {
    match step
    case Read(op, channel, id, newPos, list) =>
      if op !in s.pending && IsList(s.rows, channel, list) && id in list
      then s.(pending := s.pending[op := Pending(channel, Moved(list, id, newPos))]) else s
    case Write(op) =>
      if op in s.pending then
        var p := s.pending[op];
        State(AfterWrite(s.rows, p.channel, p.ordered), s.pending - {op})
      else s
    case Remove(channel, id) => s.(rows := AfterDelete(s.rows, channel, id))
    case Place(channel, id, position) => s.(rows := AfterPlace(s.rows, channel, id, position))
    case Insert(id, channel, requested, highest, at) =>
      if id in s.rows then s
      else s.(rows := s.rows[id := Row(channel, InsertedAt(requested, highest), at, false)])
  }

  function InsertedAt(requested: int, highest: int): int {
    if requested == 0 then highest + 1 else requested
  }

  ghost function Exec(s: State, steps: seq<Step>): State {
    if steps == [] then s else Apply(Exec(s, steps[..|steps| - 1]), steps[|steps| - 1])
  }

  /** No two live bookmarks of the channel share a position. */
  ghost predicate NoSharedPosition(rows: map<string, Row>, channel: string) {
    forall a, b | Live(rows, channel, a) && Live(rows, channel, b) && a != b :: rows[a].sortOrder != rows[b].sortOrder
  }

  /** The snapshot of a waiting reorder still covers every live row of its channel. */
  ghost predicate Covers(rows: map<string, Row>, p: Pending) {
    Distinct(p.ordered) && forall id | Live(rows, p.channel, id) :: id in p.ordered
  }

  /** Every waiting reorder of the channel covers its live rows. */
  ghost predicate AllCover(s: State, channel: string) {
    forall op | op in s.pending && s.pending[op].channel == channel :: Covers(s.rows, s.pending[op])
  }

  // ------------------------------------------------------------------ one write, exactly

  /** A row outside the snapshot that sits where the write puts a live row. */
  ghost predicate Collides(rows: map<string, Row>, channel: string, ordered: seq<string>, outside: string) {
    && Live(rows, channel, outside) && outside !in ordered
    && 0 <= rows[outside].sortOrder < |ordered| && Live(rows, channel, ordered[rows[outside].sortOrder])
  }

  /** The live rows that the snapshot misses do not share positions among themselves. */
  ghost predicate OutsideDistinct(rows: map<string, Row>, channel: string, ordered: seq<string>) {
    forall a, b | Live(rows, channel, a) && Live(rows, channel, b) && a !in ordered && b !in ordered && a != b ::
      rows[a].sortOrder != rows[b].sortOrder
  }

  lemma WrittenRow(rows: map<string, Row>, channel: string, ordered: seq<string>, id: string)
    requires Distinct(ordered) && Live(rows, channel, id)
    ensures var after := AfterWrite(rows, channel, ordered);
            && Live(after, channel, id)
            && (id in ordered ==> 0 <= after[id].sortOrder < |ordered| && ordered[after[id].sortOrder] == id)
            && (id !in ordered ==> after[id] == rows[id])
  {
  }

  /** A write leaves no shared position exactly when the rows it misses collide neither with each other nor with it. */
  lemma WriteLeavesNoSharedPosition(rows: map<string, Row>, channel: string, ordered: seq<string>)
    requires Distinct(ordered)
    ensures NoSharedPosition(AfterWrite(rows, channel, ordered), channel)
       <==> OutsideDistinct(rows, channel, ordered) && forall outside :: !Collides(rows, channel, ordered, outside)
  {
    var after := AfterWrite(rows, channel, ordered);
    forall id ensures Live(after, channel, id) <==> Live(rows, channel, id) {
    }
    forall id | Live(rows, channel, id)
      ensures id in ordered ==> 0 <= after[id].sortOrder < |ordered| && ordered[after[id].sortOrder] == id
      ensures id !in ordered ==> after[id] == rows[id]
    {
      WrittenRow(rows, channel, ordered, id);
    }
    if outside :| Collides(rows, channel, ordered, outside) {
      var k := rows[outside].sortOrder;
      PositionAt(ordered, k);
      assert after[ordered[k]].sortOrder == after[outside].sortOrder && ordered[k] != outside;
    }
    if OutsideDistinct(rows, channel, ordered) && forall outside :: !Collides(rows, channel, ordered, outside) {
      forall a, b | Live(after, channel, a) && Live(after, channel, b) && a != b ensures after[a].sortOrder != after[b].sortOrder {
        assert !Collides(rows, channel, ordered, a) && !Collides(rows, channel, ordered, b);
      }
    }
    if NoSharedPosition(after, channel) {
      forall a, b | Live(rows, channel, a) && Live(rows, channel, b) && a !in ordered && b !in ordered && a != b
        ensures rows[a].sortOrder != rows[b].sortOrder
      {
        assert Live(after, channel, a) && Live(after, channel, b);
      }
    }
  }

  // ------------------------------------------------------------------ interleavings

  /** A creation in the channel between the read and the write of a reorder of it. */
  predicate InsertsUnderReorder(s: State, step: Step, channel: string) {
    && step.Insert? && step.channel == channel && step.id !in s.rows
    && exists op :: op in s.pending && s.pending[op].channel == channel
  }

  /** A creation or a patch that puts a bookmark of the channel where another live one is. */
  predicate TakesPosition(s: State, step: Step, channel: string) {
    match step
    case Insert(id, c, requested, highest, at) =>
      c == channel && id !in s.rows
      && exists a :: a in s.rows && Live(s.rows, channel, a) && s.rows[a].sortOrder == InsertedAt(requested, highest)
    case Place(c, id, position) =>
      c == channel && Live(s.rows, channel, id)
      && exists a :: a in s.rows && Live(s.rows, channel, a) && a != id && s.rows[a].sortOrder == position
    case _ => false
  }

  predicate Rewrites(s: State, step: Step, channel: string) {
    step.Write? && step.op in s.pending && s.pending[step.op].channel == channel
  }

  /** No creation in the channel came between the read and the write of a reorder of it. */
  ghost predicate Orderly(s: State, steps: seq<Step>, channel: string) {
    steps == [] ||
    (Orderly(s, steps[..|steps| - 1], channel)
     && !InsertsUnderReorder(Exec(s, steps[..|steps| - 1]), steps[|steps| - 1], channel))
  }

  /** A reorder of the channel has completed, and since the last one no step has put a bookmark onto another. */
  ghost predicate SettledSince(s: State, steps: seq<Step>, channel: string) {
    steps != []
    && var before, last := Exec(s, steps[..|steps| - 1]), steps[|steps| - 1];
       Rewrites(before, last, channel)
       || (SettledSince(s, steps[..|steps| - 1], channel) && !TakesPosition(before, last, channel))
  }

  lemma WriteKeeps(s: State, op: nat, channel: string)
    requires AllCover(s, channel)
    ensures AllCover(Apply(s, Write(op)), channel)
    ensures Rewrites(s, Write(op), channel) || NoSharedPosition(s.rows, channel) ==> NoSharedPosition(Apply(s, Write(op)).rows, channel)
  {
    var t := Apply(s, Write(op));
    if op in s.pending {
      var p := s.pending[op];
      forall o | o in t.pending && t.pending[o].channel == channel ensures Covers(t.rows, t.pending[o]) {
        assert Covers(s.rows, s.pending[o]);
      }
      if p.channel == channel {
        assert Covers(s.rows, p);
        WriteLeavesNoSharedPosition(s.rows, channel, p.ordered);
      } else if NoSharedPosition(s.rows, channel) {
        OtherChannel(s.rows, p.channel, p.ordered, channel);
      }
    }
  }

  lemma OtherChannel(rows: map<string, Row>, channel: string, ordered: seq<string>, other: string)
    requires other != channel && NoSharedPosition(rows, other)
    ensures NoSharedPosition(AfterWrite(rows, channel, ordered), other)
  {
    var after := AfterWrite(rows, channel, ordered);
    forall id | Live(after, other, id) ensures after[id] == rows[id] {
    }
  }

  lemma CoverStep(s: State, step: Step, channel: string)
    requires AllCover(s, channel) && !InsertsUnderReorder(s, step, channel)
    ensures AllCover(Apply(s, step), channel)
  {
    var t := Apply(s, step);
    match step
    case Read(op, c, id, newPos, list) =>
      if t != s {
        MovedIsMove(list, id, newPos);
        assert Covers(s.rows, t.pending[op]);
      }
    case Write(op) => WriteKeeps(s, op, channel);
    case _ =>
      forall o | o in t.pending && t.pending[o].channel == channel ensures Covers(t.rows, t.pending[o]) {
        assert Covers(s.rows, s.pending[o]);
      }
  }

  /** Away from writes, positions that are not shared become shared exactly if a step puts a bookmark onto another. */
  lemma SharedExactlyIfTaken(s: State, step: Step, channel: string)
    requires NoSharedPosition(s.rows, channel) && !step.Write?
    ensures NoSharedPosition(Apply(s, step).rows, channel) <==> !TakesPosition(s, step, channel)
  {
    var t := Apply(s, step);
    match step
    case Insert(id, c, requested, highest, at) =>
      if TakesPosition(s, step, channel) {
        var a :| a in s.rows && Live(s.rows, channel, a) && s.rows[a].sortOrder == InsertedAt(requested, highest);
        assert Live(t.rows, channel, a) && Live(t.rows, channel, id) && a != id;
      }
    case Place(c, id, position) =>
      if TakesPosition(s, step, channel) {
        var a :| a in s.rows && Live(s.rows, channel, a) && a != id && s.rows[a].sortOrder == position;
        assert Live(t.rows, channel, a) && Live(t.rows, channel, id);
      }
    case Remove(_, _) =>
    case Read(_, _, _, _, _) =>
  }

  lemma {:induction false} OrderlyCovers(rows: map<string, Row>, steps: seq<Step>, channel: string)
    requires Orderly(State(rows, map[]), steps, channel)
    ensures AllCover(Exec(State(rows, map[]), steps), channel)
  {
    if steps != [] {
      OrderlyCovers(rows, steps[..|steps| - 1], channel);
      CoverStep(Exec(State(rows, map[]), steps[..|steps| - 1]), steps[|steps| - 1], channel);
    }
  }

  /**
   * However reads and writes of reorders interleave with each other and with creations, patches and deletions: if no
   * creation in the channel falls between the read and the write of a reorder of it, no two live bookmarks of the
   * channel share a position from any completed reorder on, until a creation or patch takes a position in use.
   */
  lemma {:induction false} ReordersNeverShare(rows: map<string, Row>, steps: seq<Step>, channel: string)
    requires Orderly(State(rows, map[]), steps, channel) && SettledSince(State(rows, map[]), steps, channel)
    ensures NoSharedPosition(Exec(State(rows, map[]), steps).rows, channel)
  {
    var before, last := steps[..|steps| - 1], steps[|steps| - 1];
    var s := Exec(State(rows, map[]), before);
    OrderlyCovers(rows, before, channel);
    if !Rewrites(s, last, channel) {
      ReordersNeverShare(rows, before, channel);
    }
    if last.Write? {
      WriteKeeps(s, last.op, channel);
    } else {
      SharedExactlyIfTaken(s, last, channel);
    }
  }

  lemma {:induction false} ReordersAndDeletesAreOrderly(s: State, steps: seq<Step>, channel: string, k: nat)
    requires forall i | 0 <= i < |steps| :: !steps[i].Insert? && !steps[i].Place?
    ensures Orderly(s, steps, channel)
    ensures k < |steps| && Rewrites(Exec(s, steps[..k]), steps[k], channel) ==> SettledSince(s, steps, channel)
  {
    if steps != [] {
      var last := |steps| - 1;
      ReordersAndDeletesAreOrderly(s, steps[..last], channel, k);
      if k < last { assert steps[..last][..k] == steps[..k]; }
    }
  }

  /** In particular reorders and deletions alone never share positions once one reorder of the channel has completed. */
  lemma ReordersAndDeletesNeverShare(rows: map<string, Row>, steps: seq<Step>, channel: string, k: nat)
    requires forall i | 0 <= i < |steps| :: !steps[i].Insert? && !steps[i].Place?
    requires k < |steps| && Rewrites(Exec(State(rows, map[]), steps[..k]), steps[k], channel)
    ensures NoSharedPosition(Exec(State(rows, map[]), steps).rows, channel)
  {
    ReordersAndDeletesAreOrderly(State(rows, map[]), steps, channel, k);
    ReordersNeverShare(rows, steps, channel);
  }

  // ------------------------------------------------------------------ a creation in between

  lemma ExecAppend(s: State, steps: seq<Step>, step: Step)
    ensures Exec(s, steps + [step]) == Apply(Exec(s, steps), step)
  {
    assert (steps + [step])[..|steps|] == steps;
  }

  /** The rows of two bookmarks and of one created later, at the given positions. */
  function Rows(c: string, a: string, b: string, n: string, x: int, y: int, z: int): map<string, Row> {
    map[a := Row(c, x, 1, false), b := Row(c, y, 2, false), n := Row(c, z, 3, false)]
  }

  function TwoRows(c: string, a: string, b: string): map<string, Row> {
    map[a := Row(c, 1, 1, false), b := Row(c, 2, 2, false)]
  }

  lemma PositionsOfThree(x: string, y: string, z: string)
    requires x != y && x != z && y != z
    ensures Position([x, y, z], x) == 0 && Position([x, y, z], y) == 1 && Position([x, y, z], z) == 2
  {
    PositionAt([x, y, z], 0);
    PositionAt([x, y, z], 1);
    PositionAt([x, y, z], 2);
  }

  lemma PositionsOfTwo(x: string, y: string)
    requires x != y
    ensures Position([x, y], x) == 0 && Position([x, y], y) == 1
  {
    PositionAt([x, y], 0);
    PositionAt([x, y], 1);
  }

  lemma WriteThree(c: string, a: string, b: string, n: string, x: int, y: int, z: int)
    requires a != b && a != n && b != n
    ensures AfterWrite(Rows(c, a, b, n, x, y, z), c, [n, a, b]) == Rows(c, a, b, n, 1, 2, 0)
  {
    PositionsOfThree(n, a, b);
    var rows, ordered := Rows(c, a, b, n, x, y, z), [n, a, b];
    assert n in ordered && a in ordered && b in ordered;
    assert Live(rows, c, n) && Live(rows, c, a) && Live(rows, c, b);
  }

  lemma WriteTwo(c: string, a: string, b: string, n: string, x: int, y: int, z: int)
    requires a != b && a != n && b != n
    ensures AfterWrite(Rows(c, a, b, n, x, y, z), c, [a, b]) == Rows(c, a, b, n, 0, 1, z)
  {
    PositionsOfTwo(a, b);
    var rows, ordered := Rows(c, a, b, n, x, y, z), [a, b];
    assert n !in ordered && a in ordered && b in ordered;
    assert Live(rows, c, a) && Live(rows, c, b);
  }

  lemma FrontOfTwo(c: string, a: string, b: string)
    requires a != b
    ensures IsList(TwoRows(c, a, b), c, [a, b]) && Moved([a, b], a, 0) == [a, b] && a in [a, b]
  {
    var l := [a, b];
    assert l[0] == a && l[1] == b;
    WithoutAt(l, 0);
    assert l[..0] + l[1..] == [b];
  }

  lemma FrontOfThree(c: string, a: string, b: string, n: string)
    requires a != b && a != n && b != n
    ensures IsList(Rows(c, a, b, n, 1, 2, 3), c, [a, b, n]) && Moved([a, b, n], n, 0) == [n, a, b] && n in [a, b, n]
  {
    var l := [a, b, n];
    assert l[0] == a && l[1] == b && l[2] == n;
    WithoutAt(l, 2);
    assert l[..2] + l[3..] == [a, b];
  }

  function FirstRead(c: string, a: string, b: string): Step {
    Read(1, c, a, 0, [a, b])
  }

  function LateRead(c: string, a: string, b: string, n: string): Step {
    Read(2, c, n, 0, [a, b, n])
  }

  function Reads(c: string, a: string, b: string, n: string): seq<Step> {
    [] + [FirstRead(c, a, b)] + [Insert(n, c, 0, 2, 3)] + [LateRead(c, a, b, n)]
  }

  /** Both reorders have read; the first did not see the bookmark created in between. */
  lemma BothHaveRead(c: string, a: string, b: string, n: string)
    requires a != b && a != n && b != n
    ensures Exec(State(TwoRows(c, a, b), map[]), Reads(c, a, b, n))
         == State(Rows(c, a, b, n, 1, 2, 3), map[1 := Pending(c, [a, b]), 2 := Pending(c, [n, a, b])])
  {
    var s := State(TwoRows(c, a, b), map[]);
    FrontOfTwo(c, a, b);
    FrontOfThree(c, a, b, n);
    ExecAppend(s, [], FirstRead(c, a, b));
    ExecAppend(s, [] + [FirstRead(c, a, b)], Insert(n, c, 0, 2, 3));
    ExecAppend(s, [] + [FirstRead(c, a, b)] + [Insert(n, c, 0, 2, 3)], LateRead(c, a, b, n));
  }

  /**
   * One transaction for read and write does not prevent shared positions: a bookmark created between one reorder's
   * read and its write, and placed by another reorder, ends up sharing position 0 although both reorders completed.
   */
  lemma CreationBetweenReadAndWriteShares(c: string, a: string, b: string, n: string)
    requires a != b && a != n && b != n
    ensures var s := Exec(State(TwoRows(c, a, b), map[]), Reads(c, a, b, n) + [Write(2)] + [Write(1)]);
            s == State(Rows(c, a, b, n, 0, 1, 0), map[]) && !NoSharedPosition(s.rows, c)
  {
    var s, l := State(TwoRows(c, a, b), map[]), Reads(c, a, b, n);
    BothHaveRead(c, a, b, n);
    WriteThree(c, a, b, n, 1, 2, 3);
    WriteTwo(c, a, b, n, 1, 2, 0);
    ExecAppend(s, l, Write(2));
    assert Exec(s, l + [Write(2)]) == State(Rows(c, a, b, n, 1, 2, 0), map[1 := Pending(c, [a, b])]);
    ExecAppend(s, l + [Write(2)], Write(1));
    var rows := Rows(c, a, b, n, 0, 1, 0);
    assert Live(rows, c, a) && Live(rows, c, n);
  }
}
