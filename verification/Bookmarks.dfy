/** Channel bookmarks: the list order and the move that rewrites it. */
module Bookmarks {
  import opened Wrappers
  import opened Ordering
  import opened Counting

  datatype Row = Row(channelId: string, sortOrder: int, createAt: int, deleted: bool)

  datatype Error = NotFound

  predicate Live(rows: map<string, Row>, channel: string, id: string) {
    id in rows && rows[id].channelId == channel && !rows[id].deleted
  }

  function LiveIds(rows: map<string, Row>, channel: string): set<string> {
    set id | id in rows && Live(rows, channel, id)
  }

  predicate Distinct(ids: seq<string>) {
    forall i, j | 0 <= i < j < |ids| :: ids[i] != ids[j]
  }

  /** `ORDER BY sort_order, create_at`; rows equal in both may come in either order. */
  predicate ListsBefore(a: Row, b: Row) {
    a.sortOrder < b.sortOrder || (a.sortOrder == b.sortOrder && a.createAt <= b.createAt)
  }

  /** A possible answer of the list query. */
  ghost predicate IsList(rows: map<string, Row>, channel: string, ids: seq<string>) {
    && Distinct(ids)
    && (forall id :: id in ids <==> Live(rows, channel, id))
    && (forall i, j | 0 <= i < j < |ids| :: ids[i] in rows && ids[j] in rows && ListsBefore(rows[ids[i]], rows[ids[j]]))
  }

  /** Every item of `ids` lists before `id`. */
  predicate AllBefore(rows: map<string, Row>, ids: seq<string>, id: string) {
    id in rows && forall i | 0 <= i < |ids| :: ids[i] in rows && ListsBefore(rows[ids[i]], rows[id])
  }

  // ------------------------------------------------------------------ moving one item

  function Without(ids: seq<string>, id: string): (rest: seq<string>)
    ensures |rest| <= |ids| && id !in rest
  {
    if ids == [] then []
    else if ids[0] == id then Without(ids[1..], id) else [ids[0]] + Without(ids[1..], id)
  }

  /** `after` is `ids` with `id` at `pos` and all other items in their old relative order. */
  predicate IsMove(ids: seq<string>, after: seq<string>, id: string, pos: int) {
    0 <= pos < |after| && after[pos] == id && |after| == |ids| && Without(after, id) == Without(ids, id) && Distinct(after)
  }

  function Clamp(newPos: int, last: nat): nat {
    if newPos < 0 then 0 else if newPos > last then last else newPos
  }

  lemma {:induction false} WithoutAppend(a: seq<string>, b: seq<string>, id: string)
    ensures Without(a + b, id) == Without(a, id) + Without(b, id)
  {
    if a == [] {
      assert a + b == b;
    } else {
      WithoutAppend(a[1..], b, id);
      assert (a + b)[0] == a[0] && (a + b)[1..] == a[1..] + b;
    }
  }

  lemma {:induction false} WithoutAbsent(a: seq<string>, id: string)
    requires id !in a
    ensures Without(a, id) == a
  {
    if a != [] {
      WithoutAbsent(a[1..], id);
    }
  }

  /** Cutting one item out of a list without repetitions. */
  lemma WithoutAt(ids: seq<string>, from: nat)
    requires from < |ids| && Distinct(ids)
    ensures Without(ids, ids[from]) == ids[..from] + ids[from + 1..]
  {
    var id := ids[from];
    assert ids == ids[..from] + ([id] + ids[from + 1..]);
    WithoutAppend(ids[..from], [id] + ids[from + 1..], id);
    WithoutAppend([id], ids[from + 1..], id);
    WithoutAbsent(ids[..from], id);
    WithoutAbsent(ids[from + 1..], id);
    assert Without([id], id) == [];
  }

  /** There is only one list with the item at that place and the others in order. */
  lemma MoveUnique(ids: seq<string>, a: seq<string>, b: seq<string>, id: string, pos: int)
    requires IsMove(ids, a, id, pos) && IsMove(ids, b, id, pos)
    ensures a == b
  {
    WithoutAt(a, pos);
    WithoutAt(b, pos);
    var rest := Without(ids, id);
    assert a[..pos] == rest[..pos] == b[..pos] && a[pos + 1..] == rest[pos..] == b[pos + 1..];
    assert a == a[..pos] + [id] + a[pos + 1..] && b == b[..pos] + [id] + b[pos + 1..];
  }

  /** Moving the item back to where it was restores the list. */
  lemma MoveBackRestores(ids: seq<string>, after: seq<string>, again: seq<string>, id: string, from: int, pos: int)
    requires Distinct(ids) && 0 <= from < |ids| && ids[from] == id
    requires IsMove(ids, after, id, pos) && IsMove(after, again, id, from)
    ensures again == ids
  {
    MoveUnique(after, again, ids, id, from);
  }

  /** Two items keep their relative order if neither is the one moved. */
  lemma {:induction false} WithoutKeepsOrder(ids: seq<string>, id: string, i: nat, j: nat) returns (x: nat, y: nat)
    requires i < j < |ids| && ids[i] != id && ids[j] != id
    ensures x < y < |Without(ids, id)| && Without(ids, id)[x] == ids[i] && Without(ids, id)[y] == ids[j]
    decreases |ids|
  {
    if i == 0 {
      x := 0;
      y := WithoutFinds(ids[1..], id, j - 1);
      y := y + 1;
    } else {
      x, y := WithoutKeepsOrder(ids[1..], id, i - 1, j - 1);
      if ids[0] != id {
        x, y := x + 1, y + 1;
      }
    }
  }

  lemma {:induction false} WithoutFinds(ids: seq<string>, id: string, j: nat) returns (y: nat)
    requires j < |ids| && ids[j] != id
    ensures y < |Without(ids, id)| && Without(ids, id)[y] == ids[j]
    decreases |ids|
  {
    if j == 0 {
      y := 0;
    } else {
      y := WithoutFinds(ids[1..], id, j - 1);
      if ids[0] != id {
        y := y + 1;
      }
    }
  }

  // ------------------------------------------------------------------ writing positions

  function Position(ids: seq<string>, id: string): (pos: nat)
    requires id in ids
    ensures pos < |ids| && ids[pos] == id
  {
    if ids[0] == id then 0 else 1 + Position(ids[1..], id)
  }

  lemma PositionAt(ids: seq<string>, i: nat)
    requires Distinct(ids) && i < |ids|
    ensures Position(ids, ids[i]) == i
  {
  }

  /** The write touches only rows that are still live in the channel. */
  function AfterWrite(rows: map<string, Row>, channel: string, ordered: seq<string>): map<string, Row> {
    map id | id in rows :: if id in ordered && Live(rows, channel, id) then rows[id].(sortOrder := Position(ordered, id)) else rows[id]
  }

  /** `ids` lists the items of `ordered`, whose rows are placed strictly by their index. */
  ghost predicate Placed(ids: seq<string>, ordered: seq<string>, after: map<string, Row>) {
    && Distinct(ids) && (forall i | 0 <= i < |ids| :: ids[i] in ordered) && |ids| == |ordered|
    && (forall i | 0 <= i < |ordered| :: ordered[i] in after && after[ordered[i]].sortOrder == i)
    && (forall i, j | 0 <= i < j < |ids| :: ids[i] in after && ids[j] in after && ListsBefore(after[ids[i]], after[ids[j]]))
  }

  lemma PositionsWritten(rows: map<string, Row>, channel: string, ordered: seq<string>, i: nat)
    requires Distinct(ordered) && i < |ordered| && Live(rows, channel, ordered[i])
    ensures ordered[i] in AfterWrite(rows, channel, ordered) && AfterWrite(rows, channel, ordered)[ordered[i]].sortOrder == i
  {
    PositionAt(ordered, i);
  }

  /** With every live row covered, the only list after the write is the written order, whatever the creation times. */
  lemma WrittenOrderIsTheList(rows: map<string, Row>, channel: string, ordered: seq<string>, ids: seq<string>)
    requires Distinct(ordered) && (forall id :: id in ordered <==> Live(rows, channel, id))
    ensures IsList(AfterWrite(rows, channel, ordered), channel, ids) <==> ids == ordered
    ensures forall i | 0 <= i < |ordered| ::
              ordered[i] in AfterWrite(rows, channel, ordered) && AfterWrite(rows, channel, ordered)[ordered[i]].sortOrder == i
  {
    var after := AfterWrite(rows, channel, ordered);
    forall i | 0 <= i < |ordered| ensures ordered[i] in after && after[ordered[i]].sortOrder == i {
      PositionsWritten(rows, channel, ordered, i);
    }
    forall id ensures Live(after, channel, id) <==> Live(rows, channel, id) {
    }
    if IsList(after, channel, ids) {
      SameLength(ids, ordered);
      forall k | 0 <= k < |ids| ensures ids[k] == ordered[k] {
        AtLeast(ids, ordered, after, k);
        AtMost(ids, ordered, after, k);
        assert ids[k] in ordered;
      }
    }
  }

  lemma SameLength(a: seq<string>, b: seq<string>)
    requires Distinct(a) && Distinct(b) && forall id :: id in a <==> id in b
    ensures |a| == |b|
  {
    DistinctElements(a);
    DistinctElements(b);
    assert Elements(a) == Elements(b);
  }

  lemma {:induction false} AtLeast(ids: seq<string>, ordered: seq<string>, after: map<string, Row>, k: nat)
    requires Placed(ids, ordered, after) && k < |ids|
    ensures ids[k] in after && after[ids[k]].sortOrder >= k
  {
    assert ids[k] in ordered;
    if k > 0 {
      AtLeast(ids, ordered, after, k - 1);
      assert ids[k - 1] in ordered && ids[k - 1] != ids[k] && ListsBefore(after[ids[k - 1]], after[ids[k]]);
    }
  }

  lemma {:induction false} AtMost(ids: seq<string>, ordered: seq<string>, after: map<string, Row>, k: nat)
    requires Placed(ids, ordered, after) && k < |ids|
    ensures ids[k] in after && after[ids[k]].sortOrder <= k
    decreases |ids| - k
  {
    assert ids[k] in ordered;
    if k < |ids| - 1 {
      AtMost(ids, ordered, after, k + 1);
      assert ids[k + 1] in ordered && ids[k] != ids[k + 1] && ListsBefore(after[ids[k]], after[ids[k + 1]]);
    }
  }

  /** The new order of a move request. */
  function Moved(ids: seq<string>, id: string, newPos: int): seq<string> {
    var rest := Without(ids, id);
    var pos := Clamp(newPos, |rest|);
    rest[..pos] + [id] + rest[pos..]
  }

  lemma {:induction false} WithoutDistinct(ids: seq<string>, id: string)
    requires Distinct(ids)
    ensures Distinct(Without(ids, id))
  {
    if ids != [] {
      WithoutDistinct(ids[1..], id);
      WithoutMembers(ids[1..], id, ids[0]);
    }
  }

  lemma InsertedDistinct(front: seq<string>, back: seq<string>, id: string)
    requires Distinct(front + back) && id !in front && id !in back
    ensures Distinct(front + [id] + back)
  {
    var l, m := front + back, front + [id] + back;
    forall i, j | 0 <= i < j < |m| ensures m[i] != m[j] {
      if i == |front| {
        assert m[j] == back[j - |front| - 1];
      } else if j == |front| {
        assert m[i] == front[i];
      } else {
        var x, y := if i < |front| then i else i - 1, if j < |front| then j else j - 1;
        assert m[i] == l[x] && m[j] == l[y];
      }
    }
  }

  lemma InsertedWithout(front: seq<string>, back: seq<string>, id: string)
    requires Distinct(front + [id] + back)
    ensures Without(front + [id] + back, id) == front + back
  {
    var l := front + [id] + back;
    WithoutAt(l, |front|);
    assert l[..|front|] == front && l[|front| + 1..] == back;
  }

  lemma {:induction false} WithoutMembers(ids: seq<string>, id: string, x: string)
    ensures x in Without(ids, id) <==> x in ids && x != id
  {
    if ids != [] {
      WithoutMembers(ids[1..], id, x);
      assert ids == [ids[0]] + ids[1..];
    }
  }

  /** A move request on a list that holds the item is a move to the clamped position. */
  lemma MovedIsMove(ids: seq<string>, id: string, newPos: int)
    requires Distinct(ids) && id in ids
    ensures IsMove(ids, Moved(ids, id, newPos), id, Clamp(newPos, |ids| - 1))
    ensures forall x :: x in Moved(ids, id, newPos) <==> x in ids
  {
    WithoutAt(ids, Position(ids, id));
    WithoutDistinct(ids, id);
    var rest := Without(ids, id);
    var pos := Clamp(newPos, |rest|);
    assert rest == rest[..pos] + rest[pos..];
    InsertedDistinct(rest[..pos], rest[pos..], id);
    InsertedWithout(rest[..pos], rest[pos..], id);
    forall x ensures x in Moved(ids, id, newPos) <==> x in ids {
      WithoutMembers(ids, id, x);
      assert x in rest <==> x in rest[..pos] || x in rest[pos..];
    }
  }

  class BookmarkStore {
    var rows: map<string, Row>

    constructor ()
      ensures rows == map[]
    {
      rows := map[];
    }

    method List(channel: string) returns (ids: seq<string>)
      ensures IsList(rows, channel, ids)
    {
      var remaining := LiveIds(rows, channel);
      ids := [];
      while remaining != {}
        invariant Distinct(ids)
        invariant forall id :: id in ids || id in remaining <==> Live(rows, channel, id)
        invariant forall i | 0 <= i < |ids| :: ids[i] !in remaining
        invariant forall i, j | 0 <= i < j < |ids| :: ids[i] in rows && ids[j] in rows && ListsBefore(rows[ids[i]], rows[ids[j]])
        invariant forall id | id in remaining :: AllBefore(rows, ids, id)
        decreases |remaining|
      {
        var first := Earliest(remaining);
        ids := ids + [first];
        remaining := remaining - {first};
      }
    }

    method Earliest(ids: set<string>) returns (first: string)
      requires ids != {} && ids <= rows.Keys
      ensures first in ids && forall id | id in ids :: ListsBefore(rows[first], rows[id])
    {
      first :| first in ids;
      var rest := ids - {first};
      while rest != {}
        invariant first in ids && rest <= ids
        invariant forall id | id in ids && id !in rest :: ListsBefore(rows[first], rows[id])
        decreases |rest|
      {
        var id :| id in rest;
        rest := rest - {id};
        if !ListsBefore(rows[first], rows[id]) {
          first := id;
        }
      }
    }

    /** The new order for a list that has been read: search, cut out, clamp, put back. */
    static method Plan(current: seq<string>, id: string, newPos: int) returns (result: Result<seq<string>, Error>)
      requires Distinct(current)
      ensures result == if id in current then Ok(Moved(current, id, newPos)) else Err(NotFound)
    {
      var from := -1;
      for i := 0 to |current|
        invariant from == -1 && id !in current[..i]
      {
        if current[i] == id {
          from := i;
          break;
        }
      }
      if from < 0 {
        assert current[..|current|] == current;
        return Err(NotFound);
      }
      WithoutAt(current, from);
      var rest := current[..from] + current[from + 1..];
      var pos := newPos;
      if pos < 0 {
        pos := 0;
      }
      if pos > |rest| {
        pos := |rest|;
      }
      var ordered := rest[..pos];
      ordered := ordered + [id];
      ordered := ordered + rest[pos..];
      return Ok(ordered);
    }

    /** `positions[i]` goes to `ordered[i]`. */
    method WritePositions(channel: string, ordered: seq<string>)
      requires Distinct(ordered)
      modifies this
      ensures rows == AfterWrite(old(rows), channel, ordered)
    {
      var positions: map<string, int> := map[];
      for i := 0 to |ordered|
        invariant positions.Keys == (set k | 0 <= k < i :: ordered[k])
        invariant forall k | 0 <= k < i :: ordered[k] in positions && positions[ordered[k]] == k
      {
        positions := positions[ordered[i] := i];
      }
      forall id | id in ordered ensures id in positions && positions[id] == Position(ordered, id) {
        assert ordered[Position(ordered, id)] == id;
      }
      rows := map id | id in rows ::
        if id in positions && Live(rows, channel, id) then rows[id].(sortOrder := positions[id]) else rows[id];
    }

    /**
     * A reorder that nothing interrupts: afterwards the list is the one before it with the item moved to the
     * clamped place, and the positions are 0 to n - 1.
     */
    method Reorder(channel: string, id: string, newPos: int) returns (error: Option<Error>, ghost before: seq<string>)
      modifies this
      ensures IsList(old(rows), channel, before)
      ensures error == if Live(old(rows), channel, id) then None else Some(NotFound)
      ensures error.Some? ==> rows == old(rows)
      ensures error.None? ==>
                && rows == AfterWrite(old(rows), channel, Moved(before, id, newPos))
                && IsMove(before, Moved(before, id, newPos), id,
                          if newPos < 0 then 0 else if newPos >= |before| then |before| - 1 else newPos)
                && (forall ids :: IsList(rows, channel, ids) <==> ids == Moved(before, id, newPos))
                && (forall i | 0 <= i < |before| ::
                      Moved(before, id, newPos)[i] in rows && rows[Moved(before, id, newPos)[i]].sortOrder == i)
    {
      var current := List(channel);
      before := current;
      var plan := Plan(current, id, newPos);
      if plan.Err? {
        return Some(NotFound), before;
      }
      MovedIsMove(current, id, newPos);
      WritePositions(channel, plan.value);
      forall ids ensures IsList(rows, channel, ids) <==> ids == plan.value {
        WrittenOrderIsTheList(old(rows), channel, plan.value, ids);
      }
      WrittenOrderIsTheList(old(rows), channel, plan.value, plan.value);
      return None, before;
    }

    method Delete(channel: string, id: string) returns (error: Option<Error>)
      modifies this
      ensures error == if Live(old(rows), channel, id) then None else Some(NotFound)
      ensures rows == AfterDelete(old(rows), channel, id)
    {
      if id !in rows || rows[id].channelId != channel || rows[id].deleted {
        return Some(NotFound);
      }
      rows := rows[id := rows[id].(deleted := true)];
      return None;
    }

    /** Of a patch only the position is modelled; without one the position stays. */
    method Patch(channel: string, id: string, sortOrder: Option<int>) returns (error: Option<Error>)
      modifies this
      ensures error == if Live(old(rows), channel, id) then None else Some(NotFound)
      ensures rows == if sortOrder.Some? then AfterPlace(old(rows), channel, id, sortOrder.value) else old(rows)
    {
      if id !in rows || rows[id].channelId != channel || rows[id].deleted {
        return Some(NotFound);
      }
      if sortOrder.Some? {
        rows := rows[id := rows[id].(sortOrder := sortOrder.value)];
      }
      return None;
    }

    method MaxOrder(channel: string) returns (max: int)
      ensures IsHighest(rows, channel, max)
    {
      max := 0;
      var first, rest := true, LiveIds(rows, channel);
      while rest != {}
        invariant rest <= LiveIds(rows, channel) && (first <==> rest == LiveIds(rows, channel))
        invariant first ==> max == 0
        invariant !first ==> exists id | id in LiveIds(rows, channel) :: rows[id].sortOrder == max
        invariant forall id | id in LiveIds(rows, channel) && id !in rest :: rows[id].sortOrder <= max
        decreases |rest|
      {
        var id :| id in rest;
        rest := rest - {id};
        if first || rows[id].sortOrder > max {
          max := rows[id].sortOrder;
        }
        first := false;
      }
    }

    /** A requested order of zero means the end of the list. */
    method Create(id: string, channel: string, requested: int, now: int) returns (sortOrder: int)
      requires id !in rows
      modifies this
      ensures requested != 0 ==> sortOrder == requested
      ensures requested == 0 ==> IsHighest(old(rows), channel, sortOrder - 1)
      ensures rows == old(rows)[id := Row(channel, sortOrder, now, false)]
    {
      sortOrder := requested;
      if sortOrder == 0 {
        var max := MaxOrder(channel);
        sortOrder := max + 1;
      }
      rows := rows[id := Row(channel, sortOrder, now, false)];
    }
  }

  /** `COALESCE(MAX(sort_order), 0)` over the live rows of a channel. */
  predicate IsHighest(rows: map<string, Row>, channel: string, max: int) {
    var ids := LiveIds(rows, channel);
    (forall id | id in ids :: rows[id].sortOrder <= max) && (if ids == {} then max == 0 else exists id | id in ids :: rows[id].sortOrder == max)
  }

  function AfterPlace(rows: map<string, Row>, channel: string, id: string, sortOrder: int): map<string, Row> {
    if Live(rows, channel, id) then rows[id := rows[id].(sortOrder := sortOrder)] else rows
  }

  function AfterDelete(rows: map<string, Row>, channel: string, id: string): map<string, Row> {
    if Live(rows, channel, id) then rows[id := rows[id].(deleted := true)] else rows
  }
}
