/** Where bookmarks stand after each operation, said in plain places and columns. */
module BookmarkOutcomes {
  import opened Wrappers
  import opened Ordering
  import opened Bookmarks
  import opened BookmarkRuns

  /** A place asked for before the first is the first, one past the last is the last, any other is taken as it is. */
  function PlaceFor(newPos: int, count: nat): int {
    if newPos < 0 then 0 else if newPos >= count then count - 1 else newPos
  }

  /**
   * The list after a move, place by place: the item stands at the place asked for, the items between its old and new
   * places step one place towards the old one, and all others stay.
   */
  lemma MoveOutcome(ids: seq<string>, from: nat, newPos: int, k: nat)
    requires Distinct(ids) && from < |ids| && k < |ids|
    ensures var after, to := Moved(ids, ids[from], newPos), PlaceFor(newPos, |ids|);
            && |after| == |ids|
            && after[k] == (if k == to then ids[from]
                            else if from <= k < to then ids[k + 1]
                            else if to < k <= from then ids[k - 1]
                            else ids[k])
  {
    WithoutAt(ids, from);
    var rest, to := Without(ids, ids[from]), PlaceFor(newPos, |ids|);
    forall i | 0 <= i < |rest| ensures rest[i] == if i < from then ids[i] else ids[i + 1] {
    }
    var after := rest[..to] + [ids[from]] + rest[to..];
    assert Moved(ids, ids[from], newPos) == after && |after| == |ids|;
    if k < to {
      assert after[k] == rest[k];
    } else if k > to {
      assert after[k] == rest[k - 1];
    }
  }

  /** Both rows have the position and creation time that let the first come before the second, or either first if they tie. */
  predicate InOrder(a: Row, b: Row) {
    a.sortOrder < b.sortOrder || (a.sortOrder == b.sortOrder && (a.createAt < b.createAt || a.createAt == b.createAt))
  }

  /** A list is any order by position and creation time of exactly the live bookmarks of the channel, each once. */
  lemma ListOutcome(rows: map<string, Row>, channel: string, ids: seq<string>)
    ensures IsList(rows, channel, ids) <==>
              && (forall id :: id in ids <==> id in rows && rows[id].channelId == channel && !rows[id].deleted)
              && (forall i, j | 0 <= i < j < |ids| ::
                    ids[i] != ids[j] && ids[i] in rows && ids[j] in rows && InOrder(rows[ids[i]], rows[ids[j]]))
  {
    if IsList(rows, channel, ids) {
      forall id ensures id in ids <==> id in rows && rows[id].channelId == channel && !rows[id].deleted {
        assert id in ids <==> Live(rows, channel, id);
      }
    }
  }

  /** A write gives each listed live row of the channel its place in the list and changes nothing else. */
  lemma WriteOutcome(rows: map<string, Row>, channel: string, ordered: seq<string>, id: string, i: nat)
    requires Distinct(ordered) && id in rows
    ensures var after := AfterWrite(rows, channel, ordered);
            && after.Keys == rows.Keys && id in after
            && (i < |ordered| && ordered[i] == id && rows[id].channelId == channel && !rows[id].deleted ==>
                  after[id] == Row(channel, i, rows[id].createAt, false))
            && (id !in ordered || rows[id].channelId != channel || rows[id].deleted ==> after[id] == rows[id])
  {
    if i < |ordered| { PositionAt(ordered, i); }
  }

  /**
   * A reorder that nothing interrupts, from the stored rows to the next list: whatever the positions and creation times
   * were, the next list is the old one with the item moved to the place asked for.
   */
  lemma ReorderOutcome(rows: map<string, Row>, channel: string, ids: seq<string>, from: nat, newPos: int, next: seq<string>, k: nat)
    requires IsList(rows, channel, ids) && from < |ids| && k < |ids|
    requires IsList(AfterWrite(rows, channel, Moved(ids, ids[from], newPos)), channel, next)
    ensures var to := PlaceFor(newPos, |ids|);
            && |next| == |ids|
            && next[k] == (if k == to then ids[from]
                           else if from <= k < to then ids[k + 1]
                           else if to < k <= from then ids[k - 1]
                           else ids[k])
  {
    var ordered := Moved(ids, ids[from], newPos);
    MovedIsMove(ids, ids[from], newPos);
    forall id ensures id in ordered <==> Live(rows, channel, id) {
      assert id in ids <==> Live(rows, channel, id);
    }
    WrittenOrderIsTheList(rows, channel, ordered, next);
    MoveOutcome(ids, from, newPos, k);
  }

  /** Deleting takes exactly that live bookmark of the channel off the list; its row stays, marked. */
  lemma DeleteOutcome(rows: map<string, Row>, channel: string, id: string, other: string)
    ensures var after := AfterDelete(rows, channel, id);
            && after.Keys == rows.Keys
            && (other in rows && other != id ==> after[other] == rows[other])
            && (id in rows ==> after[id] == if rows[id].channelId == channel then rows[id].(deleted := true) else rows[id])
  {
  }

  /** Placing sets the position of exactly that live bookmark of the channel. */
  lemma PlaceOutcome(rows: map<string, Row>, channel: string, id: string, position: int, other: string)
    ensures var after := AfterPlace(rows, channel, id, position);
            && after.Keys == rows.Keys
            && (other in rows && other != id ==> after[other] == rows[other])
            && (id in rows ==> after[id] == if rows[id].channelId == channel && !rows[id].deleted
                                            then rows[id].(sortOrder := position) else rows[id])
  {
  }

  /** The highest position of a channel is that of one of its live bookmarks, none of which is higher; it is zero without any. */
  lemma HighestOutcome(rows: map<string, Row>, channel: string, max: int)
    ensures IsHighest(rows, channel, max) <==>
              && (forall id | id in rows && rows[id].channelId == channel && !rows[id].deleted :: rows[id].sortOrder <= max)
              && ((exists top :: top in rows && rows[top].channelId == channel && !rows[top].deleted && rows[top].sortOrder == max)
                  || (max == 0 && forall id | id in rows && rows[id].channelId == channel :: rows[id].deleted))
  {
    var ids := LiveIds(rows, channel);
    forall id ensures id in ids <==> id in rows && rows[id].channelId == channel && !rows[id].deleted {
    }
    if ids == {} {
      forall id | id in rows && rows[id].channelId == channel ensures rows[id].deleted {
        assert id !in ids;
      }
    } else {
      var some :| some in ids;
    }
  }

  /** A creation adds one live bookmark, at the position asked for, or one behind the maximum it read if none was. */
  lemma InsertOutcome(s: State, id: string, channel: string, requested: int, highest: int, at: int)
    requires id !in s.rows
    ensures var position := if requested != 0 then requested else highest + 1;
            Apply(s, Insert(id, channel, requested, highest, at)) == s.(rows := s.rows[id := Row(channel, position, at, false)])
  {
  }

  /** A bookmark created without a position goes behind every live one of its channel, if its maximum is still true. */
  lemma CreatedLast(rows: map<string, Row>, channel: string, id: string, max: int, at: int, ids: seq<string>)
    requires id !in rows && IsHighest(rows, channel, max)
    requires IsList(rows[id := Row(channel, InsertedAt(0, max), at, false)], channel, ids)
    ensures ids != [] && ids[|ids| - 1] == id
  {
    var after := rows[id := Row(channel, InsertedAt(0, max), at, false)];
    assert Live(after, channel, id) && id in ids;
    var last := ids[|ids| - 1];
    assert last in ids && Live(after, channel, last);
  }
}
