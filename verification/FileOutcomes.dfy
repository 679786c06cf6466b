/** What uploads, thumbnails, discards and attachments leave behind, said in plain columns and objects. */
module FileOutcomes {
  import opened Wrappers
  import opened FileNames
  import opened Files
  import opened FileRuns

  // ------------------------------------------------------------------ attaching

  /**
   * An attachment sets the post of exactly the requested rows of the owner that had none; no other row and no other
   * column changes.
   */
  lemma AttachOutcome(rows: map<string, Row>, owner: string, ids: seq<string>, postId: string, id: string)
    requires id in rows
    ensures var r, after := rows[id], AfterAttach(rows, owner, ids, postId);
            && after.Keys == rows.Keys && id in after
            && after[id].owner == r.owner && after[id].name == r.name && after[id].thumbnail == r.thumbnail
            && (after[id].postId == Some(postId) <==>
                  r.postId == Some(postId) || (id in ids && r.owner == owner && r.postId == None))
            && (after[id].postId != Some(postId) ==> after[id].postId == r.postId)
  {
  }

  /** The answer holds exactly the requested files of the owner that are on the post afterwards. */
  lemma AnswerOutcome(rows: map<string, Row>, owner: string, ids: seq<string>, postId: string, id: string)
    ensures id in Canonical(AfterAttach(rows, owner, ids, postId), owner, ids, postId) <==>
              && id in ids && id in rows && rows[id].owner == owner
              && (rows[id].postId == None || rows[id].postId == Some(postId))
  {
    CanonicalIsAttached(AfterAttach(rows, owner, ids, postId), owner, ids, postId, id);
  }

  /** The answer lists them by the first place at which they were asked for. */
  lemma {:induction false} AnswerOrder(rows: map<string, Row>, owner: string, ids: seq<string>, postId: string, i: nat, j: nat)
    returns (x: nat, y: nat)
    requires i < j < |Canonical(rows, owner, ids, postId)|
    ensures x < y < |ids| && ids[x] == Canonical(rows, owner, ids, postId)[i] && ids[y] == Canonical(rows, owner, ids, postId)[j]
    ensures ids[y] !in ids[..y]
    decreases |ids|
  {
    var last := |ids| - 1;
    var front := Canonical(rows, owner, ids[..last], postId);
    if j < |front| {
      x, y := AnswerOrder(rows, owner, ids[..last], postId, i, j);
      assert ids[..last][..y] == ids[..y];
    } else {
      y := last;
      CanonicalIsAttached(rows, owner, ids[..last], postId, front[i]);
      x :| 0 <= x < last && ids[..last][x] == front[i];
    }
  }

  /** A file on a post cannot be taken by another, and cannot be discarded. */
  lemma AttachedIsKept(s: State, id: string, postId: string, owner: string, ids: seq<string>, other: string)
    requires id in s.rows && s.rows[id].postId == Some(postId)
    ensures id in AfterAttach(s.rows, owner, ids, other) && AfterAttach(s.rows, owner, ids, other)[id] == s.rows[id]
    ensures AfterDiscardRow(s, id) == s
  {
  }

  // ------------------------------------------------------------------ uploading

  /** An upload that goes well: the object under its name, a row of its owner on no post, an image waiting for its thumbnail. */
  lemma UploadOutcome(s: State, id: string, owner: string, name: string, bytes: string, image: bool)
    requires id !in s.files
    ensures var t := Exec(s, [WriteOriginal(id, owner, name, bytes, image), InsertRow(id, true)]);
            && t.objects == s.objects[Path(id, name) := Original(bytes)]
            && t.rows == s.rows[id := Row(owner, name, "", None)]
            && t.files == s.files[id := File(owner, name, bytes, image, Recorded, if image then Opening else NoThumb, NoDiscard)]
  {
    Two(s, WriteOriginal(id, owner, name, bytes, image), InsertRow(id, true));
  }

  /** An upload whose row cannot be inserted takes its object back. */
  lemma FailedUploadOutcome(s: State, id: string, owner: string, name: string, bytes: string, image: bool)
    requires id !in s.files && Path(id, name) !in s.objects
    ensures var t := Exec(s, [WriteOriginal(id, owner, name, bytes, image), InsertRow(id, false)]);
            && t.objects == s.objects && t.rows == s.rows
            && t.files == s.files[id := File(owner, name, bytes, image, Rejected, NoThumb, NoDiscard)]
  {
    Two(s, WriteOriginal(id, owner, name, bytes, image), InsertRow(id, false));
  }

  lemma Two(s: State, a: Step, b: Step)
    ensures Exec(s, [a, b]) == Apply(Apply(s, a), b)
  {
    assert [a, b][..1] == [a] && [a][..0] == [];
    assert Exec(s, [a]) == Apply(Exec(s, []), a);
  }

  lemma Three(s: State, a: Step, b: Step, c: Step)
    ensures Exec(s, [a, b, c]) == Apply(Apply(Apply(s, a), b), c)
  {
    assert [a, b, c][..2] == [a, b];
    Two(s, a, b);
  }

  /**
   * The thumbnail goroutine: with a stored original that decodes, the thumbnail lies beside it and the row names it; if
   * the row is gone by then or cannot be updated, the thumbnail is taken away again.
   */
  lemma ThumbnailOutcome(s: State, id: string, ok: bool)
    requires id in s.files && s.files[id].thumb == Opening && Path(id, s.files[id].name) in s.objects
    ensures var t := Exec(s, [OpenOriginal(id, true), WriteThumb(id), RecordThumb(id, ok)]); var thumb := Path(id, "thumb.jpg");
            && id in t.files && t.files == s.files[id := t.files[id]]
            && t.files[id] == s.files[id].(thumb := if ok && id in s.rows then Finished else Withdrawn)
            && (ok && id in s.rows ==>
                  t.objects == s.objects[thumb := Thumbnail] && t.rows == s.rows[id := s.rows[id].(thumbnail := "thumb.jpg")])
            && (!ok || id !in s.rows ==> t.objects == s.objects - {thumb} && t.rows == s.rows)
  {
    Three(s, OpenOriginal(id, true), WriteThumb(id), RecordThumb(id, ok));
    assert s.objects[Path(id, "thumb.jpg") := Thumbnail] - {Path(id, "thumb.jpg")} == s.objects - {Path(id, "thumb.jpg")};
  }

  /** Without its original, or with one that does not decode, the goroutine stops and leaves everything as it was. */
  lemma NoThumbnailOutcome(s: State, id: string, decodes: bool, ok: bool)
    requires id in s.files && s.files[id].thumb == Opening && (Path(id, s.files[id].name) !in s.objects || !decodes)
    ensures var t := Exec(s, [OpenOriginal(id, decodes), WriteThumb(id), RecordThumb(id, ok)]);
            t == s.(files := s.files[id := s.files[id].(thumb := Finished)])
  {
    Three(s, OpenOriginal(id, decodes), WriteThumb(id), RecordThumb(id, ok));
  }

  // ------------------------------------------------------------------ discarding

  /** A discarded file on no post loses its row, the thumbnail its row named, and its original, and nothing else goes. */
  lemma DiscardOutcome(s: State, id: string)
    requires id in s.files && id in s.rows && s.rows[id].postId == None
    ensures var t := Exec(s, [DeleteRow(id), RemoveThumb(id), RemoveOriginal(id)]); var thumbnail := s.rows[id].thumbnail;
            && t.rows == s.rows - {id}
            && t.objects == s.objects - (if thumbnail != "" then {Path(id, thumbnail)} else {}) - {Path(id, s.files[id].name)}
            && t.files == s.files[id := s.files[id].(discard := Discarded)]
  {
    Three(s, DeleteRow(id), RemoveThumb(id), RemoveOriginal(id));
  }

  /** The steps of an upload, a goroutine and a discard wait for each other: out of turn they do nothing. */
  lemma OutOfTurn(s: State, id: string, ok: bool, decodes: bool)
    ensures id !in s.files || s.files[id].upload != Written ==> AfterInsert(s, id, ok) == s
    ensures id !in s.files || s.files[id].thumb != Opening ==> AfterOpen(s, id, decodes) == s
    ensures id !in s.files || s.files[id].thumb != Scaling ==> AfterThumbWrite(s, id) == s
    ensures id !in s.files || s.files[id].thumb != Stored ==> AfterThumbRecord(s, id, ok) == s
    ensures id !in s.files || !s.files[id].discard.RemovingThumb? ==> AfterDiscardThumb(s, id) == s
    ensures id !in s.files || s.files[id].discard != RemovingOriginal ==> AfterDiscardOriginal(s, id) == s
    ensures id in s.files ==> forall owner, name, bytes, image :: AfterWrite(s, id, owner, name, bytes, image) == s
  {
  }

  // ------------------------------------------------------------------ names

  /** Every slash and backslash of a name becomes an underscore in its place. */
  lemma {:induction false} SlashesReplaced(s: string, c: char, i: nat)
    requires i < |s|
    ensures ReplaceChar(s, c)[i] == if s[i] == c then '_' else s[i]
  {
    if i > 0 {
      SlashesReplaced(s[1..], c, i - 1);
    }
  }

  /** The first two adjacent dots of a name become one underscore, and the rest is treated the same way. */
  lemma {:induction false} DotsReplaced(a: string, b: string)
    requires !HasDots(a) && (a != "" ==> a[|a| - 1] != '.')
    ensures ReplaceDots(a + ".." + b) == a + "_" + ReplaceDots(b)
  {
    var s := a + ".." + b;
    if a == "" {
      assert s[0] == '.' && s[1] == '.' && s[2..] == b;
    } else {
      assert s[1..] == a[1..] + ".." + b && s[0] == a[0];
      assert !(s[0] == '.' && s[1] == '.') by {
        if |a| > 1 { assert s[1] == a[1]; }
      }
      assert !HasDots(a[1..]) by {
        forall i | 0 <= i < |a[1..]| - 1 ensures !(a[1..][i] == '.' && a[1..][i + 1] == '.') {
          assert a[1..][i] == a[i + 1] && a[1..][i + 1] == a[i + 2];
        }
      }
      assert a[1..] != "" ==> a[1..][|a[1..]| - 1] == a[|a| - 1];
      DotsReplaced(a[1..], b);
      assert a + "_" + ReplaceDots(b) == [a[0]] + (a[1..] + "_" + ReplaceDots(b));
    }
  }

  /** A stored name is the given one with slashes, then backslash and dots replaced, or the fallback if nothing is given. */
  lemma StoredName(name: string, fallback: string)
    ensures Sanitize("", fallback) == fallback
    ensures name != "" ==> Sanitize(name, fallback) == ReplaceDots(ReplaceChar(ReplaceChar(name, '\\'), '/'))
  {
    if name != "" {
      ReplaceDotsRemoves(ReplaceChar(ReplaceChar(name, '\\'), '/'), 'x');
    }
  }
}
