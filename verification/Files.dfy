/** Stored objects, file rows and the atomic steps of uploads, thumbnails, discards and attachments. */
module Files {
  import opened Wrappers
  import opened FileNames

  datatype Path = Path(id: string, name: string)

  datatype Content = Original(bytes: string) | Thumbnail

  datatype Row = Row(owner: string, name: string, thumbnail: string, postId: Option<string>)

  datatype UploadPhase = Written | Recorded | Rejected

  datatype ThumbPhase = NoThumb | Opening | Scaling | Stored | Finished | Withdrawn

  datatype DiscardPhase = NoDiscard | RemovingThumb(thumbnail: string) | RemovingOriginal | Discarded

  /** How far the three activities on one upload have got. */
  datatype File = File(owner: string, name: string, bytes: string, image: bool,
                       upload: UploadPhase, thumb: ThumbPhase, discard: DiscardPhase)

  datatype State = State(objects: map<Path, Content>, rows: map<string, Row>, files: map<string, File>)

  function AfterWrite(s: State, id: string, owner: string, name: string, bytes: string, image: bool): State {
    if id in s.files then s
    else s.(objects := s.objects[Path(id, name) := Original(bytes)],
            files := s.files[id := File(owner, name, bytes, image, Written, NoThumb, NoDiscard)])
  }

  function AfterInsert(s: State, id: string, ok: bool): State {
    if id !in s.files || s.files[id].upload != Written then s
    else
      var f := s.files[id];
      if ok then
        s.(rows := s.rows[id := Row(f.owner, f.name, "", None)],
           files := s.files[id := f.(upload := Recorded, thumb := if f.image then Opening else f.thumb)])
      else
        s.(objects := s.objects - {Path(id, f.name)}, files := s.files[id := f.(upload := Rejected)])
  }

  /** The goroutine gives up when the original is gone or cannot be decoded. */
  function AfterOpen(s: State, id: string, decodes: bool): State {
    if id !in s.files || s.files[id].thumb != Opening then s
    else
      var f := s.files[id];
      s.(files := s.files[id := f.(thumb := if Path(id, f.name) in s.objects && decodes then Scaling else Finished)])
  }

  function AfterThumbWrite(s: State, id: string): State {
    if id !in s.files || s.files[id].thumb != Scaling then s
    else s.(objects := s.objects[Path(id, THUMB) := Thumbnail], files := s.files[id := s.files[id].(thumb := Stored)])
  }

  /** No row to update, or an update that fails: the thumbnail is removed again. */
  function AfterThumbRecord(s: State, id: string, ok: bool): State {
    if id !in s.files || s.files[id].thumb != Stored then s
    else if ok && id in s.rows then
      s.(rows := s.rows[id := s.rows[id].(thumbnail := THUMB)], files := s.files[id := s.files[id].(thumb := Finished)])
    else
      s.(objects := s.objects - {Path(id, THUMB)}, files := s.files[id := s.files[id].(thumb := Withdrawn)])
  }

  function AfterDiscardRow(s: State, id: string): State {
    if id !in s.rows || id !in s.files || s.rows[id].postId.Some? then s
    else s.(rows := s.rows - {id}, files := s.files[id := s.files[id].(discard := RemovingThumb(s.rows[id].thumbnail))])
  }

  function AfterDiscardThumb(s: State, id: string): State {
    if id !in s.files || !s.files[id].discard.RemovingThumb? then s
    else
      var t := s.files[id].discard.thumbnail;
      s.(objects := if t != "" then s.objects - {Path(id, t)} else s.objects,
         files := s.files[id := s.files[id].(discard := RemovingOriginal)])
  }

  function AfterDiscardOriginal(s: State, id: string): State {
    if id !in s.files || !s.files[id].discard.RemovingOriginal? then s
    else s.(objects := s.objects - {Path(id, s.files[id].name)}, files := s.files[id := s.files[id].(discard := Discarded)])
  }

  // ------------------------------------------------------------------ attaching to a post

  predicate Attached(rows: map<string, Row>, owner: string, postId: string, id: string) {
    id in rows && rows[id].owner == owner && rows[id].postId == Some(postId)
  }

  predicate Attachable(rows: map<string, Row>, owner: string, id: string) {
    id in rows && rows[id].owner == owner && rows[id].postId.None?
  }

  function AfterAttach(rows: map<string, Row>, owner: string, ids: seq<string>, postId: string): map<string, Row> {
    map id | id in rows :: if id in ids && Attachable(rows, owner, id) then rows[id].(postId := Some(postId)) else rows[id]
  }

  /** The requested ids, each once, that are attached to the post in `rows`, in the order of the request. */
  function Canonical(rows: map<string, Row>, owner: string, ids: seq<string>, postId: string): seq<string> {
    if ids == [] then []
    else
      var last := ids[|ids| - 1];
      var front := Canonical(rows, owner, ids[..|ids| - 1], postId);
      if last !in ids[..|ids| - 1] && Attached(rows, owner, postId, last) then front + [last] else front
  }

  function AfterAssociate(s: State, owner: string, ids: seq<string>, postId: string): State {
    s.(rows := AfterAttach(s.rows, owner, ids, postId))
  }

  class FileService {
    var objects: map<Path, Content>
    var rows: map<string, Row>
    var files: map<string, File>

    function View(): State
      reads this
    {
      State(objects, rows, files)
    }

    constructor ()
      ensures View() == State(map[], map[], map[])
    {
      objects, rows, files := map[], map[], map[];
    }

    method UploadWrite(id: string, owner: string, name: string, bytes: string, image: bool)
      requires id !in files
      modifies this
      ensures View() == AfterWrite(old(View()), id, owner, name, bytes, image)
    {
      objects := objects[Path(id, name) := Original(bytes)];
      files := files[id := File(owner, name, bytes, image, Written, NoThumb, NoDiscard)];
    }

    /** The insert of an upload; when it fails the object is removed. */
    method UploadInsert(id: string, ok: bool)
      requires id in files && files[id].upload == Written
      modifies this
      ensures View() == AfterInsert(old(View()), id, ok)
    {
      var f := files[id];
      if !ok {
        objects := objects - {Path(id, f.name)};
        files := files[id := f.(upload := Rejected)];
        return;
      }
      rows := rows[id := Row(f.owner, f.name, "", None)];
      f := f.(upload := Recorded);
      if f.image {
        f := f.(thumb := Opening);
      }
      files := files[id := f];
    }

    method ThumbnailOpen(id: string, decodes: bool)
      requires id in files && files[id].thumb == Opening
      modifies this`files
      ensures View() == AfterOpen(old(View()), id, decodes)
    {
      var phase := Scaling;
      if Path(id, files[id].name) !in objects {
        phase := Finished;
      } else if !decodes {
        phase := Finished;
      }
      files := files[id := files[id].(thumb := phase)];
    }

    method ThumbnailWrite(id: string)
      requires id in files && files[id].thumb == Scaling
      modifies this
      ensures View() == AfterThumbWrite(old(View()), id)
    {
      objects := objects[Path(id, THUMB) := Thumbnail];
      files := files[id := files[id].(thumb := Stored)];
    }

    method ThumbnailRecord(id: string, ok: bool)
      requires id in files && files[id].thumb == Stored
      modifies this
      ensures View() == AfterThumbRecord(old(View()), id, ok)
    {
      var affected := 0;
      if ok && id in rows {
        rows := rows[id := rows[id].(thumbnail := THUMB)];
        files := files[id := files[id].(thumb := Finished)];
        affected := 1;
      }
      if !ok || affected == 0 {
        objects := objects - {Path(id, THUMB)};
        files := files[id := files[id].(thumb := Withdrawn)];
      }
    }

    method DiscardRow(id: string) returns (found: bool)
      requires id in rows ==> id in files
      modifies this
      ensures View() == AfterDiscardRow(old(View()), id)
      ensures found == (id in old(rows) && old(rows)[id].postId.None?)
    {
      if id !in rows || rows[id].postId.Some? {
        return false;
      }
      var thumbnail := rows[id].thumbnail;
      rows := rows - {id};
      files := files[id := files[id].(discard := RemovingThumb(thumbnail))];
      return true;
    }

    method DiscardThumbnail(id: string)
      requires id in files && files[id].discard.RemovingThumb?
      modifies this
      ensures View() == AfterDiscardThumb(old(View()), id)
    {
      if files[id].discard.thumbnail != "" {
        objects := objects - {Path(id, files[id].discard.thumbnail)};
      }
      files := files[id := files[id].(discard := RemovingOriginal)];
    }

    method DiscardOriginal(id: string)
      requires id in files && files[id].discard.RemovingOriginal?
      modifies this
      ensures View() == AfterDiscardOriginal(old(View()), id)
    {
      objects := objects - {Path(id, files[id].name)};
      files := files[id := files[id].(discard := Discarded)];
    }

    /** One statement: rows already attached and rows attached now, in request order. */
    method AssociateWithPost(owner: string, ids: seq<string>, postId: string) returns (attached: seq<string>)
      modifies this`rows
      ensures View() == AfterAssociate(old(View()), owner, ids, postId)
      ensures attached == Canonical(rows, owner, ids, postId)
      ensures rows.Keys == old(rows.Keys)
      ensures forall id | id in rows ::
                rows[id] == if id in ids && old(rows)[id].owner == owner && old(rows)[id].postId.None?
                            then old(rows)[id].(postId := Some(postId)) else old(rows)[id]
    {
      var existing := set id | id in rows && id in ids && rows[id].owner == owner && rows[id].postId == Some(postId);
      var updated := set id | id in rows && id in ids && rows[id].owner == owner && rows[id].postId.None?;
      rows := map id | id in rows :: if id in updated then rows[id].(postId := Some(postId)) else rows[id];
      attached := [];
      for i := 0 to |ids|
        invariant attached == Canonical(rows, owner, ids[..i], postId)
      {
        assert ids[..i + 1][..i] == ids[..i];
        if ids[i] !in ids[..i] && ids[i] in existing + updated {
          attached := attached + [ids[i]];
        }
      }
      assert ids[..|ids|] == ids;
    }
  }

  /** What an attachment returns: exactly the requested ids attached afterwards, each once; repeating it changes nothing. */
  lemma {:induction false} CanonicalIsAttached(rows: map<string, Row>, owner: string, ids: seq<string>, postId: string,
                                               id: string)
    ensures id in Canonical(rows, owner, ids, postId) <==> id in ids && Attached(rows, owner, postId, id)
    ensures forall i, j | 0 <= i < j < |Canonical(rows, owner, ids, postId)| ::
              Canonical(rows, owner, ids, postId)[i] != Canonical(rows, owner, ids, postId)[j]
  {
    if ids != [] {
      var front, last := ids[..|ids| - 1], ids[|ids| - 1];
      CanonicalIsAttached(rows, owner, front, postId, id);
      CanonicalIsAttached(rows, owner, front, postId, last);
      assert id in ids <==> id in front || id == last by {
        assert ids == front + [last];
      }
    }
  }

  lemma AttachIsIdempotent(rows: map<string, Row>, owner: string, ids: seq<string>, postId: string)
    ensures var once := AfterAttach(rows, owner, ids, postId);
            && AfterAttach(once, owner, ids, postId) == once
            && (forall id | id in rows && rows[id].postId.Some? :: once[id] == rows[id])
            && (forall id | id in once && once[id] != rows[id] ::
                  id in ids && Attachable(rows, owner, id) && Attached(once, owner, postId, id))
  {
  }
}
