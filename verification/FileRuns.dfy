/** Every interleaving of uploads, thumbnail goroutines, discards and attachments, over any number of files. */
module FileRuns {
  import opened Wrappers
  import opened FileNames
  import opened Files

  datatype Step =
    | WriteOriginal(id: string, owner: string, name: string, bytes: string, image: bool)
    | InsertRow(id: string, ok: bool)
    | OpenOriginal(id: string, decodes: bool)
    | WriteThumb(id: string)
    | RecordThumb(id: string, ok: bool)
    | DeleteRow(id: string)
    | RemoveThumb(id: string)
    | RemoveOriginal(id: string)
    | Associate(owner: string, ids: seq<string>, postId: string)

  function Apply(s: State, step: Step): State {
    match step
    case WriteOriginal(id, owner, name, bytes, image) => AfterWrite(s, id, owner, name, bytes, image)
    case InsertRow(id, ok) => AfterInsert(s, id, ok)
    case OpenOriginal(id, decodes) => AfterOpen(s, id, decodes)
    case WriteThumb(id) => AfterThumbWrite(s, id)
    case RecordThumb(id, ok) => AfterThumbRecord(s, id, ok)
    case DeleteRow(id) => AfterDiscardRow(s, id)
    case RemoveThumb(id) => AfterDiscardThumb(s, id)
    case RemoveOriginal(id) => AfterDiscardOriginal(s, id)
    case Associate(owner, ids, postId) => AfterAssociate(s, owner, ids, postId)
  }

  const Empty: State := State(map[], map[], map[])

  function Exec(s: State, steps: seq<Step>): State {
    if steps == [] then s else Apply(Exec(s, steps[..|steps| - 1]), steps[|steps| - 1])
  }

  // ------------------------------------------------------------------ who answers for an object

  /** The names in a file's directory that its row or one of its unfinished activities answers for. */
  predicate AnsweredFor(s: State, id: string, name: string)
    requires id in s.files
  {
    var f := s.files[id];
    || (f.upload == Written && name == f.name)
    || (id in s.rows && (name == s.rows[id].name || (s.rows[id].thumbnail != "" && name == s.rows[id].thumbnail)))
    || (f.thumb == Stored && name == THUMB)
    || (f.discard.RemovingThumb? && (name == f.name || (f.discard.thumbnail != "" && name == f.discard.thumbnail)))
    || (f.discard.RemovingOriginal? && name == f.name)
  }

  /** The thumbnail of an upload named like the thumbnail has replaced its bytes. */
  predicate Overwritten(s: State, id: string)
    requires id in s.files && id in s.rows
  {
    s.files[id].name == THUMB && (s.files[id].thumb == Stored || s.rows[id].thumbnail != "")
  }

  /** The thumbnail of such an upload was removed again, and its bytes with it. */
  predicate Gone(s: State, id: string)
    requires id in s.files
  {
    s.files[id].name == THUMB && s.files[id].thumb == Withdrawn
  }

  predicate RowOk(s: State, id: string)
    requires id in s.files && id in s.rows
  {
    var f, r := s.files[id], s.rows[id];
    && f.upload == Recorded && f.discard == NoDiscard && r.name == f.name && r.owner == f.owner
    && (r.thumbnail == "" || (r.thumbnail == THUMB && f.thumb == Finished))
    && (f.thumb == Stored || r.thumbnail != "" ==> Path(id, THUMB) in s.objects)
    && (Path(id, f.name) in s.objects <==> !Gone(s, id))
    && (Path(id, f.name) in s.objects ==> (s.objects[Path(id, f.name)] == Original(f.bytes) <==> !Overwritten(s, id)))
  }

  predicate PhasesOk(s: State, id: string)
    requires id in s.files
  {
    var f := s.files[id];
    && (f.upload != Recorded ==> f.thumb == NoThumb && f.discard == NoDiscard && id !in s.rows)
    && (f.upload == Recorded && f.discard == NoDiscard ==> id in s.rows)
    && (!f.image ==> f.thumb == NoThumb)
    && (f.discard.RemovingThumb? && f.discard.thumbnail != "" ==> f.discard.thumbnail == THUMB && f.thumb == Finished)
  }

  ghost predicate FileOk(s: State, id: string)
    requires id in s.files
  {
    && PhasesOk(s, id)
    && (id in s.rows ==> RowOk(s, id))
    && (s.files[id].upload == Written ==>
          Path(id, s.files[id].name) in s.objects && s.objects[Path(id, s.files[id].name)] == Original(s.files[id].bytes))
    && forall name {:trigger Path(id, name)} | Path(id, name) in s.objects :: AnsweredFor(s, id, name)
  }

  ghost predicate Inv(s: State) {
    && (forall id {:trigger FileOk(s, id)} | id in s.files :: FileOk(s, id))
    && (forall id | id in s.rows :: id in s.files)
    && (forall p | p in s.objects :: p.id in s.files)
  }

  /** A step on one file leaves the objects, row and phases of every other file alone. */
  ghost predicate OnlyFile(s: State, t: State, id: string) {
    && (forall j | j != id :: (j in t.files <==> j in s.files) && (j in s.files ==> t.files[j] == s.files[j]))
    && (forall j | j != id :: (j in t.rows <==> j in s.rows) && (j in s.rows ==> t.rows[j] == s.rows[j]))
    && (forall p | p in s.objects && p.id != id :: p in t.objects && t.objects[p] == s.objects[p])
    && (forall p | p in t.objects && p.id != id :: p in s.objects)
  }

  lemma OneFileKeepsInv(s: State, t: State, id: string)
    requires Inv(s) && OnlyFile(s, t, id) && id in t.files && FileOk(t, id)
    ensures Inv(t)
  {
    forall j | j in t.files ensures FileOk(t, j) {
      if j != id {
        assert FileOk(s, j);
        OtherFileOk(s, t, id, j);
      }
    }
  }

  lemma OtherFileOk(s: State, t: State, id: string, j: string)
    requires OnlyFile(s, t, id) && j != id && j in s.files && FileOk(s, j)
    ensures j in t.files && FileOk(t, j)
  {
    forall name | Path(j, name) in t.objects ensures AnsweredFor(t, j, name) {
      assert Path(j, name) in s.objects;
    }
  }

  lemma WriteKeepsInv(s: State, id: string, owner: string, name: string, bytes: string, image: bool)
    requires Inv(s)
    ensures Inv(AfterWrite(s, id, owner, name, bytes, image))
  {
    var t := AfterWrite(s, id, owner, name, bytes, image);
    if id !in s.files {
      forall n | Path(id, n) in t.objects ensures n == name {
        assert n != name ==> Path(id, n) in s.objects;
      }
      OneFileKeepsInv(s, t, id);
    }
  }

  lemma InsertKeepsInv(s: State, id: string, ok: bool)
    requires Inv(s)
    ensures Inv(AfterInsert(s, id, ok))
  {
    var t := AfterInsert(s, id, ok);
    if t != s {
      assert FileOk(s, id);
      forall n | Path(id, n) in t.objects ensures AnsweredFor(t, id, n) {
        assert AnsweredFor(s, id, n);
      }
      OneFileKeepsInv(s, t, id);
    }
  }

  lemma OpenKeepsInv(s: State, id: string, decodes: bool)
    requires Inv(s)
    ensures Inv(AfterOpen(s, id, decodes))
  {
    var t := AfterOpen(s, id, decodes);
    if t != s {
      assert FileOk(s, id);
      forall n | Path(id, n) in t.objects ensures AnsweredFor(t, id, n) {
        assert AnsweredFor(s, id, n);
      }
      OneFileKeepsInv(s, t, id);
    }
  }

  lemma ThumbWriteKeepsInv(s: State, id: string)
    requires Inv(s)
    ensures Inv(AfterThumbWrite(s, id))
  {
    var t := AfterThumbWrite(s, id);
    if t != s {
      assert FileOk(s, id);
      forall n | Path(id, n) in t.objects ensures AnsweredFor(t, id, n) {
        assert n == THUMB || AnsweredFor(s, id, n);
      }
      OneFileKeepsInv(s, t, id);
    }
  }

  lemma ThumbRecordKeepsInv(s: State, id: string, ok: bool)
    requires Inv(s)
    ensures Inv(AfterThumbRecord(s, id, ok))
  {
    var t := AfterThumbRecord(s, id, ok);
    if t != s {
      assert FileOk(s, id);
      forall n | Path(id, n) in t.objects ensures AnsweredFor(t, id, n) {
        assert AnsweredFor(s, id, n);
      }
      OneFileKeepsInv(s, t, id);
    }
  }

  lemma DiscardKeepsInv(s: State, t: State, id: string)
    requires Inv(s) && (t == AfterDiscardRow(s, id) || t == AfterDiscardThumb(s, id) || t == AfterDiscardOriginal(s, id))
    ensures Inv(t)
  {
    if t != s {
      assert FileOk(s, id);
      forall n | Path(id, n) in t.objects ensures AnsweredFor(t, id, n) {
        assert AnsweredFor(s, id, n);
      }
      OneFileKeepsInv(s, t, id);
    }
  }

  lemma AssociateKeepsInv(s: State, owner: string, ids: seq<string>, postId: string)
    requires Inv(s)
    ensures Inv(AfterAssociate(s, owner, ids, postId))
  {
    var t := AfterAssociate(s, owner, ids, postId);
    forall j | j in t.files ensures FileOk(t, j) {
      assert FileOk(s, j);
      forall n | Path(j, n) in t.objects ensures AnsweredFor(t, j, n) {
        assert AnsweredFor(s, j, n);
      }
    }
  }

  lemma StepKeepsInv(s: State, step: Step)
    requires Inv(s)
    ensures Inv(Apply(s, step))
  {
    match step
    case WriteOriginal(id, owner, name, bytes, image) => WriteKeepsInv(s, id, owner, name, bytes, image);
    case InsertRow(id, ok) => InsertKeepsInv(s, id, ok);
    case OpenOriginal(id, decodes) => OpenKeepsInv(s, id, decodes);
    case WriteThumb(id) => ThumbWriteKeepsInv(s, id);
    case RecordThumb(id, ok) => ThumbRecordKeepsInv(s, id, ok);
    case DeleteRow(id) => DiscardKeepsInv(s, AfterDiscardRow(s, id), id);
    case RemoveThumb(id) => DiscardKeepsInv(s, AfterDiscardThumb(s, id), id);
    case RemoveOriginal(id) => DiscardKeepsInv(s, AfterDiscardOriginal(s, id), id);
    case Associate(owner, ids, postId) => AssociateKeepsInv(s, owner, ids, postId);
  }

  lemma {:induction false} ReachableInv(steps: seq<Step>)
    ensures Inv(Exec(Empty, steps))
  {
    if steps != [] {
      ReachableInv(steps[..|steps| - 1]);
      StepKeepsInv(Exec(Empty, steps[..|steps| - 1]), steps[|steps| - 1]);
    }
  }

  // ------------------------------------------------------------------ no orphans, no lost bytes

  /** Every upload, thumbnail goroutine and discard has run to its end. */
  predicate Quiescent(s: State) {
    forall id | id in s.files ::
      && s.files[id].upload != Written
      && (s.files[id].thumb == NoThumb || s.files[id].thumb == Finished || s.files[id].thumb == Withdrawn)
      && (s.files[id].discard == NoDiscard || s.files[id].discard == Discarded)
  }

  /** The paths that the rows of the table name. */
  function NamedByRows(rows: map<string, Row>): set<Path> {
    (set id | id in rows :: Path(id, rows[id].name))
    + (set id | id in rows && rows[id].thumbnail != "" :: Path(id, rows[id].thumbnail))
  }

  /** The paths that rows name although the removal of a thumbnail took them. */
  function GonePaths(s: State): set<Path> {
    set id | id in s.rows && id in s.files && Gone(s, id) :: Path(id, THUMB)
  }

  /** Whatever is still running, rows name stored objects and the gone ones, and nothing else. */
  lemma RowsNameStoredObjects(steps: seq<Step>)
    ensures var s := Exec(Empty, steps);
            GonePaths(s) <= NamedByRows(s.rows) && NamedByRows(s.rows) * s.objects.Keys == NamedByRows(s.rows) - GonePaths(s)
  {
    ReachableInv(steps);
    var s := Exec(Empty, steps);
    forall p | p in NamedByRows(s.rows) + GonePaths(s)
      ensures p in NamedByRows(s.rows) && (p in s.objects <==> p !in GonePaths(s))
    {
      assert FileOk(s, p.id);
    }
  }

  /**
   * Once everything has finished no object is an orphan, and the stored objects are exactly those that surviving rows
   * name if and only if no upload named like the thumbnail lost its object to a failed thumbnail update.
   */
  lemma NoOrphans(steps: seq<Step>)
    requires Quiescent(Exec(Empty, steps))
    ensures var s := Exec(Empty, steps);
            && s.objects.Keys == NamedByRows(s.rows) - GonePaths(s)
            && (s.objects.Keys == NamedByRows(s.rows) <==> forall id | id in s.rows && id in s.files :: !Gone(s, id))
  {
    ReachableInv(steps);
    RowsNameStoredObjects(steps);
    var s := Exec(Empty, steps);
    forall p | p in s.objects ensures p in NamedByRows(s.rows) {
      assert FileOk(s, p.id);
      assert Path(p.id, p.name) in s.objects && AnsweredFor(s, p.id, p.name);
    }
    assert s.objects.Keys == NamedByRows(s.rows) * s.objects.Keys;
    forall id | id in s.rows && id in s.files && Gone(s, id) ensures Path(id, THUMB) in GonePaths(s) {
    }
  }

  lemma AttachedStep(s: State, step: Step, id: string)
    requires Inv(s) && id in s.rows && s.rows[id].postId.Some?
    ensures var t := Apply(s, step);
            id in t.rows && t.rows[id].postId == s.rows[id].postId && t.rows[id].name == s.rows[id].name
  {
    assert FileOk(s, id);
  }

  /** An attached file is never discarded: its row stays for ever, and so does its object unless it is gone with its thumbnail. */
  lemma {:induction false} AttachedStays(s: State, steps: seq<Step>, id: string)
    requires Inv(s) && id in s.rows && s.rows[id].postId.Some?
    ensures var t := Exec(s, steps);
            && Inv(t) && id in t.rows && t.rows[id].postId == s.rows[id].postId
            && t.rows[id].name == s.rows[id].name
            && id in t.files && (Path(id, t.rows[id].name) in t.objects <==> !Gone(t, id))
  {
    if steps != [] {
      AttachedStays(s, steps[..|steps| - 1], id);
      AttachedStep(Exec(s, steps[..|steps| - 1]), steps[|steps| - 1], id);
      StepKeepsInv(Exec(s, steps[..|steps| - 1]), steps[|steps| - 1]);
    }
    assert FileOk(Exec(s, steps), id);
  }

  /** The stored bytes of a file with a row are the uploaded ones exactly unless its own thumbnail replaced or removed them. */
  lemma BytesKeptExactlyUnlessOverwritten(steps: seq<Step>, id: string)
    requires id in Exec(Empty, steps).rows
    ensures var s := Exec(Empty, steps);
            && id in s.files
            && (Path(id, s.rows[id].name) in s.objects && s.objects[Path(id, s.rows[id].name)] == Original(s.files[id].bytes)
                <==> !Overwritten(s, id) && !Gone(s, id))
            && (s.files[id].name != THUMB || !s.files[id].image ==> !Overwritten(s, id) && !Gone(s, id))
  {
    ReachableInv(steps);
    assert FileOk(Exec(Empty, steps), id);
  }

  /** In particular an upload whose given name is not the thumbnail's keeps its bytes for as long as it has a row. */
  lemma OtherNamesKeepTheirBytes(steps: seq<Step>, id: string, given: string, fallback: string)
    requires id in Exec(Empty, steps).rows && id in Exec(Empty, steps).files
    requires Clean(fallback) && fallback != "" && fallback != THUMB
    requires Exec(Empty, steps).files[id].name == Sanitize(given, fallback) && given != THUMB
    ensures var s := Exec(Empty, steps);
            && Path(id, s.rows[id].name) in s.objects && s.objects[Path(id, s.rows[id].name)] == Original(s.files[id].bytes)
  {
    OnlyThumbNameClashes(given, fallback);
    BytesKeptExactlyUnlessOverwritten(steps, id);
  }

  // ------------------------------------------------------------------ an upload that loses its bytes

  const Lost: Path := Path("f", THUMB)

  function LostFile(bytes: string, thumb: ThumbPhase): File {
    File("u", THUMB, bytes, true, Recorded, thumb, NoDiscard)
  }

  lemma ExecAppend(s: State, steps: seq<Step>, step: Step)
    ensures Exec(s, steps + [step]) == Apply(Exec(s, steps), step)
  {
    assert (steps + [step])[..|steps|] == steps;
  }

  function AttachedUpload(bytes: string): seq<Step> {
    [] + [WriteOriginal("f", "u", THUMB, bytes, true)] + [InsertRow("f", true)] + [Associate("u", ["f"], "p")]
  }

  lemma UploadIsAttached(bytes: string)
    ensures Exec(Empty, AttachedUpload(bytes))
         == State(map[Lost := Original(bytes)], map["f" := Row("u", THUMB, "", Some("p"))], map["f" := LostFile(bytes, Opening)])
  {
    var l1 := [] + [WriteOriginal("f", "u", THUMB, bytes, true)];
    ExecAppend(Empty, [], WriteOriginal("f", "u", THUMB, bytes, true));
    ExecAppend(Empty, l1, InsertRow("f", true));
    ExecAppend(Empty, l1 + [InsertRow("f", true)], Associate("u", ["f"], "p"));
    var s := Exec(Empty, l1 + [InsertRow("f", true)]);
    assert s.rows == map["f" := Row("u", THUMB, "", None)];
    assert Attachable(s.rows, "u", "f") && "f" in ["f"];
  }

  /** An image uploaded as thumb.jpg and attached to a post is replaced by its own thumbnail. */
  lemma ThumbNamedUploadLosesItsBytes(bytes: string)
    ensures Exec(Empty, AttachedUpload(bytes) + [OpenOriginal("f", true)] + [WriteThumb("f")] + [RecordThumb("f", true)])
         == State(map[Lost := Thumbnail], map["f" := Row("u", THUMB, THUMB, Some("p"))], map["f" := LostFile(bytes, Finished)])
  {
    UploadIsAttached(bytes);
    var l := AttachedUpload(bytes);
    ExecAppend(Empty, l, OpenOriginal("f", true));
    ExecAppend(Empty, l + [OpenOriginal("f", true)], WriteThumb("f"));
    ExecAppend(Empty, l + [OpenOriginal("f", true)] + [WriteThumb("f")], RecordThumb("f", true));
  }
}
