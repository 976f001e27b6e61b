/** `doUpload` of both pages: the guards, then the upload of the object,
    then the insert of its `media_files` row. The two remote services are
    outside the model; their answers are inputs, and a run records which
    requests the page issued and how the action ended. */
module Upload {
  import opened Optional
  import opened Text
  import opened SafeName
  import opened StoragePath
  import opened MediaKind
  import opened UploadPolicy

  /** A request the page sends to a remote service. */
  datatype Call =
    | PutObject(bucket: Bucket, key: string, contentType: string, upsert: bool)
    | InsertRow(table: string, row: MediaRecord)

  /** How an action can fail; each failure ends the action. */
  datatype Failure =
    | NotSignedIn
    | NoFileChosen
    | StorageFailed(message: string)
    | InsertFailed(message: string)

  datatype Outcome = Saved(id: string) | Failed(failure: Failure)

  /** The requests issued, in order, and the end of the action. */
  datatype Run = Run(calls: seq<Call>, outcome: Outcome)

  /** The object store's answer to the upload. */
  datatype StoreReply = Stored | StoreError(message: string)

  /** The table's answer to the insert: the new row's id, or an error. */
  datatype InsertReply = Inserted(id: string) | InsertError(message: string)

  /** The page state `doUpload` reads; `now` is the clock reading. */
  datatype Request = Request(
    variant: Variant,
    session: Option<string>,
    selection: Selection,
    file: Option<FileInfo>,
    now: nat)

  const MediaTable: string := "media_files"

  /** `!sessionUserId` is false: a user id is present and not empty. */
  predicate SignedIn(session: Option<string>) {
    session.Some? && session.value != ""
  }

  /** The key the chosen file is stored under. */
  function KeyFor(req: Request): string
    requires SignedIn(req.session) && req.file.Some?
  {
    BuildPath(req.session.value, req.now, Sanitize(req.file.value.name))
  }

  /** Whatever whitespace the file name holds, the key has none unless the
      user id does. */
  lemma KeyHasNoWhitespace(req: Request)
    requires SignedIn(req.session) && req.file.Some?
    requires HasNoWhitespace(req.session.value)
    ensures HasNoWhitespace(KeyFor(req))
  {
  }

  /** Every insert in `calls` comes after an upload of the very object the
      row describes. */
  predicate InsertsFollowUploads(calls: seq<Call>) {
    forall i :: 0 <= i < |calls| && calls[i].InsertRow? ==>
      exists j :: 0 <= j < i && calls[j].PutObject?
        && calls[j].bucket == calls[i].row.storageBucket
        && calls[j].key == calls[i].row.storagePath
  }

  function DoUpload(req: Request, store: StoreReply, insert: InsertReply): (run: Run)
    // guards: no request leaves the page without a user and a file
    ensures !SignedIn(req.session) ==> run == Run([], Failed(NotSignedIn))
    ensures SignedIn(req.session) && req.file.None? ==> run == Run([], Failed(NoFileChosen))
    // ordering: at most one upload, then at most one insert, never upserting
    ensures |run.calls| <= 2
    ensures forall i :: 0 <= i < |run.calls| ==> (run.calls[i].PutObject? <==> i == 0)
    ensures forall i :: 0 <= i < |run.calls| && run.calls[i].PutObject? ==> !run.calls[i].upsert
    ensures InsertsFollowUploads(run.calls)
    ensures store.StoreError? ==> forall c :: c in run.calls ==> !c.InsertRow?
    ensures run.outcome.Saved? <==>
              SignedIn(req.session) && req.file.Some? && store.Stored? && insert.Inserted?
    // the object: chosen bucket, key built from user, clock and file name
    ensures forall c :: c in run.calls && c.PutObject? ==>
              && c.bucket == req.selection.bucket
              && c.key == BuildPath(req.session.value, req.now, Sanitize(req.file.value.name))
              && c.contentType == req.file.value.mimeType
    // the row: owned by the session user, pending, and keeping the invariant
    ensures forall c :: c in run.calls && c.InsertRow? ==>
              && c.table == MediaTable
              && RowInvariant(req.variant, c.row)
              && c.row.userId == req.session.value
              && (c.row.mimeType.None? <==> req.file.value.mimeType == "")
              && c.row.kind == DetectKind(req.file.value.mimeType)
              && c.row.sizeBytes == req.file.value.size
              && c.row.visibility == req.selection.visibility
    // progress: once the guards pass the upload is sent, and a stored object
    // is followed by the insert of its row; each failure is the one reported
    ensures SignedIn(req.session) && req.file.Some? ==>
              && 1 <= |run.calls|
              && run.calls[0] == PutObject(req.selection.bucket, KeyFor(req),
                                           req.file.value.mimeType, false)
    ensures SignedIn(req.session) && req.file.Some? && store.StoreError? ==>
              |run.calls| == 1 && run.outcome == Failed(StorageFailed(store.message))
    ensures SignedIn(req.session) && req.file.Some? && store.Stored? ==>
              && |run.calls| == 2
              && run.calls[1] == InsertRow(MediaTable,
                   BuildRecord(req.variant, req.session.value, req.selection,
                               req.file.value, KeyFor(req)))
    ensures SignedIn(req.session) && req.file.Some? && store.Stored? && insert.InsertError? ==>
              run.outcome == Failed(InsertFailed(insert.message))
    ensures SignedIn(req.session) && req.file.Some? && store.Stored? && insert.Inserted? ==>
              run.outcome == Saved(insert.id)
  {
    if !SignedIn(req.session) then Run([], Failed(NotSignedIn))
    else if req.file.None? then Run([], Failed(NoFileChosen))
    else
      var userId := req.session.value;
      var file := req.file.value;
      var path := BuildPath(userId, req.now, Sanitize(file.name));
      var put := PutObject(req.selection.bucket, path, file.mimeType, false);
      match store
      case StoreError(m) => Run([put], Failed(StorageFailed(m)))
      case Stored =>
        var row := BuildRecord(req.variant, userId, req.selection, file, path);
        var ins := InsertRow(MediaTable, row);
        assert [put, ins][0] == put;
        match insert
        case InsertError(m) => Run([put, ins], Failed(InsertFailed(m)))
        case Inserted(id) => Run([put, ins], Saved(id))
  }

  /** The rows of the insert requests among `calls`, in order. */
  function InsertedRows(calls: seq<Call>): seq<MediaRecord> {
    if |calls| == 0 then []
    else (if calls[0].InsertRow? then [calls[0].row] else []) + InsertedRows(calls[1..])
  }

  /** An object in the store: its bucket and key. */
  datatype ObjectKey = ObjectKey(bucket: Bucket, key: string)

  /** What the remote side holds: stored objects and `media_files` rows. */
  datatype Backend = Backend(objects: set<ObjectKey>, rows: seq<MediaRecord>)

  /** The remote state after the requests `calls` were answered with
      `store` and `insert`: the uploads take effect exactly when the store
      accepted them, the inserted rows exactly when the table accepted
      them. What the page concluded plays no part, and nothing is rolled
      back when the insert fails. */
  function Commit(b: Backend, store: StoreReply, insert: InsertReply, calls: seq<Call>): Backend {
    var stored := if store.Stored? then set c | c in calls && c.PutObject? :: ObjectKey(c.bucket, c.key)
                  else {};
    var added := if insert.Inserted? then InsertedRows(calls) else [];
    Backend(b.objects + stored, b.rows + added)
  }

  /** Every row describes an object that is in the store. */
  predicate RowsHaveObjects(b: Backend) {
    forall r :: r in b.rows ==> ObjectKey(r.storageBucket, r.storagePath) in b.objects
  }

  /** The row of the one insert the orchestrator can issue is its second
      request. */
  lemma InsertedRowsOfRun(req: Request, store: StoreReply, insert: InsertReply)
    ensures var run := DoUpload(req, store, insert);
            InsertedRows(run.calls) == if |run.calls| == 2 then [run.calls[1].row] else []
  {
    var run := DoUpload(req, store, insert);
    if |run.calls| == 2 {
      assert !run.calls[0].InsertRow? && run.calls[1].InsertRow?;
      assert run.calls[1..] == [run.calls[1]];
      assert run.calls[1..][1..] == [];
      assert InsertedRows(run.calls[1..]) == [run.calls[1].row] + InsertedRows([]);
    } else if |run.calls| == 1 {
      assert run.calls[1..] == [];
      assert InsertedRows(run.calls) == [] + InsertedRows([]);
    }
  }

  /** Uploading before inserting, and inserting only after the store
      accepted the upload, keeps every row backed by its object, whatever
      the remote services answer. */
  lemma CommitKeepsRowsBacked(b: Backend, req: Request, store: StoreReply, insert: InsertReply)
    requires RowsHaveObjects(b)
    ensures RowsHaveObjects(Commit(b, store, insert, DoUpload(req, store, insert).calls))
  {
    var run := DoUpload(req, store, insert);
    InsertedRowsOfRun(req, store, insert);
    var b' := Commit(b, store, insert, run.calls);
    if |run.calls| == 2 && insert.Inserted? {
      var row := run.calls[1].row;
      assert run.calls[0] in run.calls;
      assert ObjectKey(row.storageBucket, row.storagePath) in b'.objects;
    }
  }

  /** An upload the store refuses changes nothing remotely: the page stops
      before the insert, so no row is written whatever the table would
      have answered. */
  lemma StoreRefusalChangesNothing(b: Backend, req: Request, m: string, insert: InsertReply)
    ensures Commit(b, StoreError(m), insert, DoUpload(req, StoreError(m), insert).calls) == b
  {
    InsertedRowsOfRun(req, StoreError(m), insert);
    assert b.rows + [] == b.rows;
  }

  /** The order matters: had a page sent the insert after the store
      refused the upload, the new row would describe no stored object. */
  lemma InsertAfterRefusalLeavesRowUnbacked(req: Request, m: string, id: string)
    requires SignedIn(req.session) && req.file.Some?
    ensures !RowsHaveObjects(Commit(Backend({}, []), StoreError(m), Inserted(id),
                                    DoUpload(req, Stored, Inserted(id)).calls))
  {
    var run := DoUpload(req, Stored, Inserted(id));
    InsertedRowsOfRun(req, Stored, Inserted(id));
    var b' := Commit(Backend({}, []), StoreError(m), Inserted(id), run.calls);
    assert run.calls[1].row in b'.rows;
  }

  /** A fully successful run stores exactly the chosen object and adds
      exactly the row built for it. */
  lemma SavedRunAddsRow(b: Backend, req: Request, id: string)
    requires SignedIn(req.session) && req.file.Some?
    ensures var b' := Commit(b, Stored, Inserted(id), DoUpload(req, Stored, Inserted(id)).calls);
            && b'.objects == b.objects + {ObjectKey(req.selection.bucket, KeyFor(req))}
            && b'.rows == b.rows + [BuildRecord(req.variant, req.session.value, req.selection,
                                                req.file.value, KeyFor(req))]
  {
    var run := DoUpload(req, Stored, Inserted(id));
    InsertedRowsOfRun(req, Stored, Inserted(id));
    var key := ObjectKey(req.selection.bucket, KeyFor(req));
    var stored := set c | c in run.calls && c.PutObject? :: ObjectKey(c.bucket, c.key);
    assert run.calls[0] in run.calls;
    assert key in stored;
    assert stored == {key};
  }

  /** A failed insert after a successful upload leaves the object stored
      and no row for it: the orphan the pages do not clean up. */
  lemma InsertFailureLeavesOrphan(b: Backend, req: Request, m: string)
    requires SignedIn(req.session) && req.file.Some?
    ensures var b' := Commit(b, Stored, InsertError(m), DoUpload(req, Stored, InsertError(m)).calls);
            && ObjectKey(req.selection.bucket, KeyFor(req)) in b'.objects
            && b'.rows == b.rows
  {
    var run := DoUpload(req, Stored, InsertError(m));
    assert run.calls[0] in run.calls;
  }

  /** The minors page never stores into `adult-private` and never writes an
      adult row, whatever the services answer. */
  lemma YouthUploadNeverAdult(req: Request, store: StoreReply, insert: InsertReply)
    requires req.variant == YouthSite && Offered(YouthSite, req.selection)
    ensures forall c :: c in DoUpload(req, store, insert).calls ==>
              match c
              case PutObject(bucket, _, _, _) => bucket != AdultPrivate
              case InsertRow(_, row) =>
                !row.adultOnly && !row.isSensitive && row.category != Adult
                && row.storageBucket != AdultPrivate
  {
  }

  /** On the 18+ page the row for `adult-private` is adult-only, sensitive
      and `adult` whatever category was picked; for any other bucket it is
      neither, and keeps the picked category. */
  lemma AdultSiteFlags(req: Request, store: StoreReply, insert: InsertReply)
    requires req.variant == AdultSite
    ensures forall c :: c in DoUpload(req, store, insert).calls && c.InsertRow? ==>
              if req.selection.bucket == AdultPrivate
              then c.row.adultOnly && c.row.isSensitive && c.row.category == Adult
              else !c.row.adultOnly && !c.row.isSensitive
                   && c.row.category == req.selection.category
  {
  }

  /** The worked example: user `u1` uploads `My File.png` (image/png,
      10 bytes) at time `t`; the key is `u1/<t>-My_File.png` and, once
      stored, the row is an `image`. */
  lemma UploadExample(req: Request, t: nat)
    requires req.session == Some("u1") && req.now == t
    requires req.file == Some(FileInfo("My File.png", "image/png", 10))
    ensures var run := DoUpload(req, Stored, Inserted("id"));
            && run.calls[0].key == "u1/" + Decimal(t) + "-My_File.png"
            && run.calls[1].row.kind == Image
            && run.outcome == Saved("id")
  {
    var file := req.file.value;
    SanitizeExample(file.name);
    PngIsImage(file.mimeType);
    var run := DoUpload(req, Stored, Inserted("id"));
    assert run.calls[0].key == BuildPath("u1", t, Sanitize(file.name));
    ExampleKey(t, Sanitize(file.name));
  }

  /** A PNG image is classified as an image. */
  lemma PngIsImage(mime: string)
    requires mime == "image/png"
    ensures DetectKind(mime) == Image
  {
    assert mime[..6] == "image/";
  }

  /** The key of the worked example, written out. */
  lemma ExampleKey(t: nat, safeName: string)
    requires safeName == "My_File.png"
    ensures BuildPath("u1", t, safeName) == "u1/" + Decimal(t) + "-My_File.png"
  {
  }
}
