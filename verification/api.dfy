/** The decision logic of the handlers in `routes/api.js`: from the request
    fields and what the collaborators answered to the status code and body.
    The authentication middlewares in front of them are module `Auth`. */
module Api {
  import opened Wrappers
  import opened Js
  import Http
  import Database
  import ObjectStore
  import Cache

  // ---- GET /progress/:progressId --------------------------------------------

  /** `parseFloat(x) || 0`: `NaN` and `0` both become 0. */
  function NumberOrZero(x: Value): (n: int)
    ensures ParseFloat(x).Some? ==> n == ParseFloat(x).value
    ensures ParseFloat(x).None? ==> n == 0
  {
    match ParseFloat(x)
    case Some(v) => v
    case None => 0
  }

  /** The answer for what `getProgress` returned: 404 when nothing truthy
      came back; otherwise 200 with the parsed `progress` (0 when missing or
      unparsable) and the `status` (`'unknown'` when missing). */
  function ProgressResponse(progressData: Value): (r: Http.Response)
    ensures r.status == 404 <==> !Truthy(progressData)
    ensures r.status == 404 ==> r == Http.Error(404, "Progress not found.")
    ensures r.status != 404 ==>
      && r.status == 200
      && Get(r.body, "progress") == Num(if ParseFloat(Get(progressData, "progress")).Some? then ParseFloat(Get(progressData, "progress")).value else 0)
      && Get(r.body, "status") == (if Truthy(Get(progressData, "status")) then Get(progressData, "status") else Str("unknown"))
  {
    if !Truthy(progressData) then Http.Error(404, "Progress not found.")
    else
      Http.Response(200, Obj(map[
        "progress" := Num(NumberOrZero(Get(progressData, "progress"))),
        "status" := Or(Get(progressData, "status"), Str("unknown"))]))
  }

  /** A stored progress record is reported faithfully. */
  lemma ProgressOfRecord(percent: int, status: string)
    requires status != ""
    ensures ProgressResponse(Obj(map["progress" := Num(percent), "status" := Str(status)]))
      == Http.Response(200, Obj(map["progress" := Num(percent), "status" := Str(status)]))
  {
    ParseFloatOfNumber(percent);
  }

  /** The handler: `getProgress(username, progressId)` followed by the
      shaping above. `getProgress` never throws, so the 500 branch is not
      reachable. */
  function HandleProgress(st: Database.State, username: string, progressId: string, now: int, getOk: bool, item: Database.ItemAnswer, setOk: bool): (r: (Http.Response, Database.State))
    ensures r.1.table == st.table
    ensures r.0.status == 200 || r.0.status == 404
    ensures !getOk ==> r.0.status == 404 && r.1 == st
    ensures var hit := Cache.Lookup(st.cache, Database.ProgressKey(Str(username), Str(progressId)), now);
      getOk && hit.Some? ==> r.0 == ProgressResponse(hit.value) && r.1 == st
    ensures var hit := Cache.Lookup(st.cache, Database.ProgressKey(Str(username), Str(progressId)), now);
      getOk && hit.None? && item.Found? && setOk ==> r.0 == ProgressResponse(Obj(item.row))
    ensures var hit := Cache.Lookup(st.cache, Database.ProgressKey(Str(username), Str(progressId)), now);
      getOk && hit.None? && !(item.Found? && setOk) ==> r == (Http.Error(404, "Progress not found."), st)
  {
    var read := Database.GetProgress(st, Str(username), Str(progressId), now, getOk, item, setOk);
    (ProgressResponse(read.value), read.state)
  }

  /** Progress saved for `(u, f)` is what `/progress/<f>` reports to `u`
      within the hour, whatever the table would answer. */
  lemma SavedProgressReported(st: Database.State, u: string, f: string, percent: int, status: string, iso: string,
                              t0: int, t: int, item: Database.ItemAnswer, setOk: bool)
    requires status != ""
    requires t0 <= t < t0 + Cache.Ttl
    ensures var record := Obj(map["progress" := Num(percent), "status" := Str(status)]);
      var st' := Database.SaveProgress(st, Str(u), Str(f), record, iso, t0, true, true);
      HandleProgress(st', u, f, t, true, item, setOk).0 == Http.Response(200, record)
  {
    var record := Obj(map["progress" := Num(percent), "status" := Str(status)]);
    Database.SaveThenGetProgress(st, Str(u), Str(f), record, iso, t0, t, item, setOk);
    ProgressOfRecord(percent, status);
  }

  // ---- GET /files -----------------------------------------------------------

  /** `{ ...file }` for an object; other entries contribute no properties
      here. */
  function Spread(file: Value): map<string, Value> {
    if file.Obj? then file.fields else map[]
  }

  /** `progressData ? parseFloat(progressData.progress) : 100`, with `NaN`
      serialised as `null`. */
  function FileProgress(progressData: Value): (p: Value)
    ensures !Truthy(progressData) ==> p == Num(100)
    ensures Truthy(progressData) && ParseFloat(Get(progressData, "progress")).None? ==> p == Null
    ensures Truthy(progressData) && ParseFloat(Get(progressData, "progress")).Some? ==>
      p == Num(ParseFloat(Get(progressData, "progress")).value)
  {
    if !Truthy(progressData) then Num(100)
    else
      match ParseFloat(Get(progressData, "progress"))
      case Some(v) => Num(v)
      case None => Null
  }

  /** `{ ...file, progress }`: the file's own properties, with `progress`
      added or overwritten. */
  function FileWithProgress(file: Value, progressData: Value): (o: Value)
    ensures o.Obj?
    ensures o.fields.Keys == Spread(file).Keys + {"progress"}
    ensures o.fields["progress"] == FileProgress(progressData)
    ensures forall k :: k in Spread(file) && k != "progress" ==> o.fields[k] == Spread(file)[k]
  {
    Obj(Spread(file)["progress" := FileProgress(progressData)])
  }

  /** Each file with its progress, in order; `progressOf` is what
      `getProgress(username, file.fileName)` answered. */
  function WithProgress(files: seq<Value>, progressOf: Value -> Value): (out: seq<Value>)
    ensures |out| == |files|
    ensures forall i :: 0 <= i < |files| ==> out[i] == FileWithProgress(files[i], progressOf(Get(files[i], "fileName")))
  {
    if |files| == 0 then []
    else [FileWithProgress(files[0], progressOf(Get(files[0], "fileName")))] + WithProgress(files[1..], progressOf)
  }

  const FilesError := "An internal error occurred while fetching files metadata."

  /** The answer for what `getFileMetadata` returned. An empty array is
      404; a non-empty one is 200 with each file's progress. For other values
      `files.length` decides: `undefined`/`null` throw (500), a non-empty
      string passes the check but has no `map` (500), and anything whose
      length is falsy is 404. */
  function FilesResponse(files: Value, progressOf: Value -> Value): (r: Http.Response)
    ensures files.Arr? ==> (r.status == 404 <==> |files.items| == 0)
    ensures files.Arr? && |files.items| > 0 ==>
      && r.status == 200
      && Get(r.body, "files") == Arr(WithProgress(files.items, progressOf))
    ensures files.Undef? || files.Null? ==> r == Http.Error(500, FilesError)
    ensures r.status in {200, 404, 500}
  {
    match files
    case Arr(items) =>
      if |items| == 0 then Http.Message(404, "No files found for the user.")
      else
        Http.Response(200, Obj(map[
          "message" := Str("Files metadata and progress listed successfully."),
          "files" := Arr(WithProgress(items, progressOf)),
          "links" := Obj(map["upload" := Str("/api/v1/upload")])]))
    case Str(s) =>
      if s == "" then Http.Message(404, "No files found for the user.") else Http.Error(500, FilesError)
    case Obj(fields) =>
      if Truthy(Get(files, "length")) then Http.Error(500, FilesError) else Http.Message(404, "No files found for the user.")
    case Undef => Http.Error(500, FilesError)
    case Null => Http.Error(500, FilesError)
    case _ => Http.Message(404, "No files found for the user.")
  }

  /** A failing table query on a cold cache is reported as "no files", not
      as an error. */
  lemma StoreFailureLooksLikeNoFiles(st: Database.State, username: string, now: int, getOk: bool, setOk: bool, progressOf: Value -> Value)
    requires !Truthy(Database.Cache.GetCachedFileMetadata(st.cache, username, now, getOk))
    ensures var read := Database.GetFileMetadata(st, username, now, getOk, Database.QueryFailed, setOk);
      FilesResponse(read.value, progressOf).status == 404
  {
  }

  // ---- POST /admin/delete-file ----------------------------------------------

  const DeleteError := "An internal error occurred while deleting the file."

  /** What the handler sends and the state it leaves. The object delete goes
      first, through the binding `deleteFileFromS3` imported from the object
      store module; when that module does not export the name the binding is
      `undefined` and calling it throws. `objectDeleted` is whether an existing
      object delete succeeded, `storeOk` whether `deleteFile` did. */
  function HandleDeleteFile(st: Database.State, username: Option<string>, fileName: Option<string>,
                            exports: set<string>, objectDeleted: bool, storeOk: bool): (r: (Http.Response, Database.State))
    ensures (username.None? || username.value == "" || fileName.None? || fileName.value == "") ==>
      r == (Http.Error(400, "Username and file name are required."), st)
    ensures r.0.status == 200 <==>
      && username.Some? && username.value != "" && fileName.Some? && fileName.value != ""
      && "deleteFileFromS3" in exports && objectDeleted && storeOk
    ensures r.0.status == 200 ==>
      r.1.table == st.table - {Database.RowKey(Str(username.value), Str(fileName.value))} && r.1.cache == st.cache
    ensures r.0.status != 200 ==> r.1 == st
  {
    if username.None? || username.value == "" || fileName.None? || fileName.value == "" then
      (Http.Error(400, "Username and file name are required."), st)
    else if "deleteFileFromS3" !in exports || !objectDeleted then
      (Http.Error(500, DeleteError), st)
    else
      match Database.DeleteFile(st, username.value, fileName.value, storeOk)
      case Success(st') => (Http.Message(200, "File deleted successfully."), st')
      case Failure(_) => (Http.Error(500, DeleteError), st)
  }

  /** With the object store's actual exports, every well-formed delete
      request fails with 500 and deletes nothing. */
  lemma DeleteNeverSucceeds(st: Database.State, username: string, fileName: string, objectDeleted: bool, storeOk: bool)
    requires username != "" && fileName != ""
    ensures HandleDeleteFile(st, Some(username), Some(fileName), ObjectStore.Exports, objectDeleted, storeOk)
      == (Http.Error(500, DeleteError), st)
  {
    assert "deleteFileFromS3" !in ObjectStore.Exports;
  }

  // ---- GET /upload-url and GET /download-url --------------------------------

  /** `/upload-url`: 400 without a file name, 200 with the presigned PUT URL,
      500 when signing failed. */
  function HandleUploadUrl(fileName: Option<string>, username: string, sign: ObjectStore.Signer): (r: Http.Response)
    ensures fileName.None? || fileName.value == "" ==> r == Http.Error(400, "File name is required.")
    ensures fileName.Some? && fileName.value != "" ==>
      var signed := ObjectStore.PresignedUploadUrl(fileName.value, username, sign);
      && (signed.Success? ==> r == Http.Response(200, Obj(map["url" := Str(signed.value)])))
      && (signed.Failure? ==> r == Http.Error(500, "Failed to generate upload URL."))
  {
    if fileName.None? || fileName.value == "" then Http.Error(400, "File name is required.")
    else
      match ObjectStore.PresignedUploadUrl(fileName.value, username, sign)
      case Success(url) => Http.Response(200, Obj(map["url" := Str(url)]))
      case Failure(_) => Http.Error(500, "Failed to generate upload URL.")
  }

  /** `/download-url`: 400 without a file name, 200 with the presigned GET
      URL, 500 when signing failed. */
  function HandleDownloadUrl(fileName: Option<string>, username: string, sign: ObjectStore.Signer): (r: Http.Response)
    ensures fileName.None? || fileName.value == "" ==> r == Http.Error(400, "File name is required.")
    ensures fileName.Some? && fileName.value != "" ==>
      var signed := ObjectStore.PresignedDownloadUrl(fileName.value, username, sign);
      && (signed.Success? ==> r == Http.Response(200, Obj(map["url" := Str(signed.value)])))
      && (signed.Failure? ==> r == Http.Error(500, "Failed to generate download URL."))
  {
    if fileName.None? || fileName.value == "" then Http.Error(400, "File name is required.")
    else
      match ObjectStore.PresignedDownloadUrl(fileName.value, username, sign)
      case Success(url) => Http.Response(200, Obj(map["url" := Str(url)]))
      case Failure(_) => Http.Error(500, "Failed to generate download URL.")
  }

  /** For a signed request both URL routes sign the caller's own object
      `<username>/<fileName>`, the key the upload job reads. */
  lemma UrlRoutesSignCallersObject(fileName: string, username: string, sign: ObjectStore.Signer)
    requires fileName != ""
    ensures HandleUploadUrl(Some(fileName), username, sign).status == 200 <==>
      sign(ObjectStore.SignRequest(ObjectStore.PutObject, ObjectStore.ObjectKey(username, fileName), 3600)).Some?
    ensures HandleDownloadUrl(Some(fileName), username, sign).status == 200 <==>
      sign(ObjectStore.SignRequest(ObjectStore.GetObject, ObjectStore.ObjectKey(username, fileName), 3600)).Some?
  {
  }
}
