/** The object-store helpers of `routes/s3_upload.js`. Objects live under
    `<username>/<fileName>`; the presigner and the store are collaborators
    whose answers are passed in (`None` for a call that threw), and every
    helper turns any failure into its own fixed message. */
module ObjectStore {
  import opened Wrappers
  import Strings
  import Paths

  /** `expiresIn` of every presigned URL, in seconds. */
  const UrlLifetime: int := 3600

  const UploadFailed := "Upload to S3 failed"
  const UploadUrlFailed := "Failed to generate upload URL"
  const DownloadUrlFailed := "Failed to generate download URL"
  const FetchFailed := "Failed to fetch object from S3"
  const ListFailed := "Failed to list files in S3"

  /** The names `module.exports` offers; `deleteFileFromS3` is not one. */
  const Exports: set<string> :=
    {"uploadToS3", "generatePresignedUploadUrl", "generatePresignedDownloadUrl", "getObjectFromS3", "listFilesInS3"}

  datatype Operation = PutObject | GetObject

  /** What is handed to `getSignedUrl`: the command and its lifetime. */
  datatype SignRequest = SignRequest(op: Operation, key: string, expiresIn: int)

  /** The presigner: a URL, or `None` when `getSignedUrl` threw. */
  type Signer = SignRequest -> Option<string>

  /** `${username}/${fileName}` */
  function ObjectKey(username: string, fileName: string): string {
    username + "/" + fileName
  }

  /** For a slash-free user name the key determines both of its parts. */
  lemma ObjectKeyInjective(u1: string, f1: string, u2: string, f2: string)
    requires '/' !in u1 && '/' !in u2
    requires ObjectKey(u1, f1) == ObjectKey(u2, f2)
    ensures u1 == u2 && f1 == f2
  {
    var k := ObjectKey(u1, f1);
    Strings.SplitAfterFirst(u1, '/', f1);
    Strings.SplitAfterFirst(u2, '/', f2);
    assert k == u1 + ['/'] + f1 && k == u2 + ['/'] + f2;
    assert u1 == Strings.Split(k, '/')[0] == u2;
    assert f1 == k[|u1| + 1..] == f2;
  }

  // ---- presigned URLs -------------------------------------------------------

  function Presign(op: Operation, fileName: string, username: string, sign: Signer, message: string): (r: Result<string, string>)
    ensures var req := sign(SignRequest(op, ObjectKey(username, fileName), UrlLifetime));
      && (r.Success? <==> req.Some?)
      && (r.Success? ==> r.value == req.value)
      && (r.Failure? ==> r.error == message)
  {
    match sign(SignRequest(op, ObjectKey(username, fileName), UrlLifetime))
    case Some(url) => Success(url)
    case None => Failure(message)
  }

  /** `generatePresignedUploadUrl(fileName, username)`: a one-hour PUT URL for
      `<username>/<fileName>`. */
  function PresignedUploadUrl(fileName: string, username: string, sign: Signer): (r: Result<string, string>)
    ensures var req := sign(SignRequest(PutObject, username + "/" + fileName, 3600));
      (r.Success? <==> req.Some?) && (r.Success? ==> r.value == req.value)
    ensures r.Failure? ==> r.error == "Failed to generate upload URL"
  {
    Presign(PutObject, fileName, username, sign, UploadUrlFailed)
  }

  /** `generatePresignedDownloadUrl(fileName, username)`: a one-hour GET URL
      for `<username>/<fileName>`. */
  function PresignedDownloadUrl(fileName: string, username: string, sign: Signer): (r: Result<string, string>)
    ensures var req := sign(SignRequest(GetObject, username + "/" + fileName, 3600));
      (r.Success? <==> req.Some?) && (r.Success? ==> r.value == req.value)
    ensures r.Failure? ==> r.error == "Failed to generate download URL"
  {
    Presign(GetObject, fileName, username, sign, DownloadUrlFailed)
  }

  /** Upload and download URLs for one file are signed for the same object,
      and differ only in the command. */
  lemma UploadAndDownloadShareKey(fileName: string, username: string, sign: Signer)
    ensures PresignedUploadUrl(fileName, username, sign).Success? <==>
      sign(SignRequest(PutObject, ObjectKey(username, fileName), UrlLifetime)).Some?
    ensures PresignedDownloadUrl(fileName, username, sign).Success? <==>
      sign(SignRequest(GetObject, ObjectKey(username, fileName), UrlLifetime)).Some?
  {
  }

  // ---- getObjectFromS3 ------------------------------------------------------

  /** The part of a GetObject answer the pipeline looks at. */
  datatype ObjectData = ObjectData(hasBody: bool, contentLength: Option<nat>)

  /** `getObjectFromS3(fileName, username)`; `fetch` is the store, asked by
      key. */
  function GetObjectFromS3(fileName: string, username: string, fetch: string -> Option<ObjectData>): (r: Result<ObjectData, string>)
    ensures var answer := fetch(username + "/" + fileName);
      (r.Success? <==> answer.Some?) && (r.Success? ==> r.value == answer.value)
    ensures r.Failure? ==> r.error == "Failed to fetch object from S3"
  {
    match fetch(ObjectKey(username, fileName))
    case Some(data) => Success(data)
    case None => Failure(FetchFailed)
  }

  // ---- uploadToS3 -----------------------------------------------------------

  /** The key a put was sent with (if one was sent) and the outcome. */
  datatype Upload = Upload(putKey: Option<string>, result: Result<string, string>)

  /** `uploadToS3(filePath, username)`. `onDisk` is `fs.existsSync` of the
      path and `putOk` whether the store accepted the put. A missing file
      fails before any put; the key is the user name and the path's base
      name, and that base name is what a success returns. */
  function UploadToS3(filePath: string, username: string, onDisk: bool, putOk: bool): (u: Upload)
    ensures u.putKey.Some? <==> onDisk
    ensures u.result.Success? <==> onDisk && putOk
    ensures u.result.Failure? ==> u.result.error == "Upload to S3 failed"
    ensures u.putKey.Some? ==> u.putKey.value == username + "/" + Paths.Basename(filePath)
    ensures u.result.Success? ==> u.result.value == Paths.Basename(filePath) && '/' !in u.result.value
  {
    if !onDisk then Upload(None, Failure(UploadFailed))
    else
      var name := Paths.Basename(filePath);
      var key := ObjectKey(username, name);
      if putOk then Upload(Some(key), Success(name)) else Upload(Some(key), Failure(UploadFailed))
  }

  /** The name a successful upload returns is the last segment of the key it
      stored, so the object can be found again by that name. */
  lemma UploadReturnsKeyName(filePath: string, username: string)
    ensures var u := UploadToS3(filePath, username, true, true);
      && u.putKey == Some(ObjectKey(username, u.result.value))
      && Strings.LastSegment(u.putKey.value, '/') == u.result.value
  {
    var name := Paths.Basename(filePath);
    assert ObjectKey(username, name) == username + ['/'] + name;
    Strings.LastSegmentAfterSeparator(username, '/', name);
  }

  // ---- listFilesInS3 --------------------------------------------------------

  datatype Listed = Listed(fileName: string, downloadUrl: string)

  /** The signing request `listFilesInS3` makes for the object at `key`: it
      passes the full key as the file name, so the user prefix is added a
      second time. */
  function ListedRequest(key: string, username: string): SignRequest {
    SignRequest(GetObject, ObjectKey(username, key), UrlLifetime)
  }

  /** The entries for `keys`, or `None` when one of the signings threw (which
      rejects the whole `Promise.all`). */
  function SignAll(keys: seq<string>, username: string, sign: Signer): (r: Option<seq<Listed>>)
    ensures r.Some? <==> forall i :: 0 <= i < |keys| ==> sign(ListedRequest(keys[i], username)).Some?
    ensures r.Some? ==> |r.value| == |keys|
    ensures r.Some? ==> forall i :: 0 <= i < |keys| ==>
      && r.value[i].fileName == Strings.LastSegment(keys[i], '/')
      && sign(ListedRequest(keys[i], username)) == Some(r.value[i].downloadUrl)
  {
    if |keys| == 0 then Some([])
    else
      match sign(ListedRequest(keys[0], username))
      case None => None
      case Some(url) =>
        match SignAll(keys[1..], username, sign)
        case None => None
        case Some(rest) => Some([Listed(Strings.LastSegment(keys[0], '/'), url)] + rest)
  }

  /** `listFilesInS3(username)`. `contents` is the listing's `Contents` keys,
      `None` when the call threw or the answer had no `Contents` (mapping over
      `undefined` throws). */
  function ListFilesInS3(username: string, contents: Option<seq<string>>, sign: Signer): (r: Result<seq<Listed>, string>)
    ensures r.Success? <==> contents.Some? && forall i :: 0 <= i < |contents.value| ==>
      sign(SignRequest(GetObject, username + "/" + contents.value[i], 3600)).Some?
    ensures r.Success? ==> |r.value| == |contents.value| && forall i :: 0 <= i < |r.value| ==>
      && r.value[i].fileName == Strings.LastSegment(contents.value[i], '/')
      && r.value[i].downloadUrl == sign(SignRequest(GetObject, username + "/" + contents.value[i], 3600)).value
    ensures r.Failure? ==> r.error == "Failed to list files in S3"
  {
    match contents
    case None => Failure(ListFailed)
    case Some(keys) =>
      match SignAll(keys, username, sign)
      case None => Failure(ListFailed)
      case Some(files) => Success(files)
  }

  /** For an object stored at `<username>/<name>`, the listing reports `name`
      but signs its download URL for `<username>/<username>/<name>`, which is
      not the object's key. */
  lemma {:induction false} ListedUrlDoublesPrefix(username: string, name: string, sign: Signer)
    requires '/' !in name
    ensures var r := ListFilesInS3(username, Some([ObjectKey(username, name)]), sign);
      r.Success? ==> r.value[0].fileName == name
    ensures ListedRequest(ObjectKey(username, name), username).key == ObjectKey(username, ObjectKey(username, name))
    ensures ListedRequest(ObjectKey(username, name), username).key != ObjectKey(username, name)
  {
    assert ObjectKey(username, name) == username + ['/'] + name;
    Strings.LastSegmentAfterSeparator(username, '/', name);
    assert |ObjectKey(username, ObjectKey(username, name))| > |ObjectKey(username, name)|;
  }

  /** An empty listing succeeds whatever the presigner would do. */
  lemma EmptyListingSucceeds(username: string, sign: Signer)
    ensures ListFilesInS3(username, Some([]), sign) == Success([])
  {
  }

  /** A listing without `Contents`, as the store answers for a prefix that
      holds no object, fails: the `map` over it throws. */
  lemma MissingContentsFails(username: string, sign: Signer)
    ensures ListFilesInS3(username, None, sign) == Failure(ListFailed)
  {
  }
}
