# Video upload, transcode and progress pipeline

A Dafny model of the core of a small Express service. Users upload a video
to an object store and the service transcodes it in the background. Users
follow the job's progress and list their files. Metadata and progress live
in a durable key-value table behind a memcached cache-aside layer.

Every collaborator is abstract:

- The durable table is a map from `(user, sort key)` to an attribute map.
- The cache is a map from string key to a value and an absolute expiry
  time.
- Table reads are answers passed in as values. Table and cache writes carry
  flags saying whether the collaborator accepted them.
- The object store, the presigner and the JWT verifier are functions from a
  request to an optional answer.
- The encoder is a list of integer progress ticks followed by `end` or
  `error`.
- Clocks are parameters: milliseconds for ids, an ISO string for
  timestamps, and seconds for cache expiry.

Modules, one per file:

- `Cache`: `redisClient.js`. The client created at load, key schemes, the
  one-hour expiry, and error-to-`null` reads.
- `Database`: `db/database.js`. The cache-aside accessors over `State(table,
  cache)`.
- `ObjectStore`: `routes/s3_upload.js`. Object keys, presigned URLs,
  upload, fetch and listing, each with its fixed error message.
- `Transcode`: `transcode.js`. The job as a pure function from a `Script`
  of collaborator outcomes to a `Run`. A `Run` is the trace of `Effect`s
  the job issues plus how its promise settles: `Resolved`, `Rejected`, or
  `Pending` (never settles: after a failed upload, or when the object's
  body fails during the download, since `pipe` passes that error on to no
  listener).
- `Upload`: `routes/upload.js`. Validation, the tracking id, the three
  awaited writes, the detached launch and the `then`/`catch` follow-ups.
- `Auth`: `auth.js`. Token extraction, username and role, and the admin
  gate.
- `Api`: `routes/api.js`. The `/progress`, `/files`, `/admin/delete-file`,
  `/upload-url` and `/download-url` handlers as pure functions from inputs
  and collaborator answers to a response.
- `Pipeline`: interprets effect traces against the store (`Apply`,
  `ApplyAll`) and states end-to-end properties.
  - The progress an upload's tracking id names is never reported to its
    owner, because the pipeline calls `saveProgress(progressId, percent,
    status)` against the signature `(username, fileName, progressData)`.
  - An upload with a cold file-list cache makes `/files` list only the new
    file for an hour.
  - A deleted file stays listed while the cached list lives.
- Support modules:
  - `Js`: JavaScript values, truthiness, `||`, property access, template
    rendering and `parseFloat`.
  - `Strings`: decimal rendering, `split`/`join`, last segment.
  - `Paths`: `path.join`, `basename`, `parse().name`.
  - `Effects`: the trace vocabulary.
  - `Http`: responses.
  - `Wrappers`: `Option` and `Result`.

## Model

| member | source | states |
|---|---|---|
| Cache.Lookup | redisClient.js:43-44 | a memcached get yields a value exactly when the key holds an entry that has not expired, and then yields that entry's value |
| Cache.Put | redisClient.js:33 | a set stores the value with expiry now + 3600 under its key and leaves every other key as it was |
| Cache.PutThenLookup | redisClient.js:33 | a value written at t0 is read back at any time before t0 + 3600 and is gone from t0 + 3600 on |
| Cache.InitializeClient | redisClient.js:9-27 | an existing client is returned unchanged; without one, the re-assignment of the `const` binding fails |
| Cache.InitializeAlwaysReturnsLoadedClient | redisClient.js:4-12 | because the load-time client is always truthy, every call returns that client (endpoint, 5000 ms timeout, 5 retries) and the re-creation branch is never taken |
| Cache.CacheProgress | redisClient.js:29-38 | progress is cached under the raw progress id and reads back for the next hour; no other key changes; a failing set leaves the cache unchanged |
| Cache.GetCachedProgress | redisClient.js:40-49 | a failing read gives `null`; otherwise the value stored under the raw id while its hour lasts, and `null` for a missing or expired entry |
| Cache.CacheFileMetadata | redisClient.js:51-61 | a user's list is cached under `<username>_files` and reads back for the next hour; no other key changes; a failing set leaves the cache unchanged |
| Cache.GetCachedFileMetadata | redisClient.js:63-73 | a failing read gives `null`; otherwise the list stored under `<username>_files` while its hour lasts, and `null` for a missing or expired entry |
| Cache.FileMetadataRoundTrip | redisClient.js:51-73 | metadata cached at t0 is read back unchanged within the hour; after the hour, or when the read fails, the answer is `null` |
| Cache.ProgressRoundTrip | redisClient.js:29-49 | progress cached at t0 under its id is read back within the hour and is `null` afterwards |
| Cache.CacheFileMetadataIsolated | redisClient.js:52 | caching one user's files leaves every other user's cached list untouched |
| Cache.FilesKeyInjective | redisClient.js:52 | distinct users have distinct file-list keys |
| Database.SaveUserActivity | db/database.js:96-113 | an accepted put adds exactly the row `(user, ACTIVITY#<ms>)` with the four attributes and keeps every other row; a rejected put is swallowed and changes nothing; the cache is never touched |
| Database.ActivityIdInjective | db/database.js:101 | different milliseconds give different activity ids |
| Database.ActivitiesInDistinctMillisecondsBothKept | db/database.js:99-104 | two activities of one user in different milliseconds are both kept; in the same millisecond the later overwrites the earlier |
| Database.MetadataRowAttributes | db/database.js:159-166 | the durable metadata row holds only `user`, `fileName`, `size`, `format`, `resolution` and `uploadTime`; the upload's `status`, `progressId` and any `progress` are not stored |
| Database.MetadataRowDefaults | db/database.js:160-165 | `format` and `resolution` default to `null`, `uploadTime` defaults to the current time, and defined `user`, `fileName` and `size` are copied |
| Database.SaveFileMetadata | db/database.js:156-182 | a rejected put changes nothing; an accepted put writes the row, then appends the full input object at the end of the cached list, starting from `[]` when none is cached; the list is not written when the set fails or the cached value is not an array; no other cache key changes |
| Database.SaveProgress | db/database.js:185-207 | a rejected put changes nothing; an accepted put writes the row keyed by `(username, fileName)`, and a successful set caches the data under `progress:<username>:<fileName>` for an hour; no other cache key changes and no failure escapes |
| Database.GetProgress | db/database.js:210-241 | a live cache entry is returned as is; on a miss a found item is cached under the progress key and returned; a cache error, a missing item, a store error or a failed set gives `null`; the table is never written |
| Database.SaveThenGetProgress | db/database.js:185-218 | progress saved for a `(username, fileName)` pair is what `getProgress` with the same pair returns within the hour, whatever the table holds |
| Database.GetProgressIgnoresFileNameOnMiss | db/database.js:220-227 | on a cache miss the answer does not depend on `fileName`, since the table is asked by `user` alone |
| Database.FileRows | db/database.js:142 | the files are drawn from the store's rows, each carries a `fileName`, and every row with a `fileName` is among them |
| Database.FileRowsAppend | db/database.js:142 | the filter keeps the store's order: it distributes over concatenation |
| Database.GetFileMetadata | db/database.js:116-153 | a truthy cached list is returned unchanged and the table is not asked; otherwise the result is the queried rows that carry a `fileName`, in order, cached only when non-empty; a failing or empty query gives `[]`; the table is never written |
| Database.ColdReadListsUserFiles | db/database.js:123-150 | on a cache miss, when the Query returns each of the user's table rows once, the read lists every such row that has a `fileName` and nothing else |
| Database.SavedMetadataListedOnColdRead | db/database.js:155-176 | after the store accepts a metadata row with a `fileName`, the owner's next cold read lists that row |
| Database.DeleteFile | db/database.js:266-282 | the delete succeeds exactly when the store accepts it, removes exactly the `(username, fileName)` row and leaves the cached list as it is; a store error is rethrown |
| Database.LastWithKeyFindsEveryUser | db/database.js:301-308 | every row carrying a username has a last row with that username |
| Database.IndexOfKey | db/database.js:303 | the lookup finds the position of a username already seen, or reports that it was not seen |
| Database.GetAllUsers | db/database.js:285-315 | a failing scan gives `[]`; usernames in the result are pairwise distinct; each entry is built from the last row with its username, with role defaulting to `'user'`; every row with a username is represented |
| ObjectStore.ObjectKeyInjective | routes/s3_upload.js:67 | for a slash-free user name, the key `<username>/<fileName>` determines both parts |
| ObjectStore.Presign | routes/s3_upload.js:65-101 | a presign succeeds exactly when the presigner answers for `<username>/<fileName>` with a one-hour lifetime, returns that URL, and otherwise fails with the given message |
| ObjectStore.PresignedUploadUrl | routes/s3_upload.js:65-82 | the upload URL is the presigner's PUT URL for `<username>/<fileName>` expiring in 3600 s; any failure becomes "Failed to generate upload URL" |
| ObjectStore.PresignedDownloadUrl | routes/s3_upload.js:85-101 | the download URL is the presigner's GET URL for `<username>/<fileName>` expiring in 3600 s; any failure becomes "Failed to generate download URL" |
| ObjectStore.UploadAndDownloadShareKey | routes/s3_upload.js:67-94 | upload and download URLs for one file are signed for the same object key and differ only in the command |
| ObjectStore.GetObjectFromS3 | routes/s3_upload.js:104-120 | the fetch asks the store for `<username>/<fileName>` and returns its answer; any failure becomes "Failed to fetch object from S3" |
| ObjectStore.UploadToS3 | routes/s3_upload.js:34-62 | a put is sent exactly when the file exists, under `<username>/<basename>`; success needs the file and an accepted put, and returns the slash-free basename; every failure is "Upload to S3 failed" |
| ObjectStore.UploadReturnsKeyName | routes/s3_upload.js:44-57 | the name a successful upload returns is the last segment of the key it stored |
| ObjectStore.SignAll | routes/s3_upload.js:134-142 | the listing succeeds exactly when every signing does; each entry's name is the key's last segment and its URL is the one signed for that key |
| ObjectStore.ListFilesInS3 | routes/s3_upload.js:123-149 | the listing succeeds exactly when `Contents` is present and every signing of `<username>/<key>` succeeds; it then has one entry per key, in order; any failure becomes "Failed to list files in S3" |
| ObjectStore.ListedUrlDoublesPrefix | routes/s3_upload.js:136-139 | for an object stored at `<username>/<name>` the listing reports `name` but signs `<username>/<username>/<name>`, which is not the object's key |
| ObjectStore.EmptyListingSucceeds | routes/s3_upload.js:134-144 | a listing whose answer carries `Contents: []` succeeds with no entries whatever the presigner does |
| ObjectStore.MissingContentsFails | routes/s3_upload.js:134-144 | a listing answer without `Contents`, as for a prefix holding no object, makes the listing fail |
| Paths.Basename | routes/s3_upload.js:44 | a base name never contains a slash |
| Paths.ExtensionStart | transcode.js:23 | the extension starts at the last dot when there is one, it is not the first character, and the name is not `..`; otherwise there is none |
| Paths.StemAndExtension | transcode.js:23 | `parse().name` followed by the extension is the base name; the extension is empty or one dot-led suffix; the name has no slash |
| Paths.BasenameOfJoin | transcode.js:24 | joining a slash-free name to a directory gives a path whose base name is that name |
| Transcode.OutputNaming | transcode.js:23-24 | the output name is the input's base name without its last extension, plus `_transcoded.mp4`, and it is the base name of the output path in the temp dir |
| Transcode.DownloadFileFromS3 | transcode.js:71-93 | a failed fetch, then a missing body, then a missing or zero length each fail with their own message before anything is written; only a valid object is written to the download path; then a write-stream error rejects, a body error leaves the download unsettled, and otherwise it completes |
| Transcode.TickWrites | transcode.js:35-39 | one `saveProgress(progressId, percent, "transcoding")` per encoder tick, in tick order |
| Transcode.Finish | transcode.js:40-59 | the sampler is cleared first and only once. `error` writes one error progress and rejects. `end` with a successful upload stores the output, unlinks the input then the output, and resolves. `end` with a failed upload never settles and removes nothing |
| Transcode.JobEnd | transcode.js:40-59 | the same as `Finish`, for the output `tmp/<name>_transcoded.mp4` uploaded under the job's user: it resolves exactly when the encoder ended and the output exists and was accepted |
| Transcode.TranscodeVideoWithProgress | transcode.js:10-68 | the job starts the sampler first; it resolves exactly when the download succeeds, the encoder ends and the upload succeeds; it is pending exactly when the body fails during the download, or the download succeeds, the encoder ends and the upload fails; an encoder error rejects with that error |
| Transcode.FailedRunShape | transcode.js:61-65 | a download that fails (and does not stall) goes straight to the `catch`: at most the input file is created, then the sampler is cleared, one error progress is written and the promise rejects |
| Transcode.BodyErrorStallsJob | transcode.js:85-88 | when the body fails during the transfer the run is exactly: start the sampler, create the input file, and stay pending; the sampler is never cleared and no error progress is written |
| Transcode.SucceededRunShape | transcode.js:20-60 | a successful download writes the input file, reports every tick and then runs the encoder's handlers |
| Transcode.DownloadFailureStopsJob | transcode.js:61-65 | after a failed download nothing is encoded, uploaded or unlinked; the run ends with the sampler clear and the error progress, and rejects |
| Transcode.TickWritesReportTicks | transcode.js:35-39 | the `"transcoding"` percentages written are exactly the ticks, in order |
| Transcode.EveryTickWrittenOnce | transcode.js:35-39 | when the download succeeds, the whole run writes exactly one `"transcoding"` progress per tick, in order, whatever happens after |
| Transcode.ProgressCallsUseTrackingId | transcode.js:38-64 | every progress write passes the tracking id where `saveProgress` expects the user name and a percentage where it expects the file name |
| Transcode.SamplerClearedOnce | transcode.js:16-64 | the sampler is started first; it is cleared exactly once on every path, including a failed upload that never settles, except a body failure during the download, where it is never cleared |
| Transcode.EndOrder | transcode.js:40-51 | on `end` with a successful upload the run ends with: clear the sampler, store `<username>/<output name>`, unlink the input, unlink the output; then it resolves |
| Transcode.UnlinkOnlyWhenResolved | transcode.js:40-65 | temporary files are removed if and only if the job resolves; an encoder error, a failed or stalled download and a failed upload all leave them |
| Transcode.FailedUploadNeverSettles | transcode.js:42-51 | a failed upload after `end` leaves the promise pending, after the ticks and the sampler clear, with nothing stored or unlinked |
| Transcode.SameNameSharesTempFile | transcode.js:12-13 | the input path depends on the file name alone, so two jobs for one name download to the same temporary file |
| Transcode.TerminalProgressWrites | transcode.js:53-65 | the job itself never writes `"completed"`, and writes `"error"` exactly once when it rejects and never otherwise |
| Transcode.StatusWritesAfterTicks | transcode.js:35-39 | before the encoder's handlers run, no progress other than `"transcoding"` is written |
| Transcode.FailedRunStatusWrites | transcode.js:61-65 | the `catch` path writes one `"error"` progress and no `"completed"` one |
| Transcode.FinishErrorWrites | transcode.js:53-58 | the handlers write `"error"` once on an encoder error and never on `end` |
| Upload.ProgressIdInjective | routes/upload.js:15 | the tracking id `<username>_<ms>` determines both the user and the millisecond |
| Upload.FollowUp | routes/upload.js:35-50 | a settled job gets two follow-up writes (a progress under the tracking id, then an activity); a job that never settles gets none |
| Upload.FollowUpCounts | routes/upload.js:35-50 | resolution adds one `"completed"` write, rejection one `"error"` write, and a pending job neither |
| Upload.HandleUpload | routes/upload.js:7-62 | a missing file name gives 400 with no writes and no job; otherwise 201 with the file name and the tracking id, after the activity, the metadata (`size` null, `status` `'uploaded'`, the tracking id), `saveProgress(progressId, 0, 'started')` and the launch, in that order |
| Upload.ResponseIndependentOfJob | routes/upload.js:34-57 | the response and the writes before it are the same however the job goes |
| Upload.TerminalWrites | routes/upload.js:35-50 | a completed job gets one `"completed"` write; a failed one gets `"error"` twice, once from the job and once from the `catch` handler; a job that never settles gets neither |
| Auth.ExtractToken | auth.js:92-96 | with a `Bearer ` header the token is the header's second space-separated piece; otherwise it is a non-empty `token` cookie, or none |
| Auth.BearerSplit | auth.js:93 | splitting a bearer header on spaces gives `Bearer` followed by the pieces of the rest |
| Auth.BearerWinsOverCookie | auth.js:92-96 | with a bearer header the cookie does not affect the token |
| Auth.UsernameOf | auth.js:108 | the username is `username`, else `cognito:username`, else `sub`, each case stated; it is absent exactly when all three are empty |
| Auth.RoleOf | auth.js:114-117 | the role is admin exactly for users on the admin list |
| Auth.AuthenticateToken | auth.js:88-130 | no token gives 401; a rejected token gives 403 "Invalid token"; a verified token naming no user gives 403 "Invalid token payload"; any other answer is 401 or 403; `next` runs exactly when the token verifies and names a user, with that user and its role |
| Auth.AuthorizeAdmin | auth.js:146-152 | `next` runs exactly for a present user with the admin role; anyone else gets 403 "Access denied. Admins only." |
| Auth.AdminRouteAccess | auth.js:88-152 | behind both middlewares, a request reaches an admin route exactly when its token verifies and names a user on the admin list |
| Api.NumberOrZero | routes/api.js:320 | `parseFloat(x) \|\| 0`: the parsed number, or 0 when it is not a number |
| Api.ProgressResponse | routes/api.js:313-322 | 404 "Progress not found." exactly when `getProgress` gave a falsy value; otherwise 200 with the parsed progress (0 when unparsable) and the status (`'unknown'` when absent) |
| Api.ProgressOfRecord | routes/api.js:319-322 | a record with a numeric progress and a non-empty status is reported as is |
| Api.HandleProgress | routes/api.js:308-327 | the route answers 200 or 404 and never writes the table; a live cached record is answered through the progress shaping, as is a row found on a miss that could be cached; a failing cache read, a missing row or a failed cache write answers 404 leaving all state unchanged |
| Api.SavedProgressReported | routes/api.js:313-322 | progress saved for a user and id with a numeric percentage and a non-empty status is answered 200 with exactly that percentage and status for the next hour |
| Api.FileProgress | routes/api.js:240 | a file without progress data is reported at 100; otherwise its parsed progress, or `null` when unparsable |
| Api.FileWithProgress | routes/api.js:241 | the entry has the file's own properties plus `progress`, which overrides any existing one |
| Api.WithProgress | routes/api.js:237-243 | one entry per file, in order, each with the progress looked up by that file's `fileName` |
| Api.FilesResponse | routes/api.js:233-263 | an array gives 404 exactly when it is empty, and otherwise 200 with every file and its progress; `undefined`/`null` give 500; every answer is 200, 404 or 500 |
| Api.StoreFailureLooksLikeNoFiles | routes/api.js:233-235 | with a cold cache, a failing table query is reported as 404 "no files" rather than as an error |
| Api.HandleDeleteFile | routes/api.js:184-204 | a missing user or file name gives 400 with nothing deleted; 200 exactly when `deleteFileFromS3` is exported, the object delete succeeds and the row delete succeeds, removing only that row; every other answer leaves the state unchanged |
| Api.DeleteNeverSucceeds | routes/api.js:19-23 | since `deleteFileFromS3` is not among the object store's exports, every well-formed delete request answers 500 and deletes nothing |
| Api.HandleUploadUrl | routes/api.js:266-284 | a missing file name gives 400; otherwise 200 with the presigned PUT URL, or 500 when signing failed |
| Api.HandleDownloadUrl | routes/api.js:287-305 | a missing file name gives 400; otherwise 200 with the presigned GET URL, or 500 when signing failed |
| Api.UrlRoutesSignCallersObject | routes/api.js:266-305 | both URL routes succeed exactly when the presigner signs the caller's own `<username>/<fileName>` for an hour |
| Pipeline.TrackingIdIsNotUser | routes/upload.js:15 | a tracking id is never the user name itself |
| Pipeline.ProgressKeysDiffer | db/database.js:186-211 | the cache key a tracking-id progress write uses never equals `progress:<username>:<progressId>`, the key `/progress` reads |
| Pipeline.FilesKeyIsNotProgressKey | redisClient.js:52 | no file-list key equals the progress key `/progress` reads for a tracking id |
| Pipeline.FilesKeyIsNotPercentKey | db/database.js:186 | no file-list key equals a progress key whose file part is a percentage |
| Pipeline.SilentAnswer | routes/api.js:315-322 | a record with neither `progress` nor `status` is answered 404 or `{ progress: 0, status: 'unknown' }` |
| Pipeline.ApplyKeepsHidden | db/database.js:96-207 | a write whose progress, if any, goes under the tracking id adds no progress to the user's rows or to the key `/progress/<progressId>` reads |
| Pipeline.ProgressWriteKeepsHidden | db/database.js:185-201 | a progress write under the tracking id touches neither the user's rows nor the key `/progress` reads |
| Pipeline.ActivityKeepsHidden | db/database.js:96-113 | an activity row carries no progress and the cache is not touched |
| Pipeline.MetadataKeepsHidden | db/database.js:156-182 | a metadata row carries no progress, and only the file-list cache key changes |
| Pipeline.ApplyAllKeepsHidden | db/database.js:96-207 | a trace with no progress write under the user keeps the user's progress hidden, whatever the store and clocks answer |
| Pipeline.UploadEffectsHarmless | routes/upload.js:32-45 | every progress write of the upload handler, its job and its follow-ups is made under the tracking id |
| Pipeline.ProgressReadKeepsHidden | routes/api.js:308-322 | while the user's progress is hidden, `/progress` answers 404 or `unknown`, and whatever it caches keeps it hidden |
| Pipeline.UploadProgressNeverReported | routes/upload.js:32 | if the user's rows and the key `/progress/<progressId>` reads carry no progress beforehand, then after all the writes of the upload and its job that route answers the owner only 404 or `{ progress: 0, status: 'unknown' }` |
| Pipeline.UploadHidesOlderFiles | db/database.js:169-176 | when the user's list is not cached and the writes are accepted, an upload keeps every table row but makes `/files` list only the new upload for the next hour |
| Pipeline.FirstWritesListOnlyNewFile | routes/upload.js:18-32 | the activity, the metadata and the `started` progress, when accepted on a cold list, leave a cached list holding only the new record |
| Pipeline.FourWritesApplied | routes/upload.js:18-34 | the handler's four effects amount to the activity, metadata and progress writes in that order; the launch itself writes nothing |
| Pipeline.ProgressWriteKeepsFileList | db/database.js:185-201 | a progress write keyed by a percentage keeps every row and leaves every cached file list alone |
| Pipeline.MetadataOnColdList | db/database.js:173-176 | on a cold list an accepted metadata write caches a list holding only the new record, expiring in an hour |
| Pipeline.DeletedFileStillListed | db/database.js:266-282 | deleting a file leaves the cached list unchanged, so while that list lives `/files` keeps listing the deleted file |
| Strings.NatToStringInjective | routes/upload.js:15 | different numbers render differently in a template literal |
| Strings.NatToStringRoundTrip | routes/upload.js:15 | reading the rendered digits back gives the number |
| Strings.IntToStringRoundTrip | routes/api.js:320 | `parseFloat` of a rendered integer gives the integer back |
| Strings.JoinSplit | auth.js:93 | joining the pieces of a split restores the string |
| Strings.LastOfSplit | routes/s3_upload.js:138 | `split('/').pop()` is the text after the last slash |

## Left out

- I/O and collaborators: the AWS SDK calls, the memjs network client and the
  ffmpeg process (codec options, `.save`). They are abstract answers and
  flags. `unmarshall` is the identity. JSON stringify/parse is the identity.
- Database.Marshall: assumes that `marshall` drops `undefined` attributes.
  With the SDK's default options it throws instead, and the calls sit outside
  the `try` blocks (db/database.js:99, 159, 269). No call the core makes
  passes an `undefined` attribute: the upload handler sets every one.
- Collaborators' own error messages: they are opaque strings. Only the
  fixed messages the source writes are modelled.
- Concurrency: detached jobs, `Promise.all`, and interleavings between
  jobs. One job is one sequential trace. The source starts the sampler
  and issues the `GetObject` before it answers 201; the model places the
  job's effects after the response.
- Process exit: `Pending` is the job's promise only. In Node a failed
  upload rejects the async `end` listener with no handler, and a body
  `error` that reaches no listener is thrown as an uncaught exception; with
  no `unhandledRejection` or `uncaughtException` hook either ends the
  process. The model keeps the job's trace up to that point and treats the
  exit as `Pending`.
- `logCpuUsage` and the 2-second interval: the OS sampling is left out and
  only the sampler's start and clear remain.
- `fs.unlinkSync` failures are not modelled, so an unlink always succeeds.
- `Math.round`: the encoder's percentages are given already rounded.
- `calculateStartTimeFromProgress` and `getVideoDurationInSeconds` are left
  out: floating point and ffprobe, and the former is never called.
- The `cacheProgress`/`getCachedProgress` helpers inside `transcode.js` are
  left out: they are unused and call client methods that the module does
  not provide.
- `getAllFiles`, `saveUser`, the `/admin/users` route, the login, register
  and confirm routes, `registerUser`, `generateAccessToken`, `logoutUser`
  and secret loading are left out: they pass through to collaborators.
- The duplicate admin router, server wiring, static pages, the weather
  call and the load generator are left out: none is part of the pipeline.
- The merge-conflict markers in `routes/api.js` are ignored. The handlers
  are modelled from the logic both sides share; as written the file does
  not parse.
- `path.join` and `path.normalize` do not normalise `.` and `..` segments.
  A join is `dir + "/" + name`.
- Js.ParseFloat: reads an optional sign and leading decimal digits only.
  Fractions, exponents, `Infinity` and leading whitespace are not modelled,
  because numbers are integers here.
- Database.GetAllUsers: does not state the order of the result. JavaScript
  orders integer-like property names first, and the model keeps
  first-insertion order.
- Api.FileWithProgress: a list entry that is not an object contributes no
  properties. JavaScript would spread a string's characters, and a `null`
  entry would throw.
- Api.FilesResponse: does not model the state that the per-file
  `getProgress` calls leave in the cache. Their answers are a function of
  the file name.
- Api.HandleProgress: the 500 branch is absent because `getProgress` never
  throws. Likewise the 500 branch of the upload handler is absent because
  none of its awaited writes throws.
- Upload.HandleUpload, Api.HandleDeleteFile, Api.HandleUploadUrl,
  Api.HandleDownloadUrl: the file name is a string when present. A
  non-string truthy `fileName`, such as the array a repeated query parameter
  gives, is not modelled.
- Database.SaveUserActivity: assumes the table accepts an item keyed by
  `user` and `activityId`. The table has one key schema. If it is
  (`user`, `fileName`), as `deleteFile` implies (db/database.js:267-273),
  every activity put is rejected, the case `putOk = false` models. The same
  assumption underlies Database.ActivitiesInDistinctMillisecondsBothKept.
- Database.GetProgress: assumes a GetItem keyed by `user` alone is valid.
  Under a (`user`, `fileName`) key schema it always fails validation, the
  case `ItemFailed` models. Under a `user`-only schema `deleteFile` always
  fails instead, and each metadata row replaces the user's previous one.
