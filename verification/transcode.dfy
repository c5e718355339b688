/** `transcodeVideoWithProgress` and `downloadFileFromS3` of `transcode.js`
    as a pure function from a script of collaborator outcomes to the trace of
    effects the job issues and how its promise settles. The encoder is a list
    of already-rounded progress percentages followed by `end` or `error`. */
module Transcode {
  import opened Wrappers
  import opened Js
  import opened Effects
  import Strings
  import Paths
  import ObjectStore

  datatype EncoderEnd = Ended | Failed(error: string)

  /** What the collaborators do during one job. `store` answers a GetObject
      by key; `bodyError` is whether the object's body stream fails during
      the transfer; `streamError` is the write stream's error, if it fails;
      `outputOnDisk` and `putOk` decide `uploadToS3` of the encoded file. */
  datatype Script = Script(
    store: string -> Option<ObjectStore.ObjectData>,
    bodyError: bool,
    streamError: Option<string>,
    ticks: seq<int>,
    encoder: EncoderEnd,
    outputOnDisk: bool,
    putOk: bool)

  /** How the job's promise settles; `Pending` is a promise that never
      settles. */
  datatype Settlement = Resolved | Rejected(reason: string) | Pending

  datatype Run = Run(trace: seq<Effect>, settlement: Settlement)

  /** `path.join(os.tmpdir(), fileName)`: the tracking id plays no part. */
  function InputPath(tmp: string, fileName: string): string {
    Paths.Join(tmp, fileName)
  }

  const OutputSuffix := "_transcoded.mp4"

  /** `${path.parse(fileName).name}_transcoded.mp4` */
  function OutputName(fileName: string): string {
    Paths.Stem(fileName) + OutputSuffix
  }

  function OutputPath(tmp: string, fileName: string): string {
    Paths.Join(tmp, OutputName(fileName))
  }

  /** The output keeps the input's base name up to its last extension, and
      its own base name is the output name. */
  lemma OutputNaming(tmp: string, fileName: string)
    ensures exists ext :: (Paths.Basename(fileName) == Paths.Stem(fileName) + ext
      && (ext == "" || (ext[0] == '.' && '.' !in ext[1..])))
    ensures '/' !in OutputName(fileName)
    ensures Paths.Basename(OutputPath(tmp, fileName)) == OutputName(fileName)
  {
    Paths.StemAndExtension(fileName);
    var ext := Paths.Extension(fileName);
    assert Paths.Basename(fileName) == Paths.Stem(fileName) + ext;
    OutputNameHasNoSlash(fileName);
    Paths.BasenameOfJoin(tmp, OutputName(fileName));
  }

  lemma OutputNameHasNoSlash(fileName: string)
    ensures |OutputName(fileName)| > 0 && '/' !in OutputName(fileName)
  {
    Paths.StemAndExtension(fileName);
    SuffixHasNoSlash();
    var stem := Paths.Stem(fileName);
    assert OutputName(fileName) == stem + OutputSuffix;
  }

  lemma SuffixHasNoSlash()
    ensures '/' !in OutputSuffix
  {
    forall i | 0 <= i < |OutputSuffix|
      ensures OutputSuffix[i] != '/'
    {
    }
  }

  // ---- downloadFileFromS3 ---------------------------------------------------

  /** How a download ends: the write stream closed, the download threw, or
      it never settles. */
  datatype FetchEnd = Closed | Threw(error: string) | Stalled

  /** A download's effects and how it ended. */
  datatype Fetch = Fetch(trace: seq<Effect>, end: FetchEnd)

  /** The object passes validation: it has a body and a positive length. */
  predicate Downloadable(data: ObjectStore.ObjectData) {
    data.hasBody && data.contentLength.Some? && data.contentLength.value != 0
  }

  /** `downloadFileFromS3(fileName, username, downloadPath)`: the fetch, then
      the body check, then the length check; only an object that passes both
      is written to disk. The promise listens to the write stream alone: its
      error rejects and its close resolves. `pipe` neither forwards an error
      of the body nor closes the file after one, so a body that fails during
      the transfer leaves the download unsettled. */
  function DownloadFileFromS3(fileName: string, username: string, downloadPath: string,
                              store: string -> Option<ObjectStore.ObjectData>, bodyError: bool,
                              streamError: Option<string>): (f: Fetch)
    ensures var answer := store(ObjectStore.ObjectKey(username, fileName));
      && (answer.None? ==> f == Fetch([], Threw("Failed to fetch object from S3")))
      && (answer.Some? && !answer.value.hasBody ==>
            f == Fetch([], Threw("Failed to download file " + fileName + " from S3: Body is undefined")))
      && (answer.Some? && answer.value.hasBody && !Downloadable(answer.value) ==>
            f == Fetch([], Threw("File " + fileName + " from S3 is empty or has no content")))
      && (answer.Some? && Downloadable(answer.value) ==> f.trace == [TempWritten(downloadPath)])
    ensures f.end.Closed? <==>
      var answer := store(ObjectStore.ObjectKey(username, fileName));
      answer.Some? && Downloadable(answer.value) && streamError.None? && !bodyError
    ensures f.end.Stalled? <==>
      var answer := store(ObjectStore.ObjectKey(username, fileName));
      answer.Some? && Downloadable(answer.value) && streamError.None? && bodyError
    ensures streamError.Some? && f.trace != [] ==> f.end == Threw(streamError.value)
  {
    match ObjectStore.GetObjectFromS3(fileName, username, store)
    case Failure(e) => Fetch([], Threw(e))
    case Success(data) =>
      if !data.hasBody then
        Fetch([], Threw("Failed to download file " + fileName + " from S3: Body is undefined"))
      else if data.contentLength.None? || data.contentLength.value == 0 then
        Fetch([], Threw("File " + fileName + " from S3 is empty or has no content"))
      else if streamError.Some? then
        Fetch([TempWritten(downloadPath)], Threw(streamError.value))
      else if bodyError then
        Fetch([TempWritten(downloadPath)], Stalled)
      else
        Fetch([TempWritten(downloadPath)], Closed)
  }

  /** Whether the download of `fileName` succeeds under `s`. */
  predicate DownloadSucceeds(fileName: string, username: string, s: Script) {
    var answer := s.store(ObjectStore.ObjectKey(username, fileName));
    answer.Some? && Downloadable(answer.value) && s.streamError.None? && !s.bodyError
  }

  /** Whether the download of `fileName` never settles under `s`. */
  predicate DownloadStalls(fileName: string, username: string, s: Script) {
    var answer := s.store(ObjectStore.ObjectKey(username, fileName));
    answer.Some? && Downloadable(answer.value) && s.streamError.None? && s.bodyError
  }

  // ---- transcodeVideoWithProgress -------------------------------------------

  /** One `saveProgress(progressId, percent, "transcoding")` per encoder tick,
      in order. */
  function TickWrites(progressId: string, ticks: seq<int>): (w: seq<Effect>)
    ensures |w| == |ticks|
    ensures forall i :: 0 <= i < |ticks| ==> w[i] == ProgressCall(progressId, ticks[i], "transcoding")
  {
    if |ticks| == 0 then [] else [ProgressCall(progressId, ticks[0], "transcoding")] + TickWrites(progressId, ticks[1..])
  }

  /** The percentages the encoder reported, as the values `saveProgress`
      receives. */
  function TickValues(ticks: seq<int>): seq<Value> {
    seq(|ticks|, i requires 0 <= i < |ticks| => Num(ticks[i]))
  }

  /** The `end` and `error` handlers of the encoder, given how the encoder
      ended and what `uploadToS3` of the output did: the sampler is cleared
      first; on `error` one error progress is written and the promise
      rejects; on `end` the output is uploaded and, only if that succeeded,
      the stored key is recorded, both temporary files are unlinked and the
      promise resolves. A failed upload throws inside the handler, so the
      promise never settles. */
  function Finish(progressId: string, input: string, output: string, encoder: EncoderEnd, upload: ObjectStore.Upload): (r: Run)
    requires upload.result.Success? ==> upload.putKey.Some?
    ensures |r.trace| >= 1 && r.trace[0] == SamplerCleared && SamplerCleared !in r.trace[1..]
    ensures r.settlement.Resolved? <==> encoder.Ended? && upload.result.Success?
    ensures r.settlement.Pending? <==> encoder.Ended? && upload.result.Failure?
    ensures encoder.Failed? ==> r.settlement == Rejected(encoder.error)
    ensures forall e :: e in r.trace && e.ProgressSaved? ==> e == ProgressCall(progressId, 0, "error")
    ensures forall e :: e in r.trace && (e.Unlinked? || e.ObjectStored?) ==> r.settlement.Resolved?
    ensures r.settlement.Resolved? ==>
      r.trace == [SamplerCleared, ObjectStored(upload.putKey.value), Unlinked(input), Unlinked(output)]
  {
    match encoder
    case Failed(err) =>
      Run([SamplerCleared, ProgressCall(progressId, 0, "error")], Rejected(err))
    case Ended =>
      if upload.result.Success? then
        Run([SamplerCleared, ObjectStored(upload.putKey.value), Unlinked(input), Unlinked(output)], Resolved)
      else
        Run([SamplerCleared], Pending)
  }

  /** The handlers as the job runs them: the output is uploaded under the
      user's name from the temporary directory. */
  function JobEnd(fileName: string, progressId: string, username: string, tmp: string, s: Script): (r: Run)
    ensures |r.trace| >= 1 && r.trace[0] == SamplerCleared && SamplerCleared !in r.trace[1..]
    ensures r.settlement.Resolved? <==> s.encoder.Ended? && s.outputOnDisk && s.putOk
    ensures r.settlement.Pending? <==> s.encoder.Ended? && !(s.outputOnDisk && s.putOk)
    ensures s.encoder.Failed? ==> r.settlement == Rejected(s.encoder.error)
    ensures forall e :: e in r.trace && e.ProgressSaved? ==> e == ProgressCall(progressId, 0, "error")
    ensures forall e :: e in r.trace && (e.Unlinked? || e.ObjectStored?) ==> r.settlement.Resolved?
    ensures r.settlement.Resolved? ==> r.trace[|r.trace| - 1] == Unlinked(OutputPath(tmp, fileName))
    ensures r.settlement.Pending? ==> r.trace == [SamplerCleared]
  {
    var output := OutputPath(tmp, fileName);
    Finish(progressId, InputPath(tmp, fileName), output, s.encoder, ObjectStore.UploadToS3(output, username, s.outputOnDisk, s.putOk))
  }

  /** `transcodeVideoWithProgress(fileName, progressId, username)` with
      `os.tmpdir()` = `tmp`. */
  function TranscodeVideoWithProgress(fileName: string, progressId: string, username: string, tmp: string, s: Script): (run: Run)
    ensures run.settlement.Resolved? <==>
      DownloadSucceeds(fileName, username, s) && s.encoder.Ended? && s.outputOnDisk && s.putOk
    ensures run.settlement.Pending? <==>
      || DownloadStalls(fileName, username, s)
      || (DownloadSucceeds(fileName, username, s) && s.encoder.Ended? && !(s.outputOnDisk && s.putOk))
    ensures DownloadSucceeds(fileName, username, s) && s.encoder.Failed? ==> run.settlement == Rejected(s.encoder.error)
    ensures |run.trace| >= 2 && run.trace[0] == SamplerStarted
  {
    var input := InputPath(tmp, fileName);
    var fetch := DownloadFileFromS3(fileName, username, input, s.store, s.bodyError, s.streamError);
    match fetch.end
    case Threw(e) =>
      Run([SamplerStarted] + fetch.trace + [SamplerCleared, ProgressCall(progressId, 0, "error")], Rejected(e))
    case Stalled =>
      Run([SamplerStarted] + fetch.trace, Pending)
    case Closed =>
      var finish := JobEnd(fileName, progressId, username, tmp, s);
      Run([SamplerStarted] + fetch.trace + TickWrites(progressId, s.ticks) + finish.trace, finish.settlement)
  }

  /** A failed download goes straight to the error handling of the `catch`
      block, after at most the creation of the input file. */
  lemma FailedRunShape(fileName: string, progressId: string, username: string, tmp: string, s: Script)
    requires !DownloadSucceeds(fileName, username, s) && !DownloadStalls(fileName, username, s)
    ensures var run := TranscodeVideoWithProgress(fileName, progressId, username, tmp, s);
      exists written: seq<Effect> :: (written == [] || written == [TempWritten(InputPath(tmp, fileName))])
        && run.trace == [SamplerStarted] + written + [SamplerCleared, ProgressCall(progressId, 0, "error")]
        && run.settlement.Rejected?
  {
    var fetch := DownloadFileFromS3(fileName, username, InputPath(tmp, fileName), s.store, s.bodyError, s.streamError);
    var run := TranscodeVideoWithProgress(fileName, progressId, username, tmp, s);
    assert fetch.end.Threw?;
    assert run.trace == [SamplerStarted] + fetch.trace + [SamplerCleared, ProgressCall(progressId, 0, "error")];
    assert fetch.trace == [] || fetch.trace == [TempWritten(InputPath(tmp, fileName))];
  }

  /** A successful download writes the input file, reports every tick and
      ends in `Finish`. */
  lemma SucceededRunShape(fileName: string, progressId: string, username: string, tmp: string, s: Script)
    requires DownloadSucceeds(fileName, username, s)
    ensures var run := TranscodeVideoWithProgress(fileName, progressId, username, tmp, s);
      var finish := JobEnd(fileName, progressId, username, tmp, s);
      run == Run([SamplerStarted, TempWritten(InputPath(tmp, fileName))] + TickWrites(progressId, s.ticks) + finish.trace, finish.settlement)
  {
    var input := InputPath(tmp, fileName);
    var fetch := DownloadFileFromS3(fileName, username, input, s.store, s.bodyError, s.streamError);
    assert fetch == Fetch([TempWritten(input)], Closed);
    assert [SamplerStarted] + fetch.trace == [SamplerStarted, TempWritten(input)];
  }

  /** A body that fails during the transfer leaves the job waiting forever
      on the download: the input file exists, the sampler keeps running, and
      no error progress is written. */
  lemma BodyErrorStallsJob(fileName: string, progressId: string, username: string, tmp: string, s: Script)
    requires DownloadStalls(fileName, username, s)
    ensures TranscodeVideoWithProgress(fileName, progressId, username, tmp, s)
      == Run([SamplerStarted, TempWritten(InputPath(tmp, fileName))], Pending)
  {
    var input := InputPath(tmp, fileName);
    var fetch := DownloadFileFromS3(fileName, username, input, s.store, s.bodyError, s.streamError);
    assert fetch == Fetch([TempWritten(input)], Stalled);
    assert [SamplerStarted] + fetch.trace == [SamplerStarted, TempWritten(input)];
  }

  // ---- properties -----------------------------------------------------------

  /** A failed download stops the job before any encoding: the sampler is
      cleared, one error progress is written and the promise rejects; nothing
      is reported as transcoding, uploaded or unlinked. */
  lemma DownloadFailureStopsJob(fileName: string, progressId: string, username: string, tmp: string, s: Script)
    requires !DownloadSucceeds(fileName, username, s) && !DownloadStalls(fileName, username, s)
    ensures var run := TranscodeVideoWithProgress(fileName, progressId, username, tmp, s);
      && run.settlement.Rejected?
      && run.trace[|run.trace| - 2..] == [SamplerCleared, ProgressCall(progressId, 0, "error")]
      && CountStatus(run.trace, "transcoding") == 0
      && (forall e :: e in run.trace ==> !e.ObjectStored? && !e.Unlinked?)
  {
    FailedRunShape(fileName, progressId, username, tmp, s);
    var run := TranscodeVideoWithProgress(fileName, progressId, username, tmp, s);
    var written: seq<Effect> :| (written == [] || written == [TempWritten(InputPath(tmp, fileName))])
      && run.trace == [SamplerStarted] + written + [SamplerCleared, ProgressCall(progressId, 0, "error")];
    PercentsWithStatusNone(run.trace, "transcoding");
  }

  /** The `"transcoding"` writes are exactly the encoder's ticks, in order,
      once the download succeeded, and there are none otherwise. */
  lemma {:induction false} TickWritesReportTicks(progressId: string, ticks: seq<int>)
    ensures PercentsWithStatus(TickWrites(progressId, ticks), "transcoding") == TickValues(ticks)
  {
    if |ticks| > 0 {
      var w := TickWrites(progressId, ticks);
      assert w == [w[0]] + w[1..];
      PercentsWithStatusAppend([w[0]], w[1..], "transcoding");
      TickWritesReportTicks(progressId, ticks[1..]);
    }
  }

  /** A run whose download succeeded writes one `"transcoding"` progress per
      encoder tick, in tick order, whatever happens afterwards. */
  lemma EveryTickWrittenOnce(fileName: string, progressId: string, username: string, tmp: string, s: Script)
    requires DownloadSucceeds(fileName, username, s)
    ensures var run := TranscodeVideoWithProgress(fileName, progressId, username, tmp, s);
      PercentsWithStatus(run.trace, "transcoding") == TickValues(s.ticks)
  {
    SucceededRunShape(fileName, progressId, username, tmp, s);
    var finish := JobEnd(fileName, progressId, username, tmp, s);
    PercentsWithStatusNone(finish.trace, "transcoding");
    TranscodingWritesBeforeTail(InputPath(tmp, fileName), progressId, s.ticks, finish.trace);
  }

  lemma TranscodingWritesBeforeTail(input: string, progressId: string, ticks: seq<int>, tail: seq<Effect>)
    requires PercentsWithStatus(tail, "transcoding") == []
    ensures PercentsWithStatus([SamplerStarted, TempWritten(input)] + TickWrites(progressId, ticks) + tail, "transcoding")
      == TickValues(ticks)
  {
    var head := [SamplerStarted, TempWritten(input)];
    var w := TickWrites(progressId, ticks);
    PercentsWithStatusNone(head, "transcoding");
    PercentsWithStatusAppend(head + w, tail, "transcoding");
    PercentsWithStatusAppend(head, w, "transcoding");
    TickWritesReportTicks(progressId, ticks);
    assert PercentsWithStatus(head + w, "transcoding") == PercentsWithStatus(w, "transcoding");
  }

  /** Every `saveProgress` the job issues passes the tracking id where the
      callee expects a user name and the percentage where it expects a file
      name. */
  lemma ProgressCallsUseTrackingId(fileName: string, progressId: string, username: string, tmp: string, s: Script)
    ensures var run := TranscodeVideoWithProgress(fileName, progressId, username, tmp, s);
      forall e :: e in run.trace && e.ProgressSaved? ==> e.username == Str(progressId) && e.fileName.Num?
  {
    var run := TranscodeVideoWithProgress(fileName, progressId, username, tmp, s);
    if DownloadSucceeds(fileName, username, s) {
      SucceededRunShape(fileName, progressId, username, tmp, s);
      var head := [SamplerStarted, TempWritten(InputPath(tmp, fileName))] + TickWrites(progressId, s.ticks);
      var finish := JobEnd(fileName, progressId, username, tmp, s);
      TickWritesUseTrackingId(progressId, s.ticks);
      assert run.trace == head + finish.trace;
    } else if DownloadStalls(fileName, username, s) {
      BodyErrorStallsJob(fileName, progressId, username, tmp, s);
    } else {
      FailedRunShape(fileName, progressId, username, tmp, s);
    }
  }

  lemma TickWritesUseTrackingId(progressId: string, ticks: seq<int>)
    ensures forall e :: e in TickWrites(progressId, ticks) ==> e.ProgressSaved? && e.username == Str(progressId) && e.fileName.Num?
  {
  }

  /** The sampler is started first and cleared exactly once on every path
      except a body failure during the download, where it is never cleared. */
  lemma SamplerClearedOnce(fileName: string, progressId: string, username: string, tmp: string, s: Script)
    ensures var run := TranscodeVideoWithProgress(fileName, progressId, username, tmp, s);
      && run.trace[0] == SamplerStarted
      && multiset(run.trace)[SamplerCleared] == (if DownloadStalls(fileName, username, s) then 0 else 1)
  {
    if DownloadSucceeds(fileName, username, s) {
      SucceededRunShape(fileName, progressId, username, tmp, s);
      var finish := JobEnd(fileName, progressId, username, tmp, s);
      ClearedOnceAfterTicks(InputPath(tmp, fileName), progressId, s.ticks, finish.trace);
    } else if DownloadStalls(fileName, username, s) {
      BodyErrorStallsJob(fileName, progressId, username, tmp, s);
    } else {
      FailedRunShape(fileName, progressId, username, tmp, s);
    }
  }

  lemma ClearedOnceAfterTicks(input: string, progressId: string, ticks: seq<int>, tail: seq<Effect>)
    requires |tail| >= 1 && tail[0] == SamplerCleared && SamplerCleared !in tail[1..]
    ensures multiset([SamplerStarted, TempWritten(input)] + TickWrites(progressId, ticks) + tail)[SamplerCleared] == 1
  {
    var head := [SamplerStarted, TempWritten(input)];
    var w := TickWrites(progressId, ticks);
    assert SamplerCleared !in w;
    assert multiset(head + w + tail) == multiset(head) + multiset(w) + multiset(tail);
    assert tail == [SamplerCleared] + tail[1..];
    assert multiset(tail) == multiset([SamplerCleared]) + multiset(tail[1..]);
    assert multiset(tail[1..])[SamplerCleared] == 0;
    assert multiset(w)[SamplerCleared] == 0;
  }

  /** On `end` with a successful upload the run finishes with: clear the
      sampler, store `<username>/<output name>`, unlink the input, unlink the
      output, resolve. */
  lemma EndOrder(fileName: string, progressId: string, username: string, tmp: string, s: Script)
    requires DownloadSucceeds(fileName, username, s) && s.encoder.Ended? && s.outputOnDisk && s.putOk
    ensures var run := TranscodeVideoWithProgress(fileName, progressId, username, tmp, s);
      && run.settlement == Resolved
      && run.trace[|run.trace| - 4..] == [
           SamplerCleared,
           ObjectStored(ObjectStore.ObjectKey(username, OutputName(fileName))),
           Unlinked(InputPath(tmp, fileName)),
           Unlinked(OutputPath(tmp, fileName))]
  {
    SucceededRunShape(fileName, progressId, username, tmp, s);
    OutputNaming(tmp, fileName);
  }

  /** Temporary files are removed only by a resolved run: an encoder error,
      a failed or stalled download and a failed upload all leave them behind. */
  lemma UnlinkOnlyWhenResolved(fileName: string, progressId: string, username: string, tmp: string, s: Script)
    ensures var run := TranscodeVideoWithProgress(fileName, progressId, username, tmp, s);
      (exists e :: e in run.trace && e.Unlinked?) <==> run.settlement.Resolved?
  {
    var run := TranscodeVideoWithProgress(fileName, progressId, username, tmp, s);
    if DownloadSucceeds(fileName, username, s) {
      SucceededRunShape(fileName, progressId, username, tmp, s);
      NothingRemovedBeforeFinish(fileName, progressId, username, tmp, s);
      if run.settlement.Resolved? {
        assert run.trace[|run.trace| - 1].Unlinked?;
      }
    } else if DownloadStalls(fileName, username, s) {
      BodyErrorStallsJob(fileName, progressId, username, tmp, s);
    } else {
      FailedRunShape(fileName, progressId, username, tmp, s);
    }
  }

  /** A failed upload after `end` leaves the promise pending with the
      sampler already cleared: nothing is stored and nothing unlinked. */
  lemma FailedUploadNeverSettles(fileName: string, progressId: string, username: string, tmp: string, s: Script)
    requires DownloadSucceeds(fileName, username, s) && s.encoder.Ended? && !(s.outputOnDisk && s.putOk)
    ensures var run := TranscodeVideoWithProgress(fileName, progressId, username, tmp, s);
      && run.settlement == Pending
      && run.trace == [SamplerStarted, TempWritten(InputPath(tmp, fileName))] + TickWrites(progressId, s.ticks) + [SamplerCleared]
      && (forall e :: e in run.trace ==> !e.ObjectStored? && !e.Unlinked?)
  {
    SucceededRunShape(fileName, progressId, username, tmp, s);
    NothingRemovedWhilePending(InputPath(tmp, fileName), progressId, s.ticks);
  }

  lemma NothingRemovedWhilePending(input: string, progressId: string, ticks: seq<int>)
    ensures var trace := [SamplerStarted, TempWritten(input)] + TickWrites(progressId, ticks) + [SamplerCleared];
      && trace[|trace| - 1] == SamplerCleared
      && forall e :: e in trace ==> !e.ObjectStored? && !e.Unlinked?
  {
    var w := TickWrites(progressId, ticks);
    assert forall e :: e in w ==> e.ProgressSaved?;
  }

  /** Before the encoder's handlers run, a successful job has stored and
      unlinked nothing. */
  lemma NothingRemovedBeforeFinish(fileName: string, progressId: string, username: string, tmp: string, s: Script)
    ensures var head := [SamplerStarted, TempWritten(InputPath(tmp, fileName))] + TickWrites(progressId, s.ticks);
      forall e :: e in head ==> !e.ObjectStored? && !e.Unlinked?
  {
    var ticks := TickWrites(progressId, s.ticks);
    assert forall e :: e in ticks ==> e.ProgressSaved?;
  }

  /** Every job for a file name downloads to the same temporary path,
      whatever its tracking id and owner, so two jobs for one name share it. */
  lemma SameNameSharesTempFile(fileName: string, progressId: string, username: string, tmp: string, s: Script)
    requires DownloadSucceeds(fileName, username, s)
    ensures TranscodeVideoWithProgress(fileName, progressId, username, tmp, s).trace[1] == TempWritten(Paths.Join(tmp, fileName))
  {
    SucceededRunShape(fileName, progressId, username, tmp, s);
  }

  /** The job itself writes no `"completed"` progress, and exactly one
      `"error"` progress when its promise rejects (none otherwise). */
  lemma TerminalProgressWrites(fileName: string, progressId: string, username: string, tmp: string, s: Script)
    ensures var run := TranscodeVideoWithProgress(fileName, progressId, username, tmp, s);
      && CountStatus(run.trace, "completed") == 0
      && CountStatus(run.trace, "error") == (if run.settlement.Rejected? then 1 else 0)
  {
    if DownloadSucceeds(fileName, username, s) {
      SucceededRunShape(fileName, progressId, username, tmp, s);
      var finish := JobEnd(fileName, progressId, username, tmp, s);
      StatusWritesAfterTicks(InputPath(tmp, fileName), progressId, s.ticks, finish.trace, "completed");
      StatusWritesAfterTicks(InputPath(tmp, fileName), progressId, s.ticks, finish.trace, "error");
      var output := OutputPath(tmp, fileName);
      FinishErrorWrites(progressId, InputPath(tmp, fileName), output, s.encoder, ObjectStore.UploadToS3(output, username, s.outputOnDisk, s.putOk));
      PercentsWithStatusNone(finish.trace, "completed");
    } else if DownloadStalls(fileName, username, s) {
      BodyErrorStallsJob(fileName, progressId, username, tmp, s);
      var run := TranscodeVideoWithProgress(fileName, progressId, username, tmp, s);
      PercentsWithStatusNone(run.trace, "completed");
      PercentsWithStatusNone(run.trace, "error");
    } else {
      FailedRunShape(fileName, progressId, username, tmp, s);
      var run := TranscodeVideoWithProgress(fileName, progressId, username, tmp, s);
      var written: seq<Effect> :| (written == [] || written == [TempWritten(InputPath(tmp, fileName))])
        && run.trace == [SamplerStarted] + written + [SamplerCleared, ProgressCall(progressId, 0, "error")];
      FailedRunStatusWrites(written, progressId);
    }
  }

  /** Before `Finish`, only `"transcoding"` progress is written. */
  lemma StatusWritesAfterTicks(input: string, progressId: string, ticks: seq<int>, tail: seq<Effect>, status: string)
    requires status != "transcoding"
    ensures PercentsWithStatus([SamplerStarted, TempWritten(input)] + TickWrites(progressId, ticks) + tail, status)
      == PercentsWithStatus(tail, status)
  {
    var head := [SamplerStarted, TempWritten(input)] + TickWrites(progressId, ticks);
    TickWritesUseTrackingId(progressId, ticks);
    PercentsWithStatusNone(head, status);
    PercentsWithStatusAppend(head, tail, status);
  }

  lemma FailedRunStatusWrites(written: seq<Effect>, progressId: string)
    requires forall e :: e in written ==> e.TempWritten?
    ensures var trace := [SamplerStarted] + written + [SamplerCleared, ProgressCall(progressId, 0, "error")];
      CountStatus(trace, "completed") == 0 && CountStatus(trace, "error") == 1
  {
    var head := [SamplerStarted] + written + [SamplerCleared];
    var trace := [SamplerStarted] + written + [SamplerCleared, ProgressCall(progressId, 0, "error")];
    assert trace == head + [ProgressCall(progressId, 0, "error")];
    PercentsWithStatusNone(head, "error");
    PercentsWithStatusAppend(head, [ProgressCall(progressId, 0, "error")], "error");
    PercentsWithStatusNone(trace, "completed");
  }

  lemma FinishErrorWrites(progressId: string, input: string, output: string, encoder: EncoderEnd, upload: ObjectStore.Upload)
    requires upload.result.Success? ==> upload.putKey.Some?
    ensures var finish := Finish(progressId, input, output, encoder, upload);
      CountStatus(finish.trace, "error") == (if finish.settlement.Rejected? then 1 else 0)
  {
    var finish := Finish(progressId, input, output, encoder, upload);
    if finish.settlement.Rejected? {
      assert finish.trace == [SamplerCleared] + [ProgressCall(progressId, 0, "error")];
      PercentsWithStatusAppend([SamplerCleared], [ProgressCall(progressId, 0, "error")], "error");
    } else {
      PercentsWithStatusNone(finish.trace, "error");
    }
  }
}
