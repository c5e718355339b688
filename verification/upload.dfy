/** The `POST /` handler of `routes/upload.js`: it validates the request,
    derives the tracking id, performs three awaited writes in order, starts
    the transcode job without awaiting it and answers 201 at once. The job and
    the `then`/`catch` handlers attached to it run after the response. */
module Upload {
  import opened Wrappers
  import opened Js
  import opened Effects
  import Strings
  import Http
  import Transcode

  /** `${username}_${Date.now()}` */
  function ProgressId(username: string, nowMs: nat): string {
    username + "_" + Strings.NatToString(nowMs)
  }

  /** The tracking id determines both the user and the millisecond, since
      the digits after the last underscore carry no underscore. */
  lemma ProgressIdInjective(u1: string, t1: nat, u2: string, t2: nat)
    requires ProgressId(u1, t1) == ProgressId(u2, t2)
    ensures u1 == u2 && t1 == t2
  {
    var d1 := Strings.NatToString(t1);
    var d2 := Strings.NatToString(t2);
    var p := ProgressId(u1, t1);
    DigitsHaveNoUnderscore(d1);
    DigitsHaveNoUnderscore(d2);
    assert p == u1 + ['_'] + d1 && p == u2 + ['_'] + d2;
    Strings.LastSegmentAfterSeparator(u1, '_', d1);
    Strings.LastSegmentAfterSeparator(u2, '_', d2);
    Strings.NatToStringInjective(t1, t2);
    assert u1 == p[..|u1|] == u2;
  }

  lemma DigitsHaveNoUnderscore(d: string)
    requires Strings.AllDigits(d)
    ensures '_' !in d
  {
  }

  /** The record the handler hands to `saveFileMetadata`. */
  function UploadMetadata(fileName: string, username: string, progressId: string, iso: string): map<string, Value> {
    map[
      "fileName" := Str(fileName),
      "size" := Null,
      "uploadTime" := Str(iso),
      "user" := Str(username),
      "progressId" := Str(progressId),
      "status" := Str("uploaded")]
  }

  /** The effects of the handlers attached with `.then` and `.catch`; a job
      that never settles runs neither. */
  function FollowUp(settlement: Transcode.Settlement, progressId: string, username: string, fileName: string): (w: seq<Effect>)
    ensures settlement.Pending? <==> w == []
    ensures !settlement.Pending? ==> |w| == 2 && w[0].ProgressSaved? && w[0].username == Str(progressId) && w[1].ActivitySaved?
  {
    match settlement
    case Resolved =>
      [ProgressCall(progressId, 100, "completed"), ActivitySaved(username, "Transcoding completed for file: " + fileName)]
    case Rejected(_) =>
      [ProgressCall(progressId, 0, "error"), ActivitySaved(username, "Transcoding failed for file: " + fileName)]
    case Pending => []
  }

  /** A resolved job gets one `"completed"` write from its `then` handler,
      a rejected one one `"error"` write from its `catch` handler. */
  lemma FollowUpCounts(settlement: Transcode.Settlement, progressId: string, username: string, fileName: string)
    ensures var w := FollowUp(settlement, progressId, username, fileName);
      && (settlement.Resolved? ==> CountStatus(w, "completed") == 1 && CountStatus(w, "error") == 0)
      && (settlement.Rejected? ==> CountStatus(w, "completed") == 0 && CountStatus(w, "error") == 1)
      && (settlement.Pending? ==> CountStatus(w, "completed") == 0 && CountStatus(w, "error") == 0)
  {
    var w := FollowUp(settlement, progressId, username, fileName);
    if !settlement.Pending? {
      assert w == [w[0]] + [w[1]];
      PercentsWithStatusAppend([w[0]], [w[1]], "completed");
      PercentsWithStatusAppend([w[0]], [w[1]], "error");
    }
  }

  /** What the handler does: the response, the effects issued before it is
      sent, and the effects of the detached job and its handlers. */
  datatype Handled = Handled(response: Http.Response, sync: seq<Effect>, background: seq<Effect>)

  predicate ValidFileName(fileName: Option<string>) {
    fileName.Some? && fileName.value != ""
  }

  /** The handler for an authenticated `username`, at `Date.now()` = `nowMs`
      and `new Date().toISOString()` = `iso`, with the job's collaborators
      scripted by `s`. */
  function HandleUpload(fileName: Option<string>, username: string, nowMs: nat, iso: string, tmp: string, s: Transcode.Script): (h: Handled)
    ensures !ValidFileName(fileName) ==> h == Handled(Http.Error(400, "File name is required."), [], [])
    ensures ValidFileName(fileName) ==>
      var f := fileName.value;
      var pid := username + "_" + Strings.NatToString(nowMs);
      && h.response.status == 201
      && Get(h.response.body, "fileName") == Str(f)
      && Get(h.response.body, "progressId") == Str(pid)
      && h.sync == [
           ActivitySaved(username, "Started processing file: " + f),
           MetadataSaved(UploadMetadata(f, username, pid, iso)),
           ProgressCall(pid, 0, "started"),
           JobLaunched(f, pid, username)]
  {
    if !ValidFileName(fileName) then Handled(Http.Error(400, "File name is required."), [], [])
    else
      var f := fileName.value;
      var pid := ProgressId(username, nowMs);
      var sync := [
        ActivitySaved(username, "Started processing file: " + f),
        MetadataSaved(UploadMetadata(f, username, pid, iso)),
        ProgressCall(pid, 0, "started"),
        JobLaunched(f, pid, username)];
      var run := Transcode.TranscodeVideoWithProgress(f, pid, username, tmp, s);
      var body := Obj(map[
        "message" := Str("File metadata saved. Transcoding has started."),
        "fileName" := Str(f),
        "progressId" := Str(pid)]);
      Handled(Http.Response(201, body), sync, run.trace + FollowUp(run.settlement, pid, username, f))
  }

  /** The job runs detached: neither the response nor the writes before it
      depend on how the job goes. */
  lemma ResponseIndependentOfJob(fileName: Option<string>, username: string, nowMs: nat, iso: string, tmp: string, s1: Transcode.Script, s2: Transcode.Script)
    ensures HandleUpload(fileName, username, nowMs, iso, tmp, s1).response == HandleUpload(fileName, username, nowMs, iso, tmp, s2).response
    ensures HandleUpload(fileName, username, nowMs, iso, tmp, s1).sync == HandleUpload(fileName, username, nowMs, iso, tmp, s2).sync
  {
  }

  /** The background effects are the job's trace followed by the handler
      matching its settlement. A completed job gets one `"completed"` write; a
      failed one gets its `"error"` progress written twice, once by the job
      and once by the `catch` handler; a job that never settles gets neither. */
  lemma TerminalWrites(fileName: string, username: string, nowMs: nat, iso: string, tmp: string, s: Transcode.Script)
    requires fileName != ""
    ensures var h := HandleUpload(Some(fileName), username, nowMs, iso, tmp, s);
      var run := Transcode.TranscodeVideoWithProgress(fileName, ProgressId(username, nowMs), username, tmp, s);
      && (run.settlement.Resolved? ==> CountStatus(h.background, "completed") == 1 && CountStatus(h.background, "error") == 0)
      && (run.settlement.Rejected? ==> CountStatus(h.background, "completed") == 0 && CountStatus(h.background, "error") == 2)
      && (run.settlement.Pending? ==> CountStatus(h.background, "completed") == 0 && CountStatus(h.background, "error") == 0)
  {
    var pid := ProgressId(username, nowMs);
    var run := Transcode.TranscodeVideoWithProgress(fileName, pid, username, tmp, s);
    var follow := FollowUp(run.settlement, pid, username, fileName);
    Transcode.TerminalProgressWrites(fileName, pid, username, tmp, s);
    FollowUpCounts(run.settlement, pid, username, fileName);
    PercentsWithStatusAppend(run.trace, follow, "completed");
    PercentsWithStatusAppend(run.trace, follow, "error");
  }
}
