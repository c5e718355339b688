/** The store accessors of module `Database` driven by the effects of the
    upload handler and of its detached job, and what the read routes then
    answer. Each effect carries its own clocks and store answers, so the
    results hold whatever the store, memcached and the clocks do. */
module Pipeline {
  import opened Wrappers
  import opened Js
  import opened Effects
  import Strings
  import Cache
  import Database
  import Upload
  import Transcode
  import Api
  import Http

  /** The clocks and the collaborators' answers when one effect is carried
      out. */
  datatype Env = Env(nowMs: nat, iso: string, now: int, putOk: bool, getOk: bool, setOk: bool)

  /** One effect against the store; effects on the object store, the file
      system and the sampler leave it as it is. */
  function Apply(st: Database.State, e: Effect, env: Env): Database.State {
    match e
    case ProgressSaved(u, f, d) => Database.SaveProgress(st, u, f, d, env.iso, env.now, env.putOk, env.setOk)
    case ActivitySaved(o, a) => Database.SaveUserActivity(st, o, a, env.nowMs, env.iso, env.putOk)
    case MetadataSaved(m) => Database.SaveFileMetadata(st, m, env.iso, env.now, env.putOk, env.getOk, env.setOk)
    case _ => st
  }

  /** The effects of `trace` in order, the i-th under `envs[i]`. */
  function ApplyAll(st: Database.State, trace: seq<Effect>, envs: seq<Env>): Database.State
    requires |envs| == |trace|
    decreases |trace|
  {
    if |trace| == 0 then st else ApplyAll(Apply(st, trace[0], envs[0]), trace[1..], envs[1..])
  }

  // ---- keys that cannot meet -------------------------------------------------

  /** A tracking id `<username>_<ms>` is never the user name itself. */
  lemma TrackingIdIsNotUser(username: string, nowMs: nat)
    ensures Str(Upload.ProgressId(username, nowMs)) != Str(username)
  {
    assert |Upload.ProgressId(username, nowMs)| > |username|;
  }

  /** The cache key of a progress write made with the tracking id in the
      user position differs from the key `/progress/<progressId>` reads: at
      the position right after the user name one has `_`, the other `:`. */
  lemma ProgressKeysDiffer(username: string, nowMs: nat, f: Value)
    ensures var pid := Upload.ProgressId(username, nowMs);
      Database.ProgressKey(Str(pid), f) != Database.ProgressKey(Str(username), Str(pid))
  {
    var d := Strings.NatToString(nowMs);
    var pid := Upload.ProgressId(username, nowMs);
    var p := "progress:";
    var i := |p| + |username|;
    var a := Database.ProgressKey(Str(pid), f);
    var b := Database.ProgressKey(Str(username), Str(pid));
    assert a == (p + username) + (['_'] + d + ":" + ToJsString(f));
    assert b == (p + username) + ([':'] + pid);
    assert a[i] == '_';
    assert b[i] == ':';
  }

  /** A file-list key ends in `s`; a progress key that ends with a tracking
      id ends in a digit. */
  lemma FilesKeyIsNotProgressKey(owner: string, username: string, nowMs: nat)
    ensures Cache.FilesKey(owner) != Database.ProgressKey(Str(username), Str(Upload.ProgressId(username, nowMs)))
  {
    var d := Strings.NatToString(nowMs);
    var key := Database.ProgressKey(Str(username), Str(Upload.ProgressId(username, nowMs)));
    var files := Cache.FilesKey(owner);
    assert key == ("progress:" + username + ":" + username + "_") + d;
    assert key[|key| - 1] == d[|d| - 1];
    assert files == owner + "_files";
    assert files[|files| - 1] == 's';
  }

  /** A progress write keyed by a percentage ends in a digit too. */
  lemma FilesKeyIsNotPercentKey(owner: string, progressId: string, n: int)
    ensures Cache.FilesKey(owner) != Database.ProgressKey(Str(progressId), Num(n))
  {
    var d := Strings.NatToString(if n < 0 then -n else n);
    var key := Database.ProgressKey(Str(progressId), Num(n));
    assert Strings.IntToString(n) == (if n < 0 then "-" else "") + d;
    assert key == ("progress:" + progressId + ":" + (if n < 0 then "-" else "")) + d;
    assert key[|key| - 1] == d[|d| - 1];
    var files := Cache.FilesKey(owner);
    assert files == owner + "_files";
    assert files[|files| - 1] == 's';
  }

  // ---- the tracking id never shows progress -----------------------------------

  /** A value with neither a `progress` nor a `status` property. */
  predicate Silent(v: Value) {
    Get(v, "progress") == Undef && Get(v, "status") == Undef
  }

  /** What `/progress/<progressId>` can read for `username` carries no
      progress: neither the rows the table holds for the user nor the cache
      entry under `progress:<username>:<progressId>`. */
  predicate Hidden(st: Database.State, username: string, progressId: string) {
    && (forall k :: k in st.table && k.user == Str(username) ==> Silent(Obj(st.table[k])))
    && (Database.ProgressKey(Str(username), Str(progressId)) in st.cache ==>
          Silent(st.cache[Database.ProgressKey(Str(username), Str(progressId))].value))
  }

  /** The only effect that could break `Hidden` is a progress write under
      the user's own name; the pipeline writes progress under the tracking id. */
  predicate Harmless(e: Effect, progressId: string) {
    e.ProgressSaved? ==> e.username == Str(progressId)
  }

  /** The store answers a GetItem for the user with one of the user's rows. */
  predicate AnswersFromTable(st: Database.State, username: string, item: Database.ItemAnswer) {
    item.Found? ==> exists k :: k in st.table && k.user == Str(username) && st.table[k] == item.row
  }

  /** The answer `/progress` gives when the record it finds has no progress. */
  const UnknownProgress := Http.Response(200, Obj(map["progress" := Num(0), "status" := Str("unknown")]))

  const ProgressNotFound := Http.Error(404, "Progress not found.")

  lemma ParseFloatOfUndefined()
    ensures ParseFloat(Undef) == None
  {
    assert ToJsString(Undef) == "undefined";
    assert !Strings.IsDigit('u');
  }

  /** A record without progress is reported as missing or as unknown. */
  lemma SilentAnswer(v: Value)
    requires Silent(v)
    ensures Api.ProgressResponse(v) == ProgressNotFound || Api.ProgressResponse(v) == UnknownProgress
  {
    ParseFloatOfUndefined();
  }

  lemma ApplyKeepsHidden(st: Database.State, e: Effect, env: Env, username: string, nowMs: nat)
    requires Hidden(st, username, Upload.ProgressId(username, nowMs))
    requires Harmless(e, Upload.ProgressId(username, nowMs))
    ensures Hidden(Apply(st, e, env), username, Upload.ProgressId(username, nowMs))
  {
    match e
    case ProgressSaved(u, f, d) => ProgressWriteKeepsHidden(st, f, d, env, username, nowMs);
    case ActivitySaved(o, a) => ActivityKeepsHidden(st, o, a, env, username, Upload.ProgressId(username, nowMs));
    case MetadataSaved(m) => MetadataKeepsHidden(st, m, env, username, nowMs);
    case _ =>
  }

  /** A progress write under the tracking id touches neither the user's rows
      nor the key the route reads. */
  lemma ProgressWriteKeepsHidden(st: Database.State, f: Value, d: Value, env: Env, username: string, nowMs: nat)
    requires Hidden(st, username, Upload.ProgressId(username, nowMs))
    ensures var pid := Upload.ProgressId(username, nowMs);
      Hidden(Database.SaveProgress(st, Str(pid), f, d, env.iso, env.now, env.putOk, env.setOk), username, pid)
  {
    TrackingIdIsNotUser(username, nowMs);
    ProgressKeysDiffer(username, nowMs, f);
  }

  /** An activity row has no progress, and the cache is not touched. */
  lemma ActivityKeepsHidden(st: Database.State, owner: string, activity: string, env: Env, username: string, progressId: string)
    requires Hidden(st, username, progressId)
    ensures Hidden(Database.SaveUserActivity(st, owner, activity, env.nowMs, env.iso, env.putOk), username, progressId)
  {
    var st' := Database.SaveUserActivity(st, owner, activity, env.nowMs, env.iso, env.putOk);
    if env.putOk {
      var k := Database.ActivityKey(owner, env.nowMs);
      assert "progress" !in st'.table[k] && "status" !in st'.table[k];
    }
  }

  /** A metadata row has no progress, and only the file-list key of the
      cache changes. */
  lemma MetadataKeepsHidden(st: Database.State, m: map<string, Value>, env: Env, username: string, nowMs: nat)
    requires Hidden(st, username, Upload.ProgressId(username, nowMs))
    ensures var pid := Upload.ProgressId(username, nowMs);
      Hidden(Database.SaveFileMetadata(st, m, env.iso, env.now, env.putOk, env.getOk, env.setOk), username, pid)
  {
    FilesKeyIsNotProgressKey(Database.MetadataOwner(m), username, nowMs);
    if env.putOk {
      var row := Database.MetadataRow(m, env.iso);
      Database.MetadataRowAttributes(m, env.iso);
      assert Silent(Obj(row));
    }
  }

  lemma {:induction false} ApplyAllKeepsHidden(st: Database.State, trace: seq<Effect>, envs: seq<Env>, username: string, nowMs: nat)
    requires |envs| == |trace|
    requires Hidden(st, username, Upload.ProgressId(username, nowMs))
    requires forall e :: e in trace ==> Harmless(e, Upload.ProgressId(username, nowMs))
    ensures Hidden(ApplyAll(st, trace, envs), username, Upload.ProgressId(username, nowMs))
    decreases |trace|
  {
    if |trace| > 0 {
      assert trace[0] in trace;
      ApplyKeepsHidden(st, trace[0], envs[0], username, nowMs);
      assert forall e :: e in trace[1..] ==> e in trace;
      ApplyAllKeepsHidden(Apply(st, trace[0], envs[0]), trace[1..], envs[1..], username, nowMs);
    }
  }

  /** Every effect of the upload handler and of its job writes progress
      under the tracking id, never under the user. */
  lemma UploadEffectsHarmless(fileName: Option<string>, username: string, nowMs: nat, iso: string, tmp: string, s: Transcode.Script)
    ensures var h := Upload.HandleUpload(fileName, username, nowMs, iso, tmp, s);
      forall e :: e in h.sync + h.background ==> Harmless(e, Upload.ProgressId(username, nowMs))
  {
    if Upload.ValidFileName(fileName) {
      var f := fileName.value;
      var pid := Upload.ProgressId(username, nowMs);
      var h := Upload.HandleUpload(fileName, username, nowMs, iso, tmp, s);
      JobEffectsHarmless(f, pid, username, tmp, s);
      HarmlessAppend(h.sync, h.background, pid);
    }
  }

  /** The job and the handler that follows it write progress only under the
      tracking id. */
  lemma JobEffectsHarmless(f: string, pid: string, username: string, tmp: string, s: Transcode.Script)
    ensures var run := Transcode.TranscodeVideoWithProgress(f, pid, username, tmp, s);
      forall e :: e in run.trace + Upload.FollowUp(run.settlement, pid, username, f) ==> Harmless(e, pid)
  {
    var run := Transcode.TranscodeVideoWithProgress(f, pid, username, tmp, s);
    Transcode.ProgressCallsUseTrackingId(f, pid, username, tmp, s);
    FollowUpHarmless(run.settlement, pid, username, f);
    HarmlessAppend(run.trace, Upload.FollowUp(run.settlement, pid, username, f), pid);
  }

  lemma FollowUpHarmless(settlement: Transcode.Settlement, pid: string, username: string, f: string)
    ensures forall e :: e in Upload.FollowUp(settlement, pid, username, f) ==> Harmless(e, pid)
  {
    var follow := Upload.FollowUp(settlement, pid, username, f);
    assert forall e :: e in follow ==> e == follow[0] || e == follow[1];
  }

  lemma HarmlessAppend(a: seq<Effect>, b: seq<Effect>, progressId: string)
    requires forall e :: e in a ==> Harmless(e, progressId)
    requires forall e :: e in b ==> Harmless(e, progressId)
    ensures forall e :: e in a + b ==> Harmless(e, progressId)
  {
  }

  /** A read of `/progress/<progressId>` while `Hidden` holds answers 404 or
      `{ progress: 0, status: "unknown" }`, and leaves `Hidden` holding: the
      row it may cache is one of the user's own. */
  lemma ProgressReadKeepsHidden(st: Database.State, username: string, progressId: string, now: int, getOk: bool, item: Database.ItemAnswer, setOk: bool)
    requires Hidden(st, username, progressId)
    requires AnswersFromTable(st, username, item)
    ensures var r := Api.HandleProgress(st, username, progressId, now, getOk, item, setOk);
      && (r.0 == ProgressNotFound || r.0 == UnknownProgress)
      && Hidden(r.1, username, progressId)
  {
    var key := Database.ProgressKey(Str(username), Str(progressId));
    var read := Database.GetProgress(st, Str(username), Str(progressId), now, getOk, item, setOk);
    if getOk && Cache.Lookup(st.cache, key, now).None? && item.Found? && setOk {
      var k :| k in st.table && k.user == Str(username) && st.table[k] == item.row;
      assert Silent(read.value);
    }
    assert Silent(read.value);
    SilentAnswer(read.value);
  }

  /** The tracking id the upload answers never shows the job's progress to
      its owner. With no progress among the user's rows beforehand, after
      every write of the handler and of the job, whatever the store and the
      clocks answered, `/progress/<progressId>` answers 404 or
      `{ progress: 0, status: "unknown" }`: the progress is written under
      `progress:<progressId>:<percent>` and a row whose user is the tracking
      id, while the route reads `progress:<username>:<progressId>` and the
      user's own rows. */
  lemma UploadProgressNeverReported(st: Database.State, fileName: Option<string>, username: string, nowMs: nat, iso: string, tmp: string, s: Transcode.Script, envs: seq<Env>)
    requires Hidden(st, username, Upload.ProgressId(username, nowMs))
    requires var h := Upload.HandleUpload(fileName, username, nowMs, iso, tmp, s);
      |envs| == |h.sync + h.background|
    ensures var h := Upload.HandleUpload(fileName, username, nowMs, iso, tmp, s);
      var st' := ApplyAll(st, h.sync + h.background, envs);
      && Hidden(st', username, Upload.ProgressId(username, nowMs))
      && forall now: int, getOk: bool, item: Database.ItemAnswer, setOk: bool
           {:trigger Api.HandleProgress(st', username, Upload.ProgressId(username, nowMs), now, getOk, item, setOk)} ::
           AnswersFromTable(st', username, item) ==>
             var r := Api.HandleProgress(st', username, Upload.ProgressId(username, nowMs), now, getOk, item, setOk).0;
             r == ProgressNotFound || r == UnknownProgress
  {
    var h := Upload.HandleUpload(fileName, username, nowMs, iso, tmp, s);
    var pid := Upload.ProgressId(username, nowMs);
    var st' := ApplyAll(st, h.sync + h.background, envs);
    UploadEffectsHarmless(fileName, username, nowMs, iso, tmp, s);
    ApplyAllKeepsHidden(st, h.sync + h.background, envs, username, nowMs);
    forall now: int, getOk: bool, item: Database.ItemAnswer, setOk: bool | AnswersFromTable(st', username, item)
      ensures var r := Api.HandleProgress(st', username, pid, now, getOk, item, setOk).0;
        r == ProgressNotFound || r == UnknownProgress
    {
      ProgressReadKeepsHidden(st', username, pid, now, getOk, item, setOk);
    }
  }

  // ---- the cached file list ---------------------------------------------------

  /** The handler's writes before it answers, all accepted, with the user's
      file list absent from the cache: `/files` then lists the new upload
      alone for the next hour, although the table keeps every older row. */
  lemma UploadHidesOlderFiles(st: Database.State, fileName: string, username: string, nowMs: nat, iso: string, tmp: string, s: Transcode.Script,
                              env: Env, t: int, query: Database.QueryAnswer, setOk: bool)
    requires fileName != ""
    requires env.putOk && env.getOk && env.setOk
    requires Cache.Lookup(st.cache, Cache.FilesKey(username), env.now).None?
    requires env.now <= t < env.now + Cache.Ttl
    ensures var h := Upload.HandleUpload(Some(fileName), username, nowMs, iso, tmp, s);
      var st' := ApplyAll(st, h.sync, [env, env, env, env]);
      && (forall k :: k in st.table ==> k in st'.table)
      && Database.GetFileMetadata(st', username, t, true, query, setOk).value
           == Arr([Obj(Upload.UploadMetadata(fileName, username, Upload.ProgressId(username, nowMs), iso))])
  {
    var pid := Upload.ProgressId(username, nowMs);
    var meta := Upload.UploadMetadata(fileName, username, pid, iso);
    assert Get(Obj(meta), "user") == Str(username);
    FirstWritesListOnlyNewFile(st, Upload.HandleUpload(Some(fileName), username, nowMs, iso, tmp, s).sync,
      "Started processing file: " + fileName, meta, pid, JobLaunched(fileName, pid, username), username, env, t, query, setOk);
  }

  /** The same four writes as a trace: an activity, the metadata, the
      progress under the tracking id and the launch. */
  lemma FirstWritesListOnlyNewFile(st: Database.State, trace: seq<Effect>, activity: string, meta: map<string, Value>, pid: string, launch: Effect,
                                   username: string, env: Env, t: int, query: Database.QueryAnswer, setOk: bool)
    requires trace == [ActivitySaved(username, activity), MetadataSaved(meta), ProgressCall(pid, 0, "started"), launch]
    requires launch.JobLaunched?
    requires Get(Obj(meta), "user") == Str(username)
    requires env.putOk && env.getOk && env.setOk
    requires Cache.Lookup(st.cache, Cache.FilesKey(username), env.now).None?
    requires env.now <= t < env.now + Cache.Ttl
    ensures var st' := ApplyAll(st, trace, [env, env, env, env]);
      && (forall k :: k in st.table ==> k in st'.table)
      && Database.GetFileMetadata(st', username, t, true, query, setOk).value == Arr([Obj(meta)])
  {
    FourWritesApplied(st, trace, activity, meta, pid, launch, username, env);
    var st1 := Database.SaveUserActivity(st, username, activity, env.nowMs, env.iso, env.putOk);
    FirstWritesOnState(st, st1, meta, pid, username, env, t, query, setOk);
  }

  /** `FirstWritesListOnlyNewFile` after the activity write, which keeps the
      cache and every row. */
  lemma FirstWritesOnState(st: Database.State, st1: Database.State, meta: map<string, Value>, pid: string,
                           username: string, env: Env, t: int, query: Database.QueryAnswer, setOk: bool)
    requires st1.cache == st.cache && st.table.Keys <= st1.table.Keys
    requires Get(Obj(meta), "user") == Str(username)
    requires env.putOk && env.getOk && env.setOk
    requires Cache.Lookup(st.cache, Cache.FilesKey(username), env.now).None?
    requires env.now <= t < env.now + Cache.Ttl
    ensures var st2 := Database.SaveFileMetadata(st1, meta, env.iso, env.now, env.putOk, env.getOk, env.setOk);
      var st3 := Database.SaveProgress(st2, Str(pid), Num(0), Str("started"), env.iso, env.now, env.putOk, env.setOk);
      && st.table.Keys <= st3.table.Keys
      && Database.GetFileMetadata(st3, username, t, true, query, setOk).value == Arr([Obj(meta)])
  {
    var st2 := Database.SaveFileMetadata(st1, meta, env.iso, env.now, env.putOk, env.getOk, env.setOk);
    var st3 := Database.SaveProgress(st2, Str(pid), Num(0), Str("started"), env.iso, env.now, env.putOk, env.setOk);
    MetadataListedAfterWrites(st1, meta, pid, username, env);
    CachedListRead(st3, username, Arr([Obj(meta)]), env.now, t, query, setOk);
  }

  /** After the metadata write on a cold list and the progress write, the
      list holds the new row alone, and no row was removed. */
  lemma MetadataListedAfterWrites(st1: Database.State, meta: map<string, Value>, pid: string, username: string, env: Env)
    requires Get(Obj(meta), "user") == Str(username)
    requires env.putOk && env.getOk && env.setOk
    requires Cache.Lookup(st1.cache, Cache.FilesKey(username), env.now).None?
    ensures var st2 := Database.SaveFileMetadata(st1, meta, env.iso, env.now, env.putOk, env.getOk, env.setOk);
      var st3 := Database.SaveProgress(st2, Str(pid), Num(0), Str("started"), env.iso, env.now, env.putOk, env.setOk);
      && st1.table.Keys <= st3.table.Keys
      && Cache.FilesKey(username) in st3.cache
      && st3.cache[Cache.FilesKey(username)] == Cache.Entry(Arr([Obj(meta)]), env.now + Cache.Ttl)
  {
    var st2 := Database.SaveFileMetadata(st1, meta, env.iso, env.now, env.putOk, env.getOk, env.setOk);
    MetadataOnColdList(st1, meta, username, env);
    ProgressWriteKeepsFileList(st2, pid, 0, "started", env, username);
  }

  /** A truthy list cached at `t0` is what a read within the hour answers. */
  lemma CachedListRead(st: Database.State, username: string, list: Value, t0: int, t: int, query: Database.QueryAnswer, setOk: bool)
    requires Cache.FilesKey(username) in st.cache && st.cache[Cache.FilesKey(username)] == Cache.Entry(list, t0 + Cache.Ttl)
    requires t0 <= t < t0 + Cache.Ttl && Truthy(list)
    ensures Database.GetFileMetadata(st, username, t, true, query, setOk).value == list
  {
  }

  lemma FourWritesApplied(st: Database.State, trace: seq<Effect>, activity: string, meta: map<string, Value>, pid: string, launch: Effect,
                          username: string, env: Env)
    requires trace == [ActivitySaved(username, activity), MetadataSaved(meta), ProgressCall(pid, 0, "started"), launch]
    requires launch.JobLaunched?
    requires env.putOk && env.getOk && env.setOk
    ensures ApplyAll(st, trace, [env, env, env, env])
      == Database.SaveProgress(
           Database.SaveFileMetadata(
             Database.SaveUserActivity(st, username, activity, env.nowMs, env.iso, env.putOk),
             meta, env.iso, env.now, env.putOk, env.getOk, env.setOk),
           Str(pid), Num(0), Str("started"), env.iso, env.now, env.putOk, env.setOk)
  {
    var envs := [env, env, env, env];
    ApplyAllOfFour(st, trace, envs);
    var st1 := Database.SaveUserActivity(st, username, activity, env.nowMs, env.iso, env.putOk);
    ApplyActivity(st, trace[0], env, username, activity);
    var st2 := Database.SaveFileMetadata(st1, meta, env.iso, env.now, env.putOk, env.getOk, env.setOk);
    ApplyMetadata(st1, trace[1], env, meta);
    ApplyProgress(st2, trace[2], env, Str(pid), Num(0), Str("started"));
    ApplyLaunch(Database.SaveProgress(st2, Str(pid), Num(0), Str("started"), env.iso, env.now, env.putOk, env.setOk), trace[3], env);
  }

  lemma ApplyActivity(st: Database.State, e: Effect, env: Env, username: string, activity: string)
    requires e == ActivitySaved(username, activity)
    ensures Apply(st, e, env) == Database.SaveUserActivity(st, username, activity, env.nowMs, env.iso, env.putOk)
  {
  }

  lemma ApplyMetadata(st: Database.State, e: Effect, env: Env, meta: map<string, Value>)
    requires e == MetadataSaved(meta)
    ensures Apply(st, e, env) == Database.SaveFileMetadata(st, meta, env.iso, env.now, env.putOk, env.getOk, env.setOk)
  {
  }

  lemma ApplyProgress(st: Database.State, e: Effect, env: Env, u: Value, f: Value, d: Value)
    requires e == ProgressSaved(u, f, d)
    ensures Apply(st, e, env) == Database.SaveProgress(st, u, f, d, env.iso, env.now, env.putOk, env.setOk)
  {
  }

  lemma ApplyLaunch(st: Database.State, e: Effect, env: Env)
    requires e.JobLaunched?
    ensures Apply(st, e, env) == st
  {
  }

  lemma ApplyAllOfFour(st: Database.State, trace: seq<Effect>, envs: seq<Env>)
    requires |trace| == 4 && |envs| == 4
    ensures ApplyAll(st, trace, envs)
      == Apply(Apply(Apply(Apply(st, trace[0], envs[0]), trace[1], envs[1]), trace[2], envs[2]), trace[3], envs[3])
  {
    var st1 := Apply(st, trace[0], envs[0]);
    var st2 := Apply(st1, trace[1], envs[1]);
    var st3 := Apply(st2, trace[2], envs[2]);
    var st4 := Apply(st3, trace[3], envs[3]);
    assert ApplyAll(st4, trace[4..], envs[4..]) == st4;
    assert ApplyAll(st3, trace[3..], envs[3..]) == st4;
    assert ApplyAll(st2, trace[2..], envs[2..]) == st4;
    assert ApplyAll(st1, trace[1..], envs[1..]) == st4;
  }

  /** A progress write keyed by a percentage keeps every row key and leaves
      every user's cached file list alone. */
  lemma ProgressWriteKeepsFileList(st: Database.State, pid: string, percent: int, status: string, env: Env, owner: string)
    ensures var st' := Database.SaveProgress(st, Str(pid), Num(percent), Str(status), env.iso, env.now, env.putOk, env.setOk);
      && st'.table.Keys >= st.table.Keys
      && (Cache.FilesKey(owner) in st.cache ==>
            Cache.FilesKey(owner) in st'.cache && st'.cache[Cache.FilesKey(owner)] == st.cache[Cache.FilesKey(owner)])
  {
    FilesKeyIsNotPercentKey(owner, pid, percent);
  }

  /** On a cold list, an accepted metadata write caches a list holding only
      the new record, for an hour. */
  lemma MetadataOnColdList(st: Database.State, meta: map<string, Value>, username: string, env: Env)
    requires Get(Obj(meta), "user") == Str(username)
    requires env.putOk && env.getOk && env.setOk
    requires Cache.Lookup(st.cache, Cache.FilesKey(username), env.now).None?
    ensures var st' := Database.SaveFileMetadata(st, meta, env.iso, env.now, env.putOk, env.getOk, env.setOk);
      && st'.table == st.table[Database.MetadataKey(meta) := Database.MetadataRow(meta, env.iso)]
      && Cache.FilesKey(username) in st'.cache
      && st'.cache[Cache.FilesKey(username)] == Cache.Entry(Arr([Obj(meta)]), env.now + Cache.Ttl)
  {
    assert Database.MetadataOwner(meta) == username;
  }

  /** Deleting a file leaves the cached list as it was, so while that list
      is live `/files` keeps listing the deleted file. */
  lemma DeletedFileStillListed(st: Database.State, username: string, fileName: string, exports: set<string>, objectDeleted: bool, storeOk: bool,
                               now: int, query: Database.QueryAnswer, setOk: bool)
    requires Truthy(Cache.GetCachedFileMetadata(st.cache, username, now, true))
    ensures var st' := Api.HandleDeleteFile(st, Some(username), Some(fileName), exports, objectDeleted, storeOk).1;
      Database.GetFileMetadata(st', username, now, true, query, setOk).value == Cache.GetCachedFileMetadata(st.cache, username, now, true)
  {
  }
}
