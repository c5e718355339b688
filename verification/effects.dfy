/** The observable steps of an upload job, in the order they are issued. The
    job's collaborators (the store, memcached, the object store, the file
    system, the CPU sampler) are not called here; each call is recorded as an
    effect and interpreted separately. */
module Effects {
  import opened Js

  datatype Effect =
    | SamplerStarted
    | SamplerCleared
      /** `fs.createWriteStream(path)` of the download. */
    | TempWritten(path: string)
      /** A call `saveProgress(a, b, c)`, recorded under the callee's own
          parameter names `(username, fileName, progressData)`. */
    | ProgressSaved(username: Value, fileName: Value, data: Value)
    | ActivitySaved(owner: string, activity: string)
    | MetadataSaved(meta: map<string, Value>)
      /** A put the object store accepted. */
    | ObjectStored(key: string)
    | Unlinked(path: string)
      /** The detached start of `transcodeVideoWithProgress`. */
    | JobLaunched(name: string, trackingId: string, owner: string)

  /** `saveProgress(progressId, percent, status)` as the pipeline calls it:
      the tracking id lands in `username`, the percentage in `fileName`. */
  function ProgressCall(progressId: string, percent: int, status: string): Effect {
    ProgressSaved(Str(progressId), Num(percent), Str(status))
  }

  /** The second arguments of the `saveProgress` calls in `trace` whose third
      argument is `status`, in order: for the pipeline's calls, the reported
      percentages. */
  function PercentsWithStatus(trace: seq<Effect>, status: string): (ps: seq<Value>)
    ensures |ps| <= |trace|
  {
    if |trace| == 0 then []
    else
      var e := trace[0];
      (if e.ProgressSaved? && e.data == Str(status) then [e.fileName] else []) + PercentsWithStatus(trace[1..], status)
  }

  lemma {:induction false} PercentsWithStatusAppend(a: seq<Effect>, b: seq<Effect>, status: string)
    ensures PercentsWithStatus(a + b, status) == PercentsWithStatus(a, status) + PercentsWithStatus(b, status)
  {
    if |a| == 0 {
      assert a + b == b;
    } else {
      assert (a + b)[1..] == a[1..] + b;
      PercentsWithStatusAppend(a[1..], b, status);
    }
  }

  lemma {:induction false} PercentsWithStatusNone(trace: seq<Effect>, status: string)
    requires forall e :: e in trace ==> !(e.ProgressSaved? && e.data == Str(status))
    ensures PercentsWithStatus(trace, status) == []
  {
    if |trace| > 0 {
      assert trace[0] in trace;
      PercentsWithStatusNone(trace[1..], status);
    }
  }

  /** How many `saveProgress` calls in `trace` carry `status`. */
  function CountStatus(trace: seq<Effect>, status: string): nat {
    |PercentsWithStatus(trace, status)|
  }
}
