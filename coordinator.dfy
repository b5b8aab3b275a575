/**
 * DownloadURLsParallel (src/request/request.go:129-155), sequentialised: the
 * goroutines are replaced by a scheduler loop that, at each step, either lets the
 * main loop admit the next job (a send on the slot channel) or lets one running
 * job finish (download, progress tick, receive from the slot channel).
 * Which of the two happens, and which running job finishes, are inputs.
 */
module Coordinator {
  import opened Dispatcher
  import opened Downloader
  import opened Wrappers
  import opened GoStrings
  import opened GoFilepath

  /** The slot pool size: maxConcurrency, lowered to the number of jobs when there are fewer. */
  function EffectiveConcurrency(maxConcurrency: int, jobs: nat): (c: int)
    ensures c <= maxConcurrency && c <= jobs
    ensures c == maxConcurrency || c == jobs
  {
    if jobs < maxConcurrency then jobs else maxConcurrency
  }

  /** `m[key]` of a Go map: the zero value "" when the key is missing. */
  function Field(m: map<string, string>, key: string): (v: string)
    ensures key in m ==> v == m[key]
    ensures key !in m ==> v == ""
  {
    if key in m then m[key] else ""
  }

  /**
   * A job without a "filepath" key has the destination "", which has no extension:
   * it is a directory, and the file is named after the response URL alone, in
   * the current directory.
   */
  lemma MissingFilepathIsCurrentDirectory(job: map<string, string>, responseURL: string, h: PathHelpers)
    requires "filepath" !in job
    requires h.pathUnescape(responseURL).Some?
    ensures
      var filename := h.getLastPartOfURL(h.pathUnescape(responseURL).value);
      ResolvePath(Field(job, "filepath"), responseURL, h)
        == Some(h.removeExtFromFilename(filename) + ToLower(Ext(filename)))
  {
    assert Field(job, "filepath") == "";
  }

  /** The job indices 0 .. n-1. */
  function Indices(n: nat): (s: set<nat>)
    ensures |s| == n
    ensures forall i: nat :: i in s <==> i < n
  {
    if n == 0 then {} else Indices(n - 1) + {n - 1}
  }

  /**
   * The started jobs 0 .. admitted-1 are split into the running and the finished
   * ones: both hold started jobs only, no job is in both, and together they
   * count every started job.
   */
  ghost predicate Partition(running: set<nat>, finished: set<nat>, admitted: nat)
  {
    && (forall i :: i in running ==> i < admitted)
    && (forall i :: i in finished ==> i < admitted)
    && running !! finished
    && |running| + |finished| == admitted
  }

  /** Every started job is running or finished. */
  lemma PartitionCovers(running: set<nat>, finished: set<nat>, admitted: nat)
    requires Partition(running, finished, admitted)
    ensures running + finished == Indices(admitted)
  {
    var all := running + finished;
    assert all <= Indices(admitted);
    assert |all| == |running| + |finished| by {
      assert running * finished == {};
    }
    var missing := Indices(admitted) - all;
    assert |missing| == |Indices(admitted)| - |all|;
    assert missing == {};
  }

  /** The pool's state: the started jobs are partitioned, and the running ones fit in the `limit` slots. */
  ghost predicate Valid(running: set<nat>, finished: set<nat>, admitted: nat, limit: int)
  {
    Partition(running, finished, admitted) && |running| <= limit
  }

  /** Starting job `admitted` takes a free slot and keeps the pool valid. */
  lemma AdmitStep(running: set<nat>, finished: set<nat>, admitted: nat, limit: int)
    requires Valid(running, finished, admitted, limit)
    requires |running| < limit
    ensures |running + {admitted}| == |running| + 1
    ensures Valid(running + {admitted}, finished, admitted + 1, limit)
  {
  }

  /** Finishing a running job moves it from the running to the finished ones and frees its slot. */
  lemma FinishStep(running: set<nat>, finished: set<nat>, admitted: nat, limit: int, j: nat)
    requires Valid(running, finished, admitted, limit)
    requires j in running
    ensures j < admitted
    ensures |running - {j}| == |running| - 1 && |finished + {j}| == |finished| + 1
    ensures Valid(running - {j}, finished + {j}, admitted, limit)
  {
  }

  /** A job that panics while running leaves fewer finished jobs than started ones. */
  lemma AbortStep(running: set<nat>, finished: set<nat>, admitted: nat, j: nat)
    requires Partition(running, finished, admitted)
    requires j in running
    ensures |finished| < admitted && finished <= Indices(admitted)
  {
  }

  /** When nothing runs and every job was started, every job has finished. */
  lemma AllFinished(running: set<nat>, finished: set<nat>, n: nat)
    requires Partition(running, finished, n) && running == {}
    ensures finished == Indices(n) && |finished| == n
  {
    PartitionCovers(running, finished, n);
  }

  /**
   * DownloadURLsParallel. `urls[j]` is the j-th job's map with keys "url" and
   * "filepath", `worlds[j]` what its download runs against. `schedule(step)` says
   * whether the main loop or a running job moves when both could.
   * The progress bar is its total and its count of ticks; the `queue` channel is
   * its number of full slots (`inFlight`). Returns the final count and total, the
   * largest number of jobs that held a slot at once, the finished jobs, and
   * whether a job panicked (which ends the whole process in Go).
   */
  method DownloadURLsParallel(urls: seq<map<string, string>>, maxConcurrency: int, cookies: seq<Cookie>,
                              headers: map<string, string>, params: map<string, string>, fs: FileSystem,
                              settings: Settings, h: PathHelpers, worlds: seq<JobWorld>, schedule: nat -> bool)
    returns (progress: nat, total: nat, peak: nat, finished: set<nat>, aborted: bool)
    requires maxConcurrency >= 1
    requires |worlds| == |urls|
    requires forall j :: 0 <= j < |worlds| ==> settings.retryCounter <= |worlds[j].net.attempts|
    modifies fs
    ensures total == |urls|
    ensures peak <= EffectiveConcurrency(maxConcurrency, |urls|)
    ensures |urls| > 0 ==> peak >= 1
    ensures progress == |finished| && finished <= Indices(|urls|)
    ensures !aborted ==> finished == Indices(|urls|) && progress == total
    ensures aborted ==> progress < total
  {
    var n := |urls|;
    var limit := EffectiveConcurrency(maxConcurrency, n);

    total := n;                        // the bar's total
    progress := 0;                     // the bar's count: bar.Add(1) per finished job
    var inFlight: nat := 0;            // full slots of the `queue` channel
    var admitted := 0;                 // jobs the main loop has started
    var running: set<nat> := {};       // jobs holding a slot and not yet finished
    finished := {};
    peak := 0;
    aborted := false;
    var step := 0;

    while admitted < n || running != {}
      invariant admitted <= n
      invariant Valid(running, finished, admitted, limit)
      invariant inFlight == |running| <= peak <= limit
      invariant admitted > 0 ==> peak >= 1
      invariant total == n && progress == |finished|
      decreases 2 * (n - admitted) + |running|
    {
      if admitted < n && inFlight < limit && (running == {} || schedule(step)) {
        // the main loop takes a slot and starts job `admitted`
        AdmitStep(running, finished, admitted, limit);
        inFlight := inFlight + 1;        // queue <- struct{}{}
        running := running + {admitted};
        admitted := admitted + 1;
        if inFlight > peak {
          peak := inFlight;
        }
      } else {
        // one running job finishes
        var j: nat :| j in running;
        FinishStep(running, finished, admitted, limit, j);
        var job := urls[j];
        var r := DownloadURL(Field(job, "url"), Field(job, "filepath"), cookies, headers, params, fs, settings, h, worlds[j]);
        if r.Panicked? {
          AbortStep(running, finished, admitted, j);
          aborted := true;
          break;
        }
        progress := progress + 1;        // bar.Add(1)
        inFlight := inFlight - 1;        // <-queue
        running := running - {j};
        finished := finished + {j};
      }
      step := step + 1;
    }
    if !aborted {
      AllFinished(running, finished, n);
    }
  }
}
