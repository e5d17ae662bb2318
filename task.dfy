/** `Task.wait`, `Task.try_wait` and `Task._log_jobs`. Polling the task's
    status is done by code that is not part of this model: its outcome (the
    status reached, or a timeout) is an input, as are the task's jobs with
    the answers to their log-file fetches and the action's name. What the
    logger would print is recorded as a sequence of records. */
module Tasks {
  import opened Values

  datatype Level = ErrorLevel | InfoLevel

  /** What `_log_jobs` prints: the action's name, a log's type, or its
      content pretty-printed as JSON or printed as it is. */
  datatype Line = ActionLine(name: string) | TypeLine(kind: Json) | JsonLine(content: Json) | TextLine(content: Json)

  datatype Record = Record(level: Level, line: Line)

  /** The answer to fetching one log file: the log document, or the
      transport's error with its title and data. */
  datatype FileFetch = Fetched(response: seq<Entry>) | FetchFailed(title: string, data: seq<Entry>)

  datatype Job = Job(status: string, logFiles: seq<FileFetch>)

  /** The records emitted, and the error that stopped logging, if any. */
  datatype LogRun = LogRun(records: seq<Record>, failure: Option<Error>)

  function Prepend(records: seq<Record>, run: LogRun): LogRun {
    LogRun(records + run.records, run.failure)
  }

  /** The records printed for one fetched log: its type if present, then its
      content if present, as JSON when its format (default "txt") is "json". */
  function FileRecords(level: Level, response: seq<Entry>): (r: seq<Record>)
    ensures |r| == (if HasKey(response, "type") then 1 else 0) + (if HasKey(response, "content") then 1 else 0)
    ensures forall i :: 0 <= i < |r| ==> r[i].level == level
    ensures HasKey(response, "type") ==> r[0].line == TypeLine(Get(response, "type").value)
    ensures HasKey(response, "content") ==>
              r[|r| - 1].line ==
                (if GetOr(response, "format", Str("txt")) == Str("json")
                 then JsonLine(Get(response, "content").value)
                 else TextLine(Get(response, "content").value))
    ensures !HasKey(response, "format") && HasKey(response, "content") ==>
              r[|r| - 1].line == TextLine(Get(response, "content").value)
  {
    var format := GetOr(response, "format", Str("txt"));
    var typeRecords := if HasKey(response, "type") then [Record(level, TypeLine(Get(response, "type").value))] else [];
    var contentRecords :=
      if HasKey(response, "content") then
        if format == Str("json") then [Record(level, JsonLine(Get(response, "content").value))]
        else [Record(level, TextLine(Get(response, "content").value))]
      else [];
    typeRecords + contentRecords
  }

  /** A failed fetch that `_log_jobs` tolerates: its error data's code is LOG_NOT_FOUND. */
  predicate IsLogNotFound(f: FileFetch) {
    f.FetchFailed? && Get(f.data, "code") == Some(Str("LOG_NOT_FOUND"))
  }

  /** A failed fetch that stops `_log_jobs`. */
  predicate IsFatal(f: FileFetch) {
    f.FetchFailed? && !IsLogNotFound(f)
  }

  /** The error a fatal fetch raises: KeyError when the error data has no
      code, the transport's error otherwise. */
  function FetchError(f: FileFetch): Error
    requires IsFatal(f)
  {
    if HasKey(f.data, "code") then ApiError(f.title, f.data) else KeyError("code")
  }

  /** The inner loop of `_log_jobs` over one job's log files. */
  function FilesLog(level: Level, files: seq<FileFetch>): LogRun
    decreases |files|
  {
    if files == [] then LogRun([], None)
    else if files[0].Fetched? then Prepend(FileRecords(level, files[0].response), FilesLog(level, files[1..]))
    else if IsLogNotFound(files[0]) then FilesLog(level, files[1..])
    else LogRun([], Some(FetchError(files[0])))
  }

  function LevelOf(job: Job): Level {
    if job.status == "failed" then ErrorLevel else InfoLevel
  }

  /** `_log_jobs` over the listed jobs. */
  function JobsLog(jobs: seq<Job>, actionName: string): LogRun
    decreases |jobs|
  {
    if jobs == [] then LogRun([], None)
    else
      var level := LevelOf(jobs[0]);
      var files := FilesLog(level, jobs[0].logFiles);
      var head := [Record(level, ActionLine(actionName))] + files.records;
      if files.failure.Some? then LogRun(head, files.failure)
      else Prepend(head, JobsLog(jobs[1..], actionName))
  }

  /** The server-side `status` filter of `job_list`. */
  function Selected(jobs: seq<Job>, status: Option<string>): (r: seq<Job>)
    ensures status.None? ==> r == jobs
    ensures status.Some? ==> forall i :: 0 <= i < |r| ==> r[i].status == status.value && r[i] in jobs
    ensures status.Some? ==> forall i :: 0 <= i < |jobs| && jobs[i].status == status.value ==> jobs[i] in r
    decreases |jobs|
  {
    if status.None? || jobs == [] then jobs
    else if jobs[0].status == status.value then [jobs[0]] + Selected(jobs[1..], status)
    else Selected(jobs[1..], status)
  }

  lemma PrependTwice(a: seq<Record>, b: seq<Record>, run: LogRun)
    ensures Prepend(a, Prepend(b, run)) == Prepend(a + b, run)
  {
    assert a + (b + run.records) == (a + b) + run.records;
  }

  /** `FilesLog` from the file at index `i` on, by the kind of that file. */
  lemma FilesLogAt(level: Level, files: seq<FileFetch>, i: nat)
    requires i < |files|
    ensures files[i].Fetched? ==>
              FilesLog(level, files[i..]) == Prepend(FileRecords(level, files[i].response), FilesLog(level, files[i + 1..]))
    ensures IsLogNotFound(files[i]) ==> FilesLog(level, files[i..]) == FilesLog(level, files[i + 1..])
    ensures IsFatal(files[i]) ==> FilesLog(level, files[i..]) == LogRun([], Some(FetchError(files[i])))
  {
    assert files[i..][1..] == files[i + 1..];
  }

  /** The loop of `_log_jobs` over one job's log files. */
  method LogFiles(level: Level, files: seq<FileFetch>) returns (records: seq<Record>, failure: Option<Error>)
    ensures LogRun(records, failure) == FilesLog(level, files)
  {
    records := [];
    var i := 0;
    assert files[0..] == files;
    while i < |files|
      invariant 0 <= i <= |files|
      invariant FilesLog(level, files) == Prepend(records, FilesLog(level, files[i..]))
    {
      var file := files[i];
      FilesLogAt(level, files, i);
      if file.FetchFailed? {
        var code := Get(file.data, "code");
        if code.None? {
          assert FilesLog(level, files[i..]) == LogRun([], Some(KeyError("code")));
          assert records + [] == records;
          return records, Some(KeyError("code"));
        }
        if code.value == Str("LOG_NOT_FOUND") {
          i := i + 1;
          continue;
        }
        assert FilesLog(level, files[i..]) == LogRun([], Some(ApiError(file.title, file.data)));
        assert records + [] == records;
        return records, Some(ApiError(file.title, file.data));
      }
      PrependTwice(records, FileRecords(level, file.response), FilesLog(level, files[i + 1..]));
      records := records + FileRecords(level, file.response);
      i := i + 1;
    }
    assert files[i..] == [];
    assert records + [] == records;
    failure := None;
  }

  /** `JobsLog` from the job at index `j` on. */
  lemma JobsLogAt(jobs: seq<Job>, actionName: string, j: nat)
    requires j < |jobs|
    ensures var level := LevelOf(jobs[j]);
            var files := FilesLog(level, jobs[j].logFiles);
            var head := [Record(level, ActionLine(actionName))] + files.records;
            JobsLog(jobs[j..], actionName) ==
              if files.failure.Some? then LogRun(head, files.failure)
              else Prepend(head, JobsLog(jobs[j + 1..], actionName))
  {
    assert jobs[j..][1..] == jobs[j + 1..];
  }

  /** `_log_jobs(**filters)`, looping over the listed jobs. */
  method LogJobs(jobs: seq<Job>, status: Option<string>, actionName: string)
    returns (records: seq<Record>, failure: Option<Error>)
    ensures LogRun(records, failure) == JobsLog(Selected(jobs, status), actionName)
  {
    var listed := Selected(jobs, status);
    records := [];
    var j := 0;
    assert listed[0..] == listed;
    while j < |listed|
      invariant 0 <= j <= |listed|
      invariant JobsLog(listed, actionName) == Prepend(records, JobsLog(listed[j..], actionName))
    {
      var job := listed[j];
      JobsLogAt(listed, actionName, j);
      var level := if job.status == "failed" then ErrorLevel else InfoLevel;
      var fileRecords, fileFailure := LogFiles(level, job.logFiles);
      var head := [Record(level, ActionLine(actionName))] + fileRecords;
      PrependTwice(records, head, JobsLog(listed[j + 1..], actionName));
      records := records + head;
      if fileFailure.Some? {
        return records, fileFailure;
      }
      j := j + 1;
    }
    assert listed[j..] == [];
    assert records + [] == records;
    failure := None;
  }

  /** A LOG_NOT_FOUND fetch is skipped: the files after it are still logged,
      exactly as if it were not in the list. */
  lemma {:induction false} LogNotFoundSkipped(level: Level, files: seq<FileFetch>, i: nat)
    requires i < |files| && IsLogNotFound(files[i])
    ensures FilesLog(level, files) == FilesLog(level, files[..i] + files[i + 1..])
    decreases i
  {
    if i == 0 {
      assert files[..0] + files[1..] == files[1..];
    } else {
      assert (files[..i] + files[i + 1..])[1..] == files[1..][..i - 1] + files[1..][i..];
      LogNotFoundSkipped(level, files[1..], i - 1);
    }
  }

  /** Logging a job's files stops exactly at its first fatal fetch, raising
      that fetch's error. */
  lemma {:induction false} FilesLogFailure(level: Level, files: seq<FileFetch>)
    ensures FilesLog(level, files).failure.Some? <==> exists i :: 0 <= i < |files| && IsFatal(files[i])
    ensures FilesLog(level, files).failure.Some? ==>
              exists i :: 0 <= i < |files| && IsFatal(files[i]) &&
                          (forall j :: 0 <= j < i ==> !IsFatal(files[j])) &&
                          FilesLog(level, files).failure == Some(FetchError(files[i]))
    decreases |files|
  {
    if files != [] {
      FilesLogFailure(level, files[1..]);
      if !IsFatal(files[0]) {
        forall i | 1 <= i < |files| ensures files[i] == files[1..][i - 1] {}
        if FilesLog(level, files).failure.Some? {
          var i :| 0 <= i < |files[1..]| && IsFatal(files[1..][i]) &&
                   (forall j :: 0 <= j < i ==> !IsFatal(files[1..][j])) &&
                   FilesLog(level, files[1..]).failure == Some(FetchError(files[1..][i]));
          assert IsFatal(files[i + 1]);
        }
      }
    }
  }

  /** How waiting for the status ended. */
  datatype WaitOutcome = Reached(status: string) | TimedOut

  /** What `wait` printed and what it returned or raised. */
  datatype Waited = Waited(records: seq<Record>, result: Result<string>)

  function Raise(run: LogRun, otherwise: Result<string>): Result<string> {
    if run.failure.Some? then Err(run.failure.value) else otherwise
  }

  /** `Task.wait(timeout, log_failed)`: the failed jobs are logged when the
      task failed, all jobs when waiting timed out; a timeout is re-raised
      as WaitTimeout. An error while logging propagates instead. */
  function Wait(outcome: WaitOutcome, logFailed: bool, jobs: seq<Job>, actionName: string): (r: Waited)
    ensures outcome.Reached? && r.result.Ok? ==> r.result.value == outcome.status
    ensures outcome.Reached? && outcome.status != "failed" ==> r == Waited([], Ok(outcome.status))
    ensures outcome.TimedOut? ==> r.result.Err?
    ensures !logFailed ==> r.records == [] && r.result == (if outcome.Reached? then Ok(outcome.status) else Err(WaitTimeout))
    ensures logFailed && outcome == Reached("failed") ==>
              r.records == JobsLog(Selected(jobs, Some("failed")), actionName).records &&
              r.result == Raise(JobsLog(Selected(jobs, Some("failed")), actionName), Ok("failed"))
    ensures logFailed && outcome.TimedOut? ==>
              r.records == JobsLog(jobs, actionName).records &&
              r.result == Raise(JobsLog(jobs, actionName), Err(WaitTimeout))
    ensures r.result.Err? ==> r.result == Err(WaitTimeout) || (logFailed && r.records != [])
  {
    match outcome
    case Reached(status) =>
      if logFailed && status == "failed" then
        var run := JobsLog(Selected(jobs, Some(status)), actionName);
        Waited(run.records, Raise(run, Ok(status)))
      else Waited([], Ok(status))
    case TimedOut =>
      if logFailed then
        var run := JobsLog(Selected(jobs, None), actionName);
        Waited(run.records, Raise(run, Err(WaitTimeout)))
      else Waited([], Err(WaitTimeout))
  }

  /** `Task.try_wait(timeout)`: `wait` with logging on, and a "failed"
      status raised as TaskFailed. */
  function TryWait(outcome: WaitOutcome, jobs: seq<Job>, actionName: string): (r: Waited)
    ensures r.records == Wait(outcome, true, jobs, actionName).records
  {
    var w := Wait(outcome, true, jobs, actionName);
    if w.result == Ok("failed") then Waited(w.records, Err(TaskFailed)) else w
  }

  /** Logging the jobs fails only on a fatal fetch of some listed job. */
  lemma {:induction false} JobsLogFailure(jobs: seq<Job>, actionName: string)
    requires forall j, i :: 0 <= j < |jobs| && 0 <= i < |jobs[j].logFiles| ==> !IsFatal(jobs[j].logFiles[i])
    ensures JobsLog(jobs, actionName).failure.None?
    decreases |jobs|
  {
    if jobs != [] {
      FilesLogFailure(LevelOf(jobs[0]), jobs[0].logFiles);
      assert forall j, i :: 0 <= j < |jobs[1..]| && 0 <= i < |jobs[1..][j].logFiles| ==>
               jobs[1..][j].logFiles[i] == jobs[j + 1].logFiles[i];
      JobsLogFailure(jobs[1..], actionName);
    }
  }

  /** When no log fetch is fatal, `try_wait` raises TaskFailed exactly when
      the task failed, returns "success" when it succeeded, and raises
      WaitTimeout when waiting timed out. */
  lemma TryWaitOutcome(outcome: WaitOutcome, jobs: seq<Job>, actionName: string)
    requires forall j, i :: 0 <= j < |jobs| && 0 <= i < |jobs[j].logFiles| ==> !IsFatal(jobs[j].logFiles[i])
    ensures TryWait(outcome, jobs, actionName).result == Err(TaskFailed) <==> outcome == Reached("failed")
    ensures outcome == Reached("success") ==> TryWait(outcome, jobs, actionName).result == Ok("success")
    ensures outcome.TimedOut? ==> TryWait(outcome, jobs, actionName).result == Err(WaitTimeout)
  {
    JobsLogFailure(jobs, actionName);
    var failed := Selected(jobs, Some("failed"));
    forall j, i | 0 <= j < |failed| && 0 <= i < |failed[j].logFiles|
      ensures !IsFatal(failed[j].logFiles[i])
    {
      var k :| 0 <= k < |jobs| && jobs[k] == failed[j];
    }
    JobsLogFailure(failed, actionName);
  }

  /** When no log fetch is fatal, `wait` returns the status it reached, a
      "failed" one included, and raises WaitTimeout when waiting timed out,
      whether or not it logs. */
  lemma WaitOutcomeNoFatal(outcome: WaitOutcome, logFailed: bool, jobs: seq<Job>, actionName: string)
    requires forall j, i :: 0 <= j < |jobs| && 0 <= i < |jobs[j].logFiles| ==> !IsFatal(jobs[j].logFiles[i])
    ensures Wait(outcome, logFailed, jobs, actionName).result ==
              (if outcome.Reached? then Ok(outcome.status) else Err(WaitTimeout))
  {
    JobsLogFailure(jobs, actionName);
    var failed := Selected(jobs, Some("failed"));
    forall j, i | 0 <= j < |failed| && 0 <= i < |failed[j].logFiles|
      ensures !IsFatal(failed[j].logFiles[i])
    {
      var k :| 0 <= k < |jobs| && jobs[k] == failed[j];
    }
    JobsLogFailure(failed, actionName);
  }

  /** `try_wait` returns only a status other than "failed". */
  lemma TryWaitNeverReturnsFailed(outcome: WaitOutcome, jobs: seq<Job>, actionName: string)
    ensures TryWait(outcome, jobs, actionName).result != Ok("failed")
    ensures TryWait(outcome, jobs, actionName).result.Ok? ==>
              outcome == Reached(TryWait(outcome, jobs, actionName).result.value)
  {
  }
}
