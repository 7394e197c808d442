/** The rules of the job deletion tool (python/saliweb/backend/deljob.py):
    which states jobs may be deleted from while the backend daemon runs,
    and the question asked before each deletion. Reading the command line,
    the web service configuration and the job lookup are not modelled. */
module DelJob {
  import opened Base
  import opened JobStates
  import opened AdminJobs
  import opened Text

  /** Why `check_valid_state` refuses: the name is not a state
      (`InvalidStateError`), or the daemon is running (`ValueError`). */
  datatype StateCheckError = BadState(error: InvalidStateError) | DaemonRunning(message: string)

  /** The states whose jobs may be deleted while the daemon runs. */
  predicate DeletableWhileRunning(state: string) {
    state == "FAILED" || state == "EXPIRED"
  }

  function RunningMessage(state: string): string {
    "Cannot delete jobs in " + state + " state while the backend is running. Please stop the backend first"
  }

  /** `check_valid_state(web, state)`, with `pid` the result of
      `web.get_running_pid()`: the state name must be one of the eight
      states, and while the daemon runs it must be FAILED or EXPIRED. */
  method CheckValidState(state: string, pid: Option<int>) returns (r: Result<(), StateCheckError>)
    ensures r.Ok? <==> IsValidState(state) && (pid.None? || DeletableWhileRunning(state))
    ensures !IsValidState(state) ==> r.Err? && r.error.BadState?
    ensures IsValidState(state) && pid.Some? && !DeletableWhileRunning(state) ==>
            r == Err(DaemonRunning(RunningMessage(state)))
  {
    var js := JobState.Create(state);
    if js.Err? {
      return Err(BadState(js.error));
    }
    if pid.Some? && state != "FAILED" && state != "EXPIRED" {
      return Err(DaemonRunning(RunningMessage(state)));
    }
    return Ok(());
  }

  /** The cases of the tool's tests with the daemon stopped: `garbage`
      and the lower-case `failed` are not states, and FAILED, EXPIRED,
      COMPLETED and RUNNING are accepted. */
  method StoppedExamples() returns (refused: seq<Result<(), StateCheckError>>, accepted: seq<bool>)
    ensures |refused| == 2 && refused[0].Err? && refused[0].error.BadState? &&
            refused[1].Err? && refused[1].error.BadState?
    ensures accepted == [true, true, true, true]
  {
    var s0 := CheckValidState("garbage", None);
    var s1 := CheckValidState("failed", None);
    refused := [s0, s1];
    assert ValidStates[5] == "FAILED" && ValidStates[6] == "EXPIRED";
    assert ValidStates[4] == "COMPLETED" && ValidStates[2] == "RUNNING";
    var s2 := CheckValidState("FAILED", None);
    var s3 := CheckValidState("EXPIRED", None);
    var s4 := CheckValidState("COMPLETED", None);
    var s5 := CheckValidState("RUNNING", None);
    accepted := [s2.Ok?, s3.Ok?, s4.Ok?, s5.Ok?];
  }

  /** The cases of the tool's tests with the daemon running, whatever its
      process id: FAILED and EXPIRED are accepted, COMPLETED and RUNNING
      refused with the message that names them. */
  method RunningExamples(pid: int) returns (accepted: seq<bool>, refused: seq<Result<(), StateCheckError>>)
    ensures accepted == [true, true]
    ensures refused == [Err(DaemonRunning(RunningMessage("COMPLETED"))), Err(DaemonRunning(RunningMessage("RUNNING")))]
  {
    assert ValidStates[5] == "FAILED" && ValidStates[6] == "EXPIRED";
    assert ValidStates[4] == "COMPLETED" && ValidStates[2] == "RUNNING";
    var r0 := CheckValidState("FAILED", Some(pid));
    var r1 := CheckValidState("EXPIRED", Some(pid));
    accepted := [r0.Ok?, r1.Ok?];
    assert !DeletableWhileRunning("COMPLETED") && !DeletableWhileRunning("RUNNING");
    var r2 := CheckValidState("COMPLETED", Some(pid));
    var r3 := CheckValidState("RUNNING", Some(pid));
    assert r2 == Err(DaemonRunning(RunningMessage("COMPLETED")));
    assert r3 == Err(DaemonRunning(RunningMessage("RUNNING")));
    refused := [r2, r3];
  }

  /** `delete_job(job, force)`, with `reply` the line the user types. With
      `force` the job is deleted without a question; otherwise the question
      is written and the job is deleted only on a yes. The question, if
      any, is returned. */
  method DeleteJob(job: Job, force: bool, reply: string) returns (prompt: Option<string>)
    modifies job
    ensures prompt == if force then None else Some("Delete job " + job.name + "? ")
    ensures job.deleted == (old(job.deleted) || force || Confirmed(reply))
    ensures job.failedWithEmail == old(job.failedWithEmail)
  {
    prompt := None;
    if !force {
      prompt := Some("Delete job " + job.name + "? ");
      if !Confirmed(reply) {
        return;
      }
    }
    job.Delete();
  }
}
