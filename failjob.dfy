/** The rules of the tool that forces jobs into the FAILED state
    (python/saliweb/backend/failjob.py): it refuses to run while the
    backend daemon runs, looks each named job up in every state in turn,
    asks before failing it, and reports names it cannot find. Reading the
    command line and the web service configuration are not modelled; the
    lookup `web.get_job_by_name(state, name)` is a parameter. */
module FailJob {
  import opened Base
  import opened Text
  import opened JobStates
  import opened AdminJobs

  /** `fail_job(job, force, email)`, with `reply` the line the user types:
      with `force` the job is failed without a question; otherwise it is
      failed only on a yes. `admin_fail` gets the e-mail flag as given. */
  method FailJob(job: Job, force: bool, email: bool, reply: string) returns (prompt: Option<string>)
    modifies job
    ensures prompt == if force then None else Some("Fail job " + job.name + "? ")
    ensures job.failedWithEmail ==
            if force || Confirmed(reply) then old(job.failedWithEmail) + [email] else old(job.failedWithEmail)
    ensures job.deleted == old(job.deleted)
  {
    prompt := None;
    if !force {
      prompt := Some("Fail job " + job.name + "? ");
      if !Confirmed(reply) {
        return;
      }
    }
    job.AdminFail(email);
  }

  const DaemonRunningError := "Cannot fail jobs while the backend is running. Please stop the backend first"

  /** `check_daemon_running(web)`, with `pid` the result of
      `web.get_running_pid()`: refuses exactly when a pid is recorded. */
  function CheckDaemonRunning(pid: Option<int>): (r: Result<(), string>)
    ensures r.Ok? <==> pid.None?
    ensures r.Err? ==> r.error == DaemonRunningError
  {
    if pid.Some? then Err(DaemonRunningError) else Ok(())
  }

  // ---------------------------------------------------------------------
  // find_job
  // ---------------------------------------------------------------------

  /** The job the scan over `states` returns: the lookup's hit in the first
      state that has one. */
  function FirstHit<T>(states: seq<string>, name: string, lookup: (string, string) -> Option<T>): Option<T> {
    if states == [] then None
    else if lookup(states[0], name).Some? then lookup(states[0], name)
    else FirstHit(states[1..], name, lookup)
  }

  /** `find_job(web, name, all_states)`: the states are tried in order and
      the first job found is returned; `None` when no state holds the name. */
  method FindJob<T>(name: string, states: seq<string>, lookup: (string, string) -> Option<T>) returns (job: Option<T>)
    ensures job == FirstHit(states, name, lookup)
  {
    var i := 0;
    while i < |states|
      invariant 0 <= i <= |states|
      invariant FirstHit(states, name, lookup) == FirstHit(states[i..], name, lookup)
    {
      assert states[i..][1..] == states[i + 1..];
      job := lookup(states[i], name);
      if job.Some? {
        return;
      }
      i := i + 1;
    }
    return None;
  }

  /** The hit is that of the first state where the lookup finds the name,
      and there is none exactly when no state holds it. */
  lemma {:induction false} FirstHitIsFirst<T>(states: seq<string>, name: string, lookup: (string, string) -> Option<T>)
    ensures FirstHit(states, name, lookup).None? <==>
            forall i :: 0 <= i < |states| ==> lookup(states[i], name).None?
    ensures FirstHit(states, name, lookup).Some? ==>
            exists i :: 0 <= i < |states| && FirstHit(states, name, lookup) == lookup(states[i], name) &&
                        forall j :: 0 <= j < i ==> lookup(states[j], name).None?
  {
    if states != [] {
      FirstHitIsFirst(states[1..], name, lookup);
      if lookup(states[0], name).None? {
        if FirstHit(states, name, lookup).Some? {
          var i :| 0 <= i < |states[1..]| && FirstHit(states, name, lookup) == lookup(states[1..][i], name) &&
                   forall j :: 0 <= j < i ==> lookup(states[1..][j], name).None?;
          assert FirstHit(states, name, lookup) == lookup(states[i + 1], name);
          forall j | 0 <= j < i + 1 ensures lookup(states[j], name).None? {
            if j > 0 {
              assert states[j] == states[1..][j - 1];
            }
          }
        } else {
          forall i | 0 <= i < |states| ensures lookup(states[i], name).None? {
            if i > 0 {
              assert states[i] == states[1..][i - 1];
            }
          }
        }
      }
    }
  }

  // ---------------------------------------------------------------------
  // main
  // ---------------------------------------------------------------------

  function NotFoundMessage(name: string): string {
    "Could not find job " + name
  }

  /** The lines `main` writes to standard error for the names given: one
      for each name that is in none of the states, in order. */
  function NotFoundLines<T>(names: seq<string>, states: seq<string>, lookup: (string, string) -> Option<T>): seq<string> {
    if names == [] then []
    else
      (if FirstHit(states, names[0], lookup).None? then [NotFoundMessage(names[0])] else []) +
      NotFoundLines(names[1..], states, lookup)
  }

  /** The names `main` looks for and finds, in order: the jobs it goes on to
      offer to fail. */
  function FoundJobs<T>(names: seq<string>, states: seq<string>, lookup: (string, string) -> Option<T>): seq<T> {
    if names == [] then []
    else
      (match FirstHit(states, names[0], lookup) case Some(j) => [j] case None => []) +
      FoundJobs(names[1..], states, lookup)
  }

  /** A name is reported exactly when no state holds it. */
  lemma {:induction false} NotFoundIff<T>(names: seq<string>, states: seq<string>, lookup: (string, string) -> Option<T>, name: string)
    ensures NotFoundMessage(name) in NotFoundLines(names, states, lookup) <==>
            name in names && FirstHit(states, name, lookup).None?
  {
    if names != [] {
      NotFoundIff(names[1..], states, lookup, name);
      var head := if FirstHit(states, names[0], lookup).None? then [NotFoundMessage(names[0])] else [];
      assert NotFoundLines(names, states, lookup) == head + NotFoundLines(names[1..], states, lookup);
      if NotFoundMessage(name) in head {
        assert NotFoundMessage(name)[19..] == name;
        assert NotFoundMessage(names[0])[19..] == names[0];
      }
      assert names == [names[0]] + names[1..];
    }
  }

  /** Every name is either reported or found: the reports and the jobs
      found together account for all the names given. */
  lemma {:induction false} EachNameOnce<T>(names: seq<string>, states: seq<string>, lookup: (string, string) -> Option<T>)
    ensures |NotFoundLines(names, states, lookup)| + |FoundJobs(names, states, lookup)| == |names|
  {
    if names != [] {
      EachNameOnce(names[1..], states, lookup);
    }
  }

  /** One more name: its job or its report comes first, then those of the
      names after it. */
  lemma NamesStep<T>(names: seq<string>, i: nat, states: seq<string>, lookup: (string, string) -> Option<T>)
    requires i < |names|
    ensures var hit := FirstHit(states, names[i], lookup);
            FoundJobs(names[i..], states, lookup) ==
              (if hit.Some? then [hit.value] else []) + FoundJobs(names[i + 1..], states, lookup) &&
            NotFoundLines(names[i..], states, lookup) ==
              (if hit.None? then [NotFoundMessage(names[i])] else []) + NotFoundLines(names[i + 1..], states, lookup)
  {
    assert names[i..][1..] == names[i + 1..];
  }

  lemma AppendAssoc<U>(a: seq<U>, b: seq<U>, c: seq<U>)
    ensures a + (b + c) == a + b + c
  {
  }

  /** The loop of `main` over the names: each is looked up with
      `find_job`; a job found is kept, a name not found is reported. */
  method ScanNames<T>(names: seq<string>, states: seq<string>, lookup: (string, string) -> Option<T>)
    returns (found: seq<T>, missing: seq<string>)
    ensures found == FoundJobs(names, states, lookup)
    ensures missing == NotFoundLines(names, states, lookup)
  {
    found, missing := [], [];
    var i := 0;
    while i < |names|
      invariant 0 <= i <= |names|
      invariant found + FoundJobs(names[i..], states, lookup) == FoundJobs(names, states, lookup)
      invariant missing + NotFoundLines(names[i..], states, lookup) == NotFoundLines(names, states, lookup)
    {
      NamesStep(names, i, states, lookup);
      var job := FindJob(names[i], states, lookup);
      var hit: seq<T> := if job.Some? then [job.value] else [];
      var report := if job.None? then [NotFoundMessage(names[i])] else [];
      AppendAssoc(found, hit, FoundJobs(names[i + 1..], states, lookup));
      AppendAssoc(missing, report, NotFoundLines(names[i + 1..], states, lookup));
      found, missing := found + hit, missing + report;
      i := i + 1;
    }
    assert names[i..] == [];
  }

  /** `main`, less the questions: nothing is done while the daemon runs;
      otherwise each name is looked up in every valid state, and the result
      is the list of jobs found (each then handed to `FailJob`) and the
      "Could not find job" lines. */
  method FailNamedJobs<T>(pid: Option<int>, names: seq<string>, lookup: (string, string) -> Option<T>)
    returns (r: Result<(seq<T>, seq<string>), string>)
    ensures pid.Some? ==> r == Err(DaemonRunningError)
    ensures pid.None? ==> r == Ok((FoundJobs(names, GetValidStates(), lookup), NotFoundLines(names, GetValidStates(), lookup)))
  {
    var check := CheckDaemonRunning(pid);
    if check.Err? {
      return Err(check.error);
    }
    var found, missing := ScanNames(names, GetValidStates(), lookup);
    return Ok((found, missing));
  }
}
